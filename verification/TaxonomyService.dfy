/** CategoryService and RuleService as code over mutable tables. Every method takes a step of the taxonomy's state
    machine and keeps the tables whole and the outbox replayable. */
module TaxonomyService {
  import opened Common
  import opened MerchantPatterns
  import opened LearnedRules
  import opened Taxonomy

  /** What every operation keeps. */
  ghost predicate Keeps(before: Db, after: Db) {
    (Integrity(before) ==> Integrity(after)) && (Replayable(before) ==> Replayable(after))
  }

  /** The given value, or what was there before. */
  ghost predicate IsGivenOr<T>(given: Option<T>, before: T, after: T) {
    after == if given.Some? then given.value else before
  }

  /** One event more, and it is this one. */
  ghost predicate Sends(before: seq<Event>, after: seq<Event>, e: Event) { after == before + [e] }

  ghost predicate IsKind(name: string, kind: CategoryType) {
    match kind
    case ExpenseType => name == "expense"
    case IncomeType => name == "income"
    case TransferType => name == "transfer"
  }

  /** An owner may have each pattern once per kind. */
  ghost predicate HasPattern(rules: RuleTable, user: int, kind: PatternType, pattern: string, besides: Option<int>) {
    exists i :: i in rules && Some(i) != besides && rules[i].user == Some(user) && rules[i].kind == kind &&
      rules[i].pattern == pattern
  }

  /** The row the caller asked for, and nothing else changed. */
  ghost predicate RuleUpdated(
    before: RuleTable, after: RuleTable, rule: int, newPattern: Option<string>, newSub: Option<int>,
    newPriority: Option<int>, newActive: Option<bool>)
  {
    && rule in before && after.Keys == before.Keys && (forall i :: i in before && i != rule ==> after[i] == before[i])
    && var o, r := before[rule], after[rule];
       && r.user == o.user && r.kind == o.kind
       && IsGivenOr(newPattern, o.pattern, r.pattern) && IsGivenOr(newSub, o.subcategory, r.subcategory)
       && IsGivenOr(newPriority, o.priority, r.priority) && IsGivenOr(newActive, o.active, r.active)
  }

  /** Corrections apart, the alphabet plays no part. */
  ghost const ANY := Alphabet((c: char) => [c], (c: char) => true, (c: char) => false)

  lemma StepKeeps(db: Db, op: Op)
    ensures Keeps(db, Apply(ANY, db, op).0)
  {
    if Integrity(db) {
      OpKeepsIntegrity(ANY, db, op);
    }
    if Replayable(db) {
      OpStaysReplayable(ANY, db, op);
    }
  }

  lemma UpdateRuleKeeps(
    db: Db, user: int, rule: int, newPattern: Option<string>, newSub: Option<int>, newPriority: Option<int>,
      newActive: Option<bool>)
    ensures Keeps(db, UpdateRuleStep(db, user, rule, newPattern, newSub, newPriority, newActive).0)
  {
    var op := Op.UpdateRule(user, rule, newPattern, newSub, newPriority, newActive);
    assert Apply(ANY, db, op) == UpdateRuleStep(db, user, rule, newPattern, newSub, newPriority, newActive);
    StepKeeps(db, op);
  }

  lemma CreateRuleKeeps(db: Db, user: int, pattern: string, subcategory: int, priority: int, active: bool)
    ensures Keeps(db, CreateRuleStep(db, user, pattern, subcategory, priority, active).0)
  {
    StepKeeps(db, Op.CreateRule(user, pattern, subcategory, priority, active));
  }

  lemma CreateCategoryKeeps(db: Db, name: string, type_: string, displayOrder: int)
    ensures Keeps(db, CreateCategoryStep(db, name, type_, displayOrder).0)
  {
    StepKeeps(db, Op.CreateCategory(name, type_, displayOrder));
  }

  lemma UpdateCategoryKeeps(db: Db, id: int, newName: Option<string>, newType: Option<string>, newOrder: Option<int>)
    ensures Keeps(db, UpdateCategoryStep(db, id, newName, newType, newOrder).0)
  {
    var op := Op.UpdateCategory(id, newName, newType, newOrder);
    assert Apply(ANY, db, op) == UpdateCategoryStep(db, id, newName, newType, newOrder);
    StepKeeps(db, op);
  }

  lemma UpdateSubCategoryKeeps(db: Db, id: int, newName: Option<string>, newCategory: Option<int>)
    ensures Keeps(db, UpdateSubCategoryStep(db, id, newName, newCategory).0)
  {
    var op := Op.UpdateSubCategory(id, newName, newCategory);
    assert Apply(ANY, db, op) == UpdateSubCategoryStep(db, id, newName, newCategory);
    StepKeeps(db, op);
  }

  class Service {
    var categories: map<int, Category>
    var subs: map<int, SubCategory>
    var merchants: map<int, Option<int>>
    var learning: State
    var nextCategory: int
    var nextSub: int
    var outbox: seq<Event>
    /** Users whose on_rules_changed callback has fired, in order. */
    var notified: seq<int>

    function Snapshot(): Db
      reads this
    {
      Db(categories, subs, merchants, learning, nextCategory, nextSub, outbox)
    }

    constructor (db: Db)
      ensures Snapshot() == db && notified == []
    {
      categories, subs, merchants, learning := db.categories, db.subs, db.merchants, db.learning;
      nextCategory, nextSub, outbox, notified := db.nextCategory, db.nextSub, db.outbox, [];
    }

    method CreateCategory(name: string, type_: string, displayOrder: int) returns (reply: Reply)
      modifies this`categories, this`nextCategory, this`outbox
      ensures (Snapshot(), reply) == CreateCategoryStep(old(Snapshot()), name, type_, displayOrder)
      ensures reply.Rejected? ==> Snapshot() == old(Snapshot())
      ensures Keeps(old(Snapshot()), Snapshot())
      ensures reply.Done? <==> ParseCategoryType(type_).Some? && !CategoryNameTaken(old(Snapshot()), name)
      ensures reply.Done? ==> categories.Keys == old(categories.Keys) + {old(nextCategory)}
      ensures reply.Done? ==> CategoryNameTaken(Snapshot(), name)
      ensures reply.Done? ==>
                var c := categories[old(nextCategory)];
                c.name == name && IsKind(type_, c.kind) && c.displayOrder == displayOrder && c.lifecycle == "active"
      ensures forall i :: i in old(categories) && i != old(nextCategory) ==>
          i in categories && categories[i] == old(categories)[i]
      ensures reply.Done? ==>
                var c := categories[old(nextCategory)];
                Sends(old(outbox), outbox, CategoryCreated(old(nextCategory), CategoryView(name, c.kind, displayOrder)))
    {
      var kind := ParseCategoryType(type_);
      if kind.None? { return Rejected(InvalidCategoryType); }
      if exists i :: i in categories && categories[i].name == name && IsActive(categories[i].lifecycle) {
        return Rejected(DuplicateCategoryName);
      }
      var c := Category(name, kind.value, displayOrder, "active");
      categories := categories[nextCategory := c];
      outbox := outbox + [CategoryCreated(nextCategory, CategoryView(c.name, c.kind, c.displayOrder))];
      nextCategory := nextCategory + 1;
      assert Snapshot() == CreateCategoryStep(old(Snapshot()), name, type_, displayOrder).0;
      CreateCategoryKeeps(old(Snapshot()), name, type_, displayOrder);
      reply := Done;
    }

    method UpdateCategory(
      id: int, newName: Option<string>, newType: Option<string>, newOrder: Option<int>) returns (reply: Reply)
      modifies this`categories, this`outbox
      ensures (Snapshot(), reply) == UpdateCategoryStep(old(Snapshot()), id, newName, newType, newOrder)
      ensures reply.Rejected? ==> Snapshot() == old(Snapshot())
      ensures Keeps(old(Snapshot()), Snapshot())
      ensures categories.Keys == old(categories.Keys)
      ensures forall i :: i in categories && i != id ==> categories[i] == old(categories)[i]
      ensures reply.Done? && newName.Some? ==> id in categories && categories[id].name == newName.value
      ensures reply.Done? ==>
                && id in categories
                && var o, c := old(categories)[id], categories[id];
                   && IsGivenOr(newName, o.name, c.name) && IsGivenOr(newOrder, o.displayOrder, c.displayOrder)
                   && (if newType.Some? then IsKind(newType.value, c.kind) else c.kind == o.kind) &&
                      c.lifecycle == o.lifecycle
      ensures reply.Done? ==>
                if newName.None? && newType.None? && newOrder.None? then outbox == old(outbox)
                else
                  var c := categories[id];
                  Sends(old(outbox), outbox, CategoryUpdated(id, CategoryView(c.name, c.kind, c.displayOrder)))
    {
      if id !in categories { return Rejected(CategoryNotFound); }
      var c := categories[id];
      if newType.Some? {
        var kind := ParseCategoryType(newType.value);
        if kind.None? { return Rejected(InvalidCategoryType); }
        c := c.(kind := kind.value);
      }
      if newName.None? && newType.None? && newOrder.None? { return Done; }
      if newName.Some? && newName.value != c.name {
        if exists i :: i in categories && categories[i].name == newName.value && IsActive(categories[i].lifecycle) {
          return Rejected(DuplicateCategoryName);
        }
      }
      if newName.Some? { c := c.(name := newName.value); }
      if newOrder.Some? { c := c.(displayOrder := newOrder.value); }
      categories := categories[id := c];
      outbox := outbox + [CategoryUpdated(id, View(c))];
      assert Snapshot() == UpdateCategoryStep(old(Snapshot()), id, newName, newType, newOrder).0;
      UpdateCategoryKeeps(old(Snapshot()), id, newName, newType, newOrder);
      reply := Done;
    }

    method DeleteCategory(id: int) returns (reply: Reply)
      modifies this`categories, this`outbox
      ensures (Snapshot(), reply) == DeleteCategoryStep(old(Snapshot()), id)
      ensures reply.Rejected? ==> Snapshot() == old(Snapshot())
      ensures Keeps(old(Snapshot()), Snapshot())
      ensures reply.Done? <==> id in old(categories) && forall i :: i in subs ==> subs[i].category != id
      ensures categories == if reply.Done? then old(categories) - {id} else old(categories)
      ensures reply.Done? ==>
                var c := old(categories)[id];
                Sends(old(outbox), outbox, CategoryDeleted(id, CategoryView(c.name, c.kind, c.displayOrder)))
    {
      if id !in categories { return Rejected(CategoryNotFound); }
      var existing := categories[id];
      if exists i :: i in subs && subs[i].category == id &&
          IsActive(subs[i].lifecycle) { return Rejected(CategoryHasSubcategories); }
      if exists i :: i in subs && subs[i].category == id { return Rejected(ForeignKey); }
      categories := categories - {id};
      outbox := outbox + [CategoryDeleted(id, View(existing))];
      assert Keeps(old(Snapshot()), Snapshot()) by {
        StepKeeps(old(Snapshot()), Op.DeleteCategory(id));
      }
      reply := Done;
    }

    method CreateSubCategory(category: int, name: string) returns (reply: Reply)
      modifies this`subs, this`nextSub, this`outbox
      ensures (Snapshot(), reply) == CreateSubCategoryStep(old(Snapshot()), category, name)
      ensures reply.Rejected? ==> Snapshot() == old(Snapshot())
      ensures Keeps(old(Snapshot()), Snapshot())
      ensures reply.Done? <==> category in categories && !SubNameTaken(old(Snapshot()), name, category, None)
      ensures reply.Done? ==> subs.Keys == old(subs.Keys) + {old(nextSub)}
      ensures reply.Done? ==> SubNameTaken(Snapshot(), name, category, None)
      ensures reply.Done? ==> subs[old(nextSub)] == SubCategory(name, category, false, "active")
      ensures forall i :: i in old(subs) && i != old(nextSub) ==> i in subs && subs[i] == old(subs)[i]
      ensures reply.Done? ==>
                Sends(old(outbox), outbox, SubCategoryCreated(old(nextSub), SubCategoryView(name, category, false)))
    {
      if category !in categories { return Rejected(CategoryNotFound); }
      if SubNameTaken(Snapshot(), name, category, None) { return Rejected(DuplicateSubCategoryName); }
      var s := SubCategory(name, category, false, "active");
      subs := subs[nextSub := s];
      outbox := outbox + [SubCategoryCreated(nextSub, SubView(s))];
      nextSub := nextSub + 1;
      assert Keeps(old(Snapshot()), Snapshot()) by {
        StepKeeps(old(Snapshot()), Op.CreateSubCategory(category, name));
      }
      reply := Done;
    }

    method UpdateSubCategory(id: int, newName: Option<string>, newCategory: Option<int>) returns (reply: Reply)
      modifies this`subs, this`outbox
      ensures (Snapshot(), reply) == UpdateSubCategoryStep(old(Snapshot()), id, newName, newCategory)
      ensures reply.Rejected? ==> Snapshot() == old(Snapshot())
      ensures Keeps(old(Snapshot()), Snapshot())
      ensures subs.Keys == old(subs.Keys) && forall i :: i in subs && i != id ==> subs[i] == old(subs)[i]
      ensures reply.Done? && newCategory.Some? && old(Integrity(Snapshot())) ==> newCategory.value in categories
      ensures reply.Done? ==>
                && id in subs
                && var o, s := old(subs)[id], subs[id];
                   && IsGivenOr(newName, o.name, s.name) && IsGivenOr(newCategory, o.category, s.category)
                   && s.isDefault == o.isDefault && s.lifecycle == o.lifecycle
      ensures reply.Done? ==>
                if newName.None? && newCategory.None? then outbox == old(outbox)
                else
                  var s := subs[id];
                  Sends(old(outbox), outbox, SubCategoryUpdated(id, SubCategoryView(s.name, s.category, s.isDefault)))
    {
      if id !in subs { return Rejected(SubCategoryNotFound); }
      var s := subs[id];
      var category := if newCategory.Some? then newCategory.value else s.category;
      var name := if newName.Some? then newName.value else s.name;
      if newCategory.Some? && newCategory.value != s.category &&
          newCategory.value !in categories { return Rejected(CategoryNotFound); }
      if newName.None? && newCategory.None? { return Done; }
      if name != s.name || category != s.category {
        if SubNameTaken(Snapshot(), name, category, Some(id)) { return Rejected(DuplicateSubCategoryName); }
      }
      s := s.(name := name, category := category);
      subs := subs[id := s];
      outbox := outbox + [SubCategoryUpdated(id, SubView(s))];
      assert Snapshot() == UpdateSubCategoryStep(old(Snapshot()), id, newName, newCategory).0;
      UpdateSubCategoryKeeps(old(Snapshot()), id, newName, newCategory);
      reply := Done;
    }

    method DeleteSubCategory(id: int) returns (reply: Reply)
      modifies this`subs, this`outbox
      ensures (Snapshot(), reply) == DeleteSubCategoryStep(old(Snapshot()), id)
      ensures reply.Rejected? ==> Snapshot() == old(Snapshot())
      ensures Keeps(old(Snapshot()), Snapshot())
      ensures reply.Done? <==>
              id in old(subs) && old(subs)[id].name != FALLBACK_SUBCATEGORY_NAME &&
              (forall i :: i in merchants ==> merchants[i] != Some(id)) &&
              forall i :: i in learning.rules ==> learning.rules[i].subcategory != id
      ensures subs == if reply.Done? then old(subs) - {id} else old(subs)
      ensures reply.Done? ==>
                var s := old(subs)[id];
                Sends(old(outbox), outbox, SubCategoryDeleted(id, SubCategoryView(s.name, s.category, s.isDefault)))
    {
      if id !in subs { return Rejected(SubCategoryNotFound); }
      var existing := subs[id];
      if existing.name == FALLBACK_SUBCATEGORY_NAME { return Rejected(SubCategoryInUse); }
      if exists i :: i in merchants && merchants[i] == Some(id) { return Rejected(SubCategoryInUse); }
      if exists i :: i in learning.rules && learning.rules[i].subcategory == id { return Rejected(SubCategoryInUse); }
      subs := subs - {id};
      outbox := outbox + [SubCategoryDeleted(id, SubView(existing))];
      assert Keeps(old(Snapshot()), Snapshot()) by {
        StepKeeps(old(Snapshot()), Op.DeleteSubCategory(id));
      }
      reply := Done;
    }

    method CreateRule(user: int, pattern: string, subcategory: int, priority: int, active: bool) returns (reply: Reply)
      modifies this`learning, this`notified
      ensures (Snapshot(), reply) == CreateRuleStep(old(Snapshot()), user, pattern, subcategory, priority, active)
      ensures notified == old(notified) + if reply.Done? then [user] else []
      ensures Keeps(old(Snapshot()), Snapshot())
      ensures reply.Done? <==> subcategory in subs && !HasPattern(old(learning).rules, user, Keyword, pattern, None)
      ensures reply.Done? ==>
                learning.rules == old(learning).rules[old(learning).nextId := Rule(Some(user), priority, Keyword,
                  pattern, subcategory, active)]
      ensures reply.Rejected? ==> learning == old(learning)
    {
      if subcategory !in subs { return Rejected(SubCategoryNotFound); }
      if PatternTaken(learning.rules, user, Keyword, pattern, None) { return Rejected(DuplicateRule); }
      var r := Rule(Some(user), priority, Keyword, pattern, subcategory, active);
      learning := learning.(rules := learning.rules[learning.nextId := r], nextId := learning.nextId + 1);
      notified := notified + [user];
      assert Snapshot() == CreateRuleStep(old(Snapshot()), user, pattern, subcategory, priority, active).0;
      CreateRuleKeeps(old(Snapshot()), user, pattern, subcategory, priority, active);
      reply := Done;
    }

    method UpdateRule(
      user: int, rule: int, newPattern: Option<string>, newSub: Option<int>, newPriority: Option<int>,
        newActive: Option<bool>) returns (reply: Reply)
      modifies this`learning, this`notified
      ensures (Snapshot(), reply) == UpdateRuleStep(old(Snapshot()), user, rule, newPattern, newSub, newPriority,
          newActive)
      ensures notified == old(notified) + if reply.Done? then [user] else []
      ensures Keeps(old(Snapshot()), Snapshot())
      ensures reply.Done? <==>
              && rule in old(learning).rules && old(learning).rules[rule].user == Some(user)
              && (newSub.Some? ==> newSub.value in subs)
              && var o := old(learning).rules[rule];
                 !HasPattern(old(learning).rules, user, o.kind, if newPattern.Some? then newPattern.value
                   else o.pattern, Some(rule))
      ensures reply.Done? ==>
                RuleUpdated(old(learning).rules, learning.rules, rule, newPattern, newSub, newPriority, newActive)
      ensures reply.Rejected? ==> learning == old(learning)
    {
      if rule !in learning.rules || learning.rules[rule].user != Some(user) { return Rejected(RuleNotFound); }
      if newSub.Some? && newSub.value !in subs { return Rejected(SubCategoryNotFound); }
      var r := learning.rules[rule];
      r := r.(pattern := Or(newPattern, r.pattern), subcategory := Or(newSub, r.subcategory),
              priority := Or(newPriority, r.priority), active := Or(newActive, r.active));
      if PatternTaken(learning.rules, user, r.kind, r.pattern, Some(rule)) { return Rejected(DuplicateRule); }
      learning := learning.(rules := learning.rules[rule := r]);
      notified := notified + [user];
      assert Snapshot() == UpdateRuleStep(old(Snapshot()), user, rule, newPattern, newSub, newPriority, newActive).0;
      UpdateRuleKeeps(old(Snapshot()), user, rule, newPattern, newSub, newPriority, newActive);
      reply := Done;
    }

    method DeleteRule(user: int, rule: int) returns (reply: Reply)
      modifies this`learning, this`notified
      ensures (Snapshot(), reply) == DeleteRuleStep(old(Snapshot()), user, rule)
      ensures notified == old(notified) + if reply.Done? then [user] else []
      ensures Keeps(old(Snapshot()), Snapshot())
      ensures reply.Done? <==> rule in old(learning).rules && old(learning).rules[rule].user == Some(user)
      ensures learning.rules == if reply.Done? then old(learning).rules - {rule} else old(learning).rules
    {
      if rule !in learning.rules || learning.rules[rule].user != Some(user) { return Rejected(RuleNotFound); }
      learning := learning.(rules := learning.rules - {rule});
      notified := notified + [user];
      assert Keeps(old(Snapshot()), Snapshot()) by {
        StepKeeps(old(Snapshot()), Op.DeleteRule(user, rule));
      }
      reply := Done;
    }
  }
}
