/**
  The taxonomy and its references as a state machine: category, subcategory and rule operations and
  learned corrections, each one atomic transaction. Rejected operations change nothing.
*/
module Taxonomy {
  import opened Common
  import opened MerchantPatterns
  import opened LearnedRules

  const FALLBACK_SUBCATEGORY_NAME := "Anden"

  datatype CategoryType = ExpenseType | IncomeType | TransferType

  datatype Category = Category(name: string, kind: CategoryType, displayOrder: int, lifecycle: string)

  datatype SubCategory = SubCategory(name: string, category: int, isDefault: bool, lifecycle: string)

  /** The columns an event carries. */
  datatype CategoryView = CategoryView(name: string, kind: CategoryType, displayOrder: int)
  datatype SubCategoryView = SubCategoryView(name: string, category: int, isDefault: bool)

  datatype Event =
    | CategoryCreated(id: int, category: CategoryView)
    | CategoryUpdated(id: int, category: CategoryView)
    | CategoryDeleted(id: int, category: CategoryView)
    | SubCategoryCreated(id: int, sub: SubCategoryView)
    | SubCategoryUpdated(id: int, sub: SubCategoryView)
    | SubCategoryDeleted(id: int, sub: SubCategoryView)

  datatype Db = Db(
    categories: map<int, Category>,
    subs: map<int, SubCategory>,
    merchants: map<int, Option<int>>,
    learning: State,
    nextCategory: int,
    nextSub: int,
    outbox: seq<Event>)

  datatype Error =
    | InvalidCategoryType | CategoryNotFound | DuplicateCategoryName | CategoryHasSubcategories | ForeignKey
    | SubCategoryNotFound | DuplicateSubCategoryName | SubCategoryInUse | RuleNotFound | DuplicateRule

  datatype Reply = Done | Rejected(error: Error)

  datatype Op =
    | CreateCategory(name: string, type_: string, displayOrder: int)
    | UpdateCategory(id: int, newName: Option<string>, newType: Option<string>, newOrder: Option<int>)
    | DeleteCategory(id: int)
    | CreateSubCategory(category: int, name: string)
    | UpdateSubCategory(id: int, newName: Option<string>, newCategory: Option<int>)
    | DeleteSubCategory(id: int)
    | CreateRule(user: int, pattern: string, subcategory: int, priority: int, active: bool)
    | UpdateRule(user: int, rule: int, newPattern: Option<string>, newSub: Option<int>, newPriority: Option<int>,
      newActive: Option<bool>)
    | DeleteRule(user: int, rule: int)
    | Correct(correction: Correction)

  predicate IsActive(lifecycle: string) { lifecycle == "active" }

  function ParseCategoryType(value: string): (r: Option<CategoryType>)
    ensures r == Some(ExpenseType) <==> value == "expense"
    ensures r == Some(IncomeType) <==> value == "income"
    ensures r == Some(TransferType) <==> value == "transfer"
  {
    match value
    case "expense" => Some(ExpenseType)
    case "income" => Some(IncomeType)
    case "transfer" => Some(TransferType)
    case _ => None
  }

  function Or<T>(o: Option<T>, d: T): T { if o.Some? then o.value else d }

  function View(c: Category): CategoryView { CategoryView(c.name, c.kind, c.displayOrder) }

  function SubView(s: SubCategory): SubCategoryView { SubCategoryView(s.name, s.category, s.isDefault) }

  // ----- queries of the repositories -----

  predicate CategoryNameTaken(db: Db, name: string) {
    exists i :: i in db.categories && db.categories[i].name == name && IsActive(db.categories[i].lifecycle)
  }

  predicate HasActiveSubs(db: Db, category: int) {
    exists i :: i in db.subs && db.subs[i].category == category && IsActive(db.subs[i].lifecycle)
  }

  predicate IsReferencedCategory(db: Db, category: int) {
    exists i :: i in db.subs && db.subs[i].category == category
  }

  predicate SubNameTaken(db: Db, name: string, category: int, except: Option<int>) {
    exists i :: i in db.subs && Some(i) != except && db.subs[i].name == name && db.subs[i].category == category &&
      IsActive(db.subs[i].lifecycle)
  }

  predicate HasMerchants(db: Db, sub: int) { exists i :: i in db.merchants && db.merchants[i] == Some(sub) }

  predicate HasRules(db: Db, sub: int) { exists i :: i in db.learning.rules && db.learning.rules[i].subcategory == sub }

  predicate PatternTaken(rules: RuleTable, user: int, kind: PatternType, pattern: string, except: Option<int>) {
    exists i :: i in rules && Some(i) != except && rules[i].user == Some(user) && rules[i].kind == kind &&
      rules[i].pattern == pattern
  }

  // ----- operations -----

  function CreateCategoryStep(db: Db, name: string, type_: string, displayOrder: int): (Db, Reply) {
    var kind := ParseCategoryType(type_);
    if kind.None? then (db, Rejected(InvalidCategoryType))
    else if CategoryNameTaken(db, name) then (db, Rejected(DuplicateCategoryName))
    else
      var c := Category(name, kind.value, displayOrder, "active");
      (db.(categories := db.categories[db.nextCategory := c], nextCategory := db.nextCategory + 1,
           outbox := db.outbox + [CategoryCreated(db.nextCategory, View(c))]), Done)
  }

  function UpdateCategoryStep(
    db: Db, id: int, newName: Option<string>, newType: Option<string>, newOrder: Option<int>): (Db, Reply) {
    if id !in db.categories then (db, Rejected(CategoryNotFound))
    else
      var existing := db.categories[id];
      var kind := if newType.Some? then ParseCategoryType(newType.value) else Some(existing.kind);
      if kind.None? then (db, Rejected(InvalidCategoryType))
      else if newName.None? && newType.None? && newOrder.None? then (db, Done)
      else if newName.Some? && newName.value != existing.name && CategoryNameTaken(db, newName.value)
          then (db, Rejected(DuplicateCategoryName))
      else
        var c := existing.(name := Or(newName, existing.name), kind := kind.value,
            displayOrder := Or(newOrder, existing.displayOrder));
        (db.(categories := db.categories[id := c], outbox := db.outbox + [CategoryUpdated(id, View(c))]), Done)
  }

  /** The service only counts active subcategories; the foreign key also refuses deprecated ones. */
  function DeleteCategoryStep(db: Db, id: int): (Db, Reply) {
    if id !in db.categories then (db, Rejected(CategoryNotFound))
    else if HasActiveSubs(db, id) then (db, Rejected(CategoryHasSubcategories))
    else if IsReferencedCategory(db, id) then (db, Rejected(ForeignKey))
    else (db.(categories := db.categories - {id}, outbox := db.outbox + [CategoryDeleted(id, View(db.categories[id]))]),
      Done)
  }

  function CreateSubCategoryStep(db: Db, category: int, name: string): (Db, Reply) {
    if category !in db.categories then (db, Rejected(CategoryNotFound))
    else if SubNameTaken(db, name, category, None) then (db, Rejected(DuplicateSubCategoryName))
    else
      var s := SubCategory(name, category, false, "active");
      (db.(subs := db.subs[db.nextSub := s], nextSub := db.nextSub + 1,
           outbox := db.outbox + [SubCategoryCreated(db.nextSub, SubView(s))]), Done)
  }

  function UpdateSubCategoryStep(db: Db, id: int, newName: Option<string>, newCategory: Option<int>): (Db, Reply) {
    if id !in db.subs then (db, Rejected(SubCategoryNotFound))
    else
      var existing := db.subs[id];
      var category, name := Or(newCategory, existing.category), Or(newName, existing.name);
      if newCategory.Some? && newCategory.value != existing.category && newCategory.value !in db.categories
          then (db, Rejected(CategoryNotFound))
      else if newName.None? && newCategory.None? then (db, Done)
      else if (name, category) != (existing.name, existing.category) && SubNameTaken(db, name, category, Some(id)) then
        (db, Rejected(DuplicateSubCategoryName))
      else
        var s := existing.(name := name, category := category);
        (db.(subs := db.subs[id := s], outbox := db.outbox + [SubCategoryUpdated(id, SubView(s))]), Done)
  }

  function DeleteSubCategoryStep(db: Db, id: int): (Db, Reply) {
    if id !in db.subs then (db, Rejected(SubCategoryNotFound))
    else if db.subs[id].name == FALLBACK_SUBCATEGORY_NAME || HasMerchants(db, id) || HasRules(db, id)
        then (db, Rejected(SubCategoryInUse))
    else (db.(subs := db.subs - {id}, outbox := db.outbox + [SubCategoryDeleted(id, SubView(db.subs[id]))]), Done)
  }

  function SetRules(db: Db, rules: RuleTable): Db { db.(learning := db.learning.(rules := rules)) }

  function CreateRuleStep(
    db: Db, user: int, pattern: string, subcategory: int, priority: int, active: bool): (Db, Reply) {
    if subcategory !in db.subs then (db, Rejected(SubCategoryNotFound))
    else if PatternTaken(db.learning.rules, user, Keyword, pattern, None) then (db, Rejected(DuplicateRule))
    else
      var r := Rule(Some(user), priority, Keyword, pattern, subcategory, active);
      (db.(learning := db.learning.(rules := db.learning.rules[db.learning.nextId := r],
        nextId := db.learning.nextId + 1)), Done)
  }

  function UpdateRuleStep(
    db: Db, user: int, rule: int, newPattern: Option<string>, newSub: Option<int>, newPriority: Option<int>,
      newActive: Option<bool>): (Db, Reply)
  {
    var rules := db.learning.rules;
    if rule !in rules || rules[rule].user != Some(user) then (db, Rejected(RuleNotFound))
    else if newSub.Some? && newSub.value !in db.subs then (db, Rejected(SubCategoryNotFound))
    else
      var r := rules[rule];
      var r' := r.(pattern := Or(newPattern, r.pattern), subcategory := Or(newSub, r.subcategory),
          priority := Or(newPriority, r.priority), active := Or(newActive, r.active));
      if PatternTaken(rules, user, r'.kind, r'.pattern, Some(rule)) then (db, Rejected(DuplicateRule))
      else (SetRules(db, rules[rule := r']), Done)
  }

  function DeleteRuleStep(db: Db, user: int, rule: int): (Db, Reply) {
    var rules := db.learning.rules;
    if rule !in rules || rules[rule].user != Some(user) then (db, Rejected(RuleNotFound))
        else (SetRules(db, rules - {rule}), Done)
  }

  ghost function CorrectStep(a: Alphabet, db: Db, c: Correction): (Db, Reply) {
    (db.(learning := Handle(a, db.subs.Keys, db.learning, c)), Done)
  }

  ghost function Apply(a: Alphabet, db: Db, op: Op): (Db, Reply) {
    match op
    case CreateCategory(name, type_, order) => CreateCategoryStep(db, name, type_, order)
    case UpdateCategory(id, name, type_, order) => UpdateCategoryStep(db, id, name, type_, order)
    case DeleteCategory(id) => DeleteCategoryStep(db, id)
    case CreateSubCategory(category, name) => CreateSubCategoryStep(db, category, name)
    case UpdateSubCategory(id, name, category) => UpdateSubCategoryStep(db, id, name, category)
    case DeleteSubCategory(id) => DeleteSubCategoryStep(db, id)
    case CreateRule(user, pattern, sub, priority, active) => CreateRuleStep(db, user, pattern, sub, priority, active)
    case UpdateRule(user, rule, pattern, sub, priority, active) => UpdateRuleStep(db, user, rule, pattern, sub,
      priority, active)
    case DeleteRule(user, rule) => DeleteRuleStep(db, user, rule)
    case Correct(c) => CorrectStep(a, db, c)
  }

  ghost function Run(a: Alphabet, db: Db, ops: seq<Op>): Db {
    if ops == [] then db else Apply(a, Run(a, db, ops[..|ops| - 1]), ops[|ops| - 1]).0
  }

  // ----- integrity -----

  ghost predicate ParentsExist(db: Db) { forall i :: i in db.subs ==> db.subs[i].category in db.categories }

  predicate IsActiveCategory(db: Db, i: int) { i in db.categories && IsActive(db.categories[i].lifecycle) }

  predicate IsActiveSub(db: Db, i: int) { i in db.subs && IsActive(db.subs[i].lifecycle) }

  ghost predicate UniqueCategoryNames(db: Db) {
    forall i, j :: IsActiveCategory(db, i) && IsActiveCategory(db, j) && i != j ==>
      db.categories[i].name != db.categories[j].name
  }

  ghost predicate UniqueSubNames(db: Db) {
    forall i, j :: IsActiveSub(db, i) && IsActiveSub(db, j) && i != j ==>
      (db.subs[i].name, db.subs[i].category) != (db.subs[j].name, db.subs[j].category)
  }

  ghost predicate TargetsExist(db: Db) {
    && (forall i :: i in db.learning.rules ==> db.learning.rules[i].subcategory in db.subs)
    && (forall i :: i in db.merchants && db.merchants[i].Some? ==> db.merchants[i].value in db.subs)
  }

  ghost predicate IdsFresh(db: Db) {
    && (forall i :: i in db.categories ==> i < db.nextCategory)
    && (forall i :: i in db.subs ==> i < db.nextSub)
    && FreshIds(db.learning)
  }

  ghost predicate Integrity(db: Db) {
    && ParentsExist(db) && UniqueCategoryNames(db) && UniqueSubNames(db)
    && TargetsExist(db) && UniquePatterns(db.learning.rules) && IdsFresh(db)
  }

  lemma CategoryOpsKeepIntegrity(a: Alphabet, db: Db, op: Op)
    requires Integrity(db) && (op.CreateCategory? || op.UpdateCategory? || op.DeleteCategory?)
    ensures Integrity(Apply(a, db, op).0)
  {
  }

  lemma CreateSubKeepsIntegrity(a: Alphabet, db: Db, op: Op)
    requires Integrity(db) && op.CreateSubCategory?
    ensures Integrity(Apply(a, db, op).0)
  {
  }

  lemma UpdateSubKeepsIntegrity(a: Alphabet, db: Db, op: Op)
    requires Integrity(db) && op.UpdateSubCategory?
    ensures Integrity(Apply(a, db, op).0)
  {
  }

  lemma DeleteSubKeepsIntegrity(a: Alphabet, db: Db, op: Op)
    requires Integrity(db) && op.DeleteSubCategory?
    ensures Integrity(Apply(a, db, op).0)
  {
  }

  /** A rule may be written when its target exists and no other rule of its owner has the same pattern. */
  lemma WriteRuleKeepsIntegrity(db: Db, id: int, r: Rule, nextId: int)
    requires Integrity(db) && r.subcategory in db.subs && r.user.Some? && id < nextId && db.learning.nextId <= nextId
    requires !PatternTaken(db.learning.rules, r.user.value, r.kind, r.pattern, Some(id))
    ensures Integrity(db.(learning := db.learning.(rules := db.learning.rules[id := r], nextId := nextId)))
  {
    var rules, rules' := db.learning.rules, db.learning.rules[id := r];
    forall i, j | i in rules' && j in rules' && i != j && rules'[i].user.Some?
      ensures (rules'[i].user, rules'[i].kind, rules'[i].pattern) != (rules'[j].user, rules'[j].kind, rules'[j].pattern)
    {
      if i != id && j != id { assert i in rules && j in rules; }
    }
  }

  lemma RuleOpsKeepIntegrity(a: Alphabet, db: Db, op: Op)
    requires Integrity(db) && (op.CreateRule? || op.UpdateRule? || op.DeleteRule?)
    ensures Integrity(Apply(a, db, op).0)
  {
    var l := db.learning;
    if op.CreateRule? && Apply(a, db, op).1 == Done {
      WriteRuleKeepsIntegrity(db, l.nextId,
        Rule(Some(op.user), op.priority, Keyword, op.pattern, op.subcategory, op.active), l.nextId + 1);
    } else if op.UpdateRule? && Apply(a, db, op).1 == Done {
      var db' := Apply(a, db, op).0;
      WriteRuleKeepsIntegrity(db, op.rule, db'.learning.rules[op.rule], l.nextId);
    }
  }

  lemma CorrectKeepsIntegrity(a: Alphabet, db: Db, c: Correction)
    requires Integrity(db)
    ensures Integrity(Apply(a, db, Correct(c)).0)
  {
    if !IsRepeat(db.learning.inbox, c) && Learnable(a, db.subs.Keys, c) {
      LearnKeepsTable(db.learning, c.user, PatternOf(a, c), c.subcategory);
    }
  }

  lemma OpKeepsIntegrity(a: Alphabet, db: Db, op: Op)
    requires Integrity(db)
    ensures Integrity(Apply(a, db, op).0)
  {
    match op
    case CreateCategory(_, _, _) => CategoryOpsKeepIntegrity(a, db, op);
    case UpdateCategory(_, _, _, _) => CategoryOpsKeepIntegrity(a, db, op);
    case DeleteCategory(_) => CategoryOpsKeepIntegrity(a, db, op);
    case CreateSubCategory(_, _) => CreateSubKeepsIntegrity(a, db, op);
    case UpdateSubCategory(_, _, _) => UpdateSubKeepsIntegrity(a, db, op);
    case DeleteSubCategory(_) => DeleteSubKeepsIntegrity(a, db, op);
    case CreateRule(_, _, _, _, _) => RuleOpsKeepIntegrity(a, db, op);
    case UpdateRule(_, _, _, _, _, _) => RuleOpsKeepIntegrity(a, db, op);
    case DeleteRule(_, _) => RuleOpsKeepIntegrity(a, db, op);
    case Correct(c) => CorrectKeepsIntegrity(a, db, c);
  }

  /** Every interleaving of atomic taxonomy, rule and correction operations keeps the taxonomy whole. */
  lemma {:induction false} RunKeepsIntegrity(a: Alphabet, db: Db, ops: seq<Op>)
    requires Integrity(db)
    ensures Integrity(Run(a, db, ops))
  {
    if ops == [] {
    } else {
      RunKeepsIntegrity(a, db, ops[..|ops| - 1]);
      OpKeepsIntegrity(a, Run(a, db, ops[..|ops| - 1]), ops[|ops| - 1]);
    }
  }

  /** The service's own guard lets a category go exactly when none of its subcategories is active; a parent
      is then lost exactly when a deprecated one remains, and that is what the foreign key refuses. */
  lemma GuardAloneWouldOrphan(db: Db, id: int)
    requires Integrity(db) && id in db.categories && !HasActiveSubs(db, id)
    ensures ParentsExist(db.(categories := db.categories - {id})) <==> !IsReferencedCategory(db, id)
    ensures DeleteCategoryStep(db, id).1 == Done <==> !IsReferencedCategory(db, id)
  {
    if !IsReferencedCategory(db, id) {
      forall i | i in db.subs ensures db.subs[i].category in db.categories - {id} {}
    }
  }

  // ----- names over all rows, retired ones included -----

  ghost predicate AllNamesDistinct(db: Db) {
    forall i, j :: i in db.categories && j in db.categories && i != j ==> db.categories[i].name != db.categories[j].name
  }

  ghost predicate AllSubNamesDistinct(db: Db) {
    forall i, j :: i in db.subs && j in db.subs && i != j && db.subs[i].category == db.subs[j].category ==>
      db.subs[i].name != db.subs[j].name
  }

  /** A retired category carries the name. */
  ghost predicate IsRetiredName(db: Db, name: string) {
    exists i :: i in db.categories && !IsActive(db.categories[i].lifecycle) && db.categories[i].name == name
  }

  ghost predicate IsRetiredSubName(db: Db, name: string, category: int) {
    exists i :: i in db.subs && !IsActive(db.subs[i].lifecycle) && db.subs[i].name == name &&
      db.subs[i].category == category
  }

  /** The operation gives a category a name it did not have and that a retired one carries. */
  ghost predicate ReusesRetiredName(db: Db, op: Op) {
    || (op.CreateCategory? && IsRetiredName(db, op.name))
    || (op.UpdateCategory? && op.id in db.categories && op.newName.Some? &&
        op.newName.value != db.categories[op.id].name && IsRetiredName(db, op.newName.value))
  }

  /** The same for a subcategory, whose name counts within its parent: it may be created, renamed or moved. */
  ghost predicate ReusesRetiredSubName(db: Db, op: Op) {
    || (op.CreateSubCategory? && IsRetiredSubName(db, op.name, op.category))
    || (op.UpdateSubCategory? && op.id in db.subs &&
        var s := db.subs[op.id];
        var name, category := Or(op.newName, s.name), Or(op.newCategory, s.category);
        (name, category) != (s.name, s.category) && IsRetiredSubName(db, name, category))
  }

  /** Putting one named row into a table of distinct names keeps them distinct unless another row has the name. */
  lemma PutCategory(db: Db, id: int, c: Category, db': Db)
    requires AllNamesDistinct(db) && db'.categories == db.categories[id := c]
    ensures AllNamesDistinct(db') <==> forall i :: i in db.categories && i != id ==> db.categories[i].name != c.name
  {
    if AllNamesDistinct(db') {
      forall i | i in db.categories && i != id ensures db.categories[i].name != c.name {
        assert db'.categories[i].name != db'.categories[id].name;
      }
    }
  }

  lemma PutSub(db: Db, id: int, s: SubCategory, db': Db)
    requires AllSubNamesDistinct(db) && db'.subs == db.subs[id := s]
    ensures AllSubNamesDistinct(db') <==>
            forall i :: i in db.subs && i != id && db.subs[i].category == s.category ==> db.subs[i].name != s.name
  {
    if AllSubNamesDistinct(db') {
      forall i | i in db.subs && i != id && db.subs[i].category == s.category ensures db.subs[i].name != s.name {
        assert db'.subs[i].category == db'.subs[id].category;
      }
    }
  }

  /** Names are checked against active rows only. An operation that succeeds keeps all category names distinct if and
      only if it does not give out the name of a retired category. */
  lemma CategoryNamesStayDistinctIff(a: Alphabet, db: Db, op: Op)
    requires IdsFresh(db) && AllNamesDistinct(db) && Apply(a, db, op).1 == Done
    ensures AllNamesDistinct(Apply(a, db, op).0) <==> !ReusesRetiredName(db, op)
  {
    var db' := Apply(a, db, op).0;
    if op.CreateCategory? {
      PutCategory(db, db.nextCategory, db'.categories[db.nextCategory], db');
    } else if op.UpdateCategory? {
      if db' != db {
        PutCategory(db, op.id, db'.categories[op.id], db');
      }
    } else {
      CategoriesShrink(a, db, op);
    }
  }

  lemma CategoriesShrink(a: Alphabet, db: Db, op: Op)
    requires !op.CreateCategory? && !op.UpdateCategory?
    ensures Apply(a, db, op).0.categories == db.categories ||
        (op.DeleteCategory? && Apply(a, db, op).0.categories == db.categories - {op.id})
  {
  }

  lemma SubsShrink(a: Alphabet, db: Db, op: Op)
    requires !op.CreateSubCategory? && !op.UpdateSubCategory?
    ensures Apply(a, db, op).0.subs == db.subs ||
        (op.DeleteSubCategory? && Apply(a, db, op).0.subs == db.subs - {op.id})
  {
  }

  /** The same for subcategory names within a parent. */
  lemma SubNamesStayDistinctIff(a: Alphabet, db: Db, op: Op)
    requires IdsFresh(db) && AllSubNamesDistinct(db) && Apply(a, db, op).1 == Done
    ensures AllSubNamesDistinct(Apply(a, db, op).0) <==> !ReusesRetiredSubName(db, op)
  {
    var db' := Apply(a, db, op).0;
    if op.CreateSubCategory? {
      PutSub(db, db.nextSub, db'.subs[db.nextSub], db');
    } else if op.UpdateSubCategory? {
      if db' != db {
        PutSub(db, op.id, db'.subs[op.id], db');
      }
    } else {
      SubsShrink(a, db, op);
    }
  }

  ghost predicate NoneRetired(db: Db) {
    && (forall i :: i in db.categories ==> IsActive(db.categories[i].lifecycle))
    && (forall i :: i in db.subs ==> IsActive(db.subs[i].lifecycle))
  }

  lemma OpRetiresNothing(a: Alphabet, db: Db, op: Op)
    requires NoneRetired(db)
    ensures NoneRetired(Apply(a, db, op).0)
  {
  }

  /** From tables without retired rows every run keeps all names distinct. */
  lemma {:induction false} WithoutRetiredNamesStayDistinct(a: Alphabet, db: Db, ops: seq<Op>)
    requires Integrity(db) && NoneRetired(db)
    ensures NoneRetired(Run(a, db, ops))
    ensures AllNamesDistinct(Run(a, db, ops)) && AllSubNamesDistinct(Run(a, db, ops))
  {
    RunKeepsIntegrity(a, db, ops);
    if ops == [] {
    } else {
      WithoutRetiredNamesStayDistinct(a, db, ops[..|ops| - 1]);
      OpRetiresNothing(a, Run(a, db, ops[..|ops| - 1]), ops[|ops| - 1]);
    }
  }

  /** A name comes back: a category under the name of a retired one, and in it a subcategory likewise. */
  lemma RetiredNamesCanReturn(a: Alphabet) returns (db: Db, ops: seq<Op>)
    ensures Integrity(db) && AllNamesDistinct(db) && AllSubNamesDistinct(db)
    ensures !AllNamesDistinct(Run(a, db, ops)) && !AllSubNamesDistinct(Run(a, db, ops))
  {
    var food := Category("Mad", ExpenseType, 0, "deprecated");
    var bread := SubCategory("Brød", 1, true, "deprecated");
    db := Db(map[1 := food], map[1 := bread], map[], State(map[], 1, {}), 2, 2, []);
    var first, second := CreateCategory("Mad", "expense", 0), CreateSubCategory(1, "Brød");
    ops := [first, second];
    var mid := Apply(a, db, first).0;
    assert ops[..1] == [first] && ops[..1][..0] == [] && Run(a, db, ops[..1]) == mid;
    assert Run(a, db, ops) == Apply(a, mid, second).0;
    var end := Run(a, db, ops);
    assert end.categories[1].name == end.categories[2].name;
    assert end.subs[1].name == end.subs[2].name && end.subs[1].category == end.subs[2].category;
  }

  // ----- the outbox replays to the tables -----

  datatype Tables = Tables(categories: map<int, CategoryView>, subs: map<int, SubCategoryView>)

  function ReplayEvent(t: Tables, e: Event): Tables {
    match e
    case CategoryCreated(id, c) => t.(categories := t.categories[id := c])
    case CategoryUpdated(id, c) => t.(categories := t.categories[id := c])
    case CategoryDeleted(id, _) => t.(categories := t.categories - {id})
    case SubCategoryCreated(id, s) => t.(subs := t.subs[id := s])
    case SubCategoryUpdated(id, s) => t.(subs := t.subs[id := s])
    case SubCategoryDeleted(id, _) => t.(subs := t.subs - {id})
  }

  /** Created and updated upsert, deleted removes. */
  function Replay(events: seq<Event>): Tables {
    if events == [] then Tables(map[], map[]) else ReplayEvent(Replay(events[..|events| - 1]), events[|events| - 1])
  }

  function CategoryViews(categories: map<int, Category>): map<int, CategoryView> {
    map i | i in categories :: View(categories[i])
  }

  function SubViews(subs: map<int, SubCategory>): map<int, SubCategoryView> { map i | i in subs :: SubView(subs[i]) }

  ghost predicate Replayable(db: Db) { Replay(db.outbox) == Tables(CategoryViews(db.categories), SubViews(db.subs)) }

  lemma ReplayOneMore(events: seq<Event>, e: Event)
    ensures Replay(events + [e]) == ReplayEvent(Replay(events), e)
  {
    assert (events + [e])[..|events|] == events;
  }

  lemma PutCategoryReplays(db: Db, id: int, c: Category, e: Event, db': Db)
    requires Replayable(db) && (e == CategoryCreated(id, View(c)) || e == CategoryUpdated(id, View(c)))
    requires db'.categories == db.categories[id := c] && db'.subs == db.subs && db'.outbox == db.outbox + [e]
    ensures Replayable(db')
  {
    ReplayOneMore(db.outbox, e);
    assert CategoryViews(db'.categories) == CategoryViews(db.categories)[id := View(c)];
  }

  lemma DropCategoryReplays(db: Db, id: int, c: Category, db': Db)
    requires Replayable(db)
    requires db'.categories == db.categories - {id} && db'.subs == db.subs
    requires db'.outbox == db.outbox + [CategoryDeleted(id, View(c))]
    ensures Replayable(db')
  {
    ReplayOneMore(db.outbox, CategoryDeleted(id, View(c)));
    assert CategoryViews(db'.categories) == CategoryViews(db.categories) - {id};
  }

  lemma PutSubReplays(db: Db, id: int, s: SubCategory, e: Event, db': Db)
    requires Replayable(db) && (e == SubCategoryCreated(id, SubView(s)) || e == SubCategoryUpdated(id, SubView(s)))
    requires db'.subs == db.subs[id := s] && db'.categories == db.categories && db'.outbox == db.outbox + [e]
    ensures Replayable(db')
  {
    ReplayOneMore(db.outbox, e);
    assert SubViews(db'.subs) == SubViews(db.subs)[id := SubView(s)];
  }

  lemma DropSubReplays(db: Db, id: int, s: SubCategory, db': Db)
    requires Replayable(db)
    requires db'.subs == db.subs - {id} && db'.categories == db.categories
    requires db'.outbox == db.outbox + [SubCategoryDeleted(id, SubView(s))]
    ensures Replayable(db')
  {
    ReplayOneMore(db.outbox, SubCategoryDeleted(id, SubView(s)));
    assert SubViews(db'.subs) == SubViews(db.subs) - {id};
  }

  lemma CategoryOpsReplay(a: Alphabet, db: Db, op: Op)
    requires Replayable(db) && (op.CreateCategory? || op.UpdateCategory? || op.DeleteCategory?)
    ensures Replayable(Apply(a, db, op).0)
  {
    var db' := Apply(a, db, op).0;
    if db' != db {
      match op
      case CreateCategory(_, _, _) =>
        var c := db'.categories[db.nextCategory];
        PutCategoryReplays(db, db.nextCategory, c, CategoryCreated(db.nextCategory, View(c)), db');
      case UpdateCategory(id, _, _, _) =>
        var c := db'.categories[id];
        PutCategoryReplays(db, id, c, CategoryUpdated(id, View(c)), db');
      case DeleteCategory(id) => DropCategoryReplays(db, id, db.categories[id], db');
    }
  }

  lemma SubCategoryOpsReplay(a: Alphabet, db: Db, op: Op)
    requires Replayable(db) && (op.CreateSubCategory? || op.UpdateSubCategory? || op.DeleteSubCategory?)
    ensures Replayable(Apply(a, db, op).0)
  {
    var db' := Apply(a, db, op).0;
    if db' != db {
      match op
      case CreateSubCategory(_, _) =>
        var s := db'.subs[db.nextSub];
        PutSubReplays(db, db.nextSub, s, SubCategoryCreated(db.nextSub, SubView(s)), db');
      case UpdateSubCategory(id, _, _) =>
        var s := db'.subs[id];
        PutSubReplays(db, id, s, SubCategoryUpdated(id, SubView(s)), db');
      case DeleteSubCategory(id) => DropSubReplays(db, id, db.subs[id], db');
    }
  }

  lemma OpStaysReplayable(a: Alphabet, db: Db, op: Op)
    requires Replayable(db)
    ensures Replayable(Apply(a, db, op).0)
  {
    if op.CreateCategory? || op.UpdateCategory? || op.DeleteCategory? {
      CategoryOpsReplay(a, db, op);
    } else if op.CreateSubCategory? || op.UpdateSubCategory? || op.DeleteSubCategory? {
      SubCategoryOpsReplay(a, db, op);
    } else {
      OtherOpsLeaveTables(a, db, op);
    }
  }

  /** After every sequence of operations, rejected and empty ones included, replaying the outbox reproduces both
      tables on the carried columns. */
  lemma {:induction false} RunStaysReplayable(a: Alphabet, db: Db, ops: seq<Op>)
    requires Replayable(db)
    ensures Replayable(Run(a, db, ops))
  {
    if ops == [] {
    } else {
      RunStaysReplayable(a, db, ops[..|ops| - 1]);
      OpStaysReplayable(a, Run(a, db, ops[..|ops| - 1]), ops[|ops| - 1]);
    }
  }

  lemma OtherOpsLeaveTables(a: Alphabet, db: Db, op: Op)
    requires op.CreateRule? || op.UpdateRule? || op.DeleteRule? || op.Correct?
    ensures
      var db' := Apply(a, db, op).0;
      db'.categories == db.categories && db'.subs == db.subs && db'.outbox == db.outbox
  {
  }
}
