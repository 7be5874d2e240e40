/** The feedback loop: manual corrections become learned rules, one per user and normalised pattern. */
module LearnedRules {
  import opened Common
  import opened MerchantPatterns

  const LEARNED_RULE_PRIORITY := 10

  datatype PatternType = Keyword | Regex | Merchant | AmountRange

  datatype Rule = Rule(user: Option<int>, priority: int, kind: PatternType, pattern: string, subcategory: int,
    active: bool)

  type RuleTable = map<int, Rule>

  /** uq_rules_user_pattern: user rules are unique by user, pattern type and pattern. */
  ghost predicate UniquePatterns(rules: RuleTable) {
    forall i, j :: i in rules && j in rules && i != j && rules[i].user.Some? ==>
      (rules[i].user, rules[i].kind, rules[i].pattern) != (rules[j].user, rules[j].kind, rules[j].pattern)
  }

  predicate IsLearned(r: Rule, user: int, pattern: string) {
    r.user == Some(user) && r.kind == Merchant && r.pattern == pattern
  }

  /** transaction.category_corrected; absent ids read as zero, an absent message id as empty. */
  datatype Correction = Correction(messageId: string, user: int, subcategory: int, description: string)

  datatype State = State(rules: RuleTable, nextId: int, inbox: set<string>)

  predicate Learnable(a: Alphabet, known: set<int>, c: Correction) {
    c.user != 0 && NormalizeMerchantPattern(a, c.description) != "" && c.subcategory != 0 && c.subcategory in known
  }

  function PatternOf(a: Alphabet, c: Correction): string { NormalizeMerchantPattern(a, c.description) }

  ghost predicate FreshIds(s: State) { forall i :: i in s.rules ==> i < s.nextId }

  /** Retarget and reactivate the existing rule, or create it at the learned priority. */
  ghost function Learn(s: State, user: int, pattern: string, subcategory: int): State {
    if exists i :: i in s.rules && IsLearned(s.rules[i], user, pattern) then
      var i :| i in s.rules && IsLearned(s.rules[i], user, pattern);
      s.(rules := s.rules[i := s.rules[i].(subcategory := subcategory, active := true)])
    else
      s.(rules := s.rules[s.nextId := Rule(Some(user), LEARNED_RULE_PRIORITY, Merchant, pattern, subcategory, true)],
        nextId := s.nextId + 1)
  }

  ghost predicate IsRepeat(inbox: set<string>, c: Correction) { c.messageId != "" && c.messageId in inbox }

  function Record(inbox: set<string>, c: Correction): set<string> {
    if c.messageId == "" then inbox else inbox + {c.messageId}
  }

  /** One delivery: a repeat does nothing; otherwise the rule write and the inbox row commit together. */
  ghost function Handle(a: Alphabet, known: set<int>, s: State, c: Correction): State {
    if IsRepeat(s.inbox, c) then s
    else
      var s' := if Learnable(a, known, c) then Learn(s, c.user, PatternOf(a, c), c.subcategory) else s;
      s'.(inbox := Record(s'.inbox, c))
  }

  ghost function HandleAll(a: Alphabet, known: set<int>, s: State, cs: seq<Correction>): State {
    if cs == [] then s else Handle(a, known, HandleAll(a, known, s, cs[..|cs| - 1]), cs[|cs| - 1])
  }

  // ----- the reference: a fold over first-processed learnable corrections -----

  /** Position n of the deliveries is processed: its id is empty or occurs neither in the inbox nor earlier. */
  ghost predicate FirstProcessed(inbox: set<string>, cs: seq<Correction>, n: nat)
    requires n < |cs|
  {
    cs[n].messageId == "" || (cs[n].messageId !in inbox && forall j :: 0 <= j < n ==>
      cs[j].messageId != cs[n].messageId)
  }

  /** The subcategory of the last first-processed learnable correction for a user and pattern. */
  ghost function LastTarget(
    a: Alphabet, known: set<int>, inbox: set<string>, cs: seq<Correction>, user: int, pattern: string): Option<int> {
    if cs == [] then None
    else
      var n := |cs| - 1;
      if FirstProcessed(inbox, cs, n) && Learnable(a, known, cs[n]) && cs[n].user == user &&
          PatternOf(a, cs[n]) == pattern
      then Some(cs[n].subcategory)
      else LastTarget(a, known, inbox, cs[..n], user, pattern)
  }

  /** What the table says about a user's learned pattern. */
  ghost predicate Holds(rules: RuleTable, user: int, pattern: string, what: Option<(int, bool)>) {
    match what
    case None => forall i :: i in rules ==> !IsLearned(rules[i], user, pattern)
    case Some((subcategory, active)) =>
      exists i :: i in rules && IsLearned(rules[i], user, pattern) && rules[i].subcategory == subcategory &&
        rules[i].active == active
  }

  lemma LearnKeepsTable(s: State, user: int, pattern: string, subcategory: int)
    requires UniquePatterns(s.rules) && FreshIds(s)
    ensures
      var s' := Learn(s, user, pattern, subcategory);
      && UniquePatterns(s'.rules) && FreshIds(s') && s'.inbox == s.inbox
      && Holds(s'.rules, user, pattern, Some((subcategory, true)))
  {
    var s' := Learn(s, user, pattern, subcategory);
    if exists i :: i in s.rules && IsLearned(s.rules[i], user, pattern) {
      var i :| i in s.rules && IsLearned(s.rules[i], user, pattern) &&
               s' == s.(rules := s.rules[i := s.rules[i].(subcategory := subcategory, active := true)]);
      assert IsLearned(s'.rules[i], user, pattern);
    } else {
      assert IsLearned(s'.rules[s.nextId], user, pattern);
    }
  }

  lemma LearnFrame(s: State, user: int, pattern: string, subcategory: int, u: int, p: string, what: Option<(int, bool)>)
    requires FreshIds(s) && (u, p) != (user, pattern) && Holds(s.rules, u, p, what)
    ensures Holds(Learn(s, user, pattern, subcategory).rules, u, p, what)
  {
    var s' := Learn(s, user, pattern, subcategory);
    match what {
      case None =>
      case Some((sub, active)) =>
        var i :| i in s.rules && IsLearned(s.rules[i], u, p) && s.rules[i].subcategory == sub &&
            s.rules[i].active == active;
        assert i in s'.rules && s'.rules[i] == s.rules[i];
    }
  }

  lemma {:induction false} HandleAllKeepsTable(a: Alphabet, known: set<int>, s: State, cs: seq<Correction>)
    requires UniquePatterns(s.rules) && FreshIds(s)
    ensures
      var s' := HandleAll(a, known, s, cs);
      && UniquePatterns(s'.rules) && FreshIds(s')
      && (forall id :: id in s'.inbox <==>
         id in s.inbox || (id != "" && exists j :: 0 <= j < |cs| && cs[j].messageId == id))
  {
    if cs == [] {
    } else {
      var n := |cs| - 1;
      HandleAllKeepsTable(a, known, s, cs[..n]);
      var before := HandleAll(a, known, s, cs[..n]);
      if Learnable(a, known, cs[n]) { LearnKeepsTable(before, cs[n].user, PatternOf(a, cs[n]), cs[n].subcategory); }
      assert forall j :: 0 <= j < n ==> cs[..n][j] == cs[j];
    }
  }

  lemma RepeatIff(a: Alphabet, known: set<int>, s: State, cs: seq<Correction>, n: nat)
    requires n < |cs| && UniquePatterns(s.rules) && FreshIds(s)
    ensures IsRepeat(HandleAll(a, known, s, cs[..n]).inbox, cs[n]) <==> !FirstProcessed(s.inbox, cs, n)
  {
    HandleAllKeepsTable(a, known, s, cs[..n]);
    assert forall j :: 0 <= j < n ==> cs[..n][j] == cs[j];
  }

  /** Under any redelivery the learned rules are the fold: a user's pattern is taught exactly when some
      first-processed learnable correction names it, it then targets the last of them and is active, and
      otherwise it is as it was. At most one rule holds it. */
  lemma {:induction false} LearnedRulesAreTheFold(
    a: Alphabet, known: set<int>, s: State, cs: seq<Correction>, user: int, pattern: string,
      before: Option<(int, bool)>)
    requires UniquePatterns(s.rules) && FreshIds(s) && Holds(s.rules, user, pattern, before)
    ensures
      var s' := HandleAll(a, known, s, cs);
      var last := LastTarget(a, known, s.inbox, cs, user, pattern);
      && Holds(s'.rules, user, pattern, if last.Some? then Some((last.value, true)) else before)
      && UniquePatterns(s'.rules)
  {
    HandleAllKeepsTable(a, known, s, cs);
    if cs == [] {
    } else {
      var n := |cs| - 1;
      LearnedRulesAreTheFold(a, known, s, cs[..n], user, pattern, before);
      HandleAllKeepsTable(a, known, s, cs[..n]);
      RepeatIff(a, known, s, cs, n);
      var mid := HandleAll(a, known, s, cs[..n]);
      if FirstProcessed(s.inbox, cs, n) && Learnable(a, known, cs[n]) {
        var u, p := cs[n].user, PatternOf(a, cs[n]);
        if (u, p) == (user, pattern) {
          LearnKeepsTable(mid, u, p, cs[n].subcategory);
        } else {
          var last := LastTarget(a, known, s.inbox, cs[..n], user, pattern);
          LearnFrame(mid, u, p, cs[n].subcategory, user, pattern, if last.Some? then Some((last.value, true))
            else before);
        }
      }
    }
  }

  /** What the table says about a pattern before anything is learned. */
  lemma SomethingHolds(rules: RuleTable, user: int, pattern: string) returns (what: Option<(int, bool)>)
    ensures Holds(rules, user, pattern, what)
  {
    if exists i :: i in rules && IsLearned(rules[i], user, pattern) {
      var i :| i in rules && IsLearned(rules[i], user, pattern);
      what := Some((rules[i].subcategory, rules[i].active));
    } else {
      what := None;
    }
  }

  ghost predicate AtMostOneLearned(rules: RuleTable, user: int, pattern: string) {
    forall i, j :: i in rules && j in rules ==>
      (IsLearned(rules[i], user, pattern) && IsLearned(rules[j], user, pattern) ==> i == j)
  }

  /** A correction teaches the one rule of every description with the same lettered words: last comes a correction of
      one wording, and the rule found under the other wording's pattern is active,
        has its target and is the only one. */
  lemma SameWordsHitTheSameRule(
    a: Alphabet, known: set<int>, s: State, cs: seq<Correction>,
    words: seq<string>, gaps: string, words': seq<string>, gaps': string)
    requires UniquePatterns(s.rules) && FreshIds(s) && cs != []
    requires FirstProcessed(s.inbox, cs, |cs| - 1) && Learnable(a, known, cs[|cs| - 1])
    requires |words| == |gaps| + 1 && |words'| == |gaps'| + 1 && AreGaps(a, gaps) && AreGaps(a, gaps')
    requires KeepLettered(a, words) == KeepLettered(a, words') && cs[|cs| - 1].description == Weave(words, gaps)
    ensures
      var rules, c := HandleAll(a, known, s, cs).rules, cs[|cs| - 1];
      var pattern := NormalizeMerchantPattern(a, Weave(words', gaps'));
      && Holds(rules, c.user, pattern, Some((c.subcategory, true)))
      && AtMostOneLearned(rules, c.user, pattern)
  {
    var c := cs[|cs| - 1];
    OnlyLetteredWordsMatter(a, words, gaps, words', gaps');
    var before := SomethingHolds(s.rules, c.user, PatternOf(a, c));
    LearnedRulesAreTheFold(a, known, s, cs, c.user, PatternOf(a, c), before);
  }

  /** What one delivery leaves. A repeat changes nothing. Any other message leaves its id, and if it names a user, a
      pattern and a known subcategory then the rule of that user and pattern is retargeted and active, or a merchant
      rule of priority 10 is new; no other rule changes. */
  ghost predicate Teaches(s: State, c: Correction, pattern: string, known: set<int>, s': State) {
    if c.messageId != "" && c.messageId in s.inbox then s' == s
    else
      && s'.inbox == (if c.messageId == "" then s.inbox else s.inbox + {c.messageId})
      && if c.user == 0 || pattern == "" || c.subcategory == 0 || c.subcategory !in known then s'.rules == s.rules
         else if exists i :: IsRuleFor(s.rules, i, c.user, pattern) then
           exists i :: IsRuleFor(s.rules, i, c.user, pattern) &&
             s'.rules == s.rules[i := s.rules[i].(subcategory := c.subcategory, active := true)]
         else s'.rules == s.rules[s.nextId := Rule(Some(c.user), 10, Merchant, pattern, c.subcategory, true)]
  }

  ghost predicate IsRuleFor(rules: RuleTable, i: int, user: int, pattern: string) {
    i in rules && rules[i].user == Some(user) && rules[i].kind == Merchant && rules[i].pattern == pattern
  }

  class Consumer {
    const alphabet: Alphabet
    var rules: RuleTable
    var nextId: int
    var inbox: set<string>

    function Snapshot(): State
      reads this
    {
      State(rules, nextId, inbox)
    }

    constructor (alphabet: Alphabet, rules: RuleTable, nextId: int)
      ensures Snapshot() == State(rules, nextId, {}) && this.alphabet == alphabet
    {
      this.alphabet, this.rules, this.nextId, this.inbox := alphabet, rules, nextId, {};
    }

    /** One delivery of a correction: dedup, upsert and inbox row in one session. */
    method HandleDelivery(known: set<int>, c: Correction)
      requires UniquePatterns(rules) && FreshIds(Snapshot())
      modifies this
      ensures Snapshot() == Handle(alphabet, known, old(Snapshot()), c)
      ensures Teaches(old(Snapshot()), c, NormalizeMerchantPattern(alphabet, c.description), known, Snapshot())
      ensures UniquePatterns(rules) && FreshIds(Snapshot())
    {
      if c.messageId != "" && c.messageId in inbox {
        return;
      }
      ghost var start := Snapshot();
      var pattern := NormalizeMerchantPattern(alphabet, c.description);
      if c.user != 0 && pattern != "" && c.subcategory != 0 && c.subcategory in known {
        LearnKeepsTable(start, c.user, pattern, c.subcategory);
        if exists i :: i in rules && IsLearned(rules[i], c.user, pattern) {
          var i :| i in rules && IsLearned(rules[i], c.user, pattern);
          assert IsRuleFor(rules, i, c.user, pattern);
          rules := rules[i := rules[i].(subcategory := c.subcategory, active := true)];
        } else {
          rules := rules[nextId := Rule(Some(c.user), LEARNED_RULE_PRIORITY, Merchant, pattern, c.subcategory, true)];
          nextId := nextId + 1;
        }
      }
      if c.messageId != "" {
        inbox := inbox + {c.messageId};
      }
    }
  }
}
