/** Categorization results and rules: the scan and the command that validates or applies a manifest. */
module CategorizationReclassification {
  import opened Common
  import opened Counters
  import opened Reclassification
  import opened ReclassificationRun
  import opened ReclassificationReport

  datatype ResultRow = ResultRow(category: int, subcategory: int, tier: string)
  datatype RuleRow = RuleRow(user: Option<int>, subcategory: int)

  /** The active subcategory of an identity and its active parent. */
  datatype Resolution = NoTarget | NoParent | Found(parent: int, subcategory: int)

  datatype ApplyError = TargetNotFound | ParentNotFound | UnsupportedKind

  type Resolver = Target -> Resolution

  function LowerChar(c: char): char { if 'A' <= c <= 'Z' then c - 'A' + 'a' else c }

  function Lower(s: string): string { seq(|s|, i requires 0 <= i < |s| => LowerChar(s[i])) }

  predicate IsProtectedTier(tier: string) {
    var lowered := Lower(tier);
    lowered == "manual" || lowered == "user" || lowered == "gold"
  }

  function ToMove(row: ExecutionRow, resolve: Resolver): Result<Move, ApplyError> {
    match resolve(row.target)
    case NoTarget => Failure(TargetNotFound)
    case NoParent => Failure(ParentNotFound)
    case Found(parent, sub) =>
      if row.kind == "categorization_result" then
        Success(Move(CategorizationResult(row.sourceId), LegacyPair(row), Pair(parent, sub)))
      else if row.kind == "system_rule" then
        Success(Move(SystemRule(row.sourceId), LegacySub(row), SubCategory(sub)))
      else Failure(UnsupportedKind)
  }

  function LegacyPair(row: ExecutionRow): Option<Ref> {
    if row.legacyCategory.Some? && row.legacySubcategory.Some?
    then Some(Pair(row.legacyCategory.value, row.legacySubcategory.value)) else None
  }

  predicate IsAtLegacy(res: ResultRow, row: ExecutionRow) {
    (Some(res.category), Some(res.subcategory)) == (row.legacyCategory, row.legacySubcategory)
  }

  function LegacySub(row: ExecutionRow): Option<Ref> {
    if row.legacySubcategory.Some? then Some(SubCategory(row.legacySubcategory.value)) else None
  }

  function Mover(resolve: Resolver): ExecutionRow -> Result<Move, ApplyError> {
    (row: ExecutionRow) => ToMove(row, resolve)
  }

  ghost function ResultRefs(results: map<int, ResultRow>): map<Source, Ref> {
    map i | i in results :: CategorizationResult(i) := Pair(results[i].category, results[i].subcategory)
  }

  ghost function RuleRefs(rules: map<int, RuleRow>): map<Source, Ref> {
    map i | i in rules :: SystemRule(i) := SubCategory(rules[i].subcategory)
  }

  ghost function GuardedResults(results: map<int, ResultRow>): set<Source> {
    set i | i in results && IsProtectedTier(results[i].tier) :: CategorizationResult(i)
  }

  ghost function GuardedRules(rules: map<int, RuleRow>): set<Source> {
    set i | i in rules && rules[i].user.Some? :: SystemRule(i)
  }

  /** Manual, user and gold results and user-owned rules are guarded; nothing is grouped. */
  ghost function TableOf(results: map<int, ResultRow>, rules: map<int, RuleRow>): Table {
    Table(ResultRefs(results) + RuleRefs(rules), GuardedResults(results) + GuardedRules(rules), map[])
  }

  // ----- what a row does, over the columns -----

  datatype Tables = Tables(results: map<int, ResultRow>, rules: map<int, RuleRow>)

  /** Why a row cannot be applied at all. */
  ghost predicate IsError(row: ExecutionRow, resolve: Resolver, error: ApplyError) {
    match resolve(row.target)
    case NoTarget => error == TargetNotFound
    case NoParent => error == ParentNotFound
    case Found(_, _) => row.kind != "categorization_result" && row.kind != "system_rule" && error == UnsupportedKind
  }

  ghost function Errors(resolve: Resolver): (ExecutionRow, ApplyError) -> bool {
    (row: ExecutionRow, error: ApplyError) => IsError(row, resolve, error)
  }

  /** A result is missing, chosen by hand, moved already, edited since, or at its legacy pair: only then it moves. */
  ghost predicate ResultStep(
    results: map<int, ResultRow>, row: ExecutionRow, parent: int, sub: int, execute: bool, o: Outcome,
    results': map<int, ResultRow>)
  {
    var id := row.sourceId;
    if id !in results then o == Missing && results' == results
    else
      var r := results[id];
      if Lower(r.tier) in {"manual", "user", "gold"} then o == Protected && results' == results
      else if r.category == parent && r.subcategory == sub then o == AlreadyApplied && results' == results
      else if row.legacyCategory != Some(r.category) || row.legacySubcategory != Some(r.subcategory) then
        o == Changed && results' == results
      else o == Hit && results' == if execute then results[id := ResultRow(parent, sub, r.tier)] else results
  }

  /** The same for a rule, which is protected when somebody owns it. */
  ghost predicate RuleStep(
    rules: map<int, RuleRow>, row: ExecutionRow, sub: int, execute: bool, o: Outcome, rules': map<int, RuleRow>)
  {
    var id := row.sourceId;
    if id !in rules then o == Missing && rules' == rules
    else if rules[id].user.Some? then o == Protected && rules' == rules
    else if rules[id].subcategory == sub then o == AlreadyApplied && rules' == rules
    else if row.legacySubcategory != Some(rules[id].subcategory) then o == Changed && rules' == rules
    else o == Hit && rules' == if execute then rules[id := RuleRow(None, sub)] else rules
  }

  ghost predicate RowStep(t: Tables, row: ExecutionRow, resolve: Resolver, execute: bool, o: Outcome, t': Tables) {
    && resolve(row.target).Found?
    && var found := resolve(row.target);
       if row.kind == "categorization_result" then
         && ResultStep(t.results, row, found.parent, found.subcategory, execute, o, t'.results)
         && t'.rules == t.rules
       else
         && row.kind == "system_rule"
         && RuleStep(t.rules, row, found.subcategory, execute, o, t'.rules) && t'.results == t.results
  }

  ghost function Steps(resolve: Resolver, execute: bool): (Tables, ExecutionRow, Outcome, Tables) -> bool {
    (t: Tables, row: ExecutionRow, o: Outcome, t': Tables) => RowStep(t, row, resolve, execute, o, t')
  }

  ghost predicate NamesResult(row: ExecutionRow, id: int) { row.kind == "categorization_result" && row.sourceId == id }

  ghost predicate NamesRule(row: ExecutionRow, id: int) { row.kind == "system_rule" && row.sourceId == id }

  lemma {:induction false} UnnamedStay(
    rows: seq<ExecutionRow>, resolve: Resolver, execute: bool, states: seq<Tables>, outcomes: seq<Outcome>,
    id: int, m: nat, n: nat)
    requires IsRun(rows, Steps(resolve, execute), states, outcomes) && m <= n <= |rows|
    ensures id in states[n].results <==> id in states[m].results
    ensures id in states[n].rules <==> id in states[m].rules
    ensures id in states[m].results && (forall i :: m <= i < n ==> !NamesResult(rows[i], id)) ==>
              states[n].results[id] == states[m].results[id]
    ensures id in states[m].rules && (forall i :: m <= i < n ==> !NamesRule(rows[i], id)) ==>
              states[n].rules[id] == states[m].rules[id]
    decreases n
  {
    if n == m {
    } else {
      UnnamedStay(rows, resolve, execute, states, outcomes, id, m, n - 1);
      assert RowStep(states[n - 1], rows[n - 1], resolve, execute, outcomes[n - 1], states[n]);
    }
  }

  /** Row n is the only one to name its source. */
  ghost predicate NamesOnce(rows: seq<ExecutionRow>, n: nat)
    requires n < |rows|
  {
    forall m :: 0 <= m < |rows| && m != n ==> (rows[m].kind, rows[m].sourceId) != (rows[n].kind, rows[n].sourceId)
  }

  /** The result a row leaves: moved exactly when this is an execution, nobody chose it, and it was at its legacy
      pair. */
  ghost predicate ResultMoved(r: ResultRow, row: ExecutionRow, resolve: Resolver, execute: bool, r': ResultRow) {
    && resolve(row.target).Found?
    && var found := resolve(row.target);
       if execute && Lower(r.tier) !in {"manual", "user", "gold"} &&
         row.legacyCategory == Some(r.category) && row.legacySubcategory == Some(r.subcategory)
       then r' == ResultRow(found.parent, found.subcategory, r.tier)
       else r' == r
  }

  ghost predicate RuleMoved(r: RuleRow, row: ExecutionRow, resolve: Resolver, execute: bool, r': RuleRow) {
    && resolve(row.target).Found?
    && if execute && r.user.None? && row.legacySubcategory == Some(r.subcategory)
       then r' == RuleRow(None, resolve(row.target).subcategory)
       else r' == r
  }

  ghost predicate ResultsMoved(
    a: map<int, ResultRow>, rows: seq<ExecutionRow>, resolve: Resolver, execute: bool, b: map<int, ResultRow>)
  {
    && (forall id :: id in a <==> id in b)
    && (forall id :: id in a && (forall n :: 0 <= n < |rows| ==> !NamesResult(rows[n], id)) ==> b[id] == a[id])
    && (forall n :: 0 <= n < |rows| && rows[n].kind == "categorization_result" && NamesOnce(rows, n) ==>
          (rows[n].sourceId in a ==> ResultMoved(a[rows[n].sourceId], rows[n], resolve, execute, b[rows[n].sourceId])))
  }

  ghost predicate RulesMoved(
    a: map<int, RuleRow>, rows: seq<ExecutionRow>, resolve: Resolver, execute: bool, b: map<int, RuleRow>)
  {
    && (forall id :: id in a <==> id in b)
    && (forall id :: id in a && (forall n :: 0 <= n < |rows| ==> !NamesRule(rows[n], id)) ==> b[id] == a[id])
    && (forall n :: 0 <= n < |rows| && rows[n].kind == "system_rule" && NamesOnce(rows, n) ==>
          (rows[n].sourceId in a ==> RuleMoved(a[rows[n].sourceId], rows[n], resolve, execute, b[rows[n].sourceId])))
  }

  lemma NamedOnceMoves(
    rows: seq<ExecutionRow>, resolve: Resolver, execute: bool, states: seq<Tables>, outcomes: seq<Outcome>, n: nat)
    requires IsRun(rows, Steps(resolve, execute), states, outcomes) && n < |rows| && NamesOnce(rows, n)
    ensures
      var id, a, b := rows[n].sourceId, states[0], states[|rows|];
      && (rows[n].kind == "categorization_result" && id in a.results ==>
            id in b.results && ResultMoved(a.results[id], rows[n], resolve, execute, b.results[id]))
      && (rows[n].kind == "system_rule" && id in a.rules ==>
            id in b.rules && RuleMoved(a.rules[id], rows[n], resolve, execute, b.rules[id]))
  {
    var id := rows[n].sourceId;
    UnnamedStay(rows, resolve, execute, states, outcomes, id, 0, n);
    assert RowStep(states[n], rows[n], resolve, execute, outcomes[n], states[n + 1]);
    UnnamedStay(rows, resolve, execute, states, outcomes, id, n + 1, |rows|);
  }

  lemma RunMovesResults(
    rows: seq<ExecutionRow>, resolve: Resolver, execute: bool, states: seq<Tables>, outcomes: seq<Outcome>)
    requires IsRun(rows, Steps(resolve, execute), states, outcomes)
    ensures ResultsMoved(states[0].results, rows, resolve, execute, states[|rows|].results)
  {
    var a, b := states[0].results, states[|rows|].results;
    forall id
      ensures id in a <==> id in b
      ensures id in a && (forall n :: 0 <= n < |rows| ==> !NamesResult(rows[n], id)) ==> b[id] == a[id]
    {
      UnnamedStay(rows, resolve, execute, states, outcomes, id, 0, |rows|);
    }
    forall n | 0 <= n < |rows| && rows[n].kind == "categorization_result" && NamesOnce(rows, n) && rows[n].sourceId in a
      ensures ResultMoved(a[rows[n].sourceId], rows[n], resolve, execute, b[rows[n].sourceId])
    {
      NamedOnceMoves(rows, resolve, execute, states, outcomes, n);
    }
  }

  lemma RunMovesRules(
    rows: seq<ExecutionRow>, resolve: Resolver, execute: bool, states: seq<Tables>, outcomes: seq<Outcome>)
    requires IsRun(rows, Steps(resolve, execute), states, outcomes)
    ensures RulesMoved(states[0].rules, rows, resolve, execute, states[|rows|].rules)
  {
    var a, b := states[0].rules, states[|rows|].rules;
    forall id
      ensures id in a <==> id in b
      ensures id in a && (forall n :: 0 <= n < |rows| ==> !NamesRule(rows[n], id)) ==> b[id] == a[id]
    {
      UnnamedStay(rows, resolve, execute, states, outcomes, id, 0, |rows|);
    }
    forall n | 0 <= n < |rows| && rows[n].kind == "system_rule" && NamesOnce(rows, n) && rows[n].sourceId in a
      ensures RuleMoved(a[rows[n].sourceId], rows[n], resolve, execute, b[rows[n].sourceId])
    {
      NamedOnceMoves(rows, resolve, execute, states, outcomes, n);
    }
  }

  /** The counters of a manifest of one row, by the columns it finds. */
  ghost predicate OneRowCounts(t: Tables, row: ExecutionRow, parent: int, sub: int, execute: bool, c: Counts) {
    var id := row.sourceId;
    var isResult := row.kind == "categorization_result";
    if if isResult then id !in t.results else id !in t.rules then c == Counts(0, 0, 0, 1, 0, 0, 0)
    else
      var guarded := if isResult then Lower(t.results[id].tier) in {"manual", "user", "gold"}
          else t.rules[id].user.Some?;
      var moved := if isResult then t.results[id].category == parent && t.results[id].subcategory == sub
                   else t.rules[id].subcategory == sub;
      var legacy := if isResult then row.legacyCategory == Some(t.results[id].category) &&
                                     row.legacySubcategory == Some(t.results[id].subcategory)
                    else row.legacySubcategory == Some(t.rules[id].subcategory);
      if guarded then c == Counts(0, 0, 0, 0, 1, 0, 0)
      else if moved then c == Counts(0, 0, 1, 0, 0, 0, 0)
      else if !legacy then c == Counts(0, 0, 0, 0, 0, 1, 0)
      else c == if execute then Counts(1, 0, 0, 0, 0, 0, 0) else Counts(0, 1, 0, 0, 0, 0, 0)
  }

  lemma OneRowCounted(t: Tables, row: ExecutionRow, resolve: Resolver, execute: bool, o: Outcome, t': Tables)
    requires RowStep(t, row, resolve, execute, o, t')
    ensures
      var found := resolve(row.target);
      OneRowCounts(t, row, found.parent, found.subcategory, execute, CountsOf([o], execute))
  {
    assert [o][..0] == [];
    assert forall x: Outcome :: Tally([o], x) == if o == x then 1 else 0;
  }

  /** What applying a manifest leaves and counts, over the columns. */
  ghost predicate Effects(
    t: Tables, rows: seq<ExecutionRow>, resolve: Resolver, execute: bool, t': Tables, counts: Counts)
  {
    && (forall n, e :: 0 <= n < |rows| ==> !IsError(rows[n], resolve, e))
    && ResultsMoved(t.results, rows, resolve, execute, t'.results)
    && RulesMoved(t.rules, rows, resolve, execute, t'.rules)
    && (|rows| == 1 ==>
          && resolve(rows[0].target).Found?
          && var found := resolve(rows[0].target);
             OneRowCounts(t, rows[0], found.parent, found.subcategory, execute, counts))
  }

  lemma RunEffects(
    rows: seq<ExecutionRow>, resolve: Resolver, execute: bool, states: seq<Tables>, outcomes: seq<Outcome>)
    requires IsRun(rows, Steps(resolve, execute), states, outcomes)
    ensures Effects(states[0], rows, resolve, execute, states[|rows|], CountsOf(outcomes, execute))
  {
    forall n, e | 0 <= n < |rows| ensures !IsError(rows[n], resolve, e) {
      assert RowStep(states[n], rows[n], resolve, execute, outcomes[n], states[n + 1]);
    }
    RunMovesResults(rows, resolve, execute, states, outcomes);
    RunMovesRules(rows, resolve, execute, states, outcomes);
    if |rows| == 1 {
      OneRowCounted(states[0], rows[0], resolve, execute, outcomes[0], states[1]);
      assert outcomes == [outcomes[0]];
    }
  }

  // ----- apply -----

  lemma ResultInTable(results: map<int, ResultRow>, rules: map<int, RuleRow>, id: int)
    ensures
      var t, s := TableOf(results, rules), CategorizationResult(id);
      && (s in t.refs <==> id in results)
      && (id in results ==> t.refs[s] == Pair(results[id].category, results[id].subcategory))
      && (s in t.guarded <==> id in results && IsProtectedTier(results[id].tier))
  {
    var t, s := TableOf(results, rules), CategorizationResult(id);
    assert s in ResultRefs(results) <==> id in results;
    assert s !in RuleRefs(rules) && s !in GuardedRules(rules);
    assert s in GuardedResults(results) <==> id in results && IsProtectedTier(results[id].tier);
  }

  lemma ResultMeets(
    results: map<int, ResultRow>, rules: map<int, RuleRow>, row: ExecutionRow, parent: int, sub: int, m: Move)
    requires m == Move(CategorizationResult(row.sourceId), LegacyPair(row), Pair(parent, sub))
    ensures Classify(TableOf(results, rules), m) ==
            var id := row.sourceId;
            if id !in results then Missing
            else if IsProtectedTier(results[id].tier) then Protected
            else if (results[id].category, results[id].subcategory) == (parent, sub) then AlreadyApplied
            else if !IsAtLegacy(results[id], row) then Changed
            else Hit
  {
    ResultInTable(results, rules, row.sourceId);
  }

  lemma RuleMeets(results: map<int, ResultRow>, rules: map<int, RuleRow>, row: ExecutionRow, sub: int, m: Move)
    requires m == Move(SystemRule(row.sourceId), LegacySub(row), SubCategory(sub))
    ensures Classify(TableOf(results, rules), m) ==
            var id := row.sourceId;
            if id !in rules then Missing
            else if rules[id].user.Some? then Protected
            else if rules[id].subcategory == sub then AlreadyApplied
            else if Some(rules[id].subcategory) != row.legacySubcategory then Changed
            else Hit
  {
    var t := TableOf(results, rules);
    assert m.source in t.refs <==> row.sourceId in rules;
    assert row.sourceId in rules ==> t.refs[m.source] == SubCategory(rules[row.sourceId].subcategory);
    assert m.source in t.guarded <==> row.sourceId in rules && rules[row.sourceId].user.Some?;
  }

  lemma ResultWritten(results: map<int, ResultRow>, rules: map<int, RuleRow>, id: int, parent: int, sub: int)
    requires id in results
    ensures TableOf(results[id := results[id].(category := parent, subcategory := sub)], rules) ==
            var t := TableOf(results, rules);
            t.(refs := t.refs[CategorizationResult(id) := Pair(parent, sub)])
  {
    var results' := results[id := results[id].(category := parent, subcategory := sub)];
    assert ResultRefs(results') == ResultRefs(results)[CategorizationResult(id) := Pair(parent, sub)];
    assert GuardedResults(results') == GuardedResults(results);
    Overlay(ResultRefs(results), RuleRefs(rules), CategorizationResult(id), Pair(parent, sub));
  }

  lemma RuleWritten(results: map<int, ResultRow>, rules: map<int, RuleRow>, id: int, sub: int)
    requires id in rules
    ensures TableOf(results, rules[id := rules[id].(subcategory := sub)]) ==
            TableOf(results, rules).(refs := TableOf(results, rules).refs[SystemRule(id) := SubCategory(sub)])
  {
    var rules' := rules[id := rules[id].(subcategory := sub)];
    assert RuleRefs(rules') == RuleRefs(rules)[SystemRule(id) := SubCategory(sub)];
    assert GuardedRules(rules') == GuardedRules(rules);
    Overlay(ResultRefs(results), RuleRefs(rules), SystemRule(id), SubCategory(sub));
  }

  method ApplyResult(results: map<int, ResultRow>, row: ExecutionRow, parent: int, sub: int, execute: bool)
    returns (outcome: Outcome, results': map<int, ResultRow>)
    ensures ResultStep(results, row, parent, sub, execute, outcome, results')
  {
    results' := results;
    var id := row.sourceId;
    if id !in results {
      outcome := Missing;
    } else if IsProtectedTier(results[id].tier) {
      outcome := Protected;
    } else if (results[id].category, results[id].subcategory) == (parent, sub) {
      outcome := AlreadyApplied;
    } else if !IsAtLegacy(results[id], row) {
      outcome := Changed;
    } else {
      outcome := Hit;
      if execute {
        results' := results[id := results[id].(category := parent, subcategory := sub)];
      }
    }
  }

  method ApplyRule(rules: map<int, RuleRow>, row: ExecutionRow, sub: int, execute: bool)
    returns (outcome: Outcome, rules': map<int, RuleRow>)
    ensures RuleStep(rules, row, sub, execute, outcome, rules')
  {
    rules' := rules;
    var id := row.sourceId;
    if id !in rules {
      outcome := Missing;
    } else if rules[id].user.Some? {
      outcome := Protected;
    } else if rules[id].subcategory == sub {
      outcome := AlreadyApplied;
    } else if Some(rules[id].subcategory) != row.legacySubcategory {
      outcome := Changed;
    } else {
      outcome := Hit;
      if execute {
        rules' := rules[id := rules[id].(subcategory := sub)];
      }
    }
  }

  method ApplyRow(
    results: map<int, ResultRow>, rules: map<int, RuleRow>, row: ExecutionRow, found: Resolution, execute: bool,
    ghost resolve: Resolver)
    returns (outcome: Outcome, results': map<int, ResultRow>, rules': map<int, RuleRow>)
    requires found.Found? && resolve(row.target) == found
    requires row.kind == "categorization_result" || row.kind == "system_rule"
    ensures RowStep(Tables(results, rules), row, resolve, execute, outcome, Tables(results', rules'))
  {
    results', rules' := results, rules;
    if row.kind == "categorization_result" {
      outcome, results' := ApplyResult(results, row, found.parent, found.subcategory, execute);
    } else {
      outcome, rules' := ApplyRule(rules, row, found.subcategory, execute);
    }
  }

  /** The manifest rows on the session's view of the two tables. */
  method ApplyRows(
    results0: map<int, ResultRow>, rules0: map<int, RuleRow>, rows: seq<ExecutionRow>, resolve: Resolver,
    execute: bool)
    returns (error: Option<ApplyError>, counts: Counts, results: map<int, ResultRow>, rules: map<int, RuleRow>)
    ensures error.Some? ==> ToMoves(rows, Mover(resolve)) == Failure(error.value)
    ensures error.Some? ==> FirstError(rows, Errors(resolve), error.value)
    ensures error.None? ==>
              Reached(TableOf(results0, rules0), rows, Mover(resolve), execute, TableOf(results, rules), counts)
    ensures error.None? ==>
              Effects(Tables(results0, rules0), rows, resolve, execute, Tables(results, rules), counts)
    ensures error.None? && !execute ==> results == results0 && rules == rules0
    ensures error.None? ==> counts.skippedCollision == 0
  {
    ghost var states, outcomes;
    error, counts, results, rules, states, outcomes := WalkRows(results0, rules0, rows, resolve, execute);
    if error.Some? {
      FirstErrorOfMoves(rows, resolve, error.value);
    } else {
      StepsMove(resolve, execute);
      RunIsMoves(rows, Mover(resolve), Tabled(), Steps(resolve, execute), execute, states, outcomes);
      UnusedOutcomes(TableOf(results0, rules0), ToMoves(rows, Mover(resolve)).value, execute);
      assert Effects(states[0], rows, resolve, execute, states[|rows|], counts) by {
        RunEffects(rows, resolve, execute, states, outcomes);
      }
    }
  }

  /** The loop over the manifest rows. */
  method WalkRows(
    results0: map<int, ResultRow>, rules0: map<int, RuleRow>, rows: seq<ExecutionRow>, resolve: Resolver,
    execute: bool)
    returns (
      error: Option<ApplyError>, counts: Counts, results: map<int, ResultRow>, rules: map<int, RuleRow>,
      ghost states: seq<Tables>, ghost outcomes: seq<Outcome>)
    ensures error.Some? ==> FirstError(rows, Errors(resolve), error.value)
    ensures error.None? ==>
              && IsRun(rows, Steps(resolve, execute), states, outcomes) && counts == CountsOf(outcomes, execute)
              && states[0] == Tables(results0, rules0) && states[|rows|] == Tables(results, rules)
  {
    results, rules, counts, error := results0, rules0, NO_COUNTS, None;
    states, outcomes := [Tables(results0, rules0)], [];
    for i := 0 to |rows|
      invariant error.None?
      invariant Walked(rows, i, Steps(resolve, execute), execute, states, outcomes, counts)
      invariant states[0] == Tables(results0, rules0) && states[i] == Tables(results, rules)
    {
      var row := rows[i];
      var found := resolve(row.target);
      var failed := ErrorOf(row, found);
      if failed.Some? {
        FirstErrorAt(rows, i, resolve, execute, states, outcomes, failed.value);
        error := failed;
        return;
      }
      var outcome;
      outcome, results, rules := ApplyRow(results, rules, row, found, execute, resolve);
      WalkedNext(rows, i, Steps(resolve, execute), execute, states, outcomes, counts, outcome, Tables(results, rules));
      counts := Bump(counts, outcome, execute);
      states, outcomes := states + [Tables(results, rules)], outcomes + [outcome];
    }
  }

  function ErrorOf(row: ExecutionRow, found: Resolution): (error: Option<ApplyError>)
    ensures error.None? <==> found.Found? && (row.kind == "categorization_result" || row.kind == "system_rule")
  {
    match found
    case NoTarget => Some(TargetNotFound)
    case NoParent => Some(ParentNotFound)
    case Found(_, _) =>
      if row.kind == "categorization_result" || row.kind == "system_rule" then None else Some(UnsupportedKind)
  }

  // ----- column steps are moves -----

  ghost function Tabled(): Tables -> Table { (t: Tables) => TableOf(t.results, t.rules) }

  lemma RowStepIsMove(t: Tables, row: ExecutionRow, resolve: Resolver, execute: bool, o: Outcome, t': Tables)
    requires RowStep(t, row, resolve, execute, o, t')
    ensures ToMove(row, resolve).Success?
    ensures
      var m := ToMove(row, resolve).value;
      && o == Classify(Tabled()(t), m)
      && Tabled()(t') == if execute then Apply(Tabled()(t), m) else Tabled()(t)
    ensures !execute ==> t' == t
  {
    var m, found := ToMove(row, resolve).value, resolve(row.target);
    if row.kind == "categorization_result" {
      ResultStepIsMove(t.results, t.rules, row, found.parent, found.subcategory, execute, o, t'.results, m);
    } else {
      RuleStepIsMove(t.results, t.rules, row, found.subcategory, execute, o, t'.rules, m);
    }
  }

  lemma ResultStepIsMove(
    results: map<int, ResultRow>, rules: map<int, RuleRow>, row: ExecutionRow, parent: int, sub: int, execute: bool,
    o: Outcome, results': map<int, ResultRow>, m: Move)
    requires ResultStep(results, row, parent, sub, execute, o, results')
    requires m == Move(CategorizationResult(row.sourceId), LegacyPair(row), Pair(parent, sub))
    ensures o == Classify(TableOf(results, rules), m)
    ensures TableOf(results', rules) == if execute then Apply(TableOf(results, rules), m) else TableOf(results, rules)
  {
    ResultMeets(results, rules, row, parent, sub, m);
    if o == Hit && execute {
      ResultWritten(results, rules, row.sourceId, parent, sub);
    }
  }

  lemma RuleStepIsMove(
    results: map<int, ResultRow>, rules: map<int, RuleRow>, row: ExecutionRow, sub: int, execute: bool,
    o: Outcome, rules': map<int, RuleRow>, m: Move)
    requires RuleStep(rules, row, sub, execute, o, rules')
    requires m == Move(SystemRule(row.sourceId), LegacySub(row), SubCategory(sub))
    ensures o == Classify(TableOf(results, rules), m)
    ensures TableOf(results, rules') == if execute then Apply(TableOf(results, rules), m) else TableOf(results, rules)
  {
    RuleMeets(results, rules, row, sub, m);
    if o == Hit && execute {
      RuleWritten(results, rules, row.sourceId, sub);
    }
  }

  lemma StepsMove(resolve: Resolver, execute: bool)
    ensures StepsAreMoves(Mover(resolve), Tabled(), Steps(resolve, execute), execute)
  {
    forall s, row, o, s' | Steps(resolve, execute)(s, row, o, s')
      ensures Mover(resolve)(row).Success? && o == Classify(Tabled()(s), Mover(resolve)(row).value)
      ensures Tabled()(s') == if execute then Apply(Tabled()(s), Mover(resolve)(row).value) else Tabled()(s)
      ensures !execute ==> s' == s
    {
      RowStepIsMove(s, row, resolve, execute, o, s');
    }
  }

  lemma FineIsMove(row: ExecutionRow, resolve: Resolver)
    ensures (forall e :: !Errors(resolve)(row, e)) ==> Mover(resolve)(row).Success?
    ensures forall e :: Errors(resolve)(row, e) ==> Mover(resolve)(row) == Failure(e)
  {
    assert Errors(resolve)(row, TargetNotFound) == IsError(row, resolve, TargetNotFound);
    assert Errors(resolve)(row, ParentNotFound) == IsError(row, resolve, ParentNotFound);
    assert Errors(resolve)(row, UnsupportedKind) == IsError(row, resolve, UnsupportedKind);
  }

  lemma FirstErrorOfMoves(rows: seq<ExecutionRow>, resolve: Resolver, error: ApplyError)
    requires FirstError(rows, Errors(resolve), error)
    ensures ToMoves(rows, Mover(resolve)) == Failure(error)
  {
    forall row { FineIsMove(row, resolve); }
    FirstErrorFails(rows, Errors(resolve), Mover(resolve), error);
  }

  lemma FirstErrorAt(
    rows: seq<ExecutionRow>, n: nat, resolve: Resolver, execute: bool, states: seq<Tables>, outcomes: seq<Outcome>,
    error: ApplyError)
    requires n < |rows| && |states| == n + 1 && |outcomes| == n && IsError(rows[n], resolve, error)
    requires forall i :: 0 <= i < n ==> Steps(resolve, execute)(states[i], rows[i], outcomes[i], states[i + 1])
    ensures FirstError(rows, Errors(resolve), error)
  {
    forall m, e | 0 <= m < n ensures !Errors(resolve)(rows[m], e) {
      assert Steps(resolve, execute)(states[m], rows[m], outcomes[m], states[m + 1]);
    }
    assert Errors(resolve)(rows[n], error);
  }

  class Session {
    var results: map<int, ResultRow>
    var rules: map<int, RuleRow>

    constructor (results: map<int, ResultRow>, rules: map<int, RuleRow>)
      ensures this.results == results && this.rules == rules
    {
      this.results, this.rules := results, rules;
    }

    /** The manifest applied row by row inside one transaction; a failing row rolls everything back. */
    method ApplyReclassification(
      rows: seq<ExecutionRow>, resolve: Resolver, execute: bool) returns (r: Result<Counts, ApplyError>)
      modifies this
      ensures ToMoves(rows, Mover(resolve)).Failure? ==>
                r == Failure(ToMoves(rows, Mover(resolve)).error) && results == old(results) && rules == old(rules)
      ensures ToMoves(rows, Mover(resolve)).Success? ==>
                r.Success? && Reached(old(TableOf(results, rules)), rows, Mover(resolve), execute,
                  TableOf(results, rules), r.value)
      ensures !execute ==> results == old(results) && rules == old(rules)
      ensures r.Success? ==> r.value.skippedCollision == 0
      ensures r.Failure? ==> FirstError(rows, Errors(resolve), r.error)
      ensures r.Success? ==>
                Effects(Tables(old(results), old(rules)), rows, resolve, execute, Tables(results, rules), r.value)
    {
      var error, counts, res, rul := ApplyRows(results, rules, rows, resolve, execute);
      if error.Some? {
        return Failure(error.value);
      }
      results, rules := res, rul;
      r := Success(counts);
    }
  }

  // ----- theorems -----

  /** Counters of a dry run are those of an execution with validated in place of applied, and executing again
      changes nothing, for every manifest that names each source once. */
  lemma DryRunPredictsAndRerunIsIdle(
    results: map<int, ResultRow>, rules: map<int, RuleRow>, rows: seq<ExecutionRow>, resolve: Resolver)
    requires ToMoves(rows, Mover(resolve)).Success?
    requires forall i, j :: 0 <= i < j < |rows| ==> (rows[i].kind, rows[i].sourceId) != (rows[j].kind, rows[j].sourceId)
    ensures
      var t, moves := TableOf(results, rules), ToMoves(rows, Mover(resolve)).value;
      var dry, wet := CountsOf(DryRun(t, moves), false), CountsOf(Outcomes(t, moves), true);
      var again := CountsOf(Outcomes(Execute(t, moves), moves), true);
      && wet == dry.(applied := dry.validated, validated := 0)
      && Execute(Execute(t, moves), moves) == Execute(t, moves)
      && again == wet.(applied := 0, alreadyApplied := wet.alreadyApplied + wet.applied)
      && Collision !in Outcomes(t, moves)
  {
    var t, moves := TableOf(results, rules), ToMoves(rows, Mover(resolve)).value;
    MovesOfUniqueRows(rows, resolve);
    assert Outcomes(t, moves) == DryRun(t, moves) by { DryRunIsExact(t, moves); }
    SecondExecuteIsIdle(t, moves);
    UngroupedNeverCollides(t, moves);
    RerunCounts(Outcomes(t, moves));
  }

  lemma MovesOfUniqueRows(rows: seq<ExecutionRow>, resolve: Resolver)
    requires ToMoves(rows, Mover(resolve)).Success?
    requires forall i, j :: 0 <= i < j < |rows| ==> (rows[i].kind, rows[i].sourceId) != (rows[j].kind, rows[j].sourceId)
    ensures UniqueSources(ToMoves(rows, Mover(resolve)).value)
  {
    var moves := ToMoves(rows, Mover(resolve)).value;
    forall i, j | 0 <= i < j < |moves| ensures moves[i].source != moves[j].source {
      MoveSource(rows[i], resolve, moves[i]);
      MoveSource(rows[j], resolve, moves[j]);
    }
  }

  lemma MoveSource(row: ExecutionRow, resolve: Resolver, m: Move)
    requires Mover(resolve)(row) == Success(m)
    ensures || (m.source == CategorizationResult(row.sourceId) && row.kind == "categorization_result")
            || (m.source == SystemRule(row.sourceId) && row.kind == "system_rule")
  {
  }

  lemma UngroupedNeverCollides(t: Table, moves: seq<Move>)
    requires t.group == map[]
    ensures Collision !in DryRun(t, moves)
  {
    forall i | 0 <= i < |moves| ensures DryRun(t, moves)[i] != Collision {
      assert moves[i].source !in t.group;
    }
  }

  /** Protected results and user-owned rules keep their references under every manifest, and whatever changes
      was at the legacy reference some row named. */
  lemma ProtectedRowsAreNeverWritten(
    results: map<int, ResultRow>, rules: map<int, RuleRow>, moves: seq<Move>, s: Source)
    requires s in TableOf(results, rules).refs
    ensures
      var t := TableOf(results, rules);
      var t' := Execute(t, moves);
      && s in t'.refs
      && (s.CategorizationResult? && IsProtectedTier(results[s.id].tier) ==> t'.refs[s] == t.refs[s])
      && (s.SystemRule? && rules[s.id].user.Some? ==> t'.refs[s] == t.refs[s])
      && (t'.refs[s] != t.refs[s] ==> exists m :: m in moves && m.source == s && m.legacy == Some(t.refs[s]))
  {
    OnlyLegacyReferencesMove(TableOf(results, rules), moves, s);
  }

  // ----- scan -----

  datatype Proposal = Proposal(disposition: string, reason: string, targetKeys: seq<string>)

  /** One reported result or rule; protected ones carry no target. */
  function ScanRow(kind: string, id: int, category: Option<int>, sub: int, isProtected: bool, protectedReason: string,
                   proposals: map<int, Proposal>, publicId: string -> string): Option<ReportRow>
  {
    if sub !in proposals then None
    else
      var p := proposals[sub];
      var target := if |p.targetKeys| == 1 && !isProtected then Some(p.targetKeys[0]) else None;
      Some(ReportRow(kind, id, category, Some(sub),
                     if isProtected then "protected" else p.disposition,
                     if isProtected then protectedReason else p.reason,
                     target, if target.Some? then Some(publicId(target.value)) else None, None, false))
  }

  function ResultReport(
    id: int, res: ResultRow, proposals: map<int, Proposal>, publicId: string -> string): Option<ReportRow> {
    ScanRow("categorization_result", id, Some(res.category), res.subcategory, IsProtectedTier(res.tier),
      "manual_result_protected", proposals, publicId)
  }

  function RuleReport(
    id: int, rule: RuleRow, proposals: map<int, Proposal>, publicId: string -> string): Option<ReportRow> {
    var kind := if rule.user.Some? then "user_or_learned_rule" else "system_rule";
    ScanRow(kind, id, None, rule.subcategory, rule.user.Some?, "user_rule_protected", proposals, publicId)
  }

  /** A reference whose subcategory has a proposal is reported: as protected and without a target when somebody chose
      it, else with the proposal's disposition and reason and its target if it is the only one. */
  ghost predicate IsReport(
    row: ReportRow, kind: string, id: int, category: Option<int>, sub: int, guarded: bool, guardReason: string,
      p: Proposal,
    publicId: string -> string)
  {
    && row.kind == kind && row.sourceId == id && row.legacyCategory == category && row.legacySubcategory == Some(sub)
    && row.disposition == (if guarded then "protected" else p.disposition)
    && row.reason == (if guarded then guardReason else p.reason)
    && if |p.targetKeys| == 1 && !guarded
       then row.targetKey == Some(p.targetKeys[0]) && row.targetPublicId == Some(publicId(p.targetKeys[0]))
       else row.targetKey.None? && row.targetPublicId.None?
  }

  lemma ReportsByColumns(
    id: int, res: ResultRow, rule: RuleRow, proposals: map<int, Proposal>, publicId: string -> string)
    ensures
      var row := ResultReport(id, res, proposals, publicId);
      && (row.Some? <==> res.subcategory in proposals)
      && (row.Some? ==>
            IsReport(row.value, "categorization_result", id, Some(res.category), res.subcategory,
                     Lower(res.tier) in {"manual", "user", "gold"}, "manual_result_protected",
                       proposals[res.subcategory], publicId))
    ensures
      var row := RuleReport(id, rule, proposals, publicId);
      && (row.Some? <==> rule.subcategory in proposals)
      && (row.Some? ==>
            IsReport(row.value, if rule.user.Some? then "user_or_learned_rule"
              else "system_rule", id, None, rule.subcategory,
                     rule.user.Some?, "user_rule_protected", proposals[rule.subcategory], publicId))
  {
  }

  function ResultRows(
    results: seq<(int, ResultRow)>, proposals: map<int, Proposal>, publicId: string -> string): seq<ReportRow> {
    if results == [] then []
    else
      var n := |results| - 1;
      var row := ResultReport(results[n].0, results[n].1, proposals, publicId);
      ResultRows(results[..n], proposals, publicId) + if row.Some? then [row.value] else []
  }

  function RuleRows(
    rules: seq<(int, RuleRow)>, proposals: map<int, Proposal>, publicId: string -> string): seq<ReportRow> {
    if rules == [] then []
    else
      var n := |rules| - 1;
      var row := RuleReport(rules[n].0, rules[n].1, proposals, publicId);
      RuleRows(rules[..n], proposals, publicId) + if row.Some? then [row.value] else []
  }

  /** How many scanned references carry subcategory k, reported or not. */
  function ResultsAt(results: seq<(int, ResultRow)>, k: int): nat {
    if results == [] then 0
    else ResultsAt(results[..|results| - 1], k) + if results[|results| - 1].1.subcategory == k then 1 else 0
  }

  function RulesAt(rules: seq<(int, RuleRow)>, k: int): nat {
    if rules == [] then 0
    else RulesAt(rules[..|rules| - 1], k) + if rules[|rules| - 1].1.subcategory == k then 1 else 0
  }

  method ScanCategorization(
    results: seq<(int, ResultRow)>, rules: seq<(int, RuleRow)>, proposals: map<int, Proposal>,
      publicId: string -> string)
    returns (rows: seq<ReportRow>, histogram: map<int, int>)
    ensures rows == ResultRows(results, proposals, publicId) + RuleRows(rules, proposals, publicId)
    ensures forall k :: Get(histogram, k) == ResultsAt(results, k) + RulesAt(rules, k)
  {
    rows, histogram := ScanResults(results, proposals, publicId);
    var more;
    more, histogram := ScanRules(rules, proposals, publicId, histogram);
    rows := rows + more;
  }

  method ScanResults(results: seq<(int, ResultRow)>, proposals: map<int, Proposal>, publicId: string -> string)
    returns (rows: seq<ReportRow>, histogram: map<int, int>)
    ensures rows == ResultRows(results, proposals, publicId)
    ensures forall k :: Get(histogram, k) == ResultsAt(results, k)
  {
    rows, histogram := [], map[];
    for i := 0 to |results|
      invariant rows == ResultRows(results[..i], proposals, publicId)
      invariant forall k :: Get(histogram, k) == ResultsAt(results[..i], k)
    {
      PrefixSnoc(results, i);
      histogram := Add(histogram, results[i].1.subcategory, 1);
      var row := ResultReport(results[i].0, results[i].1, proposals, publicId);
      if row.Some? { rows := rows + [row.value]; }
    }
    assert results[..|results|] == results;
  }

  method ScanRules(
    rules: seq<(int, RuleRow)>, proposals: map<int, Proposal>, publicId: string -> string, counted: map<int, int>)
    returns (rows: seq<ReportRow>, histogram: map<int, int>)
    ensures rows == RuleRows(rules, proposals, publicId)
    ensures forall k :: Get(histogram, k) == Get(counted, k) + RulesAt(rules, k)
  {
    rows, histogram := [], counted;
    for i := 0 to |rules|
      invariant rows == RuleRows(rules[..i], proposals, publicId)
      invariant forall k :: Get(histogram, k) == Get(counted, k) + RulesAt(rules[..i], k)
    {
      PrefixSnoc(rules, i);
      histogram := Add(histogram, rules[i].1.subcategory, 1);
      var row := RuleReport(rules[i].0, rules[i].1, proposals, publicId);
      if row.Some? { rows := rows + [row.value]; }
    }
    assert rules[..|rules|] == rules;
  }

  lemma {:induction false} InResultRows(
    results: seq<(int, ResultRow)>, proposals: map<int, Proposal>, publicId: string -> string, row: ReportRow)
    ensures row in ResultRows(results, proposals, publicId) <==>
            exists e :: e in results && ResultReport(e.0, e.1, proposals, publicId) == Some(row)
  {
    if results == [] {
    } else {
      var n := |results| - 1;
      InResultRows(results[..n], proposals, publicId, row);
      assert forall e :: e in results <==> e in results[..n] || e == results[n];
    }
  }

  lemma {:induction false} InRuleRows(
    rules: seq<(int, RuleRow)>, proposals: map<int, Proposal>, publicId: string -> string, row: ReportRow)
    ensures row in RuleRows(rules, proposals, publicId) <==>
            exists e :: e in rules && RuleReport(e.0, e.1, proposals, publicId) == Some(row)
  {
    if rules == [] {
    } else {
      var n := |rules| - 1;
      InRuleRows(rules[..n], proposals, publicId, row);
      assert forall e :: e in rules <==> e in rules[..n] || e == rules[n];
    }
  }

  /** The manifest target of a subcategory: one target, safe or proposed on evidence, with an identity. */
  predicate Offers(proposals: map<int, Proposal>, publicId: string -> string, sub: int, c: ExecutionRow) {
    && sub in proposals && |proposals[sub].targetKeys| == 1 && IsExecutable(proposals[sub].disposition)
    && c.target == Target(proposals[sub].targetKeys[0], publicId(proposals[sub].targetKeys[0]))
    && c.target.key != "" && c.target.publicId != ""
    && c.disposition == proposals[sub].disposition && c.reason == proposals[sub].reason
  }

  /** A manifest row for a result that is not protected, at the reference it has. */
  ghost predicate FromResult(
    c: ExecutionRow, results: seq<(int, ResultRow)>, proposals: map<int, Proposal>, publicId: string -> string) {
    c.kind == "categorization_result" &&
    (exists e :: e in results && e.0 == c.sourceId && !IsProtectedTier(e.1.tier) &&
      Offers(proposals, publicId, e.1.subcategory, c) &&
       c.legacyCategory == Some(e.1.category) && c.legacySubcategory == Some(e.1.subcategory))
  }

  /** A manifest row for a rule nobody owns, at the reference it has. */
  ghost predicate FromRule(
    c: ExecutionRow, rules: seq<(int, RuleRow)>, proposals: map<int, Proposal>, publicId: string -> string) {
    c.kind == "system_rule" &&
    (exists e :: e in rules && e.0 == c.sourceId && e.1.user.None? && Offers(proposals, publicId, e.1.subcategory, c) &&
       c.legacyCategory == None && c.legacySubcategory == Some(e.1.subcategory))
  }

  lemma ResultOffers(
    id: int, res: ResultRow, proposals: map<int, Proposal>, publicId: string -> string, c: ExecutionRow)
    ensures
      var row := ResultReport(id, res, proposals, publicId);
      (row.Some? && IsCandidate("categorization-service", row.value) && c == ToExecution(row.value)) <==>
      (c.kind == "categorization_result" && id == c.sourceId && !IsProtectedTier(res.tier) &&
        Offers(proposals, publicId, res.subcategory, c) &&
       c.legacyCategory == Some(res.category) && c.legacySubcategory == Some(res.subcategory))
  {
  }

  lemma RuleOffers(id: int, rule: RuleRow, proposals: map<int, Proposal>, publicId: string -> string, c: ExecutionRow)
    ensures
      var row := RuleReport(id, rule, proposals, publicId);
      (row.Some? && IsCandidate("categorization-service", row.value) && c == ToExecution(row.value)) <==>
      (c.kind == "system_rule" && id == c.sourceId && rule.user.None? &&
        Offers(proposals, publicId, rule.subcategory, c) &&
       c.legacyCategory == None && c.legacySubcategory == Some(rule.subcategory))
  {
  }

  lemma ResultCandidates(
    results: seq<(int, ResultRow)>, proposals: map<int, Proposal>, publicId: string -> string, c: ExecutionRow)
    ensures c in Candidates("categorization-service", ResultRows(results, proposals, publicId)) <==>
        FromResult(c, results, proposals, publicId)
  {
    var rows := ResultRows(results, proposals, publicId);
    if c in Candidates("categorization-service", rows) {
      CandidateOrigin("categorization-service", rows, c);
      var row :| row in rows && IsCandidate("categorization-service", row) && c == ToExecution(row);
      InResultRows(results, proposals, publicId, row);
      var e :| e in results && ResultReport(e.0, e.1, proposals, publicId) == Some(row);
      ResultOffers(e.0, e.1, proposals, publicId, c);
    }
    forall e | e in results ensures
        var row := ResultReport(e.0, e.1, proposals, publicId);
        row.Some? && IsCandidate("categorization-service", row.value) && c == ToExecution(row.value) ==>
          c in Candidates("categorization-service", rows)
    {
      var row := ResultReport(e.0, e.1, proposals, publicId);
      if row.Some? && IsCandidate("categorization-service", row.value) {
        InResultRows(results, proposals, publicId, row.value);
        CandidateListed("categorization-service", rows, row.value);
      }
    }
    forall e: (int, ResultRow) { ResultOffers(e.0, e.1, proposals, publicId, c); }
  }

  lemma RuleCandidates(
    rules: seq<(int, RuleRow)>, proposals: map<int, Proposal>, publicId: string -> string, c: ExecutionRow)
    ensures c in Candidates("categorization-service", RuleRows(rules, proposals, publicId)) <==>
        FromRule(c, rules, proposals, publicId)
  {
    var rows := RuleRows(rules, proposals, publicId);
    if c in Candidates("categorization-service", rows) {
      CandidateOrigin("categorization-service", rows, c);
      var row :| row in rows && IsCandidate("categorization-service", row) && c == ToExecution(row);
      InRuleRows(rules, proposals, publicId, row);
      var e :| e in rules && RuleReport(e.0, e.1, proposals, publicId) == Some(row);
      RuleOffers(e.0, e.1, proposals, publicId, c);
    }
    forall e | e in rules ensures
        var row := RuleReport(e.0, e.1, proposals, publicId);
        row.Some? && IsCandidate("categorization-service", row.value) && c == ToExecution(row.value) ==>
          c in Candidates("categorization-service", rows)
    {
      var row := RuleReport(e.0, e.1, proposals, publicId);
      if row.Some? && IsCandidate("categorization-service", row.value) {
        InRuleRows(rules, proposals, publicId, row.value);
        CandidateListed("categorization-service", rows, row.value);
      }
    }
    forall e: (int, RuleRow) { RuleOffers(e.0, e.1, proposals, publicId, c); }
  }

  /** The manifest built from a scan names exactly the unprotected results and ownerless rules that have one
      approved target, each at the reference it was scanned with. */
  lemma ScannedCandidates(
    results: seq<(int, ResultRow)>, rules: seq<(int, RuleRow)>, proposals: map<int, Proposal>,
      publicId: string -> string, c: ExecutionRow)
    ensures c in Candidates("categorization-service",
        ResultRows(results, proposals, publicId) + RuleRows(rules, proposals, publicId)) <==>
            FromResult(c, results, proposals, publicId) || FromRule(c, rules, proposals, publicId)
  {
    CandidatesAppend("categorization-service", ResultRows(results, proposals, publicId),
      RuleRows(rules, proposals, publicId));
    ResultCandidates(results, proposals, publicId, c);
    RuleCandidates(rules, proposals, publicId, c);
  }
}
