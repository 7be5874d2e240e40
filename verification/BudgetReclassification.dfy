/** Budget references: the scan that proposes moves, and the command that validates or applies a manifest. */
module BudgetReclassification {
  import opened Common
  import opened Reclassification
  import opened ReclassificationRun
  import opened ReclassificationReport

  datatype Line = Line(monthlyBudget: int, category: int)

  datatype ApplyError = TargetNotFound | UnsupportedKind

  // ----- the manifest as moves -----

  type Resolver = Target -> Option<int>

  function SourceOf(row: ExecutionRow): Option<Source> {
    match row.kind
    case "legacy_budget" => Some(LegacyBudget(row.sourceId))
    case "monthly_budget_line" => Some(BudgetLine(row.sourceId))
    case _ => None
  }

  function ToMove(row: ExecutionRow, resolve: Resolver): Result<Move, ApplyError> {
    if resolve(row.target).None? then Failure(TargetNotFound)
    else if SourceOf(row).None? then Failure(UnsupportedKind)
    else
      Success(Move(SourceOf(row).value, LegacyOf(row), Category(resolve(row.target).value)))
  }

  function Mover(resolve: Resolver): ExecutionRow -> Result<Move, ApplyError> {
    (row: ExecutionRow) => ToMove(row, resolve)
  }

  ghost function BudgetRefs(budgets: map<int, int>): map<Source, Ref> {
    map i | i in budgets :: LegacyBudget(i) := Category(budgets[i])
  }

  ghost function LineRefs(lines: map<int, Line>): map<Source, Ref> {
    map i | i in lines :: BudgetLine(i) := Category(lines[i].category)
  }

  ghost function TableOf(budgets: map<int, int>, lines: map<int, Line>): Table {
    Table(BudgetRefs(budgets) + LineRefs(lines), {}, map i | i in lines :: BudgetLine(i) := lines[i].monthlyBudget)
  }

  /** uq_budget_line_budget_category. */
  ghost predicate LinesUnique(lines: map<int, Line>) {
    forall i, j :: i in lines && j in lines && i != j && lines[i].monthlyBudget == lines[j].monthlyBudget ==>
      lines[i].category != lines[j].category
  }

  lemma UniqueLinesUniqueTable(budgets: map<int, int>, lines: map<int, Line>)
    ensures LinesUnique(lines) <==> Unique(TableOf(budgets, lines))
  {
    var t := TableOf(budgets, lines);
    if Unique(t) {
      forall i, j | i in lines && j in lines && i != j && lines[i].monthlyBudget == lines[j].monthlyBudget
        ensures lines[i].category != lines[j].category
      {
        assert Siblings(t, BudgetLine(i), BudgetLine(j));
      }
    }
  }

  lemma CollisionQuery(budgets: map<int, int>, lines: map<int, Line>, m: Move, id: int, target: int)
    requires id in lines && m.source == BudgetLine(id) && m.target == Category(target)
    ensures Collides(TableOf(budgets, lines), m) <==>
            exists j :: j in lines && lines[j].monthlyBudget == lines[id].monthlyBudget &&
              lines[j].category == target && j != id
  {
    var t := TableOf(budgets, lines);
    forall j | j in lines && lines[j].monthlyBudget == lines[id].monthlyBudget && lines[j].category == target && j != id
      ensures Collides(t, m)
    {
      assert BudgetLine(j) in t.refs && Siblings(t, m.source, BudgetLine(j));
    }
  }

  // ----- what a row does, over the columns -----

  datatype Tables = Tables(budgets: map<int, int>, lines: map<int, Line>)

  /** Why a row cannot be applied at all. */
  ghost predicate IsError(row: ExecutionRow, resolve: Resolver, error: ApplyError) {
    if resolve(row.target).None? then error == TargetNotFound
    else row.kind != "legacy_budget" && row.kind != "monthly_budget_line" && error == UnsupportedKind
  }

  ghost function Errors(resolve: Resolver): (ExecutionRow, ApplyError) -> bool {
    (row: ExecutionRow, error: ApplyError) => IsError(row, resolve, error)
  }

  /** A row's budget is missing, moved already, edited since, or at its legacy category: only then it moves. */
  ghost predicate BudgetStep(
    b: map<int, int>, row: ExecutionRow, target: int, execute: bool, o: Outcome, b': map<int, int>)
  {
    var id := row.sourceId;
    if id !in b then o == Missing && b' == b
    else if b[id] == target then o == AlreadyApplied && b' == b
    else if row.legacyCategory != Some(b[id]) then o == Changed && b' == b
    else o == Hit && b' == if execute then b[id := target] else b
  }

  /** Another line of the same monthly budget has the category. */
  ghost predicate IsHeldBySibling(l: map<int, Line>, id: int, category: int)
    requires id in l
  {
    exists j :: j in l && j != id && l[j].monthlyBudget == l[id].monthlyBudget && l[j].category == category
  }

  /** The same for a budget line, which also stays when a sibling has the target. */
  ghost predicate LineStep(
    l: map<int, Line>, row: ExecutionRow, target: int, execute: bool, o: Outcome, l': map<int, Line>)
  {
    var id := row.sourceId;
    if id !in l then o == Missing && l' == l
    else if l[id].category == target then o == AlreadyApplied && l' == l
    else if row.legacyCategory != Some(l[id].category) then o == Changed && l' == l
    else if IsHeldBySibling(l, id, target) then o == Collision && l' == l
    else o == Hit && l' == if execute then l[id := Line(l[id].monthlyBudget, target)] else l
  }

  ghost predicate RowStep(t: Tables, row: ExecutionRow, resolve: Resolver, execute: bool, o: Outcome, t': Tables) {
    && resolve(row.target).Some?
    && var target := resolve(row.target).value;
       if row.kind == "legacy_budget" then
         BudgetStep(t.budgets, row, target, execute, o, t'.budgets) && t'.lines == t.lines
       else
         && row.kind == "monthly_budget_line"
         && LineStep(t.lines, row, target, execute, o, t'.lines) && t'.budgets == t.budgets
  }

  ghost function Steps(resolve: Resolver, execute: bool): (Tables, ExecutionRow, Outcome, Tables) -> bool {
    (t: Tables, row: ExecutionRow, o: Outcome, t': Tables) => RowStep(t, row, resolve, execute, o, t')
  }

  ghost predicate NamesBudget(row: ExecutionRow, id: int) { row.kind == "legacy_budget" && row.sourceId == id }

  ghost predicate NamesLine(row: ExecutionRow, id: int) { row.kind == "monthly_budget_line" && row.sourceId == id }

  lemma {:induction false} UnnamedBudgetStays(
    rows: seq<ExecutionRow>, resolve: Resolver, execute: bool, states: seq<Tables>, outcomes: seq<Outcome>,
    id: int, m: nat, n: nat)
    requires IsRun(rows, Steps(resolve, execute), states, outcomes) && m <= n <= |rows|
    requires forall i :: m <= i < n ==> !NamesBudget(rows[i], id)
    ensures id in states[n].budgets <==> id in states[m].budgets
    ensures id in states[m].budgets ==> states[n].budgets[id] == states[m].budgets[id]
    decreases n
  {
    if n == m {
    } else {
      UnnamedBudgetStays(rows, resolve, execute, states, outcomes, id, m, n - 1);
      assert RowStep(states[n - 1], rows[n - 1], resolve, execute, outcomes[n - 1], states[n]);
      assert !NamesBudget(rows[n - 1], id);
    }
  }

  lemma {:induction false} UnnamedLineStays(
    rows: seq<ExecutionRow>, resolve: Resolver, execute: bool, states: seq<Tables>, outcomes: seq<Outcome>,
    id: int, m: nat, n: nat)
    requires IsRun(rows, Steps(resolve, execute), states, outcomes) && m <= n <= |rows|
    requires forall i :: m <= i < n ==> !NamesLine(rows[i], id)
    ensures id in states[n].lines <==> id in states[m].lines
    ensures id in states[m].lines ==> states[n].lines[id] == states[m].lines[id]
    decreases n
  {
    if n == m {
    } else {
      UnnamedLineStays(rows, resolve, execute, states, outcomes, id, m, n - 1);
      assert RowStep(states[n - 1], rows[n - 1], resolve, execute, outcomes[n - 1], states[n]);
      assert !NamesLine(rows[n - 1], id);
    }
  }

  /** Lines keep their monthly budget, and a category they did not have is one some row of theirs aimed at. */
  lemma {:induction false} LinesDrift(
    rows: seq<ExecutionRow>, resolve: Resolver, execute: bool, states: seq<Tables>, outcomes: seq<Outcome>, id: int,
      n: nat)
    requires IsRun(rows, Steps(resolve, execute), states, outcomes) && n <= |rows|
    ensures id in states[n].lines <==> id in states[0].lines
    ensures id in states[0].lines ==>
              && states[n].lines[id].monthlyBudget == states[0].lines[id].monthlyBudget
              && (|| states[n].lines[id].category == states[0].lines[id].category
                  || AimedBefore(rows, resolve, id, states[n].lines[id].category, n))
  {
    if n == 0 {
    } else {
      LinesDrift(rows, resolve, execute, states, outcomes, id, n - 1);
      assert RowStep(states[n - 1], rows[n - 1], resolve, execute, outcomes[n - 1], states[n]);
    }
  }

  /** One of the first n rows names the line and resolves to the category. */
  ghost predicate AimedBefore(rows: seq<ExecutionRow>, resolve: Resolver, id: int, category: int, n: nat)
    requires n <= |rows|
  {
    exists m :: 0 <= m < n && NamesLine(rows[m], id) && resolve(rows[m].target) == Some(category)
  }

  /** Row n is the only one to name its source. */
  ghost predicate NamesOnce(rows: seq<ExecutionRow>, n: nat)
    requires n < |rows|
  {
    forall m :: 0 <= m < |rows| && m != n ==> (rows[m].kind, rows[m].sourceId) != (rows[n].kind, rows[n].sourceId)
  }

  /** No line of the same monthly budget has the target before, and no row moves one there. */
  ghost predicate IsUncontested(l: map<int, Line>, rows: seq<ExecutionRow>, resolve: Resolver, id: int, target: int)
    requires id in l
  {
    forall j :: j in l && j != id && l[j].monthlyBudget == l[id].monthlyBudget ==>
      l[j].category != target && !AimedBefore(rows, resolve, j, target, |rows|)
  }

  /** The budgets afterwards: those no row names are untouched, one that a single row names is at that row's target
      exactly when this is an execution and the budget was at the row's legacy category. */
  ghost predicate BudgetsMoved(
    b: map<int, int>, rows: seq<ExecutionRow>, resolve: Resolver, execute: bool, b': map<int, int>)
  {
    && (forall id :: id in b <==> id in b')
    && (forall id :: id in b && (forall n :: 0 <= n < |rows| ==> !NamesBudget(rows[n], id)) ==> b'[id] == b[id])
    && (forall n :: 0 <= n < |rows| && NamesOnce(rows, n) && NamesBudget(rows[n], rows[n].sourceId) ==>
          BudgetMoved(b, rows[n], resolve, execute, b'))
  }

  ghost predicate BudgetMoved(
    b: map<int, int>, row: ExecutionRow, resolve: Resolver, execute: bool, b': map<int, int>)
  {
    var id := row.sourceId;
    id in b && id in b' ==>
      if execute && row.legacyCategory == Some(b[id]) then Some(b'[id]) == resolve(row.target) else b'[id] == b[id]
  }

  /** The lines afterwards: likewise, except that a line whose target is contested may stay. */
  ghost predicate LinesMoved(
    l: map<int, Line>, rows: seq<ExecutionRow>, resolve: Resolver, execute: bool, l': map<int, Line>)
  {
    && (forall id :: id in l <==> id in l') && (forall id :: id in l ==> l'[id].monthlyBudget == l[id].monthlyBudget)
    && (forall id :: id in l && (forall n :: 0 <= n < |rows| ==> !NamesLine(rows[n], id)) ==> l'[id] == l[id])
    && (forall n :: 0 <= n < |rows| && NamesOnce(rows, n) && NamesLine(rows[n], rows[n].sourceId) ==>
          (rows[n].sourceId in l ==> LineMoved(l, rows, n, resolve, execute, l')))
  }

  ghost predicate LineMoved(
    l: map<int, Line>, rows: seq<ExecutionRow>, n: nat, resolve: Resolver, execute: bool, l': map<int, Line>)
    requires n < |rows| && rows[n].sourceId in l
  {
    var id := rows[n].sourceId;
    && id in l' && resolve(rows[n].target).Some?
    && var target := resolve(rows[n].target).value;
       && (!execute || rows[n].legacyCategory != Some(l[id].category) ==> l'[id] == l[id])
       && (execute && rows[n].legacyCategory == Some(l[id].category) && IsUncontested(l, rows, resolve, id, target) ==>
             l'[id].category == target)
  }

  lemma RunMovesBudgets(
    rows: seq<ExecutionRow>, resolve: Resolver, execute: bool, states: seq<Tables>, outcomes: seq<Outcome>)
    requires IsRun(rows, Steps(resolve, execute), states, outcomes)
    ensures BudgetsMoved(states[0].budgets, rows, resolve, execute, states[|rows|].budgets)
  {
    var b, b' := states[0].budgets, states[|rows|].budgets;
    forall id ensures id in b <==> id in b' { BudgetKeysStay(rows, resolve, execute, states, outcomes, id, |rows|); }
    forall id | id in b && (forall n :: 0 <= n < |rows| ==> !NamesBudget(rows[n], id)) ensures b'[id] == b[id] {
      UnnamedBudgetStays(rows, resolve, execute, states, outcomes, id, 0, |rows|);
    }
    forall n | 0 <= n < |rows| && NamesOnce(rows, n) && NamesBudget(rows[n], rows[n].sourceId)
      ensures BudgetMoved(b, rows[n], resolve, execute, b')
    {
      UnnamedBudgetStays(rows, resolve, execute, states, outcomes, rows[n].sourceId, 0, n);
      assert RowStep(states[n], rows[n], resolve, execute, outcomes[n], states[n + 1]);
      UnnamedBudgetStays(rows, resolve, execute, states, outcomes, rows[n].sourceId, n + 1, |rows|);
    }
  }

  lemma {:induction false} BudgetKeysStay(
    rows: seq<ExecutionRow>, resolve: Resolver, execute: bool, states: seq<Tables>, outcomes: seq<Outcome>, id: int,
      n: nat)
    requires IsRun(rows, Steps(resolve, execute), states, outcomes) && n <= |rows|
    ensures id in states[n].budgets <==> id in states[0].budgets
  {
    if n == 0 {
    } else {
      BudgetKeysStay(rows, resolve, execute, states, outcomes, id, n - 1);
      assert RowStep(states[n - 1], rows[n - 1], resolve, execute, outcomes[n - 1], states[n]);
    }
  }

  lemma RunMovesLine(
    rows: seq<ExecutionRow>, resolve: Resolver, execute: bool, states: seq<Tables>, outcomes: seq<Outcome>, n: nat)
    requires IsRun(rows, Steps(resolve, execute), states, outcomes)
    requires n < |rows| && rows[n].kind == "monthly_budget_line" && NamesOnce(rows, n) &&
        rows[n].sourceId in states[0].lines
    ensures LineMoved(states[0].lines, rows, n, resolve, execute, states[|rows|].lines)
  {
    var id, l, now := rows[n].sourceId, states[0].lines, states[n].lines;
    UnnamedLineStays(rows, resolve, execute, states, outcomes, id, 0, n);
    assert RowStep(states[n], rows[n], resolve, execute, outcomes[n], states[n + 1]);
    UnnamedLineStays(rows, resolve, execute, states, outcomes, id, n + 1, |rows|);
    var target := resolve(rows[n].target).value;
    if IsUncontested(l, rows, resolve, id, target) {
      forall j | j in now && j != id && now[j].monthlyBudget == now[id].monthlyBudget
          ensures now[j].category != target {
        LinesDrift(rows, resolve, execute, states, outcomes, j, n);
        AimedEarlier(rows, resolve, j, now[j].category, n);
      }
    }
  }

  lemma AimedEarlier(rows: seq<ExecutionRow>, resolve: Resolver, id: int, category: int, n: nat)
    requires n <= |rows|
    ensures AimedBefore(rows, resolve, id, category, n) ==> AimedBefore(rows, resolve, id, category, |rows|)
  {
  }

  lemma RunMovesLines(
    rows: seq<ExecutionRow>, resolve: Resolver, execute: bool, states: seq<Tables>, outcomes: seq<Outcome>)
    requires IsRun(rows, Steps(resolve, execute), states, outcomes)
    ensures LinesMoved(states[0].lines, rows, resolve, execute, states[|rows|].lines)
  {
    var l, l' := states[0].lines, states[|rows|].lines;
    forall id ensures (id in l <==> id in l') && (id in l ==> l'[id].monthlyBudget == l[id].monthlyBudget) {
      LinesDrift(rows, resolve, execute, states, outcomes, id, |rows|);
    }
    forall id | id in l && (forall n :: 0 <= n < |rows| ==> !NamesLine(rows[n], id)) ensures l'[id] == l[id] {
      UnnamedLineStays(rows, resolve, execute, states, outcomes, id, 0, |rows|);
    }
    forall n | 0 <= n < |rows| && rows[n].kind == "monthly_budget_line" && NamesOnce(rows, n) && rows[n].sourceId in l
      ensures LineMoved(l, rows, n, resolve, execute, l')
    {
      RunMovesLine(rows, resolve, execute, states, outcomes, n);
    }
  }

  /** The counters of a manifest of one row, by the columns it finds. */
  ghost predicate OneRowCounts(t: Tables, row: ExecutionRow, target: int, execute: bool, c: Counts) {
    var id := row.sourceId;
    var found := if row.kind == "legacy_budget" then id in t.budgets else id in t.lines;
    if !found then c == Counts(0, 0, 0, 1, 0, 0, 0)
    else
      var current := if row.kind == "legacy_budget" then t.budgets[id] else t.lines[id].category;
      if current == target then c == Counts(0, 0, 1, 0, 0, 0, 0)
      else if row.legacyCategory != Some(current) then c == Counts(0, 0, 0, 0, 0, 1, 0)
      else if row.kind != "legacy_budget" && IsHeldBySibling(t.lines, id, target) then c == Counts(0, 0, 0, 0, 0, 0, 1)
      else c == if execute then Counts(1, 0, 0, 0, 0, 0, 0) else Counts(0, 1, 0, 0, 0, 0, 0)
  }

  lemma OneRowCounted(t: Tables, row: ExecutionRow, resolve: Resolver, execute: bool, o: Outcome, t': Tables)
    requires RowStep(t, row, resolve, execute, o, t')
    ensures OneRowCounts(t, row, resolve(row.target).value, execute, CountsOf([o], execute))
  {
    assert [o][..0] == [];
    assert forall x: Outcome :: Tally([o], x) == if o == x then 1 else 0;
  }

  /** What applying a manifest leaves and counts, over the columns. */
  ghost predicate Effects(
    t: Tables, rows: seq<ExecutionRow>, resolve: Resolver, execute: bool, t': Tables, counts: Counts)
  {
    && (forall n, e :: 0 <= n < |rows| ==> !IsError(rows[n], resolve, e))
    && BudgetsMoved(t.budgets, rows, resolve, execute, t'.budgets)
    && LinesMoved(t.lines, rows, resolve, execute, t'.lines)
    && (|rows| == 1 ==>
          && resolve(rows[0].target).Some?
          && OneRowCounts(t, rows[0], resolve(rows[0].target).value, execute, counts))
  }

  lemma RunEffects(
    rows: seq<ExecutionRow>, resolve: Resolver, execute: bool, states: seq<Tables>, outcomes: seq<Outcome>)
    requires IsRun(rows, Steps(resolve, execute), states, outcomes)
    ensures Effects(states[0], rows, resolve, execute, states[|rows|], CountsOf(outcomes, execute))
  {
    forall n, e | 0 <= n < |rows| ensures !IsError(rows[n], resolve, e) {
      assert RowStep(states[n], rows[n], resolve, execute, outcomes[n], states[n + 1]);
    }
    RunMovesBudgets(rows, resolve, execute, states, outcomes);
    RunMovesLines(rows, resolve, execute, states, outcomes);
    if |rows| == 1 {
      OneRowCounted(states[0], rows[0], resolve, execute, outcomes[0], states[1]);
      assert outcomes == [outcomes[0]];
    }
  }

  ghost predicate Remembers(resolved: map<Target, int>, resolve: Resolver) {
    forall k :: k in resolved ==> resolve(k) == Some(resolved[k])
  }

  /** The category port is asked at most once per identity. */
  method ResolveOnce(
    resolved: map<Target, int>, target: Target, resolve: Resolver)
    returns (id: Option<int>, resolved': map<Target, int>)
    requires Remembers(resolved, resolve)
    ensures id == resolve(target) && Remembers(resolved', resolve)
    ensures resolved'.Keys == resolved.Keys + if id.Some? then {target} else {}
  {
    resolved' := resolved;
    if target in resolved {
      id := Some(resolved[target]);
    } else {
      id := resolve(target);
      if id.Some? { resolved' := resolved[target := id.value]; }
    }
  }

  /** The manifest rows on the session's view of the two tables. */
  method ApplyRows(b0: map<int, int>, l0: map<int, Line>, rows: seq<ExecutionRow>, resolve: Resolver, execute: bool)
    returns (error: Option<ApplyError>, counts: Counts, b: map<int, int>, l: map<int, Line>)
    ensures error.Some? ==> ToMoves(rows, Mover(resolve)) == Failure(error.value)
    ensures error.Some? ==> FirstError(rows, Errors(resolve), error.value)
    ensures error.None? ==> Reached(TableOf(b0, l0), rows, Mover(resolve), execute, TableOf(b, l), counts)
    ensures error.None? ==> Effects(Tables(b0, l0), rows, resolve, execute, Tables(b, l), counts)
    ensures error.None? && !execute ==> b == b0 && l == l0
  {
    ghost var states, outcomes;
    error, counts, b, l, states, outcomes := WalkRows(b0, l0, rows, resolve, execute);
    if error.Some? {
      FirstErrorOfMoves(rows, resolve, error.value);
    } else {
      StepsMove(resolve, execute);
      RunIsMoves(rows, Mover(resolve), Tabled(), Steps(resolve, execute), execute, states, outcomes);
      assert Effects(states[0], rows, resolve, execute, states[|rows|], counts) by {
        RunEffects(rows, resolve, execute, states, outcomes);
      }
    }
  }

  /** The loop over the manifest rows. */
  method WalkRows(b0: map<int, int>, l0: map<int, Line>, rows: seq<ExecutionRow>, resolve: Resolver, execute: bool)
    returns (
      error: Option<ApplyError>, counts: Counts, b: map<int, int>, l: map<int, Line>,
      ghost states: seq<Tables>, ghost outcomes: seq<Outcome>)
    ensures error.Some? ==> FirstError(rows, Errors(resolve), error.value)
    ensures error.None? ==>
              && IsRun(rows, Steps(resolve, execute), states, outcomes) && counts == CountsOf(outcomes, execute)
              && states[0] == Tables(b0, l0) && states[|rows|] == Tables(b, l)
  {
    b, l, counts, error := b0, l0, NO_COUNTS, None;
    states, outcomes := [Tables(b0, l0)], [];
    var resolved: map<Target, int> := map[];
    for i := 0 to |rows|
      invariant error.None? && Remembers(resolved, resolve)
      invariant Walked(rows, i, Steps(resolve, execute), execute, states, outcomes, counts)
      invariant states[0] == Tables(b0, l0) && states[i] == Tables(b, l)
    {
      var row := rows[i];
      var found;
      found, resolved := ResolveOnce(resolved, row.target, resolve);
      if found.None? {
        error := Some(TargetNotFound);
        FirstErrorAt(rows, i, resolve, execute, states, outcomes, TargetNotFound);
        return;
      }
      if row.kind != "legacy_budget" && row.kind != "monthly_budget_line" {
        error := Some(UnsupportedKind);
        FirstErrorAt(rows, i, resolve, execute, states, outcomes, UnsupportedKind);
        return;
      }
      var outcome;
      outcome, b, l := ApplyRow(b, l, row, found.value, execute, resolve);
      WalkedNext(rows, i, Steps(resolve, execute), execute, states, outcomes, counts, outcome, Tables(b, l));
      counts := Bump(counts, outcome, execute);
      states, outcomes := states + [Tables(b, l)], outcomes + [outcome];
    }
  }

  // ----- column steps are moves -----

  ghost function Tabled(): Tables -> Table { (t: Tables) => TableOf(t.budgets, t.lines) }

  lemma FirstErrorAt(
    rows: seq<ExecutionRow>, n: nat, resolve: Resolver, execute: bool, states: seq<Tables>, outcomes: seq<Outcome>,
    error: ApplyError)
    requires n < |rows| && |states| == n + 1 && |outcomes| == n && IsError(rows[n], resolve, error)
    requires forall i :: 0 <= i < n ==> Steps(resolve, execute)(states[i], rows[i], outcomes[i], states[i + 1])
    ensures FirstError(rows, Errors(resolve), error)
  {
    forall m, e | 0 <= m < n ensures !Errors(resolve)(rows[m], e) {
      assert Steps(resolve, execute)(states[m], rows[m], outcomes[m], states[m + 1]);
    }
    assert Errors(resolve)(rows[n], error);
  }

  class Session {
    var budgets: map<int, int>
    var lines: map<int, Line>

    constructor (budgets: map<int, int>, lines: map<int, Line>)
      ensures this.budgets == budgets && this.lines == lines
    {
      this.budgets, this.lines := budgets, lines;
    }

    /** The manifest applied row by row inside one transaction. A failing row rolls everything back; a dry
        run writes nothing; an execute leaves the table the moves lead to, still unique. */
    method ApplyReclassification(
      rows: seq<ExecutionRow>, resolve: Resolver, execute: bool) returns (r: Result<Counts, ApplyError>)
      requires LinesUnique(lines)
      modifies this
      ensures LinesUnique(lines)
      ensures ToMoves(rows, Mover(resolve)).Failure? ==>
                r == Failure(ToMoves(rows, Mover(resolve)).error) && budgets == old(budgets) && lines == old(lines)
      ensures ToMoves(rows, Mover(resolve)).Success? ==>
                r.Success? && Reached(old(TableOf(budgets, lines)), rows, Mover(resolve), execute,
                  TableOf(budgets, lines), r.value)
      ensures !execute ==> budgets == old(budgets) && lines == old(lines)
      ensures r.Success? ==> r.value.skippedProtected == 0
      ensures r.Failure? ==> FirstError(rows, Errors(resolve), r.error)
      ensures r.Success? ==>
                Effects(Tables(old(budgets), old(lines)), rows, resolve, execute, Tables(budgets, lines), r.value)
    {
      var error, counts, b, l := ApplyRows(budgets, lines, rows, resolve, execute);
      if error.Some? {
        return Failure(error.value);
      }
      StillUnique(budgets, lines, ToMoves(rows, Mover(resolve)).value, execute, b, l);
      UnusedOutcomes(TableOf(budgets, lines), ToMoves(rows, Mover(resolve)).value, execute);
      budgets, lines := b, l;
      r := Success(counts);
    }
  }

  lemma StillUnique(
    b: map<int, int>, l: map<int, Line>, moves: seq<Move>, execute: bool, b': map<int, int>, l': map<int, Line>)
    requires LinesUnique(l) && TableOf(b', l') == After(TableOf(b, l), moves, execute)
    ensures LinesUnique(l')
  {
    UniqueLinesUniqueTable(b, l);
    UniqueLinesUniqueTable(b', l');
    ExecuteKeepsUnique(TableOf(b, l), moves);
  }

  function LegacyOf(row: ExecutionRow): Option<Ref> {
    if row.legacyCategory.Some? then Some(Category(row.legacyCategory.value)) else None
  }

  lemma BudgetMeets(b: map<int, int>, l: map<int, Line>, id: int, legacy: Option<int>, target: int, m: Move)
    requires m == Move(LegacyBudget(id), if legacy.Some? then Some(Category(legacy.value)) else None, Category(target))
    ensures Classify(TableOf(b, l), m) ==
            if id !in b then Missing else if b[id] == target then AlreadyApplied else if Some(b[id]) != legacy
                then Changed else Hit
  {
    var t := TableOf(b, l);
    assert m.source in t.refs <==> id in b;
    assert id in b ==> t.refs[m.source] == Category(b[id]);
    assert m.source !in t.group;
  }

  lemma LineMeets(b: map<int, int>, l: map<int, Line>, id: int, legacy: Option<int>, target: int, m: Move)
    requires m == Move(BudgetLine(id), if legacy.Some? then Some(Category(legacy.value)) else None, Category(target))
    ensures Classify(TableOf(b, l), m) ==
            if id !in l then Missing
            else if l[id].category == target then AlreadyApplied
            else if Some(l[id].category) != legacy then Changed
            else if Collides(TableOf(b, l), m) then Collision
            else Hit
  {
    var t := TableOf(b, l);
    assert m.source in t.refs <==> id in l;
    assert id in l ==> t.refs[m.source] == Category(l[id].category);
  }

  lemma BudgetRefsWritten(b: map<int, int>, id: int, target: int)
    ensures BudgetRefs(b[id := target]) == BudgetRefs(b)[LegacyBudget(id) := Category(target)]
  {
    var written, refs := BudgetRefs(b[id := target]), BudgetRefs(b)[LegacyBudget(id) := Category(target)];
    forall s ensures s in written <==> s in refs {
      if s.LegacyBudget? { assert s == LegacyBudget(s.id); }
    }
    forall s | s in written ensures written[s] == refs[s] {}
  }

  lemma LineRefsWritten(l: map<int, Line>, id: int, line: Line)
    ensures LineRefs(l[id := line]) == LineRefs(l)[BudgetLine(id) := Category(line.category)]
  {
    var written, refs := LineRefs(l[id := line]), LineRefs(l)[BudgetLine(id) := Category(line.category)];
    forall s ensures s in written <==> s in refs {
      if s.BudgetLine? { assert s == BudgetLine(s.id); }
    }
    forall s | s in written ensures written[s] == refs[s] {}
  }

  lemma BudgetWritten(b: map<int, int>, l: map<int, Line>, id: int, target: int)
    requires id in b
    ensures TableOf(b[id := target], l) ==
        TableOf(b, l).(refs := TableOf(b, l).refs[LegacyBudget(id) := Category(target)])
  {
    BudgetRefsWritten(b, id, target);
    Overlay(BudgetRefs(b), LineRefs(l), LegacyBudget(id), Category(target));
  }

  lemma LineWritten(b: map<int, int>, l: map<int, Line>, id: int, target: int)
    requires id in l
    ensures TableOf(b, l[id := l[id].(category := target)]) ==
            TableOf(b, l).(refs := TableOf(b, l).refs[BudgetLine(id) := Category(target)])
  {
    var l' := l[id := l[id].(category := target)];
    LineRefsWritten(l, id, l[id].(category := target));
    Overlay(BudgetRefs(b), LineRefs(l), BudgetLine(id), Category(target));
    assert TableOf(b, l').group == TableOf(b, l).group;
  }

  lemma RowStepIsMove(t: Tables, row: ExecutionRow, resolve: Resolver, execute: bool, o: Outcome, t': Tables)
    requires RowStep(t, row, resolve, execute, o, t')
    ensures ToMove(row, resolve).Success?
    ensures
      var m := ToMove(row, resolve).value;
      && o == Classify(Tabled()(t), m)
      && Tabled()(t') == if execute then Apply(Tabled()(t), m) else Tabled()(t)
    ensures !execute ==> t' == t
  {
    var id, target := row.sourceId, resolve(row.target).value;
    var m := ToMove(row, resolve).value;
    if row.kind == "legacy_budget" {
      BudgetMeets(t.budgets, t.lines, id, row.legacyCategory, target, m);
      if o == Hit && execute {
        BudgetWritten(t.budgets, t.lines, id, target);
      }
    } else {
      LineStepIsMove(t.budgets, t.lines, row, target, execute, o, t'.lines, m);
    }
  }

  lemma LineStepIsMove(
    b: map<int, int>, l: map<int, Line>, row: ExecutionRow, target: int, execute: bool, o: Outcome, l': map<int, Line>,
    m: Move)
    requires LineStep(l, row, target, execute, o, l')
    requires m == Move(BudgetLine(row.sourceId), LegacyOf(row), Category(target))
    ensures o == Classify(TableOf(b, l), m)
    ensures TableOf(b, l') == if execute then Apply(TableOf(b, l), m) else TableOf(b, l)
  {
    var id := row.sourceId;
    LineMeets(b, l, id, row.legacyCategory, target, m);
    if id in l {
      CollisionQuery(b, l, m, id, target);
    }
    if o == Hit && execute {
      LineWritten(b, l, id, target);
    }
  }

  lemma StepsMove(resolve: Resolver, execute: bool)
    ensures StepsAreMoves(Mover(resolve), Tabled(), Steps(resolve, execute), execute)
  {
    forall s, row, o, s' | Steps(resolve, execute)(s, row, o, s')
      ensures Mover(resolve)(row).Success? && o == Classify(Tabled()(s), Mover(resolve)(row).value)
      ensures Tabled()(s') == if execute then Apply(Tabled()(s), Mover(resolve)(row).value) else Tabled()(s)
      ensures !execute ==> s' == s
    {
      RowStepIsMove(s, row, resolve, execute, o, s');
    }
  }

  lemma FineIsMove(row: ExecutionRow, resolve: Resolver)
    ensures (forall e :: !Errors(resolve)(row, e)) ==> Mover(resolve)(row).Success?
    ensures forall e :: Errors(resolve)(row, e) ==> Mover(resolve)(row) == Failure(e)
  {
    assert Errors(resolve)(row, TargetNotFound) == IsError(row, resolve, TargetNotFound);
    assert Errors(resolve)(row, UnsupportedKind) == IsError(row, resolve, UnsupportedKind);
  }

  lemma FirstErrorOfMoves(rows: seq<ExecutionRow>, resolve: Resolver, error: ApplyError)
    requires FirstError(rows, Errors(resolve), error)
    ensures ToMoves(rows, Mover(resolve)) == Failure(error)
  {
    forall row { FineIsMove(row, resolve); }
    FirstErrorFails(rows, Errors(resolve), Mover(resolve), error);
  }

  // ----- the rows of each kind -----

  method ApplyBudget(b: map<int, int>, row: ExecutionRow, target: int, execute: bool)
    returns (outcome: Outcome, b': map<int, int>)
    ensures BudgetStep(b, row, target, execute, outcome, b')
  {
    b' := b;
    if row.sourceId !in b {
      outcome := Missing;
    } else if b[row.sourceId] == target {
      outcome := AlreadyApplied;
    } else if Some(b[row.sourceId]) != row.legacyCategory {
      outcome := Changed;
    } else {
      outcome := Hit;
      if execute {
        b' := b[row.sourceId := target];
      }
    }
  }

  method ApplyLine(l: map<int, Line>, row: ExecutionRow, target: int, execute: bool)
    returns (outcome: Outcome, l': map<int, Line>)
    ensures LineStep(l, row, target, execute, outcome, l')
  {
    l' := l;
    var id := row.sourceId;
    if id !in l {
      outcome := Missing;
    } else if l[id].category == target {
      outcome := AlreadyApplied;
    } else if Some(l[id].category) != row.legacyCategory {
      outcome := Changed;
    } else if exists j :: j in l && l[j].monthlyBudget == l[id].monthlyBudget && l[j].category == target && j != id {
      outcome := Collision;
    } else {
      outcome := Hit;
      if execute {
        l' := l[id := l[id].(category := target)];
      }
    }
  }

  method ApplyRow(
    b: map<int, int>, l: map<int, Line>, row: ExecutionRow, target: int, execute: bool, ghost resolve: Resolver)
    returns (outcome: Outcome, b': map<int, int>, l': map<int, Line>)
    requires resolve(row.target) == Some(target) && (row.kind == "legacy_budget" || row.kind == "monthly_budget_line")
    ensures RowStep(Tables(b, l), row, resolve, execute, outcome, Tables(b', l'))
  {
    b', l' := b, l;
    if row.kind == "legacy_budget" {
      outcome, b' := ApplyBudget(b, row, target, execute);
    } else {
      outcome, l' := ApplyLine(l, row, target, execute);
    }
  }
}
