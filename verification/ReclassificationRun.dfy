/** What the apply commands share around the moves: manifest rows become moves, and outcomes are counted. */
module ReclassificationRun {
  import opened Common
  import opened Reclassification

  /** All rows as moves, or the error of the first row that has none. */
  function ToMoves<R, E>(rows: seq<R>, toMove: R -> Result<Move, E>): (r: Result<seq<Move>, E>)
    ensures r.Success? ==> |r.value| == |rows| && forall i :: 0 <= i < |rows| ==> toMove(rows[i]) == Success(r.value[i])
  {
    if rows == [] then Success([])
    else
      var n := |rows| - 1;
      var init := ToMoves(rows[..n], toMove);
      if init.Failure? then init
      else
        var last := toMove(rows[n]);
        if last.Failure? then Failure(last.error) else Success(init.value + [last.value])
  }

  lemma ToMovesSnoc<R, E>(rows: seq<R>, row: R, toMove: R -> Result<Move, E>)
    requires ToMoves(rows, toMove).Success? && toMove(row).Success?
    ensures ToMoves(rows + [row], toMove) == Success(ToMoves(rows, toMove).value + [toMove(row).value])
  {
    assert (rows + [row])[..|rows|] == rows;
  }

  lemma {:induction false} ErrorAt<R, E>(rows: seq<R>, i: nat, toMove: R -> Result<Move, E>)
    requires i < |rows| && ToMoves(rows[..i], toMove).Success? && toMove(rows[i]).Failure?
    ensures ToMoves(rows, toMove) == Failure(toMove(rows[i]).error)
    decreases |rows|
  {
    var k := |rows| - 1;
    if i < k {
      assert rows[..k][..i] == rows[..i];
      ErrorAt(rows[..k], i, toMove);
    }
  }

  /** The counters of a run; a key the command never bumps reads as zero. */
  datatype Counts = Counts(
    applied: nat,
    validated: nat,
    alreadyApplied: nat,
    skippedMissing: nat,
    skippedProtected: nat,
    skippedChanged: nat,
    skippedCollision: nat)

  const NO_COUNTS := Counts(0, 0, 0, 0, 0, 0, 0)

  function CountsOf(outcomes: seq<Outcome>, execute: bool): Counts {
    Counts(if execute then Tally(outcomes, Hit) else 0, if execute then 0 else Tally(outcomes, Hit),
           Tally(outcomes, AlreadyApplied), Tally(outcomes, Missing), Tally(outcomes, Protected),
           Tally(outcomes, Changed), Tally(outcomes, Collision))
  }

  function Bump(c: Counts, o: Outcome, execute: bool): Counts {
    match o
    case Missing => c.(skippedMissing := c.skippedMissing + 1)
    case Protected => c.(skippedProtected := c.skippedProtected + 1)
    case AlreadyApplied => c.(alreadyApplied := c.alreadyApplied + 1)
    case Changed => c.(skippedChanged := c.skippedChanged + 1)
    case Collision => c.(skippedCollision := c.skippedCollision + 1)
    case Hit => if execute then c.(applied := c.applied + 1) else c.(validated := c.validated + 1)
  }

  lemma BumpCounts(outcomes: seq<Outcome>, o: Outcome, execute: bool)
    ensures CountsOf(outcomes + [o], execute) == Bump(CountsOf(outcomes, execute), o, execute)
  {
    assert (outcomes + [o])[..|outcomes|] == outcomes;
  }

  /** The rows so far have become moves, and table and counters are where those moves lead from t. */
  ghost predicate Reached<R, E>(
    t: Table, rows: seq<R>, toMove: R -> Result<Move, E>, execute: bool, now: Table, counts: Counts) {
    && ToMoves(rows, toMove).Success?
    && var moves := ToMoves(rows, toMove).value;
       now == After(t, moves, execute) && counts == CountsOf(Met(t, moves, execute), execute)
  }

  lemma ReachedStart<R, E>(t: Table, toMove: R -> Result<Move, E>, execute: bool)
    ensures Reached(t, [], toMove, execute, t, NO_COUNTS)
  {
  }

  lemma ReachedNext<R, E>(
    t: Table, rows: seq<R>, row: R, toMove: R -> Result<Move, E>, execute: bool,
    now: Table, counts: Counts, outcome: Outcome, now': Table)
    requires Reached(t, rows, toMove, execute, now, counts) && toMove(row).Success?
    requires outcome == Classify(now, toMove(row).value)
    requires now' == if execute then Apply(now, toMove(row).value) else now
    ensures Reached(t, rows + [row], toMove, execute, now', Bump(counts, outcome, execute))
  {
    ToMovesSnoc(rows, row, toMove);
    var moves := ToMoves(rows, toMove).value;
    OneMore(t, moves, toMove(row).value, execute);
    BumpCounts(Met(t, moves, execute), outcome, execute);
  }

  /** Executing again counts every former hit as already applied and all else as before. */
  lemma RerunCounts(outcomes: seq<Outcome>)
    ensures
      var first, again := CountsOf(outcomes, true), CountsOf(SettledAll(outcomes), true);
      again == first.(applied := 0, alreadyApplied := first.alreadyApplied + first.applied)
  {
    SettledTally(outcomes, Hit);
    SettledTally(outcomes, AlreadyApplied);
    SettledTally(outcomes, Missing);
    SettledTally(outcomes, Protected);
    SettledTally(outcomes, Changed);
    SettledTally(outcomes, Collision);
  }

  /** A table without guarded rows protects nothing; one without groups has no collisions. */
  lemma {:induction false} UnusedOutcomes(t: Table, moves: seq<Move>, execute: bool)
    ensures t.guarded == {} ==> CountsOf(Met(t, moves, execute), execute).skippedProtected == 0
    ensures t.group == map[] ==> CountsOf(Met(t, moves, execute), execute).skippedCollision == 0
  {
    if moves == [] {
    } else {
      var n := |moves| - 1;
      assert moves == moves[..n] + [moves[n]];
      UnusedOutcomes(t, moves[..n], execute);
      OneMore(t, moves[..n], moves[n], execute);
      ExecuteKeepsUnique(t, moves[..n]);
      BumpCounts(Met(t, moves[..n], execute), Classify(After(t, moves[..n], execute), moves[n]), execute);
    }
  }

  // ----- runs over the columns -----

  /** The tables before and after every row, and what each row met. */
  ghost predicate IsRun<S, R>(
    rows: seq<R>, step: (S, R, Outcome, S) -> bool, states: seq<S>, outcomes: seq<Outcome>)
  {
    && |states| == |rows| + 1 && |outcomes| == |rows|
    && forall n :: 0 <= n < |rows| ==> step(states[n], rows[n], outcomes[n], states[n + 1])
  }

  /** The first n rows have been walked. */
  ghost predicate Walked<S, R>(
    rows: seq<R>, n: nat, step: (S, R, Outcome, S) -> bool, execute: bool, states: seq<S>, outcomes: seq<Outcome>,
    counts: Counts)
    requires n <= |rows|
  {
    && |states| == n + 1 && |outcomes| == n && counts == CountsOf(outcomes, execute)
    && forall i :: 0 <= i < n ==> step(states[i], rows[i], outcomes[i], states[i + 1])
  }

  lemma WalkedNext<S, R>(
    rows: seq<R>, n: nat, step: (S, R, Outcome, S) -> bool, execute: bool, states: seq<S>, outcomes: seq<Outcome>,
    counts: Counts, o: Outcome, t: S)
    requires n < |rows| && Walked(rows, n, step, execute, states, outcomes, counts)
    requires step(states[n], rows[n], o, t)
    ensures Walked(rows, n + 1, step, execute, states + [t], outcomes + [o], Bump(counts, o, execute))
  {
    BumpCounts(outcomes, o, execute);
    var states', outcomes' := states + [t], outcomes + [o];
    forall i | 0 <= i < n + 1 ensures step(states'[i], rows[i], outcomes'[i], states'[i + 1]) {
      if i < n { assert step(states[i], rows[i], outcomes[i], states[i + 1]); }
    }
  }

  /** Some row cannot be applied for this reason, and all before it could. */
  ghost predicate FirstError<R, E(!new)>(rows: seq<R>, isError: (R, E) -> bool, error: E) {
    exists n :: 0 <= n < |rows| && isError(rows[n], error) && forall m, e :: 0 <= m < n ==> !isError(rows[m], e)
  }

  /** After n rows the tables s and the counters are where the moves lead and where the column steps lead. */
  ghost predicate Progress<S, R, E>(
    rows: seq<R>, n: nat, toMove: R -> Result<Move, E>, tableOf: S -> Table, step: (S, R, Outcome, S) -> bool,
    execute: bool, states: seq<S>, outcomes: seq<Outcome>, counts: Counts)
    requires n <= |rows|
  {
    && Walked(rows, n, step, execute, states, outcomes, counts)
    && Reached(tableOf(states[0]), rows[..n], toMove, execute, tableOf(states[n]), counts)
    && (!execute ==> states[n] == states[0])
  }

  lemma ProgressStart<S, R, E>(
    rows: seq<R>, toMove: R -> Result<Move, E>, tableOf: S -> Table, step: (S, R, Outcome, S) -> bool, execute: bool,
      s: S)
    ensures Progress(rows, 0, toMove, tableOf, step, execute, [s], [], NO_COUNTS)
  {
    assert rows[..0] == [];
    ReachedStart(tableOf(s), toMove, execute);
  }

  lemma ProgressNext<S, R, E>(
    rows: seq<R>, n: nat, toMove: R -> Result<Move, E>, tableOf: S -> Table, step: (S, R, Outcome, S) -> bool,
    execute: bool, states: seq<S>, outcomes: seq<Outcome>, counts: Counts, o: Outcome, s: S)
    requires n < |rows| && Progress(rows, n, toMove, tableOf, step, execute, states, outcomes, counts)
    requires toMove(rows[n]).Success? && o == Classify(tableOf(states[n]), toMove(rows[n]).value)
    requires tableOf(s) == if execute then Apply(tableOf(states[n]), toMove(rows[n]).value) else tableOf(states[n])
    requires step(states[n], rows[n], o, s) && (!execute ==> s == states[n])
    ensures Progress(rows, n + 1, toMove, tableOf, step, execute, states + [s], outcomes + [o],
        Bump(counts, o, execute))
  {
    PrefixSnoc(rows, n);
    ReachedNext(tableOf(states[0]), rows[..n], rows[n], toMove, execute, tableOf(states[n]), counts, o, tableOf(s));
    WalkedNext(rows, n, step, execute, states, outcomes, counts, o, s);
  }

  lemma ProgressDone<S, R, E>(
    rows: seq<R>, toMove: R -> Result<Move, E>, tableOf: S -> Table, step: (S, R, Outcome, S) -> bool,
    execute: bool, states: seq<S>, outcomes: seq<Outcome>, counts: Counts)
    requires Progress(rows, |rows|, toMove, tableOf, step, execute, states, outcomes, counts)
    ensures IsRun(rows, step, states, outcomes) && counts == CountsOf(outcomes, execute)
    ensures Reached(tableOf(states[0]), rows, toMove, execute, tableOf(states[|rows|]), counts)
  {
    assert rows[..|rows|] == rows;
  }

  /** Every column step is the move of its row. */
  ghost predicate StepsAreMoves<S(!new), R(!new), E>(
    toMove: R -> Result<Move, E>, tableOf: S -> Table, step: (S, R, Outcome, S) -> bool, execute: bool)
  {
    forall s, row, o, s' :: step(s, row, o, s') ==>
      && toMove(row).Success? && o == Classify(tableOf(s), toMove(row).value) && (!execute ==> s' == s)
      && tableOf(s') == if execute then Apply(tableOf(s), toMove(row).value) else tableOf(s)
  }

  lemma {:induction false} RunProgress<S(!new), R(!new), E>(
    rows: seq<R>, toMove: R -> Result<Move, E>, tableOf: S -> Table, step: (S, R, Outcome, S) -> bool, execute: bool,
    states: seq<S>, outcomes: seq<Outcome>, n: nat)
    requires IsRun(rows, step, states, outcomes) && n <= |rows| && StepsAreMoves(toMove, tableOf, step, execute)
    ensures Progress(
              rows, n, toMove, tableOf, step, execute, states[..n + 1], outcomes[..n], CountsOf(outcomes[..n], execute))
  {
    if n == 0 {
      ProgressStart(rows, toMove, tableOf, step, execute, states[0]);
      assert states[..1] == [states[0]] && outcomes[..0] == [];
    } else {
      RunProgress(rows, toMove, tableOf, step, execute, states, outcomes, n - 1);
      PrefixSnoc(states, n);
      PrefixSnoc(outcomes, n - 1);
      var before, o, s := states[..n], outcomes[n - 1], states[n];
      assert before[n - 1] == states[n - 1] && step(before[n - 1], rows[n - 1], o, s);
      var counts := CountsOf(outcomes[..n - 1], execute);
      BumpCounts(outcomes[..n - 1], o, execute);
      ProgressNext(rows, n - 1, toMove, tableOf, step, execute, before, outcomes[..n - 1], counts, o, s);
    }
  }

  /** A run over the columns is a run of the moves its rows mean. */
  lemma RunIsMoves<S(!new), R(!new), E>(
    rows: seq<R>, toMove: R -> Result<Move, E>, tableOf: S -> Table, step: (S, R, Outcome, S) -> bool, execute: bool,
    states: seq<S>, outcomes: seq<Outcome>)
    requires IsRun(rows, step, states, outcomes) && StepsAreMoves(toMove, tableOf, step, execute)
    ensures Reached(
              tableOf(states[0]), rows, toMove, execute, tableOf(states[|rows|]), CountsOf(outcomes, execute))
    ensures !execute ==> states[|rows|] == states[0]
  {
    assert states[..|rows| + 1] == states && outcomes[..|rows|] == outcomes;
    var counts := CountsOf(outcomes, execute);
    assert Progress(rows, |rows|, toMove, tableOf, step, execute, states, outcomes, counts) by {
      RunProgress(rows, toMove, tableOf, step, execute, states, outcomes, |rows|);
    }
    ProgressDone(rows, toMove, tableOf, step, execute, states, outcomes, counts);
  }

  /** The first row that cannot be applied is the first without a move. */
  lemma FirstErrorFails<R(!new), E(!new)>(rows: seq<R>, isError: (R, E) -> bool, toMove: R -> Result<Move, E>, error: E)
    requires FirstError(rows, isError, error)
    requires forall row :: (forall e :: !isError(row, e)) ==> toMove(row).Success?
    requires forall row, e :: isError(row, e) ==> toMove(row) == Failure(e)
    ensures ToMoves(rows, toMove) == Failure(error)
  {
    var n :| 0 <= n < |rows| && isError(rows[n], error) && forall m, e :: 0 <= m < n ==> !isError(rows[m], e);
    forall m | 0 <= m < n ensures toMove(rows[m]).Success? {}
    AllMovesSucceed(rows[..n], toMove);
    ErrorAt(rows, n, toMove);
  }

  lemma {:induction false} AllMovesSucceed<R, E>(rows: seq<R>, toMove: R -> Result<Move, E>)
    requires forall m :: 0 <= m < |rows| ==> toMove(rows[m]).Success?
    ensures ToMoves(rows, toMove).Success?
  {
    if rows == [] {
    } else {
      AllMovesSucceed(rows[..|rows| - 1], toMove);
    }
  }
}
