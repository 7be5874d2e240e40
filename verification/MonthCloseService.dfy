/** close_month and the sweep as code, with other processes running between any two transactions. */
module MonthCloseService {
  import opened Common
  import opened MonthClose

  type Environment = (nat, nat) -> seq<Action>

  ghost predicate LeavesAlone(env: Environment, base: CallId) {
    forall i, j, a, k :: a in env(i, j) && k >= base ==> !Concerns(a, k)
  }

  /** The rows list_open_before_period returns. */
  ghost predicate IsQueryResult(candidates: seq<Budget>, budgets: map<BudgetId, Budget>, today: Date) {
    forall b :: b in candidates <==> exists i :: i in budgets && budgets[i] == b && IsOpenBefore(b, today)
  }

  function Due(candidates: seq<Budget>, today: Date, closeDay: int): (due: seq<Budget>)
    ensures forall b :: b in due <==> b in candidates && IsDue(b, today, closeDay)
  {
    if candidates == [] then []
    else
      var n := |candidates| - 1;
      assert forall b :: b in candidates <==> b in candidates[..n] || b == candidates[n];
      Due(candidates[..n], today, closeDay) + if IsDue(candidates[n], today, closeDay) then [candidates[n]] else []
  }

  ghost predicate AllQuiet(outcomes: seq<Option<Outcome>>, spends: nat -> Option<int>, unexpected: nat -> bool) {
    forall i :: 0 <= i < |outcomes| ==> outcomes[i] == QuietOutcome(spends, unexpected, i)
  }

  /** An open row of the table that is due. */
  ghost predicate IsOpenAndDue(budgets: map<BudgetId, Budget>, b: Budget, today: Date, closeDay: int) {
    exists i :: i in budgets && budgets[i] == b && !b.closed && IsDue(b, today, closeDay)
  }

  /** The due are exactly the open due rows of the table. */
  ghost predicate CoversAllDue(due: seq<Budget>, budgets: map<BudgetId, Budget>, today: Date, closeDay: int) {
    forall b :: b in due <==> IsOpenAndDue(budgets, b, today, closeDay)
  }

  /** The period filter of the query loses none of them. */
  lemma DueIsOpenAndDue(candidates: seq<Budget>, budgets: map<BudgetId, Budget>, today: Date, closeDay: int)
    requires IsQueryResult(candidates, budgets, today)
    ensures CoversAllDue(Due(candidates, today, closeDay), budgets, today, closeDay)
  {
    forall b | IsOpenAndDue(budgets, b, today, closeDay) ensures b in Due(candidates, today, closeDay) {
      FilterLosesNoDueRow(b, today, closeDay);
      assert IsOpenBefore(b, today);
    }
  }

  function Tally(outcomes: seq<Option<Outcome>>, wanted: set<Option<Outcome>>): nat {
    if outcomes == [] then 0
    else Tally(outcomes[..|outcomes| - 1], wanted) + if outcomes[|outcomes| - 1] in wanted then 1 else 0
  }

  function Count(c: Counts, o: Option<Outcome>): Counts {
    match o
    case None => c.(failedUnexpected := c.failedUnexpected + 1)
    case Some(ClosedNow) => c.(closed := c.closed + 1)
    case Some(AlreadyClosed) => c.(skipped := c.skipped + 1)
    case Some(NotFound) => c.(skipped := c.skipped + 1)
    case Some(UpstreamDown) => c.(failedUpstream := c.failedUpstream + 1)
  }

  ghost predicate Counted(c: Counts, outcomes: seq<Option<Outcome>>) {
    && c.closed == Tally(outcomes, {Some(ClosedNow)})
    && c.skipped == Tally(outcomes, {Some(AlreadyClosed), Some(NotFound)})
    && c.failedUpstream == Tally(outcomes, {Some(UpstreamDown)})
    && c.failedUnexpected == Tally(outcomes, {None})
    && c.closed + c.skipped + c.failedUpstream + c.failedUnexpected == |outcomes|
  }

  lemma CountOne(c: Counts, outcomes: seq<Option<Outcome>>, o: Option<Outcome>)
    requires Counted(c, outcomes)
    ensures Counted(Count(c, o), outcomes + [o])
  {
    assert (outcomes + [o])[..|outcomes|] == outcomes;
  }

  /** Every action of the trace is the sweep's own or one of its environment. */
  ghost predicate OwnOrForeign(trace: seq<Action>, due: seq<Budget>, base: CallId, env: Environment) {
    forall a :: a in trace ==> SweepAction(a, due, base) || exists i, j :: a in env(i, j)
  }

  lemma {:induction false} SweepRun(
    w: World, trace: seq<Action>, due: seq<Budget>, base: CallId, env: Environment, n: nat)
    requires n <= |trace| && Inv(w) && SweepCalls(w, due, base)
    requires OwnOrForeign(trace, due, base, env) && LeavesAlone(env, base)
    ensures Inv(Run(w, trace[..n])) && SweepCalls(Run(w, trace[..n]), due, base)
  {
    if n == 0 {
      assert trace[..0] == [];
    } else {
      SweepRun(w, trace, due, base, env, n - 1);
      PrefixSnoc(trace, n - 1);
      var a := trace[n - 1];
      assert a in trace;
      NextKeepsInv(Run(w, trace[..n - 1]), a);
      SweepCallsKept(Run(w, trace[..n - 1]), a, due, base);
    }
  }

  /** Step n of the trace changes a row that is not among the due, or sends an event about it. */
  ghost predicate TouchesOther(w: World, trace: seq<Action>, due: seq<Budget>, n: nat, id: BudgetId)
    requires n < |trace|
  {
    var before, after := Run(w, trace[..n]), Run(w, trace[..n + 1]);
    id in before.budgets && !IsAmong(before.budgets[id], due) && !Spares(before, after, id)
  }

  /** Whatever happens to a row that is not among the due is done by the environment. */
  ghost predicate OnlyDueTouched(w: World, trace: seq<Action>, due: seq<Budget>, env: Environment) {
    forall n, id :: 0 <= n < |trace| && TouchesOther(w, trace, due, n, id) ==> exists i, j :: trace[n] in env(i, j)
  }

  lemma SweepTouchesOnlyDue(w: World, trace: seq<Action>, due: seq<Budget>, base: CallId, env: Environment)
    requires Inv(w) && SweepCalls(w, due, base) && OwnOrForeign(trace, due, base, env) && LeavesAlone(env, base)
    ensures OnlyDueTouched(w, trace, due, env)
  {
    forall n, id | 0 <= n < |trace| && TouchesOther(w, trace, due, n, id)
      ensures exists i, j :: trace[n] in env(i, j)
    {
      SweepRun(w, trace, due, base, env, n);
      PrefixSnoc(trace, n);
      assert trace[n] in trace;
      if SweepAction(trace[n], due, base) {
        SweepSpares(Run(w, trace[..n]), trace[n], due, base, id);
      }
    }
  }

  /** Alone, the sweep leaves a row that is not among the due exactly as it was. */
  lemma {:induction false} AloneSparesOthers(
    w: World, trace: seq<Action>, due: seq<Budget>, env: Environment, id: BudgetId, n: nat)
    requires n <= |trace| && OnlyDueTouched(w, trace, due, env) && IsIdle(env)
    requires id in w.budgets && !IsAmong(w.budgets[id], due)
    ensures Spares(w, Run(w, trace[..n]), id)
  {
    if n == 0 {
      assert trace[..0] == [];
    } else {
      AloneSparesOthers(w, trace, due, env, id, n - 1);
      assert !TouchesOther(w, trace, due, n - 1, id);
    }
  }

  // ----- what a close finds and leaves, over the columns -----

  /** The row of an account, a period and a user. */
  ghost predicate IsRowOf(budgets: map<BudgetId, Budget>, id: BudgetId, b: Budget) {
    && id in budgets && budgets[id].account == b.account && budgets[id].user == b.user
    && budgets[id].year == b.year && budgets[id].month == b.month
  }

  /** The first half: no row, no spend, or a snapshot of the row's total. */
  ghost predicate Finds(budgets: map<BudgetId, Budget>, b: Budget, spent: Option<int>, pc: Pc) {
    if exists id :: IsRowOf(budgets, id, b) then
      exists id :: IsRowOf(budgets, id, b) &&
        pc == if spent.None? then Finished(UpstreamDown) else Snapshot(id, Total(budgets[id].lines), spent.value)
    else pc == Finished(NotFound)
  }

  /** The second half: an open row is closed and its event sent, with what is left of the budget or nothing. */
  ghost predicate Closes(
    budgets: map<BudgetId, Budget>, outbox: seq<Event>, s: Pc, closed: bool, budgets': map<BudgetId, Budget>,
    outbox': seq<Event>)
    requires s.Snapshot?
  {
    && (closed <==> s.id in budgets && !budgets[s.id].closed)
    && if closed then
         && budgets' == budgets[s.id := budgets[s.id].(closed := true)]
         && exists e :: outbox' == outbox + [e] && e.id == s.id && e.budgeted == s.budgeted && e.spent == s.spent &&
              e.surplus == if s.budgeted > s.spent then s.budgeted - s.spent else 0
       else budgets' == budgets && outbox' == outbox
  }

  /** An undisturbed close. */
  ghost predicate IsQuietClose(
    budgets: map<BudgetId, Budget>, outbox: seq<Event>, b: Budget, spent: Option<int>, outcome: Outcome,
    budgets': map<BudgetId, Budget>, outbox': seq<Event>)
  {
    if !(exists id :: IsRowOf(budgets, id, b)) then outcome == NotFound && budgets' == budgets && outbox' == outbox
    else if spent.None? then outcome == UpstreamDown && budgets' == budgets && outbox' == outbox
    else
      exists id :: IsRowOf(budgets, id, b) &&
        var s := Snapshot(id, Total(budgets[id].lines), spent.value);
        && Closes(budgets, outbox, s, outcome == ClosedNow, budgets', outbox')
        && (outcome == ClosedNow || outcome == AlreadyClosed)
  }

  /** The call of a budget. */
  function CallOf(b: Budget, pc: Pc): Call { Call(b.account, b.user, b.year, b.month, pc) }

  /** What the database knows of a due budget once its turn is over: its session broke and made no call, or the call
      for its account, period and user is over with the outcome it is counted under. */
  ghost predicate Recorded(w: World, b: Budget, k: CallId, unexpected: bool, result: Option<Outcome>) {
    if unexpected then k !in w.calls && result == None
    else result.Some? && k in w.calls && w.calls[k] == CallOf(b, Finished(result.value))
  }

  ghost predicate AllRecorded(
    w: World, due: seq<Budget>, base: CallId, unexpected: nat -> bool, outcomes: seq<Option<Outcome>>)
  {
    |outcomes| <= |due| && forall i :: 0 <= i < |outcomes| ==> Recorded(w, due[i], base + i, unexpected(i), outcomes[i])
  }

  /** What a close did is none of the other calls' business. */
  lemma RecordedStay(
    w: World, rest: seq<Action>, due: seq<Budget>, base: CallId, env: Environment, unexpected: nat -> bool,
    outcomes: seq<Option<Outcome>>, result: Option<Outcome>)
    requires AllRecorded(w, due, base, unexpected, outcomes) && |outcomes| < |due| && LeavesAlone(env, base)
    requires OwnSteps(rest, base + |outcomes|, due[|outcomes|], env, |outcomes|)
    requires Recorded(Run(w, rest), due[|outcomes|], base + |outcomes|, unexpected(|outcomes|), result)
    ensures AllRecorded(Run(w, rest), due, base, unexpected, outcomes + [result])
  {
    forall i | 0 <= i < |outcomes| ensures Recorded(Run(w, rest), due[i], base + i, unexpected(i), outcomes[i]) {
      assert Recorded(w, due[i], base + i, unexpected(i), outcomes[i]);
      ForeignRun(w, rest, base + i);
    }
  }

  /** How a due budget ends when nobody disturbs the sweep. */
  function QuietOutcome(spends: nat -> Option<int>, unexpected: nat -> bool, i: nat): Option<Outcome> {
    if unexpected(i) then None else if spends(i).None? then Some(UpstreamDown) else Some(ClosedNow)
  }

  ghost predicate DistinctPeriods(due: seq<Budget>) {
    forall i, j :: 0 <= i < j < |due| ==>
      (due[i].account, due[i].year, due[i].month) != (due[j].account, due[j].year, due[j].month)
  }

  ghost predicate IsOpenRow(budgets: map<BudgetId, Budget>, b: Budget) {
    !b.closed && exists id :: id in budgets && budgets[id] == b
  }

  /** Before budget i the sweep went as it does undisturbed, and from i on the rows are still open. */
  ghost predicate QuietSoFar(
    budgets: map<BudgetId, Budget>, due: seq<Budget>, spends: nat -> Option<int>, unexpected: nat -> bool,
    outcomes: seq<Option<Outcome>>)
  {
    && (forall j :: |outcomes| <= j < |due| ==> IsOpenRow(budgets, due[j]))
    && (forall j :: 0 <= j < |outcomes| ==> outcomes[j] == QuietOutcome(spends, unexpected, j))
  }

  lemma QuietCloseCloses(
    w: World, b: Budget, spent: int, outcome: Outcome, budgets': map<BudgetId, Budget>, outbox': seq<Event>)
    requires UniquePeriods(w) && IsOpenRow(w.budgets, b)
    requires IsQuietClose(w.budgets, w.outbox, b, Some(spent), outcome, budgets', outbox')
    ensures outcome == ClosedNow
    ensures exists id :: id in w.budgets && w.budgets[id] == b && budgets' == w.budgets[id := b.(closed := true)]
  {
    var id :| id in w.budgets && w.budgets[id] == b;
    assert IsRowOf(w.budgets, id, b);
    forall i | IsRowOf(w.budgets, i, b) ensures i == id {
      assert SamePeriod(w.budgets[i], b.account, b.year, b.month);
    }
  }

  lemma QuietNext(
    w: World, due: seq<Budget>, spends: nat -> Option<int>, unexpected: nat -> bool, outcomes: seq<Option<Outcome>>,
    result: Option<Outcome>, budgets': map<BudgetId, Budget>, outbox': seq<Event>)
    requires UniquePeriods(w) && DistinctPeriods(due) && |outcomes| < |due|
    requires QuietSoFar(w.budgets, due, spends, unexpected, outcomes)
    requires result.None? <==> unexpected(|outcomes|)
    requires if result.None? then budgets' == w.budgets
             else IsQuietClose(w.budgets, w.outbox, due[|outcomes|], spends(|outcomes|), result.value, budgets',
               outbox')
    ensures QuietSoFar(budgets', due, spends, unexpected, outcomes + [result])
  {
    var n := |outcomes|;
    assert IsOpenRow(w.budgets, due[n]);
    var id :| id in w.budgets && w.budgets[id] == due[n];
    assert IsRowOf(w.budgets, id, due[n]);
    if result.Some? && spends(n).Some? {
      QuietCloseCloses(w, due[n], spends(n).value, result.value, budgets', outbox');
      var i :| i in w.budgets && w.budgets[i] == due[n] && budgets' == w.budgets[i := due[n].(closed := true)];
      forall j | n + 1 <= j < |due| ensures IsOpenRow(budgets', due[j]) {
        assert IsOpenRow(w.budgets, due[j]);
        var m :| m in w.budgets && w.budgets[m] == due[j];
        assert m in budgets' && budgets'[m] == due[j];
      }
    }
  }

  /** Nobody disturbs the sweep, and its budgets are open rows of different periods. */
  ghost predicate StaysQuiet(budgets: map<BudgetId, Budget>, due: seq<Budget>, env: Environment) {
    IsIdle(env) && DistinctPeriods(due) && forall j :: 0 <= j < |due| ==> IsOpenRow(budgets, due[j])
  }

  /** Everything the sweep has established before budget |outcomes|. */
  ghost predicate SweptTo(
    w0: World, w: World, trace: seq<Action>, due: seq<Budget>, base: CallId, env: Environment,
      spends: nat -> Option<int>,
    unexpected: nat -> bool, counts: Counts, outcomes: seq<Option<Outcome>>, quiet: bool)
  {
    && w == Run(w0, trace) && (forall m :: m in w.calls ==> m < base + |outcomes|)
    && counts.due == |due| && Counted(counts, outcomes) && Explained(outcomes, spends, unexpected)
    && OwnOrForeign(trace, due, base, env) && AllRecorded(w, due, base, unexpected, outcomes)
    && (quiet ==> QuietSoFar(w.budgets, due, spends, unexpected, outcomes))
  }

  lemma SweptStart(
    w: World, due: seq<Budget>, base: CallId, env: Environment, spends: nat -> Option<int>, unexpected: nat -> bool,
    quiet: bool)
    requires (forall m :: m in w.calls ==> m < base) && (quiet ==> StaysQuiet(w.budgets, due, env))
    ensures SweptTo(w, w, [], due, base, env, spends, unexpected, Counts(|due|, 0, 0, 0, 0), [], quiet)
  {
  }

  lemma SweptNext(
    w0: World, w: World, trace: seq<Action>, due: seq<Budget>, base: CallId, env: Environment,
      spends: nat -> Option<int>,
    unexpected: nat -> bool, counts: Counts, outcomes: seq<Option<Outcome>>, quiet: bool,
    rest: seq<Action>, result: Option<Outcome>, w': World)
    requires SweptTo(w0, w, trace, due, base, env, spends, unexpected, counts, outcomes, quiet)
    requires |outcomes| < |due| && Inv(w) && LeavesAlone(env, base) && w' == Run(w0, trace + rest)
    requires OwnSteps(rest, base + |outcomes|, due[|outcomes|], env, |outcomes|)
    requires forall m :: m in w'.calls ==> m <= base + |outcomes|
    requires Recorded(w', due[|outcomes|], base + |outcomes|, unexpected(|outcomes|), result)
    requires spends(|outcomes|).None? ==> result != Some(ClosedNow)
    requires quiet ==> DistinctPeriods(due)
    requires quiet && result.None? ==> w'.budgets == w.budgets
    requires quiet && result.Some? ==>
               IsQuietClose(w.budgets, w.outbox, due[|outcomes|], spends(|outcomes|), result.value, w'.budgets,
                 w'.outbox)
    ensures SweptTo(
              w0, w', trace + rest, due, base, env, spends, unexpected, Count(counts, result), outcomes + [result],
                quiet)
  {
    RunAppend(w0, trace, rest);
    assert OwnOrForeign(trace + rest, due, base, env) by { StillOwn(trace, rest, due, |outcomes|, base, env); }
    assert AllRecorded(w', due, base, unexpected, outcomes + [result]) by {
      RecordedStay(w, rest, due, base, env, unexpected, outcomes, result);
    }
    if quiet {
      QuietNext(w, due, spends, unexpected, outcomes, result, w'.budgets, w'.outbox);
    }
    CountOne(counts, outcomes, result);
    ExplainedNext(outcomes, result, spends, unexpected);
  }

  class Database {
    var budgets: map<BudgetId, Budget>
    var nextId: BudgetId
    var outbox: seq<Event>
    var calls: map<CallId, Call>

    function Now(): World
      reads this
    {
      World(budgets, nextId, outbox, calls)
    }

    constructor ()
      ensures Now() == EMPTY
    {
      budgets, nextId, outbox, calls := map[], 0, [], map[];
    }

    /** mark_closed and the outbox row in one commit, or nothing. */
    method WriteTransaction(k: CallId) returns (closed: bool)
      requires k in calls && calls[k].pc.Snapshot?
      modifies this`budgets, this`outbox, this`calls
      ensures Now() == WriteStep(old(Now()), k)
      ensures k in calls && calls[k].pc == Finished(if closed then ClosedNow else AlreadyClosed)
      ensures calls.Keys == old(calls.Keys)
      ensures Closes(old(budgets), old(outbox), old(calls[k].pc), closed, budgets, outbox)
      ensures calls[k] == old(calls[k]).(pc := Finished(if closed then ClosedNow else AlreadyClosed))
    {
      var s := calls[k].pc;
      closed := s.id in budgets && !budgets[s.id].closed;
      if closed {
        budgets := budgets[s.id := budgets[s.id].(closed := true)];
        var surplus := if s.budgeted > s.spent then s.budgeted - s.spent else 0;
        var e := Closed(s.id, s.budgeted, s.spent, surplus);
        outbox := outbox + [e];
      }
      calls := calls[k := calls[k].(pc := Finished(if closed then ClosedNow else AlreadyClosed))];
    }

    /** Reads the row and its total and asks for the spend. */
    method ReadBudget(k: CallId, spent: Option<int>, ghost b: Budget)
      requires k in calls && calls[k] == CallOf(b, Reading) && Inv(Now())
      modifies this`calls
      ensures Now() == Next(old(Now()), ReadAndFetch(k, spent))
      ensures k in calls && !calls[k].pc.Reading? && calls.Keys == old(calls.Keys)
      ensures calls[k].pc.Finished? ==> calls[k].pc.outcome != ClosedNow
      ensures spent.None? ==> calls[k].pc.Finished?
      ensures calls[k] == CallOf(b, calls[k].pc) && Finds(budgets, b, spent, calls[k].pc)
    {
      var c := calls[k];
      if exists i :: i in budgets && Matches(budgets[i], c) {
        var id :| id in budgets && Matches(budgets[id], c);
        assert IsRowOf(budgets, id, b);
        var pc := if spent.None? then Finished(UpstreamDown) else Snapshot(id, Total(budgets[id].lines), spent.value);
        calls := calls[k := c.(pc := pc)];
      } else {
        calls := calls[k := c.(pc := Finished(NotFound))];
      }
    }

    /** One action of another process. */
    method Step(a: Action)
      requires Inv(Now())
      modifies this
      ensures Now() == Next(old(Now()), a) && Inv(Now())
    {
      NextKeepsInv(Now(), a);
      match a {
        case Create(b) =>
          if !(exists i :: i in budgets && SamePeriod(budgets[i], b.account, b.year, b.month)) {
            budgets, nextId := budgets[nextId := b.(closed := false)], nextId + 1;
          }
        case UpdateLines(id, lines) =>
          if id in budgets { budgets := budgets[id := budgets[id].(lines := lines)]; }
        case Delete(id) => budgets := budgets - {id};
        case Begin(k, account, user, year, month) =>
          if k !in calls { calls := calls[k := Call(account, user, year, month, Reading)]; }
        case ReadAndFetch(k, spent) =>
          if k in calls && calls[k].pc.Reading? {
            ReadBudget(k, spent, Budget(calls[k].account, calls[k].user, calls[k].year, calls[k].month, [], false));
          }
        case Write(k) =>
          if k in calls && calls[k].pc.Snapshot? { var closed := WriteTransaction(k); }
      }
    }

    /** The sweep has just taken step a; other processes follow. */
    method Interfere(actions: seq<Action>, ghost w0: World, ghost trace: seq<Action>, ghost a: Action)
      requires Now() == Next(Run(w0, trace), a) && Inv(Now())
      modifies this
      ensures Now() == Run(w0, trace + [a] + actions) && Inv(Now())
      ensures Now() == Run(old(Now()), actions)
      ensures actions == [] ==> Now() == old(Now())
    {
      ghost var start := Now();
      assert actions[..0] == [];
      for i := 0 to |actions|
        invariant Now() == Run(start, actions[..i]) && Inv(Now())
      {
        PrefixSnoc(actions, i);
        Step(actions[i]);
      }
      assert actions[..|actions|] == actions;
      ExtendRun(w0, trace, a);
      RunAppend(w0, trace + [a], actions);
    }

    method OpenCall(k: CallId, b: Budget, env: Environment, i: nat, ghost w0: World, ghost soFar: seq<Action>)
      returns (ghost rest: seq<Action>)
      requires Now() == Run(w0, soFar) && Inv(Now()) && k !in calls && LeavesAlone(env, k)
      requires forall m :: m in calls ==> m < k
      modifies this
      ensures Now() == Run(w0, soFar + rest) && Inv(Now()) && OwnSteps(rest, k, b, env, i)
      ensures k in calls && calls[k] == CallOf(b, Reading) && forall m :: m in calls ==> m <= k
      ensures env(i, 0) == [] ==> budgets == old(budgets) && outbox == old(outbox)
    {
      ghost var begin := Begin(k, b.account, b.user, b.year, b.month);
      NextKeepsInv(Now(), begin);
      calls := calls[k := Call(b.account, b.user, b.year, b.month, Reading)];
      AloneAfter(Now(), env, i, 0, k);
      Interfere(env(i, 0), w0, soFar, begin);
      rest := [] + [begin] + env(i, 0);
      OwnNext([], begin, k, b, env, i, 0, soFar);
      assert soFar + [] == soFar;
    }

    /** Reads the row and its total and asks for the spend; without the spend the call is over. */
    method TakeSnapshot(
      k: CallId, b: Budget, spent: Option<int>, env: Environment, i: nat, ghost w0: World, ghost soFar: seq<Action>,
      ghost prior: seq<Action>)
      returns (ghost rest: seq<Action>)
      requires Now() == Run(w0, soFar + prior) && Inv(Now()) && OwnSteps(prior, k, b, env, i) && LeavesAlone(env, k)
      requires k in calls && calls[k] == CallOf(b, Reading) && forall m :: m in calls ==> m <= k
      modifies this
      ensures Now() == Run(w0, soFar + rest) && Inv(Now()) && OwnSteps(rest, k, b, env, i)
      ensures k in calls && !calls[k].pc.Reading? && forall m :: m in calls ==> m <= k
      ensures calls[k].pc.Finished? ==> calls[k].pc.outcome != ClosedNow
      ensures spent.None? ==> calls[k].pc.Finished?
      ensures calls[k] == CallOf(b, calls[k].pc) && Finds(old(budgets), b, spent, calls[k].pc)
      ensures env(i, 1) == [] ==> budgets == old(budgets) && outbox == old(outbox)
    {
      ghost var read := ReadAndFetch(k, spent);
      NextKeepsInv(Now(), read);
      ReadBudget(k, spent, b);
      AloneAfter(Now(), env, i, 1, k);
      Interfere(env(i, 1), w0, soFar + prior, read);
      rest := prior + [read] + env(i, 1);
      OwnNext(prior, read, k, b, env, i, 1, soFar);
    }

    method WriteClose(
      k: CallId, ghost b: Budget, env: Environment, i: nat, ghost w0: World, ghost soFar: seq<Action>,
      ghost prior: seq<Action>)
      returns (outcome: Outcome, ghost rest: seq<Action>)
      requires Now() == Run(w0, soFar + prior) && Inv(Now()) && OwnSteps(prior, k, b, env, i) && LeavesAlone(env, k)
      requires k in calls && calls[k] == CallOf(b, calls[k].pc) && calls[k].pc.Snapshot? && forall m :: m in calls ==>
          m <= k
      modifies this
      ensures Now() == Run(w0, soFar + rest) && Inv(Now()) && OwnSteps(rest, k, b, env, i)
      ensures k in calls && calls[k] == CallOf(b, Finished(outcome)) && forall m :: m in calls ==> m <= k
      ensures outcome == ClosedNow || outcome == AlreadyClosed
      ensures env(i, 2) == [] ==>
                Closes(old(budgets), old(outbox), old(calls[k].pc), outcome == ClosedNow, budgets, outbox)
    {
      NextKeepsInv(Now(), Write(k));
      var closed := WriteTransaction(k);
      AloneAfter(Now(), env, i, 2, k);
      Interfere(env(i, 2), w0, soFar + prior, Write(k));
      rest := prior + [Write(k)] + env(i, 2);
      OwnNext(prior, Write(k), k, b, env, i, 2, soFar);
      outcome := if closed then ClosedNow else AlreadyClosed;
    }

    /** close_month for one account and period: a snapshot and the spend first, then one conditional write. */
    method CloseMonth(
      k: CallId, b: Budget, spent: Option<int>, env: Environment, i: nat, ghost w0: World, ghost soFar: seq<Action>)
      returns (outcome: Outcome, ghost rest: seq<Action>)
      requires Now() == Run(w0, soFar) && Inv(Now()) && k !in calls && LeavesAlone(env, k)
      requires forall m :: m in calls ==> m < k
      modifies this
      ensures Now() == Run(w0, soFar + rest) && Inv(Now()) && OwnSteps(rest, k, b, env, i)
      ensures k in calls && calls[k] == CallOf(b, Finished(outcome)) && forall m :: m in calls ==> m <= k
      ensures spent.None? ==> outcome != ClosedNow
      ensures (forall j :: env(i, j) == []) ==>
                IsQuietClose(old(budgets), old(outbox), b, spent, outcome, budgets, outbox)
    {
      rest := OpenCall(k, b, env, i, w0, soFar);
      rest := TakeSnapshot(k, b, spent, env, i, w0, soFar, rest);
      if calls[k].pc.Finished? {
        outcome := calls[k].pc.outcome;
      } else {
        outcome, rest := WriteClose(k, b, env, i, w0, soFar, rest);
      }
    }

    /**
      One sweep. candidates is what the query returned; spends and unexpected say how the spend request and
      the session of the i-th due budget turn out. A close day the calendar lacks fails the whole sweep
      before anything is closed. Otherwise every due budget is counted in exactly the class its close ended
      in, and the sweep begins closes for due budgets only.
    */
    method RunOnce(
      candidates: seq<Budget>, today: Date, closeDay: int, base: CallId,
      spends: nat -> Option<int>, unexpected: nat -> bool, env: Environment)
      returns (r: Result<Counts, ()>, ghost trace: seq<Action>, ghost outcomes: seq<Option<Outcome>>)
      requires Inv(Now()) && IsQueryResult(candidates, budgets, today) && LeavesAlone(env, base)
      requires forall m :: m in calls ==> m < base
      modifies this
      ensures Now() == Run(old(Now()), trace) && Inv(Now())
      ensures r.Failure? <==> exists b :: b in candidates && !Exists(EarliestClose(b.year, b.month, closeDay))
      ensures r.Failure? ==> trace == []
      ensures r.Success? ==>
                var due := Due(candidates, today, closeDay);
                && r.value.due == |due| == |outcomes| && Counted(r.value, outcomes)
                && Explained(outcomes, spends, unexpected) && AllRecorded(Now(), due, base, unexpected, outcomes)
                && (IsIdle(env) && DistinctPeriods(due) ==> AllQuiet(outcomes, spends, unexpected))
      ensures CoversAllDue(Due(candidates, today, closeDay), old(budgets), today, closeDay)
      ensures OnlyDueTouched(old(Now()), trace, Due(candidates, today, closeDay), env)
      ensures IsIdle(env) ==> SparesOthers(old(Now()), Now(), Due(candidates, today, closeDay))
    {
      trace, outcomes := [], [];
      ghost var w0 := Now();
      var due := Due(candidates, today, closeDay);
      DueIsOpenAndDue(candidates, budgets, today, closeDay);
      if exists b :: b in candidates && !Exists(EarliestClose(b.year, b.month, closeDay)) {
        return Failure(()), trace, outcomes;
      }
      var counts;
      assert forall j :: 0 <= j < |due| ==> IsOpenRow(budgets, due[j]) by {
        forall j | 0 <= j < |due| ensures IsOpenRow(budgets, due[j]) { assert due[j] in due; }
      }
      counts, trace, outcomes := CloseAll(due, base, spends, unexpected, env);
      assert OnlyDueTouched(w0, trace, due, env) by { SweepTouchesOnlyDue(w0, trace, due, base, env); }
      assert IsIdle(env) ==> SparesOthers(w0, Run(w0, trace), due) by { AloneSparesAll(w0, trace, due, env); }
      r := Success(counts);
    }

    /** The loop over the due budgets. */
    method CloseAll(
      due: seq<Budget>, base: CallId, spends: nat -> Option<int>, unexpected: nat -> bool, env: Environment)
      returns (counts: Counts, ghost trace: seq<Action>, ghost outcomes: seq<Option<Outcome>>)
      requires Inv(Now()) && LeavesAlone(env, base) && forall m :: m in calls ==> m < base
      modifies this
      ensures Inv(Now()) && |outcomes| == |due|
      ensures SweptTo(
                old(Now()), Now(), trace, due, base, env, spends, unexpected, counts, outcomes,
                StaysQuiet(old(budgets), due, env))
    {
      ghost var w0, quiet := Now(), StaysQuiet(budgets, due, env);
      trace, outcomes := [], [];
      counts := Counts(|due|, 0, 0, 0, 0);
      SweptStart(w0, due, base, env, spends, unexpected, quiet);
      for i := 0 to |due|
        invariant Inv(Now()) && |outcomes| == i
        invariant SweptTo(w0, Now(), trace, due, base, env, spends, unexpected, counts, outcomes, quiet)
      {
        var result;
        result, trace := CloseNext(due, i, base, spends, unexpected, env, w0, trace, counts, outcomes, quiet);
        counts, outcomes := Count(counts, result), outcomes + [result];
      }
    }

    method CloseNext(
      due: seq<Budget>, i: nat, base: CallId, spends: nat -> Option<int>, unexpected: nat -> bool, env: Environment,
      ghost w0: World, ghost soFar: seq<Action>, ghost counts: Counts, ghost outcomes: seq<Option<Outcome>>,
        ghost quiet: bool)
      returns (result: Option<Outcome>, ghost trace: seq<Action>)
      requires i < |due| && |outcomes| == i && Inv(Now()) && LeavesAlone(env, base)
      requires quiet ==> IsIdle(env) && DistinctPeriods(due)
      requires SweptTo(w0, Now(), soFar, due, base, env, spends, unexpected, counts, outcomes, quiet)
      modifies this
      ensures Inv(Now())
      ensures SweptTo(
                w0, Now(), trace, due, base, env, spends, unexpected, Count(counts, result), outcomes + [result], quiet)
    {
      ghost var rest, w := [], Now();
      result, rest := CloseDue(due[i], base + i, spends(i), unexpected(i), env, i, w0, soFar);
      SweptNext(w0, w, soFar, due, base, env, spends, unexpected, counts, outcomes, quiet, rest, result, Now());
      trace := soFar + rest;
    }

    /** One due budget: a session that fails unexpectedly closes nothing. */
    method CloseDue(
      b: Budget, k: CallId, spent: Option<int>, unexpected: bool, env: Environment, i: nat, ghost w0: World,
      ghost soFar: seq<Action>)
      returns (result: Option<Outcome>, ghost rest: seq<Action>)
      requires Now() == Run(w0, soFar) && Inv(Now()) && LeavesAlone(env, k) && forall m :: m in calls ==> m < k
      modifies this
      ensures Now() == Run(w0, soFar + rest) && Inv(Now()) && OwnSteps(rest, k, b, env, i)
      ensures forall m :: m in calls ==> m <= k
      ensures result.None? <==> unexpected
      ensures spent.None? ==> result != Some(ClosedNow)
      ensures Recorded(Now(), b, k, unexpected, result)
      ensures !unexpected && (forall j :: env(i, j) == []) ==>
                IsQuietClose(old(budgets), old(outbox), b, spent, result.value, budgets, outbox)
      ensures unexpected ==> rest == [] && budgets == old(budgets) && outbox == old(outbox)
    {
      result, rest := None, [];
      if unexpected {
        assert soFar + rest == soFar;
      } else {
        var outcome;
        outcome, rest := CloseMonth(k, b, spent, env, i, w0, soFar);
        result := Some(outcome);
      }
    }
  }

  /** Only an unexpected failure leaves no outcome, and nothing closes without its spend. */
  ghost predicate Explained(outcomes: seq<Option<Outcome>>, spends: nat -> Option<int>, unexpected: nat -> bool) {
    forall i :: 0 <= i < |outcomes| ==>
      (outcomes[i].None? <==> unexpected(i)) && (spends(i).None? ==> outcomes[i] != Some(ClosedNow))
  }

  lemma ExplainedNext(
    outcomes: seq<Option<Outcome>>, result: Option<Outcome>, spends: nat -> Option<int>, unexpected: nat -> bool)
    requires Explained(outcomes, spends, unexpected)
    requires (result.None? <==> unexpected(|outcomes|)) && (spends(|outcomes|).None? ==> result != Some(ClosedNow))
    ensures Explained(outcomes + [result], spends, unexpected)
  {
  }

  /** No other process acts. */
  ghost predicate IsIdle(env: Environment) { forall i, j :: env(i, j) == [] }

  ghost predicate SparesOthers(w: World, w': World, due: seq<Budget>) {
    forall id :: id in w.budgets && !IsAmong(w.budgets[id], due) ==> Spares(w, w', id)
  }

  lemma AloneSparesAll(w: World, trace: seq<Action>, due: seq<Budget>, env: Environment)
    requires OnlyDueTouched(w, trace, due, env)
    ensures IsIdle(env) ==> SparesOthers(w, Run(w, trace), due)
  {
    assert trace[..|trace|] == trace;
    if IsIdle(env) {
      forall id | id in w.budgets && !IsAmong(w.budgets[id], due) ensures Spares(w, Run(w, trace), id) {
        AloneSparesOthers(w, trace, due, env, id, |trace|);
      }
    }
  }

  /** Everything a close does is its own begin, read or write, or something its environment did. */
  ghost predicate OwnSteps(rest: seq<Action>, k: CallId, b: Budget, env: Environment, i: nat) {
    forall a :: a in rest ==>
      || a == Begin(k, b.account, b.user, b.year, b.month)
      || (a.ReadAndFetch? && a.k == k)
      || a == Write(k)
      || exists j :: a in env(i, j)
  }

  lemma OwnNext(
    prior: seq<Action>, a: Action, k: CallId, b: Budget, env: Environment, i: nat, j: nat, soFar: seq<Action>)
    requires OwnSteps(prior, k, b, env, i)
    requires a == Begin(k, b.account, b.user, b.year, b.month) || (a.ReadAndFetch? && a.k == k) || a == Write(k)
    ensures OwnSteps(prior + [a] + env(i, j), k, b, env, i)
    ensures soFar + (prior + [a] + env(i, j)) == soFar + prior + [a] + env(i, j)
  {
    forall x | x in prior + [a] + env(i, j) ensures x in prior || x == a || x in env(i, j) {}
  }

  lemma StillOwn(soFar: seq<Action>, rest: seq<Action>, due: seq<Budget>, i: nat, base: CallId, env: Environment)
    requires i < |due| && OwnOrForeign(soFar, due, base, env) && OwnSteps(rest, base + i, due[i], env, i)
    ensures OwnOrForeign(soFar + rest, due, base, env)
  {
    forall a | a in soFar + rest ensures SweepAction(a, due, base) || exists i, j :: a in env(i, j) {
      if a in soFar {} else { assert a in rest; }
    }
  }

  lemma AloneAfter(w: World, env: Environment, i: nat, j: nat, k: CallId)
    requires LeavesAlone(env, k)
    requires k in w.calls && forall m :: m in w.calls ==> m <= k
    ensures k in Run(w, env(i, j)).calls && Run(w, env(i, j)).calls[k] == w.calls[k]
    ensures forall m :: m in Run(w, env(i, j)).calls ==> m <= k
  {
    ForeignRun(w, env(i, j), k);
    forall m | m > k ensures m !in Run(w, env(i, j)).calls {
      ForeignRun(w, env(i, j), m);
    }
  }
}
