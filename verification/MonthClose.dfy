/** Closing a budget month, by the button and by the scheduled sweep, in any interleaving. */
module MonthClose {
  import opened Common

  datatype Date = Date(year: int, month: int, day: int)

  predicate OnOrAfter(a: Date, b: Date) {
    a.year > b.year || (a.year == b.year && (a.month > b.month || (a.month == b.month && a.day >= b.day)))
  }

  /** Amounts are in cents. */
  datatype Budget = Budget(account: int, user: int, year: int, month: int, lines: seq<int>, closed: bool)

  type BudgetId = int
  type CallId = nat

  /** BudgetMonthClosedEvent, with the id of the row it closed. */
  datatype Event = Closed(id: BudgetId, budgeted: int, spent: int, surplus: int)

  datatype Outcome = ClosedNow | AlreadyClosed | NotFound | UpstreamDown

  /** Where a call to close_month stands: about to read, holding a snapshot of row and total, or done. */
  datatype Pc = Reading | Snapshot(id: BudgetId, budgeted: int, spent: int) | Finished(outcome: Outcome)
  datatype Call = Call(account: int, user: int, year: int, month: int, pc: Pc)

  datatype World = World(budgets: map<BudgetId, Budget>, nextId: BudgetId, outbox: seq<Event>, calls: map<CallId, Call>)

  datatype Action =
    | Create(budget: Budget)
    | UpdateLines(id: BudgetId, lines: seq<int>)
    | Delete(id: BudgetId)
    | Begin(k: CallId, account: int, user: int, year: int, month: int)
    | ReadAndFetch(k: CallId, spent: Option<int>)
    | Write(k: CallId)

  function Total(lines: seq<int>): int { if lines == [] then 0 else Total(lines[..|lines| - 1]) + lines[|lines| - 1] }

  lemma TotalIsSum(lines: seq<int>, more: seq<int>)
    ensures Total([]) == 0 && Total(lines + more) == Total(lines) + Total(more)
  {
    if more == [] {
      assert lines + more == lines;
    } else {
      var n := |more| - 1;
      assert (lines + more)[..|lines| + n] == lines + more[..n];
      TotalIsSum(lines, more[..n]);
    }
  }

  function Surplus(budgeted: int, spent: int): (s: int)
    ensures s >= 0 && s >= budgeted - spent && (s == 0 || s == budgeted - spent)
  {
    if budgeted - spent > 0 then budgeted - spent else 0
  }

  /** uq_monthly_budget_account_period. */
  predicate SamePeriod(a: Budget, account: int, year: int, month: int) {
    a.account == account && a.year == year && a.month == month
  }

  predicate PeriodTaken(w: World, b: Budget) {
    exists i :: i in w.budgets && SamePeriod(w.budgets[i], b.account, b.year, b.month)
  }

  predicate Matches(b: Budget, c: Call) { SamePeriod(b, c.account, c.year, c.month) && b.user == c.user }

  ghost function Find(w: World, c: Call): Option<BudgetId> {
    if exists i :: i in w.budgets && Matches(w.budgets[i], c) then
      var i :| i in w.budgets && Matches(w.budgets[i], c); Some(i)
    else None
  }

  function SetPc(w: World, k: CallId, pc: Pc): World
    requires k in w.calls
  {
    w.(calls := w.calls[k := w.calls[k].(pc := pc)])
  }

  /** Reads and the spend request, outside the write transaction. An unreachable upstream ends the call. */
  ghost function ReadStep(w: World, k: CallId, spent: Option<int>): World
    requires k in w.calls
  {
    var id := Find(w, w.calls[k]);
    if id.None? then SetPc(w, k, Finished(NotFound))
    else if spent.None? then SetPc(w, k, Finished(UpstreamDown))
    else SetPc(w, k, Snapshot(id.value, Total(w.budgets[id.value].lines), spent.value))
  }

  /** UPDATE ... SET closed_at WHERE id = ? AND closed_at IS NULL, and the event, in one commit. */
  function WriteStep(w: World, k: CallId): World
    requires k in w.calls && w.calls[k].pc.Snapshot?
  {
    var s := w.calls[k].pc;
    if s.id !in w.budgets || w.budgets[s.id].closed then SetPc(w, k, Finished(AlreadyClosed))
    else
      SetPc(w.(budgets := w.budgets[s.id := w.budgets[s.id].(closed := true)],
               outbox := w.outbox + [Closed(s.id, s.budgeted, s.spent, Surplus(s.budgeted, s.spent))]),
            k, Finished(ClosedNow))
  }

  ghost function Next(w: World, a: Action): World {
    match a
    case Create(b) =>
      if PeriodTaken(w, b) then w
      else w.(budgets := w.budgets[w.nextId := b.(closed := false)], nextId := w.nextId + 1)
    case UpdateLines(id, lines) =>
      if id !in w.budgets then w else w.(budgets := w.budgets[id := w.budgets[id].(lines := lines)])
    case Delete(id) => w.(budgets := w.budgets - {id})
    case Begin(k, account, user, year, month) =>
      if k in w.calls then w else w.(calls := w.calls[k := Call(account, user, year, month, Reading)])
    case ReadAndFetch(k, spent) => if k in w.calls && w.calls[k].pc.Reading? then ReadStep(w, k, spent) else w
    case Write(k) => if k in w.calls && w.calls[k].pc.Snapshot? then WriteStep(w, k) else w
  }

  ghost function Run(w: World, actions: seq<Action>): World {
    if actions == [] then w else Next(Run(w, actions[..|actions| - 1]), actions[|actions| - 1])
  }

  ghost predicate HasEvent(w: World, id: BudgetId) { exists e :: e in w.outbox && e.id == id }

  ghost predicate UniquePeriods(w: World) {
    forall i, j :: i in w.budgets && j in w.budgets && i != j ==>
      !SamePeriod(w.budgets[i], w.budgets[j].account, w.budgets[j].year, w.budgets[j].month)
  }

  ghost predicate Inv(w: World) {
    && UniquePeriods(w)
    && (forall i :: i in w.budgets ==> i < w.nextId && (w.budgets[i].closed <==> HasEvent(w, i)))
    && (forall e :: e in w.outbox ==> e.id < w.nextId && e.surplus == Surplus(e.budgeted, e.spent))
    && (forall i, j :: 0 <= i < j < |w.outbox| ==> w.outbox[i].id != w.outbox[j].id)
    && (forall k :: k in w.calls && w.calls[k].pc.Snapshot? ==> SnapshotOk(w, w.calls[k]))
  }

  /** A snapshot names a row of the call's own period, if the row still exists. */
  ghost predicate SnapshotOk(w: World, c: Call)
    requires c.pc.Snapshot?
  {
    c.pc.id < w.nextId && (c.pc.id in w.budgets ==> Matches(w.budgets[c.pc.id], c))
  }

  lemma WriteKeepsInv(w: World, k: CallId)
    requires Inv(w) && k in w.calls && w.calls[k].pc.Snapshot?
    ensures Inv(WriteStep(w, k))
  {
    var s := w.calls[k].pc;
    var w' := WriteStep(w, k);
    if s.id in w.budgets && !w.budgets[s.id].closed {
      var e := Closed(s.id, s.budgeted, s.spent, Surplus(s.budgeted, s.spent));
      assert w'.outbox == w.outbox + [e] && e in w'.outbox;
      forall i | i in w'.budgets ensures w'.budgets[i].closed <==> HasEvent(w', i) {
        if HasEvent(w, i) {
          var x :| x in w.outbox && x.id == i;
          assert x in w'.outbox;
        }
      }
      forall i | 0 <= i < |w.outbox| ensures w.outbox[i].id != s.id { assert w.outbox[i] in w.outbox; }
    }
  }

  /** Everything but a write leaves the outbox as it is, and closes or reopens no row. */
  lemma OtherStep(w: World, a: Action)
    requires Inv(w) && !(a.Write? && a.k in w.calls && w.calls[a.k].pc.Snapshot?)
    ensures Next(w, a).outbox == w.outbox && Next(w, a).nextId >= w.nextId && UniquePeriods(Next(w, a))
    ensures forall i :: i in Next(w, a).budgets ==>
              i < Next(w, a).nextId && Next(w, a).budgets[i].closed == (i in w.budgets && w.budgets[i].closed)
  {
  }

  lemma OtherStepSnapshots(w: World, a: Action)
    requires Inv(w) && !(a.Write? && a.k in w.calls && w.calls[a.k].pc.Snapshot?)
    ensures forall k :: k in Next(w, a).calls && Next(w, a).calls[k].pc.Snapshot? ==>
        SnapshotOk(Next(w, a), Next(w, a).calls[k])
  {
    var w' := Next(w, a);
    forall k | k in w'.calls && w'.calls[k].pc.Snapshot? ensures SnapshotOk(w', w'.calls[k]) {
      if k in w.calls && w.calls[k].pc.Snapshot? { assert SnapshotOk(w, w.calls[k]); }
    }
  }

  lemma NextKeepsInv(w: World, a: Action)
    requires Inv(w)
    ensures Inv(Next(w, a))
  {
    var w' := Next(w, a);
    if a.Write? && a.k in w.calls && w.calls[a.k].pc.Snapshot? {
      WriteKeepsInv(w, a.k);
    } else {
      OtherStep(w, a);
      OtherStepSnapshots(w, a);
      forall i | i in w'.budgets ensures w'.budgets[i].closed <==> HasEvent(w', i) {
        assert HasEvent(w', i) <==> HasEvent(w, i);
        if i !in w.budgets { assert i >= w.nextId; }
      }
    }
  }

  lemma {:induction false} RunKeepsInv(w: World, actions: seq<Action>)
    requires Inv(w)
    ensures Inv(Run(w, actions))
  {
    if actions == [] {
    } else {
      RunKeepsInv(w, actions[..|actions| - 1]);
      NextKeepsInv(Run(w, actions[..|actions| - 1]), actions[|actions| - 1]);
    }
  }

  const EMPTY := World(map[], 0, [], map[])

  // ----- theorems over all runs -----

  /** A row gets at most one month-closed event, an existing row is closed exactly when it has one, and every
      event's surplus is the snapshot total less the spend, never below zero. */
  lemma ClosedExactlyOnce(actions: seq<Action>)
    ensures
      var w := Run(EMPTY, actions);
      && (forall i, j :: 0 <= i < |w.outbox| && 0 <= j < |w.outbox| && w.outbox[i].id == w.outbox[j].id ==> i == j)
      && (forall i :: i in w.budgets ==> (w.budgets[i].closed <==> HasEvent(w, i)))
      && (forall e :: e in w.outbox ==> e.surplus == Surplus(e.budgeted, e.spent))
  {
    RunKeepsInv(EMPTY, actions);
  }

  /** At some point of the run row id existed with this total. */
  ghost predicate TotalWas(actions: seq<Action>, id: BudgetId, total: int) {
    exists n :: 0 <= n <= |actions| && id in Run(EMPTY, actions[..n]).budgets &&
      Total(Run(EMPTY, actions[..n]).budgets[id].lines) == total
  }

  lemma TotalStillWas(actions: seq<Action>, id: BudgetId, total: int)
    requires actions != [] && TotalWas(actions[..|actions| - 1], id, total)
    ensures TotalWas(actions, id, total)
  {
    var init := actions[..|actions| - 1];
    var n :| 0 <= n <= |init| && id in Run(EMPTY, init[..n]).budgets &&
        Total(Run(EMPTY, init[..n]).budgets[id].lines) == total;
    assert init[..n] == actions[..n];
  }

  /** The budgeted amounts of events and of snapshots about to be written. */
  ghost predicate AmountsWere(actions: seq<Action>, w: World) {
    && (forall e :: e in w.outbox ==> TotalWas(actions, e.id, e.budgeted))
    && (forall k :: k in w.calls && w.calls[k].pc.Snapshot? ==>
       TotalWas(actions, w.calls[k].pc.id, w.calls[k].pc.budgeted))
  }

  /** A step sends only amounts of snapshots and takes only snapshots of totals. */
  lemma StepAmounts(w: World, a: Action)
    ensures forall e :: e in Next(w, a).outbox && e !in w.outbox ==>
              a.Write? && a.k in w.calls && w.calls[a.k].pc.Snapshot? &&
              e.id == w.calls[a.k].pc.id && e.budgeted == w.calls[a.k].pc.budgeted
    ensures forall k :: k in Next(w, a).calls && Next(w, a).calls[k].pc.Snapshot? ==>
              var s := Next(w, a).calls[k].pc;
              || (k in w.calls && w.calls[k].pc == s)
              || (s.id in w.budgets && Total(w.budgets[s.id].lines) == s.budgeted)
  {
  }

  /** The budgeted amount of every event, and of every snapshot about to be written, is a total its row really had. */
  lemma {:induction false} BudgetedAmountsAreSnapshots(actions: seq<Action>)
    ensures AmountsWere(actions, Run(EMPTY, actions))
  {
    if actions == [] {
    } else {
      var n := |actions| - 1;
      var init, a := actions[..n], actions[n];
      BudgetedAmountsAreSnapshots(init);
      var w, w' := Run(EMPTY, init), Run(EMPTY, actions);
      StepAmounts(w, a);
      forall e | e in w'.outbox ensures TotalWas(actions, e.id, e.budgeted) {
        TotalStillWas(actions, e.id, e.budgeted);
      }
      forall k | k in w'.calls && w'.calls[k].pc.Snapshot?
        ensures TotalWas(actions, w'.calls[k].pc.id, w'.calls[k].pc.budgeted)
      {
        var s := w'.calls[k].pc;
        if k in w.calls && w.calls[k].pc == s {
          TotalStillWas(actions, s.id, s.budgeted);
        } else {
          assert actions[..n] == init;
        }
      }
    }
  }

  /** Only the write transaction of a call for the row's own account and period closes it. */
  lemma OnlyItsOwnCallCloses(actions: seq<Action>, a: Action, id: BudgetId)
    requires
      var w := Run(EMPTY, actions);
      id in w.budgets && !w.budgets[id].closed && id in Next(w, a).budgets && Next(w, a).budgets[id].closed
    ensures
      var w := Run(EMPTY, actions);
      a.Write? && a.k in w.calls && Matches(w.budgets[id], w.calls[a.k])
  {
    RunKeepsInv(EMPTY, actions);
    var w := Run(EMPTY, actions);
    if a.Write? {
      assert SnapshotOk(w, w.calls[a.k]);
    }
  }

  /** Without the spend a call changes no budget, sends nothing, and never reaches its write. */
  lemma FailClosed(w: World, k: CallId)
    requires k in w.calls && w.calls[k].pc.Reading?
    ensures
      var w' := Next(w, ReadAndFetch(k, None));
      && w'.budgets == w.budgets && w'.outbox == w.outbox
      && w'.calls[k].pc in {Finished(NotFound), Finished(UpstreamDown)}
      && Next(w', Write(k)) == w'
  {
  }

  // ----- the sweep -----

  predicate IsLeap(year: int) { year % 4 == 0 && (year % 100 != 0 || year % 400 == 0) }

  function DaysIn(year: int, month: int): int {
    if month == 2 then (if IsLeap(year) then 29 else 28) else if month in {4, 6, 9, 11} then 30 else 31
  }

  /** The date constructor accepts it. */
  predicate Exists(d: Date) { 1 <= d.year <= 9999 && 1 <= d.month <= 12 && 1 <= d.day <= DaysIn(d.year, d.month) }

  /** The first day on which a month is closed automatically. */
  function EarliestClose(year: int, month: int, closeDay: int): Date {
    if month == 12 then Date(year + 1, 1, closeDay) else Date(year, month + 1, closeDay)
  }

  predicate IsDue(b: Budget, today: Date, closeDay: int) { OnOrAfter(today, EarliestClose(b.year, b.month, closeDay)) }

  /** A month is due once a full month later, or in the month after it from the close day on. */
  lemma DueByCalendar(b: Budget, today: Date, closeDay: int)
    requires 1 <= b.month <= 12 && 1 <= today.month <= 12
    ensures
      var months := (today.year * 12 + today.month) - (b.year * 12 + b.month);
      IsDue(b, today, closeDay) <==> months > 1 || (months == 1 && today.day >= closeDay)
  {
  }

  predicate IsOpenBefore(b: Budget, today: Date) {
    !b.closed && (b.year < today.year || (b.year == today.year && b.month < today.month))
  }

  /** The query's period filter loses no due row, whatever the close day. */
  lemma FilterLosesNoDueRow(b: Budget, today: Date, closeDay: int)
    requires !b.closed && IsDue(b, today, closeDay)
    ensures IsOpenBefore(b, today)
  {
  }

  datatype Counts = Counts(due: nat, closed: nat, skipped: nat, failedUpstream: nat, failedUnexpected: nat)

  predicate Concerns(a: Action, k: CallId) {
    match a
    case Begin(j, _, _, _, _) => j == k
    case ReadAndFetch(j, _) => j == k
    case Write(j) => j == k
    case _ => false
  }

  predicate SamePeriodAndUser(a: Budget, b: Budget) { SamePeriod(a, b.account, b.year, b.month) && a.user == b.user }

  /** An action of the sweep's own: call base + i is for the i-th due budget. */
  predicate SweepAction(a: Action, due: seq<Budget>, base: CallId) {
    match a
    case Begin(k, account, user, year, month) =>
      && base <= k < base + |due|
      && var b := due[k - base]; account == b.account && user == b.user && year == b.year && month == b.month
    case ReadAndFetch(k, _) => base <= k < base + |due|
    case Write(k) => base <= k < base + |due|
    case _ => false
  }

  /** Every call from base on is one of the sweep's, for its due budget. */
  ghost predicate SweepCalls(w: World, due: seq<Budget>, base: CallId) {
    forall k :: k in w.calls && k >= base ==> k < base + |due| && Matches(due[k - base], w.calls[k])
  }

  lemma SweepCallsKept(w: World, a: Action, due: seq<Budget>, base: CallId)
    requires SweepCalls(w, due, base)
    requires SweepAction(a, due, base) || forall k :: k >= base ==> !Concerns(a, k)
    ensures SweepCalls(Next(w, a), due, base)
  {
    var w' := Next(w, a);
    forall k | k in w'.calls && k >= base ensures k < base + |due| && Matches(due[k - base], w'.calls[k]) {
      if !Concerns(a, k) {
        ForeignStep(w, a, k);
      }
    }
  }

  /** What a step leaves of one row and of the events about it. */
  ghost predicate Spares(w: World, w': World, id: BudgetId)
    requires id in w.budgets
  {
    id in w'.budgets && w'.budgets[id] == w.budgets[id] && (HasEvent(w', id) <==> HasEvent(w, id))
  }

  ghost predicate IsAmong(b: Budget, due: seq<Budget>) { exists i :: 0 <= i < |due| && SamePeriodAndUser(due[i], b) }

  /** A step of the sweep spares every row that is not among the due. */
  lemma SweepSpares(w: World, a: Action, due: seq<Budget>, base: CallId, id: BudgetId)
    requires Inv(w) && SweepCalls(w, due, base) && SweepAction(a, due, base)
    requires id in w.budgets && !IsAmong(w.budgets[id], due)
    ensures Spares(w, Next(w, a), id)
  {
    if a.Write? && a.k in w.calls && w.calls[a.k].pc.Snapshot? {
      var s := w.calls[a.k].pc;
      assert SnapshotOk(w, w.calls[a.k]);
      assert s.id in w.budgets ==> SamePeriodAndUser(due[a.k - base], w.budgets[s.id]);
      WriteSpares(w, a.k, id);
    }
  }

  lemma WriteSpares(w: World, k: CallId, id: BudgetId)
    requires k in w.calls && w.calls[k].pc.Snapshot? && w.calls[k].pc.id != id && id in w.budgets
    ensures Spares(w, WriteStep(w, k), id)
  {
    var w' := WriteStep(w, k);
    forall e | e in w.outbox ensures e in w'.outbox {}
    forall e | e in w'.outbox && e.id == id ensures e in w.outbox {}
  }

  lemma ForeignStep(w: World, a: Action, k: CallId)
    requires !Concerns(a, k)
    ensures k in Next(w, a).calls <==> k in w.calls
    ensures k in w.calls ==> Next(w, a).calls[k] == w.calls[k]
  {
  }

  lemma {:induction false} ForeignRun(w: World, actions: seq<Action>, k: CallId)
    requires forall a :: a in actions ==> !Concerns(a, k)
    ensures k in Run(w, actions).calls <==> k in w.calls
    ensures k in w.calls ==> Run(w, actions).calls[k] == w.calls[k]
  {
    if actions == [] {
    } else {
      var n := |actions| - 1;
      ForeignRun(w, actions[..n], k);
      ForeignStep(Run(w, actions[..n]), actions[n], k);
    }
  }

  lemma {:induction false} RunAppend(w: World, first: seq<Action>, second: seq<Action>)
    ensures Run(w, first + second) == Run(Run(w, first), second)
  {
    if second == [] {
      assert first + second == first;
    } else {
      var n := |second| - 1;
      assert (first + second)[..|first| + n] == first + second[..n];
      RunAppend(w, first, second[..n]);
    }
  }

  lemma ExtendRun(w: World, trace: seq<Action>, a: Action)
    ensures Run(w, trace + [a]) == Next(Run(w, trace), a)
  {
    assert (trace + [a])[..|trace|] == trace;
  }
}
