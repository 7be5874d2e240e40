/**
  What the rows and the calls say in every reachable state: a connection's sync time is the time of its last
  completion, a call draws an id only for a connection that was then active, unexpired and its caller's own,
  and so every start event belongs to the owner of its connection.
*/
module SyncRows {
  import opened Common
  import opened BankConnections
  import opened SyncProtocol
  import opened SyncInvariant

  predicate IsCallAction(a: Action) {
    a.Validate? || a.TryClaim? || a.ReadClaim? || a.Retry? || a.AskStatus? || a.Steal? || a.ReadWinner? || a.Defer?
  }

  // ----- the sync time -----

  /** The time of the last completion of a connection. */
  function LastCompletion(h: seq<Entry>, c: ConnId): (t: Option<int>)
    ensures t.Some? <==> exists e :: e in h && e.Completed? && e.conn == c
  {
    if h == [] then None
    else
      var n := |h| - 1;
      assert forall e :: e in h <==> e in h[..n] || e == h[n];
      if h[n].Completed? && h[n].conn == c then Some(h[n].at) else LastCompletion(h[..n], c)
  }

  ghost predicate TimesOk(w: World) {
    forall c :: LastCompletion(w.history, c) == if c in w.conns then w.conns[c].lastSyncedAt else None
  }

  /** Owners and sync times stay, new rows are unsynced, and no completion is recorded. */
  ghost predicate KeepsTimes(w: World, w': World) {
    && (forall c :: c in w.conns ==>
          c in w'.conns && w'.conns[c].userId == w.conns[c].userId &&
            w'.conns[c].lastSyncedAt == w.conns[c].lastSyncedAt)
    && (forall c :: c in w'.conns && c !in w.conns ==> w'.conns[c].lastSyncedAt.None?)
    && (w'.history == w.history || exists e: Entry :: !e.Completed? && w'.history == w.history + [e])
  }

  lemma OneMoreEntry(h: seq<Entry>, e: Entry, c: ConnId)
    ensures LastCompletion(h + [e], c) == if e.Completed? && e.conn == c then Some(e.at) else LastCompletion(h, c)
  {
    assert (h + [e])[..|h|] == h;
  }

  lemma KeptTimesAreOk(w: World, w': World)
    requires TimesOk(w) && KeepsTimes(w, w')
    ensures TimesOk(w')
  {
    forall c ensures LastCompletion(w'.history, c) == if c in w'.conns then w'.conns[c].lastSyncedAt else None {
      if w'.history != w.history {
        var e: Entry :| !e.Completed? && w'.history == w.history + [e];
        OneMoreEntry(w.history, e, c);
      }
    }
  }

  lemma WinKeepsTimes(w: World, k: CallId, row: Connection)
    requires k in w.calls && w.calls[k].conn in w.conns && SameBesidesClaim(w.conns[w.calls[k].conn], row)
    ensures KeepsTimes(w, Win(w, k, row))
  {
    var c := w.calls[k];
    var e := Started(c.conn, c.saga, c.origin, c.now);
    assert !e.Completed? && Win(w, k, row).history == w.history + [e];
  }

  lemma DeferKeepsTimes(w: World, k: CallId, winner: SagaId)
    requires k in w.calls
    ensures KeepsTimes(w, DeferStep(w, k, winner))
  {
    var e := Joined(w.calls[k].conn, winner);
    assert !e.Completed? && DeferStep(w, k, winner).history in {w.history, w.history + [e]};
  }

  lemma ClaimKeepsTimes(w: World, k: CallId, lost: Pc)
    requires k in w.calls
    ensures KeepsTimes(w, ClaimStep(w, k, lost))
  {
    var c := w.calls[k];
    if c.conn in w.conns {
      var claimed := TryClaimRow(w.conns[c.conn], c.saga, c.now, w.ttl, c.origin);
      if claimed.Some? {
        WinKeepsTimes(w, k, claimed.value);
      }
    }
  }

  lemma StealKeepsTimes(w: World, k: CallId, existing: SagaId)
    requires k in w.calls
    ensures KeepsTimes(w, StealStep(w, k, existing))
  {
    var c := w.calls[k];
    if c.conn in w.conns {
      var stolen := StealRow(w.conns[c.conn], existing, c.saga, c.now, c.origin);
      if stolen.Some? {
        WinKeepsTimes(w, k, stolen.value);
      }
    }
  }

  lemma CallKeepsTimes(w: World, k: CallId, a: Action)
    requires k in w.calls
    ensures KeepsTimes(w, CallStep(w, k, a))
  {
    match w.calls[k].pc
    case Claiming => ClaimKeepsTimes(w, k, ReadingClaim);
    case Retrying => ClaimKeepsTimes(w, k, ReadingWinner(w.calls[k].saga));
    case Stealing(existing) => StealKeepsTimes(w, k, existing);
    case Deferring(winner) => DeferKeepsTimes(w, k, winner);
    case _ =>
  }

  lemma CommitKeepsTimes(w: World, d: DeliveryId, at: int)
    requires TimesOk(w) && d in w.deliveries
    ensures TimesOk(CommitStep(w, d, at))
  {
    var m := w.deliveries[d];
    var w' := CommitStep(w, d, at);
    if m.conn in w.conns && !IsDuplicate(w, m) {
      var e := Completed(m.conn, m.saga, m.step, CompletionStamp(w.conns[m.conn], m.saga), at);
      assert w'.history == w.history + [e];
      forall c ensures LastCompletion(w'.history, c) == if c in w'.conns then w'.conns[c].lastSyncedAt else None {
        OneMoreEntry(w.history, e, c);
      }
    }
  }

  lemma NextKeepsTimes(w: World, a: Action)
    requires TimesOk(w)
    ensures TimesOk(Next(w, a))
  {
    if a.Commit? && a.d in w.deliveries && w.deliveries[a.d].phase.Checked? {
      CommitKeepsTimes(w, a.d, a.at);
    } else {
      OtherStepsKeepTimes(w, a);
      KeptTimesAreOk(w, Next(w, a));
    }
  }

  lemma OtherStepsKeepTimes(w: World, a: Action)
    requires !(a.Commit? && a.d in w.deliveries && w.deliveries[a.d].phase.Checked?)
    ensures KeepsTimes(w, Next(w, a))
  {
    if IsCallAction(a) {
      if a.k in w.calls {
        CallKeepsTimes(w, a.k, a);
      }
    } else if a.Finish? {
      assert !Finished(a.saga).Completed? && Next(w, a).history == w.history + [Finished(a.saga)];
    }
  }

  lemma {:induction false} RunKeepsTimes(w: World, actions: seq<Action>)
    requires TimesOk(w)
    ensures TimesOk(Run(w, actions))
  {
    if actions == [] {
    } else {
      RunKeepsTimes(w, actions[..|actions| - 1]);
      NextKeepsTimes(Run(w, actions[..|actions| - 1]), actions[|actions| - 1]);
    }
  }

  /** In every reachable state a connection's sync time is the time of its last completion event, and it has none
      exactly when no completion event is for it. */
  lemma SyncTimeIsLastCompletion(ttl: int, actions: seq<Action>, c: ConnId)
    requires c in Run(Initial(ttl), actions).conns
    ensures
      var w := Run(Initial(ttl), actions);
      && w.conns[c].lastSyncedAt == LastCompletion(w.history, c)
      && (w.conns[c].lastSyncedAt.Some? <==> exists e :: e in w.history && e.Completed? && e.conn == c)
  {
    RunKeepsTimes(Initial(ttl), actions);
  }

  // ----- validation -----

  /** The row lets the caller start a sync at this clock reading. */
  predicate Admits(w: World, conn: ConnId, user: nat, clock: int) {
    && conn in w.conns && w.conns[conn].status == "active" && w.conns[conn].userId == user
    && (w.conns[conn].expiresAt.Some? ==> clock <= w.conns[conn].expiresAt.value)
  }

  predicate SameCall(c: Call, d: Call) {
    d.conn == c.conn && d.user == c.user && d.origin == c.origin && d.saga == c.saga && d.now == c.now
  }

  /** A call that has drawn its id keeps it and everything it was called with. */
  lemma DrawnStaysDrawn(w: World, a: Action, k: CallId)
    requires k in w.calls && Drawn(w.calls[k])
    ensures k in Next(w, a).calls && Drawn(Next(w, a).calls[k]) && SameCall(w.calls[k], Next(w, a).calls[k])
  {
    if IsCallAction(a) {
      if a.k in w.calls {
        DrawnStepStays(w, a.k, a, k);
      }
    }
  }

  lemma DrawnStepStays(w: World, j: CallId, a: Action, k: CallId)
    requires j in w.calls && k in w.calls && Drawn(w.calls[k])
    ensures k in CallStep(w, j, a).calls && Drawn(CallStep(w, j, a).calls[k])
    ensures SameCall(w.calls[k], CallStep(w, j, a).calls[k])
  {
    if j == k {
      DrawnCallMoves(w, k, a);
    } else {
      OtherCallsStay(w, j, a, k);
    }
  }

  lemma OtherCallsStay(w: World, j: CallId, a: Action, k: CallId)
    requires j in w.calls && k in w.calls && j != k
    ensures k in CallStep(w, j, a).calls && CallStep(w, j, a).calls[k] == w.calls[k]
  {
  }

  lemma DrawnCallMoves(w: World, k: CallId, a: Action)
    requires k in w.calls && Drawn(w.calls[k])
    ensures k in CallStep(w, k, a).calls && Drawn(CallStep(w, k, a).calls[k])
    ensures SameCall(w.calls[k], CallStep(w, k, a).calls[k])
  {
    var c := w.calls[k];
    match c.pc
    case Claiming => ClaimMoves(w, k, ReadingClaim);
    case Retrying => ClaimMoves(w, k, ReadingWinner(c.saga));
    case Stealing(existing) => StealMoves(w, k, existing);
    case Deferring(winner) => DeferMoves(w, k, winner);
    case _ =>
  }

  lemma DeferMoves(w: World, k: CallId, winner: SagaId)
    requires k in w.calls
    ensures
      var w' := DeferStep(w, k, winner);
      k in w'.calls && Drawn(w'.calls[k]) && SameCall(w.calls[k], w'.calls[k])
  {
  }

  lemma ClaimMoves(w: World, k: CallId, lost: Pc)
    requires k in w.calls && !lost.Validating? && !lost.Done?
    ensures
      var w' := ClaimStep(w, k, lost);
      k in w'.calls && Drawn(w'.calls[k]) && SameCall(w.calls[k], w'.calls[k])
  {
  }

  lemma StealMoves(w: World, k: CallId, existing: SagaId)
    requires k in w.calls
    ensures
      var w' := StealStep(w, k, existing);
      k in w'.calls && Drawn(w'.calls[k]) && SameCall(w.calls[k], w'.calls[k])
  {
  }

  /** An id is drawn only by a validation that found the row admitting its caller and the account resolved. */
  lemma DrawnByValidation(w: World, a: Action, k: CallId)
    requires k in Next(w, a).calls && Drawn(Next(w, a).calls[k]) && !(k in w.calls && Drawn(w.calls[k]))
    ensures a.Validate? && a.k == k && a.accountResolved
    ensures
      var c := Next(w, a).calls[k];
      Admits(w, c.conn, c.user, a.clock) && c.saga == a.saga && c.now == a.now
  {
    if IsCallAction(a) && a.k in w.calls {
      DrawnByStep(w, a.k, a, k);
    }
  }

  lemma DrawnByStep(w: World, j: CallId, a: Action, k: CallId)
    requires j in w.calls && k in CallStep(w, j, a).calls && Drawn(CallStep(w, j, a).calls[k])
    requires !(k in w.calls && Drawn(w.calls[k]))
    ensures a.Validate? && j == k && a.accountResolved
    ensures
      var c := CallStep(w, j, a).calls[k];
      Admits(w, c.conn, c.user, a.clock) && c.saga == a.saga && c.now == a.now
  {
  }

  /** Position n of the run validated the call. */
  ghost predicate ValidatedAt(ttl: int, actions: seq<Action>, k: CallId, c: Call, n: nat)
    requires n < |actions|
  {
    var a := actions[n];
    && a.Validate? && a.k == k && a.accountResolved && a.saga == c.saga && a.now == c.now
    && Admits(Run(Initial(ttl), actions[..n]), c.conn, c.user, a.clock)
  }

  /** In every run a call that has drawn its id was validated before: the connection was then active, unexpired and
      its caller's own, and the account resolved. */
  lemma {:induction false} DrawnWasValidated(ttl: int, actions: seq<Action>, k: CallId) returns (n: nat)
    requires k in Run(Initial(ttl), actions).calls && Drawn(Run(Initial(ttl), actions).calls[k])
    ensures n < |actions| && ValidatedAt(ttl, actions, k, Run(Initial(ttl), actions).calls[k], n)
  {
    var m := |actions| - 1;
    var w, a := Run(Initial(ttl), actions[..m]), actions[m];
    if k in w.calls && Drawn(w.calls[k]) {
      DrawnStaysDrawn(w, a, k);
      n := DrawnWasValidated(ttl, actions[..m], k);
      assert actions[..m][..n] == actions[..n];
    } else {
      DrawnByValidation(w, a, k);
      n := m;
    }
  }

  // ----- ownership -----

  /** Calls that have drawn an id are for connections of their caller. */
  ghost predicate Owned(w: World) {
    forall k :: k in w.calls && Drawn(w.calls[k]) ==>
      w.calls[k].conn in w.conns && w.conns[w.calls[k].conn].userId == w.calls[k].user
  }

  /** Every start event is some call's own. */
  ghost predicate StartsHaveCalls(w: World) {
    forall e :: e in w.history && e.Started? ==> exists k :: IsStartOf(w, k, e)
  }

  ghost predicate IsStartOf(w: World, k: CallId, e: Entry)
    requires e.Started?
  {
    k in w.calls && Drawn(w.calls[k]) && w.calls[k].saga == e.saga && w.calls[k].conn == e.conn &&
      w.calls[k].origin == e.origin
  }

  lemma OwnersStay(w: World, a: Action)
    ensures forall c :: c in w.conns ==> c in Next(w, a).conns && Next(w, a).conns[c].userId == w.conns[c].userId
  {
    if a.Commit? && a.d in w.deliveries && w.deliveries[a.d].phase.Checked? {
    } else {
      OtherStepsKeepTimes(w, a);
    }
  }

  lemma NextKeepsOwned(w: World, a: Action)
    requires Owned(w)
    ensures Owned(Next(w, a))
  {
    var w' := Next(w, a);
    OwnersStay(w, a);
    forall k | k in w'.calls && Drawn(w'.calls[k])
      ensures w'.calls[k].conn in w'.conns && w'.conns[w'.calls[k].conn].userId == w'.calls[k].user
    {
      if k in w.calls && Drawn(w.calls[k]) {
        DrawnStaysDrawn(w, a, k);
      } else {
        DrawnByValidation(w, a, k);
      }
    }
  }

  /** A new start event is that of the call that made the step. */
  lemma NewStart(w: World, a: Action, e: Entry)
    requires e in Next(w, a).history && e !in w.history && e.Started? && Inv(w)
    ensures IsCallAction(a) && a.k in w.calls && IsStartOf(w, a.k, e)
  {
    if IsCallAction(a) {
      assert a.k in w.calls;
      NewStartOfStep(w, a.k, a, e);
    }
  }

  lemma NewStartOfStep(w: World, k: CallId, a: Action, e: Entry)
    requires k in w.calls && e in CallStep(w, k, a).history && e !in w.history && e.Started?
    ensures IsStartOf(w, k, e)
  {
  }

  lemma NextKeepsStarts(w: World, a: Action)
    requires Inv(w) && StartsHaveCalls(w)
    ensures StartsHaveCalls(Next(w, a))
  {
    var w' := Next(w, a);
    forall e | e in w'.history && e.Started? ensures exists k :: IsStartOf(w', k, e) {
      var k: CallId;
      if e in w.history {
        k :| IsStartOf(w, k, e);
      } else {
        NewStart(w, a, e);
        k := a.k;
      }
      DrawnStaysDrawn(w, a, k);
      assert IsStartOf(w', k, e);
    }
  }

  lemma {:induction false} RunKeepsOwned(ttl: int, actions: seq<Action>)
    ensures Owned(Run(Initial(ttl), actions)) && StartsHaveCalls(Run(Initial(ttl), actions))
  {
    if actions == [] {
    } else {
      var n := |actions| - 1;
      RunKeepsOwned(ttl, actions[..n]);
      Reachable(ttl, actions[..n]);
      NextKeepsOwned(Run(Initial(ttl), actions[..n]), actions[n]);
      NextKeepsStarts(Run(Initial(ttl), actions[..n]), actions[n]);
    }
  }

  /** In every reachable state a call that has drawn its id is for a connection of its caller. */
  lemma DrawnCallsAreOwned(ttl: int, actions: seq<Action>, k: CallId)
    requires k in Run(Initial(ttl), actions).calls && Drawn(Run(Initial(ttl), actions).calls[k])
    ensures
      var w := Run(Initial(ttl), actions);
      w.calls[k].conn in w.conns && w.conns[w.calls[k].conn].userId == w.calls[k].user
  {
    RunKeepsOwned(ttl, actions);
  }

  /** Every start event was persisted for the owner of its connection. */
  lemma StartsAreOwned(ttl: int, actions: seq<Action>, e: Entry)
    requires e in Run(Initial(ttl), actions).history && e.Started?
    ensures
      var w := Run(Initial(ttl), actions);
      exists k :: IsStartOf(w, k, e) && e.conn in w.conns && w.conns[e.conn].userId == w.calls[k].user
  {
    RunKeepsOwned(ttl, actions);
  }
}
