/** What every interleaving of the claim protocol keeps, and the safety theorems that follow from it. */
module SyncInvariant {
  import opened Common
  import opened BankConnections
  import opened SyncProtocol

  /** Position of the latest start event of a connection, -1 when it never started. */
  function LastStart(h: seq<Entry>, c: ConnId): (r: int)
    ensures -1 <= r < |h|
    ensures r >= 0 ==> h[r].Started? && h[r].conn == c
    ensures forall j :: r < j < |h| ==> !(h[j].Started? && h[j].conn == c)
  {
    if h == [] then -1
    else if h[|h| - 1].Started? && h[|h| - 1].conn == c then |h| - 1
    else
      var r := LastStart(h[..|h| - 1], c);
      assert forall j :: 0 <= j < |h| - 1 ==> h[j] == h[..|h| - 1][j];
      r
  }

  ghost predicate HasStart(h: seq<Entry>, s: SagaId) {
    exists e :: e in h && e.Started? && e.saga == s
  }

  ghost predicate StartedBy(h: seq<Entry>, c: ConnId, s: SagaId, origin: Trigger) {
    exists e :: e in h && e.Started? && e.conn == c && e.saga == s && e.origin == origin
  }

  /** The saga that started at position i has emitted its completion since. */
  ghost predicate Released(h: seq<Entry>, i: int)
    requires 0 <= i < |h| && h[i].Started?
  {
    exists k :: i < k < |h| && h[k].Completed? && h[k].conn == h[i].conn && h[k].saga == h[i].saga
  }

  /** A start takes over only from a holder that released, that finished, or whose claim outlived the TTL. */
  ghost predicate TakeoverJustified(ttl: int, before: seq<Entry>, e: Entry)
    requires e.Started?
  {
    var j := LastStart(before, e.conn);
    j >= 0 ==>
      || Released(before, j)
      || Finished(before[j].saga) in before
      || e.at - before[j].at > ttl
  }

  ghost predicate EntryOk(ttl: int, before: seq<Entry>, e: Entry) {
    match e
    case Started(_, saga, _, _) => !HasStart(before, saga) && TakeoverJustified(ttl, before, e)
    case Completed(conn, saga, _, stamp, _) =>
      stamp.Scheduled? ==> StartedBy(before, conn, saga, Scheduled) && Joined(conn, saga) !in before
    case _ => true
  }

  ghost predicate HistoryOk(ttl: int, h: seq<Entry>) {
    forall i :: 0 <= i < |h| ==> EntryOk(ttl, h[..i], h[i])
  }

  /** The trigger the claim of the saga started at i must carry now. */
  function EffectiveTrigger(h: seq<Entry>, i: int): Trigger
    requires 0 <= i < |h| && h[i].Started?
  {
    if h[i].origin.Scheduled? && Joined(h[i].conn, h[i].saga) !in h then Scheduled else Manual
  }

  /** The claim columns say exactly what the history says about the connection. */
  ghost predicate RowOk(h: seq<Entry>, c: ConnId, row: Connection) {
    var i := LastStart(h, c);
    match row.sagaId
    case None => row.startedAt.None? && row.trigger.None? && (i >= 0 ==> Released(h, i))
    case Some(s) =>
      && i >= 0
      && s != "" && h[i].saga == s && row.startedAt == Some(h[i].at)
      && row.trigger == Some(TriggerValue(EffectiveTrigger(h, i)))
  }

  predicate Drawn(c: Call) { !c.pc.Validating? && !(c.pc.Done? && c.pc.reply.Raised?) }

  /** Calls that may still win a claim with their own saga id. */
  predicate Live(c: Call) {
    c.pc.Claiming? || c.pc.ReadingClaim? || c.pc.Retrying? || c.pc.AskingStatus? || c.pc.Stealing?
  }

  ghost predicate Known(h: seq<Entry>, c: Call, s: SagaId) { HasStart(h, s) || s == c.saga }

  ghost predicate CallOk(h: seq<Entry>, issued: set<SagaId>, c: Call) {
    if !Drawn(c) then c.saga == ""
    else
      && c.saga != "" && c.saga in issued
      && (c.pc == Done(Returned(c.saga, false)) ==> Started(c.conn, c.saga, c.origin, c.now) in h)
      && (HasStart(h, c.saga) ==> c.pc == Done(Returned(c.saga, false)))
      && (Live(c) ==> forall conn :: Joined(conn, c.saga) !in h)
      && (match c.pc
          case AskingStatus(existing) => HasStart(h, existing)
          case Stealing(existing) => HasStart(h, existing) && Finished(existing) in h && c.hasStatusPort
          case ReadingWinner(fallback) => Known(h, c, fallback)
          case Deferring(winner) => Known(h, c, winner)
          case Done(reply) => if reply.alreadyRunning then Known(h, c, reply.saga) else reply.saga == c.saga
          case _ => true)
  }

  ghost predicate Scoped(w: World) {
    && (forall e :: e in w.history && e.Started? ==> e.conn in w.conns && e.saga in w.issued)
    && (forall e :: e in w.history && e.Joined? ==> e.saga in w.issued)
  }

  ghost predicate DistinctSagas(w: World) {
    forall k, k' :: k in w.calls && k' in w.calls && k != k' && w.calls[k].saga != "" ==>
      w.calls[k].saga != w.calls[k'].saga
  }

  ghost predicate RowsOk(w: World) {
    forall c :: c in w.conns ==> RowOk(w.history, c, w.conns[c])
  }

  ghost predicate CallsOk(w: World) {
    forall k :: k in w.calls ==> CallOk(w.history, w.issued, w.calls[k])
  }

  ghost predicate Inv(w: World) {
    && HistoryOk(w.ttl, w.history)
    && RowsOk(w)
    && CallsOk(w)
    && Scoped(w)
    && DistinctSagas(w)
  }

  // ----- appending to the history -----

  lemma AppendEntry(ttl: int, h: seq<Entry>, e: Entry)
    requires HistoryOk(ttl, h) && EntryOk(ttl, h, e)
    ensures HistoryOk(ttl, h + [e])
  {
    var g := h + [e];
    forall i | 0 <= i < |g| ensures EntryOk(ttl, g[..i], g[i]) {
      assert g[..i] == h[..i];
      assert h[..|h|] == h;
    }
  }

  lemma LastStartAppend(h: seq<Entry>, e: Entry, c: ConnId)
    ensures LastStart(h + [e], c) == if e.Started? && e.conn == c then |h| else LastStart(h, c)
  {
    assert (h + [e])[..|h|] == h;
  }

  lemma HasStartAppend(h: seq<Entry>, e: Entry, s: SagaId)
    ensures HasStart(h + [e], s) <==> HasStart(h, s) || (e.Started? && e.saga == s)
  {
    if e.Started? && e.saga == s { assert e in h + [e]; }
    if HasStart(h, s) {
      var x :| x in h && x.Started? && x.saga == s;
      assert x in h + [e];
    }
  }

  /** An entry that is no start of c and no join of its owner leaves the row consistent. */
  lemma RowKept(h: seq<Entry>, e: Entry, c: ConnId, row: Connection)
    requires RowOk(h, c, row)
    requires !(e.Started? && e.conn == c)
    requires e.Joined? && e.conn == c ==> row.sagaId != Some(e.saga)
    ensures RowOk(h + [e], c, row)
  {
    LastStartAppend(h, e, c);
    var i := LastStart(h, c);
    if i >= 0 {
      assert (h + [e])[i] == h[i];
      if Released(h, i) {
        var k :| i < k < |h| && h[k].Completed? && h[k].conn == h[i].conn && h[k].saga == h[i].saga;
        assert (h + [e])[k] == h[k];
      }
    }
  }

  /** A call that did not move stays consistent when some other saga starts, joins, ends or completes. */
  lemma CallKept(h: seq<Entry>, issued: set<SagaId>, issued': set<SagaId>, e: Entry, c: Call)
    requires CallOk(h, issued, c) && issued <= issued'
    requires e.Started? ==> e.saga != c.saga
    requires e.Joined? && Live(c) ==> e.saga != c.saga
    ensures CallOk(h + [e], issued', c)
  {
    HasStartAppend(h, e, c.saga);
    match c.pc
    case AskingStatus(existing) => HasStartAppend(h, e, existing);
    case Stealing(existing) => HasStartAppend(h, e, existing);
    case ReadingWinner(fallback) => HasStartAppend(h, e, fallback);
    case Deferring(winner) => HasStartAppend(h, e, winner);
    case Done(Returned(saga, _)) => HasStartAppend(h, e, saga);
    case _ =>
  }

  // ----- each kind of step keeps the invariant -----

  /** A step that only moves one call, to a program counter that is consistent with the history. */
  lemma MoveKeepsInv(w: World, k: CallId, c: Call)
    requires Inv(w) && k in w.calls
    requires c.saga == w.calls[k].saga && CallOk(w.history, w.issued, c)
    ensures Inv(w.(calls := w.calls[k := c]))
  {
  }

  ghost predicate MayWin(w: World, k: CallId, row: Connection) {
    && k in w.calls && Live(w.calls[k]) && w.calls[k].conn in w.conns
    && var c := w.calls[k];
       var held := w.conns[c.conn];
       && row.sagaId == Some(c.saga) && row.startedAt == Some(c.now) && row.trigger == Some(TriggerValue(c.origin))
       && (ClaimIsStale(held, c.now, w.ttl) || (held.sagaId.Some? && Finished(held.sagaId.value) in w.history))
  }

  lemma WinKeepsRows(w: World, k: CallId, row: Connection)
    requires Inv(w) && MayWin(w, k, row)
    ensures RowsOk(Win(w, k, row))
  {
    var c := w.calls[k];
    var e := Started(c.conn, c.saga, c.origin, c.now);
    var w' := Win(w, k, row);
    forall conn | conn in w'.conns ensures RowOk(w'.history, conn, w'.conns[conn]) {
      if conn == c.conn {
        LastStartAppend(w.history, e, conn);
        assert CallOk(w.history, w.issued, c);
        assert Joined(c.conn, c.saga) !in w'.history;
      } else {
        RowKept(w.history, e, conn, w.conns[conn]);
      }
    }
  }

  lemma WinKeepsCalls(w: World, k: CallId, row: Connection)
    requires Inv(w) && MayWin(w, k, row)
    ensures CallsOk(Win(w, k, row))
  {
    var c := w.calls[k];
    var e := Started(c.conn, c.saga, c.origin, c.now);
    var w' := Win(w, k, row);
    forall j | j in w'.calls ensures CallOk(w'.history, w'.issued, w'.calls[j]) {
      if j == k {
        assert e in w'.history;
        assert CallOk(w.history, w.issued, c);
      } else {
        CallKept(w.history, w.issued, w'.issued, e, w.calls[j]);
      }
    }
  }

  lemma WinIsJustified(w: World, k: CallId, row: Connection)
    requires Inv(w) && MayWin(w, k, row)
    ensures
      var c := w.calls[k];
      EntryOk(w.ttl, w.history, Started(c.conn, c.saga, c.origin, c.now))
  {
    var c := w.calls[k];
    assert CallOk(w.history, w.issued, c);
    assert RowOk(w.history, c.conn, w.conns[c.conn]);
  }

  lemma WinKeepsScope(w: World, k: CallId, row: Connection)
    requires Inv(w) && MayWin(w, k, row)
    ensures Scoped(Win(w, k, row)) && DistinctSagas(Win(w, k, row))
  {
    assert CallOk(w.history, w.issued, w.calls[k]);
  }

  lemma WinKeepsHistory(w: World, k: CallId, row: Connection)
    requires Inv(w) && MayWin(w, k, row)
    ensures HistoryOk(w.ttl, Win(w, k, row).history)
  {
    var c := w.calls[k];
    WinIsJustified(w, k, row);
    AppendEntry(w.ttl, w.history, Started(c.conn, c.saga, c.origin, c.now));
  }

  /** Any start by the caller's own fresh id from a row that is free, outlived or finished. */
  lemma WinKeepsInv(w: World, k: CallId, row: Connection)
    requires Inv(w) && MayWin(w, k, row)
    ensures Inv(Win(w, k, row))
  {
    WinKeepsRows(w, k, row);
    WinKeepsCalls(w, k, row);
    WinKeepsScope(w, k, row);
    WinKeepsHistory(w, k, row);
  }

  lemma ClaimKeepsInv(w: World, k: CallId, lost: Pc)
    requires Inv(w) && k in w.calls && Live(w.calls[k])
    requires lost.ReadingClaim? || lost == ReadingWinner(w.calls[k].saga)
    ensures Inv(ClaimStep(w, k, lost))
  {
    var c := w.calls[k];
    if c.conn in w.conns && ClaimIsStale(w.conns[c.conn], c.now, w.ttl) {
      WinKeepsInv(w, k, TryClaimRow(w.conns[c.conn], c.saga, c.now, w.ttl, c.origin).value);
    } else {
      MoveKeepsInv(w, k, c.(pc := lost));
    }
  }

  lemma StealKeepsInv(w: World, k: CallId)
    requires Inv(w) && k in w.calls && w.calls[k].pc.Stealing?
    ensures Inv(StealStep(w, k, w.calls[k].pc.existing))
  {
    var c := w.calls[k];
    var existing := c.pc.existing;
    if c.conn in w.conns && w.conns[c.conn].sagaId == Some(existing) {
      WinKeepsInv(w, k, StealRow(w.conns[c.conn], existing, c.saga, c.now, c.origin).value);
    } else {
      MoveKeepsInv(w, k, c.(pc := ReadingWinner(existing)));
    }
  }

  /** The owner of a claim has a start event, so a fallback id or a claim just read is known. */
  lemma ClaimIsKnown(w: World, conn: ConnId)
    requires Inv(w)
    ensures CurrentClaim(w, conn).Some? ==> HasStart(w.history, CurrentClaim(w, conn).value)
  {
    if CurrentClaim(w, conn).Some? {
      assert RowOk(w.history, conn, w.conns[conn]);
      assert w.history[LastStart(w.history, conn)] in w.history;
    }
  }

  lemma JoinedRowOk(h: seq<Entry>, c: ConnId, row: Connection, s: SagaId)
    requires RowOk(h, c, row) && row.sagaId == Some(s)
    ensures RowOk(h + [Joined(c, s)], c, row.(trigger := Some(TriggerValue(Manual))))
  {
    var e := Joined(c, s);
    LastStartAppend(h, e, c);
    assert e in h + [e];
  }

  lemma DeferKeepsRows(w: World, k: CallId, winner: SagaId)
    requires Inv(w) && k in w.calls && w.calls[k].origin.Manual?
    ensures RowsOk(DeferStep(w, k, winner))
  {
    var c := w.calls[k];
    var w' := DeferStep(w, k, winner);
    forall conn | conn in w'.conns ensures RowOk(w'.history, conn, w'.conns[conn]) {
      if conn == c.conn && w.conns[conn].sagaId == Some(winner) {
        JoinedRowOk(w.history, conn, w.conns[conn], winner);
      } else {
        RowKept(w.history, Joined(c.conn, winner), conn, w.conns[conn]);
      }
    }
  }

  /** Only sagas that started, or the caller's own spent id, are ever joined: never a live call's id. */
  lemma DeferKeepsCalls(w: World, k: CallId)
    requires Inv(w) && k in w.calls && w.calls[k].origin.Manual? && w.calls[k].pc.Deferring?
    ensures CallsOk(DeferStep(w, k, w.calls[k].pc.winner))
    ensures w.calls[k].pc.winner in w.issued
  {
    var c := w.calls[k];
    var winner := c.pc.winner;
    var w' := DeferStep(w, k, winner);
    assert CallOk(w.history, w.issued, c);
    forall j | j in w'.calls ensures CallOk(w'.history, w'.issued, w'.calls[j]) {
      var moved := if j == k then c.(pc := Done(Returned(winner, true))) else w.calls[j];
      CallKept(w.history, w.issued, w'.issued, Joined(c.conn, winner), moved);
    }
  }

  lemma JoinKeepsScope(w: World, k: CallId)
    requires Inv(w) && k in w.calls && w.calls[k].pc.Deferring? && w.calls[k].origin.Manual?
    ensures Scoped(DeferStep(w, k, w.calls[k].pc.winner)) && DistinctSagas(DeferStep(w, k, w.calls[k].pc.winner))
  {
    DeferKeepsCalls(w, k);
    var w' := DeferStep(w, k, w.calls[k].pc.winner);
    assert w'.history == w.history + [Joined(w.calls[k].conn, w.calls[k].pc.winner)];
    assert w'.issued == w.issued && w'.conns.Keys == w.conns.Keys;
  }

  lemma JoinKeepsInv(w: World, k: CallId)
    requires Inv(w) && k in w.calls && w.calls[k].pc.Deferring? && w.calls[k].origin.Manual?
    ensures Inv(DeferStep(w, k, w.calls[k].pc.winner))
  {
    var c := w.calls[k];
    DeferKeepsRows(w, k, c.pc.winner);
    DeferKeepsCalls(w, k);
    JoinKeepsScope(w, k);
    AppendEntry(w.ttl, w.history, Joined(c.conn, c.pc.winner));
  }

  lemma DeferKeepsInv(w: World, k: CallId)
    requires Inv(w) && k in w.calls && w.calls[k].pc.Deferring?
    ensures Inv(DeferStep(w, k, w.calls[k].pc.winner))
  {
    var c := w.calls[k];
    var winner := c.pc.winner;
    if c.origin.Manual? {
      JoinKeepsInv(w, k);
    } else {
      MoveKeepsInv(w, k, c.(pc := Done(Returned(winner, true))));
    }
  }

  lemma CommitKeepsInv(w: World, d: DeliveryId, at: int)
    requires Inv(w) && d in w.deliveries
    ensures Inv(CommitStep(w, d, at))
  {
    var m := w.deliveries[d];
    var w' := CommitStep(w, d, at);
    if m.conn in w.conns && !IsDuplicate(w, m) {
      var row := w.conns[m.conn];
      var e := Completed(m.conn, m.saga, m.step, CompletionStamp(row, m.saga), at);
      assert RowOk(w.history, m.conn, row);
      StampIsExact(w, m.conn, m.saga);
      AppendEntry(w.ttl, w.history, e);
      forall conn | conn in w'.conns ensures RowOk(w'.history, conn, w'.conns[conn]) {
        RowKept(w.history, e, conn, w.conns[conn]);
        if conn == m.conn && OwnClaim(row, m.saga) {
          assert w'.history[|w.history|] == e;
        }
      }
      forall j | j in w'.calls ensures CallOk(w'.history, w'.issued, w'.calls[j]) {
        CallKept(w.history, w.issued, w'.issued, e, w.calls[j]);
      }
    }
  }

  lemma FinishKeepsInv(w: World, saga: SagaId)
    requires Inv(w)
    ensures Inv(Next(w, Finish(saga)))
  {
    var e := Finished(saga);
    AppendEntry(w.ttl, w.history, e);
    forall conn | conn in w.conns ensures RowOk(w.history + [e], conn, w.conns[conn]) {
      RowKept(w.history, e, conn, w.conns[conn]);
    }
    forall j | j in w.calls ensures CallOk(w.history + [e], w.issued, w.calls[j]) {
      CallKept(w.history, w.issued, w.issued, e, w.calls[j]);
    }
  }

  lemma ValidateKeepsInv(w: World, k: CallId, clock: int, accountResolved: bool, saga: SagaId, now: int)
    requires Inv(w) && k in w.calls && w.calls[k].pc.Validating?
    requires saga != "" && saga !in w.issued
    ensures Inv(ValidateStep(w, k, clock, accountResolved, saga, now))
  {
    var w' := ValidateStep(w, k, clock, accountResolved, saga, now);
    forall j | j in w'.calls ensures CallOk(w'.history, w'.issued, w'.calls[j]) {
      assert CallOk(w.history, w.issued, w.calls[j]);
    }
  }

  lemma ReadClaimKeepsInv(w: World, k: CallId)
    requires Inv(w) && k in w.calls && w.calls[k].pc.ReadingClaim?
    ensures Inv(CallStep(w, k, ReadClaim(k)))
  {
    var c := w.calls[k];
    ClaimIsKnown(w, c.conn);
    var claim := CurrentClaim(w, c.conn);
    assert CallOk(w.history, w.issued, c);
    MoveKeepsInv(w, k, c.(pc := if claim.None? then Retrying else AskingStatus(claim.value)));
  }

  lemma ReadWinnerKeepsInv(w: World, k: CallId)
    requires Inv(w) && k in w.calls && w.calls[k].pc.ReadingWinner?
    ensures Inv(CallStep(w, k, ReadWinner(k)))
  {
    var c := w.calls[k];
    ClaimIsKnown(w, c.conn);
    var claim := CurrentClaim(w, c.conn);
    assert CallOk(w.history, w.issued, c);
    MoveKeepsInv(w, k, c.(pc := Deferring(if claim.None? then c.pc.fallback else claim.value)));
  }

  lemma AskStatusKeepsInv(w: World, k: CallId, answer: Option<string>)
    requires Inv(w) && k in w.calls && w.calls[k].pc.AskingStatus?
    ensures Inv(CallStep(w, k, AskStatus(k, answer)))
  {
    var c := w.calls[k];
    var existing := c.pc.existing;
    assert CallOk(w.history, w.issued, c);
    if AnswerAllowed(w, c, existing, answer) {
      MoveKeepsInv(w, k, c.(pc := if IsTerminal(answer) then Stealing(existing) else Deferring(existing)));
    }
  }

  /** The steps that may write the claim columns or draw an id. */
  lemma WritingStepKeepsInv(w: World, k: CallId, a: Action)
    requires Inv(w) && k in w.calls && (a.Validate? || a.TryClaim? || a.Retry? || a.Steal?)
    ensures Inv(CallStep(w, k, a))
  {
    var pc := w.calls[k].pc;
    if pc.Validating? && a.Validate? && a.saga != "" && a.saga !in w.issued {
      ValidateKeepsInv(w, k, a.clock, a.accountResolved, a.saga, a.now);
    } else if pc.Claiming? && a.TryClaim? {
      ClaimKeepsInv(w, k, ReadingClaim);
    } else if pc.Retrying? && a.Retry? {
      ClaimKeepsInv(w, k, ReadingWinner(w.calls[k].saga));
    } else if pc.Stealing? && a.Steal? {
      StealKeepsInv(w, k);
    } else {
      assert CallStep(w, k, a) == w;
    }
  }

  /** The steps that only look. */
  lemma ReadingStepKeepsInv(w: World, k: CallId, a: Action)
    requires Inv(w) && k in w.calls && (a.ReadClaim? || a.AskStatus? || a.ReadWinner?)
    ensures Inv(CallStep(w, k, a))
  {
    var pc := w.calls[k].pc;
    if pc.ReadingClaim? && a.ReadClaim? {
      ReadClaimKeepsInv(w, k);
    } else if pc.AskingStatus? && a.AskStatus? {
      AskStatusKeepsInv(w, k, a.answer);
    } else if pc.ReadingWinner? && a.ReadWinner? {
      ReadWinnerKeepsInv(w, k);
    } else {
      assert CallStep(w, k, a) == w;
    }
  }

  lemma CallStepKeepsInv(w: World, k: CallId, a: Action)
    requires Inv(w) && k in w.calls
    ensures Inv(CallStep(w, k, a))
  {
    if a.Validate? || a.TryClaim? || a.Retry? || a.Steal? {
      WritingStepKeepsInv(w, k, a);
    } else if a.ReadClaim? || a.AskStatus? || a.ReadWinner? {
      ReadingStepKeepsInv(w, k, a);
    } else if w.calls[k].pc.Deferring? && a.Defer? {
      DeferKeepsInv(w, k);
    } else {
      assert CallStep(w, k, a) == w;
    }
  }

  lemma NoStartOfNewConnection(h: seq<Entry>, conns: map<ConnId, Connection>, c: ConnId)
    requires forall e :: e in h && e.Started? ==> e.conn in conns
    requires c !in conns
    ensures LastStart(h, c) == -1
  {
    assert forall i :: 0 <= i < |h| ==> h[i] in h;
  }

  lemma ConnectionStepKeepsInv(w: World, a: Action)
    requires Inv(w) && (a.Connect? || a.SetStatus? || a.UpdateConsent?)
    ensures Inv(Next(w, a))
  {
    if a.Connect? && a.conn !in w.conns { NoStartOfNewConnection(w.history, w.conns, a.conn); }
    var w' := Next(w, a);
    forall c | c in w'.conns ensures RowOk(w'.history, c, w'.conns[c]) {
      if c in w.conns { assert RowOk(w.history, c, w.conns[c]); }
    }
  }

  lemma DeliveriesDoNotMatter(w: World, deliveries: map<DeliveryId, Delivery>)
    requires Inv(w)
    ensures Inv(w.(deliveries := deliveries))
  {
    var w' := w.(deliveries := deliveries);
    assert RowsOk(w') && CallsOk(w') && Scoped(w') && DistinctSagas(w');
  }

  lemma DeliveryStepKeepsInv(w: World, d: DeliveryId, a: Action)
    requires Inv(w) && d in w.deliveries
    ensures Inv(DeliveryStep(w, d, a))
  {
    if a.Commit? && w.deliveries[d].phase.Checked? {
      CommitKeepsInv(w, d, a.at);
    } else {
      var w' := DeliveryStep(w, d, a);
      assert w' == w.(deliveries := w'.deliveries);
      DeliveriesDoNotMatter(w, w'.deliveries);
    }
  }

  lemma NextKeepsInv(w: World, a: Action)
    requires Inv(w)
    ensures Inv(Next(w, a))
  {
    match a
    case Connect(_, _, _) => ConnectionStepKeepsInv(w, a);
    case SetStatus(_, _) => ConnectionStepKeepsInv(w, a);
    case UpdateConsent(_, _) => ConnectionStepKeepsInv(w, a);
    case Finish(saga) => FinishKeepsInv(w, saga);
    case Begin(_, _, _, _, _) =>
    case Deliver(_, _, _, _) =>
    case Check(d) => if d in w.deliveries { DeliveryStepKeepsInv(w, d, a); }
    case Commit(d, _) => if d in w.deliveries { DeliveryStepKeepsInv(w, d, a); }
    case Reply(d) => if d in w.deliveries { DeliveryStepKeepsInv(w, d, a); }
    case Fail(d, _) => if d in w.deliveries { DeliveryStepKeepsInv(w, d, a); }
    case _ => if a.k in w.calls { CallStepKeepsInv(w, a.k, a); }
  }

  lemma {:induction false} RunKeepsInv(w: World, actions: seq<Action>)
    requires Inv(w)
    ensures Inv(Run(w, actions))
  {
    if actions == [] {
    } else {
      RunKeepsInv(w, actions[..|actions| - 1]);
      NextKeepsInv(Run(w, actions[..|actions| - 1]), actions[|actions| - 1]);
    }
  }

  // ----- theorems over all runs -----

  lemma Reachable(ttl: int, actions: seq<Action>)
    ensures Inv(Run(Initial(ttl), actions))
    ensures Run(Initial(ttl), actions).ttl == ttl
  {
    RunKeepsInv(Initial(ttl), actions);
    TtlFixed(Initial(ttl), actions);
  }

  lemma {:induction false} TtlFixed(w: World, actions: seq<Action>)
    ensures Run(w, actions).ttl == w.ttl
  {
    if actions == [] {
    } else {
      TtlFixed(w, actions[..|actions| - 1]);
      NextKeepsTtl(Run(w, actions[..|actions| - 1]), actions[|actions| - 1]);
    }
  }

  lemma NextKeepsTtl(w: World, a: Action)
    ensures Next(w, a).ttl == w.ttl
  {
  }

  /** A completion stamped scheduled belongs to a saga that a scheduled call started and that no manual
      caller had joined by then. */
  lemma ScheduledStampIsEarned(ttl: int, actions: seq<Action>, i: nat)
    requires
      var h := Run(Initial(ttl), actions).history;
      i < |h| && h[i].Completed? && h[i].stamp.Scheduled?
    ensures
      var h := Run(Initial(ttl), actions).history;
      StartedBy(h[..i], h[i].conn, h[i].saga, Scheduled) && Joined(h[i].conn, h[i].saga) !in h[..i]
  {
    Reachable(ttl, actions);
  }

  /** Between two consecutive starts on one connection the first saga completed, the saga service ended it,
      or its claim was older than the TTL at the second caller's clock reading. */
  lemma TakeoverOnlyFromReleasedFinishedOrStale(ttl: int, actions: seq<Action>, j: nat, i: nat)
    requires
      var h := Run(Initial(ttl), actions).history;
      && j < i < |h| && h[j].Started? && h[i].Started? && h[j].conn == h[i].conn
      && forall m :: j < m < i ==> !(h[m].Started? && h[m].conn == h[i].conn)
    ensures
      var h := Run(Initial(ttl), actions).history;
      || (exists m :: j < m < i && h[m].Completed? && h[m].conn == h[j].conn && h[m].saga == h[j].saga)
      || (exists m :: 0 <= m < i && h[m] == Finished(h[j].saga))
      || h[i].at - h[j].at > ttl
  {
    Reachable(ttl, actions);
    var h := Run(Initial(ttl), actions).history;
    var before := h[..i];
    assert EntryOk(ttl, before, h[i]);
    assert before[j] == h[j];
    assert LastStart(before, h[i].conn) == j;
    if Released(before, j) {
      var m :| j < m < |before| && before[m].Completed? && before[m].conn == before[j].conn &&
          before[m].saga == before[j].saga;
      assert h[m] == before[m];
    } else if Finished(h[j].saga) in before {
      var m :| 0 <= m < |before| && before[m] == Finished(h[j].saga);
      assert h[m] == before[m];
    }
  }

  /** Without a status port, or while the port does not report the holder terminal, no call ever steals. */
  lemma OnlyReportedTerminalIsStolen(ttl: int, actions: seq<Action>, k: CallId)
    requires
      var w := Run(Initial(ttl), actions);
      k in w.calls && w.calls[k].pc.Stealing?
    ensures
      var w := Run(Initial(ttl), actions);
      w.calls[k].hasStatusPort && Finished(w.calls[k].pc.existing) in w.history
  {
    Reachable(ttl, actions);
    var w := Run(Initial(ttl), actions);
    assert CallOk(w.history, w.issued, w.calls[k]);
  }

  /** Every id in the claim column has exactly one start event, and it is for that connection. */
  lemma ClaimHasExactlyOneStart(ttl: int, actions: seq<Action>, c: ConnId)
    requires
      var w := Run(Initial(ttl), actions);
      c in w.conns && w.conns[c].sagaId.Some?
    ensures
      var w := Run(Initial(ttl), actions);
      var h := w.history;
      exists i :: 0 <= i < |h| && h[i].Started? && h[i].conn == c && h[i].saga == w.conns[c].sagaId.value &&
        forall j :: 0 <= j < |h| && h[j].Started? && h[j].saga == h[i].saga ==> j == i
  {
    Reachable(ttl, actions);
    var w := Run(Initial(ttl), actions);
    var h := w.history;
    assert RowOk(h, c, w.conns[c]);
    var i := LastStart(h, c);
    forall j | 0 <= j < |h| && h[j].Started? && h[j].saga == h[i].saga ensures j == i {
      OneStartPerSaga(ttl, h, i, j);
    }
  }

  /** start_sync_saga returns (id, False) exactly when it persisted the start event for its id. */
  lemma ReturnsNotRunningIffItStarted(ttl: int, actions: seq<Action>, k: CallId)
    requires k in Run(Initial(ttl), actions).calls
    ensures
      var w := Run(Initial(ttl), actions);
      var c := w.calls[k];
      && ((exists s :: c.pc == Done(Returned(s, false))) <==> (c.saga != "" && HasStart(w.history, c.saga)))
      && (HasStart(w.history, c.saga) && c.saga != "" ==>
            c.pc == Done(Returned(c.saga, false)) && Started(c.conn, c.saga, c.origin, c.now) in w.history)
  {
    Reachable(ttl, actions);
    var w := Run(Initial(ttl), actions);
    var c := w.calls[k];
    assert CallOk(w.history, w.issued, c);
    if c.pc.Done? && c.pc.reply.Returned? && !c.pc.reply.alreadyRunning {
      assert Started(c.conn, c.saga, c.origin, c.now) in w.history;
    }
  }

  /** While one saga owns the claim its trigger never goes back from manual. */
  lemma ManualIsNeverDowngraded(ttl: int, actions: seq<Action>, a: Action, c: ConnId, s: SagaId)
    requires
      var w := Run(Initial(ttl), actions);
      && c in w.conns && w.conns[c].sagaId == Some(s) && w.conns[c].trigger == Some(TriggerValue(Manual))
      && c in Next(w, a).conns && Next(w, a).conns[c].sagaId == Some(s)
    ensures Next(Run(Initial(ttl), actions), a).conns[c].trigger == Some(TriggerValue(Manual))
  {
    Reachable(ttl, actions);
    var w := Run(Initial(ttl), actions);
    var w' := Next(w, a);
    NextKeepsInv(w, a);
    HistoryGrows(w, a);
    assert RowOk(w.history, c, w.conns[c]) && RowOk(w'.history, c, w'.conns[c]);
    SameSagaStaysManual(w'.ttl, w.history, w'.history, c, w.conns[c], w'.conns[c], s);
  }

  /** As the history grows, a claim of the same saga cannot lose a manual trigger. */
  lemma SameSagaStaysManual(
    ttl: int, h: seq<Entry>, h': seq<Entry>, c: ConnId, row: Connection, row': Connection, s: SagaId)
    requires h <= h' && HistoryOk(ttl, h') && RowOk(h, c, row) && RowOk(h', c, row')
    requires row.sagaId == Some(s) && row'.sagaId == Some(s) && row.trigger == Some(TriggerValue(Manual))
    ensures row'.trigger == Some(TriggerValue(Manual))
  {
    var i, i' := LastStart(h, c), LastStart(h', c);
    assert h'[i] == h[i];
    OneStartPerSaga(ttl, h', i, i');
    if Joined(c, s) in h {
      var m :| 0 <= m < |h| && h[m] == Joined(c, s);
      assert h'[m] == Joined(c, s);
    }
  }

  lemma HistoryGrows(w: World, a: Action)
    ensures w.history <= Next(w, a).history
  {
    if a.Validate? || a.TryClaim? || a.ReadClaim? || a.Retry? || a.AskStatus? || a.Steal? || a.ReadWinner? || a.Defer? {
      if a.k in w.calls {
        CallHistoryGrows(w, a.k, a);
      }
    }
  }

  lemma CallHistoryGrows(w: World, k: CallId, a: Action)
    requires k in w.calls
    ensures w.history <= CallStep(w, k, a).history
  {
  }

  /** Only the completion of the owning saga empties a claim. */
  lemma OnlyTheOwnerClears(ttl: int, actions: seq<Action>, a: Action, c: ConnId)
    requires
      var w := Run(Initial(ttl), actions);
      c in w.conns && w.conns[c].sagaId.Some? && c in Next(w, a).conns && Next(w, a).conns[c].sagaId.None?
    ensures
      var w := Run(Initial(ttl), actions);
      && a.Commit? && a.d in w.deliveries
      && w.deliveries[a.d].conn == c && Some(w.deliveries[a.d].saga) == w.conns[c].sagaId
      && exists step, stamp ::
           Next(w, a).history == w.history + [Completed(c, w.deliveries[a.d].saga, step, stamp, a.at)]
  {
    var w := Run(Initial(ttl), actions);
    if a.Commit? {
      var m := w.deliveries[a.d];
      var stamp := CompletionStamp(w.conns[c], m.saga);
      assert Next(w, a).history == w.history + [Completed(c, m.saga, m.step, stamp, a.at)];
    } else {
      ClaimsSurvive(w, a, c);
      assert false;
    }
  }

  lemma ClaimsSurvive(w: World, a: Action, c: ConnId)
    requires !a.Commit? && c in w.conns && w.conns[c].sagaId.Some?
    ensures c in Next(w, a).conns && Next(w, a).conns[c].sagaId.Some?
  {
    if a.Validate? || a.TryClaim? || a.ReadClaim? || a.Retry? || a.AskStatus? || a.Steal? || a.ReadWinner? || a.Defer? {
      if a.k in w.calls {
        ClaimsSurviveCall(w, a.k, a, c);
      }
    }
  }

  lemma ClaimsSurviveCall(w: World, k: CallId, a: Action, c: ConnId)
    requires k in w.calls && c in w.conns && w.conns[c].sagaId.Some?
    ensures c in CallStep(w, k, a).conns && CallStep(w, k, a).conns[c].sagaId.Some?
  {
  }

  /** The stamp is scheduled exactly when the claim is the saga's own, a scheduled call started it and no
      manual caller joined it. */
  lemma StampIsExact(w: World, c: ConnId, s: SagaId)
    requires Inv(w) && c in w.conns
    ensures CompletionStamp(w.conns[c], s).Scheduled? <==>
            OwnClaim(w.conns[c], s) && StartedBy(w.history, c, s, Scheduled) && Joined(c, s) !in w.history
  {
    var h := w.history;
    assert RowOk(h, c, w.conns[c]);
    if OwnClaim(w.conns[c], s) {
      var i := LastStart(h, c);
      assert h[i] in h;
      if StartedBy(h, c, s, Scheduled) {
        var e :| e in h && e.Started? && e.conn == c && e.saga == s && e.origin == Scheduled;
        var j :| 0 <= j < |h| && h[j] == e;
        OneStartPerSaga(w.ttl, h, i, j);
      }
    }
  }

  lemma OneStartPerSaga(ttl: int, h: seq<Entry>, i: int, j: int)
    requires HistoryOk(ttl, h)
    requires 0 <= i < |h| && 0 <= j < |h| && h[i].Started? && h[j].Started? && h[i].saga == h[j].saga
    ensures i == j
  {
    InPrefix(h, i, j);
    InPrefix(h, j, i);
  }

  lemma InPrefix(h: seq<Entry>, i: nat, j: nat)
    requires i < |h| && j <= |h|
    ensures i < j ==> h[i] in h[..j]
  {
    if i < j { assert h[..j][i] == h[i]; }
  }
}
