/**
  The bank-sync claim and completion protocol as a state machine. Each unit-of-work transaction is
  one action; any number of calls to start_sync_saga and deliveries of mark_sync_complete interleave
  freely, every clock reading is arbitrary, and a disabled action changes nothing.
*/
module SyncProtocol {
  import opened Common
  import opened BankConnections

  type CallId = nat
  type DeliveryId = nat

  const MAX_RETRIES: nat := 3

  /** Started and Completed are outbox rows; Joined and Finished record what else happened, in order. */
  datatype Entry =
    | Started(conn: ConnId, saga: SagaId, origin: Trigger, at: int)
    | Completed(conn: ConnId, saga: SagaId, step: string, stamp: Trigger, at: int)
    | Joined(conn: ConnId, saga: SagaId)
    | Finished(saga: SagaId)

  datatype Error = NotFound | Inactive | NotOwned | ConsentExpired | ProjectionIntegrity

  datatype Reply = Returned(saga: SagaId, alreadyRunning: bool) | Raised(error: Error)

  /** Where a call to start_sync_saga stands between two transactions. */
  datatype Pc =
    | Validating
    | Claiming
    | ReadingClaim
    | Retrying
    | AskingStatus(existing: SagaId)
    | Stealing(existing: SagaId)
    | ReadingWinner(fallback: SagaId)
    | Deferring(winner: SagaId)
    | Done(reply: Reply)

  datatype Call = Call(conn: ConnId, user: nat, origin: Trigger, hasStatusPort: bool, saga: SagaId, now: int, pc: Pc)

  /** A delivered mark_sync_complete command and how far its handler got. */
  datatype Phase = Arrived | Checked | Handled | Replied(success: bool) | Republished
  datatype Delivery = Delivery(conn: ConnId, saga: SagaId, step: string, retries: nat, phase: Phase)

  datatype World = World(
    ttl: int,
    conns: map<ConnId, Connection>,
    history: seq<Entry>,
    inbox: set<string>,
    issued: set<SagaId>,
    calls: map<CallId, Call>,
    deliveries: map<DeliveryId, Delivery>)

  datatype Action =
    | Connect(conn: ConnId, user: nat, expiresAt: Option<int>)
    | SetStatus(conn: ConnId, status: string)
    | UpdateConsent(conn: ConnId, expiresAt: Option<int>)
    | Finish(saga: SagaId)
    | Begin(k: CallId, conn: ConnId, user: nat, origin: Trigger, hasStatusPort: bool)
    | Validate(k: CallId, clock: int, accountResolved: bool, saga: SagaId, now: int)
    | TryClaim(k: CallId)
    | ReadClaim(k: CallId)
    | Retry(k: CallId)
    | AskStatus(k: CallId, answer: Option<string>)
    | Steal(k: CallId)
    | ReadWinner(k: CallId)
    | Defer(k: CallId)
    | Deliver(d: DeliveryId, conn: ConnId, saga: SagaId, step: string)
    | Check(d: DeliveryId)
    | Commit(d: DeliveryId, at: int)
    | Reply(d: DeliveryId)
    | Fail(d: DeliveryId, again: DeliveryId)

  // ----- start_sync_saga -----

  predicate IsTerminal(status: Option<string>) {
    status.Some? && status.value in {"completed", "failed", "timed_out"}
  }

  /** The status port answers only when wired, and says terminal only of a saga that finished. */
  predicate AnswerAllowed(w: World, c: Call, existing: SagaId, answer: Option<string>) {
    && (!c.hasStatusPort ==> answer.None?)
    && (IsTerminal(answer) ==> Finished(existing) in w.history)
  }

  function SetPc(w: World, k: CallId, pc: Pc): World
    requires k in w.calls
  {
    w.(calls := w.calls[k := w.calls[k].(pc := pc)])
  }

  function ValidationError(w: World, c: Call, clock: int, accountResolved: bool): Option<Error> {
    if c.conn !in w.conns then Some(NotFound)
    else
      var row := w.conns[c.conn];
      if !IsActive(row) then Some(Inactive)
      else if row.userId != c.user then Some(NotOwned)
      else if IsExpiredAt(row, clock) then Some(ConsentExpired)
      else if !accountResolved then Some(ProjectionIntegrity)
      else None
  }

  function ValidateStep(w: World, k: CallId, clock: int, accountResolved: bool, saga: SagaId, now: int): World
    requires k in w.calls
  {
    var c := w.calls[k];
    var error := ValidationError(w, c, clock, accountResolved);
    if error.Some? then SetPc(w, k, Done(Raised(error.value)))
    else w.(issued := w.issued + {saga},
            calls := w.calls[k := c.(saga := saga, now := now, pc := Claiming)])
  }

  /** Claim and start event in one transaction: row written, event appended, id returned. */
  function Win(w: World, k: CallId, row: Connection): World
    requires k in w.calls
  {
    var c := w.calls[k];
    SetPc(w.(conns := w.conns[c.conn := row],
             history := w.history + [Started(c.conn, c.saga, c.origin, c.now)]),
          k, Done(Returned(c.saga, false)))
  }

  function ClaimStep(w: World, k: CallId, lost: Pc): World
    requires k in w.calls
  {
    var c := w.calls[k];
    if c.conn !in w.conns then SetPc(w, k, lost)
    else
      var row := TryClaimRow(w.conns[c.conn], c.saga, c.now, w.ttl, c.origin);
      if row.Some? then Win(w, k, row.value) else SetPc(w, k, lost)
  }

  function StealStep(w: World, k: CallId, existing: SagaId): World
    requires k in w.calls
  {
    var c := w.calls[k];
    if c.conn !in w.conns then SetPc(w, k, ReadingWinner(existing))
    else
      var row := StealRow(w.conns[c.conn], existing, c.saga, c.now, c.origin);
      if row.Some? then Win(w, k, row.value) else SetPc(w, k, ReadingWinner(existing))
  }

  function CurrentClaim(w: World, conn: ConnId): Option<SagaId> {
    if conn in w.conns then w.conns[conn].sagaId else None
  }

  function DeferStep(w: World, k: CallId, winner: SagaId): World
    requires k in w.calls
  {
    var c := w.calls[k];
    var done := Done(Returned(winner, true));
    if c.origin.Scheduled? then SetPc(w, k, done)
    else
      var joined := w.(history := w.history + [Joined(c.conn, winner)]);
      if c.conn !in w.conns then SetPc(joined, k, done)
      else
        var row := EscalateRow(w.conns[c.conn], winner);
        SetPc(if row.Some? then joined.(conns := w.conns[c.conn := row.value]) else joined, k, done)
  }

  function CallStep(w: World, k: CallId, a: Action): World
    requires k in w.calls
  {
    var c := w.calls[k];
    match (c.pc, a)
    case (Validating, Validate(_, clock, accountResolved, saga, now)) =>
      if saga == "" || saga in w.issued then w else ValidateStep(w, k, clock, accountResolved, saga, now)
    case (Claiming, TryClaim(_)) => ClaimStep(w, k, ReadingClaim)
    case (ReadingClaim, ReadClaim(_)) =>
      var claim := CurrentClaim(w, c.conn);
      SetPc(w, k, if claim.None? then Retrying else AskingStatus(claim.value))
    case (Retrying, Retry(_)) => ClaimStep(w, k, ReadingWinner(c.saga))
    case (AskingStatus(existing), AskStatus(_, answer)) =>
      if !AnswerAllowed(w, c, existing, answer) then w
      else SetPc(w, k, if IsTerminal(answer) then Stealing(existing) else Deferring(existing))
    case (Stealing(existing), Steal(_)) => StealStep(w, k, existing)
    case (ReadingWinner(fallback), ReadWinner(_)) =>
      var claim := CurrentClaim(w, c.conn);
      SetPc(w, k, Deferring(if claim.None? then fallback else claim.value))
    case (Deferring(winner), Defer(_)) => DeferStep(w, k, winner)
    case _ => w
  }

  // ----- mark_sync_complete -----

  function StepKey(saga: SagaId, step: string): string { saga + ":" + step }

  predicate WellFormed(saga: SagaId, step: string) { saga != "" && step != "" }

  predicate IsDuplicate(w: World, d: Delivery) {
    WellFormed(d.saga, d.step) && StepKey(d.saga, d.step) in w.inbox
  }

  function SetPhase(w: World, d: DeliveryId, phase: Phase): World
    requires d in w.deliveries
  {
    w.(deliveries := w.deliveries[d := w.deliveries[d].(phase := phase)])
  }

  /** Effects, outbox row and inbox row commit together; the unique inbox key rolls the loser back. */
  function CommitStep(w: World, d: DeliveryId, at: int): World
    requires d in w.deliveries
  {
    var m := w.deliveries[d];
    if m.conn !in w.conns || IsDuplicate(w, m) then SetPhase(w, d, Handled)
    else
      var row := w.conns[m.conn];
      SetPhase(w.(conns := w.conns[m.conn := CompleteRow(row, m.saga, at)],
                  history := w.history + [Completed(m.conn, m.saga, m.step, CompletionStamp(row, m.saga), at)],
                  inbox := w.inbox + (if WellFormed(m.saga, m.step) then {StepKey(m.saga, m.step)} else {})),
               d, Handled)
  }

  /** An exception, also one while publishing the reply, republishes until the retries are used up. */
  function FailStep(w: World, d: DeliveryId, again: DeliveryId): World
    requires d in w.deliveries && again !in w.deliveries
  {
    var m := w.deliveries[d];
    if m.retries >= MAX_RETRIES then SetPhase(w, d, Replied(false))
    else
      var w1 := SetPhase(w, d, Republished);
      w1.(deliveries := w1.deliveries[again := m.(retries := m.retries + 1, phase := Arrived)])
  }

  function DeliveryStep(w: World, d: DeliveryId, a: Action): World
    requires d in w.deliveries
  {
    var m := w.deliveries[d];
    match (m.phase, a)
    case (Arrived, Check(_)) => SetPhase(w, d, if IsDuplicate(w, m) then Handled else Checked)
    case (Checked, Commit(_, at)) => CommitStep(w, d, at)
    case (Handled, Reply(_)) => SetPhase(w, d, Replied(true))
    case (_, Fail(_, again)) =>
      if again in w.deliveries || m.phase.Replied? || m.phase.Republished? then w else FailStep(w, d, again)
    case _ => w
  }

  // ----- runs -----

  function NewConnection(user: nat, expiresAt: Option<int>): Connection {
    Connection(user, "active", expiresAt, None, None, None, None)
  }

  function Next(w: World, a: Action): World {
    match a
    case Connect(conn, user, expiresAt) =>
      if conn in w.conns then w else w.(conns := w.conns[conn := NewConnection(user, expiresAt)])
    case SetStatus(conn, status) =>
      if conn !in w.conns then w else w.(conns := w.conns[conn := w.conns[conn].(status := status)])
    case UpdateConsent(conn, expiresAt) =>
      if conn !in w.conns then w else w.(conns := w.conns[conn := w.conns[conn].(expiresAt := expiresAt)])
    case Finish(saga) => w.(history := w.history + [Finished(saga)])
    case Begin(k, conn, user, origin, hasStatusPort) =>
      if k in w.calls then w
      else w.(calls := w.calls[k := Call(conn, user, origin, hasStatusPort, "", 0, Validating)])
    case Deliver(d, conn, saga, step) =>
      if d in w.deliveries then w
      else w.(deliveries := w.deliveries[d := Delivery(conn, saga, step, 0, Arrived)])
    case Check(d) => if d in w.deliveries then DeliveryStep(w, d, a) else w
    case Commit(d, _) => if d in w.deliveries then DeliveryStep(w, d, a) else w
    case Reply(d) => if d in w.deliveries then DeliveryStep(w, d, a) else w
    case Fail(d, _) => if d in w.deliveries then DeliveryStep(w, d, a) else w
    case _ => if a.k in w.calls then CallStep(w, a.k, a) else w
  }

  function Run(w: World, actions: seq<Action>): World {
    if actions == [] then w else Next(Run(w, actions[..|actions| - 1]), actions[|actions| - 1])
  }

  function Initial(ttl: int): World { World(ttl, map[], [], {}, {}, map[], map[]) }

  lemma {:induction false} RunAppend(w: World, first: seq<Action>, second: seq<Action>)
    ensures Run(w, first + second) == Run(Run(w, first), second)
  {
    if second == [] {
      assert first + second == first;
    } else {
      var n := |second| - 1;
      assert (first + second)[..|first| + n] == first + second[..n];
      RunAppend(w, first, second[..n]);
    }
  }
}
