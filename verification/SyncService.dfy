/**
  start_sync_saga and the completion handler as code: a database object whose transactions update it in
  place, and a call that runs its transactions one after another while an arbitrary environment
  interferes between any two of them. Every execution is a run of the protocol.
*/
module SyncService {
  import opened Common
  import opened BankConnections
  import opened SyncProtocol
  import opened SyncInvariant

  /** The action advances call k. */
  predicate Concerns(a: Action, k: CallId) {
    match a
    case Begin(j, _, _, _, _) => j == k
    case Validate(j, _, _, _, _) => j == k
    case TryClaim(j) => j == k
    case ReadClaim(j) => j == k
    case Retry(j) => j == k
    case AskStatus(j, _) => j == k
    case Steal(j) => j == k
    case ReadWinner(j) => j == k
    case Defer(j) => j == k
    case _ => false
  }

  /** Others neither advance call k nor draw its uuid. */
  predicate Foreign(a: Action, k: CallId, uuid: SagaId) {
    !Concerns(a, k) && (a.Validate? ==> a.saga != uuid)
  }

  lemma ForeignStep(w: World, a: Action, k: CallId, uuid: SagaId)
    requires Foreign(a, k, uuid)
    ensures k in Next(w, a).calls <==> k in w.calls
    ensures k in w.calls ==> Next(w, a).calls[k] == w.calls[k]
    ensures uuid !in w.issued ==> uuid !in Next(w, a).issued
  {
    if a.Validate? || a.TryClaim? || a.ReadClaim? || a.Retry? || a.AskStatus? || a.Steal? || a.ReadWinner? || a.Defer? {
      if a.k in w.calls { OtherCall(w, a.k, a, k); }
    }
  }

  lemma OtherCall(w: World, j: CallId, a: Action, k: CallId)
    requires j in w.calls && j != k
    ensures k in CallStep(w, j, a).calls <==> k in w.calls
    ensures k in w.calls ==> CallStep(w, j, a).calls[k] == w.calls[k]
    ensures CallStep(w, j, a).issued == w.issued || (a.Validate? && CallStep(w, j, a).issued == w.issued + {a.saga})
  {
    match w.calls[j].pc
    case Claiming => ClaimLeavesOthers(w, j, ReadingClaim, k);
    case Retrying => ClaimLeavesOthers(w, j, ReadingWinner(w.calls[j].saga), k);
    case Stealing(existing) => StealLeavesOthers(w, j, existing, k);
    case Deferring(winner) => DeferLeavesOthers(w, j, winner, k);
    case _ =>
  }

  lemma StealLeavesOthers(w: World, j: CallId, existing: SagaId, k: CallId)
    requires j in w.calls && j != k
    ensures
      var w' := StealStep(w, j, existing);
      (k in w'.calls <==> k in w.calls) && (k in w.calls ==> w'.calls[k] == w.calls[k]) && w'.issued == w.issued
  {
  }

  lemma DeferLeavesOthers(w: World, j: CallId, winner: SagaId, k: CallId)
    requires j in w.calls && j != k
    ensures
      var w' := DeferStep(w, j, winner);
      (k in w'.calls <==> k in w.calls) && (k in w.calls ==> w'.calls[k] == w.calls[k]) && w'.issued == w.issued
  {
  }

  lemma ClaimLeavesOthers(w: World, j: CallId, lost: Pc, k: CallId)
    requires j in w.calls && j != k
    ensures
      var w' := ClaimStep(w, j, lost);
      (k in w'.calls <==> k in w.calls) && (k in w.calls ==> w'.calls[k] == w.calls[k]) && w'.issued == w.issued
  {
  }

  lemma {:induction false} ForeignRun(w: World, actions: seq<Action>, k: CallId, uuid: SagaId)
    requires forall a :: a in actions ==> Foreign(a, k, uuid)
    ensures k in Run(w, actions).calls <==> k in w.calls
    ensures k in w.calls ==> Run(w, actions).calls[k] == w.calls[k]
    ensures uuid !in w.issued ==> uuid !in Run(w, actions).issued
  {
    if actions == [] {
    } else {
      var n := |actions| - 1;
      ForeignRun(w, actions[..n], k, uuid);
      ForeignStep(Run(w, actions[..n]), actions[n], k, uuid);
    }
  }

  lemma ExtendTrace(w0: World, trace: seq<Action>, a: Action, others: seq<Action>)
    ensures Run(w0, trace + [a] + others) == Run(Next(Run(w0, trace), a), others)
  {
    RunAppend(w0, trace + [a], others);
    assert (trace + [a])[..|trace|] == trace;
  }

  /** An action of call k itself: it draws its own uuid, and steals only with a status port. */
  predicate IsOwn(a: Action, k: CallId, me: Call) {
    Concerns(a, k) && (a.Validate? ==> a.saga == me.saga) && (a.Steal? ==> me.hasStatusPort)
  }

  /** Everything in the trace is the call's own or its environment's. */
  ghost predicate IsCallTrace(trace: seq<Action>, k: CallId, me: Call, env: nat -> seq<Action>) {
    forall a :: a in trace ==> IsOwn(a, k, me) || exists i :: a in env(i)
  }

  /** One more action of the call, followed by others. */
  ghost predicate Extends(soFar: seq<Action>, trace: seq<Action>, k: CallId, me: Call, others: seq<Action>) {
    exists a :: IsOwn(a, k, me) && trace == soFar + [a] + others
  }

  lemma ExtendsBy(soFar: seq<Action>, a: Action, others: seq<Action>, k: CallId, me: Call)
    requires IsOwn(a, k, me)
    ensures Extends(soFar, soFar + [a] + others, k, me, others)
  {
  }

  lemma StillCallTrace(soFar: seq<Action>, trace: seq<Action>, k: CallId, me: Call, env: nat -> seq<Action>, i: nat)
    requires IsCallTrace(soFar, k, me, env) && Extends(soFar, trace, k, me, env(i))
    ensures IsCallTrace(trace, k, me, env)
  {
    var a :| IsOwn(a, k, me) && trace == soFar + [a] + env(i);
    forall x | x in trace ensures x in soFar || x == a || x in env(i) {}
  }

  // ----- what a call finds and leaves, over the columns -----

  /** The claim columns let the call in: nobody holds the claim, or for longer than the TTL. */
  ghost predicate IsFree(conns: map<ConnId, Connection>, me: Call, ttl: int) {
    me.conn in conns && (conns[me.conn].startedAt.None? || me.now - conns[me.conn].startedAt.value > ttl)
  }

  /** The row as the call's claim leaves it. */
  ghost function Taken(row: Connection, me: Call): Connection {
    row.(sagaId := Some(me.saga), startedAt := Some(me.now),
      trigger := Some(if me.origin.Manual? then "manual" else "scheduled"))
  }

  ghost function OwnerOf(conns: map<ConnId, Connection>, conn: ConnId): Option<SagaId> {
    if conn in conns then conns[conn].sagaId else None
  }

  /** The rows and outbox after a claim that was won, or not. */
  ghost predicate Leaves(
    conns: map<ConnId, Connection>, history: seq<Entry>, me: Call, won: bool, conns': map<ConnId, Connection>,
    history': seq<Entry>)
  {
    if won && me.conn in conns then
      && conns' == conns[me.conn := Taken(conns[me.conn], me)]
      && history' == history + [Started(me.conn, me.saga, me.origin, me.now)]
    else conns' == conns && history' == history
  }

  /** A manual caller marks the claim it defers to; a scheduled one changes nothing. */
  ghost function Escalated(conns: map<ConnId, Connection>, me: Call, winner: SagaId): map<ConnId, Connection> {
    if me.origin.Manual? && OwnerOf(conns, me.conn) == Some(winner)
    then conns[me.conn := conns[me.conn].(trigger := Some("manual"))] else conns
  }

  /** The saga service calls the saga terminal. */
  ghost predicate SaysTerminal(answer: Option<string>) {
    answer == Some("completed") || answer == Some("failed") || answer == Some("timed_out")
  }

  /** The refusal a row earns, checked in this order. */
  ghost predicate IsRefusal(
    conns: map<ConnId, Connection>, conn: ConnId, user: nat, clock: int, resolved: bool, error: Option<Error>) {
    if conn !in conns then error == Some(NotFound)
    else if conns[conn].status != "active" then error == Some(Inactive)
    else if conns[conn].userId != user then error == Some(NotOwned)
    else if conns[conn].expiresAt.Some? && clock > conns[conn].expiresAt.value then error == Some(ConsentExpired)
    else if !resolved then error == Some(ProjectionIntegrity)
    else error == None
  }

  /** What the commit of a completion leaves. Without the row, or with its key already in the inbox, nothing. Else
      the row is synced now and its claim released if it was the saga's own, one event says so with the claim's
      trigger, and a keyed command leaves its key. */
  ghost predicate Completes(w: World, m: Delivery, at: int, w': World) {
    var keyed := m.saga != "" && m.step != "";
    var key := m.saga + ":" + m.step;
    if m.conn !in w.conns || (keyed && key in w.inbox) then
      w'.conns == w.conns && w'.history == w.history && w'.inbox == w.inbox
    else
      var row := w.conns[m.conn];
      var own := m.saga != "" && row.sagaId == Some(m.saga);
      var stamp := if own && row.trigger == Some("scheduled") then Scheduled else Manual;
      var free := row.(lastSyncedAt := Some(at), sagaId := None, startedAt := None, trigger := None);
      && w'.conns == w.conns[m.conn := if own then free else row.(lastSyncedAt := Some(at))]
      && w'.history == w.history + [Completed(m.conn, m.saga, m.step, stamp, at)]
      && w'.inbox == if keyed then w.inbox + {key} else w.inbox
  }

  lemma ClaimLeaves(w: World, k: CallId, lost: Pc)
    requires k in w.calls
    ensures
      var w' := ClaimStep(w, k, lost);
      Leaves(w.conns, w.history, w.calls[k], IsFree(w.conns, w.calls[k], w.ttl), w'.conns, w'.history)
  {
  }

  ghost predicate IsIdle(env: nat -> seq<Action>) { forall i :: env(i) == [] }

  /** The call's own saga when the claim was free or its holder is reported terminal, and the holder's otherwise. */
  ghost predicate Resolves(
    w: World, me: Call, statusPort: (seq<Entry>, SagaId) -> Option<string>, reply: SyncProtocol.Reply, w': World)
  {
    var owner := OwnerOf(w.conns, me.conn);
    var over := me.hasStatusPort && owner.Some? && SaysTerminal(statusPort(w.history, owner.value));
    if IsFree(w.conns, me, w.ttl) || over then
      reply == Returned(me.saga, false) && Leaves(w.conns, w.history, me, true, w'.conns, w'.history)
    else
      owner.Some? && reply == Returned(owner.value, true) && w'.conns == Escalated(w.conns, me, owner.value)
  }

  /** What an undisturbed call answers and leaves: its refusal, its own saga when the claim was free or its holder is
      reported terminal, and the holder's saga otherwise. */
  ghost predicate IsQuietAnswer(
    w: World, me: Call, clock: int, resolved: bool, statusPort: (seq<Entry>, SagaId) -> Option<string>,
    reply: SyncProtocol.Reply, w': World)
  {
    if reply.Raised? then
      IsRefusal(w.conns, me.conn, me.user, clock, resolved, Some(reply.error)) && w'.conns == w.conns &&
        w'.history == w.history
    else
      && IsRefusal(w.conns, me.conn, me.user, clock, resolved, None)
      && Resolves(w, me, statusPort, reply, w')
  }

  class Database {
    const ttl: int
    var conns: map<ConnId, Connection>
    var history: seq<Entry>
    var inbox: set<string>
    var issued: set<SagaId>
    var calls: map<CallId, Call>
    var deliveries: map<DeliveryId, Delivery>

    function Snapshot(): World
      reads this
    {
      World(ttl, conns, history, inbox, issued, calls, deliveries)
    }

    constructor (ttl: int)
      ensures Snapshot() == Initial(ttl)
    {
      this.ttl := ttl;
      conns, history, inbox, issued, calls, deliveries := map[], [], {}, {}, map[], map[];
    }

    /** Any finite sequence of transactions of other processes. */
    method Interfere(actions: seq<Action>)
      modifies this
      ensures Snapshot() == Run(old(Snapshot()), actions)
    {
      var w := Run(Snapshot(), actions);
      TtlFixed(Snapshot(), actions);
      conns, history, inbox := w.conns, w.history, w.inbox;
      issued, calls, deliveries := w.issued, w.calls, w.deliveries;
    }

    /** Reads the row, checks it and, when it may sync, draws the saga id and reads the clock. */
    method ValidateCall(
      k: CallId, clock: int, accountResolved: bool, uuid: SagaId, now: int) returns (error: Option<Error>)
      requires k in calls && calls[k].pc.Validating? && uuid != "" && uuid !in issued
      modifies this`calls, this`issued
      ensures Snapshot() == Next(old(Snapshot()), Validate(k, clock, accountResolved, uuid, now))
      ensures k in calls && calls[k].pc == (if error.Some? then Done(Raised(error.value)) else Claiming)
      ensures error.None? ==> calls[k].saga == uuid
      ensures error.Some? ==> calls[k] == old(calls[k]).(pc := Done(Raised(error.value)))
      ensures IsRefusal(conns, old(calls[k]).conn, old(calls[k]).user, clock, accountResolved, error)
    {
      var c := calls[k];
      if c.conn !in conns {
        error := Some(NotFound);
      } else if !IsActive(conns[c.conn]) {
        error := Some(Inactive);
      } else if conns[c.conn].userId != c.user {
        error := Some(NotOwned);
      } else if IsExpiredAt(conns[c.conn], clock) {
        error := Some(ConsentExpired);
      } else if !accountResolved {
        error := Some(ProjectionIntegrity);
      } else {
        error := None;
      }
      if error.Some? {
        calls := calls[k := c.(pc := Done(Raised(error.value)))];
      } else {
        issued := issued + {uuid};
        calls := calls[k := c.(saga := uuid, now := now, pc := Claiming)];
      }
    }

    /** Conditional claim and start event in one transaction; a lost claim rolls back. */
    method ClaimTransaction(k: CallId, lost: Pc) returns (won: bool)
      requires k in calls
      modifies this`conns, this`history, this`calls
      ensures Snapshot() == ClaimStep(old(Snapshot()), k, lost)
      ensures k in calls && calls[k].saga == old(calls[k].saga)
      ensures calls[k].pc == if won then Done(Returned(calls[k].saga, false)) else lost
      ensures won <==> IsFree(old(conns), old(calls[k]), ttl)
      ensures Leaves(old(conns), old(history), old(calls[k]), won, conns, history)
    {
      var c := calls[k];
      won := false;
      if c.conn in conns {
        var row := conns[c.conn];
        if row.startedAt.None? || row.startedAt.value < c.now - ttl {
          conns := conns[c.conn := row.(sagaId := Some(c.saga), startedAt := Some(c.now),
                                        trigger := Some(TriggerValue(c.origin)))];
          history := history + [Started(c.conn, c.saga, c.origin, c.now)];
          won := true;
        }
      }
      calls := calls[k := c.(pc := if won then Done(Returned(c.saga, false)) else lost)];
      ClaimLeaves(old(Snapshot()), k, lost);
    }

    method StealTransaction(k: CallId, existing: SagaId) returns (won: bool)
      requires k in calls && calls[k].pc == Stealing(existing)
      modifies this`conns, this`history, this`calls
      ensures Snapshot() == Next(old(Snapshot()), Steal(k))
      ensures k in calls && calls[k].saga == old(calls[k].saga)
      ensures calls[k].pc == if won then Done(Returned(calls[k].saga, false)) else ReadingWinner(existing)
      ensures won <==> OwnerOf(old(conns), old(calls[k]).conn) == Some(existing)
      ensures Leaves(old(conns), old(history), old(calls[k]), won, conns, history)
    {
      var c := calls[k];
      won := false;
      if c.conn in conns && conns[c.conn].sagaId == Some(existing) {
        conns := conns[c.conn := conns[c.conn].(sagaId := Some(c.saga), startedAt := Some(c.now),
                                                trigger := Some(TriggerValue(c.origin)))];
        history := history + [Started(c.conn, c.saga, c.origin, c.now)];
        won := true;
      }
      calls := calls[k := c.(pc := if won then Done(Returned(c.saga, false)) else ReadingWinner(existing))];
    }

    /** Hands over the running saga's id and, for a manual caller, escalates its claim. */
    method DeferToRunningSaga(k: CallId, winner: SagaId)
      requires k in calls && calls[k].pc == Deferring(winner)
      modifies this`conns, this`history, this`calls
      ensures Snapshot() == Next(old(Snapshot()), Defer(k))
      ensures k in calls && calls[k].pc == Done(Returned(winner, true)) && calls[k].saga == old(calls[k].saga)
      ensures conns == Escalated(old(conns), old(calls[k]), winner)
    {
      var c := calls[k];
      if c.origin.Manual? {
        history := history + [Joined(c.conn, winner)];
        if c.conn in conns && conns[c.conn].sagaId == Some(winner) {
          conns := conns[c.conn := conns[c.conn].(trigger := Some(TriggerValue(Manual)))];
        }
      }
      calls := calls[k := c.(pc := Done(Returned(winner, true)))];
    }

    /** The effects of mark_sync_complete: claim, completion event and inbox row commit together. */
    method CommitCompletion(d: DeliveryId, at: int)
      requires d in deliveries && deliveries[d].phase.Checked?
      modifies this`conns, this`history, this`inbox, this`deliveries
      ensures Snapshot() == Next(old(Snapshot()), Commit(d, at))
      ensures Completes(old(Snapshot()), old(deliveries[d]), at, Snapshot())
    {
      var m := deliveries[d];
      if m.conn in conns && !(WellFormed(m.saga, m.step) && StepKey(m.saga, m.step) in inbox) {
        var row := conns[m.conn];
        var own := m.saga != "" && row.sagaId == Some(m.saga);
        var stamp := if own then ParseSyncTrigger(row.trigger) else Manual;
        var updated := row.(lastSyncedAt := Some(at));
        if own {
          updated := updated.(sagaId := None, startedAt := None, trigger := None);
        }
        conns := conns[m.conn := updated];
        history := history + [Completed(m.conn, m.saga, m.step, stamp, at)];
        if WellFormed(m.saga, m.step) {
          inbox := inbox + {StepKey(m.saga, m.step)};
        }
      }
      deliveries := deliveries[d := m.(phase := Handled)];
    }

    /** The database is where the trace leads, and call k, being me, stands at pc. */
    ghost predicate At(w0: World, trace: seq<Action>, k: CallId, me: Call, pc: Pc)
      reads this
    {
      Snapshot() == Run(w0, trace) && k in calls && calls[k] == me.(pc := pc)
    }

    /** Call k has just made the transaction a; other processes follow. */
    method AfterStep(
      ghost w0: World, ghost trace: seq<Action>, ghost a: Action, others: seq<Action>, ghost k: CallId,
      ghost uuid: SagaId)
      requires k in calls && Snapshot() == Next(Run(w0, trace), a)
      requires forall b :: b in others ==> Foreign(b, k, uuid)
      modifies this
      ensures Snapshot() == Run(w0, trace + [a] + others)
      ensures k in calls && calls[k] == old(calls[k])
      ensures uuid !in old(issued) ==> uuid !in issued
      ensures others == [] ==> Snapshot() == old(Snapshot())
    {
      ExtendTrace(w0, trace, a, others);
      ForeignRun(Snapshot(), others, k, uuid);
      Interfere(others);
    }

    method FirstClaim(k: CallId, ghost me: Call, others: seq<Action>, ghost w0: World, ghost soFar: seq<Action>)
      returns (won: bool, ghost trace: seq<Action>)
      requires At(w0, soFar, k, me, Claiming) && forall b :: b in others ==> Foreign(b, k, me.saga)
      modifies this
      ensures At(w0, trace, k, me, if won then Done(Returned(me.saga, false)) else ReadingClaim)
      ensures Extends(soFar, trace, k, me, others)
      ensures won <==> IsFree(old(conns), me, ttl)
      ensures others == [] ==> Leaves(old(conns), old(history), me, won, conns, history)
    {
      won := ClaimTransaction(k, ReadingClaim);
      AfterStep(w0, soFar, TryClaim(k), others, k, me.saga);
      trace := soFar + [TryClaim(k)] + others;
      ExtendsBy(soFar, TryClaim(k), others, k, me);
    }

    method SecondClaim(k: CallId, ghost me: Call, others: seq<Action>, ghost w0: World, ghost soFar: seq<Action>)
      returns (won: bool, ghost trace: seq<Action>)
      requires At(w0, soFar, k, me, Retrying) && forall b :: b in others ==> Foreign(b, k, me.saga)
      modifies this
      ensures At(w0, trace, k, me, if won then Done(Returned(me.saga, false)) else ReadingWinner(me.saga))
      ensures Extends(soFar, trace, k, me, others)
      ensures won <==> IsFree(old(conns), me, ttl)
      ensures others == [] ==> Leaves(old(conns), old(history), me, won, conns, history)
    {
      won := ClaimTransaction(k, ReadingWinner(calls[k].saga));
      AfterStep(w0, soFar, Retry(k), others, k, me.saga);
      trace := soFar + [Retry(k)] + others;
      ExtendsBy(soFar, Retry(k), others, k, me);
    }

    method ReadExistingClaim(k: CallId, ghost me: Call, others: seq<Action>, ghost w0: World, ghost soFar: seq<Action>)
      returns (claim: Option<SagaId>, ghost trace: seq<Action>)
      requires At(w0, soFar, k, me, ReadingClaim) && forall b :: b in others ==> Foreign(b, k, me.saga)
      modifies this
      ensures At(w0, trace, k, me, if claim.None? then Retrying else AskingStatus(claim.value))
      ensures Extends(soFar, trace, k, me, others)
      ensures claim == OwnerOf(old(conns), me.conn)
      ensures others == [] ==> conns == old(conns) && history == old(history)
    {
      var c := calls[k];
      claim := if c.conn in conns then conns[c.conn].sagaId else None;
      calls := calls[k := c.(pc := if claim.None? then Retrying else AskingStatus(claim.value))];
      AfterStep(w0, soFar, ReadClaim(k), others, k, me.saga);
      trace := soFar + [ReadClaim(k)] + others;
      ExtendsBy(soFar, ReadClaim(k), others, k, me);
    }

    /** Asks the saga service when a port is wired; its answer never lies about a saga being terminal. */
    method AskSagaStatus(
      k: CallId, ghost me: Call, existing: SagaId, answer: Option<string>, others: seq<Action>, ghost w0: World,
        ghost soFar: seq<Action>)
      returns (terminal: bool, ghost trace: seq<Action>)
      requires At(w0, soFar, k, me, AskingStatus(existing)) && forall b :: b in others ==> Foreign(b, k, me.saga)
      requires IsTerminal(answer) ==> Finished(existing) in history
      modifies this
      ensures At(w0, trace, k, me, if terminal then Stealing(existing) else Deferring(existing))
      ensures terminal ==> me.hasStatusPort
      ensures Extends(soFar, trace, k, me, others)
      ensures terminal <==> me.hasStatusPort && SaysTerminal(answer)
      ensures others == [] ==> conns == old(conns) && history == old(history)
    {
      var c := calls[k];
      var status := if c.hasStatusPort then answer else None;
      terminal := IsTerminal(status);
      calls := calls[k := c.(pc := if terminal then Stealing(existing) else Deferring(existing))];
      AfterStep(w0, soFar, AskStatus(k, status), others, k, me.saga);
      trace := soFar + [AskStatus(k, status)] + others;
      ExtendsBy(soFar, AskStatus(k, status), others, k, me);
    }

    method StealFrom(
      k: CallId, ghost me: Call, existing: SagaId, others: seq<Action>, ghost w0: World, ghost soFar: seq<Action>)
      returns (won: bool, ghost trace: seq<Action>)
      requires At(w0, soFar, k, me, Stealing(existing)) && forall b :: b in others ==> Foreign(b, k, me.saga)
      requires me.hasStatusPort
      modifies this
      ensures At(w0, trace, k, me, if won then Done(Returned(me.saga, false)) else ReadingWinner(existing))
      ensures Extends(soFar, trace, k, me, others)
      ensures won <==> OwnerOf(old(conns), me.conn) == Some(existing)
      ensures others == [] ==> Leaves(old(conns), old(history), me, won, conns, history)
    {
      won := StealTransaction(k, existing);
      AfterStep(w0, soFar, Steal(k), others, k, me.saga);
      trace := soFar + [Steal(k)] + others;
      ExtendsBy(soFar, Steal(k), others, k, me);
    }

    method DeferTo(
      k: CallId, ghost me: Call, winner: SagaId, others: seq<Action>, ghost w0: World, ghost soFar: seq<Action>)
      returns (ghost trace: seq<Action>)
      requires At(w0, soFar, k, me, Deferring(winner)) && forall b :: b in others ==> Foreign(b, k, me.saga)
      modifies this
      ensures At(w0, trace, k, me, Done(Returned(winner, true)))
      ensures Extends(soFar, trace, k, me, others)
      ensures others == [] ==> conns == Escalated(old(conns), me, winner)
    {
      DeferToRunningSaga(k, winner);
      AfterStep(w0, soFar, Defer(k), others, k, me.saga);
      trace := soFar + [Defer(k)] + others;
      ExtendsBy(soFar, Defer(k), others, k, me);
    }

    /** The claim was lost again: whoever holds it now, or the fallback when it is free. */
    method FindWinner(
      k: CallId, ghost me: Call, fallback: SagaId, others: seq<Action>, ghost w0: World, ghost soFar: seq<Action>)
      returns (winner: SagaId, ghost trace: seq<Action>)
      requires At(w0, soFar, k, me, ReadingWinner(fallback)) && forall b :: b in others ==> Foreign(b, k, me.saga)
      modifies this
      ensures At(w0, trace, k, me, Deferring(winner))
      ensures Extends(soFar, trace, k, me, others)
      ensures winner == if OwnerOf(old(conns), me.conn).Some? then OwnerOf(old(conns), me.conn).value else fallback
      ensures others == [] ==> conns == old(conns) && history == old(history)
    {
      var c := calls[k];
      var claim := if c.conn in conns then conns[c.conn].sagaId else None;
      winner := if claim.None? then fallback else claim.value;
      calls := calls[k := c.(pc := Deferring(winner))];
      AfterStep(w0, soFar, ReadWinner(k), others, k, me.saga);
      trace := soFar + [ReadWinner(k)] + others;
      ExtendsBy(soFar, ReadWinner(k), others, k, me);
    }

    /** The claim vanished: try once more, else find out who won. */
    method RetryClaim(k: CallId, ghost me: Call, env: nat -> seq<Action>, ghost w0: World, ghost soFar: seq<Action>)
      returns (won: bool, winner: SagaId, ghost trace: seq<Action>)
      requires At(w0, soFar, k, me, Retrying) && IsCallTrace(soFar, k, me, env)
      requires forall i: nat, a :: a in env(i) ==> Foreign(a, k, me.saga)
      modifies this
      ensures At(w0, trace, k, me, if won then Done(Returned(me.saga, false)) else Deferring(winner))
      ensures IsCallTrace(trace, k, me, env)
    {
      var own := calls[k].saga;
      winner := own;
      ghost var next;
      won, next := SecondClaim(k, me, env(4), w0, soFar);
      StillCallTrace(soFar, next, k, me, env, 4);
      trace := next;
      if !won {
        winner, trace := FindWinner(k, me, own, env(5), w0, next);
        StillCallTrace(next, trace, k, me, env, 5);
      }
    }

    /** The claim is held: steal it when its saga is terminal, else find out whom to defer to. */
    method StealOrDefer(
      k: CallId, ghost me: Call, existing: SagaId, env: nat -> seq<Action>,
        statusPort: (seq<Entry>, SagaId) -> Option<string>,
      ghost w0: World, ghost soFar: seq<Action>)
      returns (won: bool, winner: SagaId, ghost trace: seq<Action>)
      requires At(w0, soFar, k, me, AskingStatus(existing)) && IsCallTrace(soFar, k, me, env)
      requires forall i: nat, a :: a in env(i) ==> Foreign(a, k, me.saga)
      requires forall h, s :: IsTerminal(statusPort(h, s)) ==> Finished(s) in h
      modifies this
      ensures At(w0, trace, k, me, if won then Done(Returned(me.saga, false)) else Deferring(winner))
      ensures IsCallTrace(trace, k, me, env)
      ensures IsIdle(env) && OwnerOf(old(conns), me.conn) == Some(existing) ==>
                if me.hasStatusPort && SaysTerminal(statusPort(old(history), existing))
                then won && Leaves(old(conns), old(history), me, true, conns, history)
                else !won && winner == existing && conns == old(conns) && history == old(history)
    {
      won, winner := false, existing;
      var answer := statusPort(history, existing);
      var terminal;
      terminal, trace := AskSagaStatus(k, me, existing, answer, env(4), w0, soFar);
      StillCallTrace(soFar, trace, k, me, env, 4);
      if terminal {
        ghost var next;
        won, next := StealFrom(k, me, existing, env(5), w0, trace);
        StillCallTrace(trace, next, k, me, env, 5);
        trace := next;
        if !won {
          winner, trace := FindWinner(k, me, existing, env(6), w0, next);
          StillCallTrace(next, trace, k, me, env, 6);
        }
      }
    }

    /** Another claim is in flight: retry when it vanished, steal when its saga is terminal, else defer. */
    method ResolveConflict(
      k: CallId, ghost me: Call, env: nat -> seq<Action>, statusPort: (seq<Entry>, SagaId) -> Option<string>,
      ghost w0: World, ghost soFar: seq<Action>)
      returns (reply: SyncProtocol.Reply, ghost trace: seq<Action>)
      requires At(w0, soFar, k, me, ReadingClaim) && IsCallTrace(soFar, k, me, env)
      requires forall i: nat, a :: a in env(i) ==> Foreign(a, k, me.saga)
      requires forall h, s :: IsTerminal(statusPort(h, s)) ==> Finished(s) in h
      modifies this
      ensures At(w0, trace, k, me, Done(reply)) && reply.Returned? && IsCallTrace(trace, k, me, env)
      ensures IsIdle(env) && OwnerOf(old(conns), me.conn).Some? ==>
                var owner := OwnerOf(old(conns), me.conn).value;
                if me.hasStatusPort && SaysTerminal(statusPort(old(history), owner))
                then reply == Returned(me.saga, false) && Leaves(old(conns), old(history), me, true, conns, history)
                else reply == Returned(owner, true) && conns == Escalated(old(conns), me, owner)
    {
      var claim, won, winner;
      var own := calls[k].saga;
      claim, trace := ReadExistingClaim(k, me, env(3), w0, soFar);
      StillCallTrace(soFar, trace, k, me, env, 3);
      if claim.None? {
        won, winner, trace := RetryClaim(k, me, env, w0, trace);
      } else {
        won, winner, trace := StealOrDefer(k, me, claim.value, env, statusPort, w0, trace);
      }
      if won {
        reply := Returned(own, false);
      } else {
        ghost var before := trace;
        trace := DeferTo(k, me, winner, env(7), w0, before);
        StillCallTrace(before, trace, k, me, env, 7);
        reply := Returned(winner, true);
      }
    }

    method BeginCall(
      k: CallId, ghost me: Call, conn: ConnId, user: nat, origin: Trigger, hasStatusPort: bool, others: seq<Action>,
      ghost w0: World)
      returns (ghost trace: seq<Action>)
      requires Snapshot() == w0 && k !in calls && me.saga !in issued
      requires forall a :: a in others ==> Foreign(a, k, me.saga)
      modifies this
      ensures Snapshot() == Run(w0, trace) && k in calls && me.saga !in issued
      ensures calls[k] == Call(conn, user, origin, hasStatusPort, "", 0, Validating)
      ensures Extends([], trace, k, me, others)
      ensures others == [] ==> conns == old(conns) && history == old(history)
    {
      calls := calls[k := Call(conn, user, origin, hasStatusPort, "", 0, Validating)];
      ghost var begin := Begin(k, conn, user, origin, hasStatusPort);
      AfterStep(w0, [], begin, others, k, me.saga);
      trace := [] + [begin] + others;
      ExtendsBy([], begin, others, k, me);
    }

    method OpenCall(
      k: CallId, conn: ConnId, user: nat, origin: Trigger, hasStatusPort: bool,
      clock: int, accountResolved: bool, uuid: SagaId, now: int, env: nat -> seq<Action>, ghost w0: World)
      returns (error: Option<Error>, ghost trace: seq<Action>)
      requires Snapshot() == w0 && k !in calls && uuid != "" && uuid !in issued
      requires forall i: nat, a :: a in env(i) ==> Foreign(a, k, uuid)
      modifies this
      ensures Snapshot() == Run(w0, trace) && k in calls
      ensures IsCallTrace(trace, k, Call(conn, user, origin, hasStatusPort, uuid, now, Claiming), env)
      ensures error.None? ==> At(w0, trace, k, Call(conn, user, origin, hasStatusPort, uuid, now, Claiming), Claiming)
      ensures error.Some? ==>
                uuid !in issued && calls[k] == Call(conn, user, origin, hasStatusPort, "", 0, Done(Raised(error.value)))
      ensures IsIdle(env) ==> IsRefusal(old(conns), conn, user, clock, accountResolved, error)
      ensures IsIdle(env) ==> conns == old(conns) && history == old(history)
    {
      ghost var me := Call(conn, user, origin, hasStatusPort, uuid, now, Claiming);
      ghost var first := BeginCall(k, me, conn, user, origin, hasStatusPort, env(0), w0);
      StillCallTrace([], first, k, me, env, 0);
      error := ValidateCall(k, clock, accountResolved, uuid, now);
      ghost var validate := Validate(k, clock, accountResolved, uuid, now);
      AfterStep(w0, first, validate, env(1), k, uuid);
      trace := first + [validate] + env(1);
      ExtendsBy(first, validate, env(1), k, me);
      StillCallTrace(first, trace, k, me, env, 1);
    }

    /**
      start_sync_saga under interference: env(i) is what other processes do after the i-th transaction.
      The execution is a run of the protocol made of the call's own actions and its environment's, it steals
      only with a status port, and the reply says (id, False) exactly when the start event for the call's own
      id is in the outbox. A call that raises never draws its id.
    */
    method StartSyncSaga(
      k: CallId, conn: ConnId, user: nat, origin: Trigger, hasStatusPort: bool,
      clock: int, accountResolved: bool, uuid: SagaId, now: int,
      env: nat -> seq<Action>, statusPort: (seq<Entry>, SagaId) -> Option<string>)
      returns (reply: SyncProtocol.Reply, ghost trace: seq<Action>)
      requires Inv(Snapshot())
      requires k !in calls && uuid != "" && uuid !in issued
      requires forall i: nat, a :: a in env(i) ==> Foreign(a, k, uuid)
      requires forall h, s :: IsTerminal(statusPort(h, s)) ==> Finished(s) in h
      modifies this
      ensures Snapshot() == Run(old(Snapshot()), trace) && Inv(Snapshot())
      ensures IsCallTrace(trace, k, Call(conn, user, origin, hasStatusPort, uuid, now, Claiming), env)
      ensures k in calls && calls[k].pc == Done(reply)
      ensures reply.Returned? ==> calls[k] == Call(conn, user, origin, hasStatusPort, uuid, now, Done(reply))
      ensures reply.Raised? ==> uuid !in issued
      ensures reply.Raised? ==> calls[k] == Call(conn, user, origin, hasStatusPort, "", 0, Done(reply))
      ensures reply.Returned? ==> (!reply.alreadyRunning <==> HasStart(history, uuid))
      ensures reply.Returned? && !reply.alreadyRunning ==> reply.saga == uuid
      ensures reply.Returned? && reply.alreadyRunning ==> HasStart(history, reply.saga) || reply.saga == uuid
      ensures IsIdle(env) ==>
                var me := Call(conn, user, origin, hasStatusPort, uuid, now, Claiming);
                IsQuietAnswer(old(Snapshot()), me, clock, accountResolved, statusPort, reply, Snapshot())
    {
      ghost var w0 := Snapshot();
      ghost var me := Call(conn, user, origin, hasStatusPort, uuid, now, Claiming);
      var error;
      error, trace := OpenCall(k, conn, user, origin, hasStatusPort, clock, accountResolved, uuid, now, env, w0);
      if error.Some? {
        reply := Raised(error.value);
      } else {
        reply, trace := ClaimOrResolve(k, me, env, statusPort, w0, trace);
      }
      RunKeepsInv(w0, trace);
      if reply.Returned? { ReplyMatchesHistory(Snapshot(), k); }
    }

    /** Everything after validation. */
    method ClaimOrResolve(
      k: CallId, ghost me: Call, env: nat -> seq<Action>, statusPort: (seq<Entry>, SagaId) -> Option<string>,
      ghost w0: World, ghost soFar: seq<Action>)
      returns (reply: SyncProtocol.Reply, ghost trace: seq<Action>)
      requires At(w0, soFar, k, me, Claiming) && IsCallTrace(soFar, k, me, env)
      requires forall i: nat, a :: a in env(i) ==> Foreign(a, k, me.saga)
      requires forall h, s :: IsTerminal(statusPort(h, s)) ==> Finished(s) in h
      modifies this
      ensures At(w0, trace, k, me, Done(reply)) && reply.Returned? && IsCallTrace(trace, k, me, env)
      ensures IsIdle(env) && (IsFree(old(conns), me, ttl) || OwnerOf(old(conns), me.conn).Some?) ==>
                Resolves(old(Snapshot()), me, statusPort, reply, Snapshot())
    {
      var won;
      var own := calls[k].saga;
      won, trace := FirstClaim(k, me, env(2), w0, soFar);
      StillCallTrace(soFar, trace, k, me, env, 2);
      if won {
        reply := Returned(own, false);
      } else {
        reply, trace := ResolveConflict(k, me, env, statusPort, w0, trace);
      }
    }
  }

  lemma ReplyMatchesHistory(w: World, k: CallId)
    requires Inv(w) && k in w.calls && w.calls[k].pc.Done? && w.calls[k].pc.reply.Returned?
    ensures
      var c := w.calls[k];
      var reply := c.pc.reply;
      && (!reply.alreadyRunning <==> HasStart(w.history, c.saga))
      && (!reply.alreadyRunning ==> reply.saga == c.saga)
      && (reply.alreadyRunning ==> Known(w.history, c, reply.saga))
  {
    assert CallOk(w.history, w.issued, w.calls[k]);
  }
}
