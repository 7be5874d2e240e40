/**
  One sweep of the scheduled bank sync. It drives start_sync_saga for every due connection, without a status
  port, while other processes run between any two of its transactions.
*/
module SyncScheduler {
  import opened Common
  import opened BankConnections
  import opened SyncProtocol
  import opened SyncInvariant
  import opened SyncRows
  import opened SyncService

  /** A row the candidate query returned, as it was then. */
  datatype Found = Found(id: ConnId, row: Connection)

  /** What the i-th call draws and reads; broken says that its session fails before the call does anything. */
  datatype Input = Input(clock: int, accountResolved: bool, uuid: SagaId, now: int, broken: bool)

  datatype Class = NewSaga | AlreadyRunning | Expired | Failed

  datatype Counts = Counts(due: nat, started: nat, alreadyRunning: nat, consentExpired: nat, failed: nat)

  /** list_active_synced_before: never synced, or synced strictly before the cutoff. */
  predicate IsCandidate(c: Connection, now: int, everySeconds: nat) {
    IsActive(c) && (c.lastSyncedAt.None? || c.lastSyncedAt.value < now - everySeconds)
  }

  /** The query never lists a row that is not due, and the only active due row it leaves out was synced
      exactly at the cutoff instant. */
  lemma QueryMissesOnlyTheCutoffInstant(c: Connection, now: int, everySeconds: nat)
    requires IsActive(c)
    ensures IsCandidate(c, now, everySeconds) <==>
            IsSyncDue(c, now, everySeconds) && c.lastSyncedAt != Some(now - everySeconds)
  {
  }

  ghost predicate IsQueryResult(candidates: seq<Found>, conns: map<ConnId, Connection>, now: int, everySeconds: nat) {
    forall f :: f in candidates <==> f.id in conns && conns[f.id] == f.row && IsCandidate(f.row, now, everySeconds)
  }

  /** In every reachable state, a connection whose last completion was at some time is listed exactly when it is active
      and more than the interval has passed since. */
  lemma ListedAgainAfterTheInterval(ttl: int, actions: seq<Action>, c: ConnId, at: int, now: int, everySeconds: nat)
    requires
      var w := Run(Initial(ttl), actions);
      c in w.conns && LastCompletion(w.history, c) == Some(at)
    ensures
      var row := Run(Initial(ttl), actions).conns[c];
      IsCandidate(row, now, everySeconds) <==> row.status == "active" && now - at > everySeconds
  {
    SyncTimeIsLastCompletion(ttl, actions, c);
  }

  function ClassOf(reply: SyncProtocol.Reply): Class {
    match reply
    case Returned(_, alreadyRunning) => if alreadyRunning then AlreadyRunning else NewSaga
    case Raised(ConsentExpired) => Expired
    case Raised(_) => Failed
  }

  function Count(c: Counts, class_: Class): Counts {
    match class_
    case NewSaga => c.(started := c.started + 1)
    case AlreadyRunning => c.(alreadyRunning := c.alreadyRunning + 1)
    case Expired => c.(consentExpired := c.consentExpired + 1)
    case Failed => c.(failed := c.failed + 1)
  }

  function Tally(classes: seq<Class>, class_: Class): nat {
    if classes == [] then 0
    else Tally(classes[..|classes| - 1], class_) + if classes[|classes| - 1] == class_ then 1 else 0
  }

  ghost predicate Counted(c: Counts, classes: seq<Class>) {
    && c.started == Tally(classes, NewSaga) && c.alreadyRunning == Tally(classes, AlreadyRunning)
    && c.consentExpired == Tally(classes, Expired) && c.failed == Tally(classes, Failed)
    && c.started + c.alreadyRunning + c.consentExpired + c.failed == |classes|
  }

  lemma CountOne(c: Counts, classes: seq<Class>, class_: Class)
    requires Counted(c, classes)
    ensures Counted(Count(c, class_), classes + [class_])
  {
    assert (classes + [class_])[..|classes|] == classes;
  }

  type Environment = (nat, nat) -> seq<Action>

  /** Other processes advance none of the sweep's calls and draw none of its uuids. */
  ghost predicate LeavesAlone(env: Environment, base: CallId, input: nat -> Input) {
    forall i, j, a, k: nat, m: nat :: a in env(i, j) && k >= base ==> Foreign(a, k, input(m).uuid)
  }

  ghost predicate DistinctUuids(input: nat -> Input) {
    (forall i :: input(i).uuid != "") && forall i, j :: i != j ==> input(i).uuid != input(j).uuid
  }

  /** The consent of the row is over. */
  predicate IsPast(row: Connection, now: int) { row.expiresAt.Some? && now > row.expiresAt.value }

  /** What the database knows of the i-th connection once its turn is over. One with expired consent, and one whose
      session broke, made no call. Any other made a scheduled call for its owner, without a status port, which is
      over, and it is classed by what that call answered. */
  ghost predicate Recorded(w: World, f: Found, k: CallId, input: Input, now: int, class_: Class) {
    if IsPast(f.row, now) || input.broken then
      k !in w.calls && input.uuid !in w.issued && class_ == if IsPast(f.row, now) then Expired else Failed
    else IsOver(w, f, k, input, class_)
  }

  ghost predicate IsOver(w: World, f: Found, k: CallId, input: Input, class_: Class) {
    && k in w.calls && w.calls[k].pc.Done?
    && w.calls[k].conn == f.id && w.calls[k].user == f.row.userId
    && w.calls[k].origin == Scheduled && !w.calls[k].hasStatusPort
    && match w.calls[k].pc.reply
       case Returned(_, alreadyRunning) =>
         w.calls[k].saga == input.uuid && class_ == if alreadyRunning then AlreadyRunning else NewSaga
       case Raised(error) =>
         input.uuid !in w.issued && class_ == if error == ConsentExpired then Expired else Failed
  }

  /** The class of a connection nobody disturbs, from the row the query returned. */
  function QuietClass(f: Found, input: Input, now: int, ttl: int): Class {
    if IsPast(f.row, now) then Expired else if input.broken then Failed else CallClass(f, input, ttl)
  }

  function CallClass(f: Found, input: Input, ttl: int): Class {
    if IsPast(f.row, input.clock) then Expired
    else if !input.accountResolved then Failed
    else if f.row.startedAt.None? || input.now - f.row.startedAt.value > ttl then NewSaga
    else AlreadyRunning
  }

  /** The calls before i are over and recorded, those from i on have not begun. */
  ghost predicate Swept(
    w: World, due: seq<Found>, base: CallId, input: nat -> Input, now: int, i: nat, classes: seq<Class>)
    requires i <= |due|
  {
    && |classes| == i
    && (forall k :: k in w.calls ==> k < base + i)
    && (forall j :: j >= i ==> input(j).uuid !in w.issued)
    && (forall j :: 0 <= j < i ==> Recorded(w, due[j], base + j, input(j), now, classes[j]))
  }

  /** Actions that leave call k and a uuid alone keep what is recorded about them. */
  lemma RecordedStays(w: World, actions: seq<Action>, f: Found, k: CallId, input: Input, now: int, class_: Class)
    requires Recorded(w, f, k, input, now, class_) && forall a :: a in actions ==> Foreign(a, k, input.uuid)
    ensures Recorded(Run(w, actions), f, k, input, now, class_)
  {
    ForeignRun(w, actions, k, input.uuid);
  }

  function CallFor(f: Found, input: Input): Call {
    Call(f.id, f.row.userId, Scheduled, false, input.uuid, input.now, Claiming)
  }

  /** Another call, or another uuid, is none of the i-th call's business. */
  lemma TraceIsForeign(
    trace: seq<Action>, f: Found, base: CallId, i: nat, input: nat -> Input, env: Environment, k: CallId, uuid: SagaId)
    requires LeavesAlone(env, base, input) && IsCallTrace(trace, base + i, CallFor(f, input(i)), (j: nat) => env(i, j))
    requires k >= base && k != base + i && uuid != input(i).uuid && exists m: nat :: input(m).uuid == uuid
    ensures forall a :: a in trace ==> Foreign(a, k, uuid)
  {
    var m: nat :| input(m).uuid == uuid;
    forall a | a in trace ensures Foreign(a, k, uuid) {
      if !IsOwn(a, base + i, CallFor(f, input(i))) {
        var j: nat :| a in env(i, j);
        assert Foreign(a, k, input(m).uuid);
      }
    }
  }

  /** The i-th call is over, having made the trace: the sweep moves on. */
  lemma SweptNext(
    w: World, trace: seq<Action>, due: seq<Found>, base: CallId, i: nat, input: nat -> Input, env: Environment,
    now: int, classes: seq<Class>, class_: Class)
    requires i < |due| && Swept(w, due, base, input, now, i, classes) && DistinctUuids(input) &&
        LeavesAlone(env, base, input)
    requires IsCallTrace(trace, base + i, CallFor(due[i], input(i)), (j: nat) => env(i, j))
    requires Recorded(Run(w, trace), due[i], base + i, input(i), now, class_)
    ensures Swept(Run(w, trace), due, base, input, now, i + 1, classes + [class_])
  {
    var w' := Run(w, trace);
    forall k | k in w'.calls ensures k < base + i + 1 {
      if k > base + i {
        TraceIsForeign(trace, due[i], base, i, input, env, k, input(i + 1).uuid);
        ForeignRun(w, trace, k, input(i + 1).uuid);
      }
    }
    forall j | j >= i + 1 ensures input(j).uuid !in w'.issued {
      TraceIsForeign(trace, due[i], base, i, input, env, base + j, input(j).uuid);
      ForeignRun(w, trace, base + j, input(j).uuid);
    }
    forall j | 0 <= j < i ensures Recorded(w', due[j], base + j, input(j), now, classes[j]) {
      TraceIsForeign(trace, due[i], base, i, input, env, base + j, input(j).uuid);
      RecordedStays(w, trace, due[j], base + j, input(j), now, classes[j]);
    }
  }

  /** A new saga is counted exactly when its start event is in the outbox, and that event is a scheduled one. */
  ghost predicate StartsCounted(w: World, due: seq<Found>, input: nat -> Input, classes: seq<Class>)
    requires |classes| == |due|
  {
    forall i :: 0 <= i < |due| ==>
      && (classes[i].NewSaga? <==> HasStart(w.history, input(i).uuid))
      && (classes[i].NewSaga? <==> StartedBy(w.history, due[i].id, input(i).uuid, Scheduled))
  }

  lemma RecordedStart(w: World, f: Found, k: CallId, input: Input, now: int, class_: Class)
    requires Inv(w) && Recorded(w, f, k, input, now, class_) && input.uuid != ""
    ensures class_.NewSaga? <==> HasStart(w.history, input.uuid)
    ensures class_.NewSaga? <==> StartedBy(w.history, f.id, input.uuid, Scheduled)
  {
    if input.uuid in w.issued {
      ReplyMatchesHistory(w, k);
      assert CallOk(w.history, w.issued, w.calls[k]);
    }
  }

  /** The actions of the sweep's own calls never steal. */
  ghost predicate NeverSteals(trace: seq<Action>, base: CallId) { forall a :: a in trace && a.Steal? ==> a.k < base }

  lemma CallNeverSteals(trace: seq<Action>, f: Found, base: CallId, i: nat, input: nat -> Input, env: Environment)
    requires LeavesAlone(env, base, input) && IsCallTrace(trace, base + i, CallFor(f, input(i)), (j: nat) => env(i, j))
    ensures NeverSteals(trace, base)
  {
    forall a | a in trace && a.Steal? ensures a.k < base {
      assert !IsOwn(a, base + i, CallFor(f, input(i)));
      var j: nat :| a in env(i, j);
      assert a.k >= base ==> Foreign(a, a.k, input(0).uuid);
    }
  }

  /** The i-th turn is undisturbed, and the row is still what the query returned. */
  ghost predicate IsQuietTurn(conns: map<ConnId, Connection>, f: Found, env: Environment, i: nat) {
    f.id in conns && conns[f.id] == f.row && f.row.status == "active" && forall j: nat :: env(i, j) == []
  }

  /** One connection: skipped when its consent is over, else one scheduled call for its owner. */
  method SyncOne(db: Database, f: Found, now: int, base: CallId, i: nat, input: nat -> Input, env: Environment)
    returns (class_: Class, ghost trace: seq<Action>)
    requires Inv(db.Snapshot()) && base + i !in db.calls && input(i).uuid != "" && input(i).uuid !in db.issued
    requires LeavesAlone(env, base, input)
    modifies db
    ensures db.Snapshot() == Run(old(db.Snapshot()), trace) && Inv(db.Snapshot())
    ensures IsCallTrace(trace, base + i, CallFor(f, input(i)), (j: nat) => env(i, j))
    ensures Recorded(db.Snapshot(), f, base + i, input(i), now, class_)
    ensures IsPast(f.row, now) || input(i).broken ==> trace == []
    ensures IsQuietTurn(old(db.conns), f, env, i) ==> class_ == QuietClass(f, input(i), now, db.ttl)
    ensures IsQuietTurn(old(db.conns), f, env, i) ==> OnlyRow(old(db.conns), db.conns, f.id)
  {
    trace := [];
    if IsExpiredAt(f.row, now) {
      class_ := Expired;
    } else if input(i).broken {
      class_ := Failed;
    } else {
      class_, trace := CallOne(db, f, base, i, input, env);
    }
  }

  /** The call itself. */
  method CallOne(db: Database, f: Found, base: CallId, i: nat, input: nat -> Input, env: Environment)
    returns (class_: Class, ghost trace: seq<Action>)
    requires Inv(db.Snapshot()) && base + i !in db.calls && input(i).uuid != "" && input(i).uuid !in db.issued
    requires LeavesAlone(env, base, input)
    modifies db
    ensures db.Snapshot() == Run(old(db.Snapshot()), trace) && Inv(db.Snapshot())
    ensures IsCallTrace(trace, base + i, CallFor(f, input(i)), (j: nat) => env(i, j))
    ensures IsOver(db.Snapshot(), f, base + i, input(i), class_)
    ensures IsQuietTurn(old(db.conns), f, env, i) ==> class_ == CallClass(f, input(i), db.ttl)
    ensures IsQuietTurn(old(db.conns), f, env, i) ==> OnlyRow(old(db.conns), db.conns, f.id)
  {
    var own := (j: nat) => env(i, j);
    forall j: nat, a | a in own(j) ensures Foreign(a, base + i, input(i).uuid) { assert a in env(i, j); }
    var reply;
    reply, trace := db.StartSyncSaga(
      base + i, f.id, f.row.userId, Scheduled, false, input(i).clock, input(i).accountResolved, input(i).uuid,
      input(i).now, own, (h, s) => None);
    class_ := ClassOf(reply);
    if IsQuietTurn(old(db.conns), f, env, i) {
      assert IsIdle(own);
      QuietAnswerClass(old(db.Snapshot()), f, input(i), reply, db.Snapshot());
    }
  }

  lemma QuietAnswerClass(w: World, f: Found, input: Input, reply: SyncProtocol.Reply, w': World)
    requires f.id in w.conns && w.conns[f.id] == f.row && f.row.status == "active"
    requires IsQuietAnswer(w, CallFor(f, input), input.clock, input.accountResolved, (h, s) => None, reply, w')
    ensures ClassOf(reply) == CallClass(f, input, w.ttl) && OnlyRow(w.conns, w'.conns, f.id)
  {
  }

  /** No row but this one changes. */
  ghost predicate OnlyRow(conns: map<ConnId, Connection>, conns': map<ConnId, Connection>, id: ConnId) {
    forall c :: c != id && c in conns ==> c in conns' && conns'[c] == conns[c]
  }

  /**
    Every candidate is due, so the entity filter keeps all of them. Each due connection is counted in exactly one
    class; a saga is counted as started exactly when the outbox holds its start event, which is a scheduled one;
    and the sweep never steals a claim.
  */
  method RunOnce(
    db: Database, candidates: seq<Found>, now: int, everySeconds: nat, base: CallId, input: nat -> Input,
      env: Environment)
    returns (counts: Counts, ghost trace: seq<Action>, ghost classes: seq<Class>)
    requires Inv(db.Snapshot()) && IsQueryResult(candidates, db.conns, now, everySeconds)
    requires (forall k :: k in db.calls ==> k < base) && forall i :: input(i).uuid !in db.issued
    requires DistinctUuids(input) && LeavesAlone(env, base, input)
    modifies db
    ensures db.Snapshot() == Run(old(db.Snapshot()), trace) && Inv(db.Snapshot())
    ensures counts.due == |candidates| == |classes| && Counted(counts, classes)
    ensures AllRecorded(db.Snapshot(), candidates, base, input, now, classes)
    ensures StartsCounted(db.Snapshot(), candidates, input, classes)
    ensures IsAlone(env) && DistinctRows(candidates) ==> AllQuiet(candidates, input, now, db.ttl, classes)
    ensures NeverSteals(trace, base)
  {
    assert AllThere(db.conns, candidates, 0) by { QueriedAreThere(candidates, db.conns, now, everySeconds); }
    var due := DueOf(candidates, now, everySeconds);
    assert due == candidates by { AllDue(candidates, db.conns, now, everySeconds); }
    counts, trace, classes := SyncAll(db, due, now, base, input, env);
    assert AllRecorded(db.Snapshot(), candidates, base, input, now, classes);
    assert StartsCounted(db.Snapshot(), candidates, input, classes) by {
      AllStartsCounted(db.Snapshot(), candidates, base, input, now, classes);
    }
  }

  ghost predicate AllRecorded(
    w: World, due: seq<Found>, base: CallId, input: nat -> Input, now: int, classes: seq<Class>)
  {
    |classes| == |due| && forall i :: 0 <= i < |due| ==> Recorded(w, due[i], base + i, input(i), now, classes[i])
  }

  lemma QueriedAreThere(candidates: seq<Found>, conns: map<ConnId, Connection>, now: int, everySeconds: nat)
    requires IsQueryResult(candidates, conns, now, everySeconds)
    ensures AllThere(conns, candidates, 0)
  {
    forall j | 0 <= j < |candidates|
      ensures candidates[j].id in conns && conns[candidates[j].id] == candidates[j].row &&
          candidates[j].row.status == "active"
    {
      assert candidates[j] in candidates;
    }
  }

  /** What an undisturbed sweep has found before connection i. */
  ghost predicate QuietSoFar(
    conns: map<ConnId, Connection>, due: seq<Found>, i: nat, input: nat -> Input, now: int, ttl: int,
      classes: seq<Class>)
  {
    |classes| == i && AllThere(conns, due, i) && AllQuiet(due, input, now, ttl, classes)
  }

  lemma QuietNext(
    conns: map<ConnId, Connection>, conns': map<ConnId, Connection>, due: seq<Found>, i: nat, input: nat -> Input,
    now: int, ttl: int, classes: seq<Class>, class_: Class)
    requires i < |due| && QuietSoFar(conns, due, i, input, now, ttl, classes) && DistinctRows(due)
    requires OnlyRow(conns, conns', due[i].id) && class_ == QuietClass(due[i], input(i), now, ttl)
    ensures QuietSoFar(conns', due, i + 1, input, now, ttl, classes + [class_])
  {
  }

  /** No other process acts during the sweep. */
  ghost predicate IsAlone(env: Environment) { forall i: nat, j: nat :: env(i, j) == [] }

  ghost predicate DistinctRows(due: seq<Found>) { forall i, j :: 0 <= i < j < |due| ==> due[i].id != due[j].id }

  /** From i on the rows are still what the query returned. */
  ghost predicate AllThere(conns: map<ConnId, Connection>, due: seq<Found>, i: nat) {
    forall j :: i <= j < |due| ==> due[j].id in conns && conns[due[j].id] == due[j].row && due[j].row.status == "active"
  }

  ghost predicate AllQuiet(due: seq<Found>, input: nat -> Input, now: int, ttl: int, classes: seq<Class>) {
    forall i :: 0 <= i < |due| && i < |classes| ==> classes[i] == QuietClass(due[i], input(i), now, ttl)
  }

  lemma AllStartsCounted(
    w: World, due: seq<Found>, base: CallId, input: nat -> Input, now: int, classes: seq<Class>)
    requires Inv(w) && DistinctUuids(input) && AllRecorded(w, due, base, input, now, classes)
    ensures StartsCounted(w, due, input, classes)
  {
    forall i | 0 <= i < |due|
      ensures classes[i].NewSaga? <==> HasStart(w.history, input(i).uuid)
      ensures classes[i].NewSaga? <==> StartedBy(w.history, due[i].id, input(i).uuid, Scheduled)
    {
      RecordedStart(w, due[i], base + i, input(i), now, classes[i]);
    }
  }

  /** The loop over the due connections. */
  method SyncAll(db: Database, due: seq<Found>, now: int, base: CallId, input: nat -> Input, env: Environment)
    returns (counts: Counts, ghost trace: seq<Action>, ghost classes: seq<Class>)
    requires Inv(db.Snapshot()) && Swept(db.Snapshot(), due, base, input, now, 0, [])
    requires DistinctUuids(input) && LeavesAlone(env, base, input)
    modifies db
    ensures db.Snapshot() == Run(old(db.Snapshot()), trace) && Inv(db.Snapshot())
    ensures AllRecorded(db.Snapshot(), due, base, input, now, classes)
    ensures counts.due == |due| && Counted(counts, classes) && NeverSteals(trace, base)
    ensures IsAlone(env) && DistinctRows(due) && AllThere(old(db.conns), due, 0) ==>
              AllQuiet(due, input, now, db.ttl, classes)
  {
    trace, classes := [], [];
    ghost var w0 := db.Snapshot();
    ghost var quiet := IsAlone(env) && DistinctRows(due) && AllThere(db.conns, due, 0);
    counts := Counts(|due|, 0, 0, 0, 0);
    for i := 0 to |due|
      invariant db.Snapshot() == Run(w0, trace) && Inv(db.Snapshot())
      invariant Swept(db.Snapshot(), due, base, input, now, i, classes)
      invariant counts.due == |due| && Counted(counts, classes)
      invariant NeverSteals(trace, base)
      invariant quiet ==> QuietSoFar(db.conns, due, i, input, now, db.ttl, classes)
    {
      ghost var w, rest, before := db.Snapshot(), [], db.conns;
      var class_;
      assert quiet ==> IsQuietTurn(db.conns, due[i], env, i);
      class_, rest := SyncOne(db, due[i], now, base, i, input, env);
      assert Swept(db.Snapshot(), due, base, input, now, i + 1, classes + [class_]) by {
        SweptNext(w, rest, due, base, i, input, env, now, classes, class_);
      }
      assert NeverSteals(trace + rest, base) by { CallNeverSteals(rest, due[i], base, i, input, env); }
      RunAppend(w0, trace, rest);
      if quiet { QuietNext(before, db.conns, due, i, input, now, db.ttl, classes, class_); }
      assert Counted(Count(counts, class_), classes + [class_]) by { CountOne(counts, classes, class_); }
      counts, classes, trace := Count(counts, class_), classes + [class_], trace + rest;
    }
  }

  function DueOf(candidates: seq<Found>, now: int, everySeconds: nat): seq<Found> {
    if candidates == [] then []
    else
      var n := |candidates| - 1;
      DueOf(candidates[..n], now, everySeconds) + if IsSyncDue(candidates[n].row, now, everySeconds)
        then [candidates[n]] else []
  }

  lemma AllDue(candidates: seq<Found>, conns: map<ConnId, Connection>, now: int, everySeconds: nat)
    requires IsQueryResult(candidates, conns, now, everySeconds)
    ensures DueOf(candidates, now, everySeconds) == candidates
  {
    forall f | f in candidates ensures IsSyncDue(f.row, now, everySeconds) {
      QueryMissesOnlyTheCutoffInstant(f.row, now, everySeconds);
    }
    NoneFiltered(candidates, now, everySeconds);
  }

  lemma {:induction false} NoneFiltered(candidates: seq<Found>, now: int, everySeconds: nat)
    requires forall f :: f in candidates ==> IsSyncDue(f.row, now, everySeconds)
    ensures DueOf(candidates, now, everySeconds) == candidates
  {
    if candidates == [] {
    } else {
      var n := |candidates| - 1;
      NoneFiltered(candidates[..n], now, everySeconds);
      assert candidates == candidates[..n] + [candidates[n]];
    }
  }
}
