/** Exactly-once effect of mark_sync_complete under redelivery and concurrent deliveries. */
module SyncInbox {
  import opened Common
  import opened BankConnections
  import opened SyncProtocol

  /** The inbox key of a completion event, None when the command carried none. */
  function KeyOf(e: Entry): Option<string> {
    if e.Completed? && WellFormed(e.saga, e.step) then Some(StepKey(e.saga, e.step)) else None
  }

  ghost predicate KeysOk(inbox: set<string>, h: seq<Entry>) {
    && (forall key :: key in inbox <==> exists e :: e in h && KeyOf(e) == Some(key))
    && (forall i, j :: 0 <= i < j < |h| && KeyOf(h[i]).Some? ==> KeyOf(h[i]) != KeyOf(h[j]))
  }

  ghost predicate RetriesOk(m: Delivery) {
    m.retries <= MAX_RETRIES && (m.phase == Replied(false) ==> m.retries == MAX_RETRIES)
  }

  ghost predicate InboxOk(w: World) {
    && KeysOk(w.inbox, w.history)
    && AllRetriesOk(w)
  }

  ghost predicate AllRetriesOk(w: World) { forall d :: d in w.deliveries ==> RetriesOk(w.deliveries[d]) }

  /** An entry without a key changes neither the inbox nor what it records. */
  lemma KeylessEntry(w: World, w': World, e: Entry)
    requires KeysOk(w.inbox, w.history) && KeyOf(e).None?
    requires w'.history == w.history + [e] && w'.inbox == w.inbox
    ensures KeysOk(w'.inbox, w'.history)
  {
    forall x | x in w.history ensures x in w'.history {}
  }

  lemma CommitKeepsInbox(w: World, d: DeliveryId, at: int)
    requires InboxOk(w) && d in w.deliveries && w.deliveries[d].phase.Checked?
    ensures InboxOk(CommitStep(w, d, at))
  {
    var m := w.deliveries[d];
    var w' := CommitStep(w, d, at);
    if m.conn in w.conns && !IsDuplicate(w, m) {
      var e := Completed(m.conn, m.saga, m.step, CompletionStamp(w.conns[m.conn], m.saga), at);
      assert w'.history == w.history + [e];
      assert e in w'.history;
      forall x | x in w.history ensures x in w'.history {}
      forall i | 0 <= i < |w.history| ensures w.history[i] in w.history {}
    }
  }

  lemma BookkeepingKeepsInbox(w: World, a: Action)
    requires InboxOk(w) && (a.Check? || a.Commit? || a.Reply? || a.Fail? || a.Deliver?)
    requires a.Commit? && a.d in w.deliveries ==> !w.deliveries[a.d].phase.Checked?
    ensures InboxOk(Next(w, a))
  {
    var w' := Next(w, a);
    assert w'.history == w.history && w'.inbox == w.inbox;
    BookkeepingKeepsRetries(w, a);
  }

  lemma PhaseKeepsRetries(w: World, d: DeliveryId, phase: Phase)
    requires d in w.deliveries && AllRetriesOk(w) &&
        (phase == Replied(false) ==> w.deliveries[d].retries == MAX_RETRIES)
    ensures AllRetriesOk(SetPhase(w, d, phase))
  {
    forall e | e in w.deliveries ensures RetriesOk(SetPhase(w, d, phase).deliveries[e]) {
      assert RetriesOk(w.deliveries[e]);
    }
  }

  lemma FailKeepsRetries(w: World, d: DeliveryId, again: DeliveryId)
    requires d in w.deliveries && again !in w.deliveries && AllRetriesOk(w)
    ensures AllRetriesOk(FailStep(w, d, again))
  {
    assert RetriesOk(w.deliveries[d]);
    PhaseKeepsRetries(w, d, if w.deliveries[d].retries >= MAX_RETRIES then Replied(false) else Republished);
  }

  lemma DeliveryKeepsRetries(w: World, d: DeliveryId, a: Action)
    requires d in w.deliveries && AllRetriesOk(w)
    ensures AllRetriesOk(DeliveryStep(w, d, a))
  {
    if a.Fail? {
      if a.again !in w.deliveries {
        FailKeepsRetries(w, d, a.again);
      }
    } else {
      var m := w.deliveries[d];
      PhaseKeepsRetries(w, d, Handled);
      PhaseKeepsRetries(w, d, Checked);
      PhaseKeepsRetries(w, d, Replied(true));
      assert DeliveryStep(w, d, a).deliveries in
             {w.deliveries, SetPhase(w, d, Handled).deliveries, SetPhase(w, d, Checked).deliveries,
               SetPhase(w, d, Replied(true)).deliveries};
    }
  }

  lemma BookkeepingKeepsRetries(w: World, a: Action)
    requires AllRetriesOk(w) && (a.Check? || a.Commit? || a.Reply? || a.Fail? || a.Deliver?)
    ensures AllRetriesOk(Next(w, a))
  {
    if a.Deliver? {
      forall d | d in Next(w, a).deliveries ensures RetriesOk(Next(w, a).deliveries[d]) {
        if d in w.deliveries { assert RetriesOk(w.deliveries[d]); }
      }
    } else if a.d in w.deliveries {
      DeliveryKeepsRetries(w, a.d, a);
    }
  }

  lemma NextKeepsInbox(w: World, a: Action)
    requires InboxOk(w)
    ensures InboxOk(Next(w, a))
  {
    var w' := Next(w, a);
    if a.Commit? && a.d in w.deliveries && w.deliveries[a.d].phase.Checked? {
      CommitKeepsInbox(w, a.d, a.at);
    } else if a.Check? || a.Commit? || a.Reply? || a.Fail? || a.Deliver? {
      BookkeepingKeepsInbox(w, a);
    } else {
      OtherEntries(w, a);
      if w'.history != w.history {
        KeylessEntry(w, w', w'.history[|w.history|]);
      }
    }
  }

  /** Inbox and deliveries stay, and at most one entry without a key is appended. */
  ghost predicate Keyless(w: World, w': World) {
    && w'.inbox == w.inbox && w'.deliveries == w.deliveries
    && (|| w'.history == w.history
        || (|w'.history| == |w.history| + 1 && w'.history == w.history + [w'.history[|w.history|]] &&
            KeyOf(w'.history[|w.history|]).None?))
  }

  lemma ClaimIsKeyless(w: World, k: CallId, lost: Pc)
    requires k in w.calls
    ensures Keyless(w, ClaimStep(w, k, lost))
  {
  }

  lemma StealIsKeyless(w: World, k: CallId, existing: SagaId)
    requires k in w.calls
    ensures Keyless(w, StealStep(w, k, existing))
  {
  }

  lemma DeferIsKeyless(w: World, k: CallId, winner: SagaId)
    requires k in w.calls
    ensures Keyless(w, DeferStep(w, k, winner))
  {
  }

  lemma CallIsKeyless(w: World, k: CallId, a: Action)
    requires k in w.calls
    ensures Keyless(w, CallStep(w, k, a))
  {
    match w.calls[k].pc
    case Claiming => ClaimIsKeyless(w, k, ReadingClaim);
    case Retrying => ClaimIsKeyless(w, k, ReadingWinner(w.calls[k].saga));
    case Stealing(existing) => StealIsKeyless(w, k, existing);
    case Deferring(winner) => DeferIsKeyless(w, k, winner);
    case _ =>
  }

  lemma OtherEntries(w: World, a: Action)
    requires !(a.Check? || a.Commit? || a.Reply? || a.Fail? || a.Deliver?)
    ensures Keyless(w, Next(w, a))
  {
    if a.Validate? || a.TryClaim? || a.ReadClaim? || a.Retry? || a.AskStatus? || a.Steal? || a.ReadWinner? || a.Defer? {
      if a.k in w.calls {
        CallIsKeyless(w, a.k, a);
      }
    }
  }

  lemma {:induction false} RunKeepsInbox(w: World, actions: seq<Action>)
    requires InboxOk(w)
    ensures InboxOk(Run(w, actions))
  {
    if actions == [] {
    } else {
      RunKeepsInbox(w, actions[..|actions| - 1]);
      NextKeepsInbox(Run(w, actions[..|actions| - 1]), actions[|actions| - 1]);
    }
  }

  // ----- theorems over all runs -----

  /** Each well-formed (saga_id, step_name) yields at most one completion event. */
  lemma AtMostOneCompletion(ttl: int, actions: seq<Action>, i: nat, j: nat)
    requires
      var h := Run(Initial(ttl), actions).history;
      && i < |h| && j < |h| && h[i].Completed? && h[j].Completed?
      && h[i].saga == h[j].saga && h[i].step == h[j].step && WellFormed(h[i].saga, h[i].step)
    ensures i == j
  {
    RunKeepsInbox(Initial(ttl), actions);
  }

  /** A completion event with a key exists exactly when its inbox row exists. */
  lemma EventIffInboxRow(ttl: int, actions: seq<Action>, key: string)
    ensures
      var w := Run(Initial(ttl), actions);
      key in w.inbox <==> exists e :: e in w.history && KeyOf(e) == Some(key)
  {
    RunKeepsInbox(Initial(ttl), actions);
  }

  /** A delivery is attempted at most four times, and the saga hears failure only after the fourth. */
  lemma RetriesAreBounded(ttl: int, actions: seq<Action>, d: DeliveryId)
    requires d in Run(Initial(ttl), actions).deliveries
    ensures
      var m := Run(Initial(ttl), actions).deliveries[d];
      m.retries <= 3 && (m.phase == Replied(false) ==> m.retries == 3)
  {
    RunKeepsInbox(Initial(ttl), actions);
  }

  /** A delivery that fails is published again with one more retry, or after three is answered with failure. Neither
      writes anything. */
  lemma FailureRepublishes(w: World, d: DeliveryId, again: DeliveryId)
    requires d in w.deliveries && again !in w.deliveries && Unreplied(w.deliveries[d])
    ensures
      var m, w' := w.deliveries[d], Next(w, Fail(d, again));
      && w'.conns == w.conns && w'.history == w.history && w'.inbox == w.inbox
      && d in w'.deliveries
      && if m.retries < 3 then
           again in w'.deliveries && w'.deliveries[again] == Delivery(m.conn, m.saga, m.step, m.retries + 1, Arrived)
         else again !in w'.deliveries && w'.deliveries[d].phase == Replied(false)
  {
  }

  predicate Unreplied(m: Delivery) { m.phase.Arrived? || m.phase.Checked? || m.phase.Handled? }

  function Handle(d: DeliveryId, at: int): seq<Action> { [Check(d), Commit(d, at), Reply(d)] }

  lemma RunHandle(w: World, d: DeliveryId, at: int)
    ensures Run(w, Handle(d, at)) == Next(Next(Next(w, Check(d)), Commit(d, at)), Reply(d))
  {
    var acts := Handle(d, at);
    assert acts[..2] == [Check(d), Commit(d, at)];
    assert acts[..2][..1] == [Check(d)];
    assert acts[..2][..1][..0] == [];
    assert Run(w, acts[..2][..1]) == Next(w, Check(d));
    assert Run(w, acts[..2]) == Next(Run(w, acts[..2][..1]), Commit(d, at));
  }

  lemma CheckAnswers(w: World, d: DeliveryId)
    requires d in w.deliveries && w.deliveries[d].phase.Arrived?
    ensures Next(w, Check(d)) == SetPhase(w, d, if IsDuplicate(w, w.deliveries[d]) then Handled else Checked)
  {
  }

  lemma HandledIsAnswered(w: World, d: DeliveryId)
    requires d in w.deliveries && w.deliveries[d].phase.Handled?
    ensures Next(w, Reply(d)) == SetPhase(w, d, Replied(true))
  {
  }

  // ----- duplicates, whatever happens around them -----

  /** How far a handler that does not fail has got. */
  function Progress(phase: Phase): int {
    match phase
    case Arrived => 0
    case Checked => 1
    case Handled => 2
    case Replied(true) => 3
    case _ => -1
  }

  /** Delivery d of the command (saga, step) is a duplicate that has not failed and has got at least so far. */
  ghost predicate IsDuplicateAt(w: World, d: DeliveryId, saga: SagaId, step: string, progress: nat) {
    && d in w.deliveries && w.deliveries[d].saga == saga && w.deliveries[d].step == step
    && IsDuplicate(w, w.deliveries[d]) && Progress(w.deliveries[d].phase) >= progress
  }

  predicate FailsDelivery(a: Action, d: DeliveryId) { a.Fail? && a.d == d }

  predicate IsDelivery(a: Action) { a.Check? || a.Commit? || a.Reply? || a.Fail? || a.Deliver? }

  lemma InboxGrows(w: World, a: Action)
    ensures w.inbox <= Next(w, a).inbox
  {
    if !IsDelivery(a) {
      OtherEntries(w, a);
    }
  }

  /** Nothing but its own failure sets a duplicate back. */
  lemma StepKeepsDuplicate(w: World, a: Action, d: DeliveryId, saga: SagaId, step: string, progress: nat)
    requires IsDuplicateAt(w, d, saga, step, progress) && !FailsDelivery(a, d)
    ensures IsDuplicateAt(Next(w, a), d, saga, step, progress)
  {
    InboxGrows(w, a);
    if !IsDelivery(a) {
      OtherEntries(w, a);
    } else if !a.Deliver? && a.d in w.deliveries {
      DeliveryKeepsDuplicate(w, a.d, a, d, saga, step, progress);
    }
  }

  lemma DeliveryKeepsDuplicate(
    w: World, e: DeliveryId, a: Action, d: DeliveryId, saga: SagaId, step: string, progress: nat)
    requires e in w.deliveries && IsDuplicateAt(w, d, saga, step, progress) && (a.Fail? ==> e != d)
    ensures
      var w' := DeliveryStep(w, e, a);
      && d in w'.deliveries && w'.deliveries[d].saga == saga && w'.deliveries[d].step == step
      && Progress(w'.deliveries[d].phase) >= progress
  {
  }

  lemma {:induction false} RunKeepsDuplicate(
    w: World, actions: seq<Action>, d: DeliveryId, saga: SagaId, step: string, progress: nat)
    requires IsDuplicateAt(w, d, saga, step, progress) && forall a :: a in actions ==> !FailsDelivery(a, d)
    ensures IsDuplicateAt(Run(w, actions), d, saga, step, progress)
  {
    if actions == [] {
    } else {
      RunKeepsDuplicate(w, actions[..|actions| - 1], d, saga, step, progress);
      StepKeepsDuplicate(Run(w, actions[..|actions| - 1]), actions[|actions| - 1], d, saga, step, progress);
    }
  }

  /** Rows, outbox and inbox are as they were. */
  ghost predicate WritesNothing(w: World, w': World) {
    w'.conns == w.conns && w'.history == w.history && w'.inbox == w.inbox
  }

  /** Each step of a duplicate's own handler takes it on and writes nothing. */
  lemma OwnStepOfDuplicate(w: World, a: Action, d: DeliveryId, saga: SagaId, step: string, progress: nat)
    requires IsDuplicateAt(w, d, saga, step, progress) && progress <= 2
    requires if progress == 0 then a == Check(d) else if progress == 1 then a.Commit? && a.d == d else a == Reply(d)
    ensures IsDuplicateAt(Next(w, a), d, saga, step, progress + 1) && WritesNothing(w, Next(w, a))
  {
  }

  /** Whatever other actions come before, between and after the steps of its handler, a delivery of a command already
      in the inbox writes nothing and, unless it fails itself, is answered with success. */
  lemma DuplicateRepliesSuccess(
    w: World, d: DeliveryId, at: int, first: seq<Action>, second: seq<Action>, third: seq<Action>, last: seq<Action>)
    requires d in w.deliveries && Unreplied(w.deliveries[d]) && IsDuplicate(w, w.deliveries[d])
    requires forall a :: a in first || a in second || a in third || a in last ==> !FailsDelivery(a, d)
    ensures
      var w1 := Run(w, first);
      var w2 := Run(Next(w1, Check(d)), second);
      var w3 := Run(Next(w2, Commit(d, at)), third);
      var w4 := Run(Next(w3, Reply(d)), last);
      && WritesNothing(w1, Next(w1, Check(d))) && WritesNothing(w2, Next(w2, Commit(d, at))) &&
         WritesNothing(w3, Next(w3, Reply(d)))
      && d in w4.deliveries && w4.deliveries[d].phase == Replied(true)
  {
    var saga, step := w.deliveries[d].saga, w.deliveries[d].step;
    var w1 := Run(w, first);
    RunKeepsDuplicate(w, first, d, saga, step, 0);
    OwnStepOfDuplicate(w1, Check(d), d, saga, step, 0);
    var w2 := Run(Next(w1, Check(d)), second);
    RunKeepsDuplicate(Next(w1, Check(d)), second, d, saga, step, 1);
    OwnStepOfDuplicate(w2, Commit(d, at), d, saga, step, 1);
    var w3 := Run(Next(w2, Commit(d, at)), third);
    RunKeepsDuplicate(Next(w2, Commit(d, at)), third, d, saga, step, 2);
    OwnStepOfDuplicate(w3, Reply(d), d, saga, step, 2);
    RunKeepsDuplicate(Next(w3, Reply(d)), last, d, saga, step, 3);
  }

  /** An undisturbed first delivery emits exactly one event and is answered with success; without a key the
      same holds of every redelivery, so an unkeyed command may complete a saga again and again. */
  lemma FirstDeliveryEmitsOnce(w: World, d: DeliveryId, at: int)
    requires d in w.deliveries && w.deliveries[d].phase.Arrived? && w.deliveries[d].conn in w.conns
    requires !IsDuplicate(w, w.deliveries[d])
    ensures
      var m := w.deliveries[d];
      var w' := Run(w, Handle(d, at));
      && d in w'.deliveries && w'.deliveries[d].phase == Replied(true)
      && w'.history == w.history + [Completed(m.conn, m.saga, m.step, CompletionStamp(w.conns[m.conn], m.saga), at)]
      && (WellFormed(m.saga, m.step) <==> IsDuplicate(w', m))
  {
    RunHandle(w, d, at);
    CheckAnswers(w, d);
    var w1 := SetPhase(w, d, Checked);
    assert Next(w1, Commit(d, at)) == CommitStep(w1, d, at);
    HandledIsAnswered(CommitStep(w1, d, at), d);
  }

  // ----- the key -----

  /** Two commands share a key exactly when they are equal or one saga id continues past a colon into the
      other's step name. */
  lemma StepKeyCollisions(s: SagaId, t: string, s': SagaId, t': string)
    ensures StepKey(s, t) == StepKey(s', t') <==>
            || (s == s' && t == t')
            || (exists u: string :: s' == s + ":" + u && t == u + ":" + t')
            || (exists u: string :: s == s' + ":" + u && t' == u + ":" + t)
  {
    if StepKey(s, t) == StepKey(s', t') {
      if |s| < |s'| {
        LongerSaga(s, t, s', t');
      } else if |s'| < |s| {
        LongerSaga(s', t', s, t);
      } else {
        assert s == StepKey(s, t)[..|s|] && s' == StepKey(s', t')[..|s|];
        assert t == StepKey(s, t)[|s| + 1..] && t' == StepKey(s', t')[|s| + 1..];
      }
    }
    forall u: string | s' == s + ":" + u && t == u + ":" + t' ensures StepKey(s, t) == StepKey(s', t') {
      assert s + ":" + (u + ":" + t') == (s + ":" + u) + ":" + t';
    }
    forall u: string | s == s' + ":" + u && t' == u + ":" + t ensures StepKey(s, t) == StepKey(s', t') {
      assert s' + ":" + (u + ":" + t) == (s' + ":" + u) + ":" + t;
    }
  }

  lemma LongerSaga(s: SagaId, t: string, s': SagaId, t': string)
    requires StepKey(s, t) == StepKey(s', t') && |s| < |s'|
    ensures exists u: string :: s' == s + ":" + u && t == u + ":" + t'
  {
    var key := StepKey(s, t);
    var u := s'[|s| + 1..];
    assert s' == key[..|s'|] && s == key[..|s|] && key[|s|] == ':';
    assert s' == s + ":" + u;
    assert t == key[|s| + 1..] == u + ":" + t';
  }

  /** Saga ids are uuids and hold no colon: then the key identifies the command. */
  lemma StepKeyIdentifies(s: SagaId, t: string, s': SagaId, t': string)
    requires ':' !in s && ':' !in s' && StepKey(s, t) == StepKey(s', t')
    ensures s == s' && t == t'
  {
    StepKeyCollisions(s, t, s', t');
    forall u: string ensures ':' in s + ":" + u && ':' in s' + ":" + u {
      assert (s + ":" + u)[|s|] == ':' && (s' + ":" + u)[|s'|] == ':';
    }
  }
}
