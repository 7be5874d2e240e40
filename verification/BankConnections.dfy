/** The bank-connection row, its time predicates and the conditional updates on its claim columns. */
module BankConnections {
  import opened Common

  type ConnId = nat
  type SagaId = string

  /** What started a sync. */
  datatype Trigger = Manual | Scheduled

  function TriggerValue(t: Trigger): string {
    match t
    case Manual => "manual"
    case Scheduled => "scheduled"
  }

  /** Claim column to enum. NULL and unknown values both fall back to manual. */
  function ParseSyncTrigger(raw: Option<string>): (t: Trigger)
    ensures t.Scheduled? <==> raw == Some(TriggerValue(Scheduled))
  {
    if raw.None? then Manual
    else if raw.value == "scheduled" then Scheduled
    else Manual
  }

  /** One row of bank_connections. Times are seconds on a UTC axis. */
  datatype Connection = Connection(
    userId: nat,
    status: string,
    expiresAt: Option<int>,
    lastSyncedAt: Option<int>,
    sagaId: Option<SagaId>,
    startedAt: Option<int>,
    trigger: Option<string>)

  predicate IsActive(c: Connection) { c.status == "active" }

  predicate IsExpiredAt(c: Connection, now: int) {
    c.expiresAt.Some? && now > c.expiresAt.value
  }

  predicate IsSyncDue(c: Connection, now: int, everySeconds: nat) {
    c.lastSyncedAt.None? || now - c.lastSyncedAt.value >= everySeconds
  }

  predicate ClaimIsStale(c: Connection, now: int, ttl: int) {
    c.startedAt.None? || now - c.startedAt.value > ttl
  }

  /** Everything but the claim columns. */
  predicate SameBesidesClaim(c: Connection, d: Connection) {
    d.userId == c.userId && d.status == c.status && d.expiresAt == c.expiresAt && d.lastSyncedAt == c.lastSyncedAt
  }

  /** UPDATE ... WHERE sync_started_at IS NULL OR sync_started_at < now - ttl. None when no row matches. */
  function TryClaimRow(c: Connection, saga: SagaId, now: int, ttl: int, origin: Trigger): (r: Option<Connection>)
    ensures r.Some? <==> ClaimIsStale(c, now, ttl)
    ensures r.Some? ==> SameBesidesClaim(c, r.value) && r.value.sagaId == Some(saga) && r.value.startedAt == Some(now)
    ensures r.Some? ==> r.value.trigger == Some(if origin.Manual? then "manual" else "scheduled")
  {
    if c.startedAt.None? || c.startedAt.value < now - ttl then
      Some(c.(sagaId := Some(saga), startedAt := Some(now), trigger := Some(TriggerValue(origin))))
    else None
  }

  /** UPDATE ... WHERE sync_saga_id = old: compare-and-swap on the old owner. */
  function StealRow(c: Connection, oldSaga: SagaId, saga: SagaId, now: int, origin: Trigger): (r: Option<Connection>)
    ensures r.Some? <==> c.sagaId == Some(oldSaga)
    ensures r.Some? ==> SameBesidesClaim(c, r.value) && r.value.sagaId == Some(saga) && r.value.startedAt == Some(now)
    ensures r.Some? ==> r.value.trigger == Some(if origin.Manual? then "manual" else "scheduled")
  {
    if c.sagaId == Some(oldSaga) then
      Some(c.(sagaId := Some(saga), startedAt := Some(now), trigger := Some(TriggerValue(origin))))
    else None
  }

  /** UPDATE ... SET sync_trigger = 'manual' WHERE sync_saga_id = saga. */
  function EscalateRow(c: Connection, saga: SagaId): (r: Option<Connection>)
    ensures r.Some? <==> c.sagaId == Some(saga)
    ensures r.Some? ==> SameBesidesClaim(c, r.value) && r.value.trigger == Some("manual")
    ensures r.Some? ==> r.value.sagaId == c.sagaId && r.value.startedAt == c.startedAt
  {
    if c.sagaId == Some(saga) then Some(c.(trigger := Some(TriggerValue(Manual)))) else None
  }

  /** The completing saga owns the claim: the id is present and is the one in the column. */
  predicate OwnClaim(c: Connection, saga: SagaId) {
    saga != "" && c.sagaId == Some(saga)
  }

  /** The stamp on the completion event, read before the claim is cleared. An overtaken, foreign or absent claim, a
      NULL trigger and an unknown one all stamp manual. */
  function CompletionStamp(c: Connection, saga: SagaId): (t: Trigger)
    ensures c.sagaId != Some(saga) || saga == "" || c.trigger.None? || c.trigger.value != "scheduled" ==> t.Manual?
    ensures c.sagaId == Some(saga) && saga != "" && c.trigger == Some("scheduled") ==> t.Scheduled?
  {
    if OwnClaim(c, saga) then ParseSyncTrigger(c.trigger) else Manual
  }

  /** The row after a completion: synced now, its claim released if it was the saga's own and untouched otherwise. */
  function CompleteRow(c: Connection, saga: SagaId, at: int): (r: Connection)
    ensures r.lastSyncedAt == Some(at) && r.userId == c.userId && r.status == c.status && r.expiresAt == c.expiresAt
    ensures saga != "" && c.sagaId == Some(saga) ==> r.sagaId.None? && r.startedAt.None? && r.trigger.None?
    ensures saga == "" || c.sagaId != Some(saga) ==>
              r.sagaId == c.sagaId && r.startedAt == c.startedAt && r.trigger == c.trigger
  {
    var synced := c.(lastSyncedAt := Some(at));
    if OwnClaim(c, saga) then synced.(sagaId := None, startedAt := None, trigger := None) else synced
  }
}
