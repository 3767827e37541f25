/**
 * The outbox table and the four statements that workers run against it: a lease claim by the
 * relay, a first claim by the immediate path, a conditional delete and a conditional failure mark.
 * Times are integer microseconds, the resolution of the stored timestamp.
 */
module OutboxRows {
  import opened Prelude

  type EventId = nat

  datatype Config = Config(redeliverAfter: int, maxRetry: int)

  /**
   * A stored event. `original` is what deserialising the payload gives: the event's own timestamp,
   * or None when deserialisation raises. `occurredAt` is the column that workers overwrite.
   */
  datatype Row = Row(id: nat, original: Option<int>, occurredAt: int, retryCount: nat)

  type Rows = map<EventId, Row>

  /** What a worker remembers of its claim. `startedAt` is its clock reading, `claimedAt` the token. */
  datatype Claim = Claim(eventId: EventId, retryCount: nat, claimedAt: int, startedAt: int, readable: bool)

  /** The relay's selection: the lease has expired and retries are left. */
  predicate Eligible(cfg: Config, now: int, row: Row) {
    row.occurredAt < now - cfg.redeliverAfter && row.retryCount < cfg.maxRetry
  }

  /** The immediate path's guard: readable, never failed, and never claimed by anybody. */
  predicate Unclaimed(row: Row) {
    row.original.Some? && row.retryCount == 0 && row.occurredAt == row.original.value
  }

  function ClaimOf(rows: Rows, e: EventId, now: int): Claim
    requires e in rows
  {
    Claim(e, rows[e].retryCount, Max(now, rows[e].occurredAt + 1), now, rows[e].original.Some?)
  }

  function Stamped(rows: Rows, c: Claim): Rows
    requires c.eventId in rows
  {
    rows[c.eventId := rows[c.eventId].(occurredAt := c.claimedAt)]
  }

  /** The WHERE clause of both settling statements. */
  predicate Owns(rows: Rows, c: Claim) {
    c.eventId in rows && rows[c.eventId].retryCount == c.retryCount && rows[c.eventId].occurredAt == c.claimedAt
  }

  function DeleteSucceeded(rows: Rows, c: Claim): Rows {
    if Owns(rows, c) then rows - {c.eventId} else rows
  }

  function MarkFailed(rows: Rows, c: Claim): Rows {
    if Owns(rows, c) then rows[c.eventId := rows[c.eventId].(retryCount := c.retryCount + 1)] else rows
  }

  /**
   * In the relay the forced increase of the token never fires exactly when the lease is not
   * negative: then every eligible row takes the clock reading itself.
   */
  lemma RelayTokenIsTheClock(cfg: Config)
    requires cfg.maxRetry >= 1
    ensures (forall now, rows: Rows, e ::
               e in rows && Eligible(cfg, now, rows[e]) ==> ClaimOf(rows, e, now).claimedAt == now)
            <==> cfg.redeliverAfter >= 0
  {
    if cfg.redeliverAfter < 0 {
      var rows: Rows := map[0 := Row(0, None, 0, 0)];
      assert Eligible(cfg, 0, rows[0]) && ClaimOf(rows, 0, 0).claimedAt == 1;
    }
  }
}
