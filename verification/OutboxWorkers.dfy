/**
 * The relay's batch loop and the immediate dispatcher as one worker executes them, with the four
 * table statements of OutboxRows. Other workers' steps between them are the subject of OutboxProtocol.
 */
module OutboxWorkers {
  import opened Prelude
  import opened OutboxRows

  /** `id` is the autoincrement primary key. */
  ghost predicate UniqueIds(rows: Rows) {
    forall e, x :: e in rows && x in rows && rows[e].id == rows[x].id ==> e == x
  }

  function EligibleSet(cfg: Config, now: int, rows: Rows): set<EventId> {
    set e | e in rows && Eligible(cfg, now, rows[e])
  }

  predicate IsFirst(rows: Rows, candidates: set<EventId>, e: EventId)
    requires candidates <= rows.Keys
  {
    e in candidates && forall x :: x in candidates ==> rows[e].id <= rows[x].id
  }

  lemma {:induction false} FirstExists(rows: Rows, candidates: set<EventId>)
    requires candidates <= rows.Keys && candidates != {}
    ensures exists e :: IsFirst(rows, candidates, e)
    decreases candidates
  {
    var e :| e in candidates;
    if candidates == {e} {
      assert IsFirst(rows, candidates, e);
    } else {
      FirstExists(rows, candidates - {e});
      var f :| IsFirst(rows, candidates - {e}, f);
      assert IsFirst(rows, candidates, if rows[e].id <= rows[f].id then e else f);
    }
  }

  /** The row that the relay's query returns: the lowest id among the eligible rows. */
  ghost function First(cfg: Config, now: int, rows: Rows): (e: EventId)
    requires EligibleSet(cfg, now, rows) != {}
    ensures IsFirst(rows, EligibleSet(cfg, now, rows), e)
  {
    FirstExists(rows, EligibleSet(cfg, now, rows));
    var e :| IsFirst(rows, EligibleSet(cfg, now, rows), e);
    e
  }

  /** No row is left to claim: each has its lease, or has used up its retries. */
  lemma NobodyEligible(cfg: Config, now: int, rows: Rows)
    ensures EligibleSet(cfg, now, rows) == {} <==>
            forall e :: e in rows ==>
              rows[e].occurredAt >= now - cfg.redeliverAfter || rows[e].retryCount >= cfg.maxRetry
  {
    if EligibleSet(cfg, now, rows) == {} {
      forall e | e in rows
        ensures rows[e].occurredAt >= now - cfg.redeliverAfter || rows[e].retryCount >= cfg.maxRetry
      {
        assert e !in EligibleSet(cfg, now, rows);
      }
    }
  }

  /** One event from claim to settling, when nobody interferes. */
  function Handled(rows: Rows, e: EventId, now: int, handlerReturns: bool): Rows
    requires e in rows
  {
    var c := ClaimOf(rows, e, now);
    if c.readable && handlerReturns then DeleteSucceeded(Stamped(rows, c), c) else MarkFailed(Stamped(rows, c), c)
  }

  datatype Batch = Batch(rows: Rows, handled: seq<EventId>)

  /** The relay's batch from iteration `i` on: `clock(i)` and `outcome(i)` belong to iteration `i`. */
  ghost function BatchFrom(cfg: Config, rows: Rows, clock: nat -> int, outcome: nat -> bool, i: nat, n: nat): Batch
    requires i <= n
    decreases n - i
  {
    if i == n || EligibleSet(cfg, clock(i), rows) == {} then
      Batch(rows, [])
    else
      var e := First(cfg, clock(i), rows);
      var rest := BatchFrom(cfg, Handled(rows, e, clock(i), outcome(i)), clock, outcome, i + 1, n);
      Batch(rest.rows, [e] + rest.handled)
  }

  lemma BatchStep(cfg: Config, rows: Rows, clock: nat -> int, outcome: nat -> bool, i: nat, n: nat,
                  handled: seq<EventId>)
    requires i < n && UniqueIds(rows) && EligibleSet(cfg, clock(i), rows) != {}
    ensures var e := First(cfg, clock(i), rows);
            var rows' := Handled(rows, e, clock(i), outcome(i));
            var now := BatchFrom(cfg, rows, clock, outcome, i, n);
            var later := BatchFrom(cfg, rows', clock, outcome, i + 1, n);
            && UniqueIds(rows')
            && Batch(now.rows, handled + now.handled) == Batch(later.rows, handled + [e] + later.handled)
  {
  }

  /** A fresh row after one immediate dispatch that raised: stamped by the claim, one failure counted. */
  function FailedOnce(row: Row, clock: int): Row {
    row.(occurredAt := Max(clock, row.occurredAt + 1), retryCount := 1)
  }

  class OutboxTable {
    var rows: Rows

    constructor (stored: Rows)
      ensures rows == stored
    {
      rows := stored;
    }

    /** One locked transaction: select the first eligible row, stamp it, commit. */
    method ClaimNext(cfg: Config, now: int) returns (claim: Option<Claim>)
      requires UniqueIds(rows)
      modifies this
      ensures claim.None? <==> EligibleSet(cfg, now, old(rows)) == {}
      ensures claim.None? ==> rows == old(rows)
      ensures claim.Some? ==>
                && claim.value == ClaimOf(old(rows), First(cfg, now, old(rows)), now)
                && rows == Stamped(old(rows), claim.value)
      ensures claim.None? <==>
                forall e :: e in old(rows) ==>
                  old(rows)[e].occurredAt >= now - cfg.redeliverAfter || old(rows)[e].retryCount >= cfg.maxRetry
      ensures claim.Some? ==>
                var e, c := claim.value.eventId, claim.value;
                && e in old(rows) && old(rows)[e].occurredAt < now - cfg.redeliverAfter
                && old(rows)[e].retryCount < cfg.maxRetry
                && (forall x :: x in old(rows) && old(rows)[x].id < old(rows)[e].id ==>
                      old(rows)[x].occurredAt >= now - cfg.redeliverAfter || old(rows)[x].retryCount >= cfg.maxRetry)
                && c.retryCount == old(rows)[e].retryCount && (c.readable <==> old(rows)[e].original.Some?)
                && c.startedAt == now && c.claimedAt >= now && c.claimedAt > old(rows)[e].occurredAt
                && (c.claimedAt == now || c.claimedAt == old(rows)[e].occurredAt + 1)
                && rows == old(rows)[e := old(rows)[e].(occurredAt := c.claimedAt)]
    {
      NobodyEligible(cfg, now, rows);
      var eligible := EligibleSet(cfg, now, rows);
      if eligible == {} {
        return None;
      }
      FirstExists(rows, eligible);
      var e :| e in eligible && IsFirst(rows, eligible, e);
      var c := ClaimOf(rows, e, now);
      rows := Stamped(rows, c);
      claim := Some(c);
    }

    method Delete(c: Claim)
      modifies this
      ensures rows == DeleteSucceeded(old(rows), c)
      ensures rows == if && c.eventId in old(rows) && old(rows)[c.eventId].retryCount == c.retryCount
                         && old(rows)[c.eventId].occurredAt == c.claimedAt
                      then old(rows) - {c.eventId} else old(rows)
    {
      if Owns(rows, c) {
        rows := rows - {c.eventId};
      }
    }

    method BumpRetry(c: Claim)
      modifies this
      ensures rows == MarkFailed(old(rows), c)
      ensures rows.Keys == old(rows).Keys
      ensures forall e :: e in rows ==>
                rows[e] ==
                  if e == c.eventId && old(rows)[e].retryCount == c.retryCount && old(rows)[e].occurredAt == c.claimedAt
                  then old(rows)[e].(retryCount := old(rows)[e].retryCount + 1)
                  else old(rows)[e]
    {
      if Owns(rows, c) {
        rows := rows[c.eventId := rows[c.eventId].(retryCount := c.retryCount + 1)];
      }
    }

    /** The first-claim-only path: a missing, unreadable, failed or already claimed row is left alone. */
    method DispatchImmediately(e: EventId, now: int, handlerReturns: bool) returns (dispatched: bool)
      modifies this
      ensures dispatched <==> e in old(rows) && Unclaimed(old(rows)[e])
      ensures rows == if dispatched then Handled(old(rows), e, now, handlerReturns) else old(rows)
      ensures dispatched <==>
                && e in old(rows) && old(rows)[e].original == Some(old(rows)[e].occurredAt)
                && old(rows)[e].retryCount == 0
      ensures dispatched && handlerReturns ==> rows == old(rows) - {e}
      ensures dispatched && !handlerReturns ==>
                && rows == old(rows)[e := old(rows)[e].(occurredAt := rows[e].occurredAt, retryCount := 1)]
                && rows[e].occurredAt >= now && rows[e].occurredAt > old(rows)[e].occurredAt
                && (rows[e].occurredAt == now || rows[e].occurredAt == old(rows)[e].occurredAt + 1)
    {
      if e !in rows || rows[e].original.None? {
        return false;
      }
      if rows[e].retryCount != 0 || rows[e].occurredAt != rows[e].original.value {
        return false;
      }
      var c := ClaimOf(rows, e, now);
      rows := Stamped(rows, c);
      if handlerReturns {
        Delete(c);
      } else {
        BumpRetry(c);
      }
      dispatched := true;
    }

    /** The request's events one after the other, each in its own session. */
    method DispatchAllImmediately(events: seq<EventId>, clock: EventId -> int, outcome: EventId -> bool)
      modifies this
      ensures rows.Keys <= old(rows).Keys
      ensures forall e :: e in old(rows) ==>
                if e in events && Unclaimed(old(rows)[e]) then
                  if outcome(e) then e !in rows
                  else e in rows && rows[e] == FailedOnce(old(rows)[e], clock(e))
                else
                  e in rows && rows[e] == old(rows)[e]
    {
      for i := 0 to |events|
        invariant rows.Keys <= old(rows).Keys
        invariant forall e :: e in old(rows) ==>
                    if e in events[..i] && Unclaimed(old(rows)[e]) then
                      if outcome(e) then e !in rows
                      else e in rows && rows[e] == FailedOnce(old(rows)[e], clock(e))
                    else
                      e in rows && rows[e] == old(rows)[e]
      {
        assert events[..i + 1] == events[..i] + [events[i]];
        var _ := DispatchImmediately(events[i], clock(events[i]), outcome(events[i]));
      }
      assert events[..|events|] == events;
    }
  }

  class OutboxRelay {
    const cfg: Config
    const batchSize: nat
    const table: OutboxTable

    constructor (cfg: Config, batchSize: nat, table: OutboxTable)
      ensures this.cfg == cfg && this.batchSize == batchSize && this.table == table
    {
      this.cfg, this.batchSize, this.table := cfg, batchSize, table;
    }

    /** One iteration: claim, dispatch outside the claim's transaction, settle. None: nothing was eligible. */
    method HandleNext(now: int, handlerReturns: bool) returns (handled: Option<EventId>)
      requires UniqueIds(table.rows)
      modifies table
      ensures handled.None? <==> EligibleSet(cfg, now, old(table.rows)) == {}
      ensures handled.None? ==> table.rows == old(table.rows)
      ensures handled.Some? ==>
                && handled.value == First(cfg, now, old(table.rows))
                && table.rows == Handled(old(table.rows), handled.value, now, handlerReturns)
      ensures handled.Some? ==>
                var e, before, after := handled.value, old(table.rows), table.rows;
                && e in before && before[e].retryCount < cfg.maxRetry
                && before[e].occurredAt < now - cfg.redeliverAfter
                && if before[e].original.Some? && handlerReturns then after == before - {e}
                   else
                     && e in after && after[e].retryCount == before[e].retryCount + 1
                     && after[e].occurredAt >= now && after[e].occurredAt > before[e].occurredAt
                     && after == before[e := before[e].(retryCount := after[e].retryCount,
                                                        occurredAt := after[e].occurredAt)]
    {
      var claim := table.ClaimNext(cfg, now);
      if claim.None? {
        return None;
      }
      if claim.value.readable && handlerReturns {
        table.Delete(claim.value);
      } else {
        table.BumpRetry(claim.value);
      }
      return Some(claim.value.eventId);
    }

    method RunOnce(clock: nat -> int, outcome: nat -> bool) returns (processed: nat, ghost handled: seq<EventId>)
      requires UniqueIds(table.rows)
      modifies table
      ensures Batch(table.rows, handled) == BatchFrom(cfg, old(table.rows), clock, outcome, 0, batchSize)
      ensures processed == |handled| <= batchSize
      ensures processed < batchSize ==>
                forall e :: e in table.rows ==>
                  || table.rows[e].occurredAt >= clock(processed) - cfg.redeliverAfter
                  || table.rows[e].retryCount >= cfg.maxRetry
    {
      processed, handled := 0, [];
      while processed < batchSize
        invariant processed == |handled| <= batchSize && UniqueIds(table.rows)
        invariant Remaining(cfg, old(table.rows), table.rows, clock, outcome, processed, batchSize, handled)
        decreases batchSize - processed
      {
        ghost var before, soFar := table.rows, handled;
        var next := HandleNext(clock(processed), outcome(processed));
        if next.None? {
          NobodyEligible(cfg, clock(processed), table.rows);
          return;
        }
        handled := handled + [next.value];
        BatchStep(cfg, before, clock, outcome, processed, batchSize, soFar);
        processed := processed + 1;
      }
    }
  }

  /** What is left of the batch, after `handled`, completes the whole batch. */
  ghost predicate Remaining(cfg: Config, start: Rows, rows: Rows, clock: nat -> int, outcome: nat -> bool, i: nat,
                            n: nat, handled: seq<EventId>)
    requires i <= n
  {
    var rest := BatchFrom(cfg, rows, clock, outcome, i, n);
    BatchFrom(cfg, start, clock, outcome, 0, n) == Batch(rest.rows, handled + rest.handled)
  }

  // ---- What a batch does, said without the loop ---------------------------------------------------

  /** `handled` is the run of lowest ids among `candidates`, `limit` of them or all. */
  ghost predicate LowestIds(rows: Rows, candidates: set<EventId>, limit: nat, handled: seq<EventId>)
    requires candidates <= rows.Keys
  {
    && |handled| == Min(limit, |candidates|)
    && (forall k :: 0 <= k < |handled| ==> handled[k] in candidates)
    && IdsAscend(rows, handled)
    && LeftoversAreLater(rows, candidates, handled)
  }

  ghost predicate IdsAscend(rows: Rows, handled: seq<EventId>)
    requires forall k :: 0 <= k < |handled| ==> handled[k] in rows
  {
    forall k, m :: 0 <= k < m < |handled| ==> rows[handled[k]].id < rows[handled[m]].id
  }

  ghost predicate LeftoversAreLater(rows: Rows, candidates: set<EventId>, handled: seq<EventId>)
    requires candidates <= rows.Keys && forall k :: 0 <= k < |handled| ==> handled[k] in rows
  {
    forall x, k :: x in candidates && x !in handled && 0 <= k < |handled| ==> rows[handled[k]].id < rows[x].id
  }

  /** What one handled row looks like afterwards. */
  ghost predicate Outcome(rows: Rows, rows': Rows, now: int, e: EventId, handlerReturns: bool)
    requires e in rows
  {
    if rows[e].original.Some? && handlerReturns then e !in rows'
    else e in rows' && rows'[e] == rows[e].(occurredAt := now, retryCount := rows[e].retryCount + 1)
  }

  /** Handled rows were settled by their own outcome; every other row is as before. */
  ghost predicate SettledOnce(rows: Rows, rows': Rows, now: int, outcome: nat -> bool, i: nat, handled: seq<EventId>)
    requires forall k :: 0 <= k < |handled| ==> handled[k] in rows
  {
    && rows'.Keys <= rows.Keys
    && (forall x :: x in rows && x !in handled ==> x in rows' && rows'[x] == rows[x])
    && (forall k :: 0 <= k < |handled| ==> Outcome(rows, rows', now, handled[k], outcome(i + k)))
  }

  lemma HandledOnce(cfg: Config, rows: Rows, e: EventId, now: int, handlerReturns: bool)
    requires cfg.redeliverAfter >= 0 && e in rows && Eligible(cfg, now, rows[e])
    ensures var rows' := Handled(rows, e, now, handlerReturns);
            && rows'.Keys <= rows.Keys
            && (forall x :: x in rows && x != e ==> x in rows' && rows'[x] == rows[x])
            && EligibleSet(cfg, now, rows') == EligibleSet(cfg, now, rows) - {e}
            && Outcome(rows, rows', now, e, handlerReturns)
  {
  }

  lemma FirstIsLower(rows: Rows, candidates: set<EventId>, e: EventId, x: EventId)
    requires candidates <= rows.Keys && IsFirst(rows, candidates, e) && UniqueIds(rows) && x in candidates && x != e
    ensures rows[e].id < rows[x].id
  {
  }

  lemma LowestIdsExtend(rows: Rows, rows': Rows, candidates: set<EventId>, limit: nat, e: EventId, rest: seq<EventId>)
    requires candidates <= rows.Keys && IsFirst(rows, candidates, e) && UniqueIds(rows) && limit > 0
    requires candidates - {e} <= rows'.Keys && forall x :: x in candidates - {e} ==> rows'[x].id == rows[x].id
    requires LowestIds(rows', candidates - {e}, limit - 1, rest)
    ensures LowestIds(rows, candidates, limit, [e] + rest)
  {
    var handled := [e] + rest;
    var others := candidates - {e};
    assert |candidates| == |others| + 1;
    forall k | 0 <= k < |handled|
      ensures handled[k] in candidates && (k > 0 ==> handled[k] == rest[k - 1] && rest[k - 1] in others) {}
    forall k, m | 0 <= k < m < |handled| ensures rows[handled[k]].id < rows[handled[m]].id {
      if k == 0 {
        FirstIsLower(rows, candidates, e, handled[m]);
      } else {
        assert rows'[rest[k - 1]].id < rows'[rest[m - 1]].id;
      }
    }
    forall x, k | x in candidates && x !in handled && 0 <= k < |handled| ensures rows[handled[k]].id < rows[x].id {
      assert x != e by { assert handled[0] == e; }
      if k == 0 {
        FirstIsLower(rows, candidates, e, x);
      } else {
        NotHandled(e, rest, x);
        assert rows'[rest[k - 1]].id < rows'[x].id;
      }
    }
  }

  lemma NotHandled(e: EventId, rest: seq<EventId>, x: EventId)
    requires x !in [e] + rest
    ensures x !in rest
  {
    forall k | 0 <= k < |rest| ensures rest[k] != x {
      assert ([e] + rest)[k + 1] == rest[k];
    }
  }

  lemma SettledOnceExtend(rows: Rows, rows1: Rows, rows2: Rows, now: int, outcome: nat -> bool, i: nat, e: EventId,
                          rest: seq<EventId>)
    requires e in rows && e !in rest && rows1.Keys <= rows.Keys && Outcome(rows, rows1, now, e, outcome(i))
    requires forall x :: x in rows && x != e ==> x in rows1 && rows1[x] == rows[x]
    requires (forall k :: 0 <= k < |rest| ==> rest[k] in rows1) && SettledOnce(rows1, rows2, now, outcome, i + 1, rest)
    ensures forall k :: 0 <= k < |[e] + rest| ==> ([e] + rest)[k] in rows
    ensures SettledOnce(rows, rows2, now, outcome, i, [e] + rest)
  {
    var handled := [e] + rest;
    assert forall m :: 0 <= m < |rest| ==> rest[m] == handled[m + 1];
    forall k | 0 <= k < |handled| ensures handled[k] in rows && Outcome(rows, rows2, now, handled[k], outcome(i + k)) {
      if k > 0 {
        var x := rest[k - 1];
        assert Outcome(rows1, rows2, now, x, outcome(i + 1 + (k - 1)));
      }
    }
    forall x | x in rows && x !in handled ensures x in rows2 && rows2[x] == rows[x] {
      assert handled[0] == e;
    }
  }

  ghost predicate Refines(cfg: Config, rows: Rows, now: int, outcome: nat -> bool, i: nat, limit: nat, b: Batch) {
    var eligible := EligibleSet(cfg, now, rows);
    && LowestIds(rows, eligible, limit, b.handled)
    && SettledOnce(rows, b.rows, now, outcome, i, b.handled)
    && |EligibleSet(cfg, now, b.rows)| == |eligible| - |b.handled|
  }

  lemma RefinesExtend(cfg: Config, rows: Rows, now: int, outcome: nat -> bool, i: nat, limit: nat, e: EventId,
                      rest: Batch)
    requires cfg.redeliverAfter >= 0 && UniqueIds(rows) && limit > 0
    requires IsFirst(rows, EligibleSet(cfg, now, rows), e)
    requires Refines(cfg, Handled(rows, e, now, outcome(i)), now, outcome, i + 1, limit - 1, rest)
    ensures Refines(cfg, rows, now, outcome, i, limit, Batch(rest.rows, [e] + rest.handled))
  {
    var rows' := Handled(rows, e, now, outcome(i));
    HandledOnce(cfg, rows, e, now, outcome(i));
    LowestIdsExtend(rows, rows', EligibleSet(cfg, now, rows), limit, e, rest.handled);
    SettledOnceExtend(rows, rows', rest.rows, now, outcome, i, e, rest.handled);
  }

  lemma RefinesNothing(cfg: Config, rows: Rows, now: int, outcome: nat -> bool, i: nat, limit: nat)
    requires limit == 0 || EligibleSet(cfg, now, rows) == {}
    ensures Refines(cfg, rows, now, outcome, i, limit, Batch(rows, []))
  {
  }

  function FixedClock(now: int): nat -> int {
    (_: nat) => now
  }

  /**
   * With a fixed clock a batch handles exactly the lowest-id eligible rows, each once and in id order,
   * whatever the handlers do; the eligible set shrinks by one row per iteration.
   */
  lemma {:induction false} BatchHandlesLowestIdsOnce(cfg: Config, rows: Rows, now: int, outcome: nat -> bool, i: nat,
                                                     n: nat)
    requires cfg.redeliverAfter >= 0 && UniqueIds(rows) && i <= n
    ensures Refines(cfg, rows, now, outcome, i, n - i, BatchFrom(cfg, rows, FixedClock(now), outcome, i, n))
    decreases n - i
  {
    if i == n || EligibleSet(cfg, now, rows) == {} {
      RefinesNothing(cfg, rows, now, outcome, i, n - i);
    } else {
      var e := First(cfg, now, rows);
      HandledKeepsIds(rows, e, now, outcome(i));
      BatchHandlesLowestIdsOnce(cfg, Handled(rows, e, now, outcome(i)), now, outcome, i + 1, n);
      BatchExtends(cfg, rows, now, outcome, i, n,
                   BatchFrom(cfg, Handled(rows, e, now, outcome(i)), FixedClock(now), outcome, i + 1, n));
    }
  }

  lemma BatchExtends(cfg: Config, rows: Rows, now: int, outcome: nat -> bool, i: nat, n: nat, rest: Batch)
    requires cfg.redeliverAfter >= 0 && UniqueIds(rows) && i < n && EligibleSet(cfg, now, rows) != {}
    requires var rows' := Handled(rows, First(cfg, now, rows), now, outcome(i));
             rest == BatchFrom(cfg, rows', FixedClock(now), outcome, i + 1, n)
                 && Refines(cfg, rows', now, outcome, i + 1, n - i - 1, rest)
    ensures Refines(cfg, rows, now, outcome, i, n - i, BatchFrom(cfg, rows, FixedClock(now), outcome, i, n))
  {
    RefinesExtend(cfg, rows, now, outcome, i, n - i, First(cfg, now, rows), rest);
  }

  lemma HandledKeepsIds(rows: Rows, e: EventId, now: int, handlerReturns: bool)
    requires e in rows && UniqueIds(rows)
    ensures UniqueIds(Handled(rows, e, now, handlerReturns))
  {
    var rows' := Handled(rows, e, now, handlerReturns);
    assert forall x :: x in rows' ==> x in rows && rows'[x].id == rows[x].id;
  }
}
