/**
 * Any number of relay workers, immediate dispatchers and publishing transactions over one outbox
 * table, as a step system. Every worker reads its own clock, so the `now` of a claim is arbitrary:
 * clocks may be skewed and may jump. Workers may die at any point, and handlers may return or raise.
 */
module OutboxProtocol {
  import opened Prelude
  import opened OutboxRows

  type TxnId = nat
  type WorkerId = nat

  datatype Phase = Dispatching | Returned | Raised

  datatype Flight = Flight(claim: Claim, phase: Phase)

  /**
   * `rows` is the committed table, `pending` the rows of open business transactions and `flights`
   * the claims being worked on. The other components only record the past: ids ever published, events
   * whose transaction committed, every claim made, claims whose dispatch returned normally, claims
   * whose failure mark took effect, and for each deleted row the claim that deleted it.
   */
  datatype State = State(
    rows: Rows,
    pending: map<TxnId, Rows>,
    flights: map<WorkerId, Flight>,
    published: set<EventId>,
    committed: set<EventId>,
    claims: map<WorkerId, Claim>,
    returned: set<WorkerId>,
    failed: set<WorkerId>,
    deletedBy: map<EventId, WorkerId>)

  datatype Step =
    | Publish(t: TxnId, e: EventId, id: nat, at: int, readable: bool)
    | Commit(t: TxnId)
    | Rollback(t: TxnId)
    | RelayClaim(w: WorkerId, e: EventId, now: int)
    | ImmediateClaim(w: WorkerId, e: EventId, now: int)
    | Return(w: WorkerId)
    | Raise(w: WorkerId)
    | Settle(w: WorkerId)
    | Crash(w: WorkerId)

  predicate Init(s: State) {
    s == State(map[], map[], map[], {}, {}, map[], {}, {}, map[])
  }

  function RowsOf(s: State, t: TxnId): Rows {
    if t in s.pending then s.pending[t] else map[]
  }

  /** Event ids are random UUIDs, so an id is published once. A claim attempt has an id of its own. */
  predicate Enabled(cfg: Config, s: State, step: Step) {
    match step
    case Publish(t, e, id, at, readable) => e !in s.published
    case Commit(t) => t in s.pending
    case Rollback(t) => t in s.pending
    case RelayClaim(w, e, now) => w !in s.claims && e in s.rows && Eligible(cfg, now, s.rows[e])
    case ImmediateClaim(w, e, now) => w !in s.claims && e in s.rows && Unclaimed(s.rows[e])
    case Return(w) => w in s.flights && s.flights[w].phase.Dispatching? && s.flights[w].claim.readable
    case Raise(w) => w in s.flights && s.flights[w].phase.Dispatching?
    case Settle(w) => w in s.flights && !s.flights[w].phase.Dispatching?
    case Crash(w) => w in s.flights
  }

  function Claimed(s: State, w: WorkerId, e: EventId, now: int): State
    requires e in s.rows
  {
    var c := ClaimOf(s.rows, e, now);
    s.(rows := Stamped(s.rows, c), flights := s.flights[w := Flight(c, Dispatching)], claims := s.claims[w := c])
  }

  function Settled(s: State, w: WorkerId): State
    requires w in s.flights
  {
    var c := s.flights[w].claim;
    var landed := s.(flights := s.flights - {w});
    if s.flights[w].phase.Returned? then
      landed.(rows := DeleteSucceeded(s.rows, c),
              deletedBy := if Owns(s.rows, c) then s.deletedBy[c.eventId := w] else s.deletedBy)
    else
      landed.(rows := MarkFailed(s.rows, c),
              failed := if Owns(s.rows, c) then s.failed + {w} else s.failed)
  }

  function Next(cfg: Config, s: State, step: Step): State
    requires Enabled(cfg, s, step)
  {
    match step
    case Publish(t, e, id, at, readable) =>
      var row := Row(id, if readable then Some(at) else None, at, 0);
      s.(pending := s.pending[t := RowsOf(s, t)[e := row]], published := s.published + {e})
    case Commit(t) =>
      s.(rows := s.rows + s.pending[t], committed := s.committed + s.pending[t].Keys, pending := s.pending - {t})
    case Rollback(t) => s.(pending := s.pending - {t})
    case RelayClaim(w, e, now) => Claimed(s, w, e, now)
    case ImmediateClaim(w, e, now) => Claimed(s, w, e, now)
    case Return(w) =>
      s.(flights := s.flights[w := s.flights[w].(phase := Returned)], returned := s.returned + {w})
    case Raise(w) => s.(flights := s.flights[w := s.flights[w].(phase := Raised)])
    case Settle(w) => Settled(s, w)
    case Crash(w) => s.(flights := s.flights - {w})
  }

  /** A run: `states[i]` is the state before `steps[i]`. */
  ghost predicate Run(cfg: Config, states: seq<State>, steps: seq<Step>) {
    && |states| == |steps| + 1
    && Init(states[0])
    && forall i {:trigger steps[i]} :: 0 <= i < |steps| ==>
         Enabled(cfg, states[i], steps[i]) && states[i + 1] == Next(cfg, states[i], steps[i])
  }

  // ---- The invariant, in four parts ------------------------------------------------------------

  /** An event id is in one open transaction at most, and stored only once its transaction committed. */
  ghost predicate Placement(s: State) {
    && s.rows.Keys <= s.committed <= s.published
    && (forall t, e :: t in s.pending && e in s.pending[t] ==> e in s.published && e !in s.committed)
    && (forall t, u, e :: t in s.pending && u in s.pending && e in s.pending[t] && e in s.pending[u] ==> t == u)
  }

  /** The history of claims covers the claims in flight and what became of them. */
  ghost predicate Attempts(s: State) {
    && s.flights.Keys <= s.claims.Keys && s.returned <= s.claims.Keys && s.failed <= s.claims.Keys
    && (forall w :: w in s.flights ==> FlightBooked(s, w))
    && (forall w :: w in s.claims ==> s.claims[w].eventId in s.committed)
  }

  ghost predicate FlightBooked(s: State, w: WorkerId)
    requires w in s.flights && w in s.claims
  {
    && s.claims[w] == s.flights[w].claim
    && w !in s.failed
    && (s.flights[w].phase.Returned? <==> w in s.returned)
  }

  /** Fencing: tokens of one event grow, never repeat, and never pass the row. */
  ghost predicate Fencing(s: State) {
    && (forall t, e :: t in s.pending && e in s.pending[t] ==> Untouched(s.pending[t][e]))
    && (forall e :: e in s.rows && s.rows[e].original.Some? ==> s.rows[e].original.value <= s.rows[e].occurredAt)
    && (forall w :: w in s.claims ==> TokenInOrder(s, s.claims[w]))
    && (forall v, w :: v in s.claims && w in s.claims && v != w && s.claims[v].eventId == s.claims[w].eventId ==>
          s.claims[v].claimedAt != s.claims[w].claimedAt)
    && (forall w :: w in s.flights ==> TokenDecides(s.rows, s.flights[w].claim))
  }

  ghost predicate Untouched(r: Row) {
    r.retryCount == 0 && (r.original.Some? ==> r.original.value == r.occurredAt)
  }

  ghost predicate TokenInOrder(s: State, c: Claim) {
    && c.startedAt <= c.claimedAt
    && (c.eventId in s.rows ==>
          var r := s.rows[c.eventId];
          c.claimedAt <= r.occurredAt && (r.original.Some? ==> r.original.value < c.claimedAt))
  }

  /** For a claim in flight the token alone settles ownership: the retry comparison never differs. */
  ghost predicate TokenDecides(rows: Rows, c: Claim) {
    c.eventId in rows && rows[c.eventId].occurredAt == c.claimedAt ==> rows[c.eventId].retryCount == c.retryCount
  }

  /** The claims on `e` whose failure mark took effect. */
  function FailuresOf(s: State, e: EventId): set<WorkerId> {
    set w | w in s.failed && w in s.claims && s.claims[w].eventId == e
  }

  ghost predicate Retries(cfg: Config, s: State) {
    && (forall e :: e in s.rows ==> s.rows[e].retryCount == |FailuresOf(s, e)|)
    && (cfg.maxRetry >= 1 ==> forall e :: e in s.rows ==> s.rows[e].retryCount <= cfg.maxRetry)
    && (cfg.maxRetry >= 1 ==> forall w :: w in s.claims ==> s.claims[w].retryCount < cfg.maxRetry)
  }

  /** A committed event is still a row, or the claim that deleted it had its dispatch return. */
  ghost predicate Delivery(s: State) {
    && (forall e :: e in s.committed ==> e in s.rows || e in s.deletedBy)
    && (forall e :: e in s.deletedBy ==> DeletedAfterReturn(s, e))
  }

  ghost predicate DeletedAfterReturn(s: State, e: EventId)
    requires e in s.deletedBy
  {
    var w := s.deletedBy[e];
    e !in s.rows && e in s.committed && w in s.returned && w !in s.flights && w in s.claims && s.claims[w].eventId == e
  }

  ghost predicate Inv(cfg: Config, s: State) {
    Placement(s) && Attempts(s) && Fencing(s) && Retries(cfg, s) && Delivery(s)
  }

  // ---- Every step keeps the invariant ------------------------------------------------------------

  lemma PlacementKept(cfg: Config, s: State, step: Step)
    requires Placement(s) && Enabled(cfg, s, step)
    ensures Placement(Next(cfg, s, step))
  {
    if step.Settle? { assert Next(cfg, s, step).rows.Keys <= s.rows.Keys; }
  }

  lemma AttemptsKeptByClaims(s: State, w: WorkerId, e: EventId, now: int)
    requires Placement(s) && Attempts(s) && w !in s.claims && e in s.rows
    ensures Attempts(Claimed(s, w, e, now))
  {
    var s' := Claimed(s, w, e, now);
    forall v | v in s'.flights ensures FlightBooked(s', v) {
      if v != w { assert FlightBooked(s, v); }
    }
  }

  lemma AttemptsKeptBySettle(s: State, w: WorkerId)
    requires Attempts(s) && w in s.flights && !s.flights[w].phase.Dispatching?
    ensures Attempts(Settled(s, w))
  {
    var s' := Settled(s, w);
    assert FlightBooked(s, w);
    forall v | v in s'.flights ensures FlightBooked(s', v) { assert FlightBooked(s, v); }
  }

  lemma AttemptsKeptByRest(cfg: Config, s: State, step: Step)
    requires Attempts(s) && Enabled(cfg, s, step)
    requires !step.RelayClaim? && !step.ImmediateClaim? && !step.Settle?
    ensures Attempts(Next(cfg, s, step))
  {
    var s' := Next(cfg, s, step);
    forall v | v in s'.flights ensures FlightBooked(s', v) { assert FlightBooked(s, v); }
  }

  lemma DeliveryKept(cfg: Config, s: State, step: Step)
    requires Placement(s) && Attempts(s) && Delivery(s) && Enabled(cfg, s, step)
    ensures Delivery(Next(cfg, s, step))
  {
    var s' := Next(cfg, s, step);
    if step.Settle? { assert FlightBooked(s, step.w); }
    forall e | e in s'.deletedBy ensures DeletedAfterReturn(s', e) {
      if e in s.deletedBy { assert DeletedAfterReturn(s, e); }
    }
  }

  lemma TokensKeptByTransactions(cfg: Config, s: State, step: Step, c: Claim)
    requires Placement(s) && Enabled(cfg, s, step) && (step.Publish? || step.Commit? || step.Rollback?)
    requires TokenInOrder(s, c) && c.eventId in s.committed
    ensures TokenInOrder(Next(cfg, s, step), c)
    ensures TokenDecides(s.rows, c) ==> TokenDecides(Next(cfg, s, step).rows, c)
  {
  }

  lemma FencingKeptByTransactions(cfg: Config, s: State, step: Step)
    requires Placement(s) && Attempts(s) && Fencing(s) && Enabled(cfg, s, step)
    requires step.Publish? || step.Commit? || step.Rollback?
    ensures Fencing(Next(cfg, s, step))
  {
    var s' := Next(cfg, s, step);
    forall w | w in s'.claims ensures TokenInOrder(s', s'.claims[w]) {
      TokensKeptByTransactions(cfg, s, step, s.claims[w]);
    }
    forall w | w in s'.flights ensures TokenDecides(s'.rows, s'.flights[w].claim) {
      assert FlightBooked(s, w);
      TokensKeptByTransactions(cfg, s, step, s.flights[w].claim);
    }
  }

  lemma FencingKeptByClaims(s: State, w: WorkerId, e: EventId, now: int)
    requires Attempts(s) && Fencing(s) && w !in s.claims && e in s.rows
    ensures Fencing(Claimed(s, w, e, now))
  {
    var s' := Claimed(s, w, e, now);
    forall v | v in s'.claims ensures TokenInOrder(s', s'.claims[v]) {
      if v != w { assert TokenInOrder(s, s.claims[v]); }
    }
    forall v | v in s'.flights ensures TokenDecides(s'.rows, s'.flights[v].claim) {
      if v != w {
        assert FlightBooked(s, v) && TokenDecides(s.rows, s.flights[v].claim) && TokenInOrder(s, s.claims[v]);
      }
    }
  }

  lemma FencingKeptBySettle(s: State, w: WorkerId)
    requires Attempts(s) && Fencing(s) && w in s.flights && !s.flights[w].phase.Dispatching?
    ensures Fencing(Settled(s, w))
  {
    var s' := Settled(s, w);
    assert FlightBooked(s, w);
    assert forall e :: e in s'.rows ==>
      e in s.rows && s'.rows[e].original == s.rows[e].original && s'.rows[e].occurredAt == s.rows[e].occurredAt;
    forall v | v in s'.claims ensures TokenInOrder(s', s'.claims[v]) {
      assert TokenInOrder(s, s.claims[v]);
    }
    forall v | v in s'.flights ensures TokenDecides(s'.rows, s'.flights[v].claim) {
      assert FlightBooked(s, v) && TokenDecides(s.rows, s.flights[v].claim);
    }
  }

  lemma FencingKeptByFlights(cfg: Config, s: State, step: Step)
    requires Attempts(s) && Fencing(s) && Enabled(cfg, s, step) && (step.Return? || step.Raise? || step.Crash?)
    ensures Fencing(Next(cfg, s, step))
  {
    var s' := Next(cfg, s, step);
    forall v | v in s'.claims ensures TokenInOrder(s', s'.claims[v]) {
      assert TokenInOrder(s, s.claims[v]);
    }
    forall v | v in s'.flights ensures TokenDecides(s'.rows, s'.flights[v].claim) {
      assert TokenDecides(s.rows, s.flights[v].claim);
    }
  }

  lemma RetriesKeptByClaims(cfg: Config, s: State, w: WorkerId, e: EventId, now: int)
    requires Attempts(s) && Retries(cfg, s) && w !in s.claims && e in s.rows
    requires cfg.maxRetry >= 1 ==> s.rows[e].retryCount < cfg.maxRetry
    ensures Retries(cfg, Claimed(s, w, e, now))
  {
    forall x ensures FailuresOf(Claimed(s, w, e, now), x) == FailuresOf(s, x) {}
  }

  lemma OneMoreFailure(s: State, s': State, w: WorkerId, e: EventId)
    requires s'.claims == s.claims && s'.failed == s.failed + {w} && w !in s.failed && w in s.claims
    ensures |FailuresOf(s', e)| == |FailuresOf(s, e)| + if s.claims[w].eventId == e then 1 else 0
  {
    assert FailuresOf(s', e) == FailuresOf(s, e) + if s.claims[w].eventId == e then {w} else {};
  }

  lemma SameFailures(s: State, s': State, e: EventId)
    requires s'.claims == s.claims && s'.failed == s.failed
    ensures FailuresOf(s', e) == FailuresOf(s, e)
  {
  }

  lemma RetriesKeptBySettle(cfg: Config, s: State, w: WorkerId)
    requires Attempts(s) && Retries(cfg, s) && w in s.flights && !s.flights[w].phase.Dispatching?
    ensures Retries(cfg, Settled(s, w))
  {
    var s' := Settled(s, w);
    var c := s.flights[w].claim;
    assert FlightBooked(s, w);
    var marked := s.flights[w].phase.Raised? && Owns(s.rows, c);
    forall e | e in s'.rows ensures s'.rows[e].retryCount == |FailuresOf(s', e)| {
      if marked { OneMoreFailure(s, s', w, e); } else { SameFailures(s, s', e); }
    }
  }

  lemma RetriesKeptByRest(cfg: Config, s: State, step: Step)
    requires Placement(s) && Attempts(s) && Fencing(s) && Retries(cfg, s) && Enabled(cfg, s, step)
    requires !step.RelayClaim? && !step.ImmediateClaim? && !step.Settle?
    ensures Retries(cfg, Next(cfg, s, step))
  {
    var s' := Next(cfg, s, step);
    forall e ensures FailuresOf(s', e) == FailuresOf(s, e) {}
    forall e | e in s'.rows ensures s'.rows[e].retryCount == |FailuresOf(s', e)| {
      if e !in s.rows { assert FailuresOf(s, e) == {}; }
    }
  }

  /** Every step of every worker and transaction keeps the invariant. */
  lemma InvKept(cfg: Config, s: State, step: Step)
    requires Inv(cfg, s) && Enabled(cfg, s, step)
    ensures Inv(cfg, Next(cfg, s, step))
  {
    PlacementKept(cfg, s, step);
    DeliveryKept(cfg, s, step);
    if step.RelayClaim? || step.ImmediateClaim? {
      AttemptsKeptByClaims(s, step.w, step.e, step.now);
      FencingKeptByClaims(s, step.w, step.e, step.now);
      RetriesKeptByClaims(cfg, s, step.w, step.e, step.now);
    } else if step.Settle? {
      AttemptsKeptBySettle(s, step.w);
      FencingKeptBySettle(s, step.w);
      RetriesKeptBySettle(cfg, s, step.w);
    } else {
      AttemptsKeptByRest(cfg, s, step);
      RetriesKeptByRest(cfg, s, step);
      if step.Return? || step.Raise? || step.Crash? {
        FencingKeptByFlights(cfg, s, step);
      } else {
        FencingKeptByTransactions(cfg, s, step);
      }
    }
  }
}
