/**
 * What the outbox promises over whole runs: fencing of superseded workers, exclusion by lease,
 * no lost and no phantom event, exact retry accounting and frozen dead letters.
 */
module OutboxGuarantees {
  import opened OutboxRows
  import opened OutboxProtocol

  predicate Claims(step: Step, e: EventId) {
    (step.RelayClaim? || step.ImmediateClaim?) && step.e == e
  }

  lemma {:induction false} InvAlongRun(cfg: Config, states: seq<State>, steps: seq<Step>, i: nat)
    requires Run(cfg, states, steps) && i <= |steps|
    ensures Inv(cfg, states[i])
  {
    if i == 0 {
      assert FailuresOf(states[0], 0) == {};
    } else {
      InvAlongRun(cfg, states, steps, i - 1);
      InvKept(cfg, states[i - 1], steps[i - 1]);
    }
  }

  /** One step: history only grows, tokens only grow, and a row that left never comes back. */
  ghost predicate Advances(s: State, s': State) {
    && s.committed <= s'.committed
    && (forall w :: w in s.claims ==> w in s'.claims && s'.claims[w] == s.claims[w])
    && (forall e :: e in s'.rows && e in s.committed ==>
          && e in s.rows
          && s'.rows[e].original == s.rows[e].original
          && s.rows[e].occurredAt <= s'.rows[e].occurredAt
          && s.rows[e].retryCount <= s'.rows[e].retryCount)
  }

  lemma StepAdvances(cfg: Config, s: State, step: Step)
    requires Placement(s) && Enabled(cfg, s, step)
    ensures Advances(s, Next(cfg, s, step))
  {
  }

  lemma AdvancesTransitive(a: State, b: State, c: State)
    requires Advances(a, b) && Advances(b, c)
    ensures Advances(a, c)
  {
  }

  lemma {:induction false} RunAdvances(cfg: Config, states: seq<State>, steps: seq<Step>, i: nat, j: nat)
    requires Run(cfg, states, steps) && i <= j <= |steps|
    ensures Advances(states[i], states[j])
  {
    if i < j {
      RunAdvances(cfg, states, steps, i, j - 1);
      InvAlongRun(cfg, states, steps, j - 1);
      StepAdvances(cfg, states[j - 1], steps[j - 1]);
      AdvancesTransitive(states[i], states[j - 1], states[j]);
    }
  }

  /**
   * Workers and transactions never wait for each other: an event not published yet can join any
   * transaction, an open transaction can commit or roll back, a dispatch can raise or, if its payload was
   * read, return, and a worker whose dispatch is over can settle.
   */
  lemma NobodyWaits(cfg: Config, s: State, t: TxnId, w: WorkerId, e: EventId, id: nat, at: int, readable: bool)
    ensures e !in s.published ==>
              && Enabled(cfg, s, Publish(t, e, id, at, readable))
              && e in RowsOf(Next(cfg, s, Publish(t, e, id, at, readable)), t)
    ensures t in s.pending ==>
              && Enabled(cfg, s, Rollback(t)) && Enabled(cfg, s, Commit(t))
              && RowsOf(s, t).Keys <= Next(cfg, s, Commit(t)).rows.Keys
    ensures w in s.flights ==>
              if s.flights[w].phase.Dispatching? then
                && Enabled(cfg, s, Raise(w))
                && (Enabled(cfg, s, Return(w)) <==> s.flights[w].claim.readable)
              else
                Enabled(cfg, s, Settle(w)) && w !in Next(cfg, s, Settle(w)).flights
  {
  }

  // ---- Fencing and lease ------------------------------------------------------------------------

  /** A claim step leaves its claim in the history for good. */
  lemma ClaimIsRecorded(cfg: Config, states: seq<State>, steps: seq<Step>, i: nat, k: nat, e: EventId)
    requires Run(cfg, states, steps) && i < k <= |steps| && Claims(steps[i], e)
    ensures e in states[i].rows && steps[i].w !in states[i].claims && steps[i].w in states[k].claims
    ensures states[k].claims[steps[i].w] == ClaimOf(states[i].rows, e, steps[i].now)
    ensures e in states[k].rows ==>
              && states[k].rows[e].original == states[i].rows[e].original
              && states[k].rows[e].occurredAt >= states[k].claims[steps[i].w].claimedAt
  {
    InvAlongRun(cfg, states, steps, i);
    RunAdvances(cfg, states, steps, i + 1, k);
  }

  lemma ClaimInFlightIsRecorded(cfg: Config, states: seq<State>, steps: seq<Step>, i: nat, w: WorkerId)
    requires Run(cfg, states, steps) && i <= |steps| && w in states[i].flights
    ensures w in states[i].claims && states[i].claims[w] == states[i].flights[w].claim
    ensures w !in states[i].failed && (states[i].flights[w].phase.Returned? ==> w in states[i].returned)
  {
    InvAlongRun(cfg, states, steps, i);
    assert FlightBooked(states[i], w);
  }

  /**
   * Two claims of one event, whatever clocks the workers read: the later one carries a strictly
   * larger token, comes from the relay, and its clock reading is more than a lease after the first.
   */
  lemma ClaimsOfOneEventAreALeaseApart(cfg: Config, states: seq<State>, steps: seq<Step>, i: nat, j: nat, e: EventId)
    requires Run(cfg, states, steps) && i < j < |steps| && Claims(steps[i], e) && Claims(steps[j], e)
    ensures steps[j].RelayClaim?
    ensures steps[j].now - steps[i].now > cfg.redeliverAfter
    ensures steps[i].w in states[j + 1].claims && steps[j].w in states[j + 1].claims
    ensures states[j + 1].claims[steps[i].w].claimedAt < states[j + 1].claims[steps[j].w].claimedAt
  {
    ClaimIsRecorded(cfg, states, steps, i, j, e);
    ClaimIsRecorded(cfg, states, steps, i, j + 1, e);
    ClaimIsRecorded(cfg, states, steps, j, j + 1, e);
    InvAlongRun(cfg, states, steps, i);
  }

  /** Once a newer claim exists, whatever the older worker writes back changes no row. */
  lemma SupersededWorkerChangesNothing(cfg: Config, states: seq<State>, steps: seq<Step>, i: nat, j: nat, k: nat,
                                       e: EventId)
    requires Run(cfg, states, steps) && i < j < k < |steps|
    requires Claims(steps[i], e) && Claims(steps[j], e) && steps[k] == Settle(steps[i].w)
    ensures states[k + 1].rows == states[k].rows
  {
    ClaimsOfOneEventAreALeaseApart(cfg, states, steps, i, j, e);
    ClaimIsRecorded(cfg, states, steps, i, j + 1, e);
    ClaimIsRecorded(cfg, states, steps, i, k, e);
    ClaimIsRecorded(cfg, states, steps, j, j + 1, e);
    ClaimIsRecorded(cfg, states, steps, j, k, e);
    ClaimInFlightIsRecorded(cfg, states, steps, k, steps[i].w);
  }

  /** At most one claim in flight per event matches the stored row. */
  lemma AtMostOneOwner(cfg: Config, states: seq<State>, steps: seq<Step>, i: nat, v: WorkerId, w: WorkerId)
    requires Run(cfg, states, steps) && i <= |steps|
    requires v in states[i].flights && w in states[i].flights
    requires states[i].flights[v].claim.eventId == states[i].flights[w].claim.eventId
    requires Owns(states[i].rows, states[i].flights[v].claim) && Owns(states[i].rows, states[i].flights[w].claim)
    ensures v == w
  {
    InvAlongRun(cfg, states, steps, i);
    assert FlightBooked(states[i], v) && FlightBooked(states[i], w);
  }

  /** Every worker has settled or died by the time its lease runs out on the claimants' clock. */
  ghost predicate SettlesWithinLease(cfg: Config, states: seq<State>, steps: seq<Step>)
    requires |states| == |steps| + 1
  {
    forall i, w :: 0 <= i < |steps| && (steps[i].RelayClaim? || steps[i].ImmediateClaim?) && w in states[i].flights ==>
      steps[i].now <= states[i].flights[w].claim.startedAt + cfg.redeliverAfter
  }

  /** A claim can only succeed on an event whose claims in flight have outlived their lease. */
  lemma ClaimMeansLeasesExpired(cfg: Config, states: seq<State>, steps: seq<Step>, i: nat, w: WorkerId)
    requires Run(cfg, states, steps) && i < |steps| && (steps[i].RelayClaim? || steps[i].ImmediateClaim?)
    requires w in states[i].flights && states[i].flights[w].claim.eventId == steps[i].e
    ensures states[i].flights[w].claim.startedAt + cfg.redeliverAfter < steps[i].now
  {
    InvAlongRun(cfg, states, steps, i);
    assert FlightBooked(states[i], w) && TokenInOrder(states[i], states[i].claims[w]);
  }

  lemma FlightsStartWithAClaim(cfg: Config, s: State, step: Step, w: WorkerId)
    requires Enabled(cfg, s, step) && w in Next(cfg, s, step).flights
    ensures if (step.RelayClaim? || step.ImmediateClaim?) && step.w == w then
              Next(cfg, s, step).flights[w].claim.eventId == step.e
            else
              w in s.flights && Next(cfg, s, step).flights[w].claim == s.flights[w].claim
  {
  }

  /** If claims settle within the lease, no two dispatches of one event ever overlap. */
  lemma {:induction false} DispatchesDoNotOverlap(cfg: Config, states: seq<State>, steps: seq<Step>, i: nat,
                                                  v: WorkerId, w: WorkerId)
    requires Run(cfg, states, steps) && SettlesWithinLease(cfg, states, steps) && i <= |steps|
    requires v in states[i].flights && w in states[i].flights
    requires states[i].flights[v].claim.eventId == states[i].flights[w].claim.eventId
    ensures v == w
  {
    if i > 0 && v != w {
      var step := steps[i - 1];
      FlightsStartWithAClaim(cfg, states[i - 1], step, v);
      FlightsStartWithAClaim(cfg, states[i - 1], step, w);
      if (step.RelayClaim? || step.ImmediateClaim?) && (step.w == v || step.w == w) {
        ClaimMeansLeasesExpired(cfg, states, steps, i - 1, if step.w == v then w else v);
      } else {
        DispatchesDoNotOverlap(cfg, states, steps, i - 1, v, w);
      }
    }
  }

  /** No worker dies and no handler raises. */
  predicate Smooth(steps: seq<Step>) {
    forall i :: 0 <= i < |steps| ==> !steps[i].Crash? && !steps[i].Raise?
  }

  /** The one claim on `e` is still being worked on, or it is the one that deleted the row. */
  ghost predicate ClaimedOnce(s: State, e: EventId) {
    && (forall v, w :: v in s.claims && w in s.claims && s.claims[v].eventId == e == s.claims[w].eventId ==> v == w)
    && (forall w :: w in s.claims && s.claims[w].eventId == e ==>
          if e in s.rows then w in s.flights && !s.flights[w].phase.Raised? && Owns(s.rows, s.claims[w])
          else e in s.deletedBy && s.deletedBy[e] == w)
  }

  lemma ClaimedOnceKeptByClaim(s: State, v: WorkerId, x: EventId, now: int, e: EventId)
    requires x in s.rows && v !in s.claims && Delivery(s) && ClaimedOnce(s, e)
    requires x == e ==> forall w :: w in s.claims ==> s.claims[w].eventId != e
    ensures ClaimedOnce(Claimed(s, v, x, now), e)
  {
  }

  lemma ClaimedOnceKeptBySettle(s: State, v: WorkerId, e: EventId)
    requires Attempts(s) && v in s.flights && !s.flights[v].phase.Dispatching? && ClaimedOnce(s, e)
    ensures ClaimedOnce(Settled(s, v), e)
  {
    assert FlightBooked(s, v);
  }

  lemma ClaimedOnceKeptByRest(cfg: Config, s: State, step: Step, e: EventId)
    requires Placement(s) && Attempts(s) && Enabled(cfg, s, step) && ClaimedOnce(s, e)
    requires step.Publish? || step.Commit? || step.Rollback? || step.Return?
    ensures ClaimedOnce(Next(cfg, s, step), e)
  {
  }

  lemma FirstClaim(cfg: Config, states: seq<State>, steps: seq<Step>, i: nat)
    requires Run(cfg, states, steps) && SettlesWithinLease(cfg, states, steps) && i < |steps|
    requires (steps[i].RelayClaim? || steps[i].ImmediateClaim?) && ClaimedOnce(states[i], steps[i].e)
    ensures forall w :: w in states[i].claims ==> states[i].claims[w].eventId != steps[i].e
  {
    forall w | w in states[i].claims ensures states[i].claims[w].eventId != steps[i].e {
      if states[i].claims[w].eventId == steps[i].e {
        ClaimInFlightIsRecorded(cfg, states, steps, i, w);
        ClaimMeansLeasesExpired(cfg, states, steps, i, w);
      }
    }
  }

  predicate Claiming(step: Step) {
    step.RelayClaim? || step.ImmediateClaim?
  }

  lemma ClaimedOnceKept(cfg: Config, s: State, step: Step, e: EventId)
    requires Placement(s) && Attempts(s) && Delivery(s) && Enabled(cfg, s, step) && ClaimedOnce(s, e)
    requires !step.Crash? && !step.Raise?
    requires Claims(step, e) ==> forall w :: w in s.claims ==> s.claims[w].eventId != e
    ensures ClaimedOnce(Next(cfg, s, step), e)
  {
    if Claiming(step) {
      ClaimedOnceKeptByClaim(s, step.w, step.e, step.now, e);
    } else if step.Settle? {
      ClaimedOnceKeptBySettle(s, step.w, e);
    } else {
      ClaimedOnceKeptByRest(cfg, s, step, e);
    }
  }

  lemma {:induction false} ClaimedAtMostOnce(cfg: Config, states: seq<State>, steps: seq<Step>, i: nat, e: EventId)
    requires Run(cfg, states, steps) && SettlesWithinLease(cfg, states, steps) && Smooth(steps) && i <= |steps|
    ensures ClaimedOnce(states[i], e)
  {
    if i > 0 {
      ClaimedAtMostOnce(cfg, states, steps, i - 1, e);
      InvAlongRun(cfg, states, steps, i - 1);
      if Claims(steps[i - 1], e) { FirstClaim(cfg, states, steps, i - 1); }
      ClaimedOnceKept(cfg, states[i - 1], steps[i - 1], e);
    }
  }

  /**
   * Without crash or handler failure, and with claims settled within the lease, an event is claimed
   * for dispatch at most once, and a settled event exactly once, by the claim whose dispatch returned.
   */
  lemma DispatchedExactlyOnce(cfg: Config, states: seq<State>, steps: seq<Step>, e: EventId)
    requires Run(cfg, states, steps) && SettlesWithinLease(cfg, states, steps) && Smooth(steps)
    ensures forall i, j :: 0 <= i < |steps| && 0 <= j < |steps| && Claims(steps[i], e) && Claims(steps[j], e) ==> i == j
    ensures var end := states[|steps|];
            e in end.committed && e !in end.rows ==>
              exists w :: w in end.returned && w in end.claims && end.claims[w].eventId == e
  {
    var n := |steps|;
    forall i, j | 0 <= i < n && 0 <= j < n && Claims(steps[i], e) && Claims(steps[j], e) ensures i == j {
      ClaimIsRecorded(cfg, states, steps, i, n, e);
      ClaimIsRecorded(cfg, states, steps, j, n, e);
      ClaimedAtMostOnce(cfg, states, steps, n, e);
      if i < j { ClaimIsRecorded(cfg, states, steps, i, j, e); }
      if j < i { ClaimIsRecorded(cfg, states, steps, j, i, e); }
    }
    InvAlongRun(cfg, states, steps, n);
    if e in states[n].deletedBy { assert DeletedAfterReturn(states[n], e); }
  }

  // ---- Nothing lost, nothing invented -------------------------------------------------------------

  /** `w` claimed `e`, its dispatch returned, and its settling deleted the row. */
  ghost predicate DeliveredBy(states: seq<State>, steps: seq<Step>, n: nat, e: EventId, w: WorkerId)
    requires |states| == |steps| + 1 && n <= |steps|
  {
    exists h, k, m :: 0 <= h < k < m < n && Claims(steps[h], e) && steps[h].w == w && steps[k] == Return(w)
      && steps[m] == Settle(w) && e in states[m].rows && e !in states[m + 1].rows
  }

  lemma NewClaimsAreClaimed(cfg: Config, s: State, step: Step, w: WorkerId)
    requires Enabled(cfg, s, step) && w in Next(cfg, s, step).claims
    ensures w in s.claims ==> Next(cfg, s, step).claims[w] == s.claims[w]
    ensures w !in s.claims ==> Claims(step, Next(cfg, s, step).claims[w].eventId) && step.w == w
  {
  }

  lemma {:induction false} ClaimedAt(cfg: Config, states: seq<State>, steps: seq<Step>, n: nat, w: WorkerId)
    returns (h: nat)
    requires Run(cfg, states, steps) && n <= |steps| && w in states[n].claims
    ensures h < n && Claims(steps[h], states[n].claims[w].eventId) && steps[h].w == w
    ensures w !in states[h].claims
  {
    assert n > 0;
    NewClaimsAreClaimed(cfg, states[n - 1], steps[n - 1], w);
    if w in states[n - 1].claims {
      h := ClaimedAt(cfg, states, steps, n - 1, w);
    } else {
      h := n - 1;
    }
  }

  lemma NewReturnsReturn(cfg: Config, s: State, step: Step, w: WorkerId)
    requires Enabled(cfg, s, step) && w in Next(cfg, s, step).returned && w !in s.returned
    ensures step == Return(w)
  {
  }

  lemma {:induction false} ReturnedAt(cfg: Config, states: seq<State>, steps: seq<Step>, n: nat, w: WorkerId)
    returns (k: nat)
    requires Run(cfg, states, steps) && n <= |steps| && w in states[n].returned
    ensures k < n && steps[k] == Return(w)
  {
    if w in states[n - 1].returned {
      k := ReturnedAt(cfg, states, steps, n - 1, w);
    } else {
      k := n - 1;
      NewReturnsReturn(cfg, states[k], steps[k], w);
    }
  }

  lemma RowsLeaveBySettling(cfg: Config, s: State, step: Step, e: EventId)
    requires Enabled(cfg, s, step) && e in Next(cfg, s, step).committed && e !in Next(cfg, s, step).rows
    ensures e in s.committed
    ensures e in s.rows ==> step.Settle? && s.flights[step.w].phase.Returned? && s.flights[step.w].claim.eventId == e
  {
  }

  lemma {:induction false} SettledMeansDelivered(cfg: Config, states: seq<State>, steps: seq<Step>, m: nat, e: EventId)
    requires Run(cfg, states, steps) && m < |steps| && steps[m].Settle?
    requires steps[m].w in states[m].flights && states[m].flights[steps[m].w].phase.Returned?
    requires states[m].flights[steps[m].w].claim.eventId == e && e in states[m].rows && e !in states[m + 1].rows
    ensures DeliveredBy(states, steps, m + 1, e, steps[m].w)
  {
    var w := steps[m].w;
    ClaimInFlightIsRecorded(cfg, states, steps, m, w);
    var h := ClaimedAt(cfg, states, steps, m, w);
    var k := ReturnedAt(cfg, states, steps, m, w);
    ReturnFollowsClaim(cfg, states, steps, h, k);
  }

  lemma ReturnFollowsClaim(cfg: Config, states: seq<State>, steps: seq<Step>, h: nat, k: nat)
    requires Run(cfg, states, steps) && h < |steps| && k < |steps|
    requires (steps[h].RelayClaim? || steps[h].ImmediateClaim?) && steps[k] == Return(steps[h].w)
    ensures h < k
  {
    ClaimInFlightIsRecorded(cfg, states, steps, k, steps[h].w);
    ClaimIsRecorded(cfg, states, steps, h, h + 1, steps[h].e);
    if k <= h { RunAdvances(cfg, states, steps, k, h); }
  }

  /** An event of a committed transaction is still stored, or was delivered by the claim that deleted it. */
  lemma {:induction false} NothingIsLost(cfg: Config, states: seq<State>, steps: seq<Step>, n: nat, e: EventId)
    requires Run(cfg, states, steps) && n <= |steps| && e in states[n].committed
    ensures e in states[n].rows || exists w :: DeliveredBy(states, steps, n, e, w)
  {
    if e !in states[n].rows {
      RowsLeaveBySettling(cfg, states[n - 1], steps[n - 1], e);
      if e in states[n - 1].rows {
        SettledMeansDelivered(cfg, states, steps, n - 1, e);
      } else {
        NothingIsLost(cfg, states, steps, n - 1, e);
        var w :| DeliveredBy(states, steps, n - 1, e, w);
        assert DeliveredBy(states, steps, n, e, w);
      }
    }
  }

  /** Whatever is dispatched belongs to a transaction that had committed. */
  lemma {:induction false} NoPhantom(cfg: Config, states: seq<State>, steps: seq<Step>, n: nat, e: EventId)
    requires Run(cfg, states, steps) && n <= |steps| && e in states[n].committed
    ensures exists j :: 0 <= j < n && steps[j].Commit? && e in RowsOf(states[j], steps[j].t)
  {
    if e in states[n - 1].committed {
      NoPhantom(cfg, states, steps, n - 1, e);
    } else {
      assert steps[n - 1].Commit?;
    }
  }

  lemma OnlyCommittedEventsAreDispatched(cfg: Config, states: seq<State>, steps: seq<Step>, i: nat, e: EventId)
    requires Run(cfg, states, steps) && i < |steps| && Claims(steps[i], e)
    ensures exists j :: 0 <= j < i && steps[j].Commit? && e in RowsOf(states[j], steps[j].t)
  {
    InvAlongRun(cfg, states, steps, i);
    NoPhantom(cfg, states, steps, i, e);
  }

  /** Published in a transaction that has ended without a commit. */
  ghost predicate Withdrawn(s: State, e: EventId) {
    e in s.published && e !in s.committed && forall t :: t in s.pending ==> e !in s.pending[t]
  }

  lemma WithdrawnStays(cfg: Config, s: State, step: Step, e: EventId)
    requires Enabled(cfg, s, step) && Withdrawn(s, e)
    ensures Withdrawn(Next(cfg, s, step), e)
  {
  }

  lemma RollbackWithdraws(cfg: Config, s: State, t: TxnId, e: EventId)
    requires Placement(s) && t in s.pending && e in s.pending[t]
    ensures Enabled(cfg, s, Rollback(t)) && Withdrawn(Next(cfg, s, Rollback(t)), e)
  {
  }

  lemma {:induction false} WithdrawnAlongRun(cfg: Config, states: seq<State>, steps: seq<Step>, i: nat, j: nat,
                                             e: EventId)
    requires Run(cfg, states, steps) && i <= j <= |steps| && Withdrawn(states[i], e)
    ensures Withdrawn(states[j], e)
  {
    if i < j {
      WithdrawnAlongRun(cfg, states, steps, i, j - 1, e);
      WithdrawnStays(cfg, states[j - 1], steps[j - 1], e);
    }
  }

  /** None of the events of a transaction that rolls back is ever stored or dispatched. */
  lemma RolledBackIsNeverDispatched(cfg: Config, states: seq<State>, steps: seq<Step>, i: nat, j: nat, e: EventId)
    requires Run(cfg, states, steps) && i < j <= |steps| && steps[i].Rollback? && e in RowsOf(states[i], steps[i].t)
    ensures e !in states[j].committed && e !in states[j].rows && (j < |steps| ==> !Claims(steps[j], e))
  {
    InvAlongRun(cfg, states, steps, i);
    RollbackWithdraws(cfg, states[i], steps[i].t, e);
    WithdrawnAlongRun(cfg, states, steps, i + 1, j, e);
    InvAlongRun(cfg, states, steps, j);
  }

  // ---- Unreadable payloads --------------------------------------------------------------------------

  lemma {:induction false} ReturnedWasReadable(cfg: Config, states: seq<State>, steps: seq<Step>, n: nat, w: WorkerId)
    requires Run(cfg, states, steps) && n <= |steps| && w in states[n].returned
    ensures w in states[n].claims && states[n].claims[w].readable
  {
    assert Enabled(cfg, states[n - 1], steps[n - 1]);
    if w in states[n - 1].returned {
      ReturnedWasReadable(cfg, states, steps, n - 1, w);
    } else {
      ClaimInFlightIsRecorded(cfg, states, steps, n - 1, w);
    }
  }

  /** A claim reads the payload that the row was stored with. */
  lemma ClaimReadsTheStoredPayload(cfg: Config, states: seq<State>, steps: seq<Step>, n: nat, w: WorkerId)
    requires Run(cfg, states, steps) && n <= |steps| && w in states[n].claims
    ensures var c := states[n].claims[w];
            c.eventId in states[n].rows ==> (c.readable <==> states[n].rows[c.eventId].original.Some?)
  {
    var h := ClaimedAt(cfg, states, steps, n, w);
    ClaimIsRecorded(cfg, states, steps, h, n, states[n].claims[w].eventId);
  }

  /** An event whose payload cannot be read back is never delivered, and its row is never deleted. */
  lemma {:induction false} UnreadableStaysStored(cfg: Config, states: seq<State>, steps: seq<Step>, i: nat, j: nat,
                                                 e: EventId)
    requires Run(cfg, states, steps) && i <= j <= |steps|
    requires e in states[i].rows && states[i].rows[e].original.None?
    ensures e in states[j].rows && states[j].rows[e].original.None?
    ensures forall w :: w in states[j].returned ==> w in states[j].claims && states[j].claims[w].eventId != e
  {
    if i < j {
      UnreadableStaysStored(cfg, states, steps, i, j - 1, e);
      InvAlongRun(cfg, states, steps, i);
      RunAdvances(cfg, states, steps, i, j);
      if e !in states[j].rows {
        RowsLeaveBySettling(cfg, states[j - 1], steps[j - 1], e);
        ClaimInFlightIsRecorded(cfg, states, steps, j - 1, steps[j - 1].w);
        assert false;
      }
    }
    forall w | w in states[j].returned ensures w in states[j].claims && states[j].claims[w].eventId != e {
      ReturnedWasReadable(cfg, states, steps, j, w);
      ClaimReadsTheStoredPayload(cfg, states, steps, j, w);
    }
  }

  // ---- Retries and dead letters ---------------------------------------------------------------------

  /** The retry column counts exactly the failures whose mark was not fenced off, and respects the limit. */
  lemma RetryColumnCountsFailures(cfg: Config, states: seq<State>, steps: seq<Step>, i: nat, e: EventId)
    requires Run(cfg, states, steps) && i <= |steps| && e in states[i].rows
    ensures states[i].rows[e].retryCount == |FailuresOf(states[i], e)|
    ensures cfg.maxRetry >= 1 ==> states[i].rows[e].retryCount <= cfg.maxRetry
  {
    InvAlongRun(cfg, states, steps, i);
  }

  ghost predicate EffectiveMark(s: State, step: Step, s': State, w: WorkerId) {
    step == Settle(w) && w in s.flights && s.flights[w].phase.Raised? && s'.rows != s.rows
  }

  lemma FailedGrowsByEffectiveMarks(cfg: Config, s: State, step: Step, w: WorkerId)
    requires Enabled(cfg, s, step) && w !in s.failed
    ensures w in Next(cfg, s, step).failed <==> EffectiveMark(s, step, Next(cfg, s, step), w)
  {
    if step == Settle(w) && s.flights[w].phase.Raised? {
      var c := s.flights[w].claim;
      if Owns(s.rows, c) { assert MarkFailed(s.rows, c)[c.eventId] != s.rows[c.eventId]; }
    }
  }

  /** A failure is in the books exactly when some settling of a raised dispatch changed its row. */
  lemma {:induction false} FailureIsAnEffectiveMark(cfg: Config, states: seq<State>, steps: seq<Step>, n: nat,
                                                    w: WorkerId)
    requires Run(cfg, states, steps) && n <= |steps|
    ensures w in states[n].failed <==>
            exists k :: 0 <= k < n && EffectiveMark(states[k], steps[k], states[k + 1], w)
  {
    if n > 0 {
      var step := steps[n - 1];
      FailureIsAnEffectiveMark(cfg, states, steps, n - 1, w);
      if w in states[n - 1].failed {
        assert w in states[n].failed;
      } else {
        FailedGrowsByEffectiveMarks(cfg, states[n - 1], step, w);
      }
    }
  }

  ghost predicate DeadLettersFrozen(cfg: Config, states: seq<State>, steps: seq<Step>) {
    Run(cfg, states, steps) ==>
      forall i, j, e ::
        (0 <= i <= j <= |steps| && e in states[i].rows && states[i].rows[e].retryCount >= cfg.maxRetry) ==>
          && e in states[j].rows && states[j].rows[e] == states[i].rows[e]
          && (j < |steps| ==> !Claims(steps[j], e))
  }

  lemma DeadLetterSurvivesStep(cfg: Config, s: State, step: Step, e: EventId)
    requires Placement(s) && Attempts(s) && Fencing(s) && Retries(cfg, s) && Enabled(cfg, s, step) && cfg.maxRetry >= 1
    requires e in s.rows && s.rows[e].retryCount >= cfg.maxRetry
    ensures e in Next(cfg, s, step).rows && Next(cfg, s, step).rows[e] == s.rows[e] && !Claims(step, e)
  {
    if step.Settle? { assert FlightBooked(s, step.w); }
  }

  lemma {:induction false} DeadLetterStays(cfg: Config, states: seq<State>, steps: seq<Step>, i: nat, j: nat,
                                           e: EventId)
    requires Run(cfg, states, steps) && i <= j <= |steps| && cfg.maxRetry >= 1
    requires e in states[i].rows && states[i].rows[e].retryCount >= cfg.maxRetry
    ensures e in states[j].rows && states[j].rows[e] == states[i].rows[e]
  {
    if i < j {
      DeadLetterStays(cfg, states, steps, i, j - 1, e);
      InvAlongRun(cfg, states, steps, j - 1);
      DeadLetterSurvivesStep(cfg, states[j - 1], steps[j - 1], e);
    }
  }

  lemma DeadLetterIsNotClaimed(cfg: Config, states: seq<State>, steps: seq<Step>, i: nat, j: nat, e: EventId)
    requires Run(cfg, states, steps) && i <= j < |steps| && cfg.maxRetry >= 1
    requires e in states[i].rows && states[i].rows[e].retryCount >= cfg.maxRetry
    ensures !Claims(steps[j], e)
  {
    DeadLetterStays(cfg, states, steps, i, j, e);
    InvAlongRun(cfg, states, steps, j);
    DeadLetterSurvivesStep(cfg, states[j], steps[j], e);
  }

  /**
   * A row that used up its retries is never claimed, changed or deleted again, in every run, exactly
   * when the limit is at least one. With a limit of zero the immediate path still claims it.
   */
  lemma DeadLettersFrozenIffLimitPositive(cfg: Config)
    ensures (forall states, steps :: DeadLettersFrozen(cfg, states, steps)) <==> cfg.maxRetry >= 1
  {
    if cfg.maxRetry >= 1 {
      forall states: seq<State>, steps: seq<Step>, i: nat, j: nat, e: EventId |
        Run(cfg, states, steps) && i <= j <= |steps| && e in states[i].rows
            && states[i].rows[e].retryCount >= cfg.maxRetry
        ensures e in states[j].rows && states[j].rows[e] == states[i].rows[e]
        ensures j < |steps| ==> !Claims(steps[j], e)
      {
        DeadLetterStays(cfg, states, steps, i, j, e);
        if j < |steps| { DeadLetterIsNotClaimed(cfg, states, steps, i, j, e); }
      }
    } else {
      var s0 := State(map[], map[], map[], {}, {}, map[], {}, {}, map[]);
      var steps := [Publish(0, 0, 0, 0, true), Commit(0), ImmediateClaim(0, 0, 5)];
      var s1 := Next(cfg, s0, steps[0]);
      var s2 := Next(cfg, s1, steps[1]);
      var s3 := Next(cfg, s2, steps[2]);
      var states := [s0, s1, s2, s3];
      assert Run(cfg, states, steps);
      assert states[2].rows[0].retryCount >= cfg.maxRetry && Claims(steps[2], 0);
      assert !DeadLettersFrozen(cfg, states, steps);
    }
  }
}
