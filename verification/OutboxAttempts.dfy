/**
 * What the retry limit is worth when handlers may raise and workers may die: as long as claims settle
 * within their lease, the claims of an event follow one another, and each but the last ends in a failure
 * that the retry column counts or with the death of its worker.
 */
module OutboxAttempts {
  import opened OutboxRows
  import opened OutboxProtocol
  import opened OutboxGuarantees

  function ClaimsOf(s: State, e: EventId): set<WorkerId> {
    set w | w in s.claims && s.claims[w].eventId == e
  }

  /** The claim is being worked on and owns its row, or it is the one that deleted the row. */
  predicate Current(s: State, e: EventId, w: WorkerId)
    requires w in s.claims
  {
    if e in s.rows then w in s.flights && Owns(s.rows, s.claims[w]) else e in s.deletedBy && s.deletedBy[e] == w
  }

  /** `dead` are the claims whose worker died at work. */
  ghost predicate Deaths(s: State, dead: set<WorkerId>) {
    dead <= s.claims.Keys && dead !! s.flights.Keys
  }

  predicate Over(s: State, dead: set<WorkerId>, w: WorkerId) {
    w in s.failed || w in dead
  }

  /** A claim on `e` that is not over is current, and no other claim on `e` came later. */
  ghost predicate OverOrCurrent(s: State, dead: set<WorkerId>, e: EventId) {
    forall w :: w in ClaimsOf(s, e) && !Over(s, dead, w) ==> Current(s, e, w)
  }

  ghost predicate EarlierOnesOver(s: State, dead: set<WorkerId>, e: EventId) {
    forall v, w :: v in ClaimsOf(s, e) && w in ClaimsOf(s, e) && s.claims[v].claimedAt < s.claims[w].claimedAt ==>
        Over(s, dead, v)
  }

  /** The claim that deleted the row had found every failure counted. */
  ghost predicate DeletionCounted(s: State, e: EventId) {
    e in s.deletedBy ==> s.deletedBy[e] in s.claims && |FailuresOf(s, e)| == s.claims[s.deletedBy[e]].retryCount
  }

  ghost predicate OneAtATime(s: State, dead: set<WorkerId>, e: EventId) {
    Deaths(s, dead) && OverOrCurrent(s, dead, e) && EarlierOnesOver(s, dead, e) && DeletionCounted(s, e)
  }

  lemma NewTokenIsLargest(s: State, x: EventId, now: int)
    requires Attempts(s) && Fencing(s) && x in s.rows
    ensures forall u :: u in ClaimsOf(s, x) ==> s.claims[u].claimedAt < ClaimOf(s.rows, x, now).claimedAt
  {
    forall u | u in ClaimsOf(s, x) ensures s.claims[u].claimedAt <= s.rows[x].occurredAt {
      assert TokenInOrder(s, s.claims[u]);
    }
  }

  lemma ClaimElsewhere(s: State, dead: set<WorkerId>, w: WorkerId, x: EventId, now: int, e: EventId)
    requires Attempts(s) && OneAtATime(s, dead, e) && w !in s.claims && x in s.rows && x != e
    ensures OneAtATime(Claimed(s, w, x, now), dead, e)
  {
    var s' := Claimed(s, w, x, now);
    assert ClaimsOf(s', e) == ClaimsOf(s, e);
    assert FailuresOf(s', e) == FailuresOf(s, e);
    forall v | v in ClaimsOf(s', e) && !Over(s', dead, v) ensures Current(s', e, v) {
      assert Current(s, e, v);
    }
  }

  lemma ClaimHere(s: State, dead: set<WorkerId>, w: WorkerId, e: EventId, now: int)
    requires Attempts(s) && Fencing(s) && Deaths(s, dead) && w !in s.claims && e in s.rows && e !in s.deletedBy
    requires forall v :: v in ClaimsOf(s, e) ==> Over(s, dead, v)
    ensures OneAtATime(Claimed(s, w, e, now), dead, e)
  {
    var s' := Claimed(s, w, e, now);
    NewTokenIsLargest(s, e, now);
    assert ClaimsOf(s', e) == ClaimsOf(s, e) + {w};
    assert Current(s', e, w);
  }

  lemma StoredIsNotDeleted(s: State, e: EventId)
    requires Delivery(s)
    ensures e in s.rows ==> e !in s.deletedBy
  {
    if e in s.deletedBy { assert DeletedAfterReturn(s, e); }
  }

  lemma OneAtATimeKeptByClaim(s: State, dead: set<WorkerId>, w: WorkerId, x: EventId, now: int, e: EventId)
    requires Attempts(s) && Fencing(s) && Delivery(s) && OneAtATime(s, dead, e) && w !in s.claims && x in s.rows
    requires x == e ==> forall v :: v in ClaimsOf(s, e) ==> Over(s, dead, v)
    ensures OneAtATime(Claimed(s, w, x, now), dead, e)
  {
    if x == e {
      StoredIsNotDeleted(s, e);
      ClaimHere(s, dead, w, e, now);
    } else {
      ClaimElsewhere(s, dead, w, x, now, e);
    }
  }

  lemma NotDeletedMeanwhile(s: State, w: WorkerId, e: EventId)
    requires Delivery(s) && w in s.flights
    ensures e in s.deletedBy ==> s.deletedBy[e] != w && e !in s.rows
  {
    if e in s.deletedBy { assert DeletedAfterReturn(s, e); }
  }

  /** Settling under `OneAtATime` is never fenced off. */
  lemma SettlingOwns(s: State, dead: set<WorkerId>, w: WorkerId, e: EventId)
    requires Attempts(s) && Delivery(s) && Deaths(s, dead) && OverOrCurrent(s, dead, e)
    requires w in s.flights && s.flights[w].claim.eventId == e
    ensures e in s.rows && Owns(s.rows, s.flights[w].claim)
  {
    assert FlightBooked(s, w) && w in ClaimsOf(s, e);
    NotDeletedMeanwhile(s, w, e);
  }

  lemma CurrentStaysElsewhere(s: State, w: WorkerId, e: EventId, v: WorkerId)
    requires Attempts(s) && w in s.flights && !s.flights[w].phase.Dispatching? && s.flights[w].claim.eventId != e
    requires v in ClaimsOf(s, e) && Current(s, e, v)
    ensures v in Settled(s, w).claims && Current(Settled(s, w), e, v)
  {
    assert FlightBooked(s, w);
  }

  /** Settling a claim on another event leaves the history of `e`. */
  lemma HistoryStaysElsewhere(s: State, dead: set<WorkerId>, w: WorkerId, e: EventId)
    requires Attempts(s) && w in s.flights && !s.flights[w].phase.Dispatching? && s.flights[w].claim.eventId != e
    ensures var s' := Settled(s, w);
            && s'.claims == s.claims && FailuresOf(s', e) == FailuresOf(s, e)
            && s'.flights.Keys <= s.flights.Keys
            && (forall v :: v in ClaimsOf(s, e) ==> (Over(s', dead, v) <==> Over(s, dead, v)))
            && (e in s'.deletedBy <==> e in s.deletedBy)
            && (e in s.deletedBy ==> s'.deletedBy[e] == s.deletedBy[e])
  {
    assert FlightBooked(s, w);
    assert FailuresOf(Settled(s, w), e) == FailuresOf(s, e);
  }

  lemma SettledElsewhere(s: State, dead: set<WorkerId>, w: WorkerId, e: EventId)
    requires Attempts(s) && OneAtATime(s, dead, e) && w in s.flights && !s.flights[w].phase.Dispatching?
    requires s.flights[w].claim.eventId != e
    ensures OneAtATime(Settled(s, w), dead, e)
  {
    var s' := Settled(s, w);
    HistoryStaysElsewhere(s, dead, w, e);
    assert ClaimsOf(s', e) == ClaimsOf(s, e);
    forall v | v in ClaimsOf(s', e) && !Over(s', dead, v) ensures Current(s', e, v) {
      CurrentStaysElsewhere(s, w, e, v);
    }
  }

  lemma SettledReturn(s: State, dead: set<WorkerId>, w: WorkerId, e: EventId)
    requires Attempts(s) && Delivery(s) && OneAtATime(s, dead, e) && w in s.flights && s.flights[w].phase.Returned?
    requires s.flights[w].claim.eventId == e && Owns(s.rows, s.flights[w].claim)
    requires s.rows[e].retryCount == |FailuresOf(s, e)|
    requires forall v :: v in ClaimsOf(s, e) && !Over(s, dead, v) ==> v == w
    ensures OneAtATime(Settled(s, w), dead, e)
  {
    var s' := Settled(s, w);
    assert FlightBooked(s, w);
    assert ClaimsOf(s', e) == ClaimsOf(s, e);
    SameFailures(s, s', e);
  }

  lemma SettledRaise(s: State, dead: set<WorkerId>, w: WorkerId, e: EventId)
    requires Attempts(s) && Delivery(s) && OneAtATime(s, dead, e) && w in s.flights && s.flights[w].phase.Raised?
    requires s.flights[w].claim.eventId == e && Owns(s.rows, s.flights[w].claim)
    requires forall v :: v in ClaimsOf(s, e) && !Over(s, dead, v) ==> v == w
    ensures OneAtATime(Settled(s, w), dead, e)
  {
    var s' := Settled(s, w);
    assert FlightBooked(s, w);
    assert ClaimsOf(s', e) == ClaimsOf(s, e);
    NotDeletedMeanwhile(s, w, e);
  }

  /** Two claims on one event carry different tokens, so only one can still be going on. */
  lemma AtMostOneNotOver(s: State, dead: set<WorkerId>, e: EventId, v: WorkerId, w: WorkerId)
    requires Fencing(s) && EarlierOnesOver(s, dead, e)
    requires v in ClaimsOf(s, e) && w in ClaimsOf(s, e) && !Over(s, dead, v) && !Over(s, dead, w)
    ensures v == w
  {
  }

  lemma OneAtATimeKeptBySettle(cfg: Config, s: State, dead: set<WorkerId>, w: WorkerId, e: EventId)
    requires Inv(cfg, s) && OneAtATime(s, dead, e) && w in s.flights && !s.flights[w].phase.Dispatching?
    ensures OneAtATime(Settled(s, w), dead, e)
  {
    if s.flights[w].claim.eventId != e {
      SettledElsewhere(s, dead, w, e);
    } else {
      SettlingOwns(s, dead, w, e);
      assert FlightBooked(s, w) && w in ClaimsOf(s, e);
      forall v | v in ClaimsOf(s, e) && !Over(s, dead, v) ensures v == w {
        AtMostOneNotOver(s, dead, e, v, w);
      }
      if s.flights[w].phase.Returned? {
        SettledReturn(s, dead, w, e);
      } else {
        SettledRaise(s, dead, w, e);
      }
    }
  }

  lemma CurrentStays(cfg: Config, s: State, step: Step, e: EventId, w: WorkerId)
    requires Placement(s) && Attempts(s) && Enabled(cfg, s, step)
    requires !Claiming(step) && !step.Settle? && !step.Crash?
    requires w in ClaimsOf(s, e) && Current(s, e, w)
    ensures w in Next(cfg, s, step).claims && Current(Next(cfg, s, step), e, w)
  {
    assert s.claims[w].eventId in s.committed;
  }

  /** The other steps touch neither claims nor what became of them. */
  ghost predicate SameClaims(s: State, s': State) {
    && s'.claims == s.claims && s'.failed == s.failed && s'.deletedBy == s.deletedBy
    && s'.flights.Keys == s.flights.Keys
  }

  lemma RestLeavesClaims(cfg: Config, s: State, step: Step)
    requires Enabled(cfg, s, step) && !Claiming(step) && !step.Settle? && !step.Crash?
    ensures SameClaims(s, Next(cfg, s, step))
  {
  }

  lemma OneAtATimeCarriesOver(s: State, s': State, dead: set<WorkerId>, e: EventId)
    requires OneAtATime(s, dead, e) && SameClaims(s, s')
    requires forall w :: w in ClaimsOf(s, e) && Current(s, e, w) ==> Current(s', e, w)
    ensures OneAtATime(s', dead, e)
  {
    SameFailures(s, s', e);
    assert ClaimsOf(s', e) == ClaimsOf(s, e);
  }

  lemma OneAtATimeKeptByRest(cfg: Config, s: State, dead: set<WorkerId>, step: Step, e: EventId)
    requires Placement(s) && Attempts(s) && OneAtATime(s, dead, e) && Enabled(cfg, s, step)
    requires !Claiming(step) && !step.Settle? && !step.Crash?
    ensures OneAtATime(Next(cfg, s, step), dead, e)
  {
    RestLeavesClaims(cfg, s, step);
    forall w | w in ClaimsOf(s, e) && Current(s, e, w) ensures Current(Next(cfg, s, step), e, w) {
      CurrentStays(cfg, s, step, e, w);
    }
    OneAtATimeCarriesOver(s, Next(cfg, s, step), dead, e);
  }

  lemma DeathLeavesOthers(cfg: Config, s: State, dead: set<WorkerId>, w: WorkerId, e: EventId)
    requires Attempts(s) && OneAtATime(s, dead, e) && Enabled(cfg, s, Crash(w))
    ensures OneAtATime(Next(cfg, s, Crash(w)), dead + {w}, e)
  {
    var s' := Next(cfg, s, Crash(w));
    assert ClaimsOf(s', e) == ClaimsOf(s, e);
    SameFailures(s, s', e);
    forall v | v in ClaimsOf(s', e) && !Over(s', dead + {w}, v) ensures Current(s', e, v) {
      assert Current(s, e, v);
    }
  }

  /** A claim can only follow claims that are over: whatever was in flight would have outlived its lease. */
  lemma ClaimFollowsOthers(cfg: Config, states: seq<State>, steps: seq<Step>, i: nat, dead: set<WorkerId>, e: EventId)
    requires Run(cfg, states, steps) && SettlesWithinLease(cfg, states, steps) && i < |steps|
    requires Claims(steps[i], e) && OverOrCurrent(states[i], dead, e)
    ensures forall w :: w in ClaimsOf(states[i], e) ==> Over(states[i], dead, w)
  {
    assert Enabled(cfg, states[i], steps[i]);
    forall w | w in ClaimsOf(states[i], e) ensures Over(states[i], dead, w) {
      if !Over(states[i], dead, w) {
        assert Current(states[i], e, w);
        ClaimInFlightIsRecorded(cfg, states, steps, i, w);
        ClaimMeansLeasesExpired(cfg, states, steps, i, w);
      }
    }
  }

  function DiedIn(dead: set<WorkerId>, step: Step): set<WorkerId> {
    if step.Crash? then dead + {step.w} else dead
  }

  /** The claims whose worker died in the first `n` steps. */
  function DeadBy(steps: seq<Step>, n: nat): set<WorkerId>
    requires n <= |steps|
  {
    if n == 0 then {} else DiedIn(DeadBy(steps, n - 1), steps[n - 1])
  }

  lemma OneAtATimeStep(cfg: Config, states: seq<State>, steps: seq<Step>, i: nat, dead: set<WorkerId>, e: EventId)
    requires Run(cfg, states, steps) && SettlesWithinLease(cfg, states, steps) && i < |steps|
    requires OneAtATime(states[i], dead, e)
    ensures OneAtATime(states[i + 1], DiedIn(dead, steps[i]), e)
  {
    InvAlongRun(cfg, states, steps, i);
    assert Enabled(cfg, states[i], steps[i]);
    if Claims(steps[i], e) { ClaimFollowsOthers(cfg, states, steps, i, dead, e); }
    OneAtATimeKept(cfg, states[i], dead, steps[i], e);
  }

  lemma {:induction false} OneAtATimeAlongRun(cfg: Config, states: seq<State>, steps: seq<Step>, i: nat, e: EventId)
    requires Run(cfg, states, steps) && SettlesWithinLease(cfg, states, steps) && i <= |steps|
    ensures OneAtATime(states[i], DeadBy(steps, i), e)
  {
    if i == 0 {
      NothingClaimedYet(states[0], e);
    } else {
      OneAtATimeAlongRun(cfg, states, steps, i - 1, e);
      OneAtATimeStep(cfg, states, steps, i - 1, DeadBy(steps, i - 1), e);
      assert DeadBy(steps, i) == DiedIn(DeadBy(steps, i - 1), steps[i - 1]);
    }
  }

  lemma NothingClaimedYet(s: State, e: EventId)
    requires Init(s)
    ensures OneAtATime(s, {}, e)
  {
  }

  lemma OneAtATimeKept(cfg: Config, s: State, dead: set<WorkerId>, step: Step, e: EventId)
    requires Inv(cfg, s) && OneAtATime(s, dead, e) && Enabled(cfg, s, step)
    requires Claims(step, e) ==> forall w :: w in ClaimsOf(s, e) ==> Over(s, dead, w)
    ensures OneAtATime(Next(cfg, s, step), DiedIn(dead, step), e)
  {
    if Claiming(step) {
      OneAtATimeKeptByClaim(s, dead, step.w, step.e, step.now, e);
    } else if step.Settle? {
      OneAtATimeKeptBySettle(cfg, s, dead, step.w, e);
    } else if step.Crash? {
      DeathLeavesOthers(cfg, s, dead, step.w, e);
    } else {
      OneAtATimeKeptByRest(cfg, s, dead, step, e);
    }
  }

  /** Its token is the largest of the event's claims. */
  ghost predicate IsLatest(s: State, e: EventId, w: WorkerId)
    requires w in s.claims
  {
    forall v :: v in ClaimsOf(s, e) && v != w ==> s.claims[v].claimedAt < s.claims[w].claimedAt
  }

  /**
   * Handlers may raise and workers may die. If claims settle within their lease, an event is claimed at
   * most as often as the retry limit says and once more for every claim that died, and every claim but
   * the latest ended in a counted failure or with the death of its worker.
   */
  lemma ClaimedAtMostTheLimit(cfg: Config, states: seq<State>, steps: seq<Step>, n: nat, e: EventId)
    requires Run(cfg, states, steps) && SettlesWithinLease(cfg, states, steps) && n <= |steps|
    requires cfg.maxRetry >= 1
    ensures |ClaimsOf(states[n], e)| <= cfg.maxRetry + |ClaimsOf(states[n], e) * DeadBy(steps, n)|
    ensures forall w :: w in ClaimsOf(states[n], e) && w !in states[n].failed && w !in DeadBy(steps, n) ==>
              IsLatest(states[n], e, w)
  {
    OneAtATimeAlongRun(cfg, states, steps, n, e);
    InvAlongRun(cfg, states, steps, n);
    var s, dead := states[n], DeadBy(steps, n);
    forall w | w in ClaimsOf(s, e) && !Over(s, dead, w) ensures IsLatest(s, e, w) {
      LastOneIsLatest(s, dead, e, w);
    }
    if w :| w in ClaimsOf(s, e) && !Over(s, dead, w) {
      OneNotOver(s, dead, e, w);
      LastOneIsWithinLimit(cfg, s, dead, e, w);
      SizeOfThree(ClaimsOf(s, e), FailuresOf(s, e), ClaimsOf(s, e) * dead, {w});
    } else {
      SizeOfThree(ClaimsOf(s, e), FailuresOf(s, e), ClaimsOf(s, e) * dead, {});
      FailuresAreWithinLimit(cfg, s, e);
    }
  }

  lemma SizeOfThree(all: set<WorkerId>, a: set<WorkerId>, b: set<WorkerId>, c: set<WorkerId>)
    requires all == a + b + c
    ensures |all| <= |a| + |b| + |c|
  {
  }

  lemma LastOneIsLatest(s: State, dead: set<WorkerId>, e: EventId, w: WorkerId)
    requires Fencing(s) && EarlierOnesOver(s, dead, e) && w in ClaimsOf(s, e) && !Over(s, dead, w)
    ensures IsLatest(s, e, w)
  {
  }

  lemma OneNotOver(s: State, dead: set<WorkerId>, e: EventId, w: WorkerId)
    requires Fencing(s) && EarlierOnesOver(s, dead, e) && w in ClaimsOf(s, e) && !Over(s, dead, w)
    ensures ClaimsOf(s, e) == FailuresOf(s, e) + ClaimsOf(s, e) * dead + {w}
  {
    forall v | v in ClaimsOf(s, e) && !Over(s, dead, v) ensures v == w {
      AtMostOneNotOver(s, dead, e, v, w);
    }
  }

  lemma LastOneIsWithinLimit(cfg: Config, s: State, dead: set<WorkerId>, e: EventId, w: WorkerId)
    requires Inv(cfg, s) && OneAtATime(s, dead, e) && cfg.maxRetry >= 1
    requires w in ClaimsOf(s, e) && !Over(s, dead, w)
    ensures |FailuresOf(s, e)| < cfg.maxRetry
  {
    assert Current(s, e, w) && s.claims[w].retryCount < cfg.maxRetry;
  }

  lemma FailuresAreWithinLimit(cfg: Config, s: State, e: EventId)
    requires Inv(cfg, s) && DeletionCounted(s, e) && cfg.maxRetry >= 1
    ensures |FailuresOf(s, e)| <= cfg.maxRetry
  {
    if e in s.deletedBy {
      assert DeletedAfterReturn(s, e) && s.claims[s.deletedBy[e]].retryCount < cfg.maxRetry;
    } else if w :| w in FailuresOf(s, e) {
      assert s.claims[w].eventId in s.committed;
    } else {
      assert FailuresOf(s, e) == {};
    }
  }

  // ---- What can still be claimed ------------------------------------------------------------------------

  /** A stored event that nobody has claimed is as its publisher wrote it. */
  ghost predicate FreshUntilClaimed(s: State, e: EventId) {
    e in s.rows && ClaimsOf(s, e) == {} ==> Untouched(s.rows[e])
  }

  lemma FreshKept(cfg: Config, s: State, step: Step, e: EventId)
    requires Attempts(s) && Fencing(s) && FreshUntilClaimed(s, e) && Enabled(cfg, s, step)
    ensures FreshUntilClaimed(Next(cfg, s, step), e)
  {
    ClaimsOnlyGrow(cfg, s, step, e);
  }

  lemma ClaimsOnlyGrow(cfg: Config, s: State, step: Step, e: EventId)
    requires Attempts(s) && Enabled(cfg, s, step)
    ensures ClaimsOf(s, e) <= ClaimsOf(Next(cfg, s, step), e)
    ensures Claims(step, e) ==> step.w in ClaimsOf(Next(cfg, s, step), e)
    ensures step.Settle? && s.flights[step.w].claim.eventId == e ==> step.w in ClaimsOf(s, e)
  {
    if step.Settle? { assert FlightBooked(s, step.w); }
  }

  lemma {:induction false} FreshAlongRun(cfg: Config, states: seq<State>, steps: seq<Step>, n: nat, e: EventId)
    requires Run(cfg, states, steps) && n <= |steps|
    ensures FreshUntilClaimed(states[n], e)
  {
    if n > 0 {
      FreshAlongRun(cfg, states, steps, n - 1, e);
      InvAlongRun(cfg, states, steps, n - 1);
      assert Enabled(cfg, states[n - 1], steps[n - 1]);
      FreshKept(cfg, states[n - 1], steps[n - 1], e);
    }
  }

  /** In every reachable state the immediate path can claim exactly a stored, readable event that nobody claimed. */
  lemma ImmediateClaimExactly(cfg: Config, states: seq<State>, steps: seq<Step>, n: nat, e: EventId, w: WorkerId,
                              now: int)
    requires Run(cfg, states, steps) && n <= |steps| && w !in states[n].claims
    ensures Enabled(cfg, states[n], ImmediateClaim(w, e, now)) <==>
            e in states[n].rows && states[n].rows[e].original.Some? && ClaimsOf(states[n], e) == {}
  {
    InvAlongRun(cfg, states, steps, n);
    FreshAlongRun(cfg, states, steps, n, e);
    forall v | v in ClaimsOf(states[n], e) && e in states[n].rows && states[n].rows[e].original.Some?
      ensures states[n].rows[e].original.value < states[n].rows[e].occurredAt
    {
      assert TokenInOrder(states[n], states[n].claims[v]);
    }
  }

  /**
   * In every reachable state the relay can claim a stored event exactly if its counted failures are
   * below the limit and its clock is past the lease, however often the event was claimed before.
   */
  lemma RelayClaimExactly(cfg: Config, states: seq<State>, steps: seq<Step>, n: nat, e: EventId, w: WorkerId, now: int)
    requires Run(cfg, states, steps) && n <= |steps| && w !in states[n].claims
    ensures Enabled(cfg, states[n], RelayClaim(w, e, now)) <==>
            && e in states[n].rows && |FailuresOf(states[n], e)| < cfg.maxRetry
            && states[n].rows[e].occurredAt + cfg.redeliverAfter < now
  {
    if e in states[n].rows { RetryColumnCountsFailures(cfg, states, steps, n, e); }
  }

  /** The row's token is that of its latest claim, and only a settled return of the latest claim deletes the row. */
  ghost predicate LatestHolds(s: State, e: EventId, w: WorkerId) {
    w in ClaimsOf(s, e) && IsLatest(s, e, w) ==>
      && (e in s.rows ==> s.rows[e].occurredAt == s.claims[w].claimedAt)
      && (w in s.flights || w !in s.returned ==> e in s.rows)
      && (w in s.failed ==> w !in s.returned)
  }

  lemma LatestKeptByClaim(s: State, v: WorkerId, x: EventId, now: int, e: EventId, w: WorkerId)
    requires Attempts(s) && Fencing(s) && LatestHolds(s, e, w) && v !in s.claims && x in s.rows
    ensures LatestHolds(Claimed(s, v, x, now), e, w)
  {
    var s' := Claimed(s, v, x, now);
    if w in ClaimsOf(s', e) && IsLatest(s', e, w) && w != v {
      if x == e {
        assert v in ClaimsOf(s', e);
        NewTokenIsLargest(s, e, now);
      } else {
        assert ClaimsOf(s', e) == ClaimsOf(s, e);
      }
    }
  }

  lemma LatestKeptBySettle(s: State, v: WorkerId, e: EventId, w: WorkerId)
    requires Attempts(s) && Fencing(s) && LatestHolds(s, e, w) && v in s.flights && !s.flights[v].phase.Dispatching?
    ensures LatestHolds(Settled(s, v), e, w)
  {
    var s' := Settled(s, v);
    assert FlightBooked(s, v);
    assert ClaimsOf(s', e) == ClaimsOf(s, e);
  }

  lemma LatestKeptByRest(cfg: Config, s: State, step: Step, e: EventId, w: WorkerId)
    requires Placement(s) && Attempts(s) && LatestHolds(s, e, w) && Enabled(cfg, s, step)
    requires !Claiming(step) && !step.Settle?
    ensures LatestHolds(Next(cfg, s, step), e, w)
  {
    var s' := Next(cfg, s, step);
    assert s'.claims == s.claims && s'.failed == s.failed;
    assert ClaimsOf(s', e) == ClaimsOf(s, e);
    if w in ClaimsOf(s, e) { assert s.claims[w].eventId in s.committed; }
    if w in s.flights { assert FlightBooked(s, w); }
  }

  lemma {:induction false} LatestAlongRun(cfg: Config, states: seq<State>, steps: seq<Step>, n: nat, e: EventId,
                                          w: WorkerId)
    requires Run(cfg, states, steps) && n <= |steps|
    ensures LatestHolds(states[n], e, w)
  {
    if n > 0 {
      LatestAlongRun(cfg, states, steps, n - 1, e, w);
      InvAlongRun(cfg, states, steps, n - 1);
      LatestKept(cfg, states[n - 1], steps[n - 1], e, w);
    }
  }

  lemma LatestKept(cfg: Config, s: State, step: Step, e: EventId, w: WorkerId)
    requires Inv(cfg, s) && LatestHolds(s, e, w) && Enabled(cfg, s, step)
    ensures LatestHolds(Next(cfg, s, step), e, w)
  {
    if Claiming(step) {
      LatestKeptByClaim(s, step.w, step.e, step.now, e, w);
    } else if step.Settle? {
      LatestKeptBySettle(s, step.w, e, w);
    } else {
      LatestKeptByRest(cfg, s, step, e, w);
    }
  }

  /**
   * What is not delivered is retried: if the latest claim on an event failed, or did not return, the event
   * is still stored, and below the limit the relay can claim it at every clock past that claim's lease.
   */
  lemma FailedEventIsRetried(cfg: Config, states: seq<State>, steps: seq<Step>, n: nat, e: EventId, last: WorkerId,
                             w: WorkerId, now: int)
    requires Run(cfg, states, steps) && n <= |steps| && w !in states[n].claims
    requires last in ClaimsOf(states[n], e) && IsLatest(states[n], e, last)
    requires last in states[n].failed || last !in states[n].returned
    requires |FailuresOf(states[n], e)| < cfg.maxRetry && now > states[n].claims[last].claimedAt + cfg.redeliverAfter
    ensures Enabled(cfg, states[n], RelayClaim(w, e, now))
  {
    LatestAlongRun(cfg, states, steps, n, e, last);
    RelayClaimExactly(cfg, states, steps, n, e, w, now);
  }

  /**
   * A worker may die at any point of its work, even after its dispatch returned: the event stays stored,
   * and below the limit the relay can claim it again at every clock past the dead worker's lease.
   */
  lemma DeathMeansRedelivery(cfg: Config, states: seq<State>, steps: seq<Step>, n: nat, e: EventId, last: WorkerId,
                             w: WorkerId, now: int)
    requires Run(cfg, states, steps) && n <= |steps| && w !in states[n].claims && last in states[n].flights
    requires last in ClaimsOf(states[n], e) && IsLatest(states[n], e, last) && |FailuresOf(states[n], e)| < cfg.maxRetry
    requires now > states[n].claims[last].claimedAt + cfg.redeliverAfter
    ensures Enabled(cfg, states[n], Crash(last))
    ensures Enabled(cfg, Next(cfg, states[n], Crash(last)), RelayClaim(w, e, now))
  {
    LatestAlongRun(cfg, states, steps, n, e, last);
    RelayClaimExactly(cfg, states, steps, n, e, w, now);
  }
}
