/** Every step of every redemption, grant, usage and account deletion keeps the redemption invariant. */
module RedemptionInvariant {
  import opened Prelude
  import opened RedemptionKeys
  import opened Promotions
  import opened RedemptionProtocol
  import L = CreditLedger
  import C = CreditProtocol

  /** What no step changes about promotions and codes, and the ids that stay used. */
  ghost predicate Evolves(s: State, s': State) {
    && s'.promotions.Keys == s.promotions.Keys && s'.codes.Keys == s.codes.Keys && s.used <= s'.used
    && (forall p :: p in s.promotions ==>
          s'.promotions[p].context == s.promotions[p].context && s'.promotions[p].benefit == s.promotions[p].benefit
          && s'.promotions[p].maxRedemptions == s.promotions[p].maxRedemptions
              && s'.promotions[p].maxPerUser == s.promotions[p].maxPerUser)
    && (forall c :: c in s.codes ==>
          s'.codes[c].promotionId == s.codes[c].promotionId && s'.codes[c].maxRedemptions == s.codes[c].maxRedemptions)
  }

  lemma FitsStays(s: State, s': State, r: Redemption)
    requires Evolves(s, s') && Fits(s, r)
    ensures Fits(s', r) && GrantEntry(s', r) == GrantEntry(s, r)
  {
  }

  lemma StepEvolves(s: State, step: Step)
    requires Pending(s) && Enabled(s, step)
    ensures Evolves(s, Next(s, step))
  {
    if step.CommitAll? { assert CopyIsCurrent(s, s.attempts[step.t]); }
  }

  lemma LocksKept(s: State, step: Step)
    requires Locks(s) && Pending(s) && Enabled(s, step)
    ensures Locks(Next(s, step))
  {
    var s' := Next(s, step);
    if step.Redeem? {
      forall t, p | t in s'.attempts ensures PromotionHeld(s'.attempts[t], p) <==> PromotionHeld(s.attempts[t], p) {}
      forall t, c | t in s'.attempts ensures CodeHeld(s'.attempts[t], c) <==> CodeHeld(s.attempts[t], c) {}
    } else if step.LockPromotion? {
      assert CopyIsCurrent(s, s.attempts[step.t]);
      forall t, c | t in s'.attempts ensures CodeHeld(s'.attempts[t], c) <==> CodeHeld(s.attempts[t], c) {}
    }
  }

  // ---- Pending attempts -----------------------------------------------------------------------------

  /** Keys that fit name the promotion, so pending redemptions of different promotions do not clash. */
  lemma DifferentPromotionsNeverClash(s: State, a: Redemption, b: Redemption)
    requires Fits(s, a) && Fits(s, b) && a.promotionId != b.promotionId && a.id != b.id
    ensures !Clash(a, b)
  {
  }

  /** The checks under the lock rule out every unique constraint of the redemption table. */
  lemma RedeemNeverConflicts(s: State, t: TxnId, at: int, id: Id)
    requires Pending(s) && Stored(s) && Enabled(s, Redeem(t, at, id))
    ensures var a := s.attempts[t];
            var r := NewRedemption(a.request, a.phase.promotionId, id);
            Fits(Next(s, Redeem(t, at, id)), r) && forall i :: 0 <= i < |s.redemptions| ==> !Clash(s.redemptions[i], r)
  {
    var a := s.attempts[t];
    var r := NewRedemption(a.request, a.phase.promotionId, id);
    assert CopyIsCurrent(s, a);
    forall i | 0 <= i < |s.redemptions| ensures !Clash(s.redemptions[i], r) {
      assert Fits(s, s.redemptions[i]);
    }
  }

  lemma CopiesKeptByUncommitted(s: State, step: Step)
    requires CopiesCurrent(s) && Enabled(s, step) && !step.CommitAll?
    ensures CopiesCurrent(Next(s, step))
  {
    var s' := Next(s, step);
    forall o | o in s'.attempts ensures CopyIsCurrent(s', s'.attempts[o]) {
      if o in s.attempts { assert CopyIsCurrent(s, s.attempts[o]); }
    }
  }

  lemma AllowanceStays(s: State, s': State, a: Attempt)
    requires Evolves(s, s') && s'.redemptions == s.redemptions && a.phase.Redeemed? && StillAllowed(s, a)
    ensures StillAllowed(s', a) && a.phase.redemption.id in s.used
  {
    FitsStays(s, s', a.phase.redemption);
  }

  lemma PendingKeptByRedeem(s: State, t: TxnId, at: int, id: Id)
    requires Pending(s) && Stored(s) && Enabled(s, Redeem(t, at, id))
    ensures Pending(Next(s, Redeem(t, at, id)))
  {
    var s' := Next(s, Redeem(t, at, id));
    CopiesKeptByUncommitted(s, Redeem(t, at, id));
    StepEvolves(s, Redeem(t, at, id));
    forall o | o in s'.attempts && o != t && s'.attempts[o].phase.Redeemed?
      ensures StillAllowed(s', s'.attempts[o]) && s'.attempts[o].phase.redemption.id in s.used
    {
      AllowanceStays(s, s', s.attempts[o]);
    }
    NewRedemptionIsAllowed(s, t, at, id);
  }

  lemma NewRedemptionIsAllowed(s: State, t: TxnId, at: int, id: Id)
    requires Pending(s) && Stored(s) && Enabled(s, Redeem(t, at, id))
    ensures t in Next(s, Redeem(t, at, id)).attempts
    ensures StillAllowed(Next(s, Redeem(t, at, id)), Next(s, Redeem(t, at, id)).attempts[t])
  {
    RedeemNeverConflicts(s, t, at, id);
    assert CopyIsCurrent(s, s.attempts[t]);
  }

  /** Steps that write no promotion, code or redemption row. */
  predicate Tentative(step: Step) {
    !step.Redeem? && !step.CommitAll?
  }

  lemma PendingKeptByTentative(s: State, step: Step)
    requires Pending(s) && Enabled(s, step) && Tentative(step)
    ensures Pending(Next(s, step))
  {
    CopiesKeptByUncommitted(s, step);
    StepEvolves(s, step);
    TentativeRedeemsNothing(s, step);
    forall o | o in Next(s, step).attempts && Next(s, step).attempts[o].phase.Redeemed?
      ensures StillAllowed(Next(s, step), Next(s, step).attempts[o])
    {
      AllowanceStays(s, Next(s, step), s.attempts[o]);
    }
  }

  lemma TentativeRedeemsNothing(s: State, step: Step)
    requires Enabled(s, step) && Tentative(step)
    ensures forall o :: o in Next(s, step).attempts && Next(s, step).attempts[o].phase.Redeemed? ==>
              o in s.attempts && Next(s, step).attempts[o] == s.attempts[o]
    ensures Next(s, step).redemptions == s.redemptions
  {
  }

  lemma PendingKeptByCommit(s: State, t: TxnId)
    requires Locks(s) && Pending(s) && Enabled(s, CommitAll(t))
    ensures Pending(Next(s, CommitAll(t)))
  {
    var s' := Next(s, CommitAll(t));
    forall o | o in s'.attempts ensures CopyIsCurrent(s', s'.attempts[o]) {
      CopiesSurviveCommit(s, t, o);
    }
    forall o | o in s'.attempts && s'.attempts[o].phase.Redeemed? ensures StillAllowed(s', s'.attempts[o]) {
      AllowanceSurvivesCommit(s, t, o);
    }
  }

  lemma CopiesSurviveCommit(s: State, t: TxnId, o: TxnId)
    requires Locks(s) && Pending(s) && Enabled(s, CommitAll(t)) && o in s.attempts && o != t
    ensures CopyIsCurrent(Next(s, CommitAll(t)), s.attempts[o])
  {
    var a, b := s.attempts[t], s.attempts[o];
    assert CopyIsCurrent(s, a) && CopyIsCurrent(s, b);
    assert PromotionHeld(a, a.phase.promotionId);
    if a.request.ByCode? { assert CodeHeld(a, a.request.codeId); }
  }

  lemma AllowanceSurvivesCommit(s: State, t: TxnId, o: TxnId)
    requires Locks(s) && Pending(s) && Enabled(s, CommitAll(t)) && o in s.attempts && o != t
    requires s.attempts[o].phase.Redeemed?
    ensures StillAllowed(Next(s, CommitAll(t)), s.attempts[o])
  {
    var a, b := s.attempts[t], s.attempts[o];
    StepEvolves(s, CommitAll(t));
    assert PromotionHeld(a, a.phase.promotionId) && !PromotionHeld(b, a.phase.promotionId);
    assert StillAllowed(s, a) && StillAllowed(s, b);
    AllowanceElsewhere(s, Next(s, CommitAll(t)), b, a.phase.redemption);
  }

  /** A redemption of another promotion takes nothing away. */
  lemma AllowanceElsewhere(s: State, s': State, b: Attempt, r: Redemption)
    requires Evolves(s, s') && b.phase.Redeemed? && StillAllowed(s, b) && Fits(s, r)
    requires s'.redemptions == s.redemptions + [r] && r.promotionId != b.phase.promotionId
    requires r.id != b.phase.redemption.id
    ensures StillAllowed(s', b)
  {
    FitsStays(s, s', b.phase.redemption);
    CountForUserAppend(s.redemptions, r, b.phase.promotionId, b.request.user);
    DifferentPromotionsNeverClash(s, r, b.phase.redemption);
  }

  lemma PendingKept(s: State, step: Step)
    requires Locks(s) && Pending(s) && Stored(s) && Enabled(s, step)
    ensures Pending(Next(s, step))
  {
    if step.Redeem? {
      PendingKeptByRedeem(s, step.t, step.at, step.id);
    } else if step.CommitAll? {
      PendingKeptByCommit(s, step.t);
    } else {
      PendingKeptByTentative(s, step);
    }
  }

  // ---- Stored redemptions and counters --------------------------------------------------------------

  lemma StoredKept(s: State, step: Step)
    requires Pending(s) && Stored(s) && Enabled(s, step)
    ensures Stored(Next(s, step))
  {
    var s' := Next(s, step);
    StepEvolves(s, step);
    if step.CommitAll? { assert StillAllowed(s, s.attempts[step.t]); }
    forall i | 0 <= i < |s'.redemptions| ensures Fits(s', s'.redemptions[i]) {
      if i < |s.redemptions| {
        FitsStays(s, s', s.redemptions[i]);
      } else {
        FitsStays(s, s', s'.redemptions[i]);
      }
    }
  }

  /** What a commit does to a promotion: its own is counted up, within its maximum. */
  lemma PromotionAfterCommit(s: State, t: TxnId, p: Id)
    requires Pending(s) && Enabled(s, CommitAll(t)) && p in s.promotions
    ensures var s', r := Next(s, CommitAll(t)), s.attempts[t].phase.redemption;
            && p in s'.promotions && s'.redemptions == s.redemptions + [r]
            && s'.promotions[p] == (if p == r.promotionId then Recorded(s.promotions[p]) else s.promotions[p])
            && (p == r.promotionId && s.promotions[p].maxRedemptions.Some? ==>
                  s.promotions[p].timesRedeemed < s.promotions[p].maxRedemptions.value)
  {
    assert CopyIsCurrent(s, s.attempts[t]) && StillAllowed(s, s.attempts[t]);
  }

  lemma PromotionCounterKept(s: State, t: TxnId, p: Id)
    requires Pending(s) && Enabled(s, CommitAll(t)) && p in s.promotions
    requires PromotionCounted(s.promotions[p], CountFor(s.redemptions, p))
    ensures var s' := Next(s, CommitAll(t));
            p in s'.promotions && PromotionCounted(s'.promotions[p], CountFor(s'.redemptions, p))
  {
    PromotionAfterCommit(s, t, p);
    CountForAppend(s.redemptions, s.attempts[t].phase.redemption, p);
  }

  lemma CodeCounterKept(s: State, t: TxnId, c: Id)
    requires Pending(s) && Counted(s) && Enabled(s, CommitAll(t)) && c in s.codes
    ensures var s' := Next(s, CommitAll(t));
            c in s'.codes && CodeCounted(s'.codes[c], CountForCode(s'.redemptions, c))
  {
    var a := s.attempts[t];
    assert CopyIsCurrent(s, a) && StillAllowed(s, a);
    assert CodeCounted(s.codes[c], CountForCode(s.redemptions, c));
    CountForCodeAppend(s.redemptions, a.phase.redemption, c);
  }

  lemma UserLimitsKept(s: State, t: TxnId)
    requires Pending(s) && UsersWithinLimit(s) && Enabled(s, CommitAll(t))
    ensures UsersWithinLimit(Next(s, CommitAll(t)))
  {
    var s' := Next(s, CommitAll(t));
    var a := s.attempts[t];
    var r := a.phase.redemption;
    StepEvolves(s, CommitAll(t));
    assert CopyIsCurrent(s, a) && StillAllowed(s, a);
    forall p, u {:trigger CountForUser(s'.redemptions, p, u)} | p in s'.promotions
        && s'.promotions[p].context != Some(Signup)
      ensures CountForUser(s'.redemptions, p, u) <= s'.promotions[p].maxPerUser
    {
      CountForUserAppend(s.redemptions, r, p, u);
      assert CountForUser(s.redemptions, p, u) <= s.promotions[p].maxPerUser;
    }
  }

  lemma CountedKept(s: State, step: Step)
    requires Pending(s) && Counted(s) && Enabled(s, step)
    ensures Counted(Next(s, step))
  {
    if step.CommitAll? {
      StepEvolves(s, step);
      forall p | p in s.promotions
        ensures p in Next(s, step).promotions
        ensures PromotionCounted(Next(s, step).promotions[p], CountFor(Next(s, step).redemptions, p))
      {
        PromotionCounterKept(s, step.t, p);
      }
      forall c | c in s.codes
        ensures c in Next(s, step).codes
        ensures CodeCounted(Next(s, step).codes[c], CountForCode(Next(s, step).redemptions, c))
      {
        CodeCounterKept(s, step.t, c);
      }
      UserLimitsKept(s, step.t);
    } else {
      assert Next(s, step).promotions == s.promotions && Next(s, step).codes == s.codes
          && Next(s, step).redemptions == s.redemptions;
    }
  }

  // ---- The grant is part of the redemption's transaction ---------------------------------------------

  /** No ledger row has the identity of a pending redemption's grant. */
  lemma PendingHasNoEntry(s: State, t: TxnId)
    requires Pending(s) && Stored(s) && Sourced(s) && t in s.attempts && s.attempts[t].phase.Redeemed?
    ensures !C.HasEntry(s.credits.ledger,
                        C.EntryOf(GrantFor(s.attempts[t].phase.redemption, s.attempts[t].phase.promotion.benefit)))
  {
    var r := s.attempts[t].phase.redemption;
    var e := C.EntryOf(GrantFor(r, s.attempts[t].phase.promotion.benefit));
    assert StillAllowed(s, s.attempts[t]);
    forall k | 0 <= k < |s.credits.ledger| ensures !L.SameIdentity(s.credits.ledger[k], e) {
      var x := s.credits.ledger[k];
      assert EntrySourced(s, x);
      if FromPromotion(x) {
        var i :| 0 <= i < |s.redemptions| && s.redemptions[i].promotionId in s.promotions
            && x == GrantEntry(s, s.redemptions[i]);
        assert !Clash(s.redemptions[i], r) && Fits(s, s.redemptions[i]);
      }
    }
  }

  /** What a credit step does to the open transactions: one of them moves on, with the same work. */
  lemma CreditStepIsLocal(s: C.State, step: C.Step, t: TxnId)
    requires C.Enabled(s, step) && (IsGrantStep(step, t) || step == C.Commit(t) || step == C.Abort(t))
    ensures forall o :: o in s.open && o != t ==> o in C.Next(s, step).open && C.Next(s, step).open[o] == s.open[o]
    ensures C.Next(s, step).open.Keys <= s.open.Keys
    ensures t in C.Next(s, step).open ==> C.Next(s, step).open[t].work == s.open[t].work
    ensures IsGrantStep(step, t) ==> C.Next(s, step).ledger == s.ledger && C.Next(s, step).balances == s.balances
    ensures IsGrantStep(step, t) && t in C.Next(s, step).open && C.Next(s, step).open[t].phase.Replayed? ==>
              C.HasEntry(s.ledger, C.EntryOf(s.open[t].work))
  {
  }

  lemma LinkedKeptByGrant(s: State, t: TxnId, credit: C.Step)
    requires Pending(s) && Stored(s) && Sourced(s) && Linked(s) && Enabled(s, GrantCredit(t, credit))
    ensures Linked(Next(s, GrantCredit(t, credit)))
  {
    PendingHasNoEntry(s, t);
    NewGrantStaysLinked(s, t, credit);
  }

  lemma NewGrantStaysLinked(s: State, t: TxnId, credit: C.Step)
    requires Linked(s) && Enabled(s, GrantCredit(t, credit))
    requires !C.HasEntry(s.credits.ledger, C.EntryOf(s.credits.open[t].work))
    ensures Linked(Next(s, GrantCredit(t, credit)))
  {
    CreditStepIsLocal(s.credits, credit, t);
    var s' := Next(s, GrantCredit(t, credit));
    assert s'.attempts.Keys <= s.attempts.Keys;
  }

  function CreditTxn(step: C.Step): TxnId
    requires !step.DeleteUser?
  {
    step.t
  }

  lemma LinkedKeptByOthers(s: State, credit: C.Step)
    requires Linked(s) && Enabled(s, OtherCredit(credit))
    ensures Linked(Next(s, OtherCredit(credit)))
  {
    if !credit.Begin? {
      CreditStepIsLocal(s.credits, credit, CreditTxn(credit));
    }
  }

  lemma LinkedKept(s: State, step: Step)
    requires Pending(s) && Stored(s) && Sourced(s) && Linked(s) && Enabled(s, step)
    ensures Linked(Next(s, step))
  {
    match step
    case GrantCredit(t, credit) => LinkedKeptByGrant(s, t, credit);
    case OtherCredit(credit) => LinkedKeptByOthers(s, credit);
    case CommitAll(t) => LinkedKeptByEnd(s, step);
    case Abandon(t) => LinkedKeptByEnd(s, step);
    case _ => LinkedKeptByRest(s, step);
  }

  lemma LinkedKeptByEnd(s: State, step: Step)
    requires Linked(s) && Enabled(s, step) && (step.CommitAll? || step.Abandon?)
    ensures Linked(Next(s, step))
  {
  }

  lemma LinkedKeptByRest(s: State, step: Step)
    requires Linked(s) && Enabled(s, step)
    requires !step.GrantCredit? && !step.OtherCredit? && !step.CommitAll? && !step.Abandon?
    ensures Linked(Next(s, step))
  {
  }

  lemma BackedStays(s: State, s': State, e: L.Entry)
    requires Evolves(s, s') && Stored(s) && s.redemptions <= s'.redemptions && Backed(s, e)
    ensures Backed(s', e)
  {
    var i :| 0 <= i < |s.redemptions| && s.redemptions[i].promotionId in s.promotions
        && e == GrantEntry(s, s.redemptions[i]);
    FitsStays(s, s', s.redemptions[i]);
    assert s'.redemptions[i] == s.redemptions[i];
  }

  /** Only a commit of flushed work and an account deletion change the ledger. */
  lemma CreditLedgerAfter(s: C.State, step: C.Step)
    requires C.Enabled(s, step) && !step.DeleteUser?
    ensures C.Next(s, step).ledger ==
            if step.Commit? && s.open[step.t].phase.Flushed? then s.ledger + [C.EntryOf(s.open[step.t].work)]
            else s.ledger
  {
  }

  /** The ledger rows a step leaves: old ones, and the row of what it commits. */
  lemma LedgerAfter(s: State, step: Step)
    requires Linked(s) && Enabled(s, step)
    ensures forall e :: e in Next(s, step).credits.ledger && e !in s.credits.ledger ==>
              || (step.CommitAll? && e == C.EntryOf(s.credits.open[step.t].work))
              || (step.OtherCredit? && step.credit.Commit? && e == C.EntryOf(s.credits.open[step.credit.t].work))
    ensures !step.DeleteAccount? ==> s.credits.ledger <= Next(s, step).credits.ledger
    ensures step.CommitAll? ==>
            Next(s, step).credits.ledger == s.credits.ledger + [C.EntryOf(s.credits.open[step.t].work)]
  {
    match step
    case GrantCredit(t, credit) => CreditLedgerAfter(s.credits, credit);
    case CommitAll(t) => CreditLedgerAfter(s.credits, C.Commit(t));
    case OtherCredit(credit) => CreditLedgerAfter(s.credits, credit);
    case DeleteAccount(user) => L.WithoutMembers(s.credits.ledger, user);
    case _ =>
  }

  lemma SourcedKept(s: State, step: Step)
    requires Pending(s) && Stored(s) && Linked(s) && Sourced(s) && Enabled(s, step)
    ensures Sourced(Next(s, step))
  {
    var s' := Next(s, step);
    StepEvolves(s, step);
    LedgerAfter(s, step);
    forall k | 0 <= k < |s'.credits.ledger| ensures EntrySourced(s', s'.credits.ledger[k]) {
      var e := s'.credits.ledger[k];
      if e in s.credits.ledger {
        EntryStaysSourced(s, s', e);
      } else if step.CommitAll? {
        CommittedEntryIsBacked(s, step.t);
      } else {
        assert e == C.EntryOf(s.credits.open[step.credit.t].work);
      }
    }
  }

  lemma EntryStaysSourced(s: State, s': State, e: L.Entry)
    requires Evolves(s, s') && Stored(s) && s.redemptions <= s'.redemptions && Sourced(s) && e in s.credits.ledger
    ensures EntrySourced(s', e)
  {
    var j :| 0 <= j < |s.credits.ledger| && s.credits.ledger[j] == e;
    assert EntrySourced(s, s.credits.ledger[j]);
    if FromPromotion(e) { BackedStays(s, s', e); }
  }

  lemma CommittedEntryIsBacked(s: State, t: TxnId)
    requires Pending(s) && Linked(s) && Enabled(s, CommitAll(t))
    ensures EntrySourced(Next(s, CommitAll(t)), C.EntryOf(s.credits.open[t].work))
  {
    var s' := Next(s, CommitAll(t));
    var a := s.attempts[t];
    assert CopyIsCurrent(s, a) && StillAllowed(s, a);
    assert s'.redemptions[|s.redemptions|] == a.phase.redemption;
    assert C.EntryOf(s.credits.open[t].work) == GrantEntry(s', a.phase.redemption);
  }

  lemma PaidKept(s: State, step: Step)
    requires Pending(s) && Stored(s) && Linked(s) && Paid(s) && Enabled(s, step)
    ensures Paid(Next(s, step))
  {
    var s' := Next(s, step);
    StepEvolves(s, step);
    LedgerAfter(s, step);
    if step.CommitAll? { assert CopyIsCurrent(s, s.attempts[step.t]) && StillAllowed(s, s.attempts[step.t]); }
    forall i | 0 <= i < |s'.redemptions| && s'.redemptions[i].user !in s'.deleted
      ensures s'.redemptions[i].promotionId in s'.promotions && GrantEntry(s', s'.redemptions[i]) in s'.credits.ledger
    {
      if i < |s.redemptions| {
        FitsStays(s, s', s.redemptions[i]);
        if step.DeleteAccount? { L.WithoutMembers(s.credits.ledger, step.user); }
      } else {
        assert s'.credits.ledger[|s.credits.ledger|] == GrantEntry(s', s'.redemptions[i]);
      }
    }
  }

  /** A redemption id belongs to one attempt, so what is reported is never pending again. */
  lemma ReportedKept(s: State, step: Step)
    requires Pending(s) && Reported(s) && Enabled(s, step)
    ensures Reported(Next(s, step))
  {
    if step.CommitAll? || step.GrantCredit? {
      assert StillAllowed(s, s.attempts[step.t]);
      FinishedIsReported(s, step);
    } else {
      PendingOnlyGrowsByRedeem(s, step);
    }
  }

  lemma FinishedIsReported(s: State, step: Step)
    requires NewIdsDiffer(s) && Reported(s) && Enabled(s, step) && (step.CommitAll? || step.GrantCredit?)
    requires s.attempts[step.t].phase.redemption.id in s.used
    ensures Reported(Next(s, step))
  {
  }

  lemma PendingOnlyGrowsByRedeem(s: State, step: Step)
    requires Reported(s) && Enabled(s, step) && !step.CommitAll? && !step.GrantCredit?
    ensures Reported(Next(s, step))
  {
  }

  lemma CreditsKept(s: State, step: Step)
    requires C.Inv(s.credits) && Enabled(s, step)
    ensures C.Inv(Next(s, step).credits)
  {
    match step
    case Redeem(t, at, id) =>
      var r := NewRedemption(s.attempts[t].request, s.attempts[t].phase.promotionId, id);
      C.InvKept(s.credits, C.Begin(t, GrantFor(r, s.attempts[t].phase.promotion.benefit)));
    case GrantCredit(t, credit) => C.InvKept(s.credits, credit);
    case CommitAll(t) => C.InvKept(s.credits, C.Commit(t));
    case Abandon(t) =>
      if t in s.credits.open {
        C.InvKept(s.credits, C.Abort(t));
      } else {
        assert C.RolledBack(s.credits, t) == s.credits;
      }
    case OtherCredit(credit) => C.InvKept(s.credits, credit);
    case DeleteAccount(user) => C.InvKept(s.credits, C.DeleteUser(user));
    case _ =>
  }

  lemma InvKept(s: State, step: Step)
    requires Inv(s) && Enabled(s, step)
    ensures Inv(Next(s, step))
  {
    CreditsKept(s, step);
    LocksKept(s, step);
    PendingKept(s, step);
    StoredKept(s, step);
    CountedKept(s, step);
    LinkedKept(s, step);
    SourcedKept(s, step);
    PaidKept(s, step);
    ReportedKept(s, step);
    StepEvolves(s, step);
  }

  lemma InitInv(s: State)
    requires Init(s)
    ensures Inv(s)
  {
  }

  lemma {:induction false} RunKeepsInv(states: seq<State>, steps: seq<Step>, i: nat)
    requires Run(states, steps) && i < |states|
    ensures Inv(states[i])
  {
    if i == 0 {
      InitInv(states[0]);
    } else {
      RunKeepsInv(states, steps, i - 1);
      assert Enabled(states[i - 1], steps[i - 1]);
      InvKept(states[i - 1], steps[i - 1]);
    }
  }
}
