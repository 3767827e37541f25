/** What holds in every state of every run of racing redemptions, grants, usages and account deletions. */
module RedemptionGuarantees {
  import opened Prelude
  import opened RedemptionKeys
  import opened Promotions
  import opened RedemptionProtocol
  import opened RedemptionInvariant
  import L = CreditLedger
  import C = CreditProtocol
  import G = CreditGuarantees

  /** The ledger row is the grant of this redemption. */
  ghost predicate Pays(s: State, k: nat, i: nat)
    requires k < |s.credits.ledger| && i < |s.redemptions|
  {
    var e, r := s.credits.ledger[k], s.redemptions[i];
    && FromPromotion(e) && e.source.value.id == r.id && e.user == r.user && e.action.Grant?
    && r.promotionId in s.promotions && e.amount == s.promotions[r.promotionId].benefit
  }

  /** A promotion-sourced ledger row pays exactly one redemption. */
  lemma EveryGrantHasOneRedemption(states: seq<State>, steps: seq<Step>, n: nat, k: nat)
    requires Run(states, steps) && n < |states| && k < |states[n].credits.ledger|
    requires FromPromotion(states[n].credits.ledger[k])
    ensures exists i :: 0 <= i < |states[n].redemptions| && Pays(states[n], k, i)
    ensures forall i, j :: 0 <= i < j < |states[n].redemptions| ==> !(Pays(states[n], k, i) && Pays(states[n], k, j))
  {
    var s := states[n];
    RunKeepsInv(states, steps, n);
    assert Backed(s, s.credits.ledger[k]);
    var i :| 0 <= i < |s.redemptions| && s.redemptions[i].promotionId in s.promotions
        && s.credits.ledger[k] == GrantEntry(s, s.redemptions[i]);
    assert Pays(s, k, i);
    forall i, j | 0 <= i < j < |s.redemptions| ensures !(Pays(s, k, i) && Pays(s, k, j)) {
      assert !Clash(s.redemptions[i], s.redemptions[j]);
    }
  }

  /** A redemption of a user whose account still exists is paid by exactly one ledger row. */
  lemma EveryRedemptionIsPaidOnce(states: seq<State>, steps: seq<Step>, n: nat, i: nat)
    requires Run(states, steps) && n < |states| && i < |states[n].redemptions|
    requires states[n].redemptions[i].user !in states[n].deleted
    ensures exists k :: 0 <= k < |states[n].credits.ledger| && Pays(states[n], k, i)
    ensures forall k, l :: 0 <= k < l < |states[n].credits.ledger| ==> !(Pays(states[n], k, i) && Pays(states[n], l, i))
  {
    var s := states[n];
    RunKeepsInv(states, steps, n);
    assert GrantEntry(s, s.redemptions[i]) in s.credits.ledger;
    var k :| 0 <= k < |s.credits.ledger| && s.credits.ledger[k] == GrantEntry(s, s.redemptions[i]);
    assert Pays(s, k, i);
    forall k, l | 0 <= k < l < |s.credits.ledger| ensures !(Pays(s, k, i) && Pays(s, l, i)) {
      assert !L.SameIdentity(s.credits.ledger[k], s.credits.ledger[l]);
    }
  }

  // ---- Sums -------------------------------------------------------------------------------------------

  /** Credits the user was granted by promotions, according to the ledger. */
  function PromotionTotal(ledger: seq<L.Entry>, user: Id): nat {
    if ledger == [] then 0
    else
      var e := ledger[|ledger| - 1];
      PromotionTotal(ledger[..|ledger| - 1], user) + if FromPromotion(e) && e.user == user then e.amount else 0
  }

  function BenefitOf(promotions: map<Id, Promotion>, p: Id): nat {
    if p in promotions then promotions[p].benefit else 0
  }

  /** What the user's redemptions promised. */
  function BenefitTotal(promotions: map<Id, Promotion>, redemptions: seq<Redemption>, user: Id): nat {
    if redemptions == [] then 0
    else
      var r := redemptions[|redemptions| - 1];
      BenefitTotal(promotions, redemptions[..|redemptions| - 1], user) + if r.user ==
          user then BenefitOf(promotions, r.promotionId) else 0
  }

  lemma PromotionTotalAppend(ledger: seq<L.Entry>, e: L.Entry, user: Id)
    ensures PromotionTotal(ledger + [e], user) == PromotionTotal(ledger, user) + if FromPromotion(e)
            && e.user == user then e.amount else 0
  {
    assert (ledger + [e])[..|ledger|] == ledger;
  }

  lemma {:induction false} PromotionTotalWithout(ledger: seq<L.Entry>, gone: Id, user: Id)
    requires gone != user
    ensures PromotionTotal(L.Without(ledger, gone), user) == PromotionTotal(ledger, user)
  {
    if ledger != [] {
      var e := ledger[|ledger| - 1];
      var rest := L.Without(ledger[..|ledger| - 1], gone);
      PromotionTotalWithout(ledger[..|ledger| - 1], gone, user);
      if e.user != gone {
        PromotionTotalAppend(rest, e, user);
      } else {
        assert rest + [] == rest;
      }
    }
  }

  lemma {:induction false} BenefitTotalFrame(before: map<Id, Promotion>, after: map<Id, Promotion>,
                                             redemptions: seq<Redemption>, user: Id)
    requires forall p :: BenefitOf(before, p) == BenefitOf(after, p)
    ensures BenefitTotal(before, redemptions, user) == BenefitTotal(after, redemptions, user)
  {
    if redemptions != [] {
      BenefitTotalFrame(before, after, redemptions[..|redemptions| - 1], user);
    }
  }

  lemma BenefitTotalAppend(promotions: map<Id, Promotion>, redemptions: seq<Redemption>, r: Redemption, user: Id)
    ensures BenefitTotal(promotions, redemptions + [r], user) ==
            BenefitTotal(promotions, redemptions, user) + if r.user ==
                user then BenefitOf(promotions, r.promotionId) else 0
  {
    assert (redemptions + [r])[..|redemptions|] == redemptions;
  }

  ghost predicate Conserved(s: State, user: Id) {
    PromotionTotal(s.credits.ledger, user) == BenefitTotal(s.promotions, s.redemptions, user)
  }

  /** Appending a redemption and its own ledger row keeps the two sums equal. */
  lemma BothSidesGrow(s: State, s': State, r: Redemption, user: Id)
    requires Evolves(s, s') && Conserved(s, user) && r.promotionId in s.promotions
    requires s'.redemptions == s.redemptions + [r] && s'.credits.ledger == s.credits.ledger + [GrantEntry(s, r)]
    ensures Conserved(s', user)
  {
    forall p ensures BenefitOf(s.promotions, p) == BenefitOf(s'.promotions, p) {}
    BenefitTotalFrame(s.promotions, s'.promotions, s.redemptions, user);
    BenefitTotalAppend(s'.promotions, s.redemptions, r, user);
    PromotionTotalAppend(s.credits.ledger, GrantEntry(s, r), user);
  }

  lemma CommitConserves(s: State, t: TxnId, user: Id)
    requires Inv(s) && Enabled(s, CommitAll(t)) && Conserved(s, user)
    ensures Conserved(Next(s, CommitAll(t)), user)
  {
    var a := s.attempts[t];
    assert CopyIsCurrent(s, a) && StillAllowed(s, a);
    LedgerAfter(s, CommitAll(t));
    StepEvolves(s, CommitAll(t));
    BothSidesGrow(s, Next(s, CommitAll(t)), a.phase.redemption, user);
  }

  lemma OtherCreditConserves(s: State, credit: C.Step, user: Id)
    requires Linked(s) && Enabled(s, OtherCredit(credit)) && Conserved(s, user)
    ensures Conserved(Next(s, OtherCredit(credit)), user)
  {
    if C.Committing(s.credits, credit) {
      var e := C.EntryOf(s.credits.open[credit.t].work);
      PromotionTotalAppend(s.credits.ledger, e, user);
      assert !FromPromotion(e);
    } else {
      G.OthersChangeNothing(s.credits, credit);
    }
  }

  lemma DeletionConserves(s: State, gone: Id, user: Id)
    requires Enabled(s, DeleteAccount(gone)) && Conserved(s, user) && gone != user
    ensures Conserved(Next(s, DeleteAccount(gone)), user)
  {
    PromotionTotalWithout(s.credits.ledger, gone, user);
  }

  lemma AttemptsConserve(s: State, step: Step, user: Id)
    requires Enabled(s, step) && !step.CommitAll? && !step.OtherCredit? && !step.DeleteAccount? && Conserved(s, user)
    ensures Conserved(Next(s, step), user)
  {
    AttemptsLeaveNothing(s, step);
  }

  lemma StepConserves(s: State, step: Step, user: Id)
    requires Inv(s) && Enabled(s, step) && Conserved(s, user) && user !in Next(s, step).deleted
    ensures Conserved(Next(s, step), user)
  {
    match step
    case CommitAll(t) => CommitConserves(s, t, user);
    case OtherCredit(credit) => OtherCreditConserves(s, credit, user);
    case DeleteAccount(gone) => DeletionConserves(s, gone, user);
    case _ => AttemptsConserve(s, step, user);
  }

  lemma DeletedStays(s: State, step: Step)
    requires Enabled(s, step)
    ensures s.deleted <= Next(s, step).deleted
  {
  }

  lemma NothingRedeemed(s: State, user: Id)
    requires Init(s)
    ensures Conserved(s, user)
  {
  }

  /** For a user whose account still exists, promotion credits in the ledger sum to the redeemed benefits. */
  lemma {:induction false} CreditsEqualRedeemedBenefits(states: seq<State>, steps: seq<Step>, n: nat, user: Id)
    requires Run(states, steps) && n < |states| && user !in states[n].deleted
    ensures Conserved(states[n], user)
  {
    if n > 0 {
      assert Enabled(states[n - 1], steps[n - 1]) && states[n] == Next(states[n - 1], steps[n - 1]);
      RunKeepsInv(states, steps, n - 1);
      DeletedStays(states[n - 1], steps[n - 1]);
      CreditsEqualRedeemedBenefits(states, steps, n - 1, user);
      StepConserves(states[n - 1], steps[n - 1], user);
    } else {
      NothingRedeemed(states[0], user);
    }
  }

  // ---- Caps -------------------------------------------------------------------------------------------

  /** Counters count the recorded redemptions, and no limit is ever passed. */
  lemma CapsHold(states: seq<State>, steps: seq<Step>, n: nat, p: Id, c: Id, user: Id)
    requires Run(states, steps) && n < |states|
    ensures p in states[n].promotions ==>
              var promotion := states[n].promotions[p];
              && promotion.timesRedeemed == CountFor(states[n].redemptions, p)
              && (promotion.maxRedemptions.Some? ==> promotion.timesRedeemed <= promotion.maxRedemptions.value)
              && (promotion.context != Some(Signup) ==>
                    CountForUser(states[n].redemptions, p, user) <= promotion.maxPerUser)
    ensures c in states[n].codes ==>
              var code := states[n].codes[c];
              && code.timesRedeemed == CountForCode(states[n].redemptions, c)
              && (code.maxRedemptions.Some? ==> code.timesRedeemed <= code.maxRedemptions.value)
  {
    RunKeepsInv(states, steps, n);
    assert Counted(states[n]);
  }

  /** One signup redemption per promotion and beneficiary, one redemption per idempotency key. */
  lemma RedeemedOnce(states: seq<State>, steps: seq<Step>, n: nat, i: nat, j: nat)
    requires Run(states, steps) && n < |states| && i < j < |states[n].redemptions|
    ensures states[n].redemptions[i].key != states[n].redemptions[j].key
    ensures states[n].redemptions[i].promotionId == states[n].redemptions[j].promotionId
            && states[n].redemptions[i].beneficiary.Some? ==>
              states[n].redemptions[i].beneficiary != states[n].redemptions[j].beneficiary
  {
    RunKeepsInv(states, steps, n);
    assert !Clash(states[n].redemptions[i], states[n].redemptions[j]);
  }

  // ---- All or nothing ----------------------------------------------------------------------------------

  ghost predicate SameTables(s: State, s': State) {
    && s'.promotions == s.promotions && s'.codes == s.codes && s'.redemptions == s.redemptions
    && s'.credits.balances == s.credits.balances && s'.credits.ledger == s.credits.ledger
  }

  /** Until it commits, an attempt changes no committed row; a losing racer's rollback leaves none behind. */
  lemma AttemptsLeaveNothing(s: State, step: Step)
    requires Enabled(s, step) && !step.CommitAll? && !step.OtherCredit? && !step.DeleteAccount?
    ensures SameTables(s, Next(s, step))
  {
    if step.GrantCredit? { CreditStepIsLocal(s.credits, step.credit, step.t); }
  }

  // ---- Waiting -----------------------------------------------------------------------------------------

  /** The promotion that the attempt has to lock next. */
  predicate WantsPromotion(s: State, a: Attempt, p: Id, at: int)
    requires p in s.promotions
  {
    match a.request
    case Direct(q, _, _) => a.phase.Asked? && p == q && s.promotions[p].context != Some(Signup)
    case ByCode(_, _, _) =>
      a.phase.HoldsCode? && p == a.phase.held.promotionId && s.promotions[p].context != Some(Signup)
    case AtSignup(_, _) =>
      && a.phase.Asked? && s.promotions[p].context == Some(Signup) && PromotionRefusal(s.promotions[p], at).None?
  }

  /** An attempt waits for nothing but an attempt that has locked its code, or its promotion. */
  lemma AttemptsWaitForLocksOnly(s: State, t: TxnId, p: Id, at: int)
    requires t in s.attempts
    ensures var a := s.attempts[t];
            a.request.ByCode? && a.phase.Asked? && a.request.codeId in s.codes && !Enabled(s, LockCode(t)) ==>
              exists o :: o in s.attempts && o != t && s.attempts[o].request.ByCode? && !s.attempts[o].phase.Asked?
                            && s.attempts[o].request.codeId == a.request.codeId
    ensures p in s.promotions && WantsPromotion(s, s.attempts[t], p, at) && !Enabled(s, LockPromotion(t, p, at)) ==>
              exists o :: o in s.attempts && o != t
                            && (s.attempts[o].phase.HoldsPromotion? || s.attempts[o].phase.Redeemed?)
                            && s.attempts[o].phase.promotionId == p
    ensures s.attempts[t].phase.Redeemed? && G.CanGoOn(s.credits, t) ==>
              || Enabled(s, GrantCredit(t, C.Check(t))) || Enabled(s, GrantCredit(t, C.Lock(t)))
              || Enabled(s, GrantCredit(t, C.Save(t))) || Enabled(s, GrantCredit(t, C.Flush(t)))
              || Enabled(s, CommitAll(t))
  {
    if p in s.promotions { CurrentSignupIsRedeemable(s.promotions[p], at); }
  }

  /**
   * Redemptions leave everything else to go on as without them: requests arrive at any time, any work that
   * carries no redemption's key or source begins and takes its steps, and accounts are deleted.
   */
  lemma EverythingElseGoesOn(s: State, o: TxnId, request: Request, w: C.Work, user: Id)
    requires o !in s.attempts
    ensures o !in s.credits.open ==> Enabled(s, Ask(o, request))
    ensures o !in s.credits.open && w.amount >= 1
            && (w.GrantWork? ==>
                  && (w.key.None? || w.key.value.OtherKey?)
                  && (w.source.None? || !w.source.value.kind.PromotionRedemption?)) ==>
              Enabled(s, OtherCredit(C.Begin(o, w)))
    ensures forall step :: step in {C.Check(o), C.Lock(o), C.Save(o), C.Flush(o), C.Commit(o), C.Abort(o)} ==>
              (Enabled(s, OtherCredit(step)) <==> C.Enabled(s.credits, step))
    ensures Enabled(s, DeleteAccount(user)) <==> C.Enabled(s.credits, C.DeleteUser(user))
  {
  }

  /**
   * An attempt may be given up at any point. It is then gone, with its credit grant and all its locks, and
   * everything else stays as it was.
   */
  lemma GivingUpLeavesNothing(states: seq<State>, steps: seq<Step>, n: nat, t: TxnId, o: TxnId, c: Id, p: Id)
    requires Run(states, steps) && n < |states| && t in states[n].attempts && o != t
    ensures Enabled(states[n], Abandon(t))
    ensures var s, s' := states[n], Next(states[n], Abandon(t));
            && SameTables(s, s') && s'.reported == s.reported && s'.deleted == s.deleted
            && s'.attempts.Keys == s.attempts.Keys - {t} && s'.credits.open.Keys == s.credits.open.Keys - {t}
            && (o in s'.attempts ==> s'.attempts[o] == s.attempts[o])
            && (o in s'.credits.open ==> s'.credits.open[o] == s.credits.open[o])
            && (CodeHeld(s.attempts[t], c) ==> CodeFree(s', o, c))
            && (PromotionHeld(s.attempts[t], p) ==> PromotionFree(s', o, p))
  {
    RunKeepsInv(states, steps, n);
    assert Locks(states[n]);
  }

  /** Its commit writes everything: the counter, the redemption, the ledger row and the balance. */
  lemma CommitWritesEverything(states: seq<State>, steps: seq<Step>, n: nat, t: TxnId)
    requires Run(states, steps) && n < |states| && Enabled(states[n], CommitAll(t))
    ensures var s := states[n];
            var s' := Next(s, CommitAll(t));
            var r := s.attempts[t].phase.redemption;
            && s.credits.open[t].phase.Flushed?
            && r.promotionId in s.promotions
                && s'.promotions == s.promotions[r.promotionId := Recorded(s.promotions[r.promotionId])]
            && (r.codeId.Some? ==>
                  r.codeId.value in s.codes
                      && s'.codes == s.codes[r.codeId.value := CodeRecorded(s.codes[r.codeId.value])])
            && (r.codeId.None? ==> s'.codes == s.codes)
            && s'.redemptions == s.redemptions + [r]
            && s'.credits.ledger ==
                 s.credits.ledger + [L.Entry(r.user, L.Grant, s.promotions[r.promotionId].benefit, Some(CreditKey(r)),
                                             Some(L.Source(L.PromotionRedemption, r.id)))]
            && r.user in s'.credits.balances
            && (s.credits.open[t].phase.seen.Some? ==>
                  r.user in s.credits.balances &&
                  L.Applied(s.credits.balances[r.user], L.Grant, s.promotions[r.promotionId].benefit) ==
                      Some(s'.credits.balances[r.user]))
  {
    var s := states[n];
    RunKeepsInv(states, steps, n);
    assert CopyIsCurrent(s, s.attempts[t]) && StillAllowed(s, s.attempts[t]);
    assert C.InStep(s.credits, s.credits.open[t]);
  }

  // ---- Balances ------------------------------------------------------------------------------------------

  predicate StaleStep(s: State, step: Step) {
    || (step.CommitAll? && G.Stale(s.credits, step.t))
    || (step.OtherCredit? && G.StaleCommit(s.credits, step.credit))
  }

  lemma StepAgreesExactly(s: State, step: Step)
    requires Inv(s) && G.Agreement(s.credits) && Enabled(s, step)
    ensures G.Agreement(Next(s, step).credits) <==> !StaleStep(s, step)
  {
    match step
    case CommitAll(t) => G.AgreementKeptExactly(s.credits, C.Commit(t));
    case OtherCredit(credit) => G.AgreementKeptExactly(s.credits, credit);
    case DeleteAccount(user) => G.AgreementKeptExactly(s.credits, C.DeleteUser(user));
    case _ =>
      AttemptsLeaveNothing(s, step);
      G.AgreementIsAboutTables(s.credits, Next(s, step).credits);
  }

  ghost predicate AlwaysAgrees(states: seq<State>, n: nat)
    requires n < |states|
  {
    forall i {:trigger states[i]} :: 0 <= i <= n ==> G.Agreement(states[i].credits)
  }

  ghost predicate NoStaleStep(states: seq<State>, steps: seq<Step>, n: nat)
    requires n <= |steps| < |states|
  {
    forall i {:trigger steps[i]} :: 0 <= i < n ==> !StaleStep(states[i], steps[i])
  }

  lemma RunStepAgreesExactly(states: seq<State>, steps: seq<Step>, n: nat)
    requires Run(states, steps) && n < |steps| && G.Agreement(states[n].credits)
    ensures G.Agreement(states[n + 1].credits) <==> !StaleStep(states[n], steps[n])
  {
    RunKeepsInv(states, steps, n);
    assert Enabled(states[n], steps[n]);
    StepAgreesExactly(states[n], steps[n]);
  }

  lemma AgreesOneStepMore(states: seq<State>, steps: seq<Step>, n: nat)
    requires 0 < n <= |steps| < |states|
    ensures AlwaysAgrees(states, n) <==> AlwaysAgrees(states, n - 1) && G.Agreement(states[n].credits)
    ensures NoStaleStep(states, steps, n) <==>
            NoStaleStep(states, steps, n - 1) && !StaleStep(states[n - 1], steps[n - 1])
  {
    assert AlwaysAgrees(states, n) ==> G.Agreement(states[n].credits);
    assert NoStaleStep(states, steps, n) ==> !StaleStep(states[n - 1], steps[n - 1]);
  }

  /** With redemptions in the run, balances and ledger agree throughout exactly without a stale commit. */
  lemma {:induction false} BalancesAgreeExactly(states: seq<State>, steps: seq<Step>, n: nat)
    requires Run(states, steps) && n <= |steps|
    ensures AlwaysAgrees(states, n) <==> NoStaleStep(states, steps, n)
  {
    if n == 0 {
      assert G.Agreement(states[0].credits);
    } else {
      BalancesAgreeExactly(states, steps, n - 1);
      AgreesOneStepMore(states, steps, n);
      if AlwaysAgrees(states, n - 1) {
        assert G.Agreement(states[n - 1].credits);
        RunStepAgreesExactly(states, steps, n - 1);
      }
    }
  }

  // ---- Answers -----------------------------------------------------------------------------------------

  /**
   * How the flush of a redemption's grant can end. It fails exactly when the save's lookup and the
   * committed row disagree: a first row committed meanwhile is taken for a repetition, and the grant is
   * still reported; a row deleted meanwhile is raised, and can only follow a save without a lock.
   */
  lemma FlushFailsExactly(states: seq<State>, steps: seq<Step>, n: nat, t: TxnId)
    requires Run(states, steps) && n < |states| && Enabled(states[n], GrantCredit(t, C.Flush(t)))
    ensures var s := states[n];
            var s' := Next(s, GrantCredit(t, C.Flush(t)));
            && SameTables(s, s')
            && (t !in s'.attempts <==> C.FirstRowLost(s.credits, t) || C.RowGone(s.credits, t))
            && s'.reported == (if C.FirstRowLost(s.credits, t) then s.reported + {s.attempts[t].phase.redemption}
                               else s.reported)
            && (C.RowGone(s.credits, t) ==> s.credits.open[t].phase.seen.None?)
  {
    var s := states[n];
    RunKeepsInv(states, steps, n);
    PendingHasNoEntry(s, t);
    AttemptsLeaveNothing(s, GrantCredit(t, C.Flush(t)));
    assert C.InStep(s.credits, s.credits.open[t]);
  }

  /** The redemption is at its flush, and its user's first balance row has been committed by another. */
  predicate LosesFirstRow(s: State, step: Step, r: Redemption) {
    && step.GrantCredit? && step.credit == C.Flush(step.t)
    && step.t in s.attempts && s.attempts[step.t].phase.Redeemed? && s.attempts[step.t].phase.redemption == r
    && C.FirstRowLost(s.credits, step.t)
  }

  ghost predicate LostBefore(states: seq<State>, steps: seq<Step>, n: nat, r: Redemption)
    requires n <= |steps| < |states|
  {
    exists k {:trigger steps[k]} :: 0 <= k < n && LosesFirstRow(states[k], steps[k], r)
  }

  /** What one step does to the answers and the stored redemptions. */
  ghost predicate AnswersAfter(s: State, step: Step, s': State, r: Redemption) {
    && (r in s.reported ==>
          r in s'.reported && !LosesFirstRow(s, step, r) && (r in s'.redemptions <==> r in s.redemptions))
    && (r !in s.reported && r in s'.reported ==> (r in s'.redemptions <==> !LosesFirstRow(s, step, r)))
    && (LosesFirstRow(s, step, r) ==> r in s'.reported)
  }

  lemma AnswersOfGrant(s: State, t: TxnId, credit: C.Step, r: Redemption)
    requires Inv(s) && Enabled(s, GrantCredit(t, credit))
    ensures AnswersAfter(s, GrantCredit(t, credit), Next(s, GrantCredit(t, credit)), r)
  {
    CreditStepIsLocal(s.credits, credit, t);
    PendingHasNoEntry(s, t);
  }

  lemma AnswersOfRest(s: State, step: Step, r: Redemption)
    requires Reported(s) && Enabled(s, step) && !step.GrantCredit?
    ensures AnswersAfter(s, step, Next(s, step), r)
  {
  }

  lemma AnswersAlong(states: seq<State>, steps: seq<Step>, i: nat, r: Redemption)
    requires Run(states, steps) && i < |steps|
    ensures AnswersAfter(states[i], steps[i], states[i + 1], r)
  {
    RunKeepsInv(states, steps, i);
    assert Enabled(states[i], steps[i]);
    if steps[i].GrantCredit? {
      AnswersOfGrant(states[i], steps[i].t, steps[i].credit, r);
    } else {
      AnswersOfRest(states[i], steps[i], r);
    }
  }

  lemma {:induction false} LostIsReported(states: seq<State>, steps: seq<Step>, n: nat, r: Redemption)
    requires Run(states, steps) && n <= |steps| && LostBefore(states, steps, n, r)
    ensures r in states[n].reported
  {
    AnswersAlong(states, steps, n - 1, r);
    LostOneStepMore(states, steps, n, r);
    if !LosesFirstRow(states[n - 1], steps[n - 1], r) {
      LostIsReported(states, steps, n - 1, r);
    }
  }

  /**
   * A redemption that a command has answered as granted is stored exactly if it did not lose its user's
   * first balance row to another transaction at its flush.
   */
  lemma {:induction false} AnswerIsTrueExactly(states: seq<State>, steps: seq<Step>, n: nat, r: Redemption)
    requires Run(states, steps) && n <= |steps| && r in states[n].reported
    ensures r in states[n].redemptions <==> !LostBefore(states, steps, n, r)
  {
    assert n > 0;
    AnswersAlong(states, steps, n - 1, r);
    LostOneStepMore(states, steps, n, r);
    if r in states[n - 1].reported {
      AnswerIsTrueExactly(states, steps, n - 1, r);
    } else if LostBefore(states, steps, n - 1, r) {
      LostIsReported(states, steps, n - 1, r);
    }
  }

  lemma LostOneStepMore(states: seq<State>, steps: seq<Step>, n: nat, r: Redemption)
    requires 0 < n <= |steps| < |states|
    ensures LostBefore(states, steps, n, r) <==>
            LostBefore(states, steps, n - 1, r) || LosesFirstRow(states[n - 1], steps[n - 1], r)
  {
    if LostBefore(states, steps, n, r) {
      var k :| 0 <= k < n && LosesFirstRow(states[k], steps[k], r);
      assert k == n - 1 || LostBefore(states, steps, n - 1, r);
    }
    if LosesFirstRow(states[n - 1], steps[n - 1], r) {
      assert LosesFirstRow(states[n - 1], steps[n - 1], r);
    }
  }
}
