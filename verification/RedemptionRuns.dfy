/**
 * Whole redemptions as runs of the protocol: with nobody else around a run does what the command does,
 * and two first redemptions of one user can lose one of them although both are answered as granted.
 */
module RedemptionRuns {
  import opened Prelude
  import opened RedemptionKeys
  import opened Promotions
  import opened RedemptionProtocol
  import opened RedemptionInvariant
  import L = CreditLedger
  import C = CreditProtocol
  import U = RedemptionUseCases
  import S = CreditUseCases

  // ---- Running a list of steps ---------------------------------------------------------------------------

  predicate CanRun(s: State, steps: seq<Step>)
    decreases |steps|
  {
    steps == [] || (Enabled(s, steps[0]) && CanRun(Next(s, steps[0]), steps[1..]))
  }

  function End(s: State, steps: seq<Step>): State
    requires CanRun(s, steps)
    decreases |steps|
  {
    if steps == [] then s else End(Next(s, steps[0]), steps[1..])
  }

  lemma RunOne(s: State, step: Step)
    ensures CanRun(s, [step]) <==> Enabled(s, step)
    ensures CanRun(s, [step]) ==> End(s, [step]) == Next(s, step)
  {
    assert [step][1..] == [];
  }

  lemma {:induction false} RunConcat(s: State, a: seq<Step>, b: seq<Step>)
    ensures CanRun(s, a + b) <==> CanRun(s, a) && CanRun(End(s, a), b)
    ensures CanRun(s, a + b) ==> End(s, a + b) == End(End(s, a), b)
    decreases |a|
  {
    if a == [] {
      assert a + b == b;
    } else {
      assert (a + b)[0] == a[0] && (a + b)[1..] == a[1..] + b;
      if Enabled(s, a[0]) { RunConcat(Next(s, a[0]), a[1..], b); }
    }
  }

  lemma RunTwo(s: State, a: Step, b: Step)
    requires Enabled(s, a) && Enabled(Next(s, a), b)
    ensures CanRun(s, [a] + [b]) && End(s, [a] + [b]) == Next(Next(s, a), b)
  {
    RunConcat(s, [a], [b]);
    RunOne(s, a);
    RunOne(Next(s, a), b);
  }

  lemma RunThree(s: State, a: Step, s1: State, b: Step, s2: State, c: Step)
    requires Enabled(s, a) && Next(s, a) == s1
    requires Enabled(s1, b) && Next(s1, b) == s2
    requires Enabled(s2, c)
    ensures CanRun(s, [a] + [b] + [c]) && End(s, [a] + [b] + [c]) == Next(s2, c)
  {
    RunTwo(s, a, b);
    RunConcat(s, [a] + [b], [c]);
    RunOne(s2, c);
  }

  lemma {:induction false} RunKeeps(s: State, steps: seq<Step>)
    requires Inv(s) && CanRun(s, steps)
    ensures Inv(End(s, steps))
    decreases |steps|
  {
    if steps != [] {
      InvKept(s, steps[0]);
      RunKeeps(Next(s, steps[0]), steps[1..]);
    }
  }

  // ---- One redemption, stretch by stretch ------------------------------------------------------------------

  /** Its transaction is new, and nobody holds the code or the promotion. */
  ghost predicate Unhindered(s: State, t: TxnId, request: Request, p: Id) {
    && t !in s.attempts && t !in s.credits.open && PromotionFree(s, t, p)
    && (request.ByCode? ==> CodeFree(s, t, request.codeId))
  }

  predicate MayStart(s: State, request: Request, p: Id, at: int) {
    && p in s.promotions
    && match request
       case Direct(q, _, _) => p == q && s.promotions[p].context != Some(Signup)
       case ByCode(c, _, _) => c in s.codes && p == s.codes[c].promotionId && s.promotions[p].context != Some(Signup)
       case AtSignup(_, _) => IsCurrentSignup(s.promotions[p], at)
  }

  function Locking(t: TxnId, request: Request, p: Id, at: int): seq<Step> {
    [Ask(t, request)] + (if request.ByCode? then [LockCode(t)] else []) + [LockPromotion(t, p, at)]
  }

  function With(s: State, t: TxnId, request: Request, phase: Phase): State {
    s.(attempts := s.attempts[t := Attempt(request, phase)])
  }

  function Holding(s: State, t: TxnId, request: Request, p: Id): State
    requires p in s.promotions
  {
    With(s, t, request, HoldsPromotion(U.CodeOf(U.TablesOf(s), request), p, s.promotions[p]))
  }

  lemma LockingWithoutCode(s: State, t: TxnId, request: Request, p: Id, at: int)
    requires Unhindered(s, t, request, p) && !request.ByCode?
    ensures CanRun(s, Locking(t, request, p, at)) <==> MayStart(s, request, p, at)
    ensures MayStart(s, request, p, at) ==> End(s, Locking(t, request, p, at)) == Holding(s, t, request, p)
  {
    var s1 := With(s, t, request, Asked);
    assert Locking(t, request, p, at) == [Ask(t, request)] + [LockPromotion(t, p, at)];
    RunConcat(s, [Ask(t, request)], [LockPromotion(t, p, at)]);
    RunOne(s, Ask(t, request));
    RunOne(s1, LockPromotion(t, p, at));
    assert Enabled(s1, LockPromotion(t, p, at)) <==> MayStart(s, request, p, at);
    if MayStart(s, request, p, at) {
      assert Next(s1, LockPromotion(t, p, at)) == Holding(s, t, request, p);
    }
  }

  lemma LockingWithCode(s: State, t: TxnId, request: Request, p: Id, at: int)
    requires Unhindered(s, t, request, p) && request.ByCode?
    ensures CanRun(s, Locking(t, request, p, at)) <==> MayStart(s, request, p, at)
    ensures MayStart(s, request, p, at) ==> End(s, Locking(t, request, p, at)) == Holding(s, t, request, p)
  {
    var ask, code, promotion := Ask(t, request), LockCode(t), LockPromotion(t, p, at);
    var s1 := With(s, t, request, Asked);
    assert Locking(t, request, p, at) == [ask] + [code] + [promotion];
    RunConcat(s, [ask], [code]);
    RunConcat(s, [ask] + [code], [promotion]);
    RunOne(s, ask);
    RunOne(s1, code);
    if request.codeId in s.codes {
      var s2 := With(s, t, request, HoldsCode(s.codes[request.codeId]));
      assert Next(s1, code) == s2;
      RunOne(s2, promotion);
      assert Enabled(s2, promotion) <==> MayStart(s, request, p, at);
      if MayStart(s, request, p, at) {
        assert Next(s2, promotion) == Holding(s, t, request, p);
      }
    }
  }

  lemma LockingRuns(s: State, t: TxnId, request: Request, p: Id, at: int)
    requires Unhindered(s, t, request, p)
    ensures CanRun(s, Locking(t, request, p, at)) <==> MayStart(s, request, p, at)
    ensures MayStart(s, request, p, at) ==> End(s, Locking(t, request, p, at)) == Holding(s, t, request, p)
  {
    if request.ByCode? { LockingWithCode(s, t, request, p, at); } else { LockingWithoutCode(s, t, request, p, at); }
  }

  /** The request may lock its rows and is then granted: what the command decides on the same tables. */
  predicate WouldGrant(s: State, request: Request, p: Id, at: int) {
    && U.Decide(U.TablesOf(s), request, Some(p), at) == U.Grant(p)
    && (request.AtSignup? ==> p in s.promotions && IsCurrentSignup(s.promotions[p], at))
  }

  function Redeeming(s: State, t: TxnId, request: Request, p: Id, id: Id, phase: C.Phase): State
    requires p in s.promotions
  {
    var r := NewRedemption(request, p, id);
    With(s, t, request, Redeemed(U.CodeOf(U.TablesOf(s), request), p, s.promotions[p], r))
      .(credits := s.credits.(open := s.credits.open[t := C.Txn(GrantFor(r, s.promotions[p].benefit), phase)]),
        used := s.used + {id})
  }

  lemma RedeemRuns(s: State, t: TxnId, request: Request, p: Id, at: int, id: Id)
    requires MayStart(s, request, p, at) && Payable(s) && id !in s.used && t !in s.credits.open
    ensures Enabled(Holding(s, t, request, p), Redeem(t, at, id)) <==> WouldGrant(s, request, p, at)
    ensures WouldGrant(s, request, p, at) ==>
              Next(Holding(s, t, request, p), Redeem(t, at, id)) == Redeeming(s, t, request, p, id, C.Started)
  {
    var held := Holding(s, t, request, p);
    assert CopyIsCurrent(held, held.attempts[t]);
    assert U.TablesOf(held) == U.TablesOf(s);
    U.ProtocolGrantsExactlyThese(held, held.attempts[t], at);
    if request.AtSignup? { CurrentSignupIsRedeemable(s.promotions[p], at); }
  }

  lemma GrantsOnlyWhatMayStart(s: State, request: Request, p: Id, at: int)
    ensures WouldGrant(s, request, p, at) ==> MayStart(s, request, p, at)
  {
  }

  function Granting(t: TxnId): seq<Step> {
    [GrantCredit(t, C.Check(t))] + [GrantCredit(t, C.Lock(t))] + [GrantCredit(t, C.Save(t))]
  }

  function GrantWork(s: State, request: Request, p: Id, id: Id): C.Work
    requires p in s.promotions
  {
    GrantFor(NewRedemption(request, p, id), s.promotions[p].benefit)
  }

  lemma GrantPhases(s: State, t: TxnId, request: Request, p: Id, id: Id, from: C.Phase, to: C.Phase)
    requires p in s.promotions
    ensures GrantAt(Redeeming(s, t, request, p, id, from), t, to) == Redeeming(s, t, request, p, id, to)
    ensures InGrant(Redeeming(s, t, request, p, id, from), t)
  {
  }

  lemma GrantingRuns(s: State, t: TxnId, request: Request, p: Id, id: Id)
    requires p in s.promotions && t !in s.credits.open
    requires C.RowFree(s.credits, t, request.user)
    requires !C.HasEntry(s.credits.ledger, C.EntryOf(GrantWork(s, request, p, id)))
    ensures var seen := C.Lookup(s.credits.balances, request.user);
            var next := C.Outcome(GrantWork(s, request, p, id), seen).value;
            && CanRun(Redeeming(s, t, request, p, id, C.Started), Granting(t))
            && End(Redeeming(s, t, request, p, id, C.Started), Granting(t)) ==
               Redeeming(s, t, request, p, id, C.Saved(seen, seen.None?, next))
  {
    var seen := C.Lookup(s.credits.balances, request.user);
    var next := C.Outcome(GrantWork(s, request, p, id), seen).value;
    var s1 := Redeeming(s, t, request, p, id, C.Started);
    var s2 := Redeeming(s, t, request, p, id, C.Checked);
    var s3 := Redeeming(s, t, request, p, id, C.Locked(seen));
    GrantPhases(s, t, request, p, id, C.Started, C.Checked);
    GrantPhases(s, t, request, p, id, C.Checked, C.Locked(seen));
    GrantPhases(s, t, request, p, id, C.Locked(seen), C.Saved(seen, seen.None?, next));
    CheckMoves(s1, t);
    LockMoves(s2, t);
    SaveMoves(s3, t, seen, next);
    RunThree(s1, GrantCredit(t, C.Check(t)), s2, GrantCredit(t, C.Lock(t)), s3, GrantCredit(t, C.Save(t)));
  }

  function GrantAt(s: State, t: TxnId, phase: C.Phase): State
    requires t in s.credits.open
  {
    s.(credits := s.credits.(open := s.credits.open[t := s.credits.open[t].(phase := phase)]))
  }

  ghost predicate InGrant(s: State, t: TxnId) {
    t in s.attempts && s.attempts[t].phase.Redeemed? && t in s.credits.open
  }

  lemma CheckMoves(s: State, t: TxnId)
    requires InGrant(s, t) && s.credits.open[t].phase.Started?
    requires !C.HasEntry(s.credits.ledger, C.EntryOf(s.credits.open[t].work))
    ensures Enabled(s, GrantCredit(t, C.Check(t)))
    ensures Next(s, GrantCredit(t, C.Check(t))) == GrantAt(s, t, C.Checked)
  {
  }

  lemma LockMoves(s: State, t: TxnId)
    requires InGrant(s, t) && s.credits.open[t].phase.Checked? && C.RowFree(s.credits, t, s.credits.open[t].work.user)
    ensures Enabled(s, GrantCredit(t, C.Lock(t)))
    ensures Next(s, GrantCredit(t, C.Lock(t))) ==
            GrantAt(s, t, C.Locked(C.Lookup(s.credits.balances, s.credits.open[t].work.user)))
  {
  }

  lemma SaveMoves(s: State, t: TxnId, seen: Option<L.Balance>, next: L.Balance)
    requires InGrant(s, t) && s.credits.open[t].phase == C.Locked(seen) && s.credits.open[t].work.GrantWork?
    requires seen == C.Lookup(s.credits.balances, s.credits.open[t].work.user)
    requires next == C.Outcome(s.credits.open[t].work, seen).value
    ensures Enabled(s, GrantCredit(t, C.Save(t)))
    ensures Next(s, GrantCredit(t, C.Save(t))) == GrantAt(s, t, C.Saved(seen, seen.None?, next))
  {
  }

  /** Nobody else's flushed rows are in the way, and the save's lookup still holds. */
  lemma FlushMoves(s: State, t: TxnId, seen: Option<L.Balance>, insert: bool, next: L.Balance)
    requires InGrant(s, t) && s.credits.open[t].phase == C.Saved(seen, insert, next)
    requires !C.MustWait(s.credits, t) && !C.FlushFails(s.credits, t)
    ensures Enabled(s, GrantCredit(t, C.Flush(t)))
    ensures Next(s, GrantCredit(t, C.Flush(t))) == GrantAt(s, t, C.Flushed(seen, insert, next))
  {
  }

  function Opening(t: TxnId, request: Request, p: Id, at: int, id: Id): seq<Step> {
    Locking(t, request, p, at) + [Redeem(t, at, id)]
  }

  lemma OpeningRuns(s: State, t: TxnId, request: Request, p: Id, at: int, id: Id)
    requires Unhindered(s, t, request, p) && Payable(s) && id !in s.used
    ensures CanRun(s, Opening(t, request, p, at, id)) <==> WouldGrant(s, request, p, at)
    ensures WouldGrant(s, request, p, at) ==>
              p in s.promotions && End(s, Opening(t, request, p, at, id)) == Redeeming(s, t, request, p, id, C.Started)
  {
    RunConcat(s, Locking(t, request, p, at), [Redeem(t, at, id)]);
    LockingRuns(s, t, request, p, at);
    GrantsOnlyWhatMayStart(s, request, p, at);
    if MayStart(s, request, p, at) {
      RunOne(Holding(s, t, request, p), Redeem(t, at, id));
      RedeemRuns(s, t, request, p, at, id);
    }
  }

  /** Up to its save a redemption that would be granted runs whatever else is going on, if its rows are free. */
  lemma UpToSaveRuns(s: State, t: TxnId, request: Request, p: Id, at: int, id: Id)
    requires Inv(s) && Unhindered(s, t, request, p) && id !in s.used && C.RowFree(s.credits, t, request.user)
    ensures CanRun(s, Opening(t, request, p, at, id) + Granting(t)) <==> WouldGrant(s, request, p, at)
    ensures WouldGrant(s, request, p, at) ==>
              var seen := C.Lookup(s.credits.balances, request.user);
              && p in s.promotions
              && End(s, Opening(t, request, p, at, id) + Granting(t)) ==
                 Redeeming(s, t, request, p, id,
                           C.Saved(seen, seen.None?, C.Outcome(GrantWork(s, request, p, id), seen).value))
  {
    RunConcat(s, Opening(t, request, p, at, id), Granting(t));
    OpeningRuns(s, t, request, p, at, id);
    if WouldGrant(s, request, p, at) {
      RunKeeps(s, Opening(t, request, p, at, id));
      PendingHasNoEntry(Redeeming(s, t, request, p, id, C.Started), t);
      GrantingRuns(s, t, request, p, id);
    }
  }

  // ---- Alone ----------------------------------------------------------------------------------------------

  predicate Quiet(s: State) {
    s.attempts == map[] && s.credits.open == map[]
  }

  function Finishing(t: TxnId): seq<Step> {
    [GrantCredit(t, C.Flush(t))] + [CommitAll(t)]
  }

  lemma FinishingRuns(s: State, t: TxnId, request: Request, p: Id, id: Id)
    requires Quiet(s) && p in s.promotions
    requires !C.HasEntry(s.credits.ledger, C.EntryOf(GrantWork(s, request, p, id)))
    ensures var w := GrantWork(s, request, p, id);
            var seen := C.Lookup(s.credits.balances, request.user);
            var saved := Redeeming(s, t, request, p, id, C.Saved(seen, seen.None?, C.Outcome(w, seen).value));
            && CanRun(saved, Finishing(t))
            && U.TablesOf(End(saved, Finishing(t))) == U.Redeemed(U.TablesOf(s), request, p, id)
            && Quiet(End(saved, Finishing(t)))
  {
    var w := GrantWork(s, request, p, id);
    var seen := C.Lookup(s.credits.balances, request.user);
    var next := C.Outcome(w, seen).value;
    var saved := Redeeming(s, t, request, p, id, C.Saved(seen, seen.None?, next));
    var flushed := Redeeming(s, t, request, p, id, C.Flushed(seen, seen.None?, next));
    FlushMoves(saved, t, seen, seen.None?, next);
    assert GrantAt(saved, t, C.Flushed(seen, seen.None?, next)) == flushed;
    CommittedTables(s, t, request, p, id);
    RunTwo(saved, GrantCredit(t, C.Flush(t)), CommitAll(t));
  }

  lemma CommittedTables(s: State, t: TxnId, request: Request, p: Id, id: Id)
    requires Quiet(s) && p in s.promotions
    requires !C.HasEntry(s.credits.ledger, C.EntryOf(GrantWork(s, request, p, id)))
    ensures var w := GrantWork(s, request, p, id);
            var seen := C.Lookup(s.credits.balances, request.user);
            var flushed := Redeeming(s, t, request, p, id, C.Flushed(seen, seen.None?, C.Outcome(w, seen).value));
            && Enabled(flushed, CommitAll(t))
            && U.TablesOf(Next(flushed, CommitAll(t))) == U.Redeemed(U.TablesOf(s), request, p, id)
            && Quiet(Next(flushed, CommitAll(t)))
  {
  }

  function Whole(t: TxnId, request: Request, p: Id, at: int, id: Id): seq<Step> {
    Opening(t, request, p, at, id) + Granting(t) + Finishing(t)
  }

  /**
   * With nobody else around, the steps of a redemption can all be taken exactly when the command would
   * grant it, and then leave exactly the tables that the command leaves.
   */
  lemma RedeemAloneRefines(s: State, t: TxnId, request: Request, p: Id, at: int, id: Id)
    requires Inv(s) && Quiet(s) && id !in s.used
    ensures CanRun(s, Whole(t, request, p, at, id)) <==> WouldGrant(s, request, p, at)
    ensures WouldGrant(s, request, p, at) ==>
              p in s.promotions && U.TablesOf(End(s, Whole(t, request, p, at, id))) ==
                  U.Redeemed(U.TablesOf(s), request, p, id)
  {
    var first := Opening(t, request, p, at, id);
    RunConcat(s, first + Granting(t), Finishing(t));
    UpToSaveRuns(s, t, request, p, at, id);
    if WouldGrant(s, request, p, at) {
      OpeningRuns(s, t, request, p, at, id);
      RunConcat(s, first, Granting(t));
      RunKeeps(s, first);
      PendingHasNoEntry(Redeeming(s, t, request, p, id, C.Started), t);
      FinishingRuns(s, t, request, p, id);
    }
  }

  // ---- In a crowd ------------------------------------------------------------------------------------------------

  /** The command's two guards are the protocol's, for the tables stored at the save and at the flush. */
  lemma GuardsAgree(s: State, t: TxnId, atSave: S.Tables)
    requires InGrant(s, t) && s.credits.open[t].phase.Saved?
    requires s.credits.open[t].phase.insert <==> s.credits.open[t].work.user !in atSave.balances
    ensures var user := s.credits.open[t].work.user;
            && (C.FirstRowLost(s.credits, t) <==> S.FirstRowTaken(S.Others(atSave, U.TablesOf(s)), user))
            && (C.RowGone(s.credits, t) <==> S.RowVanished(S.Others(atSave, U.TablesOf(s)), user))
  {
  }

  /**
   * Whatever else is going on, the protocol's commit writes the command's rows on top of what is stored
   * by then. `before` is what the command read: its locked promotion and code, and the balance row.
   */
  lemma CommitRefines(s: State, t: TxnId, before: S.Tables)
    requires Inv(s) && Enabled(s, CommitAll(t))
    requires var a := s.attempts[t];
             && a.phase.promotionId in before.promotions && before.promotions[a.phase.promotionId] == a.phase.promotion
             && U.CodeOf(before, a.request) == a.phase.code
    requires s.credits.open[t].phase.Flushed? ==>
               C.Lookup(before.balances, s.attempts[t].request.user) == s.credits.open[t].phase.seen
    ensures var a := s.attempts[t];
            && a.phase.promotionId in before.promotions
            && U.TablesOf(Next(s, CommitAll(t))) ==
               S.WithWrites(U.TablesOf(s), U.AllRows(before, a.request, a.phase.promotionId, a.phase.redemption.id))
  {
    ReadyToCommit(s, t);
    CommitWrites(s, t, before);
  }

  /** What a redemption that may commit has computed. */
  lemma ReadyToCommit(s: State, t: TxnId)
    requires Inv(s) && Enabled(s, CommitAll(t))
    ensures var a, grant := s.attempts[t], s.credits.open[t];
            && grant.phase.Flushed?
            && (a.request.ByCode? <==> a.phase.code.Some?)
            && a.phase.redemption == NewRedemption(a.request, a.phase.promotionId, a.phase.redemption.id)
            && grant.work == GrantFor(a.phase.redemption, a.phase.promotion.benefit)
            && C.Outcome(grant.work, grant.phase.seen) == Some(grant.phase.next)
  {
    assert CopyIsCurrent(s, s.attempts[t]) && StillAllowed(s, s.attempts[t]);
    assert C.InStep(s.credits, s.credits.open[t]);
  }

  lemma CommitWrites(s: State, t: TxnId, before: S.Tables)
    requires Enabled(s, CommitAll(t)) && s.credits.open[t].phase.Flushed?
    requires s.attempts[t].phase.promotionId in before.promotions
    requires before.promotions[s.attempts[t].phase.promotionId] == s.attempts[t].phase.promotion
    requires U.CodeOf(before, s.attempts[t].request) == s.attempts[t].phase.code
    requires s.attempts[t].request.ByCode? <==> s.attempts[t].phase.code.Some?
    requires s.attempts[t].phase.redemption ==
            NewRedemption(s.attempts[t].request, s.attempts[t].phase.promotionId, s.attempts[t].phase.redemption.id)
    requires s.credits.open[t].work == GrantFor(s.attempts[t].phase.redemption, s.attempts[t].phase.promotion.benefit)
    requires C.Outcome(s.credits.open[t].work, C.Lookup(before.balances, s.attempts[t].request.user)) ==
            Some(s.credits.open[t].phase.next)
    ensures U.TablesOf(Next(s, CommitAll(t))) ==
            S.WithWrites(U.TablesOf(s),
                         U.AllRows(before, s.attempts[t].request, s.attempts[t].phase.promotionId,
                                   s.attempts[t].phase.redemption.id))
  {
    U.AllRowsOnTop(U.TablesOf(s), before, s.attempts[t].request, s.attempts[t].phase.promotionId,
                   s.attempts[t].phase.redemption.id);
    U.OwnRowsOnTop(U.TablesOf(s), before, s.attempts[t].request, s.attempts[t].phase.promotionId,
                   s.attempts[t].phase.redemption.id);
  }

  // ---- Losing the first row ----------------------------------------------------------------------------------

  ghost predicate Reachable(s: State) {
    exists states, steps :: Run(states, steps) && states[|steps|] == s
  }

  lemma ReachableNext(s: State, step: Step)
    requires Reachable(s) && Enabled(s, step)
    ensures Reachable(Next(s, step))
  {
    var states, steps :| Run(states, steps) && states[|steps|] == s;
    var after := states + [Next(s, step)];
    assert Run(after, steps + [step]) && after[|steps + [step]|] == Next(s, step);
  }

  lemma {:induction false} ReachableEnd(s: State, steps: seq<Step>)
    requires Reachable(s) && CanRun(s, steps)
    ensures Reachable(End(s, steps))
    decreases |steps|
  {
    if steps != [] {
      ReachableNext(s, steps[0]);
      ReachableEnd(Next(s, steps[0]), steps[1..]);
    }
  }

  lemma ReachableInv(s: State)
    requires Reachable(s)
    ensures Inv(s)
  {
    var states, steps :| Run(states, steps) && states[|steps|] == s;
    RunKeepsInv(states, steps, |steps|);
  }

  // Two promotions, and one new user who redeems both.
  const FIVE := Promotion(true, 0, None, None, 0, 1, None, 5)
  const THREE := Promotion(true, 0, None, None, 0, 1, None, 3)
  const START := State(C.State(map[], [], map[]), map[1 := FIVE, 2 := THREE], map[], [], map[], {}, {}, {})
  const FIRST := Direct(1, 7, None)
  const SECOND := Direct(2, 7, None)

  /** Both saves have found no balance row. */
  const ONE_SAVED := Redeeming(START, 1, FIRST, 1, 101, C.Saved(None, true, L.Balance(5, 0, 5)))
  const BOTH_SAVED := Redeeming(ONE_SAVED, 2, SECOND, 2, 102, C.Saved(None, true, L.Balance(3, 0, 3)))

  lemma FirstMayRun()
    ensures Unhindered(START, 1, FIRST, 1) && C.RowFree(START.credits, 1, 7) && 101 !in START.used
    ensures WouldGrant(START, FIRST, 1, 0)
  {
  }

  lemma SecondMayRun()
    ensures Unhindered(ONE_SAVED, 2, SECOND, 2) && C.RowFree(ONE_SAVED.credits, 2, 7) && 102 !in ONE_SAVED.used
    ensures WouldGrant(ONE_SAVED, SECOND, 2, 0)
  {
  }

  lemma StartIsReachable()
    ensures Reachable(START)
  {
    var none: seq<Step> := [];
    assert Run([START], none) && [START][|none|] == START;
  }

  /** A redemption that may run may get as far as its save. */
  lemma MaySave(s: State, t: TxnId, request: Request, p: Id, at: int, id: Id, next: L.Balance)
    requires Reachable(s) && Unhindered(s, t, request, p) && C.RowFree(s.credits, t, request.user) && id !in s.used
    requires WouldGrant(s, request, p, at) && request.user !in s.credits.balances
    requires p in s.promotions ==> next == C.Outcome(GrantWork(s, request, p, id), None).value
    ensures p in s.promotions && Reachable(Redeeming(s, t, request, p, id, C.Saved(None, true, next)))
  {
    ReachableInv(s);
    UpToSaveRuns(s, t, request, p, at, id);
    ReachableEnd(s, Opening(t, request, p, at, id) + Granting(t));
  }

  lemma OneMaySave()
    ensures Reachable(ONE_SAVED)
  {
    StartIsReachable();
    FirstMayRun();
    assert GrantWork(START, FIRST, 1, 101) == GrantFor(NewRedemption(FIRST, 1, 101), 5);
    MaySave(START, 1, FIRST, 1, 0, 101, L.Balance(5, 0, 5));
  }

  lemma BothMaySave()
    ensures Reachable(BOTH_SAVED)
  {
    OneMaySave();
    SecondMayRun();
    assert GrantWork(ONE_SAVED, SECOND, 2, 102) == GrantFor(NewRedemption(SECOND, 2, 102), 3);
    MaySave(ONE_SAVED, 2, SECOND, 2, 0, 102, L.Balance(3, 0, 3));
  }

  lemma OneMayFlush()
    ensures Reachable(GrantAt(BOTH_SAVED, 1, C.Flushed(None, true, L.Balance(5, 0, 5))))
  {
    BothMaySave();
    FlushMoves(BOTH_SAVED, 1, None, true, L.Balance(5, 0, 5));
    ReachableNext(BOTH_SAVED, GrantCredit(1, C.Flush(1)));
  }

  /** The first has committed its row; the second is still to flush. */
  lemma OneMayCommit() returns (s: State)
    ensures Reachable(s) && s.redemptions == [NewRedemption(FIRST, 1, 101)]
    ensures s.reported == {NewRedemption(FIRST, 1, 101)}
    ensures s.attempts == map[2 := BOTH_SAVED.attempts[2]] && s.credits.open == map[2 := BOTH_SAVED.credits.open[2]]
    ensures s.credits.balances == map[7 := L.Balance(5, 0, 5)]
  {
    OneMayFlush();
    var flushed := GrantAt(BOTH_SAVED, 1, C.Flushed(None, true, L.Balance(5, 0, 5)));
    ReachableNext(flushed, CommitAll(1));
    s := Next(flushed, CommitAll(1));
  }

  /**
   * Two first redemptions of a new user are both answered as granted, but only one is stored, with its
   * five credits. The other's three are nowhere.
   */
  lemma TwoFirstRedemptionsLoseOne()
    ensures exists s :: Reachable(s) && Quiet(s)
              && s.reported == {NewRedemption(FIRST, 1, 101), NewRedemption(SECOND, 2, 102)}
              && s.redemptions == [NewRedemption(FIRST, 1, 101)]
              && s.credits.balances == map[7 := L.Balance(5, 0, 5)]
  {
    var s := OneMayCommit();
    var flush := GrantCredit(2, C.Flush(2));
    assert s.credits.open[2].phase == C.Saved(None, true, L.Balance(3, 0, 3));
    ReachableNext(s, flush);
    var lost := Next(s, flush);
    assert Quiet(lost) && lost.reported == {NewRedemption(FIRST, 1, 101), NewRedemption(SECOND, 2, 102)};
  }
}
