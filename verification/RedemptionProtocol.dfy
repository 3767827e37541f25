/**
 * Direct, code and signup redemptions racing each other and everything else that moves credit. A
 * redemption locks its code and promotion rows, writes its rows, and then runs a credit grant whose
 * commit is deferred: the grant's own transaction is the redemption's transaction.
 */
module RedemptionProtocol {
  import opened Prelude
  import opened RedemptionKeys
  import opened Promotions
  import L = CreditLedger
  import C = CreditProtocol

  type TxnId = C.TxnId

  datatype Request =
    | Direct(promotionId: Id, user: Id, clientKey: Option<string>)
    | ByCode(codeId: Id, user: Id, clientKey: Option<string>)
    | AtSignup(user: Id, beneficiary: string)

  /** Records are the copies read under the row locks; `Redeemed` carries the rows about to be committed. */
  datatype Phase =
    | Asked
    | HoldsCode(held: Code)
    | HoldsPromotion(code: Option<Code>, promotionId: Id, promotion: Promotion)
    | Redeemed(code: Option<Code>, promotionId: Id, promotion: Promotion, redemption: Redemption)

  datatype Attempt = Attempt(request: Request, phase: Phase)

  /**
   * Committed tables, open attempts, ids ever used, deleted accounts, and the redemptions that some
   * command has answered as granted.
   */
  datatype State = State(
    credits: C.State,
    promotions: map<Id, Promotion>,
    codes: map<Id, Code>,
    redemptions: seq<Redemption>,
    attempts: map<TxnId, Attempt>,
    used: set<Id>,
    deleted: set<Id>,
    reported: set<Redemption>)

  datatype Step =
    | Ask(t: TxnId, request: Request)
    | LockCode(t: TxnId)
    | LockPromotion(t: TxnId, p: Id, at: int)
    | Redeem(t: TxnId, at: int, id: Id)
    | GrantCredit(t: TxnId, credit: C.Step)
    | CommitAll(t: TxnId)
    | Abandon(t: TxnId)
    | OtherCredit(credit: C.Step)
    | DeleteAccount(user: Id)

  predicate CodeHeld(a: Attempt, c: Id) {
    a.request.ByCode? && a.request.codeId == c && !a.phase.Asked?
  }

  predicate PromotionHeld(a: Attempt, p: Id) {
    (a.phase.HoldsPromotion? || a.phase.Redeemed?) && a.phase.promotionId == p
  }

  predicate CodeFree(s: State, t: TxnId, c: Id) {
    forall o :: o in s.attempts && o != t ==> !CodeHeld(s.attempts[o], c)
  }

  predicate PromotionFree(s: State, t: TxnId, p: Id) {
    forall o :: o in s.attempts && o != t ==> !PromotionHeld(s.attempts[o], p)
  }

  function RedemptionKey(request: Request, p: Id, id: Id): Key {
    match request
    case Direct(promotion, user, k) => DirectKey(promotion, user, k)
    case ByCode(code, user, k) => CodeKey(code, user, k)
    case AtSignup(_, _) => SignupKey(p, id)
  }

  function NewRedemption(request: Request, p: Id, id: Id): Redemption {
    Redemption(id, p, if request.ByCode? then Some(request.codeId) else None, request.user,
               if request.AtSignup? then Some(request.beneficiary) else None, RedemptionKey(request, p, id))
  }

  /** The promotion a request may lock: its own, its code's, or a current signup promotion. */
  predicate MayLock(s: State, a: Attempt, p: Id, at: int)
    requires p in s.promotions
  {
    match a.request
    case Direct(promotion, _, _) => a.phase.Asked? && p == promotion && s.promotions[p].context != Some(Signup)
    case ByCode(_, _, _) =>
        a.phase.HoldsCode? && p == a.phase.held.promotionId && s.promotions[p].context != Some(Signup)
    case AtSignup(_, _) => a.phase.Asked? && IsCurrentSignup(s.promotions[p], at)
  }

  /** Under the locks: not redeemed before, still redeemable, and the user's limit is not used up. */
  predicate MayRedeem(s: State, a: Attempt, at: int)
    requires a.phase.HoldsPromotion?
  {
    var p := a.phase.promotionId;
    && PromotionRefusal(a.phase.promotion, at).None?
    && match a.request
       case AtSignup(_, beneficiary) =>
         forall i :: 0 <= i < |s.redemptions| ==>
             !(s.redemptions[i].promotionId == p && s.redemptions[i].beneficiary == Some(beneficiary))
       case _ =>
         && (a.phase.code.Some? ==> CodeRefusal(a.phase.code.value, at).None?)
         && (forall i :: 0 <= i < |s.redemptions| ==> s.redemptions[i].key != RedemptionKey(a.request, p, 0))
         && CountForUser(s.redemptions, p, a.request.user) < a.phase.promotion.maxPerUser
  }

  function GrantFor(r: Redemption, benefit: nat): C.Work {
    C.GrantWork(r.user, benefit, Some(CreditKey(r)), Some(L.Source(L.PromotionRedemption, r.id)))
  }

  /** Work of no redemption: it carries no redemption key and no redemption source. */
  predicate Unrelated(w: C.Work) {
    w.GrantWork? ==>
      && (w.key.Some? ==> !FromRedemption(w.key.value))
      && (w.source.Some? ==> !w.source.value.kind.PromotionRedemption?)
  }

  predicate IsGrantStep(step: C.Step, t: TxnId) {
    match step
    case Check(u) => u == t
    case Lock(u) => u == t
    case Save(u) => u == t
    case Flush(u) => u == t
    case _ => false
  }

  predicate IsOtherStep(s: State, step: C.Step) {
    match step
    case Begin(t, w) => t !in s.attempts && Unrelated(w)
    case DeleteUser(_) => false
    case Check(t) => t !in s.attempts
    case Lock(t) => t !in s.attempts
    case Save(t) => t !in s.attempts
    case Flush(t) => t !in s.attempts
    case Commit(t) => t !in s.attempts
    case Abort(t) => t !in s.attempts
  }

  predicate Enabled(s: State, step: Step) {
    match step
    case Ask(t, request) => t !in s.attempts && t !in s.credits.open
    case LockCode(t) =>
      && t in s.attempts && s.attempts[t].phase.Asked? && s.attempts[t].request.ByCode?
      && s.attempts[t].request.codeId in s.codes && CodeFree(s, t, s.attempts[t].request.codeId)
    case LockPromotion(t, p, at) =>
      t in s.attempts && p in s.promotions && MayLock(s, s.attempts[t], p, at) && PromotionFree(s, t, p)
    case Redeem(t, at, id) =>
      t in s.attempts && s.attempts[t].phase.HoldsPromotion? && id !in s.used && MayRedeem(s, s.attempts[t], at)
      && t !in s.credits.open && s.attempts[t].phase.promotion.benefit >= 1
    case GrantCredit(t, credit) =>
      t in s.attempts && s.attempts[t].phase.Redeemed? && IsGrantStep(credit, t) && C.Enabled(s.credits, credit)
    case CommitAll(t) => t in s.attempts && s.attempts[t].phase.Redeemed? && C.Enabled(s.credits, C.Commit(t))
    case Abandon(t) => t in s.attempts
    case OtherCredit(credit) => IsOtherStep(s, credit) && C.Enabled(s.credits, credit)
    case DeleteAccount(user) => C.Enabled(s.credits, C.DeleteUser(user))
  }

  function At(s: State, t: TxnId, phase: Phase): State
    requires t in s.attempts
  {
    s.(attempts := s.attempts[t := s.attempts[t].(phase := phase)])
  }

  /** Counters are written as the locked copy plus one. */
  function Committed(s: State, t: TxnId): State
    requires t in s.attempts && s.attempts[t].phase.Redeemed? && C.Enabled(s.credits, C.Commit(t))
  {
    var a := s.attempts[t];
    s.(credits := C.Next(s.credits, C.Commit(t)),
       promotions := s.promotions[a.phase.promotionId := Recorded(a.phase.promotion)],
       codes := if a.request.ByCode? && a.phase.code.Some?
                then s.codes[a.request.codeId := CodeRecorded(a.phase.code.value)]
                else s.codes,
       redemptions := s.redemptions + [a.phase.redemption],
       attempts := s.attempts - {t},
       reported := s.reported + {a.phase.redemption})
  }

  function Next(s: State, step: Step): State
    requires Enabled(s, step)
  {
    match step
    case Ask(t, request) => s.(attempts := s.attempts[t := Attempt(request, Asked)])
    case LockCode(t) => At(s, t, HoldsCode(s.codes[s.attempts[t].request.codeId]))
    case LockPromotion(t, p, at) =>
      var phase := s.attempts[t].phase;
      At(s, t, HoldsPromotion(if phase.HoldsCode? then Some(phase.held) else None, p, s.promotions[p]))
    case Redeem(t, at, id) =>
      var a := s.attempts[t];
      var r := NewRedemption(a.request, a.phase.promotionId, id);
      At(s, t, Redeemed(a.phase.code, a.phase.promotionId, a.phase.promotion, r))
        .(credits := C.Next(s.credits, C.Begin(t, GrantFor(r, a.phase.promotion.benefit))), used := s.used + {id})
    case GrantCredit(t, credit) =>
      // A failed flush rolls the shared session back: the redemption goes with it. A conflict is
      // absorbed, so the command still answers a grant; a vanished balance row is raised.
      var credits := C.Next(s.credits, credit);
      s.(credits := credits,
         attempts := if t in credits.open then s.attempts else s.attempts - {t},
         reported := if t in credits.open || !credit.Flush? || C.RowGone(s.credits, t) then s.reported
                     else s.reported + {s.attempts[t].phase.redemption})
    case CommitAll(t) => Committed(s, t)
    case Abandon(t) => s.(credits := C.RolledBack(s.credits, t), attempts := s.attempts - {t})
    case OtherCredit(credit) => s.(credits := C.Next(s.credits, credit))
    case DeleteAccount(user) => s.(credits := C.Next(s.credits, C.DeleteUser(user)), deleted := s.deleted + {user})
  }

  /** No transaction has run; promotions and codes are as created. */
  predicate Init(s: State) {
    && C.Init(s.credits) && s.redemptions == [] && s.attempts == map[] && s.used == {} && s.deleted == {}
    && s.reported == {}
    && (forall p :: p in s.promotions ==> s.promotions[p].timesRedeemed == 0 && s.promotions[p].benefit >= 1)
    && (forall c :: c in s.codes ==> s.codes[c].timesRedeemed == 0)
  }

  ghost predicate Run(states: seq<State>, steps: seq<Step>) {
    && |states| == |steps| + 1
    && Init(states[0])
    && forall i {:trigger steps[i]} :: 0 <= i < |steps| ==>
        Enabled(states[i], steps[i]) && states[i + 1] == Next(states[i], steps[i])
  }

  // ---- The invariant --------------------------------------------------------------------------------

  /** Locks are exclusive. */
  ghost predicate Locks(s: State) {
    && (forall t, o, c :: t in s.attempts && o in s.attempts && t != o ==>
          !(CodeHeld(s.attempts[t], c) && CodeHeld(s.attempts[o], c)))
    && (forall t, o, p :: t in s.attempts && o in s.attempts && t != o ==>
          !(PromotionHeld(s.attempts[t], p) && PromotionHeld(s.attempts[o], p)))
  }

  /** The code of a redemption, its promotion, its key and its beneficiary belong together. */
  ghost predicate Fits(s: State, r: Redemption) {
    && r.promotionId in s.promotions && r.id in s.used
    && match r.key
       case DirectKey(p, u, _) =>
           p == r.promotionId && u == r.user && r.codeId.None? && r.beneficiary.None?
               && s.promotions[p].context != Some(Signup)
       case CodeKey(c, u, _) =>
         c in s.codes && s.codes[c].promotionId == r.promotionId && u == r.user && r.codeId == Some(c)
             && r.beneficiary.None?
         && s.promotions[r.promotionId].context != Some(Signup)
       case SignupKey(p, id) =>
           p == r.promotionId && id == r.id && r.codeId.None? && r.beneficiary.Some?
               && s.promotions[p].context == Some(Signup)
       case _ => false
  }

  /** A locked copy still equals the row. */
  ghost predicate CopyIsCurrent(s: State, a: Attempt) {
    match a.phase
    case Asked => true
    case HoldsCode(code) => a.request.ByCode? && a.request.codeId in s.codes && s.codes[a.request.codeId] == code
    case HoldsPromotion(code, p, promotion) => CopiesAre(s, a, code, p, promotion)
    case Redeemed(code, p, promotion, _) => CopiesAre(s, a, code, p, promotion)
  }

  ghost predicate CopiesAre(s: State, a: Attempt, code: Option<Code>, p: Id, promotion: Promotion) {
    && p in s.promotions && s.promotions[p] == promotion
    && (a.request.ByCode? <==> code.Some?)
    && (a.request.ByCode? ==>
          a.request.codeId in s.codes && s.codes[a.request.codeId] == code.value && code.value.promotionId == p)
    && (a.request.AtSignup? <==> promotion.context == Some(Signup))
    && (a.request.Direct? ==> p == a.request.promotionId)
  }

  /** A redemption clashes with another of the same id, the same key, or the same promotion and beneficiary. */
  predicate Clash(a: Redemption, b: Redemption) {
    a.id == b.id || a.key == b.key ||
        (a.promotionId == b.promotionId && a.beneficiary.Some? && a.beneficiary == b.beneficiary)
  }

  /** What `Redeem` checked under the lock is still true when it commits. */
  ghost predicate StillAllowed(s: State, a: Attempt)
    requires a.phase.Redeemed?
  {
    var r := a.phase.redemption;
    && Fits(s, r)
    && r == NewRedemption(a.request, a.phase.promotionId, r.id)
    && (a.phase.promotion.maxRedemptions.Some? ==>
          a.phase.promotion.timesRedeemed < a.phase.promotion.maxRedemptions.value)
    && (a.phase.code.Some? && a.phase.code.value.maxRedemptions.Some? ==>
          a.phase.code.value.timesRedeemed < a.phase.code.value.maxRedemptions.value)
    && (!a.request.AtSignup? ==> CountForUser(s.redemptions, r.promotionId, r.user) < a.phase.promotion.maxPerUser)
    && (forall i :: 0 <= i < |s.redemptions| ==> !Clash(s.redemptions[i], r))
  }

  ghost predicate Pending(s: State) {
    CopiesCurrent(s) && AllAllowed(s) && NewIdsDiffer(s)
  }

  ghost predicate CopiesCurrent(s: State) {
    forall t :: t in s.attempts ==> CopyIsCurrent(s, s.attempts[t])
  }

  ghost predicate AllAllowed(s: State) {
    forall t :: t in s.attempts && s.attempts[t].phase.Redeemed? ==> StillAllowed(s, s.attempts[t])
  }

  ghost predicate NewIdsDiffer(s: State) {
    forall t, o ::
      (t in s.attempts && o in s.attempts && t != o
       && s.attempts[t].phase.Redeemed? && s.attempts[o].phase.Redeemed?) ==>
        s.attempts[t].phase.redemption.id != s.attempts[o].phase.redemption.id
  }

  /** Stored redemptions fit and are pairwise different. */
  ghost predicate Stored(s: State) {
    && (forall i :: 0 <= i < |s.redemptions| ==> Fits(s, s.redemptions[i]))
    && (forall i, j :: 0 <= i < j < |s.redemptions| ==> !Clash(s.redemptions[i], s.redemptions[j]))
  }

  /** Counters equal the redemptions they count and respect every limit. */
  ghost predicate Counted(s: State) {
    && (forall p :: p in s.promotions ==> PromotionCounted(s.promotions[p], CountFor(s.redemptions, p)))
    && (forall c :: c in s.codes ==> CodeCounted(s.codes[c], CountForCode(s.redemptions, c)))
    && UsersWithinLimit(s)
  }

  predicate PromotionCounted(p: Promotion, n: nat) {
    p.timesRedeemed == n && (p.maxRedemptions.Some? ==> n <= p.maxRedemptions.value)
  }

  predicate CodeCounted(c: Code, n: nat) {
    c.timesRedeemed == n && (c.maxRedemptions.Some? ==> n <= c.maxRedemptions.value)
  }

  ghost predicate UsersWithinLimit(s: State) {
    forall p, u {:trigger CountForUser(s.redemptions, p, u)} ::
        p in s.promotions && s.promotions[p].context != Some(Signup) ==>
      CountForUser(s.redemptions, p, u) <= s.promotions[p].maxPerUser
  }

  /** A redeeming attempt and its grant are one transaction; nobody else's work looks like a redemption's. */
  ghost predicate Linked(s: State) {
    && (forall t :: t in s.attempts && s.attempts[t].phase.Redeemed? ==>
          && t in s.credits.open && !s.credits.open[t].phase.Replayed?
          && s.credits.open[t].work == GrantFor(s.attempts[t].phase.redemption, s.attempts[t].phase.promotion.benefit))
    && (forall t :: t in s.attempts && !s.attempts[t].phase.Redeemed? ==> t !in s.credits.open)
    && (forall t :: t in s.credits.open && t !in s.attempts ==> Unrelated(s.credits.open[t].work))
  }

  predicate FromPromotion(e: L.Entry) {
    e.source.Some? && e.source.value.kind.PromotionRedemption?
  }

  /** The ledger row of a redemption. */
  function GrantEntry(s: State, r: Redemption): L.Entry
    requires r.promotionId in s.promotions
  {
    C.EntryOf(GrantFor(r, s.promotions[r.promotionId].benefit))
  }

  ghost predicate Backed(s: State, e: L.Entry) {
    exists i :: 0 <= i < |s.redemptions| && s.redemptions[i].promotionId in s.promotions
        && e == GrantEntry(s, s.redemptions[i])
  }

  /** Every promotion-sourced ledger row is the row of a stored redemption; other rows carry no redemption key. */
  ghost predicate Sourced(s: State) {
    forall k :: 0 <= k < |s.credits.ledger| ==> EntrySourced(s, s.credits.ledger[k])
  }

  ghost predicate EntrySourced(s: State, e: L.Entry) {
    if FromPromotion(e) then Backed(s, e) else e.key.Some? ==> !FromRedemption(e.key.value)
  }

  /** Every redemption of a user whose account was not deleted has its row. */
  ghost predicate Paid(s: State) {
    forall i :: 0 <= i < |s.redemptions| && s.redemptions[i].user !in s.deleted ==>
      s.redemptions[i].promotionId in s.promotions && GrantEntry(s, s.redemptions[i]) in s.credits.ledger
  }

  /** Stored redemptions were reported, pending ones not yet. */
  ghost predicate Reported(s: State) {
    && (forall i :: 0 <= i < |s.redemptions| ==> s.redemptions[i] in s.reported)
    && (forall r :: r in s.reported ==> r.id in s.used)
    && (forall t, r :: t in s.attempts && s.attempts[t].phase.Redeemed? && r in s.reported ==>
          s.attempts[t].phase.redemption.id != r.id)
  }

  /** The check constraint on benefits. */
  ghost predicate Payable(s: State) {
    forall p :: p in s.promotions ==> s.promotions[p].benefit >= 1
  }

  ghost predicate Inv(s: State) {
    && C.Inv(s.credits) && Locks(s) && Pending(s) && Stored(s) && Counted(s) && Linked(s) && Sourced(s) && Paid(s)
    && Reported(s) && Payable(s)
  }
}
