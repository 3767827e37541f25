/** The three redemption commands as they run inside one database session. */
module RedemptionUseCases {
  import opened Prelude
  import opened RedemptionKeys
  import opened Promotions
  import opened CreditUseCases
  import C = CreditProtocol
  import P = RedemptionProtocol

  class PromotionAggregate {
    const id: Id
    var record: Promotion

    constructor (id: Id, record: Promotion)
      ensures this.id == id && this.record == record
    {
      this.id := id;
      this.record := record;
    }

    /** None: active, within its window, and with room for one more redemption. */
    method EnsureRedeemable(at: int) returns (refusal: Option<Refusal>)
      ensures refusal == PromotionRefusal(record, at)
      ensures refusal.None? <==>
                record.active && record.startsAt <= at && (record.expiresAt.Some? ==> at < record.expiresAt.value)
                && (record.maxRedemptions.Some? ==> record.timesRedeemed + 1 <= record.maxRedemptions.value)
      ensures refusal == Some(Inactive) <==> !record.active
      ensures refusal == Some(NotStarted) <==> record.active && at < record.startsAt
      ensures refusal == Some(Expired) <==>
                record.active && record.startsAt <= at && record.expiresAt.Some? && record.expiresAt.value <= at
      ensures refusal != Some(UserLimit)
    {
      if !record.active {
        return Some(Inactive);
      }
      if record.startsAt > at {
        return Some(NotStarted);
      }
      if record.expiresAt.Some? && record.expiresAt.value <= at {
        return Some(Expired);
      }
      if record.maxRedemptions.Some? && record.timesRedeemed >= record.maxRedemptions.value {
        return Some(Exhausted);
      }
      return None;
    }

    method RecordRedemption()
      modifies this`record
      ensures record == Recorded(old(record))
    {
      record := record.(timesRedeemed := record.timesRedeemed + 1);
    }
  }

  class CodeAggregate {
    const id: Id
    var record: Code

    constructor (id: Id, record: Code)
      ensures this.id == id && this.record == record
    {
      this.id := id;
      this.record := record;
    }

    /** None: active, within its window, and with room for one more redemption by this code. */
    method EnsureRedeemable(at: int) returns (refusal: Option<Refusal>)
      ensures refusal == CodeRefusal(record, at)
      ensures refusal.None? <==>
                record.active && (record.startsAt.Some? ==> record.startsAt.value <= at)
                && (record.expiresAt.Some? ==> at < record.expiresAt.value)
                && (record.maxRedemptions.Some? ==> record.timesRedeemed + 1 <= record.maxRedemptions.value)
      ensures refusal == Some(Inactive) <==> !record.active
      ensures refusal == Some(NotStarted) <==> record.active && record.startsAt.Some? && at < record.startsAt.value
      ensures refusal == Some(Expired) <==>
                record.active && (record.startsAt.Some? ==> record.startsAt.value <= at)
                && record.expiresAt.Some? && record.expiresAt.value <= at
      ensures refusal != Some(UserLimit)
    {
      if !record.active {
        return Some(Inactive);
      }
      if record.startsAt.Some? && record.startsAt.value > at {
        return Some(NotStarted);
      }
      if record.expiresAt.Some? && record.expiresAt.value <= at {
        return Some(Expired);
      }
      if record.maxRedemptions.Some? && record.timesRedeemed >= record.maxRedemptions.value {
        return Some(Exhausted);
      }
      return None;
    }

    method RecordRedemption()
      modifies this`record
      ensures record == CodeRecorded(old(record))
    {
      record := record.(timesRedeemed := record.timesRedeemed + 1);
    }
  }

  /** `Failed`: the balance row vanished before the flush, which raises. */
  datatype Decision = NotFound | Replay | Refuse(reason: Refusal) | NothingToGrant | Grant(promotionId: Id) | Failed

  predicate KeyTaken(redemptions: seq<Redemption>, key: Key) {
    exists i :: 0 <= i < |redemptions| && redemptions[i].key == key
  }

  predicate BeneficiaryTaken(redemptions: seq<Redemption>, p: Id, beneficiary: string) {
    exists i :: 0 <= i < |redemptions| && redemptions[i].promotionId == p
        && redemptions[i].beneficiary == Some(beneficiary)
  }

  /** `code` is the locked code of a redemption by code. */
  function DecideLocked(t: Tables, request: P.Request, code: Option<Code>, p: Id, at: int): Decision
    requires !request.AtSignup?
  {
    if p !in t.promotions || t.promotions[p].context == Some(Signup) then NotFound
    else if KeyTaken(t.redemptions, P.RedemptionKey(request, p, 0)) then Replay
    else if code.Some? && CodeRefusal(code.value, at).Some? then Refuse(CodeRefusal(code.value, at).value)
    else if PromotionRefusal(t.promotions[p], at).Some? then Refuse(PromotionRefusal(t.promotions[p], at).value)
    else if CountForUser(t.redemptions, p, request.user) >= t.promotions[p].maxPerUser then Refuse(UserLimit)
    else Grant(p)
  }

  function CodeOf(t: Tables, request: P.Request): Option<Code> {
    if request.ByCode? && request.codeId in t.codes then Some(t.codes[request.codeId]) else None
  }

  /** `current` is the signup promotion the query returned. */
  function Decide(t: Tables, request: P.Request, current: Option<Id>, at: int): Decision {
    match request
    case Direct(p, _, _) => DecideLocked(t, request, None, p, at)
    case ByCode(c, _, _) => if c !in t.codes then NotFound
                            else DecideLocked(t, request, CodeOf(t, request), t.codes[c].promotionId, at)
    case AtSignup(_, beneficiary) =>
      if current.None? || BeneficiaryTaken(t.redemptions, current.value, beneficiary) then NothingToGrant
      else Grant(current.value)
  }

  /** The newest current signup promotion, as ordered by start and id. */
  ghost predicate IsNewestCurrent(t: Tables, at: int, found: Option<Id>) {
    match found
    case None => forall p :: p in t.promotions ==> !IsCurrentSignup(t.promotions[p], at)
    case Some(p) =>
      && p in t.promotions && IsCurrentSignup(t.promotions[p], at)
      && forall q :: q in t.promotions && IsCurrentSignup(t.promotions[q], at) ==>
           t.promotions[q].startsAt < t.promotions[p].startsAt ||
               (t.promotions[q].startsAt == t.promotions[p].startsAt && q <= p)
  }

  /** Redemption row, counters and credit, all in one commit. */
  function Redeemed(t: Tables, request: P.Request, p: Id, id: Id): Tables
    requires p in t.promotions
  {
    var r := P.NewRedemption(request, p, id);
    var code := CodeOf(t, request);
    Granted(t.(promotions := t.promotions[p := Recorded(t.promotions[p])],
               codes := if code.Some? then t.codes[request.codeId := CodeRecorded(code.value)] else t.codes,
               redemptions := t.redemptions + [r]),
            P.GrantFor(r, t.promotions[p].benefit))
  }

  method HasKey(redemptions: seq<Redemption>, key: Key) returns (found: bool)
    ensures found == KeyTaken(redemptions, key)
  {
    found := false;
    for i := 0 to |redemptions|
      invariant found <==> exists j :: 0 <= j < i && redemptions[j].key == key
    {
      found := found || redemptions[i].key == key;
    }
  }

  method HasBeneficiary(redemptions: seq<Redemption>, p: Id, beneficiary: string) returns (found: bool)
    ensures found == BeneficiaryTaken(redemptions, p, beneficiary)
  {
    found := false;
    for i := 0 to |redemptions|
      invariant found <==> exists j ::
              0 <= j < i && redemptions[j].promotionId == p && redemptions[j].beneficiary == Some(beneficiary)
    {
      found := found || (redemptions[i].promotionId == p && redemptions[i].beneficiary == Some(beneficiary));
    }
  }

  /** The rows of a redemption before its grant, with counters from the locked copies. */
  function OwnRows(before: Tables, request: P.Request, p: Id, id: Id): seq<Write>
    requires p in before.promotions
  {
    var code := CodeOf(before, request);
    [AddRedemption(P.NewRedemption(request, p, id)), PutPromotion(p, Recorded(before.promotions[p]))]
    + if code.Some? then [PutCode(request.codeId, CodeRecorded(code.value))] else []
  }

  function GrantOf(before: Tables, request: P.Request, p: Id, id: Id): C.Work
    requires p in before.promotions
  {
    P.GrantFor(P.NewRedemption(request, p, id), before.promotions[p].benefit)
  }

  /** Everything that the redemption writes, computed from the tables it read under its locks. */
  function AllRows(before: Tables, request: P.Request, p: Id, id: Id): seq<Write>
    requires p in before.promotions
  {
    OwnRows(before, request, p, id) + RowsOf(before, GrantOf(before, request, p, id))
  }

  /** The row locks of the redemption kept its promotion and code as they were; its id is new to the ledger. */
  predicate LocksHeld(before: Tables, atFlush: Tables, request: P.Request, p: Id, id: Id) {
    && p in before.promotions && p in atFlush.promotions && atFlush.promotions[p] == before.promotions[p]
    && CodeOf(atFlush, request) == CodeOf(before, request)
    && !AlreadyGranted(before, GrantOf(before, request, p, id))
        && !AlreadyGranted(atFlush, GrantOf(before, request, p, id))
  }

  lemma OwnRowsOnTop(t: Tables, before: Tables, request: P.Request, p: Id, id: Id)
    requires p in before.promotions
    ensures var code := CodeOf(before, request);
            WithWrites(t, OwnRows(before, request, p, id)) ==
            t.(promotions := t.promotions[p := Recorded(before.promotions[p])],
               codes := if code.Some? then t.codes[request.codeId := CodeRecorded(code.value)] else t.codes,
               redemptions := t.redemptions + [P.NewRedemption(request, p, id)])
  {
    var code := CodeOf(before, request);
    var v := AddRedemption(P.NewRedemption(request, p, id));
    var w := PutPromotion(p, Recorded(before.promotions[p]));
    TwoWrites(t, [], v, w);
    assert [] + [v, w] == [v, w];
    if code.Some? {
      OneMoreWrite(t, [v, w], PutCode(request.codeId, CodeRecorded(code.value)));
    }
  }

  /** What the rows leave on top of `t`: all of them, the balance as computed from the row the session saw. */
  lemma AllRowsOnTop(t: Tables, before: Tables, request: P.Request, p: Id, id: Id)
    requires p in before.promotions
    ensures var w := GrantOf(before, request, p, id);
            WithWrites(t, AllRows(before, request, p, id)) ==
            WithWrites(t, OwnRows(before, request, p, id)).(
              balances := t.balances[request.user := C.Outcome(w, C.Lookup(before.balances, request.user)).value],
              ledger := t.ledger + [C.EntryOf(w)])
  {
    var w := GrantOf(before, request, p, id);
    OwnRowsOnTop(t, before, request, p, id);
    TwoWrites(t, OwnRows(before, request, p, id), RowsOf(before, w)[0], RowsOf(before, w)[1]);
  }

  /** If nobody has touched the user's balance, the rows amount to a redemption on the tables as they are now. */
  lemma UndisturbedRedemption(before: Tables, meanwhile: Tables, request: P.Request, p: Id, id: Id)
    requires LocksHeld(before, meanwhile, request, p, id)
    requires C.Lookup(meanwhile.balances, request.user) == C.Lookup(before.balances, request.user)
    ensures WithWrites(meanwhile, AllRows(before, request, p, id)) == Redeemed(meanwhile, request, p, id)
  {
    AllRowsOnTop(meanwhile, before, request, p, id);
    OwnRowsOnTop(meanwhile, before, request, p, id);
  }

  /** Writes the redemption's own rows: nothing is committed yet. */
  method WriteRedemption(session: CreditSession, request: P.Request, p: Id, id: Id)
    requires session.writes == [] && p in session.stored.promotions
    modifies session`writes
    ensures session.writes == OwnRows(session.stored, request, p, id)
  {
    var promotion := new PromotionAggregate(p, session.stored.promotions[p]);
    promotion.RecordRedemption();
    var code := CodeOf(session.stored, request);
    session.Add(AddRedemption(P.NewRedemption(request, p, id)));
    session.Add(PutPromotion(p, promotion.record));
    if code.Some? {
      var aggregate := new CodeAggregate(request.codeId, code.value);
      aggregate.RecordRedemption();
      session.Add(PutCode(request.codeId, aggregate.record));
    }
  }

  /**
   * The redemption, its deferred credit grant, and the commit of both unless that is left to the caller.
   * False: raised. If another transaction has committed the user's first balance row since, the rollback
   * inside the grant removes everything, and the commit that follows commits nothing.
   */
  method RedeemAndGrant(session: CreditSession, request: P.Request, p: Id, id: Id, deferred: bool, others: Others)
    returns (finished: bool)
    requires session.writes == [] && LocksHeld(session.stored, others.atFlush, request, p, id)
    requires session.stored.promotions[p].benefit >= 1 && RowConsistent(session.stored, request.user)
    modifies session
    ensures finished <==> !RowVanished(others, request.user)
    ensures if FirstRowTaken(others, request.user) || !finished then
              session.stored == others.atFlush && session.writes == []
            else if deferred then
              session.stored == others.atFlush && session.writes == AllRows(old(session.stored), request, p, id)
            else
              session.stored == WithWrites(others.atFlush, AllRows(old(session.stored), request, p, id))
              && session.writes == []
  {
    ghost var before := session.stored;
    var w := GrantOf(session.stored, request, p, id);
    WriteRedemption(session, request, p, id);
    OwnRowsOnTop(before, before, request, p, id);
    ghost var view := session.View();
    assert view.balances == before.balances && view.ledger == before.ledger;
    assert !AlreadyGranted(view, w) && HasIdentity(w) && w.user == request.user;
    assert Clashes(others, w) <==> FirstRowTaken(others, request.user);
    var answer := GrantCredit(session, w, true, others);
    if !answer.Answered? {
      session.Rollback();
      return false;
    }
    if !deferred {
      session.Commit();
    }
    return true;
  }

  /** The redemption is among the stored ones. */
  predicate IsStored(t: Tables, request: P.Request, p: Id, id: Id) {
    P.NewRedemption(request, p, id) in t.redemptions
  }

  /** What a command that has decided to grant leaves, and when its answer is true. */
  ghost predicate GrantedOrLost(before: Tables, others: Others, after: Tables, request: P.Request, p: Id, id: Id,
                                answered: bool) {
    && p in before.promotions
    && (answered <==> !RowVanished(others, request.user))
    && after == (if FirstRowTaken(others, request.user) || !answered then others.atFlush
                 else WithWrites(others.atFlush, AllRows(before, request, p, id)))
    && (answered && !IsStored(others.atFlush, request, p, id) ==>
          (IsStored(after, request, p, id) <==> !FirstRowTaken(others, request.user)))
  }

  lemma OutcomeOfGrant(before: Tables, others: Others, request: P.Request, p: Id, id: Id, answered: bool)
    requires p in before.promotions && (answered <==> !RowVanished(others, request.user))
    ensures GrantedOrLost(before, others,
                          if FirstRowTaken(others, request.user) || !answered then others.atFlush
                          else WithWrites(others.atFlush, AllRows(before, request, p, id)),
                          request, p, id, answered)
  {
    AllRowsOnTop(others.atFlush, before, request, p, id);
    OwnRowsOnTop(others.atFlush, before, request, p, id);
  }

  /**
   * A direct redemption, or one by code, answers a grant exactly as `Decide` says, unless the balance
   * row vanished. The granted redemption is stored exactly if no other transaction committed the user's
   * first balance row between this command's save and its flush.
   */
  method RedeemPromotion(session: CreditSession, request: P.Request, at: int, id: Id, others: Others)
    returns (answer: Decision)
    requires !request.AtSignup?
    requires session.writes == [] && RowConsistent(session.stored, request.user)
    requires forall p :: p in session.stored.promotions ==> session.stored.promotions[p].benefit >= 1
    requires var d := Decide(session.stored, request, None, at);
             d.Grant? ==> LocksHeld(session.stored, others.atFlush, request, d.promotionId, id)
    modifies session
    ensures session.writes == []
    ensures var d := Decide(old(session.stored), request, None, at);
            if d.Grant? then
              && (answer == d || answer == Failed)
              && GrantedOrLost(old(session.stored), others, session.stored, request, d.promotionId, id, answer == d)
            else answer == d && session.stored == old(session.stored)
  {
    var t := session.stored;
    if request.ByCode? && request.codeId !in t.codes {
      return NotFound;
    }
    var p := if request.ByCode? then t.codes[request.codeId].promotionId else request.promotionId;
    if p !in t.promotions || t.promotions[p].context == Some(Signup) {
      return NotFound;
    }
    var replay := HasKey(t.redemptions, P.RedemptionKey(request, p, 0));
    if replay {
      return Replay;
    }
    if request.ByCode? {
      var code := new CodeAggregate(request.codeId, t.codes[request.codeId]);
      var unusable := code.EnsureRedeemable(at);
      if unusable.Some? {
        return Refuse(unusable.value);
      }
    }
    var promotion := new PromotionAggregate(p, t.promotions[p]);
    var refusal := promotion.EnsureRedeemable(at);
    if refusal.Some? {
      return Refuse(refusal.value);
    }
    if CountForUser(t.redemptions, p, request.user) >= t.promotions[p].maxPerUser {
      return Refuse(UserLimit);
    }
    var finished := RedeemAndGrant(session, request, p, id, false, others);
    OutcomeOfGrant(t, others, request, p, id, finished);
    return if finished then Grant(p) else Failed;
  }

  /**
   * The same at signup, where the commit is left to the signup: the rows of a granted redemption are the
   * session's own, and nothing of it is stored yet. None: raised.
   */
  method RedeemAtSignup(session: CreditSession, user: Id, beneficiary: string, current: Option<Id>, at: int, id: Id,
                        others: Others)
    returns (granted: Option<bool>)
    requires session.writes == [] && RowConsistent(session.stored, user)
    requires forall p :: p in session.stored.promotions ==> session.stored.promotions[p].benefit >= 1
    requires IsNewestCurrent(session.stored, at, current)
    requires current.Some? ==>
            LocksHeld(session.stored, others.atFlush, P.AtSignup(user, beneficiary), current.value, id)
    modifies session
    ensures var request := P.AtSignup(user, beneficiary);
            if Decide(old(session.stored), request, current, at).Grant? then
              && granted != Some(false)
              && session.stored == others.atFlush
              && session.writes == SignupRows(old(session.stored), others, request, current.value, id)
              && GrantedOrLost(old(session.stored), others, session.View(), request, current.value, id, granted.Some?)
            else granted == Some(false) && session.stored == old(session.stored) && session.writes == []
  {
    var t := session.stored;
    if current.None? {
      return Some(false);
    }
    var existing := HasBeneficiary(t.redemptions, current.value, beneficiary);
    if existing {
      return Some(false);
    }
    CurrentSignupIsRedeemable(t.promotions[current.value], at);
    var finished := RedeemAndGrant(session, P.AtSignup(user, beneficiary), current.value, id, true, others);
    OutcomeOfGrant(t, others, P.AtSignup(user, beneficiary), current.value, id, finished);
    return if finished then Some(true) else None;
  }

  /** What a granted signup redemption leaves for the signup to commit. */
  function SignupRows(before: Tables, others: Others, request: P.Request, p: Id, id: Id): seq<Write>
    requires p in before.promotions
  {
    if FirstRowTaken(others, request.user) || RowVanished(others, request.user) then []
    else AllRows(before, request, p, id)
  }

  /**
   * A signup around its redemption, as far as these tables go: `completes` says whether the rest of it
   * reaches the commit, `atEnd` what others have stored by then. A redemption is stored only with its
   * signup, and a signup that fails leaves nothing of it.
   */
  method SignUp(session: CreditSession, user: Id, beneficiary: string, current: Option<Id>, at: int, id: Id,
                others: Others, completes: bool, atEnd: Tables)
    returns (done: bool)
    requires session.writes == [] && RowConsistent(session.stored, user)
    requires forall p :: p in session.stored.promotions ==> session.stored.promotions[p].benefit >= 1
    requires IsNewestCurrent(session.stored, at, current)
    requires current.Some? ==>
            LocksHeld(session.stored, others.atFlush, P.AtSignup(user, beneficiary), current.value, id)
    modifies session
    ensures session.writes == []
    ensures var request := P.AtSignup(user, beneficiary);
            if Decide(old(session.stored), request, current, at).Grant? then
              && (done <==> completes && !RowVanished(others, user))
              && session.stored ==
                   (if done then WithWrites(atEnd, SignupRows(old(session.stored), others, request, current.value, id))
                    else atEnd)
              && (!IsStored(atEnd, request, current.value, id) ==>
                    (IsStored(session.stored, request, current.value, id) <==>
                      done && !FirstRowTaken(others, user)))
            else done == completes && session.stored == atEnd
  {
    ghost var before := session.stored;
    var request := P.AtSignup(user, beneficiary);
    var granted := RedeemAtSignup(session, user, beneficiary, current, at, id, others);
    session.Refresh(atEnd);
    done := completes && granted.Some?;
    if done {
      session.Commit();
    } else {
      session.Rollback();
    }
    if Decide(before, request, current, at).Grant? {
      AllRowsOnTop(atEnd, before, request, current.value, id);
      OwnRowsOnTop(atEnd, before, request, current.value, id);
    }
  }

  /** Sending the same request again is answered from the stored redemption and grants nothing more. */
  lemma RedeemedIsReplayed(t: Tables, request: P.Request, current: Option<Id>, at: int, later: int, id: Id)
    requires Decide(t, request, current, at).Grant?
    requires (request.AtSignup? ==> current.Some? && current.value in t.promotions)
    ensures var p := Decide(t, request, current, at).promotionId;
            p in t.promotions && Decide(Redeemed(t, request, p, id), request, current, later) ==
                if request.AtSignup? then NothingToGrant else Replay
  {
    var p := Decide(t, request, current, at).promotionId;
    var t' := Redeemed(t, request, p, id);
    assert t'.redemptions[|t.redemptions|] == P.NewRedemption(request, p, id);
    assert KeyTaken(t'.redemptions, P.RedemptionKey(request, p, id));
  }

  // ---- The command's decision is the protocol's ---------------------------------------------------------

  /** Under the locks the protocol lets through exactly the requests that the command grants. */
  lemma ProtocolGrantsExactlyThese(s: P.State, a: P.Attempt, at: int)
    requires a.phase.HoldsPromotion? && P.CopyIsCurrent(s, a)
    ensures P.MayRedeem(s, a, at) <==>
            Decide(TablesOf(s), a.request, Some(a.phase.promotionId), at) == Grant(a.phase.promotionId)
              && PromotionRefusal(a.phase.promotion, at).None?
  {
    var p := a.phase.promotionId;
    var key := P.RedemptionKey(a.request, p, 0);
    assert KeyTaken(s.redemptions, key) <==> !(forall i :: 0 <= i < |s.redemptions| ==> s.redemptions[i].key != key);
    if a.request.AtSignup? {
      assert BeneficiaryTaken(s.redemptions, p, a.request.beneficiary) <==>
        !(forall i :: 0 <= i < |s.redemptions| ==>
            !(s.redemptions[i].promotionId == p && s.redemptions[i].beneficiary == Some(a.request.beneficiary)));
    }
  }

  function TablesOf(s: P.State): Tables
    ensures TablesOf(s).promotions == s.promotions
  {
    Tables(s.credits.balances, s.credits.ledger, s.promotions, s.codes, s.redemptions)
  }
}
