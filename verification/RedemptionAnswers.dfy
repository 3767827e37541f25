/**
 * What the redemption commands answer, said by the fields of the requests and the columns of the tables:
 * which requests count as the same, and when one is granted, refused or not found.
 */
module RedemptionAnswers {
  import opened Prelude
  import opened RedemptionKeys
  import opened Promotions
  import opened RedemptionProtocol
  import opened CreditUseCases
  import opened RedemptionUseCases
  import U = RedemptionUseCases
  import RedemptionInvariant

  // ---- The same request --------------------------------------------------------------------------------

  /** Promotion (or code), user and client key are equal; signups are told apart by their beneficiaries. */
  predicate SameRequest(a: Request, b: Request) {
    match a
    case Direct(p, user, k) => b.Direct? && b.promotionId == p && b.user == user && b.clientKey == k
    case ByCode(c, user, k) => b.ByCode? && b.codeId == c && b.user == user && b.clientKey == k
    case AtSignup(_, _) => false
  }

  /** The text in the key column of a redemption, and in that of its grant: a signup's has a prefix of its own. */
  lemma StoredKeyText(uuid: Id -> string, request: Request, p: Id, id: Id)
    ensures Text(uuid, CreditKey(NewRedemption(request, p, id))) ==
            if request.AtSignup? then "signupPromotionCredit:" + (uuid(p) + ":" + uuid(id))
            else Text(uuid, NewRedemption(request, p, id).key)
    ensures Text(uuid, NewRedemption(request, p, id).key) ==
            match request
            case Direct(q, user, None) => "promotionRedemption:" + (uuid(q) + ":" + uuid(user) + "")
            case Direct(q, user, Some(k)) => "promotionRedemption:" + (uuid(q) + ":" + uuid(user) + (":" + k))
            case ByCode(c, user, None) => "promotionCodeRedemption:" + (uuid(c) + ":" + uuid(user) + "")
            case ByCode(c, user, Some(k)) => "promotionCodeRedemption:" + (uuid(c) + ":" + uuid(user) + (":" + k))
            case AtSignup(_, _) => "signupPromotionRedemption:" + (uuid(p) + ":" + uuid(id))
  {
  }

  /**
   * Two redemptions, or their two grants, collide in the text of their keys exactly if they come from the
   * same direct or code request, or are one and the same signup redemption.
   */
  lemma StoredKeysCollideExactly(uuid: Id -> string, a: Request, p: Id, i: Id, b: Request, q: Id, j: Id)
    requires IsUuidText(uuid)
    ensures var r, o := NewRedemption(a, p, i), NewRedemption(b, q, j);
            var same := SameRequest(a, b) || (a.AtSignup? && b.AtSignup? && p == q && i == j);
            && (Text(uuid, r.key) == Text(uuid, o.key) <==> same)
            && (Text(uuid, CreditKey(r)) == Text(uuid, CreditKey(o)) <==> same)
  {
    var r, o := NewRedemption(a, p, i), NewRedemption(b, q, j);
    KeyTextIsInjective(uuid, r.key, o.key);
    KeyTextIsInjective(uuid, CreditKey(r), CreditKey(o));
  }

  // ---- One answer ----------------------------------------------------------------------------------------

  /** The promotion that the request is about. */
  function PromotionAsked(t: Tables, request: Request): Option<Id>
    requires !request.AtSignup?
  {
    if request.Direct? then Some(request.promotionId)
    else if request.codeId in t.codes then Some(t.codes[request.codeId].promotionId)
    else None
  }

  predicate Found(t: Tables, request: Request)
    requires !request.AtSignup?
  {
    var p := PromotionAsked(t, request);
    p.Some? && p.value in t.promotions && t.promotions[p.value].context != Some(Signup)
  }

  predicate PromotionOpen(p: Promotion, at: int) {
    && p.active && p.startsAt <= at && (p.expiresAt.Some? ==> at < p.expiresAt.value)
    && (p.maxRedemptions.Some? ==> p.timesRedeemed < p.maxRedemptions.value)
  }

  predicate CodeOpen(c: Code, at: int) {
    && c.active && (c.startsAt.Some? ==> c.startsAt.value <= at) && (c.expiresAt.Some? ==> at < c.expiresAt.value)
    && (c.maxRedemptions.Some? ==> c.timesRedeemed < c.maxRedemptions.value)
  }

  /** The user's redemptions of the promotion, by position. */
  function RedeemedBy(t: Tables, p: Id, user: Id): set<int> {
    set i | 0 <= i < |t.redemptions| && t.redemptions[i].promotionId == p && t.redemptions[i].user == user
  }

  /**
   * A direct or code request that is no repetition is granted exactly if code and promotion are open and
   * the user's limit is not used up; an exhausted limit of the user is the last reason to refuse.
   */
  lemma AnswerExactly(t: Tables, request: Request, at: int)
    requires !request.AtSignup?
    ensures Decide(t, request, None, at) == NotFound <==> !Found(t, request)
    ensures Found(t, request) && Decide(t, request, None, at) != Replay ==>
              var p := PromotionAsked(t, request).value;
              var open := && (request.ByCode? ==> CodeOpen(t.codes[request.codeId], at))
                          && PromotionOpen(t.promotions[p], at);
              var room := |RedeemedBy(t, p, request.user)| < t.promotions[p].maxPerUser;
              && (Decide(t, request, None, at).Grant? <==> open && room)
              && (Decide(t, request, None, at).Grant? ==> Decide(t, request, None, at) == Grant(p))
              && (Decide(t, request, None, at) == Refuse(UserLimit) <==> open && !room)
              && (request.ByCode? && !t.codes[request.codeId].active ==>
                    Decide(t, request, None, at) == Refuse(Inactive))
  {
    if Found(t, request) {
      CountForUserIsCardinality(t.redemptions, PromotionAsked(t, request).value, request.user);
    }
  }

  /** The promotions that a signup may get, and among them the one that started last, the larger id deciding ties. */
  predicate OpenAtSignup(p: Promotion, at: int) {
    p.context == Some(Signup) && PromotionOpen(p, at)
  }

  /** The signup query has one answer: the newest open signup promotion, or none if there is none. */
  lemma SignupQueryExactly(t: Tables, at: int)
    ensures exists found :: IsNewestCurrent(t, at, found)
    ensures forall found :: IsNewestCurrent(t, at, found) <==>
              if found.None? then forall q :: q in t.promotions ==> !OpenAtSignup(t.promotions[q], at)
              else
                && found.value in t.promotions && OpenAtSignup(t.promotions[found.value], at)
                && forall q :: q in t.promotions && OpenAtSignup(t.promotions[q], at) && q != found.value ==>
                     || t.promotions[q].startsAt < t.promotions[found.value].startsAt
                     || (t.promotions[q].startsAt == t.promotions[found.value].startsAt && q < found.value)
    ensures forall found, other :: IsNewestCurrent(t, at, found) && IsNewestCurrent(t, at, other) ==> found == other
  {
    var open := set p | p in t.promotions && OpenAtSignup(t.promotions[p], at);
    if open == {} {
      forall p | p in t.promotions ensures !IsCurrentSignup(t.promotions[p], at) { assert p !in open; }
      assert IsNewestCurrent(t, at, None);
    } else {
      var p := NewestOf(t, open);
      assert IsNewestCurrent(t, at, Some(p)) by {
        forall q | q in t.promotions && IsCurrentSignup(t.promotions[q], at)
          ensures StartedNoLater(t.promotions, q, p)
        {
          assert q in open;
        }
      }
    }
  }

  predicate StartedNoLater(promotions: map<Id, Promotion>, q: Id, p: Id)
    requires q in promotions && p in promotions
  {
    || promotions[q].startsAt < promotions[p].startsAt
    || (promotions[q].startsAt == promotions[p].startsAt && q <= p)
  }

  lemma {:induction false} NewestOf(t: Tables, among: set<Id>) returns (p: Id)
    requires among != {} && among <= t.promotions.Keys
    ensures p in among && forall q :: q in among ==> StartedNoLater(t.promotions, q, p)
    decreases among
  {
    var first :| first in among;
    p := first;
    if among != {first} {
      assert among - {first} != {};
      var rest := NewestOf(t, among - {first});
      if !StartedNoLater(t.promotions, rest, first) { p := rest; }
      forall q | q in among ensures StartedNoLater(t.promotions, q, p) {
        if q != first { assert q in among - {first}; }
      }
    }
  }

  /**
   * In every reachable state of racing redemptions an attempt that holds its promotion is let through exactly
   * if the command, run on the tables as they are, would answer it with a grant of that promotion.
   */
  lemma RedeemsExactly(states: seq<State>, steps: seq<Step>, n: nat, t: TxnId, at: int, id: Id)
    requires Run(states, steps) && n < |states| && t in states[n].attempts && id !in states[n].used
    requires states[n].attempts[t].phase.HoldsPromotion?
    ensures var s, a := states[n], states[n].attempts[t];
            var p := a.phase.promotionId;
            && p in s.promotions && s.promotions[p] == a.phase.promotion
            && (Enabled(s, Redeem(t, at, id)) <==>
                  && Decide(U.TablesOf(s), a.request, Some(p), at) == Grant(p)
                  && PromotionOpen(s.promotions[p], at))
  {
    RedemptionInvariant.RunKeepsInv(states, steps, n);
    assert CopyIsCurrent(states[n], states[n].attempts[t]);
    U.ProtocolGrantsExactlyThese(states[n], states[n].attempts[t], at);
  }

  lemma RedeemedAttemptKept(s: State, step: Step, t: TxnId, id: Id)
    requires Enabled(s, step) && id in s.used
    ensures id in Next(s, step).used
    ensures var s' := Next(s, step);
            t in s'.attempts && s'.attempts[t].phase.Redeemed? && s'.attempts[t].phase.redemption.id == id ==>
              t in s.attempts && s.attempts[t] == s'.attempts[t]
  {
  }

  lemma {:induction false} RedeemedAttemptAlong(states: seq<State>, steps: seq<Step>, i: nat, k: nat, t: TxnId, id: Id)
    requires Run(states, steps) && i <= k < |states| && id in states[i].used
    ensures id in states[k].used
    ensures t in states[k].attempts && states[k].attempts[t].phase.Redeemed?
            && states[k].attempts[t].phase.redemption.id == id ==>
              t in states[i].attempts && states[i].attempts[t] == states[k].attempts[t]
  {
    if i < k {
      RedeemedAttemptAlong(states, steps, i, k - 1, t, id);
      assert Enabled(states[k - 1], steps[k - 1]);
      RedeemedAttemptKept(states[k - 1], steps[k - 1], t, id);
    }
  }

  /**
   * Whatever others do from the step that redeems until the redemption's flush or commit, its row locks keep
   * promotion and code as they were read, and its grant stays new to the ledger.
   */
  lemma LocksHeldInTheCrowd(states: seq<State>, steps: seq<Step>, i: nat, k: nat, t: TxnId, at: int, id: Id)
    requires Run(states, steps) && i < k < |states| && steps[i] == Redeem(t, at, id)
    requires t in states[k].attempts && states[k].attempts[t].phase.Redeemed?
    requires states[k].attempts[t].phase.redemption.id == id
    ensures t in states[i].attempts && states[i].attempts[t].phase.HoldsPromotion?
    ensures var a := states[i].attempts[t];
            U.LocksHeld(U.TablesOf(states[i]), U.TablesOf(states[k]), a.request, a.phase.promotionId, id)
  {
    assert Enabled(states[i], steps[i]) && states[i + 1] == Next(states[i], steps[i]);
    RedeemedAttemptAlong(states, steps, i + 1, k, t, id);
    PendingGrantIsNew(states, steps, i + 1, t);
    PendingGrantIsNew(states, steps, k, t);
    RedemptionInvariant.RunKeepsInv(states, steps, i);
    assert CopyIsCurrent(states[i], states[i].attempts[t]);
  }

  /** The copies of a redeeming attempt are the stored rows, and its grant is new to the ledger. */
  lemma PendingGrantIsNew(states: seq<State>, steps: seq<Step>, n: nat, t: TxnId)
    requires Run(states, steps) && n < |states| && t in states[n].attempts && states[n].attempts[t].phase.Redeemed?
    ensures var s, a := states[n], states[n].attempts[t];
            && a.phase.promotionId in s.promotions && s.promotions[a.phase.promotionId] == a.phase.promotion
            && U.CodeOf(U.TablesOf(s), a.request) == a.phase.code
            && a.phase.redemption == NewRedemption(a.request, a.phase.promotionId, a.phase.redemption.id)
            && !AlreadyGranted(U.TablesOf(s), GrantFor(a.phase.redemption, a.phase.promotion.benefit))
  {
    RedemptionInvariant.RunKeepsInv(states, steps, n);
    assert CopyIsCurrent(states[n], states[n].attempts[t]) && StillAllowed(states[n], states[n].attempts[t]);
    RedemptionInvariant.PendingHasNoEntry(states[n], t);
  }

  // ---- A history of requests -----------------------------------------------------------------------------

  /** A command as it arrives: `current` is what a signup's query returned, `id` the id a redemption would get. */
  datatype Arrival = Arrival(request: Request, current: Option<Id>, at: int, id: Id)

  function AnswerTo(t: Tables, a: Arrival): Decision {
    Decide(t, a.request, a.current, a.at)
  }

  /** Commands one after the other, each answered and stored before the next. */
  ghost predicate History(tables: seq<Tables>, arrivals: seq<Arrival>) {
    && |tables| == |arrivals| + 1 && tables[0].redemptions == []
    && forall i :: 0 <= i < |arrivals| ==> Answered(tables[i], arrivals[i], tables[i + 1])
  }

  ghost predicate Answered(t: Tables, a: Arrival, t': Tables) {
    var answer := AnswerTo(t, a);
    if answer.Grant? then
      answer.promotionId in t.promotions && t' == U.Redeemed(t, a.request, answer.promotionId, a.id)
    else t' == t
  }

  ghost predicate GrantedBefore(tables: seq<Tables>, arrivals: seq<Arrival>, n: nat, request: Request)
    requires n <= |arrivals| < |tables|
  {
    exists i :: 0 <= i < n && AnswerTo(tables[i], arrivals[i]).Grant? && SameRequest(arrivals[i].request, request)
  }

  /** The redemption of the request is among the stored ones. */
  ghost predicate HasRedemptionOf(t: Tables, request: Request)
    requires !request.AtSignup?
  {
    KeyTaken(t.redemptions, RedemptionKey(request, 0, 0))
  }

  lemma {:induction false} GrantsAreStored(tables: seq<Tables>, arrivals: seq<Arrival>, n: nat, request: Request)
    requires History(tables, arrivals) && n <= |arrivals| && !request.AtSignup?
    ensures HasRedemptionOf(tables[n], request) <==> GrantedBefore(tables, arrivals, n, request)
  {
    if n > 0 {
      GrantsAreStored(tables, arrivals, n - 1, request);
      assert Answered(tables[n - 1], arrivals[n - 1], tables[n]);
      GrantedOneMore(tables, arrivals, n, request);
      var answer := AnswerTo(tables[n - 1], arrivals[n - 1]);
      if answer.Grant? { OneMoreKey(tables[n - 1], arrivals[n - 1], answer.promotionId, request); }
    }
  }

  lemma GrantedOneMore(tables: seq<Tables>, arrivals: seq<Arrival>, n: nat, request: Request)
    requires 0 < n <= |arrivals| < |tables|
    ensures GrantedBefore(tables, arrivals, n, request) <==>
            || GrantedBefore(tables, arrivals, n - 1, request)
            || (AnswerTo(tables[n - 1], arrivals[n - 1]).Grant? && SameRequest(arrivals[n - 1].request, request))
  {
  }

  lemma OneMoreKey(t: Tables, a: Arrival, p: Id, request: Request)
    requires p in t.promotions && !request.AtSignup?
    ensures HasRedemptionOf(U.Redeemed(t, a.request, p, a.id), request) <==>
            HasRedemptionOf(t, request) || SameRequest(a.request, request)
  {
    var r := NewRedemption(a.request, p, a.id);
    var after := U.Redeemed(t, a.request, p, a.id).redemptions;
    assert after == t.redemptions + [r] && after[|t.redemptions|] == r;
    if HasRedemptionOf(t, request) {
      var i :| 0 <= i < |t.redemptions| && t.redemptions[i].key == RedemptionKey(request, 0, 0);
      assert after[i] == t.redemptions[i];
    }
  }

  /**
   * After any history of commands, a direct or code request is answered as a repetition exactly if one
   * with the same promotion (or code), the same user and the same client key was granted before.
   */
  lemma ReplayedExactly(tables: seq<Tables>, arrivals: seq<Arrival>, n: nat, request: Request, at: int)
    requires History(tables, arrivals) && n <= |arrivals| && !request.AtSignup? && Found(tables[n], request)
    ensures Decide(tables[n], request, None, at) == Replay <==> GrantedBefore(tables, arrivals, n, request)
  {
    GrantsAreStored(tables, arrivals, n, request);
    assert RedemptionKey(request, PromotionAsked(tables[n], request).value, 0) == RedemptionKey(request, 0, 0);
  }

  /**
   * After a granted request another one, with any field of it changed, is granted too if it was no
   * repetition before and everything is still open to it; the same one is not.
   */
  lemma OtherKeyIsGranted(t: Tables, first: Arrival, request: Request, at: int)
    requires !first.request.AtSignup? && !request.AtSignup? && AnswerTo(t, first).Grant?
    ensures var p := AnswerTo(t, first).promotionId;
            && p in t.promotions
            && var t' := U.Redeemed(t, first.request, p, first.id);
            && (Found(t', request) <==> Found(t, request))
            && (SameRequest(first.request, request) ==> Decide(t', request, None, at) == Replay)
            && (!SameRequest(first.request, request) && Found(t', request) && Decide(t, request, None, at) != Replay ==>
                  var q := PromotionAsked(t', request).value;
                  Decide(t', request, None, at) == Grant(q) <==>
                    && (request.ByCode? ==> CodeOpen(t'.codes[request.codeId], at))
                    && PromotionOpen(t'.promotions[q], at)
                    && |RedeemedBy(t', q, request.user)| < t'.promotions[q].maxPerUser)
  {
    var p := AnswerTo(t, first).promotionId;
    OneMoreKey(t, first, p, request);
    AnswerExactly(U.Redeemed(t, first.request, p, first.id), request, at);
  }
}
