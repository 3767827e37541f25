/** Promotions, promotion codes and the redemptions recorded against them. */
module Promotions {
  import opened Prelude
  import opened RedemptionKeys

  datatype Context = Recharge | Signup

  datatype Promotion = Promotion(
    active: bool, startsAt: int, expiresAt: Option<int>, maxRedemptions: Option<nat>, timesRedeemed: nat,
    maxPerUser: nat, context: Option<Context>, benefit: nat)

  datatype Code = Code(
    promotionId: Id, active: bool, startsAt: Option<int>, expiresAt: Option<int>, maxRedemptions: Option<nat>,
    timesRedeemed: nat)

  datatype Redemption = Redemption(
    id: Id, promotionId: Id, codeId: Option<Id>, user: Id, beneficiary: Option<string>, key: Key)

  datatype Refusal = Inactive | NotStarted | Expired | Exhausted | UserLimit

  /** The first check that fails, in the order the source makes them. */
  function PromotionRefusal(p: Promotion, at: int): Option<Refusal> {
    if !p.active then Some(Inactive)
    else if p.startsAt > at then Some(NotStarted)
    else if p.expiresAt.Some? && p.expiresAt.value <= at then Some(Expired)
    else if p.maxRedemptions.Some? && p.timesRedeemed >= p.maxRedemptions.value then Some(Exhausted)
    else None
  }

  function CodeRefusal(c: Code, at: int): Option<Refusal> {
    if !c.active then Some(Inactive)
    else if c.startsAt.Some? && c.startsAt.value > at then Some(NotStarted)
    else if c.expiresAt.Some? && c.expiresAt.value <= at then Some(Expired)
    else if c.maxRedemptions.Some? && c.timesRedeemed >= c.maxRedemptions.value then Some(Exhausted)
    else None
  }

  /** The filter of the query that picks the signup promotion. */
  predicate IsCurrentSignup(p: Promotion, at: int) {
    && p.active && p.context == Some(Signup) && p.startsAt <= at
    && (p.expiresAt.None? || p.expiresAt.value > at)
    && (p.maxRedemptions.None? || p.timesRedeemed < p.maxRedemptions.value)
  }

  /** The signup query only returns promotions that the later check accepts. */
  lemma CurrentSignupIsRedeemable(p: Promotion, at: int)
    ensures IsCurrentSignup(p, at) <==> PromotionRefusal(p, at).None? && p.context == Some(Signup)
  {
  }

  function Recorded(p: Promotion): Promotion {
    p.(timesRedeemed := p.timesRedeemed + 1)
  }

  function CodeRecorded(c: Code): Code {
    c.(timesRedeemed := c.timesRedeemed + 1)
  }

  function CreditKey(r: Redemption): Key {
    match r.key
    case SignupKey(p, id) => SignupCreditKey(p, id)
    case k => k
  }

  function CountFor(redemptions: seq<Redemption>, p: Id): nat {
    if redemptions == [] then 0
    else
      CountFor(redemptions[..|redemptions| - 1], p)
      + if redemptions[|redemptions| - 1].promotionId == p then 1 else 0
  }

  function CountForCode(redemptions: seq<Redemption>, c: Id): nat {
    if redemptions == [] then 0
    else
      CountForCode(redemptions[..|redemptions| - 1], c)
      + if redemptions[|redemptions| - 1].codeId == Some(c) then 1 else 0
  }

  /** count(*) over the user's granted redemptions of the promotion. */
  function CountForUser(redemptions: seq<Redemption>, p: Id, user: Id): nat {
    if redemptions == [] then 0
    else
      var last := redemptions[|redemptions| - 1];
      CountForUser(redemptions[..|redemptions| - 1], p, user)
      + if last.promotionId == p && last.user == user then 1 else 0
  }

  // Each count is the number of rows it is meant to count.

  lemma {:induction false} CountForIsCardinality(redemptions: seq<Redemption>, p: Id)
    ensures CountFor(redemptions, p) ==
            |set i | 0 <= i < |redemptions| && redemptions[i].promotionId == p|
  {
    if redemptions != [] {
      var n := |redemptions| - 1;
      var rest := redemptions[..n];
      CountForIsCardinality(rest, p);
      assert (set i | 0 <= i < |redemptions| && redemptions[i].promotionId == p) ==
             (set i | 0 <= i < |rest| && rest[i].promotionId == p)
             + if redemptions[n].promotionId == p then {n} else {};
    }
  }

  lemma {:induction false} CountForCodeIsCardinality(redemptions: seq<Redemption>, c: Id)
    ensures CountForCode(redemptions, c) ==
            |set i | 0 <= i < |redemptions| && redemptions[i].codeId == Some(c)|
  {
    if redemptions != [] {
      var n := |redemptions| - 1;
      var rest := redemptions[..n];
      CountForCodeIsCardinality(rest, c);
      assert (set i | 0 <= i < |redemptions| && redemptions[i].codeId == Some(c)) ==
             (set i | 0 <= i < |rest| && rest[i].codeId == Some(c))
             + if redemptions[n].codeId == Some(c) then {n} else {};
    }
  }

  lemma {:induction false} CountForUserIsCardinality(redemptions: seq<Redemption>, p: Id, user: Id)
    ensures CountForUser(redemptions, p, user) ==
            |set i | 0 <= i < |redemptions| && redemptions[i].promotionId == p && redemptions[i].user == user|
  {
    if redemptions != [] {
      var n := |redemptions| - 1;
      var rest := redemptions[..n];
      CountForUserIsCardinality(rest, p, user);
      assert (set i | 0 <= i < |redemptions| && redemptions[i].promotionId == p && redemptions[i].user == user) ==
             (set i | 0 <= i < |rest| && rest[i].promotionId == p && rest[i].user == user)
             + if redemptions[n].promotionId == p && redemptions[n].user == user then {n} else {};
    }
  }

  lemma CountForAppend(redemptions: seq<Redemption>, r: Redemption, p: Id)
    ensures CountFor(redemptions + [r], p) == CountFor(redemptions, p) + if r.promotionId == p then 1 else 0
  {
    assert (redemptions + [r])[..|redemptions|] == redemptions;
  }

  lemma CountForUserAppend(redemptions: seq<Redemption>, r: Redemption, p: Id, user: Id)
    ensures CountForUser(redemptions + [r], p, user) ==
            CountForUser(redemptions, p, user) + if r.promotionId == p && r.user == user then 1 else 0
  {
    assert (redemptions + [r])[..|redemptions|] == redemptions;
  }

  lemma CountForCodeAppend(redemptions: seq<Redemption>, r: Redemption, c: Id)
    ensures CountForCode(redemptions + [r], c) == CountForCode(redemptions, c) + if r.codeId == Some(c) then 1 else 0
  {
    assert (redemptions + [r])[..|redemptions|] == redemptions;
  }
}
