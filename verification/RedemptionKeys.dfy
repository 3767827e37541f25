/** Idempotency keys of redemptions and of the credit grants they cause. */
module RedemptionKeys {
  import opened Prelude

  type Id = nat

  /** The key families the application builds, and keys of any other origin. */
  datatype Key =
    | DirectKey(promotion: Id, user: Id, clientKey: Option<string>)
    | CodeKey(code: Id, user: Id, clientKey: Option<string>)
    | SignupKey(promotion: Id, redemption: Id)
    | SignupCreditKey(promotion: Id, redemption: Id)
    | OtherKey(text: string)

  /** Keys written by a redemption; every other grant is keyed outside these families. */
  predicate FromRedemption(k: Key) {
    !k.OtherKey?
  }

  const UUID_LENGTH := 36

  /** The canonical text of a UUID: 36 characters, different for different ids (section 4 of RFC 9562). */
  ghost predicate IsUuidText(uuid: Id -> string) {
    && (forall i :: |uuid(i)| == UUID_LENGTH)
    && (forall i, j :: uuid(i) == uuid(j) ==> i == j)
  }

  function Suffix(clientKey: Option<string>): string {
    match clientKey
    case None => ""
    case Some(k) => ":" + k
  }

  function Prefix(k: Key): string {
    match k
    case DirectKey(_, _, _) => "promotionRedemption:"
    case CodeKey(_, _, _) => "promotionCodeRedemption:"
    case SignupKey(_, _) => "signupPromotionRedemption:"
    case SignupCreditKey(_, _) => "signupPromotionCredit:"
    case OtherKey(_) => ""
  }

  /** The string stored in the key column. */
  function Text(uuid: Id -> string, k: Key): string {
    Prefix(k) +
    match k
    case DirectKey(p, u, c) => uuid(p) + ":" + uuid(u) + Suffix(c)
    case CodeKey(p, u, c) => uuid(p) + ":" + uuid(u) + Suffix(c)
    case SignupKey(p, r) => uuid(p) + ":" + uuid(r)
    case SignupCreditKey(p, r) => uuid(p) + ":" + uuid(r)
    case OtherKey(t) => t
  }

  lemma SameTails(a: string, b: string, c: string, d: string)
    requires |a| == |b| && a + c == b + d
    ensures a == b && c == d
  {
    assert a == (a + c)[..|a|] && b == (b + d)[..|b|];
    assert c == (a + c)[|a|..] && d == (b + d)[|b|..];
  }

  lemma PartsDecide(uuid: Id -> string, p: Id, u: Id, rest: string, q: Id, v: Id, tail: string)
    requires IsUuidText(uuid)
    requires uuid(p) + ":" + uuid(u) + rest == uuid(q) + ":" + uuid(v) + tail
    ensures p == q && u == v && rest == tail
  {
    SameTails(uuid(p) + ":" + uuid(u), uuid(q) + ":" + uuid(v), rest, tail);
    SameTails(uuid(p) + ":", uuid(q) + ":", uuid(u), uuid(v));
    SameTails(uuid(p), uuid(q), ":", ":");
  }

  lemma PrefixesDiffer(k: Key, l: Key, a: string, b: string)
    requires FromRedemption(k) && FromRedemption(l) && Prefix(k) + a == Prefix(l) + b
    ensures Prefix(k) == Prefix(l)
  {
    var s := Prefix(k) + a;
    var t := Prefix(l) + b;
    // "promotionR" / "promotionC" / "signupPromotionR" / "signupPromotionC"
    assert s[0] == Prefix(k)[0] && t[0] == Prefix(l)[0];
    assert s[9] == Prefix(k)[9] && t[9] == Prefix(l)[9];
    assert s[15] == Prefix(k)[15] && t[15] == Prefix(l)[15];
  }

  /** Within and across the four families, two keys with the same text are the same key. */
  lemma KeyTextIsInjective(uuid: Id -> string, k: Key, l: Key)
    requires IsUuidText(uuid) && FromRedemption(k) && FromRedemption(l)
    ensures Text(uuid, k) == Text(uuid, l) <==> k == l
  {
    if Text(uuid, k) == Text(uuid, l) {
      var a := Text(uuid, k)[|Prefix(k)|..];
      var b := Text(uuid, l)[|Prefix(l)|..];
      assert Text(uuid, k) == Prefix(k) + a && Text(uuid, l) == Prefix(l) + b;
      PrefixesDiffer(k, l, a, b);
      SameTails(Prefix(k), Prefix(l), a, b);
      SameParts(uuid, k, l, a);
    }
  }

  lemma SameParts(uuid: Id -> string, k: Key, l: Key, rest: string)
    requires IsUuidText(uuid) && FromRedemption(k) && FromRedemption(l) && Prefix(k) == Prefix(l)
    requires Text(uuid, k) == Prefix(k) + rest && Text(uuid, l) == Prefix(k) + rest
    ensures k == l
  {
    assert Text(uuid, k)[|Prefix(k)|..] == rest && Text(uuid, l)[|Prefix(k)|..] == rest;
    assert SameFamily(k, l) by { FamilyOfPrefix(k, l); }
    match k
    case DirectKey(p, u, c) =>
      PartsDecide(uuid, p, u, Suffix(c), l.promotion, l.user, Suffix(l.clientKey));
      SuffixIsInjective(c, l.clientKey);
    case CodeKey(p, u, c) =>
      PartsDecide(uuid, p, u, Suffix(c), l.code, l.user, Suffix(l.clientKey));
      SuffixIsInjective(c, l.clientKey);
    case SignupKey(p, r) => PartsDecide(uuid, p, r, "", l.promotion, l.redemption, "");
    case SignupCreditKey(p, r) => PartsDecide(uuid, p, r, "", l.promotion, l.redemption, "");
  }

  predicate SameFamily(k: Key, l: Key) {
    (k.DirectKey? <==> l.DirectKey?) && (k.CodeKey? <==> l.CodeKey?) && (k.SignupKey? <==> l.SignupKey?)
    && (k.SignupCreditKey? <==> l.SignupCreditKey?)
  }

  lemma FamilyOfPrefix(k: Key, l: Key)
    requires FromRedemption(k) && FromRedemption(l) && Prefix(k) == Prefix(l)
    ensures SameFamily(k, l)
  {
    assert |"promotionRedemption:"| == 20 && |"promotionCodeRedemption:"| == 24;
    assert |"signupPromotionRedemption:"| == 26 && |"signupPromotionCredit:"| == 22;
    assert |Prefix(k)| == |Prefix(l)|;
  }

  lemma SuffixIsInjective(c: Option<string>, d: Option<string>)
    requires Suffix(c) == Suffix(d)
    ensures c == d
  {
    if c.Some? {
      assert |Suffix(c)| > 0;
      SameTails(":", ":", c.value, d.value);
    } else {
      assert d.None?;
    }
  }
}
