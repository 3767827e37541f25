/**
 * Schedule rules of due notifications: when a rule is due, which members its cadence selects, and how
 * the text of a notification is cut to fit. Local times are microseconds of the Seoul calendar, which
 * has no daylight saving, so a local time is a day number and a time of day.
 */
module ScheduleRules {
  import opened Prelude

  const DAY := 86_400_000_000

  datatype TargetKind = WarrantyReceipt | UnregisteredReceipt | InactiveReceipt | AllUser

  datatype Rule = Rule(
    campaignKey: string,
    enabled: bool,
    kind: TargetKind,
    dayOffset: Option<nat>,
    firstDelayDays: Option<nat>,
    repeatIntervalDays: Option<nat>,
    lookbackDays: Option<nat>,
    sendTime: nat,
    requiresMarketingConsent: bool,
    titleTemplate: string,
    bodyTemplate: string)

  /** A time of day lies within its day. */
  predicate Timed(rule: Rule) {
    rule.sendTime < DAY
  }

  datatype DueRule = DueRule(rule: Rule, targetDate: int)

  function ResolveDueRule(rule: Rule, now: int, targetDate: Option<int>): Option<DueRule> {
    if !rule.enabled then None
    else
      var currentDate := now / DAY;
      var resolved := if targetDate.Some? then targetDate.value else currentDate;
      if resolved > currentDate then None
      else if resolved == currentDate && now % DAY < rule.sendTime then None
      else Some(DueRule(rule, resolved))
  }

  function ObservationCutoff(due: DueRule): int {
    due.targetDate * DAY + due.rule.sendTime
  }

  /**
   * A rule is due exactly when it is enabled and its observation cutoff has passed, so no row created
   * from now on can enter the enumeration of a due rule.
   */
  lemma DueMeansCutoffHasPassed(rule: Rule, now: int, targetDate: Option<int>)
    requires Timed(rule)
    ensures var due := DueRule(rule, if targetDate.Some? then targetDate.value else now / DAY);
            ResolveDueRule(rule, now, targetDate) ==
                (if rule.enabled && ObservationCutoff(due) <= now then Some(due) else None)
  {
    var date := if targetDate.Some? then targetDate.value else now / DAY;
    assert now == (now / DAY) * DAY + now % DAY;
    if date > now / DAY {
      assert date * DAY >= (now / DAY + 1) * DAY;
    } else if date < now / DAY {
      assert (date + 1) * DAY <= (now / DAY) * DAY;
    }
  }

  // ---- Cadence ------------------------------------------------------------------------------------------

  function FirstDueDay(rule: Rule): nat {
    if rule.firstDelayDays.Some? then rule.firstDelayDays.value
    else if rule.lookbackDays.Some? then rule.lookbackDays.value
    else 0
  }

  predicate MatchesJoinCadence(rule: Rule, daysSinceJoined: int) {
    var first := FirstDueDay(rule);
    if daysSinceJoined < first then false
    else if rule.repeatIntervalDays.None? || rule.repeatIntervalDays.value == 0 then daysSinceJoined == first
    else (daysSinceJoined - first) % rule.repeatIntervalDays.value == 0
  }

  function RegistrationAgeDays(targetDate: int, registeredAt: int): int {
    targetDate - registeredAt / DAY
  }

  /** The day comes `n` whole intervals after the first one; without an interval only the first counts. */
  predicate NthDay(first: nat, interval: nat, n: int, days: int) {
    days == first + n * interval && (interval == 0 ==> n == 0)
  }

  /** Due days are the first due day and every whole interval after it. */
  lemma CadenceIsAnArithmeticProgression(rule: Rule, days: int)
    ensures MatchesJoinCadence(rule, days) <==>
            exists n :: 0 <= n && NthDay(FirstDueDay(rule), Interval(rule), n, days)
  {
    var first, interval := FirstDueDay(rule), Interval(rule);
    if MatchesJoinCadence(rule, days) {
      var n := if interval == 0 then 0 else (days - first) / interval;
      if interval > 0 { QuotientRemainder(days - first, interval); }
      assert 0 <= n && NthDay(first, interval, n, days);
    }
    if n :| 0 <= n && NthDay(first, interval, n, days) {
      if interval > 0 {
        MultipleHasNoRemainder(n, interval);
        assert days - first == n * interval >= 0;
      }
    }
  }

  function Interval(rule: Rule): nat {
    if rule.repeatIntervalDays.None? then 0 else rule.repeatIntervalDays.value
  }

  lemma QuotientRemainder(x: int, n: int)
    requires n > 0 && x >= 0
    ensures x == (x / n) * n + x % n && x / n >= 0
  {
  }

  lemma {:induction false} MultipleHasNoRemainder(k: int, n: int)
    requires n > 0 && k >= 0
    ensures (k * n) % n == 0 && k * n >= 0
    decreases k
  {
    if k > 0 {
      MultipleHasNoRemainder(k - 1, n);
      assert k * n == (k - 1) * n + n;
      AddOnceMore((k - 1) * n, n);
    }
  }

  lemma AddOnceMore(x: int, n: int)
    requires n > 0
    ensures (x + n) % n == x % n
  {
    var q, r := x / n, x % n;
    assert x + n == (q + 1) * n + r;
    RemainderUnique(x + n, n, q + 1, r);
  }

  lemma RemainderUnique(x: int, n: int, q: int, r: int)
    requires n > 0 && 0 <= r < n && x == q * n + r
    ensures x % n == r
  {
    var d := x / n - q;
    assert x == (x / n) * n + x % n;
    assert d * n == r - x % n;
    MultipleIsFarFromZero(d, n);
  }

  lemma MultipleIsFarFromZero(d: int, n: int)
    requires n > 0
    ensures d > 0 ==> d * n >= n
    ensures d < 0 ==> d * n <= -n
  {
  }

  lemma SameResidueFarApart(x: int, y: int, n: int)
    requires n > 0 && x >= 0 && y >= 0 && x % n == y % n && x < y
    ensures y - x >= n
  {
    QuotientRemainder(x, n);
    QuotientRemainder(y, n);
    var k := y / n - x / n;
    assert k * n == y - x;
    MultipleIsFarFromZero(k, n);
  }

  lemma NextMultiple(x: int, n: int)
    requires n > 0 && x >= 0
    ensures exists y :: x <= y < x + n && y % n == 0
  {
    QuotientRemainder(x, n);
    if x % n == 0 {
      assert x <= x < x + n;
    } else {
      var y := x + n - x % n;
      assert y == (x / n + 1) * n + 0;
      RemainderUnique(y, n, x / n + 1, 0);
      assert x <= y < x + n && y % n == 0;
    }
  }

  predicate DueWithin(rule: Rule, start: int, day: int) {
    start <= day < start + Interval(rule) && MatchesJoinCadence(rule, day)
  }

  /** From the first due day on a member is due exactly once in every stretch of one interval. */
  lemma DueOncePerInterval(rule: Rule, start: int)
    requires Interval(rule) > 0 && start >= FirstDueDay(rule)
    ensures exists d :: DueWithin(rule, start, d)
    ensures forall d, e :: DueWithin(rule, start, d) && DueWithin(rule, start, e) ==> d == e
  {
    var first, n := FirstDueDay(rule), Interval(rule);
    NextMultiple(start - first, n);
    var y :| start - first <= y < start - first + n && y % n == 0;
    assert DueWithin(rule, start, first + y);
    forall d, e | DueWithin(rule, start, d) && DueWithin(rule, start, e) ensures d == e {
      if d < e { SameResidueFarApart(d - first, e - first, n); }
      if e < d { SameResidueFarApart(e - first, d - first, n); }
    }
  }

  // ---- Text ---------------------------------------------------------------------------------------------

  const MARKER := "[기기명]"

  /** str.count: occurrences from the left, not overlapping. */
  function CountMarkers(template: string): nat
    decreases |template|
  {
    if |template| < |MARKER| then 0
    else if template[..|MARKER|] == MARKER then 1 + CountMarkers(template[|MARKER|..])
    else CountMarkers(template[1..])
  }

  /** str.replace. */
  function ReplaceMarkers(template: string, text: string): string
    decreases |template|
  {
    if |template| < |MARKER| then template
    else if template[..|MARKER|] == MARKER then text + ReplaceMarkers(template[|MARKER|..], text)
    else [template[0]] + ReplaceMarkers(template[1..], text)
  }

  function NameLength(template: string, maxLength: nat): nat
    requires CountMarkers(template) > 0
  {
    Max((maxLength - |ReplaceMarkers(template, "")|) / CountMarkers(template), 0)
  }

  function Prefix(s: string, n: nat): string {
    if |s| <= n then s else s[..n]
  }

  function RenderText(template: string, itemName: string, maxLength: nat): string {
    if CountMarkers(template) == 0 then template
    else ReplaceMarkers(template, Prefix(itemName, NameLength(template, maxLength)))
  }

  /** Counting and replacing see the same markers. */
  lemma {:induction false} ReplacedLength(template: string, text: string)
    ensures |ReplaceMarkers(template, text)| == |template| + CountMarkers(template) * (|text| - |MARKER|)
    decreases |template|
  {
    if |template| >= |MARKER| {
      if template[..|MARKER|] == MARKER {
        ReplacedLength(template[|MARKER|..], text);
        var n := CountMarkers(template[|MARKER|..]);
        assert (1 + n) * (|text| - |MARKER|) == (|text| - |MARKER|) + n * (|text| - |MARKER|);
      } else {
        ReplacedLength(template[1..], text);
      }
    }
  }

  lemma RenderedLength(template: string, itemName: string, maxLength: nat)
    requires CountMarkers(template) > 0
    ensures var fixed := |ReplaceMarkers(template, "")|;
            |RenderText(template, itemName, maxLength)| ==
            fixed + CountMarkers(template) * |Prefix(itemName, NameLength(template, maxLength))|
  {
    var n, name := CountMarkers(template), Prefix(itemName, NameLength(template, maxLength));
    ReplacedLength(template, "");
    ReplacedLength(template, name);
    Distributes(n, |name|, |MARKER|);
    Distributes(n, 0, |MARKER|);
  }

  lemma Distributes(n: int, a: int, b: int)
    ensures n * (a - b) == n * a - n * b
  {
  }

  /**
   * The rendered text fits exactly when the template without its markers fits, whatever the item name;
   * and then the name is cut no more than needed: it is whole, or one more character would not fit.
   */
  lemma RenderedTextFits(template: string, itemName: string, maxLength: nat)
    ensures |RenderText(template, itemName, maxLength)| <= maxLength <==> |ReplaceMarkers(template, "")| <= maxLength
    ensures CountMarkers(template) > 0 && |ReplaceMarkers(template, "")| <= maxLength ==>
              var k := NameLength(template, maxLength);
              k >= |itemName| || |ReplaceMarkers(template, "")| + CountMarkers(template) * (k + 1) > maxLength
  {
    var n, fixed := CountMarkers(template), |ReplaceMarkers(template, "")|;
    ReplacedLength(template, "");
    if n > 0 {
      RenderedLength(template, itemName, maxLength);
      FloorShare(fixed, n, maxLength, |Prefix(itemName, NameLength(template, maxLength))|);
    }
  }

  lemma FloorShare(fixed: nat, n: nat, maxLength: nat, used: nat)
    requires n > 0 && used <= Max((maxLength - fixed) / n, 0)
    ensures fixed + n * used <= maxLength <==> fixed <= maxLength
    ensures fixed <= maxLength ==> fixed + n * (Max((maxLength - fixed) / n, 0) + 1) > maxLength
  {
    if fixed <= maxLength {
      var k := (maxLength - fixed) / n;
      QuotientRemainder(maxLength - fixed, n);
      Scaled(used, k, n);
      assert n * (k + 1) == k * n + n;
    } else {
      Scaled(0, used, n);
    }
  }

  lemma Scaled(a: nat, b: nat, n: nat)
    requires a <= b
    ensures n * a <= n * b && n * b == b * n
  {
  }

  /** A validated template always fits: markers are never shorter than what they leave behind. */
  lemma ValidatedTemplateFits(template: string, itemName: string, maxLength: nat)
    requires |template| <= maxLength
    ensures |RenderText(template, itemName, maxLength)| <= maxLength
  {
    ReplacedLength(template, "");
    assert CountMarkers(template) * (|""| - |MARKER|) <= 0;
    RenderedTextFits(template, itemName, maxLength);
  }

  predicate HasMarker(s: string) {
    exists i :: 0 <= i < |s| && MarkerAt(s, i)
  }

  predicate MarkerAt(s: string, i: nat) {
    i + |MARKER| <= |s| && s[i..i + |MARKER|] == MARKER
  }

  /** str.join. */
  function Join(pieces: seq<string>, separator: string): string
    requires pieces != []
  {
    if |pieces| == 1 then pieces[0] else pieces[0] + separator + Join(pieces[1..], separator)
  }

  /** What stands between the markers. */
  ghost function Pieces(template: string): (pieces: seq<string>)
    ensures pieces != []
    decreases |template|
  {
    if |template| < |MARKER| then [template]
    else if template[..|MARKER|] == MARKER then [""] + Pieces(template[|MARKER|..])
    else
      var rest := Pieces(template[1..]);
      [[template[0]] + rest[0]] + rest[1..]
  }

  lemma JoinLonger(c: char, pieces: seq<string>, separator: string)
    requires pieces != []
    ensures Join([[c] + pieces[0]] + pieces[1..], separator) == [c] + Join(pieces, separator)
  {
    var longer := [[c] + pieces[0]] + pieces[1..];
    if |pieces| > 1 {
      assert longer[1..] == pieces[1..];
      assert longer[0] + separator + Join(pieces[1..], separator) ==
             [c] + (pieces[0] + separator + Join(pieces[1..], separator));
    }
  }

  lemma JoinEmptyFirst(pieces: seq<string>, separator: string)
    requires pieces != []
    ensures Join([""] + pieces, separator) == separator + Join(pieces, separator)
  {
    assert ([""] + pieces)[1..] == pieces;
    assert "" + separator + Join(pieces, separator) == separator + Join(pieces, separator);
  }

  /** Counting, splitting and replacing agree: replacing puts the text exactly where the markers stood. */
  lemma {:induction false} ReplacingJoinsThePieces(template: string, text: string)
    ensures Join(Pieces(template), MARKER) == template
    ensures Join(Pieces(template), text) == ReplaceMarkers(template, text)
    ensures |Pieces(template)| == CountMarkers(template) + 1
    decreases |template|
  {
    if |template| >= |MARKER| {
      if template[..|MARKER|] == MARKER {
        var rest := template[|MARKER|..];
        ReplacingJoinsThePieces(rest, text);
        JoinEmptyFirst(Pieces(rest), MARKER);
        JoinEmptyFirst(Pieces(rest), text);
        assert template == MARKER + rest;
      } else {
        var rest := template[1..];
        ReplacingJoinsThePieces(rest, text);
        JoinLonger(template[0], Pieces(rest), MARKER);
        JoinLonger(template[0], Pieces(rest), text);
        assert template == [template[0]] + rest;
      }
    }
  }

  lemma FirstPieceIsPrefix(template: string)
    ensures Pieces(template)[0] <= template
    decreases |template|
  {
    if |template| >= |MARKER| && template[..|MARKER|] != MARKER {
      FirstPieceIsPrefix(template[1..]);
      assert template == [template[0]] + template[1..];
    }
  }

  lemma {:induction false} PiecesHaveNoMarker(template: string)
    ensures forall k :: 0 <= k < |Pieces(template)| ==> !HasMarker(Pieces(template)[k])
    decreases |template|
  {
    if |template| >= |MARKER| {
      if template[..|MARKER|] == MARKER {
        PiecesHaveNoMarker(template[|MARKER|..]);
      } else {
        var rest := Pieces(template[1..]);
        PiecesHaveNoMarker(template[1..]);
        FirstPieceIsPrefix(template[1..]);
        LongerHasNoMarker(template, rest[0]);
      }
    }
  }

  lemma MarkerFurtherOn(c: char, s: string, i: nat)
    requires i > 0
    ensures MarkerAt([c] + s, i) <==> MarkerAt(s, i - 1)
  {
    if i + |MARKER| <= |s| + 1 {
      assert ([c] + s)[i..i + |MARKER|] == s[i - 1..i - 1 + |MARKER|];
    }
  }

  lemma LongerHasNoMarker(template: string, piece: string)
    requires |template| >= |MARKER| && template[..|MARKER|] != MARKER
    requires piece <= template[1..] && !HasMarker(piece)
    ensures !HasMarker([template[0]] + piece)
  {
    var longer := [template[0]] + piece;
    forall i | 0 <= i < |longer| ensures !MarkerAt(longer, i) {
      if i > 0 {
        MarkerFurtherOn(template[0], piece, i);
      } else if |longer| >= |MARKER| {
        assert longer[0..0 + |MARKER|] == template[..|MARKER|];
      }
    }
  }

  /**
   * What a rendered text is: the template falls into pieces without a marker, joined by markers, and the
   * text is the same pieces joined by the item name or a prefix of it.
   */
  lemma RenderedTextIsTheTemplateWithTheName(template: string, itemName: string, maxLength: nat)
    returns (pieces: seq<string>, name: string)
    ensures |pieces| == CountMarkers(template) + 1 && Join(pieces, MARKER) == template
    ensures forall k :: 0 <= k < |pieces| ==> !HasMarker(pieces[k])
    ensures name <= itemName && RenderText(template, itemName, maxLength) == Join(pieces, name)
    ensures Join(pieces, itemName) == ReplaceMarkers(template, itemName)
    ensures |ReplaceMarkers(template, itemName)| <= maxLength ==>
              RenderText(template, itemName, maxLength) == Join(pieces, itemName)
  {
    name := Prefix(itemName, NameLengthOrNone(template, maxLength));
    pieces := Pieces(template);
    ReplacingJoinsThePieces(template, name);
    ReplacingJoinsThePieces(template, itemName);
    PiecesHaveNoMarker(template);
    if CountMarkers(template) > 0 { WholeNameIsKept(template, itemName, maxLength); }
  }

  function NameLengthOrNone(template: string, maxLength: nat): nat {
    if CountMarkers(template) == 0 then 0 else NameLength(template, maxLength)
  }

  lemma WholeNameIsKept(template: string, itemName: string, maxLength: nat)
    requires CountMarkers(template) > 0
    ensures |ReplaceMarkers(template, itemName)| <= maxLength ==>
              Prefix(itemName, NameLength(template, maxLength)) == itemName
  {
    var n, fixed := CountMarkers(template), |ReplaceMarkers(template, "")|;
    ReplacedLength(template, "");
    ReplacedLength(template, itemName);
    Distributes(n, |itemName|, |MARKER|);
    Distributes(n, 0, |MARKER|);
    WholeLengthFits(fixed, n, |itemName|, maxLength);
  }

  lemma WholeLengthFits(fixed: nat, n: nat, length: nat, maxLength: nat)
    requires n > 0
    ensures fixed + n * length <= maxLength ==> length <= Max((maxLength - fixed) / n, 0)
  {
    if fixed <= maxLength {
      var k := (maxLength - fixed) / n;
      QuotientRemainder(maxLength - fixed, n);
      assert n * (k + 1) == k * n + n;
      if length > k { Scaled(k + 1, length, n); }
    } else {
      Scaled(0, length, n);
    }
  }

  // ---- Validation ---------------------------------------------------------------------------------------

  /** Not empty, not too long, and without blanks at either end. */
  predicate ValidText(blank: char -> bool, text: string, maxLength: nat) {
    text != "" && !blank(text[0]) && !blank(text[|text| - 1]) && |text| <= maxLength
  }

  /** A warranty rule has an offset and nothing else; any other rule needs only its repeat interval. */
  predicate ValidTiming(rule: Rule) {
    if rule.kind.WarrantyReceipt? then
      rule.dayOffset.Some? && rule.firstDelayDays.None? && rule.repeatIntervalDays.None? && rule.lookbackDays.None?
    else
      rule.repeatIntervalDays.Some?
  }

  /** What a rule must satisfy to be created. Day counts are natural numbers by their type. */
  predicate Validated(blank: char -> bool, rule: Rule) {
    && ValidText(blank, rule.campaignKey, 100)
    && ValidText(blank, rule.titleTemplate, TITLE_LENGTH)
    && ValidText(blank, rule.bodyTemplate, BODY_LENGTH)
    && ValidTiming(rule)
    && (!rule.kind.WarrantyReceipt? ==> rule.requiresMarketingConsent)
  }

  const TITLE_LENGTH := 100
  const BODY_LENGTH := 255

  /**
   * Whatever the item name, both texts of a validated rule render within their limits. A warranty rule has
   * its offset and no cadence, and any other rule repeats and asks for marketing consent.
   */
  lemma ValidatedRuleFits(blank: char -> bool, rule: Rule, itemName: string)
    requires Validated(blank, rule)
    ensures |RenderText(rule.titleTemplate, itemName, TITLE_LENGTH)| <= 100
    ensures |RenderText(rule.bodyTemplate, itemName, BODY_LENGTH)| <= 255
    ensures |rule.campaignKey| <= 100
    ensures forall text :: text in {rule.campaignKey, rule.titleTemplate, rule.bodyTemplate} ==>
              text != "" && !blank(text[0]) && !blank(text[|text| - 1])
    ensures rule.kind.WarrantyReceipt? ==> rule.dayOffset.Some? && FirstDueDay(rule) == 0 && Interval(rule) == 0
    ensures !rule.kind.WarrantyReceipt? ==> rule.repeatIntervalDays.Some? && rule.requiresMarketingConsent
  {
    ValidatedTemplateFits(rule.titleTemplate, itemName, TITLE_LENGTH);
    ValidatedTemplateFits(rule.bodyTemplate, itemName, BODY_LENGTH);
  }
}
