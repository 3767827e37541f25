/**
 * Keyword search in the receipt list: the keyword is escaped by three replacements, wrapped in
 * percent signs and matched with ILIKE, escape character backslash. `fold` is the case folding.
 */
module LikePattern {

  /** str.replace for a one-character needle. */
  function Replace(s: string, needle: char, replacement: string): string {
    if s == "" then "" else (if s[0] == needle then replacement else [s[0]]) + Replace(s[1..], needle, replacement)
  }

  function EscapeKeyword(keyword: string): string {
    Replace(Replace(Replace(keyword, '\\', "\\\\"), '%', "\\%"), '_', "\\_")
  }

  function KeywordPattern(keyword: string): string {
    "%" + EscapeKeyword(keyword) + "%"
  }

  predicate Special(c: char) {
    c == '\\' || c == '%' || c == '_'
  }

  /** ILIKE with escape backslash. A pattern that ends in a lone escape character matches nothing. */
  predicate Matches(pattern: string, s: string, fold: char -> char)
    decreases |pattern|, |s|
  {
    if pattern == "" then
      s == ""
    else if pattern[0] == '%' then
      Matches(pattern[1..], s, fold) || (s != "" && Matches(pattern, s[1..], fold))
    else if pattern[0] == '_' then
      s != "" && Matches(pattern[1..], s[1..], fold)
    else if pattern[0] == '\\' then
      |pattern| > 1 && s != "" && fold(s[0]) == fold(pattern[1]) && Matches(pattern[2..], s[1..], fold)
    else
      s != "" && fold(s[0]) == fold(pattern[0]) && Matches(pattern[1..], s[1..], fold)
  }

  /** `keyword` stands in `s` at position `i`, up to case folding. */
  predicate OccursAt(keyword: string, s: string, i: nat, fold: char -> char) {
    i + |keyword| <= |s| && forall k :: 0 <= k < |keyword| ==> fold(s[i + k]) == fold(keyword[k])
  }

  // ---- One escape per special character -----------------------------------------------------------

  function EscapeEach(keyword: string): string {
    if keyword == "" then ""
    else (if Special(keyword[0]) then ['\\', keyword[0]] else [keyword[0]]) + EscapeEach(keyword[1..])
  }

  lemma {:induction false} ReplaceConcat(a: string, b: string, needle: char, replacement: string)
    ensures Replace(a + b, needle, replacement) == Replace(a, needle, replacement) + Replace(b, needle, replacement)
  {
    if a == "" {
      assert a + b == b;
    } else {
      ReplaceConcat(a[1..], b, needle, replacement);
      assert (a + b)[1..] == a[1..] + b;
    }
  }

  /** The three sequential replacements never touch each other's output: each special character gets one escape. */
  lemma {:induction false} SequentialEscapeIsPerCharacter(keyword: string)
    ensures EscapeKeyword(keyword) == EscapeEach(keyword)
  {
    if keyword != "" {
      var head, tail := [keyword[0]], keyword[1..];
      SequentialEscapeIsPerCharacter(tail);
      assert keyword == head + tail;
      ReplaceConcat(head, tail, '\\', "\\\\");
      var h1, t1 := Replace(head, '\\', "\\\\"), Replace(tail, '\\', "\\\\");
      ReplaceConcat(h1, t1, '%', "\\%");
      var h2, t2 := Replace(h1, '%', "\\%"), Replace(t1, '%', "\\%");
      ReplaceConcat(h2, t2, '_', "\\_");
      EscapeOne(keyword[0]);
    }
  }

  lemma ReplaceOne(c: char, needle: char, replacement: string)
    ensures Replace([c], needle, replacement) == if c == needle then replacement else [c]
  {
    assert [c][1..] == "";
  }

  lemma EscapeOne(c: char)
    ensures EscapeKeyword([c]) == if Special(c) then ['\\', c] else [c]
  {
    ReplaceOne(c, '\\', "\\\\");
    ReplaceOne(c, '%', "\\%");
    ReplaceOne(c, '_', "\\_");
    ReplaceOne('\\', '%', "\\%");
    ReplaceOne('\\', '_', "\\_");
    ReplaceOne('%', '_', "\\_");
    ReplaceConcat("\\", "\\", '%', "\\%");
    ReplaceConcat("\\", "\\", '_', "\\_");
    ReplaceConcat("\\", "%", '_', "\\_");
    assert "\\\\" == "\\" + "\\" && "\\%" == "\\" + "%";
  }

  // ---- Escaped means literal -----------------------------------------------------------------------

  /** A literal prefix of the pattern consumes exactly the characters it stands for. */
  lemma {:induction false} EscapedPrefix(keyword: string, rest: string, s: string, fold: char -> char)
    ensures Matches(EscapeEach(keyword) + rest, s, fold) <==>
            OccursAt(keyword, s, 0, fold) && Matches(rest, s[|keyword|..], fold)
  {
    if keyword == "" {
      assert EscapeEach(keyword) + rest == rest && s[0..] == s;
    } else {
      var tail := keyword[1..];
      EscapedHead(keyword[0], EscapeEach(tail) + rest, s, fold);
      assert EscapeEach(keyword) + rest == EscapeEach([keyword[0]]) + (EscapeEach(tail) + rest);
      if s != "" {
        EscapedPrefix(tail, rest, s[1..], fold);
        OccursAtTail(keyword, s, fold);
        if |keyword| <= |s| { assert s[1..][|tail|..] == s[|keyword|..]; }
      }
    }
  }

  lemma EscapedHead(c: char, rest: string, s: string, fold: char -> char)
    ensures EscapeEach([c]) == if Special(c) then ['\\', c] else [c]
    ensures Matches(EscapeEach([c]) + rest, s, fold) <==>
            s != "" && fold(s[0]) == fold(c) && Matches(rest, s[1..], fold)
  {
    assert [c][1..] == "";
    var step := if Special(c) then 2 else 1;
    assert (EscapeEach([c]) + rest)[step..] == rest;
  }

  lemma OccursAtTail(keyword: string, s: string, fold: char -> char)
    requires keyword != "" && s != ""
    ensures OccursAt(keyword, s, 0, fold) <==> fold(s[0]) == fold(keyword[0]) && OccursAt(keyword[1..], s[1..], 0, fold)
  {
    if fold(s[0]) == fold(keyword[0]) && OccursAt(keyword[1..], s[1..], 0, fold) {
      forall k | 0 <= k < |keyword| ensures fold(s[k]) == fold(keyword[k]) {
        if k > 0 { assert s[1..][k - 1] == s[k] && keyword[1..][k - 1] == keyword[k]; }
      }
    }
    if OccursAt(keyword, s, 0, fold) {
      forall k | 0 <= k < |keyword[1..]| ensures fold(s[1..][k]) == fold(keyword[1..][k]) {
        assert fold(s[0 + (k + 1)]) == fold(keyword[k + 1]);
      }
    }
  }

  /** A leading percent sign matches from any position on. */
  lemma {:induction false} PercentSkips(rest: string, s: string, fold: char -> char)
    ensures Matches("%" + rest, s, fold) <==> exists i :: 0 <= i <= |s| && Matches(rest, s[i..], fold)
    decreases |s|
  {
    assert ("%" + rest)[1..] == rest && s[0..] == s;
    if s != "" {
      PercentSkips(rest, s[1..], fold);
      assert forall i :: 0 <= i <= |s[1..]| ==> s[1..][i..] == s[i + 1..];
      if i :| 0 <= i <= |s| && Matches(rest, s[i..], fold) {
        if i > 0 { assert s[1..][i - 1..] == s[i..]; }
      }
    }
  }

  lemma {:induction false} PercentMatchesAll(s: string, fold: char -> char)
    ensures Matches("%", s, fold)
  {
    PercentSkips("", s, fold);
    assert "%" + "" == "%" && s[|s|..] == "";
  }

  /** The search matches a text exactly when the keyword occurs in it, whatever characters either holds. */
  lemma KeywordPatternMeansSubstring(keyword: string, s: string, fold: char -> char)
    ensures Matches(KeywordPattern(keyword), s, fold) <==> exists i :: OccursAt(keyword, s, i, fold)
  {
    SequentialEscapeIsPerCharacter(keyword);
    var rest := EscapeEach(keyword) + "%";
    assert KeywordPattern(keyword) == "%" + rest;
    PercentSkips(rest, s, fold);
    forall i | 0 <= i <= |s| ensures Matches(rest, s[i..], fold) <==> OccursAt(keyword, s, i, fold) {
      EscapedPrefix(keyword, "%", s[i..], fold);
      if |keyword| <= |s[i..]| { PercentMatchesAll(s[i..][|keyword|..], fold); }
      assert OccursAt(keyword, s[i..], 0, fold) <==> OccursAt(keyword, s, i, fold) by {
        assert forall k :: 0 <= k < |s| - i ==> s[i..][k] == s[i + k];
        if OccursAt(keyword, s[i..], 0, fold) {
          forall k | 0 <= k < |keyword|
            ensures fold(s[i + k]) == fold(keyword[k])
          {
            assert fold(s[i..][0 + k]) == fold(keyword[k]);
          }
        }
      }
    }
  }
}
