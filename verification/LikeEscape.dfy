/** Escaping a search text for LIKE ... ESCAPE '|'. */
module LikeEscape {
  const ESC: char := '|'

  predicate Special(c: char) {
    c == ESC || c == '%' || c == '_'
  }

  function ReplaceAll(s: string, c: char, repl: string): string {
    if s == "" then "" else (if s[0] == c then repl else [s[0]]) + ReplaceAll(s[1..], c, repl)
  }

  // Three replacements in a row, the escape character first.
  function EscapeLikePattern(s: string): string {
    ReplaceAll(ReplaceAll(ReplaceAll(s, ESC, "||"), '%', "|%"), '_', "|_")
  }

  function OnePass(s: string): string {
    if s == "" then "" else (if Special(s[0]) then [ESC, s[0]] else [s[0]]) + OnePass(s[1..])
  }

  lemma Associates(a: string, b: string, c: string)
    ensures a + b + c == a + (b + c)
  {
  }

  lemma {:induction false} ReplaceAllAppends(a: string, b: string, c: char, repl: string)
    ensures ReplaceAll(a + b, c, repl) == ReplaceAll(a, c, repl) + ReplaceAll(b, c, repl)
  {
    if a == "" {
      assert a + b == b;
    } else {
      var head := if a[0] == c then repl else [a[0]];
      var x, y := ReplaceAll(a[1..], c, repl), ReplaceAll(b, c, repl);
      assert ReplaceAll(a + b, c, repl) == head + (x + y) by {
        ReplaceAllAppends(a[1..], b, c, repl);
        assert (a + b)[0] == a[0] && (a + b)[1..] == a[1..] + b;
      }
      Associates(head, x, y);
    }
  }

  lemma ReplaceInOne(x: char, c: char, repl: string)
    ensures ReplaceAll([x], c, repl) == if x == c then repl else [x]
  {
    assert [x][1..] == "";
  }

  lemma ReplaceInTwo(x: char, y: char, c: char, repl: string)
    ensures ReplaceAll([x, y], c, repl) == (if x == c then repl else [x]) + (if y == c then repl else [y])
  {
    assert [x, y] == [x] + [y];
    ReplaceAllAppends([x], [y], c, repl);
    ReplaceInOne(x, c, repl);
    ReplaceInOne(y, c, repl);
  }

  lemma EscapeOne(x: char)
    ensures EscapeLikePattern([x]) == OnePass([x])
  {
    ReplaceInOne(x, ESC, "||");
    ReplaceInOne(x, '%', "|%");
    ReplaceInOne(x, '_', "|_");
    ReplaceInTwo('|', '|', '%', "|%");
    ReplaceInTwo('|', '|', '_', "|_");
    ReplaceInTwo('|', '%', '_', "|_");
    assert [x][1..] == "" && OnePass("") == "";
  }

  /** No replacement touches what an earlier one inserted: the three together are
      one pass over the characters. */
  lemma {:induction false} ThreeReplacementsAreOnePass(s: string)
    ensures EscapeLikePattern(s) == OnePass(s)
  {
    if s != "" {
      var head, tail := [s[0]], s[1..];
      assert s == head + tail;
      ReplaceAllAppends(head, tail, ESC, "||");
      var head1, tail1 := ReplaceAll(head, ESC, "||"), ReplaceAll(tail, ESC, "||");
      ReplaceAllAppends(head1, tail1, '%', "|%");
      ReplaceAllAppends(ReplaceAll(head1, '%', "|%"), ReplaceAll(tail1, '%', "|%"), '_', "|_");
      EscapeOne(s[0]);
      ThreeReplacementsAreOnePass(tail);
      assert OnePass(head) + OnePass(tail) == OnePass(s) by { assert head[1..] == ""; }
    }
  }

  // --------------------------------------------------------------------
  // LIKE (section 8.5 of SQL-92), case-sensitive, with ESCAPE '|'
  // --------------------------------------------------------------------

  /** Section 8.5 makes an escape character before anything but %, _ or itself an
      error; databases then take the next character literally, as here. */
  predicate Matches(t: string, p: string)
    decreases |p|, |t|
  {
    if p == "" then t == ""
    else if p[0] == ESC && |p| > 1 then t != "" && t[0] == p[1] && Matches(t[1..], p[2..])
    else if p[0] == '%' then Matches(t, p[1..]) || (t != "" && Matches(t[1..], p))
    else if p[0] == '_' then t != "" && Matches(t[1..], p[1..])
    else t != "" && t[0] == p[0] && Matches(t[1..], p[1..])
  }

  // Every escape character of the pattern stands before %, _ or itself.
  predicate ValidPattern(p: string) {
    if p == "" then true
    else if p[0] == ESC then |p| > 1 && Special(p[1]) && ValidPattern(p[2..])
    else ValidPattern(p[1..])
  }

  ghost predicate Contains(t: string, s: string) {
    exists k :: 0 <= k <= |t| && s <= t[k..]
  }

  lemma {:induction false} PercentMatchesSuffixes(t: string, p: string)
    ensures Matches(t, "%" + p) <==> exists k :: 0 <= k <= |t| && Matches(t[k..], p)
    decreases |t|
  {
    assert ("%" + p)[1..] == p && t[0..] == t;
    if t != "" {
      PercentMatchesSuffixes(t[1..], p);
      if k :| 0 <= k <= |t| && Matches(t[k..], p) {
        if k > 0 { assert t[1..][k - 1..] == t[k..]; }
      }
      if k :| 0 <= k <= |t[1..]| && Matches(t[1..][k..], p) {
        assert t[1..][k..] == t[k + 1..];
      }
    }
  }

  /** An underscore stands for any one character, and an escaped character for itself. */
  lemma OneCharacterWildcard(t: string, c: char, p: string)
    ensures Matches(t, "_" + p) <==> t != "" && Matches(t[1..], p)
    ensures Matches(t, [ESC, c] + p) <==> t != "" && t[0] == c && Matches(t[1..], p)
  {
    assert ("_" + p)[1..] == p && ([ESC, c] + p)[2..] == p;
  }

  lemma OnePassOfOne(s: string)
    requires s != ""
    ensures OnePass([s[0]]) == if Special(s[0]) then [ESC, s[0]] else [s[0]]
    ensures OnePass(s) == OnePass([s[0]]) + OnePass(s[1..])
  {
    assert OnePass([s[0]][1..]) == "";
  }

  lemma OneCharIsLiteral(t: string, c: char, tail: string)
    ensures Matches(t, OnePass([c]) + tail) <==> t != "" && t[0] == c && Matches(t[1..], tail)
  {
    OnePassOfOne([c]);
    var p := OnePass([c]) + tail;
    if Special(c) { assert p[0] == ESC && p[1] == c && p[2..] == tail; } else { assert p[0] == c && p[1..] == tail; }
  }

  lemma PrefixPeels(t: string, s: string)
    requires t != "" && s != "" && t[0] == s[0]
    ensures s <= t <==> s[1..] <= t[1..]
    ensures s <= t ==> t[1..][|s| - 1..] == t[|s|..]
  {
    assert t == [t[0]] + t[1..] && s == [s[0]] + s[1..];
  }

  lemma {:induction false} EscapedTextIsLiteral(t: string, s: string, rest: string)
    ensures Matches(t, OnePass(s) + rest) <==> s <= t && Matches(t[|s|..], rest)
    decreases |s|
  {
    if s == "" {
      assert OnePass(s) + rest == rest && t[0..] == t;
    } else {
      var head, tail := OnePass([s[0]]), OnePass(s[1..]);
      assert OnePass(s) == head + tail by { OnePassOfOne(s); }
      Associates(head, tail, rest);
      OneCharIsLiteral(t, s[0], tail + rest);
      if t != "" && t[0] == s[0] {
        EscapedTextIsLiteral(t[1..], s[1..], rest);
        PrefixPeels(t, s);
      }
    }
  }

  lemma AnythingMatchesPercent(t: string)
    ensures Matches(t, "%")
  {
    PercentMatchesSuffixes(t, "");
    assert "%" + "" == "%" && t[|t|..] == "";
  }

  /** The search pattern finds exactly the texts that contain the search text. */
  lemma SearchFindsSubstrings(t: string, s: string)
    ensures Matches(t, "%" + EscapeLikePattern(s) + "%") <==> Contains(t, s)
  {
    ThreeReplacementsAreOnePass(s);
    var p := OnePass(s) + "%";
    assert "%" + OnePass(s) + "%" == "%" + p;
    PercentMatchesSuffixes(t, p);
    forall k | 0 <= k <= |t| ensures Matches(t[k..], p) <==> s <= t[k..] {
      EscapedTextIsLiteral(t[k..], s, "%");
      if s <= t[k..] { AnythingMatchesPercent(t[k..][|s|..]); }
    }
  }

  lemma OneCharIsValid(c: char, tail: string)
    ensures ValidPattern(OnePass([c]) + tail) <==> ValidPattern(tail)
  {
    OnePassOfOne([c]);
    var p := OnePass([c]) + tail;
    if Special(c) { assert p[0] == ESC && p[1] == c && p[2..] == tail; } else { assert p[0] == c && p[1..] == tail; }
  }

  lemma {:induction false} EscapedPatternIsValid(s: string, rest: string)
    requires ValidPattern(rest)
    ensures ValidPattern(OnePass(s) + rest)
  {
    if s == "" {
      assert OnePass(s) + rest == rest;
    } else {
      var head, tail := OnePass([s[0]]), OnePass(s[1..]);
      EscapedPatternIsValid(s[1..], rest);
      OneCharIsValid(s[0], tail + rest);
      assert OnePass(s) == head + tail by { OnePassOfOne(s); }
      Associates(head, tail, rest);
    }
  }

  function Unescape(p: string): string {
    if p == "" then ""
    else if p[0] == ESC && |p| > 1 then [p[1]] + Unescape(p[2..])
    else [p[0]] + Unescape(p[1..])
  }

  lemma {:induction false} UnescapeUndoesOnePass(s: string)
    ensures Unescape(OnePass(s)) == s
  {
    if s != "" {
      UnescapeUndoesOnePass(s[1..]);
      if Special(s[0]) {
        assert OnePass(s)[2..] == OnePass(s[1..]);
      } else {
        assert OnePass(s)[1..] == OnePass(s[1..]);
      }
    }
  }

  /** Wherever it comes after escaped text, an escape character that does not stand before %, _ or
      itself makes a pattern invalid, and one that does leaves the rest to decide. */
  lemma {:induction false} BrokenEscapeIsInvalid(s: string, c: char, rest: string)
    ensures !ValidPattern(OnePass(s) + [ESC])
    ensures ValidPattern(OnePass(s) + [ESC, c] + rest) <==> (c == '%' || c == '_' || c == '|') && ValidPattern(rest)
  {
    if s == "" {
      assert OnePass(s) + [ESC] == [ESC] && OnePass(s) + [ESC, c] + rest == [ESC, c] + rest;
      assert ([ESC, c] + rest)[2..] == rest;
    } else {
      OnePassOfOne(s);
      BrokenEscapeIsInvalid(s[1..], c, rest);
      OneCharIsValid(s[0], OnePass(s[1..]) + [ESC]);
      OneCharIsValid(s[0], OnePass(s[1..]) + [ESC, c] + rest);
      assert OnePass(s) + [ESC] == OnePass([s[0]]) + (OnePass(s[1..]) + [ESC]);
      assert OnePass(s) + [ESC, c] + rest == OnePass([s[0]]) + (OnePass(s[1..]) + [ESC, c] + rest);
    }
  }

  /** The pattern sent to the database is valid, and unescaping gives back the text. */
  lemma EscapeRoundTrip(s: string)
    ensures ValidPattern("%" + EscapeLikePattern(s) + "%") && Unescape(EscapeLikePattern(s)) == s
  {
    ThreeReplacementsAreOnePass(s);
    UnescapeUndoesOnePass(s);
    assert "%"[1..] == "";
    EscapedPatternIsValid(s, "%");
    assert ("%" + OnePass(s) + "%")[1..] == OnePass(s) + "%";
  }

  // --------------------------------------------------------------------
  // Why escaping is needed
  // --------------------------------------------------------------------

  // A text matched by s used as a pattern and followed by the closing %.
  function Imitation(s: string): string {
    if s == "" then ""
    else if s[0] == ESC then if |s| > 1 then [s[1]] + Imitation(s[2..]) else "%"
    else if s[0] == '%' then Imitation(s[1..])
    else if s[0] == '_' then "x" + Imitation(s[1..])
    else [s[0]] + Imitation(s[1..])
  }

  ghost predicate Plain(s: string) {
    forall i :: 0 <= i < |s| ==> !Special(s[i])
  }

  lemma {:induction false} ImitationMatches(s: string)
    ensures Matches(Imitation(s), s + "%")
    decreases |s|
  {
    if s == "" {
      assert s + "%" == "%";
      AnythingMatchesPercent("");
    } else {
      var p, m := s + "%", Imitation(s);
      if s[0] == ESC && |s| > 1 {
        ImitationMatches(s[2..]);
        assert p[2..] == s[2..] + "%" && m[1..] == Imitation(s[2..]);
      } else if s[0] == ESC {
        assert p == "|%" && m == "%" && p[2..] == "" && m[1..] == "";
      } else {
        ImitationMatches(s[1..]);
        assert p[1..] == s[1..] + "%";
        assert s[0] != '%' ==> m[1..] == Imitation(s[1..]);
      }
    }
  }

  lemma {:induction false} ImitationDiffers(s: string)
    ensures |Imitation(s)| <= |s| && (Imitation(s) == s <==> Plain(s))
    decreases |s|
  {
    if s != "" {
      assert s == [s[0]] + s[1..];
      if s[0] == ESC && |s| > 1 { ImitationDiffers(s[2..]); } else if s[0] != ESC { ImitationDiffers(s[1..]); }
      if !Special(s[0]) {
        assert Plain(s) <==> Plain(s[1..]);
        assert Imitation(s)[1..] == Imitation(s[1..]);
      } else if s[0] == '_' {
        assert Imitation(s)[0] == 'x';
      }
    }
  }

  lemma {:induction false} PlainIsItsOwnEscape(s: string)
    requires Plain(s)
    ensures OnePass(s) == s
  {
    if s != "" {
      PlainIsItsOwnEscape(s[1..]);
      assert s == [s[0]] + s[1..];
    }
  }

  ghost predicate FindsSubstrings(p: string, s: string) {
    forall t :: Matches(t, p) <==> Contains(t, s)
  }

  /** Without escaping the search is right exactly for texts without |, % and _. */
  lemma UnescapedSearchIsRightIff(s: string)
    ensures FindsSubstrings("%" + s + "%", s) <==> Plain(s)
  {
    if Plain(s) {
      PlainIsItsOwnEscape(s);
      ThreeReplacementsAreOnePass(s);
      forall t ensures Matches(t, "%" + s + "%") <==> Contains(t, s) { SearchFindsSubstrings(t, s); }
    } else {
      var t := Imitation(s);
      ImitationMatches(s);
      ImitationDiffers(s);
      assert "%" + s + "%" == "%" + (s + "%") && t[0..] == t;
      PercentMatchesSuffixes(t, s + "%");
      forall k | 0 <= k <= |t| ensures !(s <= t[k..]) {
        assert k > 0 ==> |t[k..]| < |s|;
      }
    }
  }
}
