/**
  Filter boxes search with ILIKE. containsPattern escapes the user's text so
  that its percent signs, underscores and backslashes match themselves.
*/
module LikePattern {
  const ESCAPE := '\\'
  const ANY_STRING := '%'
  const ANY_CHARACTER := '_'

  predicate IsSpecial(c: char) {
    c == ESCAPE || c == ANY_STRING || c == ANY_CHARACTER
  }

  // Each special character gets a backslash in front of it.
  function EscapeText(value: string): string {
    if value == "" then ""
    else (if IsSpecial(value[0]) then [ESCAPE, value[0]] else [value[0]]) + EscapeText(value[1..])
  }

  function ContainsPattern(value: string): string {
    [ANY_STRING] + EscapeText(value) + [ANY_STRING]
  }

  // A pattern may not end in a lone escape character; the database refuses it.
  predicate WellFormed(pattern: string) {
    if pattern == "" then true
    else if pattern[0] == '\\' then |pattern| >= 2 && WellFormed(pattern[2..])
    else WellFormed(pattern[1..])
  }

  // LIKE with backslash as escape character, PostgreSQL manual section 9.7.1. `fold` maps a character to
  // the one it is compared as: the identity for LIKE, a case folding for ILIKE.
  predicate Matches(pattern: string, s: string, fold: char -> char)
    requires WellFormed(pattern)
    decreases |pattern| + |s|
  {
    if pattern == "" then s == ""
    else if pattern[0] == '%' then
      Matches(pattern[1..], s, fold) || (s != "" && Matches(pattern, s[1..], fold))
    else if s == "" then false
    else if pattern[0] == '_' then Matches(pattern[1..], s[1..], fold)
    else if pattern[0] == '\\' then fold(pattern[1]) == fold(s[0]) && Matches(pattern[2..], s[1..], fold)
    else fold(pattern[0]) == fold(s[0]) && Matches(pattern[1..], s[1..], fold)
  }

  predicate SameText(a: string, b: string, fold: char -> char) {
    |a| == |b| && forall i :: 0 <= i < |a| ==> fold(a[i]) == fold(b[i])
  }

  predicate OccursAt(value: string, s: string, k: int, fold: char -> char) {
    0 <= k <= |s| - |value| && SameText(value, s[k..k + |value|], fold)
  }

  // `value` occurs in `s` as one contiguous piece, up to folding.
  ghost predicate Occurs(value: string, s: string, fold: char -> char) {
    exists k :: OccursAt(value, s, k, fold)
  }

  lemma {:induction false} EscapedIsWellFormed(value: string, rest: string)
    requires WellFormed(rest)
    ensures WellFormed(EscapeText(value) + rest)
  {
    if value == "" {
      assert EscapeText(value) + rest == rest;
    } else {
      EscapedIsWellFormed(value[1..], rest);
      var tail := EscapeText(value[1..]) + rest;
      if IsSpecial(value[0]) {
        assert EscapeText(value) + rest == [ESCAPE, value[0]] + tail;
      } else {
        assert EscapeText(value) + rest == [value[0]] + tail;
      }
    }
  }

  lemma ContainsPatternIsWellFormed(value: string)
    ensures WellFormed(ContainsPattern(value))
  {
    EscapedIsWellFormed(value, [ANY_STRING]);
    assert ContainsPattern(value) == [ANY_STRING] + (EscapeText(value) + [ANY_STRING]);
  }

  // A lone percent sign matches everything.
  lemma {:induction false} AnyStringMatchesAll(s: string, fold: char -> char)
    ensures Matches([ANY_STRING], s, fold)
  {
    if s != "" {
      AnyStringMatchesAll(s[1..], fold);
    }
  }

  // Escaped text followed by a percent sign matches exactly the strings that begin with the text.
  lemma {:induction false} EscapedMatchesPrefix(value: string, s: string, fold: char -> char)
    ensures WellFormed(EscapeText(value) + [ANY_STRING])
    ensures Matches(EscapeText(value) + [ANY_STRING], s, fold) <==>
            |value| <= |s| && SameText(value, s[..|value|], fold)
  {
    EscapedIsWellFormed(value, [ANY_STRING]);
    var pattern := EscapeText(value) + [ANY_STRING];
    if value == "" {
      assert pattern == [ANY_STRING];
      AnyStringMatchesAll(s, fold);
    } else {
      var tail := EscapeText(value[1..]) + [ANY_STRING];
      if IsSpecial(value[0]) {
        assert pattern == [ESCAPE, value[0]] + tail;
        assert pattern[2..] == tail;
      } else {
        assert pattern == [value[0]] + tail;
        assert pattern[1..] == tail;
      }
      if s != "" {
        EscapedMatchesPrefix(value[1..], s[1..], fold);
        if |value| <= |s| {
          assert s[..|value|] == [s[0]] + s[1..][..|value| - 1];
          assert value == [value[0]] + value[1..];
        }
      }
    }
  }

  // A percent sign in front lets the rest match at any later position.
  lemma {:induction false} AnyStringSkips(pattern: string, s: string, fold: char -> char)
    requires WellFormed(pattern)
    ensures Matches([ANY_STRING] + pattern, s, fold) <==> exists k :: 0 <= k <= |s| && Matches(pattern, s[k..], fold)
  {
    var whole := [ANY_STRING] + pattern;
    assert whole[1..] == pattern;
    assert s[0..] == s;
    if s != "" {
      AnyStringSkips(pattern, s[1..], fold);
      assert forall k :: 1 <= k <= |s| ==> s[k..] == s[1..][k - 1..];
      if k :| 0 <= k <= |s[1..]| && Matches(pattern, s[1..][k..], fold) {
        assert Matches(pattern, s[k + 1..], fold);
      }
    }
  }

  // The pattern keeps the meaning of "contains": for every text, special characters included, it matches
  // exactly the strings in which the text occurs.
  lemma ContainsPatternMeansContains(value: string, s: string, fold: char -> char)
    ensures WellFormed(ContainsPattern(value))
    ensures Matches(ContainsPattern(value), s, fold) <==> Occurs(value, s, fold)
  {
    ContainsPatternIsWellFormed(value);
    var pattern := EscapeText(value) + [ANY_STRING];
    EscapedIsWellFormed(value, [ANY_STRING]);
    assert ContainsPattern(value) == [ANY_STRING] + pattern;
    AnyStringSkips(pattern, s, fold);
    forall k | 0 <= k <= |s|
      ensures Matches(pattern, s[k..], fold) <==> OccursAt(value, s, k, fold)
    {
      EscapedMatchesPrefix(value, s[k..], fold);
      if k + |value| <= |s| {
        assert s[k..][..|value|] == s[k..k + |value|];
      }
    }
  }

  // Two different texts never get the same pattern.
  lemma {:induction false} EscapeIsInjective(a: string, b: string)
    requires EscapeText(a) == EscapeText(b)
    ensures a == b
  {
    if a == "" || b == "" {
    } else {
      var x, y := EscapeText(a), EscapeText(b);
      assert x[0] == y[0];
      assert IsSpecial(a[0]) <==> x[0] == ESCAPE;
      assert IsSpecial(b[0]) <==> y[0] == ESCAPE;
      assert IsSpecial(a[0]) ==> x[1] == a[0] && y[1] == b[0];
      assert a[0] == b[0];
      var n := if IsSpecial(a[0]) then 2 else 1;
      assert x[n..] == EscapeText(a[1..]) && y[n..] == EscapeText(b[1..]);
      EscapeIsInjective(a[1..], b[1..]);
      assert a == [a[0]] + a[1..] && b == [b[0]] + b[1..];
    }
  }

  // What escaping is for: as they are, an underscore matches any one character and a percent sign anything.
  lemma BareWildcardsMatchAnything(c: char, s: string, fold: char -> char)
    ensures Matches("_", [c], fold) && !Matches("_", "", fold) && Matches("%", s, fold)
    ensures Matches(EscapeText("_"), [c], fold) <==> fold(c) == fold('_')
    ensures Matches(EscapeText("%"), [c], fold) <==> fold(c) == fold('%')
  {
    AnyStringMatchesAll(s, fold);
    assert "_"[1..] == "" && [c][1..] == "";
    assert EscapeText("_") == "\\_" && EscapeText("%") == "\\%";
    assert "\\_"[2..] == "" && "\\%"[2..] == "";
  }
}
