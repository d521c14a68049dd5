/**
 * Text utilities shared by the frontend and backend models: the whitespace
 * classes of JavaScript and Python, trimming, splitting on a separator
 * character, substring search and Python's `str.replace`.
 */
module Text {

  /** Characters matched by `\s` and removed by `String.prototype.trim` in JavaScript
      (the WhiteSpace and LineTerminator productions of ECMAScript). */
  predicate IsJsSpace(c: char) {
    ('\t' <= c <= '\r') || c == ' ' || c == '\U{A0}' || c == '\U{1680}'
    || ('\U{2000}' <= c <= '\U{200A}') || c == '\U{2028}' || c == '\U{2029}'
    || c == '\U{202F}' || c == '\U{205F}' || c == '\U{3000}' || c == '\U{FEFF}'
  }

  /** Characters removed by Python's `str.strip()` called without an argument. */
  predicate IsPySpace(c: char) {
    ('\t' <= c <= '\r') || ('\U{1C}' <= c <= ' ') || c == '\U{85}' || c == '\U{A0}'
    || c == '\U{1680}' || ('\U{2000}' <= c <= '\U{200A}') || c == '\U{2028}'
    || c == '\U{2029}' || c == '\U{202F}' || c == '\U{205F}' || c == '\U{3000}'
  }

  /** Every character of `s` is whitespace in the sense of `ws`. */
  predicate AllSpace(s: string, ws: char -> bool) {
    forall k :: 0 <= k < |s| ==> ws(s[k])
  }

  /** Whitespace followed by whitespace is whitespace. */
  lemma AllSpaceConcat(a: string, b: string, ws: char -> bool)
    requires AllSpace(a, ws) && AllSpace(b, ws)
    ensures AllSpace(a + b, ws)
  {
    forall k | 0 <= k < |a + b| ensures ws((a + b)[k]) {
      if k >= |a| { assert (a + b)[k] == b[k - |a|]; }
    }
  }

  /** `s` without its leading whitespace. */
  function TrimStart(s: string, ws: char -> bool): string {
    if s != [] && ws(s[0]) then TrimStart(s[1..], ws) else s
  }

  /** `s` without its trailing whitespace. */
  function TrimEnd(s: string, ws: char -> bool): string {
    if s != [] && ws(s[|s| - 1]) then TrimEnd(s[..|s| - 1], ws) else s
  }

  /** `s` without leading and trailing whitespace (`str.trim()`, `str.strip()`). */
  function Trim(s: string, ws: char -> bool): string {
    TrimEnd(TrimStart(s, ws), ws)
  }

  /** Trimming the start removes exactly the leading whitespace. */
  lemma {:induction false} TrimStartCuts(s: string, ws: char -> bool)
    ensures var r := TrimStart(s, ws);
      && |r| <= |s| && r == s[|s| - |r|..]
      && AllSpace(s[..|s| - |r|], ws)
      && (r == [] || !ws(r[0]))
  {
    if s != [] && ws(s[0]) {
      TrimStartCuts(s[1..], ws);
      var r := TrimStart(s, ws);
      var n := |s| - |r|;
      forall k | 0 <= k < n ensures ws(s[..n][k]) {
        if k > 0 { assert s[..n][k] == s[1..][..n - 1][k - 1]; }
      }
    }
  }

  /** Trimming the end removes exactly the trailing whitespace. */
  lemma {:induction false} TrimEndCuts(s: string, ws: char -> bool)
    ensures var r := TrimEnd(s, ws);
      && |r| <= |s| && r == s[..|r|]
      && AllSpace(s[|r|..], ws)
      && (r == [] || !ws(r[|r| - 1]))
  {
    if s != [] && ws(s[|s| - 1]) {
      var s' := s[..|s| - 1];
      TrimEndCuts(s', ws);
      var r := TrimEnd(s, ws);
      forall k | 0 <= k < |s| - |r| ensures ws(s[|r|..][k]) {
        if k < |s'| - |r| { assert s[|r|..][k] == s'[|r|..][k]; }
      }
    }
  }

  /** The ends of a trimmed text are not whitespace, and exactly the all-whitespace
      texts trim to nothing. */
  lemma TrimEnds(s: string, ws: char -> bool)
    ensures var r := Trim(s, ws);
      && (r == [] || (!ws(r[0]) && !ws(r[|r| - 1])))
      && (r == [] <==> AllSpace(s, ws))
  {
    var t := TrimStart(s, ws);
    var r := TrimEnd(t, ws);
    TrimStartCuts(s, ws);
    TrimEndCuts(t, ws);
    var n := |s| - |t|;
    if r != [] {
      assert r[0] == t[0];
    }
    if r == [] {
      AllSpaceConcat(s[..n], t[|r|..], ws);
      assert s == s[..n] + t[|r|..];
    }
  }

  /** JavaScript's `s.split(sep)` for a one-character string separator: the pieces
      between separators, in order; always at least one piece. */
  function Split(s: string, sep: char): (parts: seq<string>)
    ensures |parts| >= 1
    decreases |s|
  {
    if s == [] then [[]] else Push(Split(s[..|s| - 1], sep), s[|s| - 1], sep)
  }

  /** The pieces after one more character: a separator starts a new, empty piece,
      any other character extends the last piece. */
  function Push(parts: seq<string>, c: char, sep: char): (r: seq<string>)
    requires |parts| >= 1
    ensures |r| >= 1
  {
    if c == sep then parts + [[]] else parts[..|parts| - 1] + [parts[|parts| - 1] + [c]]
  }

  /** The pieces joined with `sep` between consecutive pieces (`parts.join(sep)`). */
  function Join(parts: seq<string>, sep: char): string {
    if parts == [] then []
    else if |parts| == 1 then parts[0]
    else Join(parts[..|parts| - 1], sep) + [sep] + parts[|parts| - 1]
  }

  /** No piece of a split contains the separator, and joining the pieces gives back
      the original text. */
  lemma {:induction false} SplitJoin(s: string, sep: char)
    ensures forall i :: 0 <= i < |Split(s, sep)| ==> sep !in Split(s, sep)[i]
    ensures Join(Split(s, sep), sep) == s
    decreases |s|
  {
    if s != [] {
      var init, c := s[..|s| - 1], s[|s| - 1];
      SplitJoin(init, sep);
      PushKeepsPieces(Split(init, sep), c, sep);
      JoinPush(Split(init, sep), c, sep);
      assert s == init + [c];
    }
  }

  /** Pushing a character keeps every piece free of the separator. */
  lemma PushKeepsPieces(r: seq<string>, c: char, sep: char)
    requires |r| >= 1
    requires forall i :: 0 <= i < |r| ==> sep !in r[i]
    ensures forall i :: 0 <= i < |Push(r, c, sep)| ==> sep !in Push(r, c, sep)[i]
  {
    var parts := Push(r, c, sep);
    if c != sep {
      forall i | 0 <= i < |parts| ensures sep !in parts[i] {
        if i < |r| - 1 { assert parts[i] == r[i]; }
      }
    }
  }

  /** Joining the pieces after a push gives the joined pieces plus that character. */
  lemma JoinPush(r: seq<string>, c: char, sep: char)
    requires |r| >= 1
    ensures Join(Push(r, c, sep), sep) == Join(r, sep) + [c]
  {
    var parts := Push(r, c, sep);
    if c == sep {
      assert parts[..|parts| - 1] == r;
    } else {
      assert parts[..|parts| - 1] == r[..|r| - 1];
      if |r| > 1 {
        assert Join(r, sep) == Join(r[..|r| - 1], sep) + [sep] + r[|r| - 1];
      }
    }
  }

  /** Splitting text that holds no separator gives that text as the only piece. */
  lemma {:induction false} SplitNoSeparator(s: string, sep: char)
    requires sep !in s
    ensures Split(s, sep) == [s]
    decreases |s|
  {
    if s != [] {
      assert sep !in s[..|s| - 1];
      SplitNoSeparator(s[..|s| - 1], sep);
      assert s == s[..|s| - 1] + [s[|s| - 1]];
    }
  }

  /** Pushing onto pieces that follow complete pieces leaves the complete pieces alone. */
  lemma PushAppend(a: seq<string>, b: seq<string>, c: char, sep: char)
    requires |b| >= 1
    ensures Push(a + b, c, sep) == a + Push(b, c, sep)
  {
    if c != sep {
      assert (a + b)[..|a + b| - 1] == a + b[..|b| - 1];
    }
  }

  /** Splitting `s + t` splits off every complete piece of `s`; only the last,
      incomplete piece of `s` is affected by `t`. This is what lets a reader split
      text chunk by chunk while carrying the incomplete last piece forward. */
  lemma {:induction false} SplitAppend(s: string, t: string, sep: char)
    ensures var p := Split(s, sep);
      Split(s + t, sep) == p[..|p| - 1] + Split(p[|p| - 1] + t, sep)
    decreases |t|
  {
    var p := Split(s, sep);
    var k := |p| - 1;
    if t == [] {
      SplitLastPiece(s, sep);
      assert s + t == s && p[k] + t == p[k];
      assert p == p[..k] + [p[k]];
    } else {
      var t', c := t[..|t| - 1], t[|t| - 1];
      SplitAppend(s, t', sep);
      AppendLast(s, t);
      SplitSnoc(s + t', c, sep);
      AppendLast(p[k], t);
      SplitSnoc(p[k] + t', c, sep);
      PushAppend(p[..k], Split(p[k] + t', sep), c, sep);
    }
  }

  /** Appending a non-empty text is appending all of it but its last character,
      then that character. */
  lemma AppendLast(u: string, t: string)
    requires t != []
    ensures u + t == (u + t[..|t| - 1]) + [t[|t| - 1]]
  {
    assert t == t[..|t| - 1] + [t[|t| - 1]];
  }

  /** Splitting after one more character pushes that character. */
  lemma SplitSnoc(u: string, c: char, sep: char)
    ensures Split(u + [c], sep) == Push(Split(u, sep), c, sep)
  {
    assert (u + [c])[..|u|] == u;
  }

  /** The last piece of a split holds no separator, so it splits into itself. */
  lemma SplitLastPiece(s: string, sep: char)
    ensures var p := Split(s, sep); Split(p[|p| - 1], sep) == [p[|p| - 1]]
  {
    SplitJoin(s, sep);
    var p := Split(s, sep);
    SplitNoSeparator(p[|p| - 1], sep);
  }

  /** Joining pieces that hold no separator and splitting again gives back the pieces. */
  lemma {:induction false} JoinSplit(parts: seq<string>, sep: char)
    requires |parts| >= 1
    requires forall i :: 0 <= i < |parts| ==> sep !in parts[i]
    ensures Split(Join(parts, sep), sep) == parts
    decreases |parts|
  {
    var last := parts[|parts| - 1];
    SplitNoSeparator(last, sep);
    if |parts| > 1 {
      var init := parts[..|parts| - 1];
      JoinSplit(init, sep);
      JoinSplitStep(init, last, sep);
      assert parts == init + [last];
    }
  }

  /** One more piece, after a separator, splits off as one more piece. */
  lemma JoinSplitStep(init: seq<string>, last: string, sep: char)
    requires |init| >= 1
    requires Split(Join(init, sep), sep) == init && Split(last, sep) == [last]
    ensures Split(Join(init, sep) + [sep] + last, sep) == init + [last]
  {
    var x := Join(init, sep) + [sep];
    assert x[..|x| - 1] == Join(init, sep);
    assert Split(x, sep) == init + [[]];
    SplitAppend(x, last, sep);
    assert [] + last == last;
  }

  /** `p` occurs somewhere in `s` (Python's `p in s`). */
  predicate Contains(s: string, p: string) {
    p <= s || (s != [] && Contains(s[1..], p))
  }

  /** A text that contains `a + b` contains `b`. */
  lemma {:induction false} ContainsTail(s: string, a: string, b: string)
    requires Contains(s, a + b)
    ensures Contains(s, b)
  {
    if a + b <= s {
      ContainsAt(s, |a|, b);
    } else {
      ContainsTail(s[1..], a, b);
    }
  }

  /** An occurrence at position `i` is an occurrence. */
  lemma {:induction false} ContainsAt(s: string, i: nat, p: string)
    requires i <= |s| && p <= s[i..]
    ensures Contains(s, p)
  {
    if i > 0 {
      assert s[1..][i - 1..] == s[i..];
      ContainsAt(s[1..], i - 1, p);
    }
  }

  /** A text contains whatever stands in its middle. */
  lemma ContainsMiddle(a: string, b: string, c: string)
    ensures Contains(a + b + c, b)
  {
    assert (a + b + c)[|a|..] == b + c;
    ContainsAt(a + b + c, |a|, b);
  }

  /** Python's `s.replace(pat, rep)`: every non-overlapping occurrence of `pat`,
      scanning from the left, replaced by `rep`. */
  function ReplaceAll(s: string, pat: string, rep: string): string
    requires |pat| > 0
    decreases |s|
  {
    if s == [] then []
    else if pat <= s then rep + ReplaceAll(s[|pat|..], pat, rep)
    else [s[0]] + ReplaceAll(s[1..], pat, rep)
  }

  /** Replacing a text that does not occur changes nothing. */
  lemma {:induction false} ReplaceAllAbsent(s: string, pat: string, rep: string)
    requires |pat| > 0 && !Contains(s, pat)
    ensures ReplaceAll(s, pat, rep) == s
  {
    if s != [] {
      ReplaceAllAbsent(s[1..], pat, rep);
      assert s == [s[0]] + s[1..];
    }
  }

  /** After replacing a text that occurs, the replacement occurs. */
  lemma {:induction false} ReplaceAllPresent(s: string, pat: string, rep: string)
    requires |pat| > 0 && Contains(s, pat)
    ensures Contains(ReplaceAll(s, pat, rep), rep)
    decreases |s|
  {
    if pat <= s {
      ContainsAt(ReplaceAll(s, pat, rep), 0, rep);
    } else {
      ReplaceAllPresent(s[1..], pat, rep);
      var r := ReplaceAll(s[1..], pat, rep);
      assert ReplaceAll(s, pat, rep)[1..] == r;
    }
  }
}
