/**
  * The string operations the handlers rely on, with Python's meaning:
  * `str.strip()`, `str.split()` (on runs of whitespace), `str.split(sep)`,
  * `str.lower()`, `str.casefold()` and `str.endswith`.
  */
module Text {

  import opened Common

  /** Python's `str.isspace()` for one character (the full set Python uses). */
  predicate IsSpace(c: char) {
    || c == ' ' || ('\t' <= c <= '\r') || ('\U{1c}' <= c <= '\U{1f}')
    || c == '\U{85}' || c == '\U{a0}' || c == '\U{1680}'
    || ('\U{2000}' <= c <= '\U{200a}') || c == '\U{2028}' || c == '\U{2029}'
    || c == '\U{202f}' || c == '\U{205f}' || c == '\U{3000}'
  }

  predicate AllSpace(s: string) {
    forall i | 0 <= i < |s| :: IsSpace(s[i])
  }

  predicate NoSpace(s: string) {
    forall i | 0 <= i < |s| :: !IsSpace(s[i])
  }

  /** Python's `s or '-'` for a text column. */
  function OrDash(s: string): (r: string)
    ensures r != []
    ensures s != [] ==> r == s
  {
    if s == [] then "-" else s
  }

  /** Neither end of `s` is whitespace: what `strip()` leaves behind. */
  predicate Trimmed(s: string) {
    s == [] || (!IsSpace(s[0]) && !IsSpace(s[|s| - 1]))
  }

  /** Number of leading whitespace characters of `s`. */
  function SpaceRun(s: string): (n: nat)
    ensures n <= |s|
    ensures n == |s| || !IsSpace(s[n])
  {
    if s != [] && IsSpace(s[0]) then 1 + SpaceRun(s[1..]) else 0
  }

  /** Length of `s` once its trailing whitespace is removed. */
  function KeptLen(s: string): (n: nat)
    ensures n <= |s|
    ensures n == 0 || !IsSpace(s[n - 1])
  {
    if s != [] && IsSpace(s[|s| - 1]) then KeptLen(s[..|s| - 1]) else |s|
  }

  /** `str.lstrip()`: drops the leading whitespace and nothing else. */
  function TrimLeft(s: string): (r: string)
    ensures r == [] || !IsSpace(r[0])
  {
    s[SpaceRun(s)..]
  }

  /** `str.rstrip()`: drops the trailing whitespace and nothing else. */
  function TrimRight(s: string): (r: string)
    ensures r == [] || !IsSpace(r[|r| - 1])
  {
    s[..KeptLen(s)]
  }

  /** The leading run really is whitespace. */
  lemma {:induction false} SpaceRunIsSpace(s: string)
    ensures AllSpace(s[..SpaceRun(s)])
  {
    if s != [] && IsSpace(s[0]) {
      SpaceRunIsSpace(s[1..]);
      assert s[..SpaceRun(s)] == [s[0]] + s[1..][..SpaceRun(s[1..])];
    }
  }

  /** The dropped tail really is whitespace. */
  lemma {:induction false} KeptLenDropsSpace(s: string)
    ensures AllSpace(s[KeptLen(s)..])
  {
    if s != [] && IsSpace(s[|s| - 1]) {
      var p := s[..|s| - 1];
      KeptLenDropsSpace(p);
      assert s[KeptLen(s)..] == p[KeptLen(p)..] + [s[|s| - 1]];
    }
  }

  /** `lstrip()` empties exactly the all-whitespace strings. */
  lemma TrimLeftEmpty(s: string)
    ensures TrimLeft(s) == [] <==> AllSpace(s)
  {
    SpaceRunIsSpace(s);
    if SpaceRun(s) == |s| {
      assert s[..SpaceRun(s)] == s;
    }
  }

  /** `str.strip()`. */
  function Strip(s: string): (r: string)
    ensures Trimmed(r)
    ensures r == [] <==> AllSpace(s)
  {
    var l := TrimLeft(s);
    var r := TrimRight(l);
    TrimLeftEmpty(s);
    KeptLenDropsSpace(l);
    assert r != [] ==> r[0] == l[0];
    assert l != [] ==> r != [];
    r
  }

  /** `strip()` leaves an already stripped string alone. */
  lemma StripTrimmed(s: string)
    requires Trimmed(s)
    ensures Strip(s) == s
  {
  }

  /** Length of the leading run of non-whitespace characters. */
  function TokenLen(s: string): (k: nat)
    ensures k <= |s|
    ensures k == |s| || IsSpace(s[k])
    ensures s != [] && !IsSpace(s[0]) ==> k > 0
  {
    if s == [] || IsSpace(s[0]) then 0 else 1 + TokenLen(s[1..])
  }

  /** Python's `str.split()` with no separator: the maximal runs of non-whitespace, in order. */
  function SplitWs(s: string): (r: seq<string>)
    ensures forall i | 0 <= i < |r| :: r[i] != []
    ensures r == [] <==> SpaceRun(s) == |s|
    decreases |s|
  {
    var n := SpaceRun(s);
    if n == |s| then []
    else
      var t := s[n..];
      var k := TokenLen(t);
      [t[..k]] + SplitWs(t[k..])
  }

  /** A blank string is exactly one with no tokens: `s.strip() == ""` iff `s.split() == []`. */
  lemma BlankIffNoTokens(s: string)
    ensures Strip(s) == [] <==> SplitWs(s) == []
    ensures SplitWs(s) == [] <==> AllSpace(s)
  {
    TrimLeftEmpty(s);
  }

  lemma {:induction false} SpaceRunAppend(y: string, w: string)
    requires SpaceRun(y) < |y|
    ensures SpaceRun(y + w) == SpaceRun(y)
  {
    if IsSpace(y[0]) {
      assert (y + w)[1..] == y[1..] + w;
      SpaceRunAppend(y[1..], w);
    }
  }

  lemma {:induction false} SpaceRunAppendSpace(y: string, w: string)
    requires SpaceRun(y) == |y| && AllSpace(w)
    ensures SpaceRun(y + w) == |y + w|
  {
    if y == [] {
      TrimLeftEmpty(w);
      assert y + w == w;
    } else {
      assert (y + w)[1..] == y[1..] + w;
      SpaceRunAppendSpace(y[1..], w);
    }
  }

  lemma {:induction false} TokenLenAppend(t: string, w: string)
    requires w == [] || IsSpace(w[0])
    ensures TokenLen(t + w) == TokenLen(t)
  {
    if t != [] && !IsSpace(t[0]) {
      assert (t + w)[1..] == t[1..] + w;
      TokenLenAppend(t[1..], w);
    }
  }

  /** Trailing whitespace never produces a token. */
  lemma {:induction false} SplitWsAppendSpace(y: string, w: string)
    requires AllSpace(w)
    ensures SplitWs(y + w) == SplitWs(y)
    decreases |y|
  {
    var n := SpaceRun(y);
    if n == |y| {
      SpaceRunAppendSpace(y, w);
    } else {
      SpaceRunAppend(y, w);
      var t := y[n..];
      AppendSlices(y, w, n);
      TokenLenAppend(t, w);
      var k := TokenLen(t);
      AppendSlices(t, w, k);
      SplitWsAppendSpace(t[k..], w);
    }
  }

  lemma {:induction false} AppendSlices(t: string, w: string, k: nat)
    requires k <= |t|
    ensures (t + w)[..k] == t[..k] && (t + w)[k..] == t[k..] + w
  {
  }

  /** Leading whitespace never produces a token. */
  lemma {:induction false} SplitWsTrimLeft(s: string)
    ensures SplitWs(TrimLeft(s)) == SplitWs(s)
  {
    var t := TrimLeft(s);
    assert SpaceRun(t) == 0;
  }

  /** Trailing whitespace never produces a token: `s.rstrip().split() == s.split()`. */
  lemma {:induction false} SplitWsTrimRight(l: string)
    ensures SplitWs(TrimRight(l)) == SplitWs(l)
  {
    var k := KeptLen(l);
    KeptLenDropsSpace(l);
    assert l == l[..k] + l[k..];
    SplitWsAppendSpace(l[..k], l[k..]);
  }

  /** `s.strip().split()` and `s.split()` give the same tokens. */
  lemma {:induction false} SplitWsStrip(s: string)
    ensures SplitWs(Strip(s)) == SplitWs(s)
  {
    SplitWsTrimLeft(s);
    SplitWsTrimRight(TrimLeft(s));
  }

  /** `strip()` removes one leading blank from an already stripped string. */
  lemma StripLeadingSpace(x: string)
    requires Trimmed(x)
    ensures Strip(" " + x) == x
  {
    var t := " " + x;
    assert t[1..] == x;
    assert SpaceRun(t) == 1;
    StripTrimmed(x);
  }

  /** A word without whitespace is one token. */
  lemma {:induction false} TokenLenWord(x: string)
    requires NoSpace(x)
    ensures TokenLen(x) == |x|
  {
    if x != [] {
      TokenLenWord(x[1..]);
    }
  }

  /** A word followed by a blank splits off as the first token. */
  lemma {:induction false} SplitWsCons(a: string, rest: string)
    requires a != [] && NoSpace(a)
    ensures SplitWs(a + " " + rest) == [a] + SplitWs(rest)
  {
    var s := a + " " + rest;
    assert s == a + (" " + rest);
    assert SpaceRun(s) == 0 && s[0..] == s;
    TokenLenAppend(a, " " + rest);
    TokenLenWord(a);
    assert s[..|a|] == a && s[|a|..] == " " + rest;
    SplitWsSpaceCons(rest);
  }

  /** A leading blank is skipped. */
  lemma {:induction false} SplitWsSpaceCons(rest: string)
    ensures SplitWs(" " + rest) == SplitWs(rest)
  {
    var u := " " + rest;
    assert u[1..] == rest;
    assert SpaceRun(u) == 1 + SpaceRun(rest);
    assert u[SpaceRun(u)..] == rest[SpaceRun(rest)..];
  }

  lemma {:induction false} SpacedAssoc(a: string, b: string, c: string)
    ensures a + " " + b + " " + c == a + " " + (b + " " + c)
  {
  }

  /** Three words joined by single spaces split back into those three words. */
  lemma {:induction false} SplitThreeWords(a: string, b: string, c: string)
    requires a != [] && NoSpace(a) && b != [] && NoSpace(b) && c != [] && NoSpace(c)
    ensures SplitWs(a + " " + b + " " + c) == [a, b, c]
  {
    SpacedAssoc(a, b, c);
    SplitWsWord(c);
    SplitWsCons(b, c);
    assert SplitWs(b + " " + c) == [b, c];
    SplitWsCons(a, b + " " + c);
    assert [a] + [b, c] == [a, b, c];
  }

  /** A non-empty word without whitespace splits into itself. */
  lemma SplitWsWord(x: string)
    requires x != [] && NoSpace(x)
    ensures SplitWs(x) == [x]
  {
    assert SpaceRun(x) == 0;
    assert x[0..] == x;
    TokenLenWord(x);
    assert x[..|x|] == x;
  }

  /** The first whitespace-separated token, if any (`(s.split() or [None])[0]`). */
  function FirstToken(s: string): (r: Option<string>)
    ensures r.Some? ==> r.value != []
    ensures r.None? <==> AllSpace(s)
  {
    var parts := SplitWs(s);
    BlankIffNoTokens(s);
    if parts == [] then None else Some(parts[0])
  }

  /** Python's `s.split(sep)` for a one-character separator: never empty, no part holds `sep`. */
  function SplitOn(s: string, sep: char): (parts: seq<string>)
    ensures |parts| >= 1
    ensures forall i | 0 <= i < |parts| :: sep !in parts[i]
    decreases |s|
  {
    if s == [] then [""]
    else
      var rest := SplitOn(s[1..], sep);
      if s[0] == sep then [""] + rest else [[s[0]] + rest[0]] + rest[1..]
  }

  /** `s.split(sep)[-1]`: what follows the last separator (all of `s` when there is none). */
  function LastPart(s: string, sep: char): (r: string)
    ensures sep !in r
  {
    var parts := SplitOn(s, sep);
    parts[|parts| - 1]
  }

  lemma {:induction false} SplitOnNoSep(t: string, sep: char)
    requires sep !in t
    ensures SplitOn(t, sep) == [t]
    decreases |t|
  {
    if t != [] {
      SplitOnNoSep(t[1..], sep);
      assert [t[0]] + t[1..] == t;
    }
  }

  /** Splitting at the first separator peels off the text before it. */
  lemma {:induction false} SplitOnFirst(a: string, sep: char, rest: string)
    requires sep !in a
    ensures SplitOn(a + [sep] + rest, sep) == [a] + SplitOn(rest, sep)
    decreases |a|
  {
    var s := a + [sep] + rest;
    if a == [] {
      assert s[1..] == rest;
    } else {
      assert s[1..] == a[1..] + [sep] + rest;
      SplitOnFirst(a[1..], sep, rest);
      assert [a[0]] + a[1..] == a;
    }
  }

  /** Whatever comes before the last separator, `split(sep)[-1]` gives back the text after it. */
  lemma {:induction false} LastPartAfterSep(p: string, sep: char, t: string)
    requires sep !in t
    ensures |SplitOn(p + [sep] + t, sep)| >= 2
    ensures LastPart(p + [sep] + t, sep) == t
    decreases |p|
  {
    var s := p + [sep] + t;
    if p == [] {
      assert s[1..] == t;
      SplitOnNoSep(t, sep);
    } else {
      assert s[1..] == p[1..] + [sep] + t;
      LastPartAfterSep(p[1..], sep, t);
    }
  }

  /** Python's `str.lower()` on ASCII and basic Cyrillic letters; every other character is kept. */
  function LowerChar(c: char): char {
    if 'A' <= c <= 'Z' then ((c as int) + 32) as char
    else if '\U{410}' <= c <= '\U{42f}' then ((c as int) + 32) as char
    else if '\U{400}' <= c <= '\U{40f}' then ((c as int) + 80) as char
    else c
  }

  function Lower(s: string): (r: string)
    ensures |r| == |s|
    ensures forall i | 0 <= i < |s| :: r[i] == LowerChar(s[i])
  {
    seq(|s|, i requires 0 <= i < |s| => LowerChar(s[i]))
  }

  /** `str.casefold()` coincides with `lower()` on the characters modelled here. */
  function CaseFold(s: string): string {
    Lower(s)
  }

  predicate EndsWith(s: string, suffix: string) {
    |suffix| <= |s| && s[|s| - |suffix|..] == suffix
  }

  predicate StartsWith(s: string, prefix: string) {
    |prefix| <= |s| && s[..|prefix|] == prefix
  }
}
