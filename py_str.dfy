/** The parts of Python's `str` and `re` behaviour that the step parser relies on:
    the whitespace class, `str.splitlines`, `str.strip`, `str.lower` on ASCII
    letters and `int()` of a run of ASCII digits. */
module PyStr {
  import opened Seqs

  /** The characters for which `str.isspace()` holds: the set `str.strip()`
      removes and `\s` matches in a `str` pattern. */
  predicate IsSpace(c: char) {
    '\t' <= c <= '\r' || '\U{1C}' <= c <= ' ' || c == '\U{85}' || c == '\U{A0}'
    || c == '\U{1680}' || '\U{2000}' <= c <= '\U{200A}' || c == '\U{2028}'
    || c == '\U{2029}' || c == '\U{202F}' || c == '\U{205F}' || c == '\U{3000}'
  }

  /** The line boundaries of `str.splitlines()` (`\r\n` is a `\r` and a `\n`). */
  predicate IsLineBreak(c: char) {
    '\n' <= c <= '\r' || '\U{1C}' <= c <= '\U{1E}' || c == '\U{85}'
    || c == '\U{2028}' || c == '\U{2029}'
  }

  predicate InLine(c: char) { !IsLineBreak(c) }

  /** `\d`, restricted to ASCII digits. */
  predicate IsDigit(c: char) { '0' <= c <= '9' }

  /** No line break inside. */
  predicate OneLine(s: string) { forall i :: 0 <= i < |s| ==> InLine(s[i]) }

  predicate AllSpace(s: string) { forall i :: 0 <= i < |s| ==> IsSpace(s[i]) }

  predicate AllDigits(s: string) { forall i :: 0 <= i < |s| ==> IsDigit(s[i]) }

  /** Neither leading nor trailing whitespace: what `str.strip()` returns. */
  predicate Stripped(s: string) {
    s == [] || (!IsSpace(s[0]) && !IsSpace(s[|s| - 1]))
  }

  /** The end of the run of characters satisfying `p` that starts at `i`:
      where a greedy `[...]*` starting at `i` stops. */
  function RunEnd(s: string, i: nat, p: char -> bool): (j: nat)
    requires i <= |s|
    ensures i <= j <= |s|
    ensures forall k :: i <= k < j ==> p(s[k])
    ensures j < |s| ==> !p(s[j])
    decreases |s| - i
  {
    if i == |s| || !p(s[i]) then i else RunEnd(s, i + 1, p)
  }

  /** Length of the longest suffix of `s` whose characters satisfy `p`. */
  function SpanEnd(s: string, p: char -> bool): (n: nat)
    ensures n <= |s|
    ensures forall i :: |s| - n <= i < |s| ==> p(s[i])
    ensures n < |s| ==> !p(s[|s| - 1 - n])
  {
    if s == [] || !p(s[|s| - 1]) then 0 else 1 + SpanEnd(s[..|s| - 1], p)
  }

  /** `s.strip()`: `s` without its leading and trailing whitespace runs. */
  function Strip(s: string): (r: string)
    ensures Stripped(r)
    ensures r == [] <==> AllSpace(s)
    ensures var a := RunEnd(s, 0, IsSpace);
      a + |r| <= |s| && r == s[a..a + |r|] && AllSpace(s[..a]) && AllSpace(s[a + |r|..])
  {
    var a := RunEnd(s, 0, IsSpace);
    var t := s[a..];
    var r := t[..|t| - SpanEnd(t, IsSpace)];
    assert r != [] ==> r[0] == s[a];
    r
  }

  /** A string with no surrounding whitespace is its own `strip()`. */
  lemma StripStripped(s: string)
    requires Stripped(s)
    ensures Strip(s) == s
  {
    if s != [] {
      assert !AllSpace(s);
      assert RunEnd(s, 0, IsSpace) == 0;
    }
  }

  /** `strip()` is idempotent. */
  lemma StripIdempotent(s: string)
    ensures Strip(Strip(s)) == Strip(s)
  {
    StripStripped(Strip(s));
  }

  /** A greedy scan from `i` stops exactly at the end of a run of matching characters. */
  lemma {:induction false} RunOfRun(s: string, i: nat, j: nat, p: char -> bool)
    requires i <= j <= |s|
    requires forall k :: i <= k < j ==> p(s[k])
    requires j == |s| || !p(s[j])
    ensures RunEnd(s, i, p) == j
    decreases j - i
  {
    if i < j {
      RunOfRun(s, i + 1, j, p);
    }
  }

  /** `str.lower()` on one character, for ASCII letters. */
  function LowerChar(c: char): (l: char)
    ensures 'A' <= c <= 'Z' ==> 'a' <= l <= 'z' && l as int - c as int == 32
    ensures !('A' <= c <= 'Z') ==> l == c
  {
    if 'A' <= c <= 'Z' then (c as int + 32) as char else c
  }

  function Lower(s: string): (r: string)
    ensures |r| == |s|
    ensures forall i :: 0 <= i < |s| ==> r[i] == LowerChar(s[i])
  {
    seq(|s|, i requires 0 <= i < |s| => LowerChar(s[i]))
  }

  /** `int(ds)` for a run of ASCII digits. */
  function DecimalValue(ds: string): (n: nat)
    requires AllDigits(ds)
    ensures n == 0 <==> forall i :: 0 <= i < |ds| ==> ds[i] == '0'
  {
    if ds == [] then 0
    else 10 * DecimalValue(ds[..|ds| - 1]) + (ds[|ds| - 1] as int - '0' as int)
  }

  /** `str(n)`: the shortest decimal rendering of `n`. */
  function Decimal(n: nat): (ds: string)
    ensures AllDigits(ds) && ds != []
    ensures |ds| > 1 ==> ds[0] != '0'
  {
    if n < 10 then [('0' as int + n) as char]
    else Decimal(n / 10) + [('0' as int + n % 10) as char]
  }

  /** `int(str(n)) == n`: the number captured from a rendered numeral is the number. */
  lemma {:induction false} DecimalRoundTrip(n: nat)
    ensures DecimalValue(Decimal(n)) == n
  {
    if n >= 10 {
      DecimalRoundTrip(n / 10);
      var ds := Decimal(n);
      assert ds[..|ds| - 1] == Decimal(n / 10);
    }
  }

  /** Leading zeros do not change the captured number, so `01.` and `1.` tie. */
  lemma {:induction false} DecimalLeadingZero(ds: string)
    requires AllDigits(ds)
    ensures DecimalValue(['0'] + ds) == DecimalValue(ds)
    decreases |ds|
  {
    if ds != [] {
      var zs := ['0'] + ds;
      assert zs[..|zs| - 1] == ['0'] + ds[..|ds| - 1];
      DecimalLeadingZero(ds[..|ds| - 1]);
    }
  }

  /** The pieces of `s` between line-break characters, in order: Python's
      `s.splitlines()` with `\r\n` read as two breaks around an empty piece,
      with a final empty piece after a trailing break, and with `[""]` rather
      than `[]` for the empty string. All extra pieces are blank, and the step
      parser drops blank pieces. */
  function SplitLines(s: string): (pieces: seq<string>)
    ensures pieces != []
    ensures forall i :: 0 <= i < |pieces| ==> OneLine(pieces[i])
  {
    if s == [] then [[]]
    else
      var pieces := SplitLines(s[1..]);
      if IsLineBreak(s[0]) then [[]] + pieces
      else [[s[0]] + pieces[0]] + pieces[1..]
  }

  /** A string without line breaks is a single piece. */
  lemma {:induction false} SplitOneLine(s: string)
    requires OneLine(s)
    ensures SplitLines(s) == [s]
  {
    if s != [] {
      SplitOneLine(s[1..]);
      assert [s[0]] + s[1..] == s;
    }
  }

  /** The pieces, each followed by the next separator: the inverse of `SplitLines`. */
  function JoinLines(pieces: seq<string>, breaks: string): string
    requires |pieces| == |breaks| + 1
  {
    if breaks == [] then pieces[0]
    else pieces[0] + [breaks[0]] + JoinLines(pieces[1..], breaks[1..])
  }

  lemma JoinAfterBreak(c: char, pieces: seq<string>, breaks: string)
    requires |pieces| == |breaks| + 1
    ensures JoinLines([[]] + pieces, [c] + breaks) == [c] + JoinLines(pieces, breaks)
  {
    assert ([[]] + pieces)[1..] == pieces && ([c] + breaks)[1..] == breaks;
  }

  lemma JoinInLine(c: char, pieces: seq<string>, breaks: string)
    requires |pieces| == |breaks| + 1
    ensures JoinLines([[c] + pieces[0]] + pieces[1..], breaks) == [c] + JoinLines(pieces, breaks)
  {
    if breaks != [] {
      assert ([[c] + pieces[0]] + pieces[1..])[1..] == pieces[1..];
    }
  }

  /** A line break in front of a split that round-trips starts a new piece. */
  lemma RoundTripBreak(s: string)
    requires s != [] && IsLineBreak(s[0])
    requires |SplitLines(s[1..])| == |Filter(IsLineBreak, s[1..])| + 1
    requires JoinLines(SplitLines(s[1..]), Filter(IsLineBreak, s[1..])) == s[1..]
    ensures |SplitLines(s)| == |Filter(IsLineBreak, s)| + 1
    ensures JoinLines(SplitLines(s), Filter(IsLineBreak, s)) == s
  {
    var rest, breaks := SplitLines(s[1..]), Filter(IsLineBreak, s[1..]);
    assert SplitLines(s) == [[]] + rest;
    assert Filter(IsLineBreak, s) == [s[0]] + breaks;
    calc {
      JoinLines(SplitLines(s), Filter(IsLineBreak, s));
      JoinLines([[]] + rest, [s[0]] + breaks);
      { JoinAfterBreak(s[0], rest, breaks); }
      [s[0]] + JoinLines(rest, breaks);
      [s[0]] + s[1..];
      s;
    }
  }

  /** Any other character in front of a split that round-trips joins its first piece. */
  lemma RoundTripInLine(s: string)
    requires s != [] && !IsLineBreak(s[0])
    requires |SplitLines(s[1..])| == |Filter(IsLineBreak, s[1..])| + 1
    requires JoinLines(SplitLines(s[1..]), Filter(IsLineBreak, s[1..])) == s[1..]
    ensures |SplitLines(s)| == |Filter(IsLineBreak, s)| + 1
    ensures JoinLines(SplitLines(s), Filter(IsLineBreak, s)) == s
  {
    var rest, breaks := SplitLines(s[1..]), Filter(IsLineBreak, s[1..]);
    assert SplitLines(s) == [[s[0]] + rest[0]] + rest[1..];
    assert Filter(IsLineBreak, s) == breaks;
    calc {
      JoinLines(SplitLines(s), Filter(IsLineBreak, s));
      JoinLines([[s[0]] + rest[0]] + rest[1..], breaks);
      { JoinInLine(s[0], rest, breaks); }
      [s[0]] + JoinLines(rest, breaks);
      [s[0]] + s[1..];
      s;
    }
  }

  /** Splitting loses nothing: putting the line breaks back between the
      pieces gives `s`. */
  lemma {:induction false} SplitLinesRoundTrip(s: string)
    ensures |SplitLines(s)| == |Filter(IsLineBreak, s)| + 1
    ensures JoinLines(SplitLines(s), Filter(IsLineBreak, s)) == s
  {
    if s != [] {
      SplitLinesRoundTrip(s[1..]);
      if IsLineBreak(s[0]) {
        RoundTripBreak(s);
      } else {
        RoundTripInLine(s);
      }
    }
  }

  predicate AllPiecesSpace(pieces: seq<string>) {
    forall i :: 0 <= i < |pieces| ==> AllSpace(pieces[i])
  }

  /** Every line break is whitespace. */
  lemma BreakIsSpace(c: char)
    requires IsLineBreak(c)
    ensures IsSpace(c)
  {
  }

  lemma AllSpaceCons(c: char, t: string)
    ensures AllSpace([c] + t) <==> IsSpace(c) && AllSpace(t)
  {
    var s := [c] + t;
    assert s[0] == c;
    assert forall k :: 0 <= k < |t| ==> s[k + 1] == t[k];
    assert forall k :: 0 < k < |s| ==> s[k] == t[k - 1];
  }

  lemma AllPiecesSpaceCons(p: string, ps: seq<string>)
    ensures AllPiecesSpace([p] + ps) <==> AllSpace(p) && AllPiecesSpace(ps)
  {
    var s := [p] + ps;
    assert s[0] == p;
    assert forall i :: 0 <= i < |ps| ==> s[i + 1] == ps[i];
    assert forall i :: 0 < i < |s| ==> s[i] == ps[i - 1];
  }

  /** All pieces are blank exactly when the whole string is whitespace. */
  lemma {:induction false} SplitLinesBlank(s: string)
    ensures AllPiecesSpace(SplitLines(s)) <==> AllSpace(s)
  {
    if s != [] {
      var pieces := SplitLines(s[1..]);
      SplitLinesBlank(s[1..]);
      assert s == [s[0]] + s[1..];
      AllSpaceCons(s[0], s[1..]);
      if IsLineBreak(s[0]) {
        BreakIsSpace(s[0]);
        AllPiecesSpaceCons([], pieces);
      } else {
        AllPiecesSpaceCons([s[0]] + pieces[0], pieces[1..]);
        AllSpaceCons(s[0], pieces[0]);
        assert pieces == [pieces[0]] + pieces[1..];
        AllPiecesSpaceCons(pieces[0], pieces[1..]);
      }
    }
  }
}
