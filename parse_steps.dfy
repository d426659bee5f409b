/** `_parse_steps` of app/utils/ai_client.py: the three-tier ladder that turns
    the free text of a model reply into instruction strings, trying numbered
    lines, then bullet lines, then every non-blank line. */
module StepParser {
  import opened Wrappers
  import opened Seqs
  import opened PyStr
  import opened StableSort

  /** `[ln.strip() for ln in pieces if ln.strip()]` */
  function NonBlank(pieces: seq<string>): (lines: seq<string>)
    ensures |lines| <= |pieces|
    ensures forall i :: 0 <= i < |lines| ==> lines[i] != [] && Stripped(lines[i])
  {
    if pieces == [] then []
    else
      var line := Strip(pieces[0]);
      (if line != [] then [line] else []) + NonBlank(pieces[1..])
  }

  /** The lines the parser works on: the reply's lines, stripped, blank ones dropped. */
  function Lines(text: string): (lines: seq<string>)
    ensures |lines| <= |SplitLines(text)|
    ensures forall i :: 0 <= i < |lines| ==> lines[i] != [] && Stripped(lines[i])
  {
    NonBlank(SplitLines(text))
  }

  /** Only blank pieces leave no line behind. */
  lemma {:induction false} NonBlankEmpty(pieces: seq<string>)
    ensures NonBlank(pieces) == [] <==> AllPiecesSpace(pieces)
  {
    if pieces != [] {
      NonBlankEmpty(pieces[1..]);
      assert pieces == [pieces[0]] + pieces[1..];
      AllPiecesSpaceCons(pieces[0], pieces[1..]);
    }
  }

  /** A reply has no lines exactly when it is empty or all whitespace. */
  lemma LinesEmpty(text: string)
    ensures Lines(text) == [] <==> AllSpace(text)
  {
    NonBlankEmpty(SplitLines(text));
    SplitLinesBlank(text);
  }

  // ---------------------------------------------------------------------------
  // Numbered lines: re.match(r"^\s*(\d+)[\.\)\-:\s]+(.*)$", ln)

  predicate IsNumberSeparator(c: char) {
    c == '.' || c == ')' || c == '-' || c == ':' || IsSpace(c)
  }

  /** The captured number and the stripped text of a numbered line, or None.
      The digit run is greedy and no separator is a digit, so no shorter run
      can succeed where the longest one fails; a line holds no line break, so
      `(.*)$` takes the rest of it. */
  function MatchNumbered(ln: string): (m: Option<Entry<string>>)
    ensures m.Some? ==> Stripped(m.value.text) && |m.value.text| < |ln|
  {
    var a := RunEnd(ln, 0, IsSpace);
    var d := RunEnd(ln, a, IsDigit);
    var s := RunEnd(ln, d, IsNumberSeparator);
    if d == a || s == d then None
    else
      assert AllDigits(ln[a..d]);
      Some(Entry(DecimalValue(ln[a..d]), Strip(ln[s..])))
  }

  /** `ln` splits at `a < d < s` into leading whitespace, a digit run, a run of
      separators, and a remainder that does not start with a separator: the
      shape the numbered pattern describes. */
  predicate NumberedShape(ln: string, a: nat, d: nat, s: nat) {
    a < d < s <= |ln|
    && (forall k :: 0 <= k < a ==> IsSpace(ln[k]))
    && (forall k :: a <= k < d ==> IsDigit(ln[k]))
    && (forall k :: d <= k < s ==> IsNumberSeparator(ln[k]))
    && (s == |ln| || !IsNumberSeparator(ln[s]))
  }

  /** A line of the numbered shape matches, with the digit run as its number
      and its stripped remainder as its text. */
  lemma NumberedShapeMatches(ln: string, a: nat, d: nat, s: nat)
    requires NumberedShape(ln, a, d, s)
    ensures AllDigits(ln[a..d])
    ensures MatchNumbered(ln) == Some(Entry(DecimalValue(ln[a..d]), Strip(ln[s..])))
  {
    RunOfRun(ln, 0, a, IsSpace);
    RunOfRun(ln, a, d, IsDigit);
    RunOfRun(ln, d, s, IsNumberSeparator);
  }

  /** The three scans of a matching line cut it into the numbered shape. */
  lemma NumberedScansHaveShape(ln: string)
    requires MatchNumbered(ln).Some?
    ensures var a := RunEnd(ln, 0, IsSpace);
      var d := RunEnd(ln, a, IsDigit);
      NumberedShape(ln, a, d, RunEnd(ln, d, IsNumberSeparator))
  {
  }

  /** Every match comes from a line of the numbered shape. */
  lemma NumberedMatchHasShape(ln: string)
    requires MatchNumbered(ln).Some?
    ensures exists a: nat, d: nat, s: nat :: (NumberedShape(ln, a, d, s) && AllDigits(ln[a..d])
      && MatchNumbered(ln).value == Entry(DecimalValue(ln[a..d]), Strip(ln[s..])))
  {
    var a := RunEnd(ln, 0, IsSpace);
    var d := RunEnd(ln, a, IsDigit);
    var s := RunEnd(ln, d, IsNumberSeparator);
    NumberedScansHaveShape(ln);
    NumberedShapeMatches(ln, a, d, s);
  }

  /** `[(int(m.group(1)), m.group(2).strip()) for each numbered line]`, in line order. */
  function NumberedEntries(lines: seq<string>): (entries: seq<Entry<string>>)
    ensures |entries| <= |lines|
    ensures forall i :: 0 <= i < |entries| ==> Stripped(entries[i].text)
  {
    if lines == [] then []
    else
      NumberedEntries(lines[..|lines| - 1])
      + match MatchNumbered(lines[|lines| - 1]) case Some(e) => [e] case None => []
  }

  function Texts(entries: seq<Entry<string>>): (texts: seq<string>)
    ensures |texts| == |entries|
    ensures forall i :: 0 <= i < |entries| ==> texts[i] == entries[i].text
  {
    seq(|entries|, i requires 0 <= i < |entries| => entries[i].text)
  }

  /** `s and not s.lower().startswith(("continued", "cont."))` */
  predicate Keep(step: string)
    ensures Keep(step) ==> step != []
    ensures "continued" <= step || "Continued" <= step || "CONTINUED" <= step ==> !Keep(step)
    ensures "cont." <= step || "Cont." <= step || "CONT." <= step ==> !Keep(step)
  {
    step != [] && !("continued" <= Lower(step)) && !("cont." <= Lower(step))
  }

  /** The filter ignores case: a step is kept exactly when its lower-cased
      form is. */
  lemma KeepIgnoresCase(step: string)
    ensures Keep(step) <==> Keep(Lower(step))
  {
    assert Lower(Lower(step)) == Lower(step);
  }

  /** The filter tests prefixes only: a text that opens with a bracketed
      "(continued)" is kept. */
  lemma ParenContinuedKept(rest: string)
    ensures Keep("(continued)" + rest)
  {
    var s := "(continued)" + rest;
    assert Lower(s)[0] == '(';
  }

  predicate KeepsText(e: Entry<string>) { Keep(e.text) }

  // ---------------------------------------------------------------------------
  // Bullet lines: re.match(r"^\s*([\-•\*])\s+(.*)$", ln)

  predicate IsBulletMark(c: char) { c == '-' || c == '\U{2022}' || c == '*' }

  /** The stripped text of a bullet line, or None. */
  function MatchBullet(ln: string): (m: Option<string>)
    ensures m.Some? ==> Stripped(m.value) && |m.value| + 2 <= |ln|
  {
    var a := RunEnd(ln, 0, IsSpace);
    if a == |ln| || !IsBulletMark(ln[a]) then None
    else
      var g := RunEnd(ln, a + 1, IsSpace);
      if g == a + 1 then None else Some(Strip(ln[g..]))
  }

  /** `ln` holds leading whitespace up to `a`, a bullet mark at `a`, and a
      whitespace run from `a + 1` up to `g`, which is neither empty nor
      followed by whitespace: the shape the bullet pattern describes. */
  predicate BulletShape(ln: string, a: nat, g: nat) {
    a + 1 < g <= |ln|
    && (forall k :: 0 <= k < a ==> IsSpace(ln[k]))
    && IsBulletMark(ln[a])
    && (forall k :: a + 1 <= k < g ==> IsSpace(ln[k]))
    && (g == |ln| || !IsSpace(ln[g]))
  }

  /** A line of the bullet shape matches, with its stripped remainder as text. */
  lemma BulletShapeMatches(ln: string, a: nat, g: nat)
    requires BulletShape(ln, a, g)
    ensures MatchBullet(ln) == Some(Strip(ln[g..]))
  {
    RunOfRun(ln, 0, a, IsSpace);
    RunOfRun(ln, a + 1, g, IsSpace);
  }

  /** Every match comes from a line of the bullet shape. */
  lemma BulletMatchHasShape(ln: string)
    requires MatchBullet(ln).Some?
    ensures exists a: nat, g: nat :: BulletShape(ln, a, g) && MatchBullet(ln).value == Strip(ln[g..])
  {
    var a := RunEnd(ln, 0, IsSpace);
    assert a < |ln| && IsBulletMark(ln[a]);
    var g := RunEnd(ln, a + 1, IsSpace);
    assert BulletShape(ln, a, g);
    BulletShapeMatches(ln, a, g);
  }

  /** On a stripped line a bullet never yields empty text: whitespace must
      follow the mark, so something other than whitespace ends the line. */
  lemma BulletTextNonEmpty(ln: string)
    requires ln != [] && Stripped(ln)
    ensures MatchBullet(ln).Some? ==> MatchBullet(ln).value != []
  {
    if MatchBullet(ln).Some? {
      var a := RunEnd(ln, 0, IsSpace);
      var g := RunEnd(ln, a + 1, IsSpace);
      assert IsSpace(ln[g - 1]);
      assert g < |ln|;
      assert ln[g..][0] == ln[g];
    }
  }

  /** `[m.group(2).strip() for each bullet line]`, in line order. */
  function BulletTexts(lines: seq<string>): (texts: seq<string>)
    ensures |texts| <= |lines|
    ensures forall i :: 0 <= i < |texts| ==> Stripped(texts[i])
  {
    if lines == [] then []
    else
      BulletTexts(lines[..|lines| - 1])
      + match MatchBullet(lines[|lines| - 1]) case Some(t) => [t] case None => []
  }

  /** Bullet lines among clean lines give non-empty texts. */
  lemma {:induction false} BulletTextsNonEmpty(lines: seq<string>)
    requires forall i :: 0 <= i < |lines| ==> lines[i] != [] && Stripped(lines[i])
    ensures forall i :: 0 <= i < |BulletTexts(lines)| ==> BulletTexts(lines)[i] != []
  {
    if lines != [] {
      BulletTextsNonEmpty(lines[..|lines| - 1]);
      BulletTextNonEmpty(lines[|lines| - 1]);
    }
  }

  // ---------------------------------------------------------------------------
  // Filtering commutes with the projection and with the sort

  lemma {:induction false} TextsFilter(entries: seq<Entry<string>>)
    ensures Filter(Keep, Texts(entries)) == Texts(Filter(KeepsText, entries))
  {
    if entries != [] {
      TextsFilter(entries[1..]);
      assert Texts(entries)[1..] == Texts(entries[1..]);
    }
  }

  lemma {:induction false} FilterSorted<T(!new)>(p: Entry<T> -> bool, s: seq<Entry<T>>)
    requires SortedByNumber(s)
    ensures SortedByNumber(Filter(p, s))
  {
    if s != [] {
      FilterSorted(p, s[1..]);
      var tail := Filter(p, s[1..]);
      forall j | 0 <= j < |tail| ensures s[0].number <= tail[j].number {
        assert tail[j] in s[1..];
      }
    }
  }

  lemma {:induction false} WithNumberFilter<T(!new)>(p: Entry<T> -> bool, s: seq<Entry<T>>, k: nat)
    ensures WithNumber(Filter(p, s), k) == Filter(p, WithNumber(s, k))
  {
    if s != [] {
      WithNumberFilter(p, s[1..], k);
      var head := if p(s[0]) then [s[0]] else [];
      WithNumberAppend(head, Filter(p, s[1..]), k);
      var same := if s[0].number == k then [s[0]] else [];
      FilterAppend(p, same, WithNumber(s[1..], k));
    }
  }

  /** Dropping entries after a stable sort is sorting the surviving entries. */
  lemma FilterSortCommute<T(!new)>(p: Entry<T> -> bool, s: seq<Entry<T>>)
    ensures Filter(p, SortByNumber(s)) == SortByNumber(Filter(p, s))
  {
    SortByNumberSorted(s);
    FilterSorted(p, SortByNumber(s));
    forall k ensures WithNumber(Filter(p, SortByNumber(s)), k) == WithNumber(Filter(p, s), k) {
      WithNumberFilter(p, SortByNumber(s), k);
      SortByNumberStable(s, k);
      WithNumberFilter(p, s, k);
    }
    IsTheStableSort(Filter(p, s), Filter(p, SortByNumber(s)));
  }

  // ---------------------------------------------------------------------------
  // The ladder

  /** The numbered tier's answer: the entries sorted by number, their texts,
      without the empty and "continued" ones. */
  function NumberedSteps(numbered: seq<Entry<string>>): (steps: seq<string>)
    ensures |steps| <= |numbered|
    ensures forall x :: x in steps ==> Keep(x)
  {
    Filter(Keep, Texts(SortByNumber(numbered)))
  }

  /** Dropping texts after the sort is sorting the surviving entries: the
      numbered tier yields the kept entries' texts in stable order of number. */
  lemma NumberedStepsKept(numbered: seq<Entry<string>>)
    ensures NumberedSteps(numbered) == Texts(SortByNumber(Filter(KeepsText, numbered)))
  {
    FilterSortCommute(KeepsText, numbered);
    TextsFilter(SortByNumber(numbered));
  }

  /** The numbered tier yields at most one step per entry, each of them kept,
      non-empty and free of surrounding whitespace when the texts are. */
  lemma NumberedStepsClean(numbered: seq<Entry<string>>)
    requires forall i :: 0 <= i < |numbered| ==> Stripped(numbered[i].text)
    ensures |NumberedSteps(numbered)| <= |numbered|
    ensures forall i :: 0 <= i < |NumberedSteps(numbered)| ==>
      Keep(NumberedSteps(numbered)[i]) && Stripped(NumberedSteps(numbered)[i])
  {
    var sorted := SortByNumber(numbered);
    var steps := NumberedSteps(numbered);
    SortByNumberPermutes(numbered);
    forall i | 0 <= i < |steps| ensures Keep(steps[i]) && Stripped(steps[i]) {
      assert steps[i] in Texts(sorted);
      var j :| 0 <= j < |sorted| && Texts(sorted)[j] == steps[i];
      assert sorted[j] in multiset(numbered);
    }
  }

  /** What `_parse_steps(text)` returns. */
  function Parse(text: string): (steps: seq<string>)
    ensures |steps| <= |Lines(text)|
    ensures steps == [] <==> Lines(text) == []
  {
    var lines := Lines(text);
    var numbered := NumberedEntries(lines);
    var steps := NumberedSteps(numbered);
    if numbered != [] && steps != [] then steps
    else if BulletTexts(lines) != [] then BulletTexts(lines)
    else lines
  }

  /** Which tier answers: the surviving numbered entries, sorted by number, if
      there are any; else the bullet texts, if there are any; else the lines.
      Dropped entries never reach the numbered tier's answer, but a reply
      whose numbered entries are all dropped falls through to the bullets or
      to the lines, dropped ones included. */
  lemma ParseTiers(text: string)
    ensures var lines := Lines(text);
      var kept := Filter(KeepsText, NumberedEntries(lines));
      var bullets := BulletTexts(lines);
      && (kept != [] ==> Parse(text) == Texts(SortByNumber(kept)))
      && (kept == [] && bullets != [] ==> Parse(text) == bullets)
      && (kept == [] && bullets == [] ==> Parse(text) == lines)
  {
    NumberedStepsKept(NumberedEntries(Lines(text)));
  }

  /** Every step is non-empty and has no surrounding whitespace, and there
      are never more steps than lines. */
  lemma ParseClean(text: string)
    ensures |Parse(text)| <= |Lines(text)|
    ensures forall i :: 0 <= i < |Parse(text)| ==> Parse(text)[i] != [] && Stripped(Parse(text)[i])
  {
    var lines := Lines(text);
    NumberedStepsClean(NumberedEntries(lines));
    BulletTextsNonEmpty(lines);
  }

  /** `_parse_steps` returns no step exactly when the text is empty or all whitespace. */
  lemma ParseEmpty(text: string)
    ensures Parse(text) == [] <==> AllSpace(text)
  {
    LinesEmpty(text);
  }

  /** A clean line without line breaks is the reply's only line. */
  lemma SingleLine(ln: string)
    requires ln != [] && OneLine(ln) && Stripped(ln)
    ensures Lines(ln) == [ln]
  {
    SplitOneLine(ln);
    StripStripped(ln);
    assert NonBlank([ln]) == [ln] + NonBlank([]);
  }

  /** A lone entry that the filter drops leaves the numbered tier empty. */
  lemma LoneEntryDropped(e: Entry<string>)
    requires !KeepsText(e)
    ensures NumberedSteps([e]) == []
  {
    assert SortByNumber([e]) == [e];
    assert Texts([e]) == [e.text];
  }

  /** A numbered line alone gives its one entry. */
  lemma SingleEntry(ln: string)
    requires MatchNumbered(ln).Some?
    ensures NumberedEntries([ln]) == [MatchNumbered(ln).value]
  {
    assert [ln][..0] == [];
  }

  /** A line that opens with a digit is no bullet. */
  lemma DigitLineNoBullet(ln: string)
    requires ln != [] && IsDigit(ln[0])
    ensures BulletTexts([ln]) == []
  {
    assert RunEnd(ln, 0, IsSpace) == 0;
    assert [ln][..0] == [];
  }

  /** A lone numbered line whose entry the filter drops gives no numbered step. */
  lemma LoneDroppedEntry(ln: string, s: nat)
    requires NumberedShape(ln, 0, 1, s)
    requires !Keep(Strip(ln[s..]))
    ensures NumberedSteps(NumberedEntries([ln])) == []
  {
    NumberedShapeMatches(ln, 0, 1, s);
    SingleEntry(ln);
    LoneEntryDropped(MatchNumbered(ln).value);
  }

  /** With no numbered step and no bullet, the lines tier answers. */
  lemma FallThrough(text: string)
    requires NumberedSteps(NumberedEntries(Lines(text))) == []
    requires BulletTexts(Lines(text)) == []
    ensures Parse(text) == Lines(text)
  {
  }

  /** A line of the numbered shape whose entry the filter drops is returned
      whole by the lines tier. */
  lemma LoneDroppedLine(ln: string, s: nat)
    requires NumberedShape(ln, 0, 1, s) && OneLine(ln) && Stripped(ln)
    requires !Keep(Strip(ln[s..]))
    ensures Parse(ln) == [ln]
  {
    SingleLine(ln);
    LoneDroppedEntry(ln, s);
    DigitLineNoBullet(ln);
    FallThrough(ln);
  }

  /** A text the filter drops opens with "c" or "C". */
  lemma DroppedOpensWithC(text: string)
    requires text != [] && !Keep(text)
    ensures text[0] == 'c' || text[0] == 'C'
  {
    assert Lower(text)[0] == 'c';
  }

  /** A digit, a full stop and a space in front of a clean line that opens
      with "c" or "C" form a line of the numbered shape. */
  lemma NumberedLineShape(ln: string, d: char, rest: string)
    requires IsDigit(d) && OneLine(rest) && Stripped(rest)
    requires rest != [] && (rest[0] == 'c' || rest[0] == 'C')
    requires ln == [d, '.', ' '] + rest
    ensures NumberedShape(ln, 0, 1, 3) && OneLine(ln) && Stripped(ln) && ln[3..] == rest
  {
    forall k | 0 <= k < |ln| ensures InLine(ln[k]) {
      if 3 <= k {
        assert ln[k] == rest[k - 3];
      }
    }
  }

  /** A dropped numbered entry is not gone for good: on the one-line reply
      `3.` the entry `(3, "")` is dropped and the line is no bullet, so the
      lines tier returns the line whole, number and all. */
  lemma BareNumberReturned(d: char)
    requires IsDigit(d)
    ensures Parse([d, '.']) == [[d, '.']]
  {
    var ln := [d, '.'];
    assert ln[2..] == [];
    LoneDroppedLine(ln, 2);
  }

  /** Likewise for a one-line reply such as `1. continued from above`, whose
      text the filter drops. */
  lemma DroppedTextReturned(d: char, rest: string)
    requires IsDigit(d) && OneLine(rest) && Stripped(rest)
    requires rest != [] && !Keep(rest)
    ensures Parse([d, '.', ' '] + rest) == [[d, '.', ' '] + rest]
  {
    var ln := [d, '.', ' '] + rest;
    DroppedOpensWithC(rest);
    NumberedLineShape(ln, d, rest);
    StripStripped(rest);
    LoneDroppedLine(ln, 3);
  }

  // ---------------------------------------------------------------------------
  // The imperative version, with the source's loops and in-place sort

  /** The loop at the numbered tier: appends each numbered line's entry. */
  method CollectNumbered(lines: seq<string>) returns (numbered: seq<Entry<string>>)
    ensures numbered == NumberedEntries(lines)
  {
    numbered := [];
    for i := 0 to |lines|
      invariant numbered == NumberedEntries(lines[..i])
    {
      assert lines[..i + 1][..i] == lines[..i];
      match MatchNumbered(lines[i]) {
        case Some(e) => numbered := numbered + [e];
        case None =>
      }
    }
    assert lines[..|lines|] == lines;
  }

  /** The loop at the bullet tier: appends each bullet line's text. */
  method CollectBullets(lines: seq<string>) returns (bullets: seq<string>)
    ensures bullets == BulletTexts(lines)
  {
    bullets := [];
    for i := 0 to |lines|
      invariant bullets == BulletTexts(lines[..i])
    {
      assert lines[..i + 1][..i] == lines[..i];
      match MatchBullet(lines[i]) {
        case Some(t) => bullets := bullets + [t];
        case None =>
      }
    }
    assert lines[..|lines|] == lines;
  }

  /** Sorts the numbered entries in place by number, then keeps the texts
      that are neither empty nor "continued". */
  method SortedSteps(numbered: seq<Entry<string>>) returns (steps: seq<string>)
    ensures steps == NumberedSteps(numbered)
  {
    var a := new Entry<string>[|numbered|](i requires 0 <= i < |numbered| => numbered[i]);
    assert a[..] == numbered;
    SortInPlace(a);
    steps := Filter(Keep, Texts(a[..]));
  }

  /** `_parse_steps`: collects the numbered lines, sorts them in place by
      number, drops empty and "continued" texts; failing that collects the
      bullet lines; failing that returns the lines themselves. */
  method ParseSteps(text: string) returns (steps: seq<string>)
    ensures steps == Parse(text)
  {
    var lines := Lines(text);
    var numbered := CollectNumbered(lines);
    if |numbered| > 0 {
      steps := SortedSteps(numbered);
      if |steps| > 0 {
        return;
      }
    }
    var bullets := CollectBullets(lines);
    if |bullets| > 0 {
      return bullets;
    }
    return lines;
  }
}
