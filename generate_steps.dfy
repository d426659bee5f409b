/** The tail of `generate_steps` in app/utils/ai_client.py: from the text of
    the model's reply to the steps handed back to the caller. An empty reply
    gets six fixed steps; otherwise the reply is parsed, topped up to three
    steps, and every step loses one leading "Step N" label. */
module GenerateSteps {
  import opened PyStr
  import opened StepParser

  /** The fallback steps for an empty reply. */
  const Defaults: seq<string> := [
    "Restart the laptop and observe if the issue persists.",
    "Check the power adapter and battery connection.",
    "Boot into Safe Mode and see if the problem occurs.",
    "Update or reinstall relevant drivers and the operating system.",
    "Back up important data before attempting any resets or repairs.",
    "If the issue continues, consult a certified engineer."
  ]

  /** The steps appended when the parse yields fewer than three. */
  const Supplementary: seq<string> := [
    "Back up important files.",
    "Check for OS and driver updates.",
    "If unresolved, " + "schedule a session with an engineer."
  ]

  // ---------------------------------------------------------------------------
  // Label removal: re.sub(r"^\s*(step\s*\d+[\.\):\-]?\s*)", "", s, flags=re.I).strip()

  /** `step` under `re.I`: each letter matches either case, and `s` also
      matches U+017F LATIN SMALL LETTER LONG S, which folds to it. */
  predicate IsStepWord(w: string) {
    |w| == 4
    && (w[0] == 's' || w[0] == 'S' || w[0] == '\U{17F}')
    && (w[1] == 't' || w[1] == 'T')
    && (w[2] == 'e' || w[2] == 'E')
    && (w[3] == 'p' || w[3] == 'P')
  }

  predicate IsLabelPunct(c: char) { c == '.' || c == ')' || c == ':' || c == '-' }

  /** Where the leading label of `s` ends, or 0 when `s` has none. Every
      quantifier after the digit run is optional, so the greedy match never
      backtracks into it. */
  function LabelEnd(s: string): (e: nat)
    ensures e <= |s|
    ensures e == 0 || 5 <= e
  {
    var a := RunEnd(s, 0, IsSpace);
    if a + 4 > |s| || !IsStepWord(s[a..a + 4]) then 0
    else
      var b := RunEnd(s, a + 4, IsSpace);
      var d := RunEnd(s, b, IsDigit);
      if d == b then 0
      else
        var p := if d < |s| && IsLabelPunct(s[d]) then d + 1 else d;
        RunEnd(s, p, IsSpace)
  }

  /** `s` splits into leading whitespace up to `a`, the word `step`,
      whitespace up to `b`, a digit run up to `d`, at most one punctuation
      mark, and whitespace up to `e`, where the line goes on with something
      else or ends: the shape of a leading label. */
  predicate LabelShape(s: string, a: nat, b: nat, d: nat, e: nat) {
    a + 4 <= b < d <= e <= |s|
    && (forall k :: 0 <= k < a ==> IsSpace(s[k]))
    && IsStepWord(s[a..a + 4])
    && (forall k :: a + 4 <= k < b ==> IsSpace(s[k]))
    && (forall k :: b <= k < d ==> IsDigit(s[k]))
    && (d == |s| || !IsDigit(s[d]))
    && var p := if d < |s| && IsLabelPunct(s[d]) then d + 1 else d;
      p <= e
      && (forall k :: p <= k < e ==> IsSpace(s[k]))
      && (e == |s| || !IsSpace(s[e]))
  }

  /** A string that starts with a label loses exactly that label. */
  lemma LabelShapeMatches(s: string, a: nat, b: nat, d: nat, e: nat)
    requires LabelShape(s, a, b, d, e)
    ensures LabelEnd(s) == e > 0
  {
    RunOfRun(s, 0, a, IsSpace);
    RunOfRun(s, a + 4, b, IsSpace);
    RunOfRun(s, b, d, IsDigit);
    var p := if d < |s| && IsLabelPunct(s[d]) then d + 1 else d;
    RunOfRun(s, p, e, IsSpace);
  }

  /** Whatever is removed is a label. */
  lemma LabelEndHasShape(s: string)
    requires LabelEnd(s) > 0
    ensures exists a: nat, b: nat, d: nat :: LabelShape(s, a, b, d, LabelEnd(s))
  {
    var a := RunEnd(s, 0, IsSpace);
    assert a + 4 <= |s| && IsStepWord(s[a..a + 4]);
    var b := RunEnd(s, a + 4, IsSpace);
    var d := RunEnd(s, b, IsDigit);
    assert b < d;
    var p := if d < |s| && IsLabelPunct(s[d]) then d + 1 else d;
    assert LabelEnd(s) == RunEnd(s, p, IsSpace);
    assert LabelShape(s, a, b, d, LabelEnd(s));
  }

  /** One step, its label removed and the rest stripped. */
  function Normalize(s: string): (r: string)
    ensures Stripped(r)
  {
    Strip(s[LabelEnd(s)..])
  }

  /** A step that starts with a label becomes what follows the label, stripped;
      any other step is only stripped. */
  lemma NormalizeCases(s: string)
    ensures forall a: nat, b: nat, d: nat, e: nat :: LabelShape(s, a, b, d, e) ==> Normalize(s) == Strip(s[e..])
    ensures (forall a: nat, b: nat, d: nat, e: nat :: !LabelShape(s, a, b, d, e)) ==> Normalize(s) == Strip(s)
  {
    forall a: nat, b: nat, d: nat, e: nat | LabelShape(s, a, b, d, e) ensures Normalize(s) == Strip(s[e..]) {
      LabelShapeMatches(s, a, b, d, e);
    }
    if LabelEnd(s) > 0 {
      LabelEndHasShape(s);
    } else {
      assert s[0..] == s;
    }
  }

  /** Normalizing twice changes nothing exactly when no label is left at the
      front after the first pass; a second label makes the second pass
      shorten the step. */
  lemma NormalizeSettles(s: string)
    ensures Normalize(Normalize(s)) == Normalize(s) <==> LabelEnd(Normalize(s)) == 0
  {
    var r := Normalize(s);
    var e := LabelEnd(r);
    if e == 0 {
      assert r[0..] == r;
      StripStripped(r);
    } else {
      assert |Normalize(r)| <= |r[e..]| < |r|;
    }
  }

  function NormalizeAll(steps: seq<string>): (r: seq<string>)
    ensures |r| == |steps|
    ensures forall i :: 0 <= i < |steps| ==> r[i] == Normalize(steps[i])
  {
    seq(|steps|, i requires 0 <= i < |steps| => Normalize(steps[i]))
  }

  // ---------------------------------------------------------------------------
  // The reply's steps

  /** `steps.extend(...)` when fewer than three steps were parsed. */
  function TopUp(steps: seq<string>): (r: seq<string>)
    ensures |r| >= 3 && |r| >= |steps| && r[..|steps|] == steps
    ensures |steps| < 3 ==> r[|steps|..] == Supplementary
    ensures |steps| >= 3 ==> r == steps
  {
    if |steps| < 3 then steps + Supplementary else steps
  }

  /** What `generate_steps` returns for the text of the model's reply. */
  function StepsFor(reply: string): (steps: seq<string>)
    ensures reply == [] ==> steps == Defaults
    ensures reply != [] ==> |steps| >= 3
  {
    if reply == [] then Defaults else NormalizeAll(TopUp(Parse(reply)))
  }

  /** A stripped step that does not start with a letter of `step` is left as it is. */
  lemma UnlabelledUnchanged(s: string)
    requires Stripped(s)
    requires s == [] || !(s[0] in {'s', 'S', '\U{17F}'})
    ensures Normalize(s) == s
  {
    if s != [] {
      assert RunEnd(s, 0, IsSpace) == 0;
    }
    assert LabelEnd(s) == 0;
    assert s[0..] == s;
    StripStripped(s);
  }

  /** Each supplementary step starts and ends with a character that is neither
      whitespace nor a letter of `step`. The step is a parameter rather than
      the constant itself, so that the verifier does not evaluate
      `Normalize` on the literal. */
  lemma SupplementaryStepNormal(s: string, i: nat)
    requires i < |Supplementary| && s == Supplementary[i]
    ensures Normalize(s) == s
  {
    if i == 0 {
      assert |s| == 24 && s[0] == 'B' && s[23] == '.';
    } else if i == 1 {
      assert |s| == 32 && s[0] == 'C' && s[31] == '.';
    } else {
      assert |s| == 51 && s[0] == 'I' && s[50] == '.';
    }
    UnlabelledUnchanged(s);
  }

  lemma NormalizeAllAppend(a: seq<string>, b: seq<string>)
    ensures NormalizeAll(a + b) == NormalizeAll(a) + NormalizeAll(b)
  {
  }

  /** The supplementary steps carry no label and no surrounding whitespace. */
  lemma SupplementaryNormal()
    ensures NormalizeAll(Supplementary) == Supplementary
  {
    forall i | 0 <= i < |Supplementary| ensures Normalize(Supplementary[i]) == Supplementary[i] {
      SupplementaryStepNormal(Supplementary[i], i);
    }
  }

  /** A non-empty reply yields at least three steps: the parsed steps,
      normalized and in order, then the supplementary ones if fewer than three
      were parsed. */
  lemma StepsForReply(reply: string)
    requires reply != []
    ensures var parsed := Parse(reply);
      && |StepsFor(reply)| == (if |parsed| < 3 then |parsed| + 3 else |parsed|)
      && |StepsFor(reply)| >= 3
      && (forall i :: 0 <= i < |parsed| ==> StepsFor(reply)[i] == Normalize(parsed[i]))
      && (|parsed| < 3 ==> StepsFor(reply)[|parsed|..] == Supplementary)
  {
    var parsed := Parse(reply);
    if |parsed| < 3 {
      NormalizeAllAppend(parsed, Supplementary);
      SupplementaryNormal();
    }
  }

  /** A reply of whitespace only parses to nothing and yields the three
      supplementary steps, not the six defaults. */
  lemma WhitespaceReply(reply: string)
    requires reply != [] && AllSpace(reply)
    ensures StepsFor(reply) == Supplementary
  {
    ParseEmpty(reply);
    SupplementaryNormal();
    assert [] + Supplementary == Supplementary;
  }

  /** A reply that parses to itself, as one clean line opening with a digit,
      comes back whole, followed by the supplementary steps. */
  lemma OwnLineReply(ln: string)
    requires ln != [] && Stripped(ln) && IsDigit(ln[0]) && Parse(ln) == [ln]
    ensures StepsFor(ln) == [ln] + Supplementary
  {
    StepsForReply(ln);
    UnlabelledUnchanged(ln);
    assert StepsFor(ln)[0] == ln;
  }

  /** A reply that is a bare number such as `3.` is an entry the filter
      drops; it comes back whole, followed by the supplementary steps. */
  lemma BareNumberReply(d: char)
    requires IsDigit(d)
    ensures StepsFor([d, '.']) == [[d, '.']] + Supplementary
  {
    var ln := [d, '.'];
    BareNumberReturned(d);
    assert Stripped(ln) by {
      assert !IsSpace(d) && !IsSpace('.');
    }
    OwnLineReply(ln);
  }

  /** "step", a space, one digit and a space in front of a remainder that
      starts with neither whitespace nor a digit: the remainder is what is left. */
  lemma ShortLabel(w: string, d: char, rest: string)
    requires IsStepWord(w) && IsDigit(d)
    requires rest != [] && !IsSpace(rest[0]) && !IsDigit(rest[0])
    ensures Normalize(w + [' ', d, ' '] + rest) == Strip(rest)
  {
    var s := w + [' ', d, ' '] + rest;
    assert s[0..4] == w && s[4] == ' ' && s[5] == d && s[6] == ' ' && s[7] == rest[0] && s[7..] == rest;
    LabelShapeMatches(s, 0, 5, 6, 7);
  }

  /** Normalization is not idempotent: a step carrying two labels, such as
      "Step 1 Step 2 x", loses one per pass. */
  lemma NormalizeNotIdempotent(w1: string, d1: char, w2: string, d2: char, x: string)
    requires IsStepWord(w1) && IsDigit(d1) && IsStepWord(w2) && IsDigit(d2)
    requires x != [] && Stripped(x) && !IsDigit(x[0])
    ensures var once := w2 + [' ', d2, ' '] + x;
      && Normalize(w1 + [' ', d1, ' '] + once) == once
      && Normalize(once) == x
      && Normalize(Normalize(w1 + [' ', d1, ' '] + once)) != Normalize(w1 + [' ', d1, ' '] + once)
  {
    var once := w2 + [' ', d2, ' '] + x;
    assert once[0] == w2[0] && once[|once| - 1] == x[|x| - 1];
    ShortLabel(w1, d1, once);
    StripStripped(once);
    ShortLabel(w2, d2, x);
    StripStripped(x);
  }

  /** A step that is nothing but a label, such as the "Step 2:" of the bullet
      "- Step 2:", becomes empty. */
  lemma NormalizeToEmpty(w: string, d: char)
    requires IsStepWord(w) && IsDigit(d)
    ensures Normalize(w + [' ', d, ':']) == []
  {
    var s := w + [' ', d, ':'];
    assert s[0..4] == w && s[4] == ' ' && s[5] == d && s[6] == ':' && |s| == 7;
    LabelShapeMatches(s, 0, 5, 6, 7);
  }

  // ---------------------------------------------------------------------------
  // The imperative version

  /** `generate_steps` from the reply text on: the defaults for an empty reply;
      otherwise the parse, extended by the supplementary steps when it has
      fewer than three, each step normalized. */
  method GenerateSteps(reply: string) returns (steps: seq<string>)
    ensures steps == StepsFor(reply)
    ensures reply == [] ==> steps == Defaults
    ensures reply != [] ==> |steps| >= 3
  {
    if reply == [] {
      return Defaults;
    }
    steps := ParseSteps(reply);
    if |steps| < 3 {
      steps := steps + Supplementary;
    }
    steps := NormalizeAll(steps);
    StepsForReply(reply);
  }
}
