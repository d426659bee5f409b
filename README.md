# Step extraction of the laptop troubleshooting assistant

The assistant asks a generative model for troubleshooting instructions and
turns the model's free-text reply into a list of steps. This Dafny project
models that conversion: `_parse_steps` and the tail of `generate_steps` in
`app/utils/ai_client.py`.

`_parse_steps` works down three tiers:

1. It splits the reply into stripped, non-blank lines.
2. It collects the lines that look like `12. text` (a digit run, then one or
   more of `.`, `)`, `-`, `:` or whitespace). It sorts them stably by their
   number and drops texts that are empty or start with "continued" or
   "cont." (case-insensitive). If any text survives, those texts are the
   answer.
3. Failing that, it collects the bullet lines (`-`, `•` or `*`, then
   whitespace), in line order.
4. Failing that, the lines themselves are the answer.

`generate_steps` takes the reply text from there:

- An empty reply gets six fixed steps.
- Otherwise the parse is extended by three fixed supplementary steps when it
  has fewer than three.
- Every step then loses at most one leading "Step N" label
  (case-insensitive) and is stripped.

Modules:

- `Seqs` (`seqs.dfy`): a generic filter.
- `PyStr` (`py_str.dfy`): the Python string behaviour the code relies on.
  This covers the `str.isspace` character set, `str.splitlines`, `str.strip`,
  `str.lower` on ASCII letters, `int()` of a digit run, and the greedy scan
  of a regex character class.
- `StableSort` (`stable_sort.dfy`): the sort by number.
  - It is specified as a functional insertion sort and proved sorted, a
    permutation, stable, and the only stable sort.
  - It is implemented in place on an array, like `list.sort`.
- `StepParser` (`parse_steps.dfy`): the three tiers.
  - `Parse` is the specification.
  - `ParseSteps` is the imperative version, with the source's loops and in-place sort.
- `GenerateSteps` (`generate_steps.dfy`): defaults, guardrail and label
  removal.
  - `StepsFor` is the specification.
  - `GenerateSteps` is the method.

Each regex is modelled as a sequence of greedy scans. For each one there are
two lemmas:

- one shows that every line of the documented shape matches, with the
  expected groups;
- the other shows that every match has that shape.

Together they characterise the regex.

### Where the code and its own comments differ

The model follows the code in each of these cases.

- **A bracketed "(continued)" survives.** The comment at `ai_client.py:61`
  says the filter removes empty residues like "(continued)". The filter at
  `:62` only drops texts whose lower-cased form starts with "continued" or
  "cont.".
  - The separator class at `:54` does not contain `(`.
  - So the line `3. (continued)` yields the entry `(3, "(continued)")`
    (`StepParser.NumberedShapeMatches`).
  - Its text is kept, like every text that opens with "(continued)"
    (`StepParser.ParenContinuedKept`).
- **Dropped entries come back through the lines tier.** The comment at
  `:61` says empty and "continued" residues are removed, and the filter at
  `:62` removes them from the numbered tier's answer. When no numbered entry
  survives and no line is a bullet, `:76` returns the lines, and these
  include the dropped ones, number and all.
  - The one-line reply `3.` gives the entry `(3, "")`, which is dropped, and
    the parse is `["3."]` (`StepParser.BareNumberReturned`). The reply
    `1. continued from above` is likewise returned whole
    (`StepParser.DroppedTextReturned`).
  - `generate_steps` then returns `"3."` followed by the three
    supplementary steps (`GenerateSteps.BareNumberReply`).
- **A whitespace-only reply gets no fallback.** The comment at `:125`
  promises a safe fallback when the model returns nothing. The test at
  `:124` is on the text's truth value, so a reply made only of whitespace
  is parsed instead. It yields no lines and ends with the three
  supplementary steps, not the six defaults
  (`GenerateSteps.WhitespaceReply`).
- **Label removal can leave a step that is not actionable.** The comment at
  `:137` says the guardrail ensures at least three actionable steps. The
  guardrail counts steps before the label removal at `:146`, and that
  removal can leave the empty string. For example, the bullet `- Step 2:`
  gives the step `Step 2:`, which becomes empty
  (`GenerateSteps.NormalizeToEmpty`). So "every step is non-empty" holds for
  the parse (`StepParser.ParseClean`) but not for the final list.
- **Label removal strips one label, not all.** The pattern at `:146` is
  anchored at the start and applied once. A step carrying two labels keeps
  the second (`GenerateSteps.NormalizeNotIdempotent`). A second pass changes
  nothing exactly when the first left no label at the front
  (`GenerateSteps.NormalizeSettles`).
- **The defaults are returned as they are.** The six steps of `:126-133`
  skip both the guardrail and the label removal.

## Model

| member | source | states |
|---|---|---|
| PyStr.SplitLines | app/utils/ai_client.py:48 | `str.splitlines()`: a non-empty list of pieces, none holding a line break; `SplitLinesRoundTrip` and `SplitLinesBlank` pin it down |
| StepParser.Lines | app/utils/ai_client.py:48 | the lines the parser works on are non-empty and stripped, and no more numerous than the pieces; `LinesEmpty` says when there are none |
| PyStr.Strip | app/utils/ai_client.py:48 | `strip()` returns the part of the string between its leading and trailing whitespace runs; that part has no surrounding whitespace and is empty exactly when the string is all whitespace |
| PyStr.StripIdempotent | app/utils/ai_client.py:48 | stripping twice is stripping once |
| PyStr.SplitLinesRoundTrip | app/utils/ai_client.py:48 | splitting into lines loses nothing: there is one more piece than line breaks, and putting the breaks back between the pieces rebuilds the reply |
| PyStr.SplitLinesBlank | app/utils/ai_client.py:48 | every piece is blank exactly when the whole reply is whitespace |
| StepParser.NonBlank | app/utils/ai_client.py:48 | the kept lines are non-empty, stripped, and no more numerous than the pieces |
| StepParser.LinesEmpty | app/utils/ai_client.py:48 | a reply has no lines exactly when it is empty or all whitespace |
| StepParser.MatchNumbered | app/utils/ai_client.py:54-56 | a numbered line's captured text is stripped and shorter than the line; the greedy scans are characterised in both directions by `NumberedShapeMatches` and `NumberedMatchHasShape` |
| StepParser.NumberedShapeMatches | app/utils/ai_client.py:54-56 | a line made of whitespace, a digit run, a non-empty separator run and a remainder not starting with a separator matches; its number is the digit run's value and its text is the remainder, stripped |
| StepParser.NumberedMatchHasShape | app/utils/ai_client.py:54-56 | every numbered match comes from a line of that shape, with that number and text |
| PyStr.DecimalValue | app/utils/ai_client.py:56 | `int()` of a digit run is zero exactly when every digit is `0`; `DecimalRoundTrip` shows it inverts `str()` |
| PyStr.DecimalRoundTrip | app/utils/ai_client.py:56 | `int(str(n)) == n`: the captured number of a rendered numeral is that number |
| PyStr.DecimalLeadingZero | app/utils/ai_client.py:56 | a leading zero does not change the captured number, so `01.` and `1.` carry the same number |
| StepParser.NumberedEntries | app/utils/ai_client.py:53-56 | at most one entry per line, each with a stripped text |
| StepParser.CollectNumbered | app/utils/ai_client.py:52-56 | the appending loop yields exactly the numbered entries of the lines, in line order |
| StableSort.SortByNumber | app/utils/ai_client.py:59 | the sort keeps the number of entries; the four lemmas below show it sorted, a permutation, stable and the only stable sort |
| StableSort.SortByNumberSorted | app/utils/ai_client.py:59 | the sort orders the entries by non-decreasing number |
| StableSort.SortByNumberPermutes | app/utils/ai_client.py:59 | the sort is a permutation of its input |
| StableSort.SortByNumberStable | app/utils/ai_client.py:59 | for every number, the entries carrying it keep their relative order |
| StableSort.StableSortUnique | app/utils/ai_client.py:59 | two sorted arrangements that agree, number by number, on the order of their entries are equal |
| StableSort.IsTheStableSort | app/utils/ai_client.py:59 | any sorted, stable arrangement of the entries (such as `list.sort`'s) equals the specified sort |
| StableSort.InsertInPlace | app/utils/ai_client.py:59 | the in-place shift loop inserts one entry into the sorted prefix behind all entries of equal number, and leaves the rest of the array untouched |
| StableSort.SortInPlace | app/utils/ai_client.py:59 | the in-place sort leaves the array holding the specified stable sort of its old contents |
| PyStr.Lower | app/utils/ai_client.py:62 | lower-casing keeps the length and lowers each ASCII capital, leaving every other character alone |
| StepParser.Keep | app/utils/ai_client.py:62 | a kept step is non-empty, and a step starting with "continued" or "cont." in lower, capitalised or upper case is dropped |
| StepParser.KeepIgnoresCase | app/utils/ai_client.py:62 | the filter ignores case: a step is kept exactly when its lower-cased form is |
| StepParser.ParenContinuedKept | app/utils/ai_client.py:61-62 | a text that opens with "(continued)" passes the filter, although the comment at :61 names it as a residue to remove |
| StepParser.NumberedSteps | app/utils/ai_client.py:59-62 | the numbered tier yields at most one step per entry, each of them kept; `NumberedStepsKept` gives its order |
| StepParser.TextsFilter | app/utils/ai_client.py:60-62 | dropping texts after projecting entries to texts is projecting the kept entries |
| StepParser.FilterSortCommute | app/utils/ai_client.py:59-62 | dropping entries after the stable sort is sorting the surviving entries |
| StepParser.NumberedStepsKept | app/utils/ai_client.py:59-62 | the numbered tier yields the texts of the kept entries in stable order of number |
| StepParser.NumberedStepsClean | app/utils/ai_client.py:59-62 | the numbered tier yields at most one step per entry, each non-empty, without a "continued"/"cont." prefix and stripped |
| StepParser.SortedSteps | app/utils/ai_client.py:59-62 | sorting a copy in place, projecting and filtering gives the numbered tier's answer |
| StepParser.MatchBullet | app/utils/ai_client.py:69-71 | a bullet line's captured text is stripped and at least two characters shorter than the line; `BulletShapeMatches` and `BulletMatchHasShape` characterise the scans in both directions |
| StepParser.BulletShapeMatches | app/utils/ai_client.py:69-71 | a line made of whitespace, a bullet mark, a non-empty whitespace run and a remainder matches, with the stripped remainder as its text |
| StepParser.BulletMatchHasShape | app/utils/ai_client.py:69-71 | every bullet match comes from a line of that shape |
| StepParser.BulletTextNonEmpty | app/utils/ai_client.py:69-71 | a stripped line never yields an empty bullet text |
| StepParser.BulletTexts | app/utils/ai_client.py:67-71 | at most one text per line, each stripped |
| StepParser.BulletTextsNonEmpty | app/utils/ai_client.py:67-71 | the bullet texts of clean lines are non-empty |
| StepParser.CollectBullets | app/utils/ai_client.py:67-71 | the appending loop yields exactly the bullet texts, in line order |
| StepParser.Parse | app/utils/ai_client.py:39-76 | `_parse_steps` never yields more steps than lines, and yields none exactly when there are no lines; `ParseTiers` says which tier answers |
| StepParser.ParseTiers | app/utils/ai_client.py:57-76 | with kept numbered entries, the result is their texts in stable order of number; with none, it is the bullet texts if there are any, else the lines; dropped entries never appear in the numbered tier's answer; when all are dropped and no line is a bullet, the lines tier returns their lines whole |
| StepParser.BareNumberReturned | app/utils/ai_client.py:57-76 | the one-line reply `3.` (any digit) parses to `["3."]`: the numbered tier drops the entry `(3, "")` and the lines tier at :76 brings the line back |
| StepParser.DroppedTextReturned | app/utils/ai_client.py:57-76 | a one-line reply of a digit, `. ` and a text the filter drops (`1. continued from above`) parses to that line whole |
| StepParser.ParseClean | app/utils/ai_client.py:48-76 | every step is non-empty and stripped, and there are never more steps than lines |
| StepParser.ParseEmpty | app/utils/ai_client.py:48-76 | the parse is empty exactly when the reply is empty or all whitespace |
| StepParser.ParseSteps | app/utils/ai_client.py:39-76 | the imperative parser returns what the specification `Parse` describes |
| GenerateSteps.LabelEnd | app/utils/ai_client.py:146 | the removed label ends inside the step and is either absent or at least five characters long (`step` and a digit); `LabelShapeMatches` and `LabelEndHasShape` characterise it in both directions |
| GenerateSteps.LabelShapeMatches | app/utils/ai_client.py:146 | a step starting with whitespace, `step` in any case, whitespace, a digit run, an optional `.`/`)`/`:`/`-` and whitespace has exactly that prefix removed |
| GenerateSteps.LabelEndHasShape | app/utils/ai_client.py:146 | whatever label removal takes off the front has that shape |
| GenerateSteps.Normalize | app/utils/ai_client.py:146 | a normalized step has no surrounding whitespace |
| GenerateSteps.NormalizeCases | app/utils/ai_client.py:146 | a labelled step becomes what follows its label, stripped; any other step is only stripped |
| GenerateSteps.UnlabelledUnchanged | app/utils/ai_client.py:146 | a stripped step not starting with a letter of `step` is unchanged |
| GenerateSteps.NormalizeSettles | app/utils/ai_client.py:146 | normalizing twice changes nothing exactly when the first pass leaves no label at the front |
| GenerateSteps.NormalizeNotIdempotent | app/utils/ai_client.py:146 | a step with two labels, such as `Step 1 Step 2 x`, loses one per pass, so a second pass changes the result |
| GenerateSteps.NormalizeToEmpty | app/utils/ai_client.py:146 | a step that is only a label, such as `Step 2:`, becomes empty |
| GenerateSteps.NormalizeAll | app/utils/ai_client.py:146 | normalization keeps the number and order of the steps and normalizes each |
| GenerateSteps.TopUp | app/utils/ai_client.py:138-143 | the guardrail keeps the parsed steps as a prefix, leaves at least three steps, and appends the three supplementary steps exactly when fewer than three were parsed |
| GenerateSteps.StepsFor | app/utils/ai_client.py:124-147 | an empty reply yields the six defaults and any other reply at least three steps; `StepsForReply` gives the steps themselves |
| GenerateSteps.SupplementaryNormal | app/utils/ai_client.py:138-146 | the supplementary steps pass through normalization unchanged |
| GenerateSteps.StepsForReply | app/utils/ai_client.py:135-147 | a non-empty reply yields its parsed steps normalized and in order, followed by the three supplementary steps when fewer than three were parsed; there are always at least three |
| GenerateSteps.BareNumberReply | app/utils/ai_client.py:124-147 | the reply `3.` (any digit) yields `"3."` followed by the three supplementary steps |
| GenerateSteps.WhitespaceReply | app/utils/ai_client.py:124-147 | a whitespace-only reply yields exactly the three supplementary steps |
| GenerateSteps.GenerateSteps | app/utils/ai_client.py:124-147 | the method returns what `StepsFor` describes: the six defaults for an empty reply, at least three steps otherwise |

## Left out

- `_configure_gemini` and its module-level call (`app/utils/ai_client.py:10-32`) are left out.
  - They read the API key from the settings and raise at import when it is missing.
  - They configure the SDK with the key, falling back to an environment variable.
- The prompt, the call to the generative model, and the scraping of text out of the response's candidates and parts (`app/utils/ai_client.py:79-122`) are left out.
  - They are I/O through a foreign library.
  - The reply text they produce is the parameter of `StepsFor` and `GenerateSteps`, with a missing text taken as the empty string.
- `\d` in the numbered and label patterns (:54, :146) and `int()` accept every Unicode decimal digit, but the model accepts ASCII digits only.
- `int()` refuses digit runs longer than 4300 characters on recent Python versions. The model has no such limit.
- `str.lower()` is modelled on ASCII letters only.
  - The prefixes "continued" and "cont." are ASCII.
  - No other character lowers to one of their characters without also adding a combining mark.
  - So the decision to drop a step is the same as Python's.
- `PyStr.SplitLines` splits at every line-break character.
  - `\r\n` therefore gives an extra empty piece between its two characters, and a final break gives an empty last piece.
  - The empty string gives one empty piece, while `"".splitlines()` is `[]`.
  - All of these pieces are blank, and the parser drops blank pieces, so `StepParser.Lines` equals the stripped non-blank lines of `str.splitlines()`.
- The case-insensitive match of `step` is modelled letter by letter: either case, plus U+017F for `s`. Other case-folding equivalences play no part in that word.
- `list.sort` is Timsort, while the model sorts by insertion. `StableSort.IsTheStableSort` shows that every stable sort by number gives the same list.
- The numbering of the returned steps 1..N and their storage happen in app/routes/troubleshooting.py, which is not part of this model. app/models.py, app/schemas.py, app/auth/routes.py and app/main.py are not part of this model either: they declare data or wire the application.
- The great-circle ranking of engineers does not appear in the source files and uses floating point, so it is not part of this model.
