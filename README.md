# 68kcounter-web in Dafny

68kcounter-web is a browser front end to the 68kcounter analyser. You paste
68000 assembly source into it, and it shows each source line with its clock,
bus-read and bus-write cycle counts and its size in words. Clicking two lines
selects the range between them and shows the totals of that range.

This project models the parts of the front end that carry real logic:

- **`Reducer`** (`src/reducer.ts`). This is the pure transition function of
  the page state. It handles five kinds of action: new source text, a click
  on a row, a hover over a row, clearing the selection, and a declared
  `totals` action that the reducer does not handle. The analyser package is
  a parameter (`Analyzer`): one function that turns text into lines and one
  that totals a run of lines. Its line and totals types stay abstract.
- **`AppView`** (`src/components/App.tsx`). This module covers the rows
  rendered from that state:
  - which rows are highlighted;
  - which single row carries the range totals.
- **`LegacyApp`** (`src/App.js`). This is the single-file revision of the
  page. It covers:
  - the component state as a class `App` with one field per `useState` cell;
  - the click handler, the submit handler and the hover handler;
  - the totals effect, whose loop over the selected lines is the method
    `SumRange`. It is proved to compute `Aggregate` of the selected lines,
    a recursive definition of the word total, the minimum and maximum cycle
    sums, and the range flag;
  - the severity tiers of the `Words` and `Timings` components.
- **`LineDetail`, `TimingFormat` and `LineSyntax`**
  (`src/components/Line.tsx`). These cover how one line is drawn:
  - `LineDetail`: the flags that decide whether a line has a detail panel,
    and the rows of that panel;
  - `TimingFormat`: `formatTiming`, a loop proved equal to a rendering
    function that has a parser as its inverse;
  - `LineSyntax`: `formatLine`, which highlights a label, a mnemonic and a
    comment through three regular expressions. The model gives each pattern
    its exact JavaScript semantics:
    - the order of the alternatives;
    - the greedy optional size suffix, which is given back when no word
      boundary follows it;
    - `\b`;
    - the `\s` character set;
    - `.` stopping at line terminators;
    - case-insensitive matching of ASCII letters.
- **`Cycles`, `NumberText` and `Js`** are support modules:
  - `Cycles`: the timing triple `(clock, read, write)` and its
    component-wise sum;
  - `NumberText`: `String(n)` for non-negative integers, with its inverse;
  - `Js`: `Option` for `null`, `Math.min` and `Math.max`, and
    `Array.prototype.slice`.

### Choices in the model

- **Source text versus highlighted HTML.** `formatLine` runs the mnemonic and
  comment replacements on the HTML produced by the earlier replacements. The
  model finds every match on the original text and reports it as a span
  `[start, end)`. The two agree because of the markup the earlier
  replacements insert:
  - It contains no `;` and no `*`, and no white space followed by `*`.
  - The only non-space character it puts after a space is in `class=`.
    Where it wraps a match, the character on either side becomes `<` or `>`.
    Both are non-word characters, like the characters they stand beside in
    the source.
  - So a match found on the HTML lies on the same source characters as one
    found on the original text, as long as no mnemonic of the analyser is
    spelled `class`.
  - Matches may nest, for example a mnemonic inside a comment. The model
    reports both spans, and `LineSyntax.MnemonicInsideComment` shows such a
    case.
- **Following the code.** The model follows the code, which is looser than
  one might expect:
  - The `code` action and `handleSubmit` keep the selection; they do not
    reset it.
  - Hover moves while a range is committed.
  - `clear` keeps the hover index.
  - `isRange` is raised by any timing in array form, even an array of one
    element, not only by several variants.
  - The mnemonic pattern's `(?<![;*])` lookbehind excludes nothing that
    `(?<=\s|:)` does not already exclude, so mnemonics inside comments are
    highlighted.
  - The comment pattern starts at a `;`, at white space followed by `*`
    anywhere in the line, or at `*` in column 0.
  - Text that is only white space is still analysed; only the empty string
    counts as no text.
- **Splitting a range.** Each line's minimum and maximum are added in, so
  the minimum and maximum of a range split in two are the sums of the two
  parts' figures. `MinSumConcat`
  and `MaxSumConcat` prove this.
- **When the totals loop can run.** The totals effect of `src/App.js` reads
  `processed[i]` for every index of the range. It also takes `Math.min` and
  `Math.max` of every timing array, and of an empty array these give
  infinities, not cycle counts. `EffectDefined` states these two
  conditions, and `RefreshTotals` requires them. The first does not always
  hold: `handleSubmit` keeps the selection, so after shorter text is
  submitted the range can reach past the new lines (see Findings).

## Model

| member | source | states |
|---|---|---|
| Reducer.Reduce | src/reducer.ts:51-124 | every transition keeps the selection invariant (an end only after a start no greater than it, and range totals only with an end); actions other than `code` leave code, lines and totals alone, and `code` leaves the selection alone |
| Reducer.ClickOnStartCancels | src/reducer.ts:76-85 | while a first click is pending, clicking the start row again clears start, end and hover and nothing else, leaving no selection |
| Reducer.ClickFinishesRange | src/reducer.ts:86-97 | while pending, clicking another row commits the range from the smaller to the larger index, clears hover, and totals exactly the lines of that range; code, lines and whole-document totals stay as they were |
| Reducer.ClickStartsSelection | src/reducer.ts:99-108 | in any other state a click starts a pending selection at that row and drops end, hover and range totals |
| Reducer.HoverOnlyMovesHover | src/reducer.ts:110-114 | hover changes only the hover index, and a committed range stays committed |
| Reducer.ClearDropsSelection | src/reducer.ts:115-121 | clear leaves no selection and no range totals, keeps hover, code, lines and totals, and is idempotent |
| Reducer.CodeReanalyses | src/reducer.ts:53-71 | non-empty text is analysed and totalled, empty text drops lines and totals, the selection is kept either way; the unhandled `totals` action changes nothing |
| Reducer.RunKeepsWellformed | src/reducer.ts:51-124 | any run of accepted actions from a well-formed state ends in a well-formed state |
| Reducer.ReachableIsWellformed | src/reducer.ts:41-49 | every state reachable from the default state satisfies the selection invariant |
| Js.Slice | src/reducer.ts:90 | `slice` returns exactly the elements between the bounds when they are in range, everything from the lower bound on when only the upper bound is past the end, nothing when the lower bound is at or past the end or the upper bound does not exceed the lower, and never more than the array holds |
| Reducer.DefaultState | src/reducer.ts:41-49 | the initial state has no text, no lines, no totals and no selection, and satisfies the selection invariant |
| AppView.Rows | src/components/App.tsx:88-131 | no rows while there are no lines; otherwise one row per line, each with its own highlight flag and totals |
| AppView.IsSelected | src/components/App.tsx:111-117 | a row is highlighted exactly when a start and a far end (the end, or else the hovered row) exist and the row lies between them, in either order |
| AppView.RowTotals | src/components/App.tsx:124 | a row receives totals only if it is the start row, and then the range totals |
| AppView.NoStartNoHighlight | src/components/App.tsx:111-124 | without a start no row is highlighted and no row carries totals |
| AppView.EndOverridesHover | src/components/App.tsx:112 | once an end is set the hovered row has no effect on the highlight |
| AppView.PendingHighlight | src/components/App.tsx:111-117 | while pending, exactly the rows between the start and the hovered row are highlighted, in either order, and none without a hovered row |
| AppView.CommittedHighlight | src/components/App.tsx:111-117 | with a committed range, exactly the rows from start to end are highlighted |
| AppView.HighlightIsContiguous | src/components/App.tsx:113-117 | the highlighted rows form one contiguous block that contains the start row |
| AppView.TotalsOnStartRowOnly | src/components/App.tsx:124 | range totals go to the start row and to no other row |
| AppView.OneTotalsRow | src/components/App.tsx:110-124 | at most one rendered row carries totals |
| AppView.AgreesWithLegacy | src/components/App.tsx:112 | choosing the far end by "end is set" gives the same highlight as the single-file revision's "start and end are both set" |
| AppView.FinishingClickView | src/components/App.tsx:110-124 | after the click that finishes a range, the rows from the smaller to the larger index are highlighted whatever is hovered next, and the smaller row alone carries the totals of exactly those lines |
| LegacyApp.AddLine | src/App.js:28-49 | one turn of the loop adds exactly one `Step` of the line to the four running figures, which `SnocStep` shows is the aggregate of one more line |
| LegacyApp.SumRange | src/App.js:22-52 | the loop's words, minimum, maximum and range flag equal the aggregate of exactly the selected lines, and those lines can all be totalled |
| LegacyApp.EffectTotals | src/App.js:16-53 | the effect stores totals exactly when both ends are set and lines have been processed |
| LegacyApp.NoTotalsWithoutRange | src/App.js:16-20 | the effect leaves no totals without a committed range over processed lines, and otherwise the aggregate of the selected lines |
| LegacyApp.MinOfIsLeast | src/App.js:42-47 | the minimum of a component over a line's timings is no greater than any of them and is one of them |
| LegacyApp.MaxOfIsGreatest | src/App.js:42-50 | the maximum of a component over a line's timings is no less than any of them and is one of them |
| LegacyApp.IsRangeIffSomeArray | src/App.js:36-39 | the range flag is set if and only if some line of the range has its timings in array form |
| LegacyApp.MinNeverExceedsMax | src/App.js:45-50 | in every component the minimum total never exceeds the maximum total |
| LegacyApp.ExactWithoutArrays | src/App.js:36-50 | without an array-form line the minimum and maximum totals coincide |
| LegacyApp.WordSumConcat | src/App.js:28-31 | the word total of a range split in two is the sum of the parts' word totals |
| LegacyApp.AnyArrayConcat | src/App.js:36-39 | a split range is a range exactly when one of its parts is |
| LegacyApp.ConcatComputable | src/App.js:41-50 | two runs that can be totalled can be totalled together |
| LegacyApp.MinSumConcat | src/App.js:45-47 | the minimum total of a split range is the component-wise sum of the parts' minimum totals |
| LegacyApp.MaxSumConcat | src/App.js:48-50 | the maximum total of a split range is the component-wise sum of the parts' maximum totals |
| LegacyApp.AbsentKeepsMin | src/App.js:32-35 | a line without timings leaves the minimum total unchanged |
| LegacyApp.AbsentKeepsMax | src/App.js:32-35 | a line without timings leaves the maximum total unchanged |
| LegacyApp.SingletonArrayIsRange | src/App.js:36-41 | a one-element timing array still makes the total a range, with equal minimum and maximum |
| LegacyApp.App.constructor | src/App.js:6-11 | the initial state is empty text, no lines, no totals and no selection |
| LegacyApp.App.SetCode | src/App.js:104 | editing the text changes the text and nothing else |
| LegacyApp.App.HandleSubmit | src/App.js:55-62 | submitting analyses non-empty text, clears lines for empty text, and keeps the selection |
| LegacyApp.App.HandleSubmitResetting | src/App.js:55-62 | the corrected submit: analyses as `handleSubmit` does and resets the selection, so the totals effect can always run afterwards |
| LegacyApp.StaleRangeAfterShorterSubmit | src/App.js:28-29 | after selecting rows 3 to 8 of a ten-line analysis and submitting text analysed into two lines, the totals effect cannot run |
| LegacyApp.ResetRangeAfterShorterSubmit | src/App.js:55-62 | the same steps with the resetting submit leave the totals effect able to run |
| LegacyApp.Select | src/App.js:64-89 | a click leaves either no selection (only a click on the pending start does that), a fresh pending start, or a committed range whose ends are the pending start and the clicked row with the start strictly before the end; a fresh start is always the clicked row, and a click on another row while a start is pending always commits |
| LegacyApp.IsSelected | src/App.js:129-136 | with both ends set the rows between them are highlighted, while selecting the rows between the start and the hovered row, in either order; nothing without a start or a far end |
| LegacyApp.App.HandleSelect | src/App.js:64-89 | a click always leaves a valid selection (an end only after a start no greater than it), clears hover, and moves the selection as `Select` describes |
| LegacyApp.App.Hover | src/App.js:161 | entering a row sets the hover index and nothing else |
| LegacyApp.App.RefreshTotals | src/App.js:16-53 | the effect stores exactly the totals `EffectTotals` describes and changes nothing else |
| LegacyApp.SelectCases | src/App.js:68-86 | while selecting, a click on the start cancels, a smaller row becomes the start with the old start as end, and a larger row becomes the end; otherwise a click starts afresh |
| LegacyApp.SelectMatchesReducer | src/App.js:64-89 | the explicit swap in `handleSelect` gives the same selection as the reducer's `Math.min`/`Math.max`, and both clear hover |
| LegacyApp.WordsClass | src/App.js:179-189 | no class without colour; a word count never reaches the top tier; exactly two words is medium and more than two is high |
| LegacyApp.TimingsClass | src/App.js:200-212 | no class without colour; at most 12 clock cycles is low, more than 20 is high or above, more than 30 is the top tier |
| LegacyApp.WordsClassMonotone | src/App.js:179-189 | more words never give a lower tier, and no tier without colour |
| LegacyApp.TimingsClassMonotone | src/App.js:200-212 | more clock cycles never give a lower tier, and no tier without colour |
| LineDetail.DetailIff | src/components/Line.tsx:25-30 | a line has detail if and only if it has several timing variants, an effective-address part with positive clock count, or a multiplier of any value |
| LineDetail.DetailRows | src/components/Line.tsx:64-95 | the panel has rows exactly when the line has detail, as many as the parts that apply; variant rows only for several variants, a repeat row only with a multiplier, an effective-address row only with a positive effective-address clock count; the calculation row shows the first base timing with the multiplier, the repeat row shows `n = ` and the count, and the effective-address row shows that timing, whenever those parts apply |
| LineDetail.VariantRows | src/components/Line.tsx:67-75 | one row per timing value, in order, each with its label and its plain rendering |
| LineDetail.VariantRowsShowValues | src/components/Line.tsx:67-75 | row `i` of the panel shows variant `i`'s label and timing |
| LineDetail.RepeatsUnknownIff | src/components/Line.tsx:84-86 | the repeat row reads `unknown` exactly when the count is missing; otherwise it shows the count, and the count can be read back from it (zero included) |
| LineDetail.CalculatedRowRoundTrip | src/components/Line.tsx:76-83 | the calculation row determines the base timing and the multiplier entries |
| LineDetail.ZeroMultiplierStillDetailed | src/components/Line.tsx:28 | an all-zero multiplier still opens the panel, and its calculation row is the plain rendering of the base |
| NumberText.NatToDecimal | src/components/Line.tsx:140 | `String(v)` is a non-empty string of digits without a leading zero |
| NumberText.DecimalRoundTrip | src/components/Line.tsx:140 | reading the digits back gives the number |
| TimingFormat.FormatTiming | src/components/Line.tsx:139-151 | the loop that appends `+<m>n` to each entry produces the rendering `TimingText` |
| TimingFormat.ComponentRoundTrip | src/components/Line.tsx:144-146 | one component's text determines its value and its multiplier entry |
| TimingFormat.FormatRoundTrip | src/components/Line.tsx:139-151 | parsing a rendering gives back the timing and the multiplier entries, zeros when there is no multiplier |
| TimingFormat.PlainRendering | src/components/Line.tsx:140-150 | without a multiplier the rendering is `clock(read/write)` in decimal |
| TimingFormat.MultiplierEntries | src/components/Line.tsx:142-147 | a zero multiplier entry adds nothing, a non-zero one appends `+<m>n`, and an all-zero multiplier renders like none |
| LineSyntax.LabelSpan | src/components/Line.tsx:120 | a label exists exactly when column 0 holds a character other than white space, `;` or `*`, and it is the whole run of such characters from column 0 |
| LineSyntax.FindComment | src/components/Line.tsx:121 | the comment match starts at the leftmost `;`, white space followed by `*`, or `*` in column 0, and runs to the next line terminator; none when there is no such opener |
| LineSyntax.AlternativeEnd | src/components/Line.tsx:114-119 | an alternative matches exactly where it occurs ignoring ASCII case with a word boundary after it or after a following size suffix; the suffix is taken whenever a boundary follows it, and the match always ends at a word boundary |
| LineSyntax.FirstAlternativeEnd | src/components/Line.tsx:114-117 | the first alternative in order that matches decides the match, and there is no match only when none matches |
| LineSyntax.FindMnemonic | src/components/Line.tsx:114-119 | the mnemonic match is the leftmost position where the lookbehinds and an alternative match; none when there is no such position |
| LineSyntax.MnemonicShape | src/components/Line.tsx:114-119 | a mnemonic match follows white space or `:`, is one of the vocabulary or `blo`/`dblo`/`dbra` in any ASCII case, optionally followed by `.b`/`.w`/`.l`/`.s`, and ends at a word boundary |
| LineSyntax.AppliedMarks | src/components/Line.tsx:127-135 | the replacements mark exactly the matches present, each with its own span, in label, mnemonic, comment order |
| LineSyntax.FormatLine | src/components/Line.tsx:123-137 | the line is left unmarked exactly when no pattern matches; otherwise each pattern that matches gets one mark with its match, in the order applied |
| LineSyntax.StarLineIsComment | src/components/Line.tsx:120-121 | a line starting with `*` has no label and is a comment from its first character to its last |
| LineSyntax.CommentRunsToEnd | src/components/Line.tsx:121 | on a single line the comment runs to the end, starting at the leftmost opener |
| LineSyntax.ColumnZeroIsNeverMnemonic | src/components/Line.tsx:115 | a mnemonic never starts in column 0, so a label spelled like a mnemonic stays a label |
| LineSyntax.LeftmostComment | src/components/Line.tsx:121 | the comment match starts at the first opener and runs to the end of the line from there |
| LineSyntax.LeftmostMnemonic | src/components/Line.tsx:114-119 | the mnemonic match starts at the first position where a mnemonic matches |
| LineSyntax.ExampleLabel | src/components/Line.tsx:120 | in `L move.l ;x` the label is `L` |
| LineSyntax.ExampleMnemonic | src/components/Line.tsx:114-119 | in `L move.l ;x` the mnemonic is `move.l`, suffix included |
| LineSyntax.ExampleComment | src/components/Line.tsx:121 | in `L move.l ;x` the comment is `;x` |
| LineSyntax.LookbehindRedundant | src/components/Line.tsx:115 | the negative lookbehind for `;` or `*` excludes nothing that the positive lookbehind for white space or `:` admits |
| LineSyntax.MnemonicInsideComment | src/components/Line.tsx:115-121 | in `* move` the mnemonic is highlighted inside a comment that spans the whole line |

## Left out

- Rendering: the model describes what is rendered in data terms, not the
  markup or CSS. This leaves out:
  - the HTML strings and their CSS classes;
  - the missing HTML escaping of the source text in `formatLine`;
  - the expand toggle of the detail panel;
  - the title texts;
  - the icons.
- React machinery is left out, because it is framework behaviour rather
  than page logic:
  - render scheduling and memoisation;
  - the `useCallback` dependency lists;
  - the order in which state updates are batched. The handlers are modelled
    as if their updates apply together before the effect runs.
- The Escape-key listener of `src/components/App.tsx` and the drag and drop
  and file reading of `src/components/Form.tsx` are I/O wiring and are not
  part of this model. The form, bytes, words, timing, totals and line-totals
  components and the icons are not part of this model either.
- The analyser package (`process`, `calculateTotals`, the `Mnemonics`
  vocabulary) is external code. It enters as parameters. Its totals type and
  the relation between bytes and words are not modelled.
- `NumberText.NatToDecimal`: covers integers written in plain decimal only.
  `String(n)` switches to exponent notation at 10^21, and cycle counts never
  come near that.
- `LineSyntax.AlternativeEnd`: folds the case of ASCII letters only. The `i`
  flag without `u` also folds non-ASCII letters to non-ASCII letters, which
  cannot match the ASCII vocabulary. The model also indexes strings by
  character rather than by UTF-16 code unit.
- `LegacyApp.App.RefreshTotals`: requires that the selected lines exist and
  that every timing array in them has an element. Without the first, the
  source fails when it reads `processed[i]`. Without the second,
  `Math.min`/`Math.max` give infinities, which are not cycle counts.
- `LegacyApp.SumRange`: carries the same two requirements as
  `RefreshTotals`, for the same reasons.
- `LegacyApp.AddLine`: requires a non-empty timing array, as `SumRange`
  does, since an empty one gives infinities.
- `LineDetail.DetailRows`: requires `CanRenderDetail`, so it leaves out the
  two inputs on which the panel throws: several values without labels (the
  non-null assertion on `labels`), and a calculated line with an empty
  `base`, whose `base[0]` is undefined and makes `formatTiming` fail.
- `LegacyApp.AbsentKeepsMin` and `LegacyApp.AbsentKeepsMax`: the fact that a
  line without timings changes no total is stated once for the minimum and
  once for the maximum, not as one lemma about all four figures. The word
  count and the range flag are covered by `SnocWordsAndRange`.

## Findings

| source | as written | input that shows it | evidently intended | confidence | as-written member | corrected member |
|---|---|---|---|---|---|---|
| src/App.js:55-62 | `handleSubmit` replaces the analysed lines and keeps the selection, so the totals effect reads `processed[i]` for the old range and `.words` of an undefined line throws | select rows 3 to 8 of a ten-line analysis, then submit text that is analysed into two lines | a new analysis resets the selection, so the range never reaches past the lines | medium, not executed | LegacyApp.StaleRangeAfterShorterSubmit | LegacyApp.App.HandleSubmitResetting |
