/** The single-file revision of the front end, src/App.js: range totals
    computed in an effect, click handling written against React state cells,
    the row highlight test and the severity tiers of the `Words` and
    `Timings` components. */
module LegacyApp {
  import opened Js
  import opened Cycles
  import Reducer

  /** The `timings` field of a processed line: absent, one `{clock, read,
      write}` object, or an array of them for an instruction whose cost
      depends on the branch outcome. */
  datatype LineTimings = Absent | Single(t: Timing) | Variants(ts: seq<Timing>)

  /** One line as the analyser returned it; `words` may be missing. */
  datatype ProcessedLine = ProcessedLine(text: string, words: Option<nat>, timings: LineTimings)

  /** The totals object the effect stores. */
  datatype RangeTotals = RangeTotals(words: nat, min: Timing, max: Timing, isRange: bool)

  /** `Math.min()` and `Math.max()` of an empty array are not numbers, so an
      array of timings must have an element to be totalled. */
  predicate Computable(t: LineTimings) {
    t.Variants? ==> |t.ts| > 0
  }

  /** Every line of `ls` can be totalled; stated line by line from the last,
      as the totals are. */
  predicate AllComputable(ls: seq<ProcessedLine>) {
    ls == [] || (AllComputable(ls[..|ls| - 1]) && Computable(ls[|ls| - 1].timings))
  }

  lemma {:induction false} AllComputableIff(ls: seq<ProcessedLine>)
    ensures AllComputable(ls) <==> forall k :: 0 <= k < |ls| ==> Computable(ls[k].timings)
  {
    if ls != [] {
      var init := ls[..|ls| - 1];
      AllComputableIff(init);
      assert forall k :: 0 <= k < |init| ==> init[k] == ls[k];
    }
  }

  /** The words a line adds: a missing count adds nothing. */
  function WordsOf(l: ProcessedLine): nat {
    match l.words
    case Some(w) => w
    case None => 0
  }

  /** `Math.min(...timings.map(n => n[c]))`. */
  function MinOf(ts: seq<Timing>, c: Component): nat
    requires |ts| > 0
  {
    if |ts| == 1 then Get(ts[0], c)
    else
      var rest := MinOf(ts[1..], c);
      if Get(ts[0], c) <= rest then Get(ts[0], c) else rest
  }

  /** `Math.max(...timings.map(n => n[c]))`. */
  function MaxOf(ts: seq<Timing>, c: Component): nat
    requires |ts| > 0
  {
    if |ts| == 1 then Get(ts[0], c)
    else
      var rest := MaxOf(ts[1..], c);
      if Get(ts[0], c) >= rest then Get(ts[0], c) else rest
  }

  /** `MinOf` is the least of the values and one of them. */
  lemma {:induction false} MinOfIsLeast(ts: seq<Timing>, c: Component)
    requires |ts| > 0
    ensures forall k :: 0 <= k < |ts| ==> MinOf(ts, c) <= Get(ts[k], c)
    ensures exists k :: 0 <= k < |ts| && MinOf(ts, c) == Get(ts[k], c)
  {
    if |ts| > 1 {
      MinOfIsLeast(ts[1..], c);
      assert forall k :: 1 <= k < |ts| ==> ts[k] == ts[1..][k - 1];
      var j :| 0 <= j < |ts[1..]| && MinOf(ts[1..], c) == Get(ts[1..][j], c);
      if MinOf(ts, c) != Get(ts[0], c) {
        assert MinOf(ts, c) == Get(ts[j + 1], c);
      } else {
        assert MinOf(ts, c) == Get(ts[0], c);
      }
    } else {
      assert MinOf(ts, c) == Get(ts[0], c);
    }
  }

  /** `MaxOf` is the greatest of the values and one of them. */
  lemma {:induction false} MaxOfIsGreatest(ts: seq<Timing>, c: Component)
    requires |ts| > 0
    ensures forall k :: 0 <= k < |ts| ==> Get(ts[k], c) <= MaxOf(ts, c)
    ensures exists k :: 0 <= k < |ts| && MaxOf(ts, c) == Get(ts[k], c)
  {
    if |ts| > 1 {
      MaxOfIsGreatest(ts[1..], c);
      assert forall k :: 1 <= k < |ts| ==> ts[k] == ts[1..][k - 1];
      var j :| 0 <= j < |ts[1..]| && MaxOf(ts[1..], c) == Get(ts[1..][j], c);
      if MaxOf(ts, c) != Get(ts[0], c) {
        assert MaxOf(ts, c) == Get(ts[j + 1], c);
      } else {
        assert MaxOf(ts, c) == Get(ts[0], c);
      }
    } else {
      assert MaxOf(ts, c) == Get(ts[0], c);
    }
  }

  function MinTiming(ts: seq<Timing>): Timing
    requires |ts| > 0
  {
    Timing(MinOf(ts, Clock), MinOf(ts, Read), MinOf(ts, Write))
  }

  function MaxTiming(ts: seq<Timing>): Timing
    requires |ts| > 0
  {
    Timing(MaxOf(ts, Clock), MaxOf(ts, Read), MaxOf(ts, Write))
  }

  /** The timing values of a line, a single object counted as an array of one. */
  function VariantsOf(t: LineTimings): seq<Timing> {
    match t
    case Absent => []
    case Single(x) => [x]
    case Variants(ts) => ts
  }

  /** What a line adds to the running minimum; nothing without a timing. */
  function LineMin(t: LineTimings): Timing
    requires Computable(t)
  {
    if t.Absent? then Zero else MinTiming(VariantsOf(t))
  }

  /** What a line adds to the running maximum; nothing without a timing. */
  function LineMax(t: LineTimings): Timing
    requires Computable(t)
  {
    if t.Absent? then Zero else MaxTiming(VariantsOf(t))
  }

  // The four figures of a range, each defined on its own, by the last line.

  function WordSum(ls: seq<ProcessedLine>): nat {
    if ls == [] then 0 else WordSum(ls[..|ls| - 1]) + WordsOf(ls[|ls| - 1])
  }

  function MinSum(ls: seq<ProcessedLine>): Timing
    requires AllComputable(ls)
  {
    if ls == [] then Zero else Add(MinSum(ls[..|ls| - 1]), LineMin(ls[|ls| - 1].timings))
  }

  function MaxSum(ls: seq<ProcessedLine>): Timing
    requires AllComputable(ls)
  {
    if ls == [] then Zero else Add(MaxSum(ls[..|ls| - 1]), LineMax(ls[|ls| - 1].timings))
  }

  function AnyArray(ls: seq<ProcessedLine>): bool {
    if ls == [] then false else AnyArray(ls[..|ls| - 1]) || ls[|ls| - 1].timings.Variants?
  }

  /** The totals of a run of lines. */
  function Aggregate(ls: seq<ProcessedLine>): RangeTotals
    requires AllComputable(ls)
  {
    RangeTotals(WordSum(ls), MinSum(ls), MaxSum(ls), AnyArray(ls))
  }

  /** The lines `lo..hi` inclusive; none when `lo > hi`. */
  function RangeOf(ps: seq<ProcessedLine>, lo: nat, hi: nat): seq<ProcessedLine>
    requires lo <= hi ==> hi < |ps|
  {
    if lo <= hi then ps[lo..hi + 1] else []
  }

  /** The totals after one more line: its word count, its component-wise
      minimum and maximum added in, and the range flag raised by an array. */
  function Step(t: RangeTotals, l: ProcessedLine): RangeTotals
    requires Computable(l.timings)
  {
    RangeTotals(t.words + WordsOf(l), Add(t.min, LineMin(l.timings)), Add(t.max, LineMax(l.timings)),
                t.isRange || l.timings.Variants?)
  }

  lemma SnocMin(ls: seq<ProcessedLine>, l: ProcessedLine)
    requires AllComputable(ls) && Computable(l.timings)
    ensures AllComputable(ls + [l]) && MinSum(ls + [l]) == Add(MinSum(ls), LineMin(l.timings))
  {
    assert (ls + [l])[..|ls|] == ls;
  }

  lemma SnocMax(ls: seq<ProcessedLine>, l: ProcessedLine)
    requires AllComputable(ls) && Computable(l.timings)
    ensures AllComputable(ls + [l]) && MaxSum(ls + [l]) == Add(MaxSum(ls), LineMax(l.timings))
  {
    assert (ls + [l])[..|ls|] == ls;
  }

  /** Each line adds its word count, a missing one nothing, and sets the
      range flag exactly when its timing has the array form. */
  lemma SnocWordsAndRange(ls: seq<ProcessedLine>, l: ProcessedLine)
    ensures WordSum(ls + [l]) == WordSum(ls) + WordsOf(l)
    ensures AnyArray(ls + [l]) == (AnyArray(ls) || l.timings.Variants?)
  {
    assert (ls + [l])[..|ls|] == ls;
  }

  /** One more line: the totals of a run take one step. */
  lemma SnocStep(ls: seq<ProcessedLine>, l: ProcessedLine, t: RangeTotals)
    requires AllComputable(ls) && Computable(l.timings) && t == Aggregate(ls)
    ensures AllComputable(ls + [l])
    ensures Aggregate(ls + [l]) == Step(t, l)
  {
    SnocMin(ls, l);
    SnocMax(ls, l);
    SnocWordsAndRange(ls, l);
  }

  /** The totals the loop has reached after visiting lines `lo..hi - 1`,
      one `Step` per line and indexed by position, so that the loop never
      has to compare runs of lines. */
  ghost function TotalsUpTo(ps: seq<ProcessedLine>, lo: nat, hi: nat): RangeTotals
    requires lo <= hi && (lo < hi ==> hi <= |ps|)
    requires forall k :: lo <= k < hi ==> Computable(ps[k].timings)
    decreases hi - lo
  {
    if hi == lo then RangeTotals(0, Zero, Zero, false) else Step(TotalsUpTo(ps, lo, hi - 1), ps[hi - 1])
  }

  /** One more visited line is one more `Step`. */
  lemma UpToStep(ps: seq<ProcessedLine>, lo: nat, i: nat)
    requires lo <= i < |ps|
    requires forall k :: lo <= k <= i ==> Computable(ps[k].timings)
    ensures TotalsUpTo(ps, lo, i + 1) == Step(TotalsUpTo(ps, lo, i), ps[i])
  {
  }

  /** Visiting lines `lo..hi - 1` one at a time gives the totals of that run. */
  lemma {:induction false} TotalsUpToIsAggregate(ps: seq<ProcessedLine>, lo: nat, hi: nat)
    requires lo <= hi <= |ps|
    requires forall k :: lo <= k < hi ==> Computable(ps[k].timings)
    ensures AllComputable(ps[lo..hi]) && TotalsUpTo(ps, lo, hi) == Aggregate(ps[lo..hi])
    decreases hi - lo
  {
    if lo < hi {
      var init, l := ps[lo..hi - 1], ps[hi - 1];
      assert ps[lo..hi] == init + [l];
      TotalsUpToIsAggregate(ps, lo, hi - 1);
      SnocStep(init, l, TotalsUpTo(ps, lo, hi - 1));
    } else {
      assert ps[lo..hi] == [];
    }
  }

  /** Where the loop stops, its running totals are those of the selected lines. */
  lemma RangeTotalsAreAggregate(ps: seq<ProcessedLine>, start: nat, end: nat, i: nat)
    requires start <= end ==> end < |ps|
    requires forall k :: start <= k <= end && k < |ps| ==> Computable(ps[k].timings)
    requires i == if start <= end then end + 1 else start
    ensures start <= end ==> AllComputable(ps[start..end + 1])
    ensures TotalsUpTo(ps, start, i) == Aggregate(RangeOf(ps, start, end))
  {
    if start <= end {
      TotalsUpToIsAggregate(ps, start, end + 1);
    }
  }

  /** A line with a timing adds its word count and the least and greatest of
      its timing values, and an array raises the range flag. */
  lemma PresentStep(t: RangeTotals, l: ProcessedLine, ts: seq<Timing>)
    requires Computable(l.timings) && !l.timings.Absent? && ts == VariantsOf(l.timings)
    ensures Step(t, l) == RangeTotals(t.words + WordsOf(l), Add(t.min, MinTiming(ts)), Add(t.max, MaxTiming(ts)),
                                      t.isRange || l.timings.Variants?)
  {
  }

  /** A line without a timing adds its word count and leaves the rest alone. */
  lemma AbsentStep(t: RangeTotals, l: ProcessedLine)
    requires l.timings.Absent?
    ensures Step(t, l) == t.(words := t.words + WordsOf(l))
  {
    AddZero(t.min);
    AddZero(t.max);
  }

  /** One turn of the totals loop: the line's word count, when truthy, and
      the component-wise least and greatest of its timing values are added
      in, and an array raises the range flag; a line without a timing adds
      only its word count. */
  method AddLine(words: nat, min: Timing, max: Timing, isRange: bool, line: ProcessedLine)
    returns (words': nat, min': Timing, max': Timing, isRange': bool)
    requires Computable(line.timings)
    ensures RangeTotals(words', min', max', isRange') == Step(RangeTotals(words, min, max, isRange), line)
  {
    words', min', max', isRange' := words, min, max, isRange;
    if line.words.Some? && line.words.value != 0 {
      words' := words + line.words.value;
    }
    if line.timings.Absent? {
      AbsentStep(RangeTotals(words, min, max, isRange), line);
      return;
    }
    var isArray := line.timings.Variants?;
    if isArray {
      isRange' := true;
    }
    var timings := if isArray then line.timings.ts else [line.timings.t];
    min' := Add(min, MinTiming(timings));
    max' := Add(max, MaxTiming(timings));
    PresentStep(RangeTotals(words, min, max, isRange), line, timings);
  }

  /** The body of the totals effect: one pass over the selected lines. */
  method SumRange(processed: seq<ProcessedLine>, start: nat, end: nat) returns (t: RangeTotals)
    requires start <= end ==> end < |processed|
    requires forall k :: start <= k <= end && k < |processed| ==> Computable(processed[k].timings)
    ensures start <= end ==> AllComputable(processed[start..end + 1])
    ensures t == Aggregate(RangeOf(processed, start, end))
  {
    var words: nat := 0;
    var min := Zero;
    var max := Zero;
    var isRange := false;
    var i := start;
    while i <= end
      invariant start <= i && (i == start || i <= end + 1)
      invariant RangeTotals(words, min, max, isRange) == TotalsUpTo(processed, start, i)
    {
      words, min, max, isRange := AddLine(words, min, max, isRange, processed[i]);
      UpToStep(processed, start, i);
      i := i + 1;
    }
    RangeTotalsAreAggregate(processed, start, end, i);
    t := RangeTotals(words, min, max, isRange);
  }

  /** The totals the effect leaves behind: none unless both ends are set and
      the source has been processed. An empty array of lines is truthy. */
  predicate EffectDefined(processed: Option<seq<ProcessedLine>>, start: Option<nat>, end: Option<nat>) {
    start.Some? && end.Some? && processed.Some? ==>
      && (start.value <= end.value ==> end.value < |processed.value|)
      && (forall k :: start.value <= k <= end.value && k < |processed.value| ==> Computable(processed.value[k].timings))
  }

  function EffectTotals(processed: Option<seq<ProcessedLine>>, start: Option<nat>, end: Option<nat>): (r: Option<RangeTotals>)
    requires EffectDefined(processed, start, end)
    ensures r.Some? <==> start.Some? && end.Some? && processed.Some?
  {
    if start.None? || end.None? || processed.None? then None
    else
      var ls := RangeOf(processed.value, start.value, end.value);
      assert forall k :: 0 <= k < |ls| ==> ls[k] == processed.value[start.value + k];
      AllComputableIff(ls);
      Some(Aggregate(ls))
  }

  /** `handleSelect`: the selection after a click on row `i`. A committed
      range always has its start strictly before its end, and its two ends
      are the first click and the second. */
  function Select(start: Option<nat>, end: Option<nat>, i: nat): (r: (Option<nat>, Option<nat>))
    ensures r.1.Some? ==> r.0.Some? && r.0.value < r.1.value
    ensures r.1.Some? ==> start.Some? && end.None?
                          && {r.0.value, r.1.value} == {start.value, i}
    ensures r.0.None? ==> r.1.None? && start.Some? && end.None? && i == start.value
    ensures r.0.Some? && r.1.None? ==> r.0 == Some(i)
    ensures start.Some? && end.None? && i != start.value ==> r.1.Some?
  {
    if start.Some? && end.None? then
      if i == start.value then (None, None)
      else if i < start.value then (Some(i), start)
      else (start, Some(i))
    else (Some(i), None)
  }

  /** The `isSelected` test of a row in the single-file revision. */
  function IsSelected(start: Option<nat>, end: Option<nat>, hover: Option<nat>, i: nat): (b: bool)
    ensures start.Some? && end.Some? ==>
              (b <==> start.value <= i <= end.value || end.value <= i <= start.value)
    ensures start.Some? && end.None? && hover.Some? ==>
              (b <==> start.value <= i <= hover.value || hover.value <= i <= start.value)
    ensures start.None? || (end.None? && hover.None?) ==> !b
  {
    var hasSelection := start.Some? && end.Some?;
    var b := if hasSelection then end else hover;
    start.Some? && b.Some? && Min(start.value, b.value) <= i && i <= Max(start.value, b.value)
  }

  /** The severity tiers, lowest first. */
  datatype Level = Low | Med | High | VeryHigh

  function Rank(l: Level): nat {
    match l
    case Low => 0
    case Med => 1
    case High => 2
    case VeryHigh => 3
  }

  /** The class of a word count: none unless coloured. A word count never
      reaches the top tier; two words are the only medium count. */
  function WordsClass(words: int, color: bool): (r: Option<Level>)
    ensures r.None? <==> !color
    ensures color ==> r.value != VeryHigh
    ensures color ==> (r.value == Med <==> words == 2)
    ensures color ==> (r.value == High <==> words > 2)
  {
    if !color then None
    else if words > 2 then Some(High)
    else if words == 2 then Some(Med)
    else Some(Low)
  }

  /** The class of a timing, by its clock cycles: none unless coloured. The
      tiers split the clock counts at 12, 20 and 30, each bound belonging to
      the tier below it. */
  function TimingsClass(clock: int, color: bool): (r: Option<Level>)
    ensures r.None? <==> !color
    ensures color ==> (r.value == Low <==> clock <= 12)
    ensures color ==> (r.value == VeryHigh <==> clock > 30)
    ensures color ==> (Rank(r.value) >= 2 <==> clock > 20)
  {
    if !color then None
    else if clock > 30 then Some(VeryHigh)
    else if clock > 20 then Some(High)
    else if clock > 12 then Some(Med)
    else Some(Low)
  }

  /** The component state of `App`: one field per `useState` cell. */
  class App {
    var code: string
    var processed: Option<seq<ProcessedLine>>
    var selectionStart: Option<nat>
    var selectionEnd: Option<nat>
    var selectionHover: Option<nat>
    var totals: Option<RangeTotals>

    /** The selection invariant `handleSelect` keeps. */
    ghost predicate Valid()
      reads this
    {
      selectionEnd.Some? ==> selectionStart.Some? && selectionStart.value <= selectionEnd.value
    }

    constructor ()
      ensures Valid()
      ensures code == "" && processed == None && totals == None
      ensures selectionStart == None && selectionEnd == None && selectionHover == None
    {
      code := "";
      processed := None;
      selectionStart := None;
      selectionEnd := None;
      selectionHover := None;
      totals := None;
    }

    predicate HasSelection()
      reads this
    {
      selectionStart.Some? && selectionEnd.Some?
    }

    predicate IsSelecting()
      reads this
    {
      selectionStart.Some? && selectionEnd.None?
    }

    /** The text area's `onChange`. */
    method SetCode(text: string)
      requires Valid()
      modifies this
      ensures Valid()
      ensures code == text
      ensures processed == old(processed) && totals == old(totals)
      ensures selectionStart == old(selectionStart) && selectionEnd == old(selectionEnd)
      ensures selectionHover == old(selectionHover)
    {
      code := text;
    }

    /** `handleSubmit`: analyse the text unless it is empty. */
    method HandleSubmit(process: string -> seq<ProcessedLine>)
      requires Valid()
      modifies this
      ensures Valid()
      ensures old(code) != "" ==> processed == Some(process(old(code)))
      ensures old(code) == "" ==> processed == None
      ensures code == old(code) && totals == old(totals)
      ensures selectionStart == old(selectionStart) && selectionEnd == old(selectionEnd)
      ensures selectionHover == old(selectionHover)
    {
      if code != "" {
        processed := Some(process(code));
      } else {
        processed := None;
      }
    }

    /** `handleSubmit` with the selection reset when a new analysis replaces
        the lines: afterwards the totals effect can always run. */
    method HandleSubmitResetting(process: string -> seq<ProcessedLine>)
      requires Valid()
      modifies this
      ensures old(code) != "" ==> processed == Some(process(old(code)))
      ensures old(code) == "" ==> processed == None
      ensures code == old(code) && totals == old(totals)
      ensures selectionStart == None && selectionEnd == None && selectionHover == None
      ensures Valid() && EffectDefined(processed, selectionStart, selectionEnd)
    {
      if code != "" {
        processed := Some(process(code));
      } else {
        processed := None;
      }
      selectionStart := None;
      selectionEnd := None;
      selectionHover := None;
    }

    /** `handleSelect`: from any state it leaves the selection valid. */
    method HandleSelect(i: nat)
      modifies this
      ensures Valid()
      ensures (selectionStart, selectionEnd) == Select(old(selectionStart), old(selectionEnd), i)
      ensures selectionHover == None
      ensures code == old(code) && processed == old(processed) && totals == old(totals)
    {
      var selecting := IsSelecting();
      var start := selectionStart;
      selectionHover := None;
      if selecting {
        if i == start.value {
          selectionStart := None;
          selectionEnd := None;
        } else if i < start.value {
          selectionEnd := start;
          selectionStart := Some(i);
        } else {
          selectionEnd := Some(i);
        }
      } else {
        selectionStart := Some(i);
        selectionEnd := None;
      }
    }

    /** A row's `onMouseEnter`, wired straight to `setSelectionHover`. */
    method Hover(i: nat)
      requires Valid()
      modifies this
      ensures Valid()
      ensures selectionHover == Some(i)
      ensures code == old(code) && processed == old(processed) && totals == old(totals)
      ensures selectionStart == old(selectionStart) && selectionEnd == old(selectionEnd)
    {
      selectionHover := Some(i);
    }

    /** The totals effect, run after the selection or the lines change. */
    method RefreshTotals()
      requires Valid() && EffectDefined(processed, selectionStart, selectionEnd)
      modifies this
      ensures Valid()
      ensures code == old(code) && processed == old(processed)
      ensures selectionStart == old(selectionStart) && selectionEnd == old(selectionEnd)
      ensures selectionHover == old(selectionHover)
      ensures totals == EffectTotals(processed, selectionStart, selectionEnd)
    {
      if !HasSelection() || processed.None? {
        totals := None;
        return;
      }
      var t := SumRange(processed.value, selectionStart.value, selectionEnd.value);
      totals := Some(t);
    }
  }

  // A selection that outlives its analysis.

  /** `n` lines without words or timings. */
  function BlankLines(n: nat): (ls: seq<ProcessedLine>)
    ensures |ls| == n
  {
    seq(n, _ => ProcessedLine("", None, Absent))
  }

  /** An analyser that returns ten lines for text longer than one character
      and two otherwise. */
  function ShortOrLong(text: string): seq<ProcessedLine> {
    if |text| > 1 then BlankLines(10) else BlankLines(2)
  }

  /** Rows 3 to 8 of a ten-line analysis are selected, then shorter text is
      submitted. `handleSubmit` keeps the range, so the totals effect would
      read `processed[3]` to `processed[8]` of a two-line analysis: the
      effect cannot run. */
  method StaleRangeAfterShorterSubmit() returns (canRun: bool)
    ensures !canRun
  {
    var app := new App();
    app.SetCode("ab");
    app.HandleSubmit(ShortOrLong);
    app.HandleSelect(3);
    app.HandleSelect(8);
    app.SetCode("a");
    app.HandleSubmit(ShortOrLong);
    canRun := EffectDefined(app.processed, app.selectionStart, app.selectionEnd);
  }

  /** The same steps with the resetting submit: the effect can run. */
  method ResetRangeAfterShorterSubmit() returns (canRun: bool)
    ensures canRun
  {
    var app := new App();
    app.SetCode("ab");
    app.HandleSubmitResetting(ShortOrLong);
    app.HandleSelect(3);
    app.HandleSelect(8);
    app.SetCode("a");
    app.HandleSubmitResetting(ShortOrLong);
    canRun := EffectDefined(app.processed, app.selectionStart, app.selectionEnd);
  }

  // Properties of the totals.

  /** `isRange` is set exactly when some line has the array form, whatever
      the array's length. */
  lemma {:induction false} IsRangeIffSomeArray(ls: seq<ProcessedLine>)
    ensures AnyArray(ls) <==> exists k :: 0 <= k < |ls| && ls[k].timings.Variants?
  {
    if ls != [] {
      var init := ls[..|ls| - 1];
      IsRangeIffSomeArray(init);
      assert forall k :: 0 <= k < |init| ==> init[k] == ls[k];
      if AnyArray(init) {
        var k :| 0 <= k < |init| && init[k].timings.Variants?;
        assert ls[k].timings.Variants?;
      }
    }
  }

  /** The minimum never exceeds the maximum, in any component. */
  lemma {:induction false} MinNeverExceedsMax(ls: seq<ProcessedLine>)
    requires AllComputable(ls)
    ensures forall c :: Get(MinSum(ls), c) <= Get(MaxSum(ls), c)
  {
    if ls != [] {
      var init := ls[..|ls| - 1];
      var t := ls[|ls| - 1].timings;
      MinNeverExceedsMax(init);
      AddComponents(MinSum(init), LineMin(t));
      AddComponents(MaxSum(init), LineMax(t));
      if !t.Absent? {
        var ts := VariantsOf(t);
        forall c ensures Get(MinTiming(ts), c) <= Get(MaxTiming(ts), c) {
          MinOfIsLeast(ts, c);
          MaxOfIsGreatest(ts, c);
          assert MinOf(ts, c) <= Get(ts[0], c) <= MaxOf(ts, c);
          match c
          case Clock =>
          case Read =>
          case Write =>
        }
      }
    }
  }

  /** Without an array-form line the minimum and the maximum coincide. */
  lemma {:induction false} ExactWithoutArrays(ls: seq<ProcessedLine>)
    requires !AnyArray(ls)
    ensures AllComputable(ls) && MinSum(ls) == MaxSum(ls)
  {
    if ls != [] {
      var init := ls[..|ls| - 1];
      ExactWithoutArrays(init);
    }
  }

  /** The word total of a range split in two is the sum of the parts' totals. */
  lemma {:induction false} WordSumConcat(a: seq<ProcessedLine>, b: seq<ProcessedLine>)
    ensures WordSum(a + b) == WordSum(a) + WordSum(b)
  {
    if b == [] {
      assert a + b == a;
    } else {
      WordSumConcat(a, b[..|b| - 1]);
      assert (a + b)[..|a + b| - 1] == a + b[..|b| - 1];
    }
  }

  /** A range split in two is a range exactly when one of its parts is. */
  lemma {:induction false} AnyArrayConcat(a: seq<ProcessedLine>, b: seq<ProcessedLine>)
    ensures AnyArray(a + b) == (AnyArray(a) || AnyArray(b))
  {
    if b == [] {
      assert a + b == a;
    } else {
      AnyArrayConcat(a, b[..|b| - 1]);
      assert (a + b)[..|a + b| - 1] == a + b[..|b| - 1];
    }
  }

  /** Two runs that can be totalled can be totalled together. */
  lemma ConcatComputable(a: seq<ProcessedLine>, b: seq<ProcessedLine>)
    requires AllComputable(a) && AllComputable(b)
    ensures AllComputable(a + b)
  {
    AllComputableIff(a);
    AllComputableIff(b);
    AllComputableIff(a + b);
    assert forall k :: 0 <= k < |a + b| ==> (a + b)[k] == if k < |a| then a[k] else b[k - |a|];
  }

  /** The minimum of a range split in two is the sum of the parts' minima
      (the whole is computable by `ConcatComputable`). */
  lemma {:induction false} MinSumConcat(a: seq<ProcessedLine>, b: seq<ProcessedLine>)
    requires AllComputable(a) && AllComputable(b) && AllComputable(a + b)
    ensures MinSum(a + b) == Add(MinSum(a), MinSum(b))
  {
    if b == [] {
      assert a + b == a;
      AddZero(MinSum(a));
    } else {
      var init := b[..|b| - 1];
      var l := b[|b| - 1];
      var ab := a + b;
      assert ab[..|ab| - 1] == a + init && ab[|ab| - 1] == l;
      MinSumConcat(a, init);
      AddAssociative(MinSum(a), MinSum(init), LineMin(l.timings));
    }
  }

  /** The maximum of a range split in two is the sum of the parts' maxima. */
  lemma {:induction false} MaxSumConcat(a: seq<ProcessedLine>, b: seq<ProcessedLine>)
    requires AllComputable(a) && AllComputable(b) && AllComputable(a + b)
    ensures MaxSum(a + b) == Add(MaxSum(a), MaxSum(b))
  {
    if b == [] {
      assert a + b == a;
      AddZero(MaxSum(a));
    } else {
      var init := b[..|b| - 1];
      var l := b[|b| - 1];
      var ab := a + b;
      assert ab[..|ab| - 1] == a + init && ab[|ab| - 1] == l;
      MaxSumConcat(a, init);
      AddAssociative(MaxSum(a), MaxSum(init), LineMax(l.timings));
    }
  }

  /** A line without a timing adds nothing to the minimum. */
  lemma AbsentKeepsMin(ls: seq<ProcessedLine>, l: ProcessedLine)
    requires AllComputable(ls) && l.timings.Absent?
    ensures AllComputable(ls + [l]) && MinSum(ls + [l]) == MinSum(ls)
  {
    SnocMin(ls, l);
    AddZero(MinSum(ls));
  }

  /** A line without a timing adds nothing to the maximum. */
  lemma AbsentKeepsMax(ls: seq<ProcessedLine>, l: ProcessedLine)
    requires AllComputable(ls) && l.timings.Absent?
    ensures AllComputable(ls + [l]) && MaxSum(ls + [l]) == MaxSum(ls)
  {
    SnocMax(ls, l);
    AddZero(MaxSum(ls));
  }

  /** An array of one timing still marks the total as a range, although its
      minimum and maximum are the same. */
  lemma SingletonArrayIsRange(text: string, t: Timing)
    ensures var r := Aggregate([ProcessedLine(text, None, Variants([t]))]);
            r.isRange && r.min == r.max == t
  {
    var ls := [ProcessedLine(text, None, Variants([t]))];
    assert ls[..0] == [];
    assert AllComputable(ls);
    assert MinTiming([t]) == t && MaxTiming([t]) == t;
    assert MinSum(ls) == Add(MinSum([]), t) == t;
    assert MaxSum(ls) == Add(MaxSum([]), t) == t;
  }

  /** The effect leaves no totals unless a range is committed over processed lines. */
  lemma NoTotalsWithoutRange(processed: Option<seq<ProcessedLine>>, start: Option<nat>, end: Option<nat>)
    requires EffectDefined(processed, start, end)
    ensures EffectTotals(processed, start, end).Some? <==> start.Some? && end.Some? && processed.Some?
    ensures start.Some? && end.Some? && processed.Some? && start.value <= end.value ==>
              && AllComputable(processed.value[start.value..end.value + 1])
              && EffectTotals(processed, start, end)
                 == Some(Aggregate(processed.value[start.value..end.value + 1]))
  {
    if start.Some? && end.Some? && processed.Some? && start.value <= end.value {
      var ls := processed.value[start.value..end.value + 1];
      assert forall k :: 0 <= k < |ls| ==> ls[k] == processed.value[start.value + k];
      AllComputableIff(ls);
    }
  }

  // Properties of the click handling.

  /** While selecting, a click on the start cancels, a smaller row becomes the
      start with the old start as end, a larger one becomes the end; any other
      click starts afresh. */
  lemma SelectCases(start: Option<nat>, end: Option<nat>, i: nat)
    ensures start.Some? && end.None? && i == start.value ==> Select(start, end, i) == (None, None)
    ensures start.Some? && end.None? && i < start.value ==> Select(start, end, i) == (Some(i), start)
    ensures start.Some? && end.None? && i > start.value ==> Select(start, end, i) == (start, Some(i))
    ensures !(start.Some? && end.None?) ==> Select(start, end, i) == (Some(i), None)
  {
  }

  /** The swap written out in `handleSelect` commits the same range as the
      reducer's `Math.min`/`Math.max`, and both clear the hover index. */
  lemma SelectMatchesReducer<L, T>(an: Reducer.Analyzer<L, T>, s: Reducer.State<L, T>, i: nat)
    requires Reducer.CanReduce(s, Reducer.Click(i))
    ensures var r := Reducer.Reduce(an, s, Reducer.Click(i));
            && (r.selectionStart, r.selectionEnd) == Select(s.selectionStart, s.selectionEnd, i)
            && r.selectionHover == None
  {
  }

  // Properties of the tiers.

  lemma WordsClassMonotone(a: int, b: int)
    requires a <= b
    ensures Rank(WordsClass(a, true).value) <= Rank(WordsClass(b, true).value)
    ensures WordsClass(a, false) == None
  {
  }

  lemma TimingsClassMonotone(a: int, b: int)
    requires a <= b
    ensures Rank(TimingsClass(a, true).value) <= Rank(TimingsClass(b, true).value)
    ensures TimingsClass(a, false) == None
  {
  }
}
