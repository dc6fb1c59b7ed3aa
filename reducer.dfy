/** The selection reducer of src/reducer.ts: one pure transition function
    over the page state, branching on the action's tag. */
module Reducer {
  import opened Js

  /** The two functions of the external analyser package that the reducer
      calls. `L` is the analyser's annotated-line type and `T` its totals
      type; neither is looked into here. */
  datatype Analyzer<!L, T> = Analyzer(process: string -> seq<L>, calculateTotals: seq<L> -> T)

  /** The page state. `None` stands for `null`. */
  datatype State<L, T> = State(
    code: string,
    totals: Option<T>,
    lines: Option<seq<L>>,
    selectionStart: Option<nat>,
    selectionEnd: Option<nat>,
    selectionHover: Option<nat>,
    selectionTotals: Option<T>)

  /** The five action kinds, each with its payload. */
  datatype Action<T> =
    | Code(text: string)
    | SetTotals(payload: Option<T>)
    | Click(index: nat)
    | Hover(index: nat)
    | Clear

  /** `defaultState`: no text, no analysis and no selection. */
  function DefaultState<L, T>(): (s: State<L, T>)
    ensures Idle(s) && Wellformed(s)
    ensures s.code == "" && s.lines.None? && s.totals.None?
    ensures s.selectionHover.None? && s.selectionTotals.None?
  {
    State("", None, None, None, None, None, None)
  }

  /** No range is selected. */
  predicate Idle<L, T>(s: State<L, T>) {
    s.selectionStart.None? && s.selectionEnd.None?
  }

  /** A first click has been registered and the second is awaited. */
  predicate Pending<L, T>(s: State<L, T>) {
    s.selectionStart.Some? && s.selectionEnd.None?
  }

  /** A range is selected, its ends in order. */
  predicate Committed<L, T>(s: State<L, T>) {
    s.selectionStart.Some? && s.selectionEnd.Some? && s.selectionStart.value <= s.selectionEnd.value
  }

  /** The invariant the transitions keep: an end only together with a start
      no greater than it, and range totals only once a range has an end. */
  predicate Wellformed<L, T>(s: State<L, T>) {
    && (s.selectionEnd.Some? ==> Committed(s))
    && (s.selectionEnd.None? ==> s.selectionTotals.None?)
  }

  /** What the reducer needs of its caller: a click that finishes a range
      reads `state.lines` through a non-null cast. */
  predicate CanReduce<L, T>(s: State<L, T>, a: Action<T>) {
    a.Click? && Pending(s) && a.index != s.selectionStart.value ==> s.lines.Some?
  }

  function Reduce<L, T>(an: Analyzer<L, T>, s: State<L, T>, a: Action<T>): (r: State<L, T>)
    requires CanReduce(s, a)
    ensures Wellformed(s) ==> Wellformed(r)
    ensures !a.Code? ==> r.code == s.code && r.lines == s.lines && r.totals == s.totals
    ensures a.Code? ==> r.selectionStart == s.selectionStart && r.selectionEnd == s.selectionEnd
                        && r.selectionHover == s.selectionHover && r.selectionTotals == s.selectionTotals
  {
    match a
    case Code(text) =>
      // only the empty string is falsy; whitespace is analysed
      if text != "" then
        var lines := an.process(text);
        s.(code := text, lines := Some(lines), totals := Some(an.calculateTotals(lines)))
      else
        s.(code := text, lines := None, totals := None)
    case Click(i) =>
      if Pending(s) then
        if i == s.selectionStart.value then
          s.(selectionStart := None, selectionEnd := None, selectionHover := None)
        else
          var lo := Min(i, s.selectionStart.value);
          var hi := Max(i, s.selectionStart.value);
          s.(selectionStart := Some(lo), selectionEnd := Some(hi), selectionHover := None,
             selectionTotals := Some(an.calculateTotals(Slice(s.lines.value, lo, hi + 1))))
      else
        s.(selectionStart := Some(i), selectionEnd := None, selectionHover := None, selectionTotals := None)
    case Hover(i) =>
      s.(selectionHover := Some(i))
    case Clear =>
      s.(selectionStart := None, selectionEnd := None, selectionTotals := None)
    case SetTotals(_) =>
      s
  }

  /** While pending, clicking the start row cancels the selection and
      touches nothing else. */
  lemma ClickOnStartCancels<L, T>(an: Analyzer<L, T>, s: State<L, T>, i: nat)
    requires Pending(s) && i == s.selectionStart.value
    ensures Reduce(an, s, Click(i)) == s.(selectionStart := None, selectionEnd := None, selectionHover := None)
    ensures Idle(Reduce(an, s, Click(i)))
  {
  }

  /** While pending, clicking another row commits the range between the two
      rows, in order, and totals exactly the lines of that range. */
  lemma ClickFinishesRange<L, T>(an: Analyzer<L, T>, s: State<L, T>, i: nat)
    requires Pending(s) && i != s.selectionStart.value && s.lines.Some?
    requires i < |s.lines.value| && s.selectionStart.value < |s.lines.value|
    ensures var r := Reduce(an, s, Click(i));
            var lo := if i < s.selectionStart.value then i else s.selectionStart.value;
            var hi := if i < s.selectionStart.value then s.selectionStart.value else i;
            && Committed(r) && lo < hi
            && r.selectionStart == Some(lo) && r.selectionEnd == Some(hi) && r.selectionHover == None
            && r.selectionTotals == Some(an.calculateTotals(s.lines.value[lo..hi + 1]))
            && r.code == s.code && r.lines == s.lines && r.totals == s.totals
  {
  }

  /** In any state other than pending, a click starts a fresh selection at
      that row and drops the previous end, hover and range totals. */
  lemma ClickStartsSelection<L, T>(an: Analyzer<L, T>, s: State<L, T>, i: nat)
    requires !Pending(s)
    ensures Reduce(an, s, Click(i)) == s.(selectionStart := Some(i), selectionEnd := None,
                                          selectionHover := None, selectionTotals := None)
    ensures Pending(Reduce(an, s, Click(i)))
  {
  }

  /** Hovering moves only the hover index, in every state, a committed
      range included. */
  lemma HoverOnlyMovesHover<L, T>(an: Analyzer<L, T>, s: State<L, T>, i: nat)
    ensures Reduce(an, s, Hover(i)) == s.(selectionHover := Some(i))
    ensures Committed(s) ==> Committed(Reduce(an, s, Hover(i)))
  {
  }

  /** Clearing drops the selection and its totals, keeps hover, code, lines
      and totals, and clearing twice is clearing once. */
  lemma ClearDropsSelection<L, T>(an: Analyzer<L, T>, s: State<L, T>)
    ensures var r := Reduce(an, s, Clear);
            && Idle(r) && r.selectionTotals == None
            && r.selectionHover == s.selectionHover
            && r.code == s.code && r.lines == s.lines && r.totals == s.totals
            && Reduce(an, r, Clear) == r
  {
  }

  /** New source text is analysed unless it is empty, in which case lines and
      totals are dropped; the selection is left as it was either way. The
      declared `totals` action has no case and leaves the state alone. */
  lemma CodeReanalyses<L, T>(an: Analyzer<L, T>, s: State<L, T>, text: string, t: Option<T>)
    ensures var r := Reduce(an, s, Code(text));
            && r.code == text
            && (text != "" ==> r.lines == Some(an.process(text))
                               && r.totals == Some(an.calculateTotals(an.process(text))))
            && (text == "" ==> r.lines == None && r.totals == None)
            && r.selectionStart == s.selectionStart && r.selectionEnd == s.selectionEnd
            && r.selectionHover == s.selectionHover && r.selectionTotals == s.selectionTotals
    ensures Reduce(an, s, SetTotals(t)) == s
  {
  }

  /** A run of actions every one of which the reducer accepts. */
  predicate Runnable<L, T>(an: Analyzer<L, T>, s: State<L, T>, acts: seq<Action<T>>)
    decreases |acts|
  {
    |acts| == 0 || (CanReduce(s, acts[0]) && Runnable(an, Reduce(an, s, acts[0]), acts[1..]))
  }

  /** The state after dispatching `acts` in order. */
  function Run<L, T>(an: Analyzer<L, T>, s: State<L, T>, acts: seq<Action<T>>): State<L, T>
    requires Runnable(an, s, acts)
    decreases |acts|
  {
    if |acts| == 0 then s else Run(an, Reduce(an, s, acts[0]), acts[1..])
  }

  lemma {:induction false} RunKeepsWellformed<L, T>(an: Analyzer<L, T>, s: State<L, T>, acts: seq<Action<T>>)
    requires Wellformed(s) && Runnable(an, s, acts)
    ensures Wellformed(Run(an, s, acts))
    decreases |acts|
  {
    if |acts| > 0 {
      RunKeepsWellformed(an, Reduce(an, s, acts[0]), acts[1..]);
    }
  }

  /** Every state reachable from the default state keeps the selection
      invariant: an end only after a start no greater than it, and range
      totals only with an end. */
  lemma ReachableIsWellformed<L, T>(an: Analyzer<L, T>, acts: seq<Action<T>>)
    requires Runnable(an, DefaultState(), acts)
    ensures Wellformed(Run(an, DefaultState(), acts))
  {
    RunKeepsWellformed(an, DefaultState(), acts);
  }
}
