/** The rows src/components/App.tsx renders from the reducer's state: which
    rows are highlighted and which row carries the range totals. */
module AppView {
  import opened Js
  import opened Reducer
  import LegacyApp

  /** The far end of the highlight: the committed end, or else the hovered row. */
  function FarEnd<L, T>(s: State<L, T>): Option<nat> {
    if s.selectionEnd.Some? then s.selectionEnd else s.selectionHover
  }

  /** `isSelected` of row `i`. */
  function IsSelected<L, T>(s: State<L, T>, i: nat): (b: bool)
    ensures b <==> && s.selectionStart.Some? && FarEnd(s).Some?
                   && (s.selectionStart.value <= i <= FarEnd(s).value
                       || FarEnd(s).value <= i <= s.selectionStart.value)
  {
    var a := s.selectionStart;
    var b := FarEnd(s);
    a.Some? && b.Some? && Min(a.value, b.value) <= i && i <= Max(a.value, b.value)
  }

  /** The totals handed to row `i`: the range totals on the start row only. */
  function RowTotals<L, T>(s: State<L, T>, i: nat): (r: Option<T>)
    ensures r.Some? ==> s.selectionStart == Some(i) && r == s.selectionTotals
    ensures s.selectionStart != Some(i) ==> r.None?
  {
    if s.selectionStart == Some(i) then s.selectionTotals else None
  }

  /** What one rendered row receives. */
  datatype Row<T> = Row(index: nat, isSelected: bool, totals: Option<T>)

  /** The rows: one per line, none while there are no lines. */
  function Rows<L, T>(s: State<L, T>): (rows: seq<Row<T>>)
    ensures s.lines.None? ==> rows == []
    ensures s.lines.Some? ==> |rows| == |s.lines.value|
    ensures forall i :: 0 <= i < |rows| ==> rows[i] == Row(i, IsSelected(s, i), RowTotals(s, i))
  {
    if s.lines.None? then []
    else seq(|s.lines.value|, i requires 0 <= i => Row(i, IsSelected(s, i), RowTotals(s, i)))
  }

  /** Without a start no row is highlighted and no row gets totals. */
  lemma NoStartNoHighlight<L, T>(s: State<L, T>, i: nat)
    requires s.selectionStart.None?
    ensures !IsSelected(s, i) && RowTotals(s, i).None?
  {
  }

  /** Once an end is set the hovered row plays no part. */
  lemma EndOverridesHover<L, T>(s: State<L, T>, h: Option<nat>, i: nat)
    requires s.selectionEnd.Some?
    ensures IsSelected(s, i) == IsSelected(s.(selectionHover := h), i)
  {
  }

  /** While pending, the rows between the start and the hovered row are
      highlighted, in either order, and none when nothing is hovered. */
  lemma PendingHighlight<L, T>(s: State<L, T>, i: nat)
    requires Pending(s)
    ensures s.selectionHover.None? ==> !IsSelected(s, i)
    ensures s.selectionHover.Some? ==>
              (IsSelected(s, i) <==> (s.selectionStart.value <= i <= s.selectionHover.value
                                      || s.selectionHover.value <= i <= s.selectionStart.value))
  {
  }

  /** With a committed range the highlighted rows are exactly those from the
      start to the end. */
  lemma CommittedHighlight<L, T>(s: State<L, T>, i: nat)
    requires Committed(s)
    ensures IsSelected(s, i) <==> s.selectionStart.value <= i <= s.selectionEnd.value
  {
  }

  /** The highlighted rows form one block of consecutive rows that holds the start. */
  lemma HighlightIsContiguous<L, T>(s: State<L, T>, i: nat, j: nat, k: nat)
    requires IsSelected(s, i) && IsSelected(s, j) && i <= k <= j
    ensures IsSelected(s, k)
    ensures IsSelected(s, s.selectionStart.value)
  {
  }

  /** The range totals go to the start row and to no other. */
  lemma TotalsOnStartRowOnly<L, T>(s: State<L, T>, i: nat)
    ensures RowTotals(s, i).Some? ==> s.selectionStart == Some(i)
    ensures s.selectionStart == Some(i) ==> RowTotals(s, i) == s.selectionTotals
  {
  }

  /** At most one rendered row carries totals. */
  lemma OneTotalsRow<L, T>(s: State<L, T>, i: nat, j: nat)
    requires 0 <= i < |Rows(s)| && 0 <= j < |Rows(s)|
    requires Rows(s)[i].totals.Some? && Rows(s)[j].totals.Some?
    ensures i == j
  {
    TotalsOnStartRowOnly(s, i);
    TotalsOnStartRowOnly(s, j);
  }

  /** The highlight rule agrees with the single-file revision's, which picks
      the end only when both start and end are set. */
  lemma AgreesWithLegacy<L, T>(s: State<L, T>, i: nat)
    ensures IsSelected(s, i) == LegacyApp.IsSelected(s.selectionStart, s.selectionEnd, s.selectionHover, i)
  {
  }

  /** After a click that finishes a range, the rows from the smaller to the
      larger index are highlighted, whatever is hovered next, and the smaller
      one carries the totals of exactly those lines. */
  lemma FinishingClickView<L, T>(an: Analyzer<L, T>, s: State<L, T>, i: nat, h: nat, k: nat)
    requires Pending(s) && i != s.selectionStart.value && s.lines.Some?
    requires i < |s.lines.value| && s.selectionStart.value < |s.lines.value|
    ensures var r := Reduce(an, s, Click(i));
            var lo := Min(i, s.selectionStart.value);
            var hi := Max(i, s.selectionStart.value);
            && (IsSelected(r, k) <==> lo <= k <= hi)
            && (IsSelected(Reduce(an, r, Hover(h)), k) <==> lo <= k <= hi)
            && RowTotals(r, lo) == Some(an.calculateTotals(s.lines.value[lo..hi + 1]))
            && (k != lo ==> RowTotals(r, k).None?)
  {
    ClickFinishesRange(an, s, i);
    var r := Reduce(an, s, Click(i));
    CommittedHighlight(r, k);
    HoverOnlyMovesHover(an, r, h);
    CommittedHighlight(Reduce(an, r, Hover(h)), k);
  }
}
