/** The detail panel of one line in src/components/Line.tsx: the flags that
    decide whether a line has detail to show, and the rows of that detail.
    The analyser's per-line timing record is taken as given. */
module LineDetail {
  import opened Js
  import opened Cycles
  import opened NumberText
  import opened TimingFormat

  /** How the analyser arrived at a line's timing: a base timing per
      variant, the effective-address part, a per-repeat multiplier and the
      repeat count, each of the last three possibly missing. */
  datatype Calculation = Calculation(
    base: seq<Timing>,
    ea: Option<Timing>,
    multiplier: Option<Timing>,
    n: Option<nat>)

  /** A line's timing: one value per variant, their labels, and how they
      were calculated. */
  datatype LineTiming = LineTiming(
    values: seq<Timing>,
    labels: Option<seq<string>>,
    calculation: Option<Calculation>)

  /** `isMultiple`: more than one timing variant. */
  predicate IsMultiple(t: Option<LineTiming>) {
    t.Some? && |t.value.values| > 1
  }

  /** `hasEa`: an effective-address part whose clock count is positive. */
  predicate HasEa(t: Option<LineTiming>) {
    t.Some? && t.value.calculation.Some? && t.value.calculation.value.ea.Some?
    && t.value.calculation.value.ea.value.clock > 0
  }

  /** `hasMultiplier`: a multiplier is present, whatever its entries; an
      array is truthy even when every entry is zero. */
  predicate HasMultiplier(t: Option<LineTiming>) {
    t.Some? && t.value.calculation.Some? && t.value.calculation.value.multiplier.Some?
  }

  predicate IsCalculated(t: Option<LineTiming>) {
    HasEa(t) || HasMultiplier(t)
  }

  predicate HasDetail(t: Option<LineTiming>) {
    IsCalculated(t) || IsMultiple(t)
  }

  /** One row of the detail panel. */
  datatype DetailRow =
    | Variant(name: string, text: string)   // `<name>:` and the variant's timing
    | Calculated(text: string)              // the base timing with its multiplier
    | Repeats(text: string)                 // `n = <count>`
    | Ea(text: string)                      // `+ EA:` and the effective-address timing

  /** What the panel needs to render without a failed access: the labels
      the non-null assertion expects when there are several variants, and a
      first base timing when the line is calculated. */
  predicate CanRenderDetail(t: Option<LineTiming>) {
    && (IsMultiple(t) ==> t.value.labels.Some?)
    && (IsCalculated(t) ==> |t.value.calculation.value.base| > 0)
  }

  /** The label of variant `i`; an index past the labels renders as nothing. */
  function LabelAt(labels: seq<string>, i: nat): string {
    if i < |labels| then labels[i] else ""
  }

  /** The variant rows, one per timing value, from index `i` on. */
  function VariantRows(values: seq<Timing>, labels: seq<string>, i: nat): (rows: seq<DetailRow>)
    requires i <= |values|
    ensures |rows| == |values| - i
    ensures forall k :: 0 <= k < |rows| ==> rows[k] == Variant(LabelAt(labels, i + k), TimingText(values[i + k], None))
    decreases |values| - i
  {
    if i == |values| then []
    else [Variant(LabelAt(labels, i), TimingText(values[i], None))] + VariantRows(values, labels, i + 1)
  }

  /** The text after `n = `: the repeat count, or `unknown` when it is missing
      (a count of zero is shown as such). */
  function RepeatText(n: Option<nat>): string {
    if n.Some? then NatToDecimal(n.value) else "unknown"
  }

  /** The rows of the detail panel, in the order they are rendered; none
      unless the line has detail to show. */
  function DetailRows(t: Option<LineTiming>): (rows: seq<DetailRow>)
    requires CanRenderDetail(t)
    ensures rows == [] <==> !HasDetail(t)
    ensures HasDetail(t) ==> |rows| == RowCount(t)
    ensures forall k :: 0 <= k < |rows| && rows[k].Variant? ==> IsMultiple(t) && k < |t.value.values|
    ensures forall k :: 0 <= k < |rows| && rows[k].Repeats? ==> HasMultiplier(t)
    ensures forall k :: 0 <= k < |rows| && rows[k].Ea? ==> HasEa(t)
    ensures HasMultiplier(t) ==> Repeats("n = " + RepeatText(t.value.calculation.value.n)) in rows
    ensures IsCalculated(t) ==> Calculated(TimingText(t.value.calculation.value.base[0], t.value.calculation.value.multiplier)) in rows
    ensures HasEa(t) ==> Ea(TimingText(t.value.calculation.value.ea.value, None)) in rows
  {
    if !(HasDetail(t) && t.Some?) then []
    else
      var lt := t.value;
      (if IsMultiple(t) then VariantRows(lt.values, lt.labels.value, 0) else [])
      + (if HasMultiplier(t) || HasEa(t)
         then [Calculated(TimingText(lt.calculation.value.base[0], lt.calculation.value.multiplier))]
         else [])
      + (if HasMultiplier(t) then [Repeats("n = " + RepeatText(lt.calculation.value.n))] else [])
      + (if HasEa(t) then [Ea(TimingText(lt.calculation.value.ea.value, None))] else [])
  }

  /** The number of rows: one per variant when there are several, one each
      for the calculation, the repeat count and the effective address when
      they apply. */
  function RowCount(t: Option<LineTiming>): nat
    requires t.Some?
  {
    (if IsMultiple(t) then |t.value.values| else 0)
    + (if IsCalculated(t) then 1 else 0)
    + (if HasMultiplier(t) then 1 else 0)
    + (if HasEa(t) then 1 else 0)
  }

  /** A line has detail exactly when it has a timing with several variants,
      an effective-address part whose clock count is positive, or a
      multiplier of any value; a missing effective-address part, one with a
      zero clock count, a single variant and a missing multiplier give none. */
  lemma DetailIff(t: Option<LineTiming>)
    ensures HasDetail(t) <==> t.Some? && (|t.value.values| > 1
                                          || (t.value.calculation.Some? && t.value.calculation.value.ea.Some?
                                              && t.value.calculation.value.ea.value.clock > 0)
                                          || (t.value.calculation.Some? && t.value.calculation.value.multiplier.Some?))
  {
  }

  /** Each variant row shows the variant's label and its timing rendered
      without a multiplier, in the order of the values. */
  lemma VariantRowsShowValues(t: Option<LineTiming>, i: nat)
    requires CanRenderDetail(t) && IsMultiple(t) && i < |t.value.values|
    ensures DetailRows(t)[i] == Variant(LabelAt(t.value.labels.value, i), TimingText(t.value.values[i], None))
  {
    var vs := VariantRows(t.value.values, t.value.labels.value, 0);
    assert DetailRows(t)[..|vs|] == vs;
  }

  /** The repeat row reads `n = unknown` exactly when the count is missing;
      otherwise it shows the count, from which the count can be read back. */
  lemma RepeatsUnknownIff(n: Option<nat>)
    ensures RepeatText(n) == "unknown" <==> n.None?
    ensures n.Some? ==> AllDigits(RepeatText(n)) && DecimalValue(RepeatText(n)) == n.value
  {
    if n.Some? {
      DecimalRoundTrip(n.value);
      var d := NatToDecimal(n.value);
      assert IsDigit(d[0]);
      assert "unknown"[0] == 'u';
    }
  }

  /** The calculation row determines the base timing and the multiplier
      entries, zeros when the multiplier is missing. */
  lemma CalculatedRowRoundTrip(t: Option<LineTiming>)
    requires CanRenderDetail(t) && IsCalculated(t)
    ensures var c := t.value.calculation.value;
            ParseTiming(TimingText(c.base[0], c.multiplier)) == Some((c.base[0], MultiplierOrZero(c.multiplier)))
  {
    var c := t.value.calculation.value;
    FormatRoundTrip(c.base[0], c.multiplier);
  }

  /** A multiplier of all zeros still opens the panel, and its calculation
      row is the base timing rendered plainly. */
  lemma ZeroMultiplierStillDetailed(values: seq<Timing>, labels: Option<seq<string>>, base: seq<Timing>, n: Option<nat>)
    requires |values| <= 1 && |base| > 0
    ensures var t := Some(LineTiming(values, labels, Some(Calculation(base, None, Some(Zero), n))));
            && HasDetail(t) && CanRenderDetail(t)
            && DetailRows(t) == [Calculated(TimingText(base[0], None)), Repeats("n = " + RepeatText(n))]
  {
    MultiplierEntries(base[0], 0, 0);
  }
}
