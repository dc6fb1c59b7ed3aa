/** `formatTiming` of src/components/Line.tsx: a timing tuple rendered as
    `clock(read/write)`, each component optionally followed by `+<m>n` when
    a repeat multiplier applies to it. */
module TimingFormat {
  import opened Js
  import opened Cycles
  import opened NumberText

  /** `timing[i]` of the tuple `[clock, read, write]`. */
  function Nth(t: Timing, i: nat): nat
    requires i < 3
  {
    if i == 0 then t.clock else if i == 1 then t.read else t.write
  }

  /** The multiplier entry for component `i`, zero when there is no multiplier. */
  function MultiplierAt(m: Option<Timing>, i: nat): nat
    requires i < 3
  {
    if m.Some? then Nth(m.value, i) else 0
  }

  /** The text of one component: its value, and `+<k>n` when `k` is non-zero. */
  function ComponentText(v: nat, k: nat): string {
    NatToDecimal(v) + (if k != 0 then "+" + NatToDecimal(k) + "n" else "")
  }

  /** The rendering `formatTiming` produces. */
  function TimingText(t: Timing, m: Option<Timing>): string {
    ComponentText(t.clock, MultiplierAt(m, 0)) + "("
      + ComponentText(t.read, MultiplierAt(m, 1)) + "/"
      + ComponentText(t.write, MultiplierAt(m, 2)) + ")"
  }

  /** `formatTiming(timing, multiplier)`: the strings of the three values,
      extended in place for each non-zero multiplier entry, then joined. */
  method FormatTiming(timing: Timing, multiplier: Option<Timing>) returns (text: string)
    ensures text == TimingText(timing, multiplier)
  {
    var strVals := [NatToDecimal(timing.clock), NatToDecimal(timing.read), NatToDecimal(timing.write)];
    if multiplier.Some? {
      var i := 0;
      while i < 3
        invariant 0 <= i <= 3 && |strVals| == 3
        invariant forall k :: 0 <= k < i ==> strVals[k] == ComponentText(Nth(timing, k), Nth(multiplier.value, k))
        invariant forall k :: i <= k < 3 ==> strVals[k] == NatToDecimal(Nth(timing, k))
      {
        if Nth(multiplier.value, i) != 0 {
          strVals := strVals[i := strVals[i] + "+" + NatToDecimal(Nth(multiplier.value, i)) + "n"];
        }
        i := i + 1;
      }
    }
    text := strVals[0] + "(" + strVals[1] + "/" + strVals[2] + ")";
  }

  /** The multiplier entries a rendering carries, zeros for none. */
  function MultiplierOrZero(m: Option<Timing>): Timing {
    if m.Some? then m.value else Zero
  }

  // Reading a rendering back.

  /** The text before and after the first occurrence of `c`. */
  function SplitAt(s: string, c: char): (r: Option<(string, string)>)
    ensures r.None? <==> c !in s
    ensures r.Some? ==> s == r.value.0 + [c] + r.value.1 && c !in r.value.0
  {
    if s == [] then None
    else if s[0] == c then Some(([], s[1..]))
    else
      match SplitAt(s[1..], c)
      case None => None
      case Some((a, b)) => Some(([s[0]] + a, b))
  }

  lemma {:induction false} SplitAtFirst(a: string, c: char, b: string)
    requires c !in a
    ensures SplitAt(a + [c] + b, c) == Some((a, b))
  {
    if a != [] {
      assert (a + [c] + b)[1..] == a[1..] + [c] + b;
      SplitAtFirst(a[1..], c, b);
      assert [a[0]] + a[1..] == a;
    }
  }

  /** A component's value and multiplier entry, if `p` is one. */
  function ParseComponent(p: string): Option<(nat, nat)> {
    match SplitAt(p, '+')
    case None =>
      if |p| > 0 && AllDigits(p) then Some((DecimalValue(p), 0)) else None
    case Some((a, b)) =>
      if |a| > 0 && AllDigits(a) && |b| > 1 && b[|b| - 1] == 'n' && AllDigits(b[..|b| - 1])
      then Some((DecimalValue(a), DecimalValue(b[..|b| - 1])))
      else None
  }

  /** The timing and the multiplier entries a rendering denotes. */
  function ParseTiming(s: string): Option<(Timing, Timing)> {
    if |s| == 0 || s[|s| - 1] != ')' then None
    else
      match SplitAt(s[..|s| - 1], '(')
      case None => None
      case Some((p0, rest)) =>
        match SplitAt(rest, '/')
        case None => None
        case Some((p1, p2)) =>
          match (ParseComponent(p0), ParseComponent(p1), ParseComponent(p2))
          case (Some(c0), Some(c1), Some(c2)) =>
            Some((Timing(c0.0, c1.0, c2.0), Timing(c0.1, c1.1, c2.1)))
          case _ => None
  }

  /** A component's text holds only digits, `+` and `n`. */
  lemma ComponentAlphabet(v: nat, k: nat)
    ensures forall ch :: ch in ComponentText(v, k) ==> IsDigit(ch) || ch == '+' || ch == 'n'
  {
    var d := NatToDecimal(v);
    assert forall ch :: ch in d ==> IsDigit(ch);
    if k != 0 {
      var e := NatToDecimal(k);
      assert forall ch :: ch in e ==> IsDigit(ch);
      assert ComponentText(v, k) == d + "+" + e + "n";
    }
  }

  lemma ComponentRoundTrip(v: nat, k: nat)
    ensures ParseComponent(ComponentText(v, k)) == Some((v, k))
  {
    var d := NatToDecimal(v);
    DecimalRoundTrip(v);
    assert forall ch :: ch in d ==> IsDigit(ch);
    if k == 0 {
      assert ComponentText(v, k) == d;
    } else {
      var e := NatToDecimal(k);
      DecimalRoundTrip(k);
      var b := e + "n";
      assert ComponentText(v, k) == d + ['+'] + b;
      SplitAtFirst(d, '+', b);
      assert b[..|b| - 1] == e;
    }
  }

  /** A rendering determines the timing and every non-zero multiplier entry:
      parsing it back yields them, with zeros where nothing was appended. */
  lemma FormatRoundTrip(t: Timing, m: Option<Timing>)
    ensures ParseTiming(TimingText(t, m)) == Some((t, MultiplierOrZero(m)))
  {
    var c0 := ComponentText(t.clock, MultiplierAt(m, 0));
    var c1 := ComponentText(t.read, MultiplierAt(m, 1));
    var c2 := ComponentText(t.write, MultiplierAt(m, 2));
    var s := TimingText(t, m);
    var rest := c1 + "/" + c2;
    assert s[|s| - 1] == ')' && s[..|s| - 1] == c0 + ['('] + rest by {
      assert s == c0 + "(" + c1 + "/" + c2 + ")";
    }
    assert SplitAt(s[..|s| - 1], '(') == Some((c0, rest)) by {
      ComponentAlphabet(t.clock, MultiplierAt(m, 0));
      SplitAtFirst(c0, '(', rest);
    }
    assert SplitAt(rest, '/') == Some((c1, c2)) by {
      ComponentAlphabet(t.read, MultiplierAt(m, 1));
      assert rest == c1 + ['/'] + c2;
      SplitAtFirst(c1, '/', c2);
    }
    ComponentRoundTrip(t.clock, MultiplierAt(m, 0));
    ComponentRoundTrip(t.read, MultiplierAt(m, 1));
    ComponentRoundTrip(t.write, MultiplierAt(m, 2));
  }

  /** Without a multiplier the rendering is `clock(read/write)` in decimal. */
  lemma PlainRendering(t: Timing)
    ensures TimingText(t, None)
            == NatToDecimal(t.clock) + "(" + NatToDecimal(t.read) + "/" + NatToDecimal(t.write) + ")"
  {
  }

  /** A component whose multiplier entry is zero renders as it would with no
      multiplier at all; a non-zero entry appends `+<m>n` to it. */
  lemma MultiplierEntries(t: Timing, v: nat, k: nat)
    ensures k == 0 ==> ComponentText(v, k) == NatToDecimal(v)
    ensures k != 0 ==> ComponentText(v, k) == NatToDecimal(v) + "+" + NatToDecimal(k) + "n"
    ensures TimingText(t, Some(Zero)) == TimingText(t, None)
  {
  }
}
