/** Timing values of 68000 instructions as the analyser reports them. */
module Cycles {

  /** One timing value: CPU clock cycles, bus read cycles and bus write cycles.
      In the analyser's newer interface this is the tuple `[clock, read, write]`. */
  datatype Timing = Timing(clock: nat, read: nat, write: nat)

  /** The three components of a timing value. */
  datatype Component = Clock | Read | Write

  function Get(t: Timing, c: Component): nat {
    match c
    case Clock => t.clock
    case Read => t.read
    case Write => t.write
  }

  const Zero := Timing(0, 0, 0)

  /** Component-wise sum, as `min.clock += …; min.read += …; min.write += …` computes it. */
  function Add(a: Timing, b: Timing): Timing {
    Timing(a.clock + b.clock, a.read + b.read, a.write + b.write)
  }

  /** Each component of a sum is the sum of the components. */
  lemma AddComponents(a: Timing, b: Timing)
    ensures forall c :: Get(Add(a, b), c) == Get(a, c) + Get(b, c)
  {
  }

  /** Adding nothing leaves a timing as it is. */
  lemma AddZero(a: Timing)
    ensures Add(a, Zero) == a && Add(Zero, a) == a
  {
  }

  /** Sums may be regrouped. */
  lemma AddAssociative(a: Timing, b: Timing, c: Timing)
    ensures Add(Add(a, b), c) == Add(a, Add(b, c))
  {
  }
}
