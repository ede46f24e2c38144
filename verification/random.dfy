/**
  The `java.util.Random` draws the rule engine makes, taken as input.

  A generator is an unbounded stream of naturals plus the number already
  consumed; `nextInt(bound)` reads the next natural and reduces it into
  `[0, bound)`. Nothing is assumed about the distribution: every value of
  the range is reachable (`NextIntReachable`), which is all the rules need.
 */
module Random {

  datatype Rng = Rng(source: nat -> nat, used: nat)

  /** `nextInt(bound)`: one draw in `[0, bound)`, consuming one element of the stream. */
  function NextInt(rng: Rng, bound: nat): (r: (nat, Rng))
    requires bound > 0
    ensures r.0 < bound
    ensures r.1.source == rng.source && r.1.used == rng.used + 1
  {
    (rng.source(rng.used) % bound, rng.(used := rng.used + 1))
  }

  function Overwrite(f: nat -> nat, at: nat, d: nat): (g: nat -> nat)
    ensures g(at) == d
    ensures forall k :: k != at ==> g(k) == f(k)
  {
    (k: nat) => if k == at then d else f(k)
  }

  /** The generator that agrees with `rng` except that its next draw is `d`. */
  function Forcing(rng: Rng, d: nat): (r: Rng)
    ensures r.used == rng.used && r.source(rng.used) == d
    ensures forall k :: k != rng.used ==> r.source(k) == rng.source(k)
  {
    Rng(Overwrite(rng.source, rng.used, d), rng.used)
  }

  /** Every value of the range can come out of `nextInt`. */
  lemma NextIntReachable(rng: Rng, bound: nat, d: nat)
    requires d < bound
    ensures NextInt(Forcing(rng, d), bound).0 == d
  {
  }
}
