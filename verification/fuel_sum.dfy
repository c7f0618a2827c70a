/**
 * star1: each module needs a third of its mass, rounded down, less two
 * units of fuel; the answer is the total over all modules.
 */
module FuelSum {
  import opened MachineInts

  /**
   * Fuel for one module. The source subtracts in `u32`, which underflows
   * below a mass of 6, so the model asks for at least that much.
   */
  function ConvertToFuel(mass: u32): (fuel: u32)
    requires mass >= 6
    ensures 3 * (fuel + 2) <= mass < 3 * (fuel + 3)
  {
    mass / 3 - 2
  }

  /** Heavier modules never need less fuel. */
  lemma ConvertToFuelMonotone(a: u32, b: u32)
    requires 6 <= a <= b
    ensures ConvertToFuel(a) <= ConvertToFuel(b)
  {
  }

  /** The plain sum of a sequence of masses. */
  function Sum(xs: seq<int>): int
  {
    if |xs| == 0 then 0 else xs[0] + Sum(xs[1..])
  }

  /** A `u32` mass heavy enough for `ConvertToFuel`. */
  type Mass = m: u32 | m >= 6 witness 6

  /**
   * The printed total: `convert_to_fuel` summed over every mass. It is at
   * most a third of the total mass less two per module, and more than a
   * third of it less three per module; over no modules it is 0.
   */
  function TotalFuel(masses: seq<Mass>): (total: int)
    ensures total >= 0
    ensures |masses| == 0 ==> total == 0
    ensures 3 * (total + 2 * |masses|) <= Sum(masses)
    ensures |masses| > 0 ==> Sum(masses) < 3 * (total + 3 * |masses|)
  {
    if |masses| == 0 then 0 else ConvertToFuel(masses[0]) + TotalFuel(masses[1..])
  }

  /** Taking one mass out of the middle of the input takes out exactly its fuel. */
  lemma {:induction false} TotalFuelRemove(masses: seq<Mass>, k: nat)
    requires k < |masses|
    ensures TotalFuel(masses) == ConvertToFuel(masses[k]) + TotalFuel(masses[..k] + masses[k + 1..])
  {
    var rest := masses[..k] + masses[k + 1..];
    if k == 0 {
      assert rest == masses[1..];
    } else {
      var tail := masses[1..];
      TotalFuelRemove(tail, k - 1);
      assert tail[k - 1] == masses[k];
      assert rest == [masses[0]] + (tail[..k - 1] + tail[k..]);
      assert rest[1..] == tail[..k - 1] + tail[k..];
    }
  }

  /** Removing position `k` removes one occurrence of its element. */
  lemma MultisetRemove<T>(ys: seq<T>, k: nat)
    requires k < |ys|
    ensures multiset(ys[..k] + ys[k + 1..]) == multiset(ys) - multiset{ys[k]}
  {
    assert ys == ys[..k] + [ys[k]] + ys[k + 1..];
  }

  /**
   * The first element of `xs` sits at some position `k` of its permutation
   * `ys`; the rests are permutations of each other.
   */
  lemma MatchFirst<T>(xs: seq<T>, ys: seq<T>) returns (k: nat)
    requires |xs| > 0 && multiset(xs) == multiset(ys)
    ensures k < |ys| && ys[k] == xs[0]
    ensures multiset(xs[1..]) == multiset(ys[..k] + ys[k + 1..])
  {
    assert xs[0] in multiset(ys);
    k :| 0 <= k < |ys| && ys[k] == xs[0];
    MultisetRemove(ys, k);
    calc {
      multiset(xs[1..]);
      { assert xs == [xs[0]] + xs[1..]; }
      multiset(xs) - multiset{xs[0]};
    }
  }

  /** The total does not depend on the order of the input lines. */
  lemma {:induction false} TotalFuelPermutation(xs: seq<Mass>, ys: seq<Mass>)
    requires multiset(xs) == multiset(ys)
    ensures TotalFuel(xs) == TotalFuel(ys)
  {
    if |xs| > 0 {
      var k := MatchFirst(xs, ys);
      TotalFuelRemove(ys, k);
      TotalFuelPermutation(xs[1..], ys[..k] + ys[k + 1..]);
    }
  }
}
