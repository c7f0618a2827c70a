/**
 * star2: fuel has mass too, so the fuel for a module is the first
 * generation of fuel plus the fuel for that fuel, and so on until a
 * generation would be zero or negative. Masses are `i32`.
 */
module RecursiveFuel {
  import opened MachineInts

  /**
   * Rust's integer `/` by 3, which rounds toward zero (Dafny's `/` rounds
   * toward negative infinity for negative operands).
   */
  function TruncDiv3(a: int): (q: int)
    ensures a >= 0 ==> 0 <= a - 3 * q < 3
    ensures a < 0 ==> -3 < a - 3 * q <= 0
  {
    if a >= 0 then a / 3 else -((-a) / 3)
  }

  /** The first generation of fuel, `mass / 3 - 2`, which may be negative. */
  function FirstGeneration(mass: i32): int
  {
    TruncDiv3(mass) - 2
  }

  /**
   * Total fuel for a module of the given mass, counting the fuel for the
   * fuel. It is never negative, it is zero exactly for masses up to 8, it is
   * at least the first generation, and at most half of a non-negative mass
   * (a negative mass needs none); so the recursion never overflows `i32`.
   */
  function ConvertToFuel(mass: i32): (fuel: i32)
    ensures fuel >= 0
    ensures fuel == 0 <==> mass <= 8
    ensures fuel >= FirstGeneration(mass)
    ensures mass >= 0 ==> 2 * fuel <= mass
    decreases mass
  {
    var first := FirstGeneration(mass);
    if first <= 0 then 0 else first + ConvertToFuel(first)
  }

  /** Once the first generation is positive, the result is that generation plus its own fuel. */
  lemma ConvertToFuelUnfolds(mass: i32)
    requires FirstGeneration(mass) > 0
    ensures 0 < FirstGeneration(mass) < mass
    ensures ConvertToFuel(mass) == FirstGeneration(mass) + ConvertToFuel(FirstGeneration(mass))
  {
  }

  /** A line of input: an empty line, or one holding a mass. */
  datatype InputLine = Blank | Mass(value: i32)

  /** The masses on the lines before the first empty line (the source's `take_while`). */
  function MassesBeforeBlank(lines: seq<InputLine>): (masses: seq<i32>)
    ensures |masses| <= |lines|
    ensures forall i :: 0 <= i < |masses| ==> lines[i] == Mass(masses[i])
    ensures |masses| == |lines| || lines[|masses|] == Blank
  {
    if |lines| == 0 || lines[0] == Blank then []
    else [lines[0].value] + MassesBeforeBlank(lines[1..])
  }

  /** Fuel summed over a sequence of masses: zero exactly when no mass exceeds 8. */
  function SumFuel(masses: seq<i32>): (total: int)
    ensures total >= 0
    ensures total == 0 <==> forall i :: 0 <= i < |masses| ==> masses[i] <= 8
  {
    if |masses| == 0 then 0 else ConvertToFuel(masses[0]) + SumFuel(masses[1..])
  }

  /**
   * The printed answer: fuel summed over the masses before the first empty
   * line. It is never negative, and it is zero exactly when every mass
   * above 8 comes after some empty line.
   */
  function TotalFuel(lines: seq<InputLine>): (total: int)
    ensures total >= 0
    ensures total == 0 <==>
              forall i :: 0 <= i < |lines| && lines[i].Mass? && lines[i].value > 8 ==>
                exists j :: 0 <= j < i && lines[j] == Blank
  {
    SumFuel(MassesBeforeBlank(lines))
  }

  /** Everything from the first empty line on is ignored. */
  lemma {:induction false} TotalFuelStopsAtBlank(before: seq<InputLine>, after: seq<InputLine>)
    requires forall i :: 0 <= i < |before| ==> before[i] != Blank
    ensures TotalFuel(before + [Blank] + after) == TotalFuel(before)
    ensures MassesBeforeBlank(before + [Blank] + after) == MassesBeforeBlank(before)
  {
    if |before| == 0 {
      assert (before + [Blank] + after)[0] == Blank;
    } else {
      var lines := before + [Blank] + after;
      assert lines[0] == before[0];
      assert lines[1..] == before[1..] + [Blank] + after;
      TotalFuelStopsAtBlank(before[1..], after);
    }
  }
}
