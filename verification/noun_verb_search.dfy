/**
 * star4: the star3 interpreter wrapped as `compute`, and a brute-force
 * search for the inputs ("noun" in cell 1, "verb" in cell 2) that make the
 * program leave a fixed target value in cell 0.
 */
module NounVerbSearch {
  import opened Intcode

  /** The value the search looks for in cell 0. */
  const TARGET: nat := 19690720
  /** Nouns and verbs range over `0..LIMIT`. */
  const LIMIT: nat := 100

  /**
   * `compute`: the interpreter run on a copy of its argument (memory is a
   * value here, so the caller's memory can never change). A halted result
   * is as long as the input.
   */
  function Compute(mem: Memory): (r: Outcome)
    ensures r.Halted? ==> |r.mem| == |mem| && r.pc < |mem| && r.mem[r.pc] == OP_HALT
  {
    Run(mem)
  }

  /** The trial memory: the original with only cells 1 and 2 replaced. */
  function Patch(mem: Memory, noun: nat, verb: nat): (trial: Memory)
    requires |mem| >= 3
    ensures |trial| == |mem| && trial[1] == noun && trial[2] == verb
    ensures forall i :: 0 <= i < |mem| && i != 1 && i != 2 ==> trial[i] == mem[i]
  {
    mem[1 := noun][2 := verb]
  }

  /** What one trial can show. */
  datatype Trial = Match | Miss | Crash(fault: Fault)

  /** Runs one trial: a crash, or whether cell 0 of the final memory is the target. */
  function TryPair(mem: Memory, noun: nat, verb: nat): (t: Trial)
    requires |mem| >= 3
    ensures t == Match <==> Compute(Patch(mem, noun, verb)).Halted? &&
                              Compute(Patch(mem, noun, verb)).mem[0] == TARGET
    ensures t.Crash? <==> Compute(Patch(mem, noun, verb)).Failed?
  {
    match Compute(Patch(mem, noun, verb))
    case Halted(final, _) => if final[0] == TARGET then Match else Miss
    case Failed(f) => Crash(f)
  }

  /**
   * The source reuses one buffer for every trial, so cells 1 and 2 still
   * hold the previous pair when the next is written. That never matters: a
   * trial gives the same result whatever those two cells held before.
   */
  lemma TrialIgnoresSeedCells(mem: Memory, a: nat, b: nat, noun: nat, verb: nat)
    requires |mem| >= 3
    ensures TryPair(Patch(mem, a, b), noun, verb) == TryPair(mem, noun, verb)
  {
    assert Patch(Patch(mem, a, b), noun, verb) == Patch(mem, noun, verb);
  }

  /** Row-major order of the search: noun outer, verb inner. */
  predicate Before(n1: nat, v1: nat, n2: nat, v2: nat)
  {
    n1 < n2 || (n1 == n2 && v1 < v2)
  }

  predicate InRange(noun: nat, verb: nat)
  {
    noun < LIMIT && verb < LIMIT
  }

  /** Every pair in range that comes before `(noun, verb)` misses. */
  ghost predicate AllMissBefore(mem: Memory, noun: nat, verb: nat)
    requires |mem| >= 3
  {
    forall n: nat, v: nat :: InRange(n, v) && Before(n, v, noun, verb) ==> TryPair(mem, n, v) == Miss
  }

  datatype SearchResult = Found(noun: nat, verb: nat) | Exhausted | Crashed(fault: Fault)

  /**
   * The search loop. The first pair in row-major order that matches is
   * reported, with every earlier pair a miss; a crash in any trial aborts
   * the whole search; when every pair misses, nothing is reported. Memory
   * shorter than three cells crashes on the first write of the noun or verb.
   */
  method Search(mem: Memory) returns (r: SearchResult)
    ensures |mem| < 2 ==> r == Crashed(AddressOutOfRange(1))
    ensures |mem| == 2 ==> r == Crashed(AddressOutOfRange(2))
    ensures r.Found? ==> |mem| >= 3 && InRange(r.noun, r.verb) && TryPair(mem, r.noun, r.verb) == Match
                         && AllMissBefore(mem, r.noun, r.verb)
    ensures r.Exhausted? ==> |mem| >= 3 && AllMissBefore(mem, LIMIT, 0)
    ensures r.Crashed? && |mem| >= 3 ==>
              exists n: nat, v: nat :: InRange(n, v) && TryPair(mem, n, v) == Crash(r.fault)
                                       && AllMissBefore(mem, n, v)
  {
    if |mem| < 2 {
      return Crashed(AddressOutOfRange(1));
    }
    if |mem| < 3 {
      return Crashed(AddressOutOfRange(2));
    }
    for noun := 0 to LIMIT
      invariant AllMissBefore(mem, noun, 0)
    {
      for verb := 0 to LIMIT
        invariant AllMissBefore(mem, noun, verb)
      {
        var t := TryPair(mem, noun, verb);
        if t == Match {
          return Found(noun, verb);
        } else if t.Crash? {
          return Crashed(t.fault);
        }
      }
    }
    return Exhausted;
  }

  /** The printed puzzle answer; for a pair in range it lies in 0..9999 and encodes the pair. */
  function Answer(noun: nat, verb: nat): (a: nat)
    ensures InRange(noun, verb) ==> a <= 9999
    ensures InRange(noun, verb) ==> a / LIMIT == noun && a % LIMIT == verb
  {
    LIMIT * noun + verb
  }

  /** Row-major order is the order of the answers. */
  lemma AnswerOrdersPairs(n1: nat, v1: nat, n2: nat, v2: nat)
    requires InRange(n1, v1) && InRange(n2, v2)
    ensures Before(n1, v1, n2, v2) <==> Answer(n1, v1) < Answer(n2, v2)
  {
  }
}
