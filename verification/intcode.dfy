/**
 * star3: a machine whose flat memory holds both code and data. Every
 * instruction is four cells wide, `[opcode, a, b, dest]`, where `a`, `b`
 * and `dest` are addresses: opcode 1 stores `mem[a] + mem[b]` into
 * `mem[dest]` (that is, `mem[mem[pc+1]] + mem[mem[pc+2]]` into
 * `mem[mem[pc+3]]`), opcode 2 stores their product, opcode 99 halts, and
 * anything else aborts. Cell values are
 * unbounded naturals here (the source's `u32` overflow is not modelled).
 */
module Intcode {
  type Memory = seq<nat>

  const OP_ADD: nat := 1
  const OP_MUL: nat := 2
  const OP_HALT: nat := 99
  /** Every instruction other than halt occupies this many cells. */
  const WIDTH: nat := 4

  /** Why the source panics. */
  datatype Fault = AddressOutOfRange(address: nat) | UnknownOpcode(opcode: nat)

  /** One step: the next machine state, a halt, or a panic. */
  datatype StepResult = Next(mem: Memory, pc: nat) | Stop | Fail(fault: Fault)

  /** A whole run: the final memory and the position of the halt, or a panic. */
  datatype Outcome = Halted(mem: Memory, pc: nat) | Failed(fault: Fault)

  /** The instruction at `pc` is an add or a multiply whose every index is in range. */
  predicate Executable(mem: Memory, pc: nat)
  {
    && pc + 3 < |mem|
    && (mem[pc] == OP_ADD || mem[pc] == OP_MUL)
    && mem[pc + 1] < |mem| && mem[pc + 2] < |mem| && mem[pc + 3] < |mem|
  }

  /**
   * Executes the instruction at `pc`. Indices are checked in the order the
   * source evaluates them: the opcode cell, then (for add and multiply only)
   * the first operand's address and the operand, the second's, and finally
   * the destination's address and the destination. A `pc` past the end
   * reports `pc` itself; an add or multiply fails only with an out-of-range
   * fault, reporting an index the instruction reads or writes (one of its
   * four cells, or an address stored in one).
   */
  function Step(mem: Memory, pc: nat): (r: StepResult)
    ensures pc >= |mem| ==> r == Fail(AddressOutOfRange(pc))
    ensures r.Fail? && pc < |mem| && mem[pc] in {OP_ADD, OP_MUL} ==> r.fault.AddressOutOfRange?
    ensures r.Fail? && r.fault.AddressOutOfRange? ==>
              && r.fault.address >= |mem|
              && (|| r.fault.address in {pc, pc + 1, pc + 2, pc + 3}
                  || exists i :: pc < i <= pc + 3 && i < |mem| && r.fault.address == mem[i])
    ensures r.Stop? <==> pc < |mem| && mem[pc] == OP_HALT
    ensures r.Next? <==> Executable(mem, pc)
    ensures r == Fail(UnknownOpcode(if pc < |mem| then mem[pc] else 0)) <==>
              pc < |mem| && mem[pc] !in {OP_ADD, OP_MUL, OP_HALT}
    ensures r.Next? ==> |r.mem| == |mem| && r.pc == pc + WIDTH
    ensures r.Next? && mem[pc] == OP_ADD ==>
              r.mem[mem[pc + 3]] == mem[mem[pc + 1]] + mem[mem[pc + 2]]
    ensures r.Next? && mem[pc] == OP_MUL ==>
              r.mem[mem[pc + 3]] == mem[mem[pc + 1]] * mem[mem[pc + 2]]
    ensures r.Next? ==> forall i :: 0 <= i < |mem| && i != mem[pc + 3] ==> r.mem[i] == mem[i]
  {
    if pc >= |mem| then Fail(AddressOutOfRange(pc))
    else
      var opcode := mem[pc];
      if opcode == OP_HALT then Stop
      else if opcode != OP_ADD && opcode != OP_MUL then Fail(UnknownOpcode(opcode))
      else if pc + 1 >= |mem| then Fail(AddressOutOfRange(pc + 1))
      else if mem[pc + 1] >= |mem| then Fail(AddressOutOfRange(mem[pc + 1]))
      else if pc + 2 >= |mem| then Fail(AddressOutOfRange(pc + 2))
      else if mem[pc + 2] >= |mem| then Fail(AddressOutOfRange(mem[pc + 2]))
      else if pc + 3 >= |mem| then Fail(AddressOutOfRange(pc + 3))
      else if mem[pc + 3] >= |mem| then Fail(AddressOutOfRange(mem[pc + 3]))
      else
        var a := mem[mem[pc + 1]];
        var b := mem[mem[pc + 2]];
        Next(mem[mem[pc + 3] := if opcode == OP_ADD then a + b else a * b], pc + WIDTH)
  }

  /**
   * Runs from `pc` until a halt or a panic. It always ends: each step moves
   * `pc` forward by four and a `pc` past the end of memory panics. A halt
   * leaves memory as long as it started, stops on a 99 cell, and is reached
   * a whole number of instructions after `pc`.
   */
  function RunFrom(mem: Memory, pc: nat): (r: Outcome)
    ensures r.Halted? ==> |r.mem| == |mem| && r.pc >= pc && (r.pc - pc) % WIDTH == 0
    ensures r.Halted? ==> r.pc < |r.mem| && r.mem[r.pc] == OP_HALT
    decreases |mem| - pc
  {
    match Step(mem, pc)
    case Stop => Halted(mem, pc)
    case Fail(f) => Failed(f)
    case Next(mem', pc') => RunFrom(mem', pc')
  }

  /** The program as the source runs it: from position 0. */
  function Run(mem: Memory): (r: Outcome)
    ensures r.Halted? ==> |r.mem| == |mem| && r.pc % WIDTH == 0
    ensures r.Halted? ==> r.pc < |r.mem| && r.mem[r.pc] == OP_HALT
  {
    RunFrom(mem, 0)
  }

  /** A halt at `pc` ends the run at once with memory untouched. */
  lemma HaltLeavesMemory(mem: Memory, pc: nat)
    requires pc < |mem| && mem[pc] == OP_HALT
    ensures RunFrom(mem, pc) == Halted(mem, pc)
  {
  }

  /** `n` steps of the machine, an independent small-step account of execution. */
  function Steps(mem: Memory, pc: nat, n: nat): StepResult
    decreases n
  {
    if n == 0 then Next(mem, pc)
    else match Step(mem, pc)
      case Next(mem', pc') => Steps(mem', pc', n - 1)
      case other => other
  }

  /** After `n` steps that did not stop, `pc` has moved by `4n`, stayed in memory, and memory kept its length. */
  lemma {:induction false} StepsAdvance(mem: Memory, pc: nat, n: nat)
    requires Steps(mem, pc, n).Next?
    ensures Steps(mem, pc, n).pc == pc + WIDTH * n
    ensures |Steps(mem, pc, n).mem| == |mem|
    ensures n > 0 ==> pc + WIDTH * n <= |mem|
    decreases n
  {
    if n > 0 {
      var s := Step(mem, pc);
      StepsAdvance(s.mem, s.pc, n - 1);
    }
  }

  /** Execution ends within `|mem| + 1` steps of its start, whatever the memory holds. */
  lemma Terminates(mem: Memory)
    ensures !Steps(mem, 0, |mem| + 1).Next?
  {
    if Steps(mem, 0, |mem| + 1).Next? {
      StepsAdvance(mem, 0, |mem| + 1);
    }
  }

  /** Running is the limit of stepping: any intermediate state leads to the same outcome. */
  lemma {:induction false} RunFromSteps(mem: Memory, pc: nat, n: nat)
    requires Steps(mem, pc, n).Next?
    ensures RunFrom(mem, pc) == RunFrom(Steps(mem, pc, n).mem, Steps(mem, pc, n).pc)
    decreases n
  {
    if n > 0 {
      var s := Step(mem, pc);
      RunFromSteps(s.mem, s.pc, n - 1);
    }
  }

  /**
   * A run halts with memory `m` at `p` exactly when some number of steps
   * reaches state `(m, p)` and the instruction there is a halt.
   */
  lemma {:induction false} RunFromHaltsIff(mem: Memory, pc: nat, m: Memory, p: nat)
    ensures RunFrom(mem, pc) == Halted(m, p) <==>
              exists n: nat :: Steps(mem, pc, n) == Next(m, p) && Step(m, p) == Stop
    decreases |mem| - pc
  {
    if RunFrom(mem, pc) == Halted(m, p) {
      match Step(mem, pc)
      case Stop =>
        assert Steps(mem, pc, 0) == Next(m, p);
      case Next(mem', pc') =>
        RunFromHaltsIff(mem', pc', m, p);
        var n: nat :| Steps(mem', pc', n) == Next(m, p) && Step(m, p) == Stop;
        assert Steps(mem, pc, n + 1) == Next(m, p);
    }
    if exists n: nat :: Steps(mem, pc, n) == Next(m, p) && Step(m, p) == Stop {
      var n: nat :| Steps(mem, pc, n) == Next(m, p) && Step(m, p) == Stop;
      RunFromSteps(mem, pc, n);
    }
  }

  /** One add whose operands both point at cell 0, then a halt. */
  lemma AddExample()
    ensures Run([1, 0, 0, 0, 99]) == Halted([2, 0, 0, 0, 99], 4)
  {
  }

  /** One multiply into cell 3, then a halt. */
  lemma MultiplyExample()
    ensures Run([2, 3, 0, 3, 99]) == Halted([2, 3, 0, 6, 99], 4)
  {
  }

  /** An add and a multiply that rewrites cell 0, then a halt at position 8. */
  lemma TwoInstructionExample()
    ensures Run([1, 9, 10, 3, 2, 3, 11, 0, 99, 30, 40, 50])
            == Halted([3500, 9, 10, 70, 2, 3, 11, 0, 99, 30, 40, 50], 8)
  {
  }

  /** An unknown opcode aborts without a final memory. */
  lemma UnknownOpcodeExample()
    ensures Run([5, 0, 0, 0, 99]) == Failed(UnknownOpcode(5))
  {
  }
}
