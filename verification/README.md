# Advent of Code 2019, days 1–3, in Dafny

A model of the pure logic of five small puzzle solvers, with proofs about it:

- **star1** (`FuelSum`): the fuel for a module is `mass / 3 - 2`; the answer is the sum over all modules.
- **star2** (`RecursiveFuel`): fuel has mass too, so fuel is added for the fuel until a generation is zero or negative. The answer sums over the input lines up to the first empty one.
- **star3** (`Intcode`): a machine whose memory holds code and data. Instructions are four cells wide: 1 adds, 2 multiplies, 99 halts, anything else aborts.
- **star4** (`NounVerbSearch`): the star3 machine as `compute`, plus a brute-force search. It looks for the first noun/verb pair (cells 1 and 2) that leaves 19690720 in cell 0.
- **star5** (`CrossedWires`): two wires are laid out as axis-aligned segments. The answer is the Manhattan distance of the closest non-origin crossing.

Shared definitions are in `common.dfy`: the `u16`/`u32`/`i32` ranges and `Option`.
Input lines arrive already parsed: star1 gets masses, star2 gets `Blank | Mass` lines, star3/star4 get a memory, and star5 gets paths of `(direction, steps)` tokens.
Four of the source's panics become explicit failure values: an unknown opcode and an out-of-range index (`Fault`), memory under three cells in the search (`SearchResult.Crashed`), and an unknown path direction (`None`). The star1 `u32` underflow is a precondition instead, and the overflow panics are not modelled; see "## Left out".

## Model

| member | source | states |
|---|---|---|
| FuelSum.ConvertToFuel | star1/src/main.rs:4-6 | for a mass of at least 6 (below that the `u32` subtraction underflows), the fuel is the floor of a third of the mass less two: `3(f+2) <= mass < 3(f+3)` |
| FuelSum.ConvertToFuelMonotone | star1/src/main.rs:4-6 | a heavier module never needs less fuel |
| FuelSum.TotalFuel | star1/src/main.rs:10-14 | over masses of at least 6 each (the `Mass` type), the summed fuel is non-negative, 0 for no input, and bracketed by the total mass: `3(total + 2n) <= Σmass < 3(total + 3n)` for n > 0 modules |
| FuelSum.TotalFuelRemove | star1/src/main.rs:10-14 | taking any one line out of the input takes exactly its fuel out of the total |
| FuelSum.TotalFuelPermutation | star1/src/main.rs:10-14 | the total is the same for any reordering of the input lines |
| RecursiveFuel.TruncDiv3 | star2/src/main.rs:5 | `i32` division by 3 rounds toward zero: the remainder is in 0..2 for non-negative and −2..0 for negative dividends |
| RecursiveFuel.ConvertToFuel | star2/src/main.rs:4-10 | the recursion terminates; the result fits `i32` and is ≥ 0; it is 0 exactly when mass ≤ 8; it is at least the first generation `mass/3 − 2`; it is at most half of a non-negative mass |
| RecursiveFuel.ConvertToFuelUnfolds | star2/src/main.rs:5-9 | when the first generation is positive it is strictly below the mass, and the result is that generation plus the fuel for it |
| RecursiveFuel.MassesBeforeBlank | star2/src/main.rs:14-15 | `take_while`: the masses of the longest run of non-empty lines from the start, ended by the end of input or an empty line |
| RecursiveFuel.SumFuel | star2/src/main.rs:16-19 | the summed fuel is ≥ 0, and 0 exactly when no mass exceeds 8 |
| RecursiveFuel.TotalFuel | star2/src/main.rs:14-19 | the printed total is ≥ 0, and 0 exactly when every mass above 8 comes after some empty line |
| RecursiveFuel.TotalFuelStopsAtBlank | star2/src/main.rs:14-19 | everything from the first empty line on is ignored |
| Intcode.Step | star3/src/main.rs:12-23 | a halt happens exactly on opcode 99; a step happens exactly when the instruction is add/multiply with every index in range; an unknown opcode fails; a pc past the end reports that pc, and an add or multiply fails only with an out-of-range fault, which reports an index the instruction reads or writes. A step keeps the memory length, moves pc by 4, writes sum or product of the two indirect operands to the destination, and changes no other cell |
| Intcode.RunFrom | star3/src/main.rs:11-24 | execution always ends (pc grows by 4, and a pc past the end fails); a halt keeps the memory length and stops on a 99 cell a whole number of instructions after the start |
| Intcode.Run | star3/src/main.rs:9-24 | starting at pc 0, a halted run ends at a multiple of 4, on a 99 cell, with memory of the original length |
| Intcode.HaltLeavesMemory | star3/src/main.rs:14 | a 99 at pc stops at once without touching memory |
| Intcode.StepsAdvance | star3/src/main.rs:11-24 | after n non-stopping steps, pc = start + 4n, still within memory, and the memory length is unchanged |
| Intcode.Terminates | star3/src/main.rs:11-24 | from any memory, the machine has halted or failed within `|mem| + 1` steps |
| Intcode.RunFromSteps | star3/src/main.rs:11-24 | every intermediate state of the small-step semantics leads to the same outcome as the run |
| Intcode.RunFromHaltsIff | star3/src/main.rs:11-24 | a run halts with memory m at p iff some number of steps reaches (m, p) and the instruction there is 99 |
| Intcode.AddExample | star3/src/main.rs:15 | `1,0,0,0,99` ends as `2,0,0,0,99` |
| Intcode.MultiplyExample | star3/src/main.rs:16 | `2,3,0,3,99` ends as `2,3,0,6,99` |
| Intcode.TwoInstructionExample | star3/src/main.rs:11-24 | `1,9,10,3,2,3,11,0,99,30,40,50` ends as `3500,9,10,70,2,3,11,0,99,30,40,50`, halting at 8 |
| Intcode.UnknownOpcodeExample | star3/src/main.rs:17 | opcode 5 aborts with no final memory |
| NounVerbSearch.Compute | star4/src/main.rs:3-23 | the star3 machine run on a copy: a halted result is as long as the input and stops on a 99 |
| NounVerbSearch.Patch | star4/src/main.rs:34-35 | a trial memory is the original with only cells 1 and 2 replaced by noun and verb |
| NounVerbSearch.TrialIgnoresSeedCells | star4/src/main.rs:34-36 | although one buffer is reused across trials, a trial's result does not depend on what cells 1 and 2 held before: it equals the trial on the original memory |
| NounVerbSearch.Search | star4/src/main.rs:32-42 | a reported pair lies in 0..99 × 0..99 and matches, and every pair before it in noun-outer/verb-inner order misses; nothing is reported only when all 10000 pairs miss; a crash is the first non-miss; memory under 3 cells crashes at cell 1 or 2 |
| NounVerbSearch.Answer | star4/src/main.rs:38 | for a pair in range, `100·noun + verb` lies in 0..9999 and gives back noun and verb by division and remainder |
| NounVerbSearch.AnswerOrdersPairs | star4/src/main.rs:32-38 | the search order is exactly the order of the answers |
| CrossedWires.ManhattanDistanceFromOrigin | star5/src/main.rs:10-12 | `x + y` in the first quadrant, ≥ each coordinate's magnitude, 0 only at the origin |
| CrossedWires.ManhattanDistanceReflects | star5/src/main.rs:10-12 | reflecting in either axis keeps the distance, so it is `|x| + |y|` everywhere |
| CrossedWires.IsIn | star5/src/main.rs:33-43 | with the other line's ends ordered by the derived point order, the Domain test is always its x-span, and the Range test is its y-span when both its ends share x |
| CrossedWires.IntersectsWith | star5/src/main.rs:45-60 | lines of the same kind never cross, even when they overlap; a crossing is (vertical's x, horizontal's y), inside the horizontal's x-span, and inside the vertical's y-span when its ends share x |
| CrossedWires.IntersectsWithSymmetric | star5/src/main.rs:45-60 | `a.intersects_with(b) == b.intersects_with(a)` |
| CrossedWires.IntersectsWithIsCommonPoint | star5/src/main.rs:33-60 | for path-shaped segments of different kinds, the result is p exactly when p lies on both |
| CrossedWires.LinesFrom | star5/src/main.rs:80-95 | one segment per token; the first starts at the start point and each later one at the previous end; each end is moved D/U/L/R by the step count; every segment is well-formed (vertical iff x is unchanged); failure iff some direction is not D/U/L/R |
| CrossedWires.NewFromPath | star5/src/main.rs:73-97 | a wire has one segment per token, starting at the origin, and fails iff a direction is unknown |
| CrossedWires.LineCrossings | star5/src/main.rs:110-116 | the inner loop lists p iff p is not the origin and the fixed segment crosses some segment of the other wire at p |
| CrossedWires.Crossings | star5/src/main.rs:105-120 | never contains the origin; contains p iff some pair of segments crosses at p |
| CrossedWires.CrossingsSymmetric | star5/src/main.rs:105-120 | swapping the wires gives the same set of crossings |
| CrossedWires.GetIntersectionPointsWith | star5/src/main.rs:105-120 | the nested loops, first wire outer, build exactly the row-major list of non-origin crossings |
| CrossedWires.FoldMinDistance | star5/src/main.rs:128-130 | the min-fold is ≤ its seed and ≤ every distance, and equals the seed or one of the distances |
| CrossedWires.MinDistance | star5/src/main.rs:128-130 | the least distance over the list, capped at `u32::MAX`, which is also the answer for an empty list |
| CrossedWires.ClosestCrossing | star5/src/main.rs:123-131 | fails iff either path has an unknown direction; otherwise the answer is a lower bound on every crossing's distance and equals one of them or `u32::MAX` |

## Left out

- Reading standard input, splitting on `,`, `trim`, `parse::<u32>/<i32>/<u16>` and every `println!`: inputs arrive already parsed and results are returned. `Wire::new_from_stdin_line` and the trivial `Wire::new` are not modelled.
- Panic messages and process abort: they are modelled as failure values only.
- FuelSum.ConvertToFuel: a mass below 6 is excluded by a precondition, because the `u32` subtraction would underflow and panic (or wrap in a release build). For the same reason `FuelSum.TotalFuel` takes masses of the subset type `Mass` (a `u32` of at least 6).
- FuelSum.TotalFuel: the `u32` overflow of the sum is not modelled; the total is a mathematical integer.
- RecursiveFuel.SumFuel: the `i32` overflow of the sum is not modelled. Each single result is proved to fit `i32`.
- Intcode.Step: cell values are unbounded naturals, so `u32` overflow of the add and multiply is not modelled.
- CrossedWires.ManhattanDistanceFromOrigin: `i32` coordinate overflow, `abs` of `i32::MIN` and the `as u32` cast are not modelled. Coordinates are mathematical integers.
- CrossedWires.LinesFrom: the `i32` coordinate arithmetic of `new_from_path` (star5/src/main.rs:83-86) can overflow, which panics in a debug build; the model uses unbounded coordinates, so it fails only on an unknown direction.
- CrossedWires.NewFromPath: the source panics at the first unknown direction after laying the earlier segments. Nothing is printed either way, so the model returns `None` for the whole path.
- NounVerbSearch.Search: the source writes noun and verb into one shared buffer on every trial. The model builds each trial's memory from the original directly (`Patch`); `TrialIgnoresSeedCells` proves this gives the same trial results. "compute does not modify its argument" holds by construction, because memory is a value.
