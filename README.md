# hilbertpiet in Dafny

hilbertpiet compiles a string into a Piet program whose codels follow a Hilbert-curve path.
This project models its core and proves properties of the model:

- **The execution model**:
  - a context holding a stack, a value register, a position, a direction pointer (dp) and an output;
  - twelve primitive operations on it;
  - macros that apply their children in order, flatten to primitives and add up their sizes;
  - the size-setter `Resize`;
  - the older `piet` context and operations.
- **Number trees**, which push a number with few codels: their value, cost, op expansion and infix rendering. Also the table lookup of `PushNumber`.
- **The optimizer** (`PushNumberOptimizer`): a local search that replaces an entry of the number table only by a strictly cheaper tree with the same value.
- **The path pipeline**:
  - the Hilbert curve II L-system and the stretching of runs of forwards;
  - the U-turn and no-op macros;
  - the tokenizer that turns a path into an Init token, U-turn tokens and slots;
  - the packer that lays a program's ops into those slots.
- **The program runner**, which records, for each coordinate, the colour change accumulated up to the primitive that starts there.
- **Colours**: normalisation, names and `#RRGGBB` codes.

**Encodings.**
- Positions are integer pairs.
- dp is an index 0..3 into East, South, West, North. One step clockwise is a multiplication by `1j`, because the imaginary axis points south.
- Errors that Python raises are `Err` values of a `Result`. An operation that mutates an object in place is a method of a class, proved against a function over the object's fields. This covers `Context.update_position`/`rotate_dp`, `Op.__call__`, `Macro.__call__`, `Program.run`, the optimizer's sweeps and the path loops.

**Where the model follows the code rather than the docstrings:**
- `generate_path(k)` with k <= 0 returns the axiom "X", not an empty path.
- `_stretch_path` stretches every run of forwards whose length is not 1, lengths 0 and 2 included, to 5n + 2. Its docstring says runs longer than 2.
- Python `//` is floor division for either sign of the divisor (`Ops.FloorDiv`). Dafny's `/` is Euclidean.

## Model

| member | source | states |
|---|---|---|
| Contexts.DirOf | hilbertpiet/context.py:25 | a complex dp value denotes a direction exactly when it is one of 1, 1j, -1, -1j, and that direction's unit is the value |
| Contexts.Make | hilbertpiet/context.py:28-39 | the constructor fails with InvalidDp exactly for a dp other than the four units; otherwise it keeps every field it is given |
| Contexts.DefaultIsMake | hilbertpiet/context.py:28-39 | `Context()` passes the dp check: empty stack, value 0, origin, dp East, empty output |
| Contexts.MoveIsScaledUnit | hilbertpiet/context.py:41-45 | the per-direction move is `position + steps * dp` |
| Contexts.MoveAdds | hilbertpiet/context.py:41-45 | moving a steps then b steps is moving a + b steps |
| Contexts.UpdatePositionAdds | hilbertpiet/context.py:41-45 | two position updates add up, and an update changes nothing but the position |
| Contexts.RotateIsComplexPower | hilbertpiet/context.py:47-51 | the index rotation agrees with `dp * 1j ** k` for every k >= 0 |
| Contexts.QuarterTurnIsRotate | hilbertpiet/context.py:47-51 | one quarter turn of a unit vector is the unit of the next direction clockwise |
| Contexts.RotateNegative | hilbertpiet/context.py:47-51 | a negative k turns anticlockwise: -k quarter turns are (4 - k mod 4) mod 4 clockwise ones |
| Contexts.RotateInverse | hilbertpiet/context.py:47-51 | turning k then -k restores dp; four quarter turns are the identity; k + 4 turns are k turns |
| Contexts.Context.New | hilbertpiet/context.py:28-39 | a fresh context holding the given fields, or InvalidDp exactly when `Make` rejects the dp |
| Contexts.Context.UpdatePosition | hilbertpiet/context.py:41-45 | the new state is the old one moved `steps` along dp |
| Contexts.Context.RotateDp | hilbertpiet/context.py:47-51 | the new state is the old one with dp turned `steps` quarter turns |
| Contexts.Context.Equals | hilbertpiet/context.py:6-23 | dataclass equality: equal exactly when all five fields are |
| Ops.FloorDivIsFloor | hilbertpiet/ops.py:206 | `//` rounds toward minus infinity for both signs of the divisor |
| Ops.BinaryResult | hilbertpiet/ops.py:155-210 | `a op b` fails, with ZeroDivision, exactly for Divide by 0 |
| Ops.Apply | hilbertpiet/ops.py:14-25 | `op(context)`: fails exactly when the transform does; value 1 after every op but Extend; the position moves `size` along the dp left by the transform; dp kept unless Pointer; output kept unless OutNumber/OutChar |
| Ops.InitSpec | hilbertpiet/ops.py:61-76 | Init raises NonEmptyContext unless the context equals `Context()`, and then leaves value 1 one codel east |
| Ops.ExtendSpec | hilbertpiet/ops.py:80-95 | Extend adds 1 to value, keeps it and moves one codel |
| Ops.PushSpec | hilbertpiet/ops.py:99-113 | Push fails exactly on value <= 0 (NonPositivePush), otherwise appends value |
| Ops.PopSpec | hilbertpiet/ops.py:117-128 | Pop fails exactly on an empty stack (EmptyStack), otherwise removes the top |
| Ops.DuplicateSpec | hilbertpiet/ops.py:132-144 | Duplicate fails exactly on an empty stack, otherwise leaves the top twice |
| Ops.BinarySpec | hilbertpiet/ops.py:148-210 | with b on top of a, a binary op replaces both by `a op b`, failing only for Divide by 0 |
| Ops.BinaryUnderflow | hilbertpiet/ops.py:155-160 | a binary op on fewer than two elements fails with EmptyStack |
| Ops.PointerSpec | hilbertpiet/ops.py:214-226 | Pointer pops k, turns dp k quarter turns and moves one codel along the new dp |
| Ops.OutNumberSpec | hilbertpiet/ops.py:230-241 | OutNumber pops x and appends its decimal text and a space, and that text reads back as x |
| Ops.OutCharSpec | hilbertpiet/ops.py:245-256 | OutChar pops x and appends it as one character; it fails (InvalidChar) exactly when x is not a code point |
| Ops.CallTransform | hilbertpiet/ops.py:28-32 | `_call` on a mutable context: passes exactly when the transform succeeds and leaves its result; otherwise reports its error |
| Ops.Call | hilbertpiet/ops.py:14-25 | `__call__` on a mutable context leaves exactly the state `Apply` gives, or reports its error |
| Macros.MakeResize | hilbertpiet/macros.py:56-59 | `Resize(v)` raises InvalidResize exactly for v <= 1 |
| Macros.ResizeSpec | hilbertpiet/macros.py:45-69 | Resize fails with NonUnitValue exactly when value is not 1; from value 1 it leaves value v, v - 1 codels on; its size is v - 1 and it expands to v - 1 Extends |
| Macros.SizeIsExpandedLength | hilbertpiet/macros.py:35-37 | a macro's size is the number of primitives it expands to |
| Macros.SizeSeqIsExpandedLength | hilbertpiet/macros.py:35-37 | the sizes of a list of children add up to the length of their expansion |
| Macros.ExpandedSeqAppend | hilbertpiet/macros.py:20-33 | expanding a concatenation expands each part in order |
| Macros.RunOpsAppend | hilbertpiet/macros.py:15-18 | running a concatenation of primitives runs the first part, then the second from where it stopped |
| Macros.CallSeqAppend | hilbertpiet/macros.py:15-18 | calling a concatenation of children calls the first part, then the second on its result |
| Macros.RunExtends | hilbertpiet/ops.py:89-91 | k Extends add k to value and move k codels |
| Macros.CallAgreesWithExpansion | hilbertpiet/macros.py:15-33 | a successful call equals running its expanded primitives; a failing call fails on a guard or as the expansion does |
| Macros.CallSeqAgreesWithExpansion | hilbertpiet/macros.py:15-33 | the same for a list of children |
| Macros.NestedExpansionExample | tests/test_macros.py:65-70 | the nested macro of the tests expands to C, A, B, C, B and its size is 5 |
| Macros.ExpandedOps | hilbertpiet/macros.py:20-33 | the loop over the children builds exactly the depth-first expansion |
| Macros.Execute | hilbertpiet/macros.py:15-18 | a macro called on a mutable context leaves exactly the state `Call` gives, or reports its error |
| Numbers.Combine | piet/numbers.py:159-161 | a node's n is its operator applied to its children's n; it fails exactly for `//` by 0, and, by this model's choice, for a negative exponent, which the source turns into a float |
| Numbers.TreeCodeDefined | piet/numbers.py:133-135 | a tree's ops can be built exactly when no leaf is below 1; otherwise the error is InvalidResize |
| Numbers.CostIsFormula | piet/numbers.py:83-88 | cost: a leaf costs n; +, -, *, // cost left + right + 1; ** costs left + 2·max(right.n - 1, 0) |
| Numbers.LeafSize | piet/numbers.py:133-135 | a leaf of n >= 1 takes n codels |
| Numbers.LeafCodeAsWritten | piet/numbers.py:133-135 | the leaf as written, `[Resize(n), Push()]`, fails exactly for n <= 1 |
| Numbers.LeafAsWrittenAgrees | piet/numbers.py:133-135 | from 2 on, the leaf as written is the modelled leaf |
| Numbers.LeafOneAsWritten | piet/numbers.py:133-135 | the leaf of 1 as written raises, whereas the modelled one costs 1 and pushes 1 |
| Numbers.PowZeroPushesBase | piet/numbers.py:241-246 | a power node with exponent 0 has n = 1 but its ops are its base alone, so it pushes the base's n |
| Numbers.RunPushesValue | piet/numbers.py:190-246 | run from value 1, every well-formed tree pushes exactly its n, moves `cost` codels and ends at value 1 |
| Numbers.RunLeaf | piet/numbers.py:133-135 | a leaf of n pushes n with n codels |
| Numbers.CombineIsBinaryResult | piet/numbers.py:185-234 | the value of a +, -, *, // node is what the matching binary op computes |
| Numbers.RunArith | piet/numbers.py:185-234 | a +, -, *, // node pushes left, then right, then applies its op |
| Numbers.RunPow | piet/numbers.py:237-250 | a ** node pushes left.n, duplicates it k - 1 times and multiplies k - 1 times, giving left.n ** k |
| Numbers.PowerChain | piet/numbers.py:241-246 | k - 1 Duplicates then k - 1 Multiplies turn a into a ** k |
| Numbers.Duplicates | piet/numbers.py:241-246 | m Duplicates leave m more copies of the top |
| Numbers.Multiplications | piet/numbers.py:241-246 | m Multiplies on m copies of a fold them into the top value |
| Numbers.RenderSumProductExamples | tests/test_numbers.py:24-35 | '16 + 4', '16 - 4' and '16 * 4' |
| Numbers.RenderDivPowExamples | tests/test_numbers.py:24-35 | '20 // 3' and '3 ** 4' |
| Numbers.RenderParenthesisRule | piet/numbers.py:168-177 | for every node, each operand is parenthesised exactly when its precedence is at most the node's; leaves never are, same-level right children always are |
| Numbers.RenderParenthesesExamples | piet/numbers.py:168-177 | three nested trees render with the parentheses that rule gives: '7 - (3 - 1)', '(2 + 3) * 4', '2 * 3 + 4' |
| Numbers.ValueAndCostExamples | tests/test_numbers.py:9-49 | the n and the cost of the tests' trees, and leaves costing their n |
| Numbers.PushNumberSpec | piet/numbers.py:37-53 | with a table whose entries have their key as value, `PushNumber(n)` costs its tree's cost and pushes n |
| Optimizer.ISqrt | hilbertpiet/cli/optimize_numbers.py:49-52 | the integer square root bounding the pow sweep: r * r <= n < (r + 1)^2 |
| Optimizer.ILog | hilbertpiet/cli/optimize_numbers.py:49-52 | the integer logarithm bounding an exponent: b^e <= n < b^(e + 1) |
| Optimizer.Leaves | hilbertpiet/cli/optimize_numbers.py:25-27 | the initial table holds, for each n in 1..max, a tree whose value is n |
| Optimizer.LeavesTotal | hilbertpiet/cli/optimize_numbers.py:25-27 | each initial entry costs n, so the total is max(max + 1)/2 |
| Optimizer.InRangeCanStep | hilbertpiet/cli/optimize_numbers.py:29-52 | on a valid table every lookup of a visited pair succeeds |
| Optimizer.PairInRange | hilbertpiet/cli/optimize_numbers.py:29-52 | every pair the sweep loops visit has op(i, j) in 1..max |
| Optimizer.CandidateWellFormed | hilbertpiet/cli/optimize_numbers.py:54-61 | the candidate tree of a visited pair has op(i, j) as value |
| Optimizer.CandidateCost | hilbertpiet/cli/optimize_numbers.py:57-58 | the candidate costs cost(i) + cost(j) + 1, or cost(i) + 2(j - 1) for ** |
| Optimizer.StepSpec | hilbertpiet/cli/optimize_numbers.py:54-61 | `_step` keeps every entry's value equal to its key and no cost rises; it touches only op(i, j), and changes the table exactly when the candidate is strictly cheaper, putting the candidate there |
| Optimizer.StepLowersTotal | hilbertpiet/cli/optimize_numbers.py:54-68 | a step that changes the table strictly lowers the total cost |
| Optimizer.StepRowSpec | hilbertpiet/cli/optimize_numbers.py:29-52 | a row of steps keeps the table valid and raises no cost |
| Optimizer.StepRowsSpec | hilbertpiet/cli/optimize_numbers.py:29-52 | a sweep keeps the table valid and raises no cost |
| Optimizer.ScheduleSpec | hilbertpiet/cli/optimize_numbers.py:101-107 | any schedule of sweeps keeps the table valid, raises no entry's cost and does not increase the total |
| Optimizer.SumCostsMonotone | hilbertpiet/cli/optimize_numbers.py:63-68 | a table no entry of which is costlier has no larger total |
| Optimizer.NoCostlierTransitive | hilbertpiet/cli/optimize_numbers.py:54-61 | "no entry costlier" composes over successive steps |
| Optimizer.PushNumberOptimizer.constructor | hilbertpiet/cli/optimize_numbers.py:25-27 | every number 1..max starts as a leaf |
| Optimizer.PushNumberOptimizer.Step | hilbertpiet/cli/optimize_numbers.py:54-61 | the table becomes the stepped table and stays valid |
| Optimizer.PushNumberOptimizer.SweepRow | hilbertpiet/cli/optimize_numbers.py:29-52 | the inner loop steps over one row |
| Optimizer.PushNumberOptimizer.Sweep | hilbertpiet/cli/optimize_numbers.py:29-52 | the nested loops leave the swept table; the pow sweep fails (MathDomain) exactly for a negative max |
| Optimizer.PushNumberOptimizer.OptimizeAdd | hilbertpiet/cli/optimize_numbers.py:29-32 | `_optimize_add` leaves the add-swept table |
| Optimizer.PushNumberOptimizer.OptimizeSub | hilbertpiet/cli/optimize_numbers.py:34-37 | `_optimize_sub` leaves the sub-swept table |
| Optimizer.PushNumberOptimizer.OptimizeMult | hilbertpiet/cli/optimize_numbers.py:39-42 | `_optimize_mult` leaves the mult-swept table |
| Optimizer.PushNumberOptimizer.OptimizeDiv | hilbertpiet/cli/optimize_numbers.py:44-47 | `_optimize_div` leaves the div-swept table |
| Optimizer.PushNumberOptimizer.OptimizePow | hilbertpiet/cli/optimize_numbers.py:49-52 | `_optimize_pow` leaves the pow-swept table, failing only for a negative max |
| Optimizer.RunSchedule | hilbertpiet/cli/optimize_numbers.py:101-107 | the schedule pow, mult, div, add, sub run twice leaves the table of `SweptAll` |
| Optimizer.RunSweeps | hilbertpiet/cli/optimize_numbers.py:101-107 | running a list of sweeps in turn leaves the table of `SweptAll` |
| Curve.RewriteSpec | piet/path.py:12-19 | a rewrite keeps the alphabet and grows the path by 20 per X or Y, each rule having 21 symbols |
| Curve.RewriteAppend | piet/path.py:19 | the rewrite works symbol by symbol |
| Curve.IterateInAlphabet | piet/path.py:18-19 | any number of rewrites of "X" stays within X, Y, F, + and - |
| Curve.EraseLeavesInstructions | piet/path.py:21 | after erasing X and Y only F, + and - remain |
| Curve.GeneratedSpec | piet/path.py:1-23 | `generate_path(k)` is "X" for k <= 0 and otherwise a path of instructions only |
| Curve.GeneratePath | piet/path.py:1-23 | the loop computes `Generated(k)` |
| Curve.Forwards | piet/path.py:38 | a stretched run is made of forwards only |
| Curve.Stretch | piet/path.py:26-45 | the scanning loop computes `Stretched` |
| Curve.StretchPath | piet/path.py:26-45 | `stretch_path(path, factor)` computes the run-by-run stretching by factor |
| Curve.StretchKeepsTurns | piet/path.py:31-45 | stretching keeps every non-F character, in order |
| Curve.StretchKeepsInstructions | piet/path.py:31-45 | stretching a path of instructions gives a path of instructions |
| Curve.StretchByOne | piet/path.py:38 | with factor 1 every run is kept as it is |
| Curve.StretchOneRun | piet/path.py:36-40 | a run of n forwards followed by a turn becomes the stretched run, then the turn |
| Curve.StretchExamples | piet/path.py:38 | "F+FF" with factor 3 is "F+FFFFFF"; a zero-length run adds nothing |
| PathMacros.UTurnSpec | hilbertpiet/path.py:11-76 | a U-turn takes 6 codels clockwise and 8 anticlockwise; it fails (NonUnitValue) exactly when value is not 1; from value 1 it keeps the stack and value, reverses dp and moves setup + 2 sideways - 1 back |
| PathMacros.UTurnClockwise | hilbertpiet/path.py:51-62 | the clockwise U-turn from value 1 ends as `AfterUTurn` says |
| PathMacros.UTurnAnticlockwise | hilbertpiet/path.py:65-76 | the anticlockwise U-turn from value 1 ends as `AfterUTurn` says |
| PathMacros.TurnCodesSpec | hilbertpiet/path.py:40-48 | push, two copies and the two turns of a U-turn leave the stack as it was |
| PathMacros.HalfTurns | hilbertpiet/path.py:40-48 | two equal quarter turns reverse dp |
| PathMacros.MakeNoOp | hilbertpiet/path.py:90-93 | `NoOp(L)` raises InvalidNoOpLength exactly for L <= 1 |
| PathMacros.NoOpSpec | hilbertpiet/path.py:79-113 | `NoOp(L)` takes exactly L codels; it fails exactly when value is not 1; from value 1 it moves L codels and changes nothing else |
| PathMacros.NoOpRun | hilbertpiet/path.py:102-113 | the no-op's ops from value 1 only move the position by L |
| PathMacros.DupAddsSpec | hilbertpiet/path.py:102-113 | n Duplicate/Add pairs double the top n times in 2n codels |
| PathMacros.NoOpExamples | tests/test_path.py:58-76 | the ops of the no-ops of length 2, 3 and 5 |
| PathTokens.GeneratePath | hilbertpiet/path.py:139-161 | `generate_path(k)` is the curve after k rewrites, stretched to 5n + 2, or "X" for k <= 0 |
| PathTokens.GeneratedPathSpec | hilbertpiet/path.py:139-161 | the generated path is "X" for k <= 0 and a path of instructions otherwise |
| PathTokens.TokenOf | hilbertpiet/path.py:208-226 | a piece is a letter, or a slot of its length made only of forwards and not of length 1; anything else fails |
| PathTokens.TokensSpec | hilbertpiet/path.py:208-226 | the conversion fails exactly when some piece does; otherwise it gives one token per piece, and no slot of 1 |
| PathTokens.TokensError | hilbertpiet/path.py:208-226 | a failing conversion reports IllFormedPath or SingleForward |
| PathTokens.UTurnTokensSpec | hilbertpiet/path.py:164-226 | `map_path_u_turns` starts with the Init token and gives no slot of one codel (on any string; a path that already holds spaces can give an empty slot of 0, as `split` does, and paths of instructions are bounded by PathTokens.UTurnSlotsAtLeastTwo); its other failures are an unresolved turn, an ill-formed piece or a single forward |
| PathTokens.UTurnSlotsAtLeastTwo | hilbertpiet/path.py:181-224 | for a path of F, + and - only, every slot of a successful conversion holds at least 2 codels: the inserted `"I "`, `" C "` and `" A "` never leave three spaces in a row, so halving double spaces leaves no empty piece |
| PathTokens.GeneratedSlotsAtLeastTwo | hilbertpiet/path.py:139-224 | every slot of a generated path holds at least 2 codels; for k <= 0 the path "X" gives Init alone |
| PathTokens.UTurnInitOnlyFirst | hilbertpiet/path.py:181-224 | for a path of F, + and - only, the Init token of a successful conversion is its first token and no other |
| PathTokens.InitFirstHalving | hilbertpiet/path.py:209 | collapsing double spaces keeps the leading Init piece |
| PathTokens.InitFirstStrip | hilbertpiet/path.py:197-210 | stripping keeps the leading Init piece |
| PathTokens.MapPathUTurns | hilbertpiet/path.py:164-226 | the method computes `UTurnTokens` |
| PathTokens.ConvertPieces | hilbertpiet/path.py:208-226 | the conversion loop computes `TokensOf`, stopping at the first bad piece |
| PathTokens.OneForwardExample | tests/test_path.py:86-109 | "F" gives [I] |
| PathTokens.TwoForwardsExample | tests/test_path.py:86-109 | "FF" raises: a single forward cannot be a slot |
| PathTokens.ThreeForwardsExample | tests/test_path.py:86-109 | "FFF" gives [I, 2] |
| PathTokens.BendExample | tests/test_path.py:86-109 | "FFFF+F+" gives [I, C] |
| PathTokens.AnticlockwiseBendExample | tests/test_path.py:95 | "FFFFFF-F-" gives [I, A] |
| PathTokens.ShortBendExample | tests/test_path.py:86-109 | "FFF+F+" leaves a turn unresolved and raises |
| Packer.UnitsSeqSpec | hilbertpiet/path.py:244 | keeping `Resize` whole leaves only units and changes neither the expanded primitives nor the size |
| Packer.Repair | hilbertpiet/path.py:269-272 | when the repair loop ends, the slot does not end with a size-setter and does not have exactly one codel left |
| Packer.Padded | hilbertpiet/path.py:275-277 | padding adds one no-op of the remaining codels, at least 2 of them |
| Packer.UTurnTokensLegal | hilbertpiet/path.py:181-224 | the tokens the tokenizer makes of a path of F, + and - are a legal packer path: Init first, no later Init and no slot of one codel |
| Packer.MapProgramToPath | hilbertpiet/path.py:233-290 | the main loop computes `Pack` |
| Packer.FillSpec | hilbertpiet/path.py:262-265 | the fill loop places the longest run of the next ops that fits |
| Packer.NeedsRepairIff | hilbertpiet/path.py:269 | the repair condition is exactly the failure of `Acceptable` |
| Packer.RepairSpec | hilbertpiet/path.py:269-272 | the repair loop gives back ops of the current slot down to the longest acceptable run |
| Packer.SlotChoice | hilbertpiet/path.py:258-277 | fill then repair keeps the longest acceptable run |
| Packer.SlotSpec | hilbertpiet/path.py:258-277 | a slot takes the longest acceptable run, repair touches only this slot, and run plus no-op fill the slot exactly |
| Packer.ItemSizeAgrees | hilbertpiet/path.py:11-113 | an item's size is the size of its macro |
| Packer.ItemsSizeAgrees | hilbertpiet/path.py:233-290 | with valid no-ops, the items cover as many codels as the mapped program |
| Packer.PackSpec | hilbertpiet/path.py:247-290 | from any token on, packing fails only with NotEnoughSpace, and otherwise extends what was mapped as `PackedFrom` says |
| Packer.PackTheorem | hilbertpiet/path.py:233-290 | on a tokenizer path: NotEnoughSpace or success; every op after Init placed once, in order; one U-turn per C/A token in order; the path's codels filled exactly; no size-setter before a filler; no no-op shorter than 2 |
| MappedRuns.ApplyAgrees | hilbertpiet/ops.py:14-256 | a primitive reads neither position nor dp: from contexts with the same stack, value and output it gives the same error or such contexts again |
| MappedRuns.RunOpsAgree | hilbertpiet/run.py:57-71 | the same holds for a run of primitives |
| MappedRuns.FillerKeeps | hilbertpiet/path.py:11-113 | a U-turn or valid no-op started at value 1 keeps stack, value and output |
| MappedRuns.SettersGiveOne | hilbertpiet/path.py:269-272 | when no size-setter precedes a filler and the program has no bare Extend, every filler starts at value 1 |
| MappedRuns.ItemsRunAgree | hilbertpiet/path.py:233-290 | running the mapped items agrees with running the program's ops alone |
| MappedRuns.MappedRunKeepsStack | tests/test_path.py:229-232 | running the mapped program fails as the original does or ends with the same stack, value and output |
| MappedRuns.ExpandedPackingLosesResize | hilbertpiet/path.py:244-272 | packing `expanded_ops` of `[Push(), Resize(3), Push()]` on [I, 5, C, 6] ends the first slot after the Extends; the no-op there starts at value 3, so the guarded call raises NonUnitValue while the program runs to the stack [1, 3] |
| MappedRuns.WholeResizePacking | tests/test_path.py:136-148 | packed as whole units, the same program gives the layout Push, NoOp(4), U-turn, Resize(3), Push, NoOp(3), and its run agrees with the program's |
| Programs.ProgramCode | hilbertpiet/run.py:34-36 | `Program.ops` is Init followed by the program's ops |
| Programs.Befores | hilbertpiet/run.py:57-71 | the contexts the primitives start from begin with the fresh one |
| Programs.BeforesSteps | hilbertpiet/run.py:57-71 | each recorded context is the result of the primitive before it |
| Programs.BeforesOutcome | hilbertpiet/run.py:57-76 | every primitive is reached on success; on failure the failing one is the last reached |
| Programs.WrittenKeys | hilbertpiet/run.py:68 | writing the keys in turn makes an entry for exactly those keys |
| Programs.WrittenLast | hilbertpiet/run.py:68 | a later write at the same coordinate overwrites the earlier one |
| Programs.RunCodelsSpec | hilbertpiet/run.py:57-74 | `codels` has an entry for exactly the coordinates the primitives start on, holding the change accumulated through the last primitive there |
| Programs.ChangesPrefix | hilbertpiet/run.py:63-66 | the i-th recorded change is the sum of the first i + 1 primitives' changes |
| Programs.CumulativeAppend | hilbertpiet/run.py:63-66 | accumulated changes add up |
| Programs.RunAdvances | hilbertpiet/run.py:57-71 | each primitive starts where the previous one left the position |
| Programs.RunAgreesWithCall | hilbertpiet/run.py:52-55 | running the flattened program agrees with calling it whenever the call succeeds |
| Programs.GuardNotExecuted | hilbertpiet/run.py:52-55 | flattening skips the Resize guard: a call raises where the run goes on to value 3 |
| Programs.Program.constructor | hilbertpiet/run.py:27-30 | a new program holds its ops and an empty codels map |
| Programs.Program.Run | hilbertpiet/run.py:38-76 | `run` starts from a fresh context; it passes exactly when the flattened run succeeds, returns its context, and leaves `codels` as `RunCodels` gives |
| Programs.Program.RunCode | hilbertpiet/run.py:47-74 | one op of the outer loop: its primitives are recorded and applied, or the run stops at the failing one |
| Colors.MakeColor | piet/color.py:18-20 | hue reduced mod 6 and lightness mod 3, so the result is always a valid colour |
| Colors.MakeColorPeriodic | piet/color.py:18-20 | shifting hue by a multiple of 6 or lightness by a multiple of 3 gives the same colour |
| Colors.IndexOf | piet/color.py:35-38 | `list.index`: the first position holding x, or a miss exactly when x is absent |
| Colors.FromNameOfName | piet/color.py:22-40 | `from_name(str(c)) == c` for every colour |
| Colors.NameOfFromName | piet/color.py:22-74 | an accepted name is the name of the colour it gives |
| Colors.FromNameFails | piet/color.py:22-40 | `from_name` raises InvalidColorName exactly on strings that are not one of the eighteen names |
| Colors.HueNamesDistinct | piet/color.py:15 | no two hues share a name |
| Colors.TableCode | piet/color.py:42-59 | a colour code is '#' and six hex digits |
| Colors.CodeIsTable | piet/color.py:42-59 | the code built by string replacement is the Piet colour table entry: light lifts 00 to C0, dark lowers FF to C0 |
| Colors.TableExamples | tests/test_color.py:33-47 | 'lightred' is #FFC0C0 and 'darkcyan' is #00C0C0 |
| LegacyContexts.MakeFrame | piet/context.py:26-35 | the older constructor fails with InvalidDp exactly for a dp other than the four units |
| LegacyContexts.DefaultFrameIsMake | piet/context.py:26-35 | the defaults pass the dp check: empty stack, value 0, position 0, dp 1 |
| LegacyContexts.MakeFrameAcceptsUnits | piet/context.py:32-33 | exactly the four unit directions are accepted |
| LegacyContexts.SteppedAdds | piet/context.py:37-41 | moves add up, change nothing but the position, and are `position + steps * dp` |
| LegacyContexts.RotatedInverse | piet/context.py:43-47 | k turns then -k restore dp; four are the identity; a turn changes nothing but dp |
| LegacyContexts.LegacyContext.New | piet/context.py:26-35 | a fresh context with the given fields, or InvalidDp |
| LegacyContexts.LegacyContext.UpdatePosition | piet/context.py:37-41 | the new frame is the old one moved `steps` along dp |
| LegacyContexts.LegacyContext.RotateDp | piet/context.py:43-47 | the new frame is the old one turned `steps` quarter turns |
| LegacyContexts.LegacyContext.DeepCopy | piet/context.py:53-56 | a fresh context equal field by field |
| LegacyOps.BinaryStack | piet/ops.py:28-36 | fails (EmptyStack) exactly below two elements; elements below the top two are kept; the length drops by one; the new top is `f(top, second)` |
| LegacyOps.AddExample | tests/test_ops.py:45-48 | Add on [1, 2, 3] gives [1, 5] |
| LegacyOps.OperandOrder | piet/ops.py:34 | `op(top, second)` agrees with hilbertpiet's Add and gives the opposite difference for subtraction |
| LegacyOps.BinaryCall | piet/ops.py:20-36 | the operation returns a fresh copy with the new stack and leaves the caller's context unmodified |
| LegacyOps.Add | piet/ops.py:39-40 | `Add()(context)` is the binary call with `+` |
| Text.DecimalRoundTrip | hilbertpiet/ops.py:235-237 | the decimal text of an integer reads back as that integer |
| Text.JoinSplit | hilbertpiet/path.py:212 | `str.split` pieces joined back give the string, and no piece holds the separator |
| Text.ReplaceCharByNothing | piet/path.py:21 | deleting a character removes it and keeps every other one |

## Left out

- `Program.render` (hilbertpiet/run.py:78-153) draws a PIL image, which is I/O.
- hilbertpiet/cli/main.py, both optimizer `main` functions, logging and image saving: argument parsing, file I/O and logging.
- Pickle loading and saving of the number table: the table is a `map<int, Tree>` parameter instead.
  - This covers `PushNumber.load_numbers` and both `save` methods.
- Optimizer.ISqrt: the pow sweep's float `sqrt`/`log` bounds are replaced by the integer bounds i·i <= max and i^j <= max. The float rounding of the original is not modelled.
- Contexts, LegacyContexts: positions and dp are integer pairs and a direction index, not complex numbers, in both the current context and the older one of piet/context.py. Float inexactness of `1j ** k` is not modelled in either.
- Ops.OutCharSpec: output is a sequence of code points, because a Dafny `char` cannot hold a surrogate that Python's `chr` accepts.
- `Context(stack=...)` aliasing of a caller's list, and the fresh stack list of `__deepcopy__`: stacks are values here.
- Ops.Call: after a raised error, the state of a partly updated context is left unspecified, and so is it for Macros.Execute.
- `__str__`/`__repr__` of ops, macros and contexts (dp arrows), and debug logging.
- Numbers.RenderParenthesesExamples: the parenthesis rule is proved for every node (Numbers.RenderParenthesisRule), but that the rendered text evaluates back to n is not: it needs a Python expression parser, which is not modelled.
- Numbers.Combine: a power node with a negative exponent is an `Err(NegativeExponent)` in this model, whereas `operator.pow` in the source returns a float (or raises ZeroDivisionError for base 0). Float results are not modelled; the optimizer only ever builds exponents of 2 or more.
- Numbers.PushNumberSpec: the table is assumed consistent (each entry's value is its key), which the optimizer proves of the tables it builds.
- piet/macros.py is not part of this model: its `_call` is never reached, and sequential composition is modelled from hilbertpiet/macros.py.
- hilbertpiet/numbers.py and hilbertpiet/color.py are not part of this model.
- setup.py, packaging, and the `buffer` field some tests pass to contexts.
- hilbertpiet/path.py:7 imports `Resize` from hilbertpiet.ops, and piet/numbers.py imports `Resize` and ops that piet/ops.py lacks. The model uses hilbertpiet/macros.py's `Resize` and hilbertpiet/ops.py's primitives.
- Numbers.RunPushesValue: stated for well-formed trees, whose power nodes have an exponent of at least 1. With exponent 0 a power node's n is 1 but it pushes its base's n (Numbers.PowZeroPushesBase); the optimizer only builds exponents of 2 or more.
- LegacyOps.BinaryCall: only `Add` exists in piet/ops.py, so the binary operation is a function parameter and only `Add` is instantiated.
- MappedRuns.MappedRunKeepsStack: stated for programs without a bare Extend primitive. A bare Extend at the end of a slot leaves value above 1, so the next filler pushes that value instead of 1 and the ops after it see value 1 where the original saw more.
- The mocked-op macro test (tests/test_macros.py:46-62) checks call order through mocks. Its content is `Macros.CallSeqAppend` and `Macros.CallAgreesWithExpansion`.
- The concrete end-to-end run of tests/test_run.py:51-84 is not restated as an example. `Programs.RunCodelsSpec` and `Programs.Program.Run` state its content for all programs.
- `str.strip` is modelled for the space character only, the only whitespace a path can contain.

## Findings

| source | as written | input that shows it | evidently intended | confidence | as-written member | corrected member |
|---|---|---|---|---|---|---|
| piet/numbers.py:133-135 | a leaf's ops are always `[Resize(n), Push()]`, and `Resize` rejects n <= 1 | a leaf of 1, e.g. `UnaryNumberTree(1).ops` raises ValueError | a leaf of 1 is a bare Push that costs 1 codel and pushes 1, since a codel of size 1 needs no resize and the optimizer starts its table with `PushNumber(1)` (piet/cli/optimize_numbers.py:25); tests/test_numbers.py:10,21,39 expect this of hilbertpiet.numbers, which is not part of this model, so they are no evidence about piet/numbers.py | not executed; as written piet/numbers.py:12 imports `Resize` from piet.ops, which defines none, so the module fails at import; the ValueError holds with hilbertpiet/macros.py:56-58's `Resize` in its place | Numbers.LeafOneAsWritten | Numbers.RunLeaf |
| hilbertpiet/path.py:244-272 | the packer walks `program.expanded_ops`, in which every `Resize` is already a run of Extends, so the repair loop's `isinstance(mapped_ops[-1], Resize)` test never holds | `[Push(), Resize(3), Push()]` on the path [I, 5, C, 6]: the Extends end the first slot and the no-op after them starts at value 3 | the repair gives back a whole Resize, as tests/test_path.py:136-148 (`resize_3`) expects: the packer's input keeps every Resize whole (Packer.ProgramUnits) | not executed | MappedRuns.ExpandedPackingLosesResize | MappedRuns.WholeResizePacking |
