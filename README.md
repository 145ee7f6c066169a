# Advent of Code puzzle solutions, modelled and verified in Dafny

This project models the logic of a collection of Advent of Code solutions
(2024 and 2025, in Rust, C++ and Python) and proves what each solution
computes. Every puzzle file becomes one Dafny module. Shared vocabulary
lives in `basics.dfy` (module `Basics`): options, powers, decimal digit
strings, Python's `str.split()`, sums, lexicographic string order and
sorting.

The models follow the shape of the code. Pure code becomes datatypes,
functions and lemmas. Code that changes state step by step becomes methods
with loops and invariants, or classes whose methods update their fields.
Each method is proved against a specification function whose properties
are proved as lemmas.

- **Logic-gate adder repair** (2024 day 24). `gates_network.dfy` is the
  wire and gate network: an arena of wires and gates in class `Network`,
  with eager depth-first propagation and circular wiring caught by a
  per-gate "active" flag. `gates_bits.dfy` holds the bit names and the
  binary value of a bit sequence; the read-outs and the target sum are
  methods of `Network`. `gates_mistake.dfy` is the lowest-wrong-bit scan. In
  `gates_repair.dfy`, the class `FixingSearch` is the backtracking search
  for output-wire swaps. It undoes every swap it tries and every blacklist
  entry it adds, on every return path.
- **`mul(a,b)` recogniser** (day 3, C++). `mul_parser.dfy` has class
  `ParserFSA`: its state, the two number buffers, the `do()`/`don't()`
  switch, and each symbol handler.
- **Three-bit VM** (2024 day 17). `vm_program.dfy` has class `Program`:
  registers, instruction index and output, with `runStep`, `run`, `reset`
  and `isSelfReferential`. `vm_construct.dfy` is the construction of
  register A, three bits at a time, that makes the puzzle program print
  itself.
- **Disk compaction** (2024 day 9). `disk_layout.dfy` is the doubly linked
  list of blocks, classes `Block` and `Layout`. A ghost sequence of blocks
  and a ghost sequence of their extents describe the list.
  `disk_compaction.dfy` holds the compaction steps over that list, each
  proved against a function on extents.
- **Monkey market** (2024 day 22). The 24-bit secret transform on `bv32`,
  price changes, and the best sequence of four changes.
- **Keypad conundrum** (2024 day 21). Key coordinates, the fixed path
  tables with their correctness certificates, the recursive press cost and
  the complexity sum.
- **LAN party** (2024 day 23). The link graph, triangles with a `t`
  computer, and Bron–Kerbosch for the largest clique and its password.
- **Fresh ingredients** (2025 day 5). Inclusive id ranges and their merge
  loop.
- **Junction boxes** (2025 day 8). Closest-pair circuits, kept as two
  dictionaries in class `Circuits`.
- **Page ordering** (day 5, Rust). Ordering rules, the correctness test
  and an in-place stable insertion sort by the rules.
- **Repeated ids** (2025 day 2). Invalid ids as multiples of 11, 101, 1001
  and the repunits of every block length.
- **Towels** (2024 day 19). Pattern decomposition, the arrangement count
  and its memo.
- **Stones** (2024 day 11). The blink rules and the stone count.
- **Schematics** (2024 day 25). Lock and key parsing and the fit count.
- **Paper rolls** (2025 day 4). Grid rolls on an `array2<char>`: neighbour
  counts and repeated removal, in place.
- **Tachyon beams** (2025 day 7). Beam splitting and timeline counts.
- **Cephalopod maths** (2025 day 6). A worksheet read by rows and by
  columns.
- **Safe dial** (2025 day 1). A mod-100 dial and its zero crossings.
- **Battery banks** (2025 day 3). The greedy largest n-digit pick.
- **Reports** (2024 day 2). Monotone reports and the dampener.
- **Location lists** (2024 day 1, and its earlier copy day 1
  `challenge_1`). Sorted distance and similarity score.

## Left out

- File reading and printing are not modelled: `open`, `read_to_string`,
  `ifstream`, `print`, `println!`, all `main` functions and
  `printOutput` (2024/day_17/program.cc:60-64).
  - Where a puzzle parses its input, the parser works on the given
    lines or text.
  - The grid puzzles (2025 days 4 and 7) take the grid as given, and
    `parse_grid` is not modelled.
  - 2024 day 11 takes the stones as given, and its `parse_input` is not
    modelled.
  - 2024 day 17 takes the program as given, and `parseFile` is not
    modelled.
  - 2024 day 24 builds the network from given wires and gates, and its
    text parsing is not modelled.
  - 2025 day 8 takes the coordinates as given.
- The drivers day_03/main.cc and 2024/day_17/main.cc are not modelled.
  - This covers whitespace skipping by `operator>>`.
  - It also covers the brute-force loop over register values.
- Example totals that come from `testinput.txt` files are not stated,
  because the files are not part of this model. This covers 2024 day 19
  (6 and 16) and 2024 day 11 (22 and 55312). The literal examples written
  in the code are stated where they are short (2024 day 22).
- Randomness in `assign_random_inputs` (2024 day 24) is not modelled. The
  trial inputs are a sequence given to the search, the same for every
  validation.
- Rust's `Rc`/`RefCell` borrow checks are not modelled. They become one
  arena with an "active" flag per gate. A re-entrant borrow of an output
  wire cannot happen while gate outputs are distinct and never primary
  inputs. The network invariant keeps both conditions, so that borrow has
  no outcome of its own.
- `CheckGates`, `RunTrials`, `Assess`, `RankSwitches`: these state the sums
  against the wire values recorded after each propagation. They do not
  state that those values are what the gates compute from the inputs.
  That holds only along the propagation order of an acyclic network,
  which the model does not give as a function.
- Panics in 2024 day 24 become an explicit `Panicked` outcome, or
  `Aborted` in the search. These are `unwrap` on an error or on None, and
  `assert_eq!`. The restore guarantees are stated for the paths that do
  not panic.
- Hash iteration order and heap tie-breaking are not modelled. They are
  taken as arbitrary orders consistent with the sort key.
  - For 2024 day 24 this covers the order of candidate pairs and ties in
    `max_by_key`.
  - For 2024 day 23 it covers the key order, a parameter `order` covering
    every key once.
  - For 2024 day 22 the set of change sequences becomes a list holding
    each sequence once.
  - For 2025 day 8 it covers the distance ranking, a parameter that is
    any permutation of the pairs ascending by distance.
- The caching decorators `@cache`, `lru_cache` and `#[memoize]` are not
  modelled; plain functions stand in, since the caches change no result.
  The explicit memo of 2024 day 19 is modelled.
- Machine-width limits the code relies on become preconditions. These
  are `std::stoi` and the `int` product overflow (day 3) and u64
  composition past 64 bits (2024 day 24). The truncating `size_t` to `int` conversion in `inferComboOperandValue` is
  modelled explicitly. C++'s undefined shifts by 64 or more, and by a
  negative amount, are modelled as an `Undefined` step.
- `Towels.Has`, `Towels.NumPossibleTowelArrangements`: these require
  every pattern to be non-empty. With an empty pattern the code recurses
  forever on the same design. The u64 sum of challenge 2 is taken
  without wrap-around.
- `PageOrdering.Reorder`: a stable insertion sort stands in for Rust's
  stable `sort_by`. For rules that order the update's pages consistently,
  both give the same result. The u32 sums of the middle pages are taken
  without wrap-around.
- `Stones.NumStonesAfterBlinking`: the multiplication by 2024 is taken on
  unbounded integers, so u128 overflow is not modelled.
- `ThreeBitVM.Program.Run`: the run is bounded by a fuel count. A run
  that does not finish within it reports `OutOfFuel`. Unknown opcodes,
  which never advance the index, are proved never to finish. It also
  inherits the intended guard of `ThreeBitVM.Program.RunStep`, so a
  program of fewer than two entries finishes where the source throws.
- `ThreeBitVM.Program.RunStep`: uses the intended end-of-program guard of
  Findings row 2. On a program of fewer than two entries it reports the
  end of the program, where the source's `size() - 2ul` wraps and `at()`
  throws `std::out_of_range`. With two or more entries both guards agree
  (`ThreeBitVM.StepAsWrittenAgrees`).
- `ThreeBitVM.Program.IsSelfReferential`: runs `Run`, so on a program of
  fewer than two entries it answers where the source throws
  `std::out_of_range` inside `run()`. On the empty program it answers
  true.
- `MistakeScan.FindFirstMistakeOutput`: the corrected scan also stops
  after bit 63. See Findings.
- Python `int()` is modelled as a plain decimal digit string. It also
  accepts surrounding whitespace, a sign and `_` separators, which are
  not modelled. Lines are taken without their trailing newline.
- `MulParser`: `isdigit` is the ASCII digit test.
- The day 9 compaction steps use the intended consolidation of Findings
  row 3, not `consolidate_space` as written. Their layouts therefore
  differ from the source's wherever three blocks of one id meet.
- MoveFileShape: the step ends with the intended merge. On "0102030"
  the source leaves two free blocks where the model leaves one.
- MoveFileShapeProgress: "no equal neighbours" holds only of the
  intended merge.
- CompactedShapeSpec: "never raises" holds only with the intended
  merge. On "0102030" the source's second step raises StopIteration.
- TryMoveShape: where a freed file meets free blocks on both sides,
  the layout is not the source's.
- MoveFileStep: runs the intended `ConsolidateSpace`.
- TryMoveWholeFileStep: runs the intended `ConsolidateSpace`. On
  "1311111" the source's layout ends [F:3, F:2] and the model's ends
  [F:5].
- CompactFile: on "0102030" the source raises at its second step,
  while the model stops after one step (`EmptyFilesDiskCompacts`).
- CompactFileWithoutFragmentation: the final layout differs from the
  source's on "1311111". That the checksum is the same is not proved.
- 2024 day 9 generators become walks along `next` from head or `prev`
  from tail.
  - `StopIteration`, `ValueError` and `max()` of nothing become `false`
    or `None` results. The layout's state after such a raise is not
    specified.
  - `block == file_block` (dataclass equality) is taken as identity, as
    the walk can only meet that block there.
  - Positions in the list are ghost parameters.
- `PaperRolls`: grids are rectangular `array2<char>`. Ragged rows of a
  list of lists are not modelled.
- `TachyonBeams`: grids are rectangular `array2<char>`. Every row is
  taken as long as the first, so an `IndexError` on a shorter row is not
  modelled.
- Trim: one whitespace set, that of Python's `str.isspace`, stands for
  both Python's `strip` and Rust's `trim`. Rust's `char::is_whitespace`
  does not include U+001C to U+001F, so a Rust line that starts or ends
  with one of those is trimmed further by the model than by the program.
- ParseSecret: trims with `Trim` above, so it shares that difference for
  U+001C to U+001F.
- LargestDigit: requires a string of ASCII digits. Python's `int()` of
  one character raises ValueError on a non-digit and also accepts
  non-ASCII Unicode digits; neither case is modelled.
- GetJoltage: requires a bank of ASCII digits, as LargestDigit does.
- BronKerbosch: requires a graph without self-loops (`Loopless`).
  `parse_file` accepts a line `a-a`, which puts a among its own
  neighbours; `bron_kerbosch` then keeps a in the candidates of its own
  recursive call and recurses until the stack overflows. That run has no
  outcome in the model.
- FindLargestClique: requires a graph without self-loops, as
  BronKerbosch does.
- FindPassword: requires a graph without self-loops, as BronKerbosch
  does.
- `Schematics`: parsing is modelled as written, including its quirks.
  - A blank line outside a block pushes a lock of heights -1.
  - A block not closed by a blank line is dropped.
  - Lemmas state both behaviours rather than correcting them.

## Findings

| source | as written | input that shows it | evidently intended | confidence | as-written member | corrected member |
|---|---|---|---|---|---|---|
| 2024/day_24/src/main.rs:221-233 | the scan for the first differing bit doubles a u64 mask and loops while the mask is at most the target; past bit 63 the mask wraps to 0, which is at most every target | `find_first_mistake_output(u64::MAX, u64::MAX)`, or any target of 2^63 or more equal to the output, never returns | the scan stops after the last bit and returns None when the numbers are equal | not executed | MistakeScan.AsWrittenNeverAnswersAllOnes | MistakeScan.FindFirstMistakeOutput |
| 2024/day_17/program.cc:8 | the end-of-program guard compares the index with `size() - 2ul`, which wraps around for a program of fewer than two entries | the empty program: the guard lets the step read `at(0)`, which throws `std::out_of_range` | the step reports the end of the program when fewer than two entries are left from the index | not executed | ThreeBitVM.EmptyProgramThrows | ThreeBitVM.Step |
| 2024/day_09/main.py:18-27 | after merging a block with its successor, `consolidate_space` moves on to the next block, so a run of three blocks with one id keeps two | the disk map "0102030": after the first move step three free blocks remain in a row, the as-written merge leaves two free blocks and no file, and the next `move_file_step` raises StopIteration | the merge stays on the merged block, so every run of one id becomes one block | not executed | DiskCompaction.EmptyFilesDiskRaises | DiskCompaction.ConsolidateSpace |

## Model

| member | source | states |
|---|---|---|
| GateBits.BitName | 2024/day_24/src/main.rs:184 | the name of bit i of operand p starts with p and is at least three characters long (a two-digit zero-padded index or more) |
| GateBits.BitNameInjective | 2024/day_24/src/main.rs:184 | two bit indices with the same name are equal, so the loops over z00, z01, ... read each wire once |
| GateBits.BitNameSetSize | 2024/day_24/src/main.rs:182-188 | the first n bit names of an operand are n different strings |
| GateBits.ShiftedBit | 2024/day_24/src/main.rs:194 | `(1 << idx) * bit` is 2^idx for a set bit and 0 otherwise |
| GateBits.BinaryValue | 2024/day_24/src/main.rs:190-199 | the value of n bits, least significant first, is below 2^n |
| GateBits.BinaryValueBits | 2024/day_24/src/main.rs:190-199 | bit i of the composed value is the i-th bit read, so the read-out loses nothing |
| MistakeScan.ScanAsWrittenReturns | 2024/day_24/src/main.rs:224-230 | for the loop as written, with u64 shift wrap-around: an index it returns is the first round at which the numbers differ under the mask, doubled once per round, and they agree under every earlier mask |
| MistakeScan.ScanAsWrittenLowest | 2024/day_24/src/main.rs:221-233 | from bit 0 and mask 1, an index the loop as written returns is below 64 and is the lowest bit in which the two numbers differ, so the numbers differ |
| MistakeScan.AsWrittenLoopsForever | 2024/day_24/src/main.rs:224-230 | with target == actual == u64::MAX every round keeps looping once the mask has wrapped to 0 |
| MistakeScan.AsWrittenNeverAnswersAllOnes | 2024/day_24/src/main.rs:221-233 | from the start state the loop as written returns no answer for u64::MAX against itself, with any bound on the rounds |
| MistakeScan.FindFirstMistakeOutput | 2024/day_24/src/main.rs:221-233 | None exactly when target == actual; Some(i) means bit i differs and all lower bits agree |
| LogicGates.SwapOutputs | 2024/day_24/src/main.rs:272-276 | exchanging the output wires of two gates keeps every operation and swaps exactly those two outputs |
| LogicGates.Switched | 2024/day_24/src/main.rs:264-280 | switching two gate keys keeps the number of gates, wires and the set of gate keys |
| LogicGates.SwitchedTwice | 2024/day_24/src/main.rs:264-280 | switching the same two names twice restores the whole wiring |
| LogicGates.SwitchedDrives | 2024/day_24/src/main.rs:264-280 | after a switch each gate still drives the wire recorded as its output |
| LogicGates.SwitchedNamed | 2024/day_24/src/main.rs:264-280 | after a switch the gate map is still keyed by output wire names and no primary input is driven |
| LogicGates.SwitchedWellFormed | 2024/day_24/src/main.rs:264-280 | a switch keeps all the guarantees the loaded network satisfies |
| LogicGates.InputsStay | 2024/day_24/src/main.rs:53-61 | propagating from a wire changes no primary input |
| LogicGates.AssignStep | 2024/day_24/src/main.rs:451-458 | after assigning input i it holds its bit, and the inputs before it keep theirs |
| LogicGates.Network.SetValue | 2024/day_24/src/main.rs:44-47 | the wire holds the new value; on success every dependent slot holds it; nothing outside the propagation changes |
| LogicGates.Network.Propagate | 2024/day_24/src/main.rs:53-61 | on success every dependent slot holds the wire's value, unset read as false; on a ranked (acyclic) network it never reports a circular connection |
| LogicGates.Network.SetInput | 2024/day_24/src/main.rs:89-96 | the gate's slot holds the value and the gate is then activated; no circular connection below a ranked gate |
| LogicGates.Network.Activate | 2024/day_24/src/main.rs:98-103 | when both slots hold values the output wire gets op(a, b); otherwise nothing changes |
| LogicGates.Network.Width | 2024/day_24/src/main.rs:182-188 | operand p has wires p00 up to p{n-1} and no wire pn |
| LogicGates.Network.WidthUnique | 2024/day_24/src/main.rs:182-188 | that n is the only width with this property |
| LogicGates.Network.NumOutputs | 2024/day_24/src/main.rs:182-188 | the loop returns the number of consecutive output wires z00, z01, ... |
| LogicGates.Network.OperandValue | 2024/day_24/src/main.rs:190-219 | the read-out loop computes the binary value of the consecutive wires of operand p |
| LogicGates.Network.OperandBitsRead | 2024/day_24/src/main.rs:190-219 | the value is below 2^width and its bit j is the value on wire pj, unset counting as 0 |
| LogicGates.Network.GetOutputValue | 2024/day_24/src/main.rs:190-199 | the number on the z wires, which fits a u64 |
| LogicGates.Network.TargetSum | 2024/day_24/src/main.rs:201-219 | the number on the x wires plus the number on the y wires |
| LogicGates.Network.TargetSumFits | 2024/day_24/src/main.rs:218 | within the assumed widths the sum fits a u64 |
| LogicGates.Network.ForwardInput | 2024/day_24/src/main.rs:172-180 | the wiring and the primary inputs stay as they were; on an acyclic network it returns Ok |
| LogicGates.Network.AssignInputs | 2024/day_24/src/main.rs:446-459 | each primary input holds the bit given for it; on an acyclic network no unwrap panics |
| LogicGates.Network.RestoreInputs | 2024/day_24/src/main.rs:257-259 | the primary inputs hold the saved values again and the wiring is untouched |
| LogicGates.Network.SumMatches | 2024/day_24/src/main.rs:251 | true exactly when the target sum equals the output value |
| LogicGates.Network.RunTrial | 2024/day_24/src/main.rs:248-253 | one trial: the primary inputs hold its bits, and the answer is true exactly when the x and y numbers add up to the z number afterwards; an acyclic network gives an answer and stays acyclic |
| LogicGates.Network.TrialsReportDone | 2024/day_24/src/main.rs:247-261 | a trial report that answers says true exactly when every trial was run and every one of them added up |
| LogicGates.Network.RunTrials | 2024/day_24/src/main.rs:247-255 | each trial assigns its bits, forwards and compares; the recorded wire values of every trial run hold that trial's bits, every trial before the last one run adds up, a false answer means the last one run does not, a true answer means all trials ran; the wiring stays the same and an acyclic network never panics |
| LogicGates.Network.CheckGates | 2024/day_24/src/main.rs:235-262 | the first propagation from the entry inputs must add up (the assert) and every trial is then reported as in RunTrials; on an acyclic network it panics exactly when that first sum is wrong; whatever it answers the primary inputs end as on entry and the wiring stays the same |
| LogicGates.Network.SwitchGateOutputs | 2024/day_24/src/main.rs:264-280 | the wiring becomes the switched wiring, and the values, the operations and every gate's input slots stay the same |
| GateRepair.Flatten | 2024/day_24/src/main.rs:437-440 | the names of the switches, pair by pair, two per switch |
| GateRepair.FlattenSwitches | 2024/day_24/src/main.rs:435-444 | the result is sorted and is a permutation of all switch names |
| GateRepair.FlattenExample | 2024/day_24/src/main.rs:519-532 | for [(b, c), (a, d)] the result is [a, b, c, d] |
| GateRepair.FreshExtend | 2024/day_24/src/main.rs:338-341 | appending a switch of two fresh names keeps all names distinct and off the blacklist |
| GateRepair.RankingInsert | 2024/day_24/src/main.rs:364-367 | recording a pair that raises the mistake position keeps every ranked pair a candidate that raises it |
| GateRepair.MaxKeyExists | 2024/day_24/src/main.rs:374 | a non-empty ranking has a pair of maximum position, so `max_by_key(..).unwrap()` succeeds |
| GateRepair.FixingSearch.Inner | 2024/day_24/src/main.rs:282-410 | unless it panics, the wiring and the blacklist are restored on every return path; a fix has exactly numSwitches pairs of distinct names off the entry blacklist |
| GateRepair.FixingSearch.Assess | 2024/day_24/src/main.rs:292-296 | the wiring and primary inputs stay the same; an acyclic network propagates without error, and then the mistake is the lowest bit in which the output on the z wires differs from the target, None when they agree |
| GateRepair.FixingSearch.Verify | 2024/day_24/src/main.rs:302-310 | with no switch left, check_gates decides: unless it panics, the first sum adds up and the answer is Found([]) exactly when every trial was run and added up; on an acyclic network it panics exactly when the first sum is wrong |
| GateRepair.FixingSearch.Enter | 2024/day_24/src/main.rs:322-324 | the two gates are switched and both names join the blacklist |
| GateRepair.FixingSearch.Leave | 2024/day_24/src/main.rs:335-337 | both names leave the blacklist and the wiring is as before the switch |
| GateRepair.FixingSearch.Explore | 2024/day_24/src/main.rs:322-341 | the wiring and blacklist are restored; a fix found has (a, b) last and the right length |
| GateRepair.FixingSearch.Pad | 2024/day_24/src/main.rs:312-344 | the padding loops restore the wiring and blacklist; a fix found has the right length and fresh names |
| GateRepair.FixingSearch.PadRow | 2024/day_24/src/main.rs:318-342 | the same for the inner padding loop over later candidates |
| GateRepair.FixingSearch.RankSwitches | 2024/day_24/src/main.rs:348-371 | every pair of different names off the blacklist is probed on the switched network; a pair is ranked exactly when its probe gives a position above the current one, and it is ranked with that position; the wiring is unchanged |
| GateRepair.FixingSearch.RankRow | 2024/day_24/src/main.rs:353-370 | one row of the ranking loop: the pairs of its first name with every later name off the blacklist are probed and ranked as in RankSwitches, and no other pair is added |
| GateRepair.FixingSearch.Probe | 2024/day_24/src/main.rs:357-369 | a probe switches and switches back, leaving the wiring unchanged; a position it gives is the first wrong output bit of the switched network, or one past the output width when its sum is right, and a switch that leaves the network acyclic always gives one |
| GateRepair.FixingSearch.RankPair | 2024/day_24/src/main.rs:357-369 | one step of the row: a pair off the blacklist is probed and recorded, and ranked exactly when its position exceeds the current one; a blacklisted pair adds no probe |
| GateRepair.FixingSearch.TryRanked | 2024/day_24/src/main.rs:373-409 | trying the ranked pairs restores the wiring and blacklist; a fix found has the right length and fresh names |
| GateRepair.FindFixingSwitches | 2024/day_24/src/main.rs:411-433 | given every gate name once, in any order, as the keys to search: unless it panics, the wiring ends as it began; a fix has numSwitches pairs whose names are distinct gate names |
| MulParser.Restart | day_03/ParserFSA.cc:11-16 | `reset` empties both buffers, keeps `multEnabled_` and leaves the parser in INITIAL or in the state the reprocessed symbol starts |
| MulParser.Step | day_03/ParserFSA.cc:18-194 | one `feedSymbol` keeps both buffers made of digits |
| MulParser.StepConsistent | day_03/ParserFSA.cc:54-96 | after every step the first buffer is non-empty in NUMBER_1 and COMMA, both are non-empty in NUMBER_2, and both are empty elsewhere, so `stoi` never sees an empty string |
| MulParser.StepEffects | day_03/ParserFSA.cc:85-159 | only the `)` that closes a `mul(a,b)` in NUMBER_2 returns something non-zero, and only the `)` of a `do()` or `don't()` changes whether mults are enabled |
| MulParser.StepFits | day_03/ParserFSA.cc:85-96 | the value returned lies in the `int` range whenever both numbers and their product fit an `int` |
| MulParser.Feed | day_03/main.cc:13-15 | feeding a string gives one value per character and keeps the buffers digits |
| MulParser.FeedAppend | day_03/main.cc:13-15 | feeding s then t is feeding s + t |
| MulParser.ReadNumber1 | day_03/ParserFSA.cc:64-73 | digits read in NUMBER_1 are appended to the first number and return 0 |
| MulParser.ReadNumber2 | day_03/ParserFSA.cc:85-96 | digits read in NUMBER_2 are appended to the second number and return 0 |
| MulParser.MulOpening | day_03/ParserFSA.cc:18-52 | `mul(` from INITIAL with mults enabled reaches BRACKET, returning 0 four times |
| MulParser.FirstNumber | day_03/ParserFSA.cc:54-73 | from BRACKET a non-empty digit string becomes the first number |
| MulParser.SecondNumber | day_03/ParserFSA.cc:64-96 | after the first number, `,` and a non-empty digit string become the second number |
| MulParser.AfterOpening | day_03/ParserFSA.cc:54-96 | from BRACKET, `a,b)` returns a*b on its last symbol and ends in INITIAL |
| MulParser.MulRecognised | day_03/ParserFSA.cc:18-96 | from INITIAL with mults enabled, `mul(a,b)` for non-empty digit strings returns a*b on the closing bracket, 0 for every symbol before it, and ends in INITIAL with empty buffers |
| MulParser.StrayMRestarts | day_03/ParserFSA.cc:11-16 | `reset` reprocesses the symbol that broke a match, so an `m` starts a new mult from any state when mults are enabled |
| MulParser.WithoutDoDont | day_03/ParserFSA.cc:18-25 | with the do/don't logic off the parser never enters a do/don't state and mults stay enabled for ever |
| MulParser.DontDisables | day_03/ParserFSA.cc:153-159 | a complete `don't()` from INITIAL disables mults, whatever they were |
| MulParser.DoEnables | day_03/ParserFSA.cc:118-124 | a complete `do()` from INITIAL enables mults, whatever they were |
| MulParser.DisabledStaysSilent | day_03/ParserFSA.cc:18-25 | while mults are disabled no mult starts: from outside a mult match, on any input in which no `do()` completes (counting what the state has already read of one), every symbol returns 0, `)` included, and mults stay disabled |
| MulParser.DisabledIgnoresMul | day_03/ParserFSA.cc:18-25 | a whole `mul(a,b)` read from INITIAL with mults disabled returns 0 for every symbol, its closing `)` included, and mults stay disabled |
| MulParser.ParserFSA.constructor | day_03/ParserFSA.cc:6-9 | a new parser is in INITIAL with empty buffers, mults enabled and the do/don't flag as given |
| MulParser.ParserFSA.Reset | day_03/ParserFSA.cc:11-16 | the new state is the restart of the old one, and 0 is returned |
| MulParser.ParserFSA.HandleInitial | day_03/ParserFSA.cc:18-25 | an `m` starts a mult when mults are enabled, a `d` starts a do/don't when that logic is on, anything else changes nothing; 0 is returned |
| MulParser.ParserFSA.HandleExpect | day_03/ParserFSA.cc:27-151 | the handlers that expect one symbol: move on when it comes and reset otherwise |
| MulParser.ParserFSA.HandleBracket | day_03/ParserFSA.cc:54-62 | `handleBracket` performs the specified step |
| MulParser.ParserFSA.HandleNumber1 | day_03/ParserFSA.cc:64-73 | `handleNumber1` performs the specified step |
| MulParser.ParserFSA.HandleComma | day_03/ParserFSA.cc:75-83 | `handleComma` performs the specified step |
| MulParser.ParserFSA.HandleNumber2 | day_03/ParserFSA.cc:85-96 | `handleNumber2` performs the specified step, returning the product on `)` |
| MulParser.ParserFSA.HandleO | day_03/ParserFSA.cc:107-116 | `handleO` performs the specified step |
| MulParser.ParserFSA.HandleDoBracket | day_03/ParserFSA.cc:118-124 | `handleDoBracket` performs the specified step |
| MulParser.ParserFSA.HandleDontBracket | day_03/ParserFSA.cc:153-159 | `handleDontBracket` performs the specified step |
| MulParser.ParserFSA.FeedMul | day_03/ParserFSA.cc:161-178 | the dispatch for INITIAL and the states of a mult |
| MulParser.ParserFSA.FeedDoDont | day_03/ParserFSA.cc:179-192 | the dispatch for the states of a do/don't |
| MulParser.ParserFSA.FeedSymbol | day_03/ParserFSA.cc:161-194 | `feedSymbol` keeps the buffer invariant, performs the specified step and returns a value in the `int` range |
| ThreeBitVM.Shr | 2024/day_17/program.cc:17-50 | a right shift never increases the register |
| ThreeBitVM.AsInt | 2024/day_17/program.cc:86-97 | converting a register to the int result keeps its low 32 bits in two's complement: a value in the int range congruent to it modulo 2^32 |
| ThreeBitVM.Low3 | 2024/day_17/program.cc:25-40 | `& 0b111` gives a value below 8 |
| ThreeBitVM.Step | 2024/day_17/program.cc:7-56 | the step halts exactly when no whole instruction is left, and never reads past the end |
| ThreeBitVM.StepAsWrittenAgrees | 2024/day_17/program.cc:8-10 | for a program of at least two entries the guard as written, with its unsigned wrap-around, is the intended one |
| ThreeBitVM.EmptyProgramThrows | 2024/day_17/program.cc:8-13 | on the empty program the guard as written lets the step read `at(0)`, which throws, while the intended step halts |
| ThreeBitVM.StepIndex | 2024/day_17/program.cc:15-53 | every opcode but 3 moves on by two; 3 jumps to its operand exactly when A is non-zero |
| ThreeBitVM.StepOutput | 2024/day_17/program.cc:39-42 | only opcode 5 writes output: one value below 8 appended to what was there |
| ThreeBitVM.StepRegisters | 2024/day_17/program.cc:15-53 | only opcode 0 writes A and only 7 writes C; 2 leaves a value below 8 in B; 0, 3, 5 and 7 leave B alone |
| ThreeBitVM.UnknownOpcodeStalls | 2024/day_17/program.cc:15-55 | an opcode outside 0..7 matches no case and leaves the machine as it was |
| ThreeBitVM.XorBelow | 2024/day_17/program.cc:21-36 | the exclusive or of two k-bit numbers is a k-bit number |
| ThreeBitVM.XorAssociative | 2024/day_17/program.cc:21-36 | exclusive or is associative |
| ThreeBitVM.ShrAdd | 2024/day_17/program.cc:17 | shifting by s and then by t is shifting by s + t |
| ThreeBitVM.StepKeepsWords | 2024/day_17/program.cc:15-53 | no instruction takes a register past 64 bits, so unbounded registers model the size_t ones exactly |
| ThreeBitVM.RunChain | 2024/day_17/program.cc:58 | a chain of executed steps can be skipped over in one go |
| ThreeBitVM.RunFinishesAtEnd | 2024/day_17/program.cc:58 | a finished run stops with no whole instruction left and only appends to the output |
| ThreeBitVM.RunMoreFuel | 2024/day_17/program.cc:58 | more fuel does not change a run that finished |
| ThreeBitVM.UnknownOpcodeNeverFinishes | 2024/day_17/program.cc:58 | a machine stuck on an unknown opcode never finishes: run loops forever |
| ThreeBitVM.Program.Reset | 2024/day_17/program.cc:66-69 | back to the first instruction with an empty output |
| ThreeBitVM.Program.RunStep | 2024/day_17/program.cc:7-56 | with the intended guard of Findings row 2, it returns true exactly when a whole instruction is left, and then performs that step; otherwise nothing changes |
| ThreeBitVM.Program.ExecDivide | 2024/day_17/program.cc:16-52 | cases 0, 6 and 7: A shifted by the combo operand into A, B or C |
| ThreeBitVM.Program.ExecSetB | 2024/day_17/program.cc:20-38 | cases 1, 2 and 4: the updates of B |
| ThreeBitVM.Program.ExecJump | 2024/day_17/program.cc:28-34 | case 3: the jump |
| ThreeBitVM.Program.ExecOut | 2024/day_17/program.cc:39-42 | case 5: the output |
| ThreeBitVM.Program.Run | 2024/day_17/program.cc:58 | the loop runs the machine until runStep (with the intended guard) returns false, keeping the final index and output |
| ThreeBitVM.Program.IsSelfReferential | 2024/day_17/program.cc:71-84 | when the run (with the intended guard) finishes, the answer is true exactly when the output equals the program |
| RegisterConstruction.Print | 2024/day_17/challenge2.hh:48-50 | the symbol one pass of the loop prints is below 8 |
| RegisterConstruction.ConstructionHelper | 2024/day_17/challenge2.hh:39-59 | the backtracking search, recursion over the symbols and a loop over the eight candidate bits, computes the search's specification function |
| RegisterConstruction.ConstructA | 2024/day_17/challenge2.hh:61-64 | the search from A = 0 over all sixteen symbols; what it returns makes the program print itself |
| RegisterConstruction.ExtendNoWrap | 2024/day_17/challenge2.hh:47 | within the 48 bits the search reaches, shifting a left by 3 and or-ing in next does not wrap around and splits back into a and next |
| RegisterConstruction.ConstructSound | 2024/day_17/challenge2.hh:39-59 | every value the search finds prints the remaining symbols from its top part |
| RegisterConstruction.CandidateSplit | 2024/day_17/challenge2.hh:46-52 | a candidate splits into its top three bits, which print the current symbol, and a candidate for the earlier symbols |
| RegisterConstruction.ConstructComplete | 2024/day_17/challenge2.hh:39-59 | completeness: the search succeeds whenever a candidate exists |
| RegisterConstruction.TryReaches | 2024/day_17/challenge2.hh:46-57 | the loop reaches a working candidate unless an earlier one already works |
| RegisterConstruction.ConstructLeast | 2024/day_17/challenge2.hh:46-57 | the three bits are tried in increasing order, so the value found is the least candidate |
| RegisterConstruction.XorSmall | 2024/day_17/challenge2.hh:7-10 | bxl 5 then bxl 6 is bxl 3 on a three-bit value |
| RegisterConstruction.AsIntLow3 | 2024/day_17/program.cc:86-97 | `int & 0b111` of a converted register is the register's low three bits |
| RegisterConstruction.OnePass | 2024/day_17/challenge2.hh:4-20 | one pass of the loop's eight instructions prints one symbol, divides A by 8 and jumps back unless A became zero |
| RegisterConstruction.RunPrintsOutputs | 2024/day_17/challenge2.hh:17-20 | from any A the program halts after eight instructions per pass, having printed one symbol per three-bit group of A |
| RegisterConstruction.OutputsDigits | 2024/day_17/challenge2.hh:17-20 | a value with n three-bit groups prints n symbols, symbol j from the value shifted right by 3j |
| RegisterConstruction.PrintZero | 2024/day_17/challenge2.hh:24 | A = 0 prints 3, so the top group of a self-printing value is not zero |
| RegisterConstruction.CandidatePrintsProgram | 2024/day_17/challenge2.hh:22-30 | a value printing all sixteen symbols with nothing above them makes the program print itself |
| RegisterConstruction.ConstructedIsSelfReferential | 2024/day_17/main.cc:36-39 | the value `constructA` returns makes `isSelfReferential` answer true |
| RegisterConstruction.ConstructAExactlyWhenPossible | 2024/day_17/challenge2.hh:61-64 | `constructA` finds a value exactly when one exists, and then the least one |
| DiskLayout.Block.constructor | 2024/day_09/layout.py:6-11 | a new block carries the given id and length and is linked to no neighbour |
| DiskLayout.Block.CreateFreeBlock | 2024/day_09/layout.py:3-15 | a fresh block that is free (id FREE_ID = -1), has the given length and no links |
| DiskLayout.Block.Free | 2024/day_09/layout.py:17-21 | the block becomes free, so `is_free` holds; its length and links stay as they were |
| DiskLayout.Layout.constructor | 2024/day_09/layout.py:25-27 | a new layout is a well-formed empty list: no head, no tail, no blocks |
| DiskLayout.Layout.Append | 2024/day_09/layout.py:29-36 | the forward sequence becomes the old one followed by the block, the block is the tail, and the list stays well-formed (ends unlinked, next and prev agree, no block twice) |
| DiskLayout.Layout.Unlink | 2024/day_09/layout.py:38-50 | the removed block's neighbours are linked to each other, head or tail moves past it where it was an end, and its own links are cleared |
| DiskLayout.Layout.Remove | 2024/day_09/layout.py:38-50 | exactly the block at its position leaves the list, every other block keeps its place in order, the list stays well-formed and the block's links are cleared |
| DiskLayout.Layout.Splice | 2024/day_09/layout.py:52-62 | the new block is linked between the reference block and its old predecessor, or becomes the head where there was none |
| DiskLayout.Layout.InsertBefore | 2024/day_09/layout.py:52-62 | the new block sits immediately before the reference block; the blocks before and after it are unchanged and the list stays well-formed |
| DiskLayout.Layout.SetLength | 2024/day_09/main.py:63-64 | changing one block's length changes only that block's extent; the order of the blocks and the list's shape stay |
| DiskLayout.Layout.Free | 2024/day_09/layout.py:17-18 | freeing a block of the list changes only its id, to FREE_ID; its length, its place and every other block stay |
| DiskLayout.Layout.Forward | 2024/day_09/layout.py:64-69 | following next from head visits exactly the blocks of the list, in order |
| DiskLayout.Layout.Backward | 2024/day_09/layout.py:71-76 | following prev from tail visits the same blocks in the opposite order |
| DiskCompaction.CellCountIsCells | 2024/day_09/main.py:18-50 | the per-id counts of a disk are the multiplicities of its cell-by-cell id sequence |
| DiskCompaction.CleanedCells | 2024/day_09/main.py:43-50 | dropping zero-length blocks leaves the cell-by-cell id sequence unchanged and no zero-length block |
| DiskCompaction.CleanedNoEmpty | 2024/day_09/main.py:43-50 | cleaning a disk with no empty block changes nothing |
| DiskCompaction.MergedCells | 2024/day_09/main.py:22-24 | merging a block with its successor of the same id keeps the cell sequence |
| DiskCompaction.ConsolidatedAsWrittenFromCells | 2024/day_09/main.py:18-27 | the merge loop as written keeps the cell sequence and never lengthens the disk |
| DiskCompaction.ConsolidatedFromCells | 2024/day_09/main.py:18-27 | the intended merge loop keeps the cell sequence, never lengthens the disk and creates no empty block |
| DiskCompaction.ConsolidatedSeparates | 2024/day_09/main.py:18-27 | after the intended merge loop no two neighbouring blocks have the same id, and the cells are as they were |
| DiskCompaction.ConsolidatedIdempotent | 2024/day_09/main.py:18-27 | consolidating twice is consolidating once |
| DiskCompaction.AsWrittenLeavesAdjacentFree | 2024/day_09/main.py:22-25 | three free blocks in a row: the loop as written leaves two neighbouring free blocks, the intended loop one |
| DiskCompaction.EmptyFilesDiskRaises | 2024/day_09/main.py:53-91 | on the disk parsed from "0102030" the first move step, consolidated as written, leaves two free blocks and no file, so the next step finds no file block; the intended step leaves one free block |
| DiskCompaction.EmptyFilesDiskCompacts | 2024/day_09/main.py:88-91 | with the intended consolidation compact_file on that disk stops after one step with one free block of 6 cells |
| DiskCompaction.FirstWhere | 2024/day_09/main.py:55 | the first position whose block satisfies the test, and None exactly when no block does |
| DiskCompaction.LastWhere | 2024/day_09/main.py:56 | the last position whose block satisfies the test, and None exactly when no block does |
| DiskCompaction.MoveFileShape | 2024/day_09/main.py:53-67 | a move step is possible exactly when the disk has a free block and a file block, otherwise `next()` raises StopIteration; the step ends with the intended consolidation (Findings row 3) |
| DiskCompaction.MoveCellsCounts | 2024/day_09/main.py:58-64 | moving min(free, file) cells keeps the cell count of every file id and takes that many cells off the free space; when nothing moves, cleaning drops at least one block |
| DiskCompaction.MoveFileShapeProgress | 2024/day_09/main.py:53-67 | a move step with the intended consolidation (Findings row 3) keeps every file id's cell count, shortens the disk or, moving nothing, drops a block, and leaves no empty block and no equal neighbours |
| DiskCompaction.MoveFileShapeDefined | 2024/day_09/main.py:55-56 | with no equal neighbours and two free blocks, there is a file block after the leftmost free block, so the step finds both blocks and moves cells leftwards |
| DiskCompaction.CompactedShapeSpec | 2024/day_09/main.py:88-91 | compact_file with the intended consolidation (Findings row 3) ends with at most one free block and every file id's cell count as it was; with that consolidation it never raises from a disk with no equal neighbours |
| DiskCompaction.CompactsInOneStep | 2024/day_09/main.py:88-91 | a disk whose move step leaves at most one free block is compacted by that one step |
| DiskCompaction.TryMoveShape | 2024/day_09/main.py:70-85 | a whole-file move outcome exists exactly when some block has the id, otherwise find_block_by_id raises ValueError; the move ends with the intended consolidation (Findings row 3) |
| DiskCompaction.TryMoveShapeCounts | 2024/day_09/main.py:74-85 | a whole-file move keeps the cell count of every id, free space included, and the disk's length |
| DiskCompaction.MaxFileId | 2024/day_09/main.py:96 | the largest id among the file blocks, which some file block carries; None exactly when there is no file block and max() raises |
| DiskCompaction.CompactWholeStep | 2024/day_09/main.py:98-99 | each id is tried once, the disk after the move for id going on with id - 1 |
| DiskCompaction.CompactWholeShapeCounts | 2024/day_09/main.py:94-99 | compact_file_without_fragmentation keeps the cell count of every id and the disk's length |
| DiskCompaction.RangeSum | 2024/day_09/main.py:107 | `sum(range(lo, lo + n))` satisfies the closed form 2s = n(2lo + n - 1) |
| DiskCompaction.CellSumAppend | 2024/day_09/main.py:102-109 | the checksum of two runs of cells is the sum of their checksums with the second starting where the first ends |
| DiskCompaction.CellSumRepeat | 2024/day_09/main.py:106-107 | a block's cells contribute its id times the sum of the positions it covers, and nothing if it is free |
| DiskCompaction.FindFirst | 2024/day_09/main.py:37-55 | walking next from head finds the first block satisfying the test, and finds none exactly when no block does |
| DiskCompaction.FindLast | 2024/day_09/main.py:56 | walking prev from tail finds the last block satisfying the test, and finds none exactly when no block does |
| DiskCompaction.FindBlockById | 2024/day_09/main.py:35-40 | the first block with the id; None, where the source raises ValueError, exactly when no block has it |
| DiskCompaction.IsCompacted | 2024/day_09/main.py:30-32 | true exactly when the layout has at most one free block |
| DiskCompaction.FindMaxFileId | 2024/day_09/main.py:96 | the walk computes the largest file id, None when there is no file block |
| DiskCompaction.CalcChecksum | 2024/day_09/main.py:102-109 | the checksum is position times id summed over every file cell of the disk |
| DiskCompaction.CleanEmptyBlocks | 2024/day_09/main.py:43-50 | every zero-length block leaves the list, the others keep their order, and no new block appears |
| DiskCompaction.MergeWithNext | 2024/day_09/main.py:22-24 | the block takes over its successor's length and the successor leaves the list |
| DiskCompaction.ConsolidateSpaceAsWritten | 2024/day_09/main.py:18-27 | the loop as written, which moves past a merged block, yields the as-written consolidation of the disk |
| DiskCompaction.ConsolidateSpace | 2024/day_09/main.py:18-27 | the intended loop, which stays on a merged block, yields the disk with every run of equal ids merged |
| DiskCompaction.MoveCellsStep | 2024/day_09/main.py:58-64 | a new block with the file's id and min(free, file) cells goes before the free block, and both blocks lose that many cells |
| DiskCompaction.MoveFileStep | 2024/day_09/main.py:53-67 | a move step followed by cleaning with the intended consolidation (Findings row 3); false exactly where `next()` raises on the disk it is given |
| DiskCompaction.MoveWholeStep | 2024/day_09/main.py:78-81 | a copy of the file goes before the free block, which shrinks by the file's length, and the old file block becomes free |
| DiskCompaction.FindFit | 2024/day_09/main.py:74-77 | the walk stops at the first free block before the file with room for it, or at the file itself when there is none |
| DiskCompaction.TryMoveWholeFileStep | 2024/day_09/main.py:70-85 | the file moves into the first free block strictly to its left that fits it, and otherwise nothing changes; false exactly where find_block_by_id raises; the step ends with the intended consolidation (Findings row 3) |
| DiskCompaction.CompactFile | 2024/day_09/main.py:88-91 | move steps with the intended consolidation (Findings row 3) until at most one free block is left; false exactly where one of those steps raises |
| DiskCompaction.CompactFileWithoutFragmentation | 2024/day_09/main.py:94-99 | a whole-file move with the intended consolidation (Findings row 3) for each id from the largest file id down to 0, once each; false where max() or a move raises |
| MonkeyMarket.Prune | 2024/day_22/src/main.rs:14-16 | shifting a u32 left then right by 8 keeps the low 24 bits: the secret modulo 16777216 |
| MonkeyMarket.StepsAreArithmetic | 2024/day_22/src/main.rs:18-28 | the three shift steps are the puzzle's arithmetic: mix in the secret times 64, divided by 32, times 2048, each kept modulo 16777216 |
| MonkeyMarket.Transform | 2024/day_22/src/main.rs:30-32 | a transformed secret is below 2^24 |
| MonkeyMarket.TransformIgnoresHighBits | 2024/day_22/src/main.rs:14-32 | only the low 24 bits of a secret matter to the transform |
| MonkeyMarket.TransformExample | 2024/day_22/src/main.rs:144-148 | the transform of 123 is 15887950 |
| MonkeyMarket.IterateAdd | 2024/day_22/src/main.rs:34-41 | m transforms followed by n more are m + n transforms |
| MonkeyMarket.RepeatedTransform | 2024/day_22/src/main.rs:34-41 | the loop applies the transform the given number of times |
| MonkeyMarket.RepeatedExample | 2024/day_22/src/main.rs:150-154 | ten transforms of 123 give 5908254 |
| MonkeyMarket.SecretsStep | 2024/day_22/src/main.rs:43-53 | the list starts at the initial secret and each entry is the transform of the one before |
| MonkeyMarket.SecretsSnoc | 2024/day_22/src/main.rs:46-50 | one more repetition appends the next secret |
| MonkeyMarket.TransformSequence | 2024/day_22/src/main.rs:43-53 | the loop builds the initial secret followed by its n transforms |
| MonkeyMarket.SumTransformedBound | 2024/day_22/src/main.rs:55-60 | each term is a u32, so the u64 sum is at most the number of buyers times 2^32 - 1 and cannot wrap |
| MonkeyMarket.Price | 2024/day_22/src/main.rs:66-85 | a price, the secret modulo 10, is a digit |
| MonkeyMarket.ChangesOf | 2024/day_22/src/main.rs:62-68 | one change per pair of neighbouring secrets, each between -9 and 9 |
| MonkeyMarket.ChangesTelescope | 2024/day_22/src/main.rs:62-68 | the first k changes lead from the first price to the k-th, so the changes determine every price |
| MonkeyMarket.SecretsExample | 2024/day_22/src/main.rs:156-161 | the buyer starting at 123 goes through the ten secrets whose changes the test lists |
| MonkeyMarket.SellMapHas | 2024/day_22/src/main.rs:77-87 | every four consecutive changes that occur are a key of the map |
| MonkeyMarket.SellMapFirst | 2024/day_22/src/main.rs:84-86 | the price stored for four changes is the one right after their first occurrence |
| MonkeyMarket.SellMapOrigin | 2024/day_22/src/main.rs:77-87 | every key is four changes that occur, taken from their first occurrence |
| MonkeyMarket.SellMapBelow | 2024/day_22/src/main.rs:85 | every stored price is a digit |
| MonkeyMarket.GetSellValues | 2024/day_22/src/main.rs:70-90 | the loop builds the buyer's map of first prices by four changes |
| MonkeyMarket.WindowRealisable | 2024/day_22/src/main.rs:95-100 | any four consecutive changes of digits are realised by five digits |
| MonkeyMarket.RealisableBounds | 2024/day_22/src/main.rs:100 | each realisable change lies in [-9, 9] |
| MonkeyMarket.CoveredAll | 2024/day_22/src/main.rs:95-105 | once the five loops are done, the changes of any five digits are in the set |
| MonkeyMarket.AllChangeSequences | 2024/day_22/src/main.rs:92-108 | the list holds each realisable four-change exactly once and nothing else |
| MonkeyMarket.BuyerKeysRealisable | 2024/day_22/src/main.rs:70-105 | every key of a buyer's map is a realisable four-change |
| MonkeyMarket.BuyerValuesBelowTen | 2024/day_22/src/main.rs:85 | every price a buyer pays is a digit |
| MonkeyMarket.AllSellValuesAt | 2024/day_22/src/main.rs:122-125 | the i-th map is the i-th buyer's map |
| MonkeyMarket.TotalForAbsent | 2024/day_22/src/main.rs:110-118 | a four-change no buyer shows earns nothing (unwrap_or(&0)) |
| MonkeyMarket.TotalForBound | 2024/day_22/src/main.rs:110-118 | each buyer pays at most 9 |
| MonkeyMarket.UnrealisableEarnsNothing | 2024/day_22/src/main.rs:110-118 | asking for a four-change that no digits realise earns nothing |
| MonkeyMarket.TotalForAtMostNine | 2024/day_22/src/main.rs:110-118 | whatever the changes, the total is at most 9 per buyer |
| MonkeyMarket.MaxTotal | 2024/day_22/src/main.rs:127-131 | the maximum is at least the total of every candidate |
| MonkeyMarket.MaxTotalAttained | 2024/day_22/src/main.rs:127-131 | over a non-empty list of candidates, the maximum is the total of one of them |
| MonkeyMarket.GetTotalSellValue | 2024/day_22/src/main.rs:120-132 | the answer is at least the total of every four-change whatsoever, and is reached by a realisable one |
| MonkeyMarket.MaxOverRealisable | 2024/day_22/src/main.rs:127-131 | maximising over the realisable changes finds the best over all changes |
| MonkeyMarket.ParseSecret | 2024/day_22/src/main.rs:10 | a line parses exactly when its trimmed text is an optional '+' and a non-empty run of decimal digits whose value is below 2^32, and yields that value; otherwise the expect panics |
| MonkeyMarket.ParseSecretRendered | 2024/day_22/src/main.rs:10 | a u32 written in decimal reads back as itself |
| KeypadConundrum.NumCoord | 2024/day_21/main.py:26-52 | a value has a cell exactly when it is a key of the numeric keypad; any other value is the ValueError case |
| KeypadConundrum.NumCoordInverse | 2024/day_21/main.py:26-52 | reading the keypad back at a key's cell gives that key, so no two keys share a cell |
| KeypadConundrum.NumAtInverse | 2024/day_21/main.py:26-52 | every cell that holds a key is that key's cell |
| KeypadConundrum.DirCoordInverse | 2024/day_21/main.py:55-67 | the same for the directional keypad |
| KeypadConundrum.DirAtInverse | 2024/day_21/main.py:55-67 | every cell of the directional keypad that holds a key is that key's cell |
| KeypadConundrum.NumericCells | 2024/day_21/main.py:26-52 | the cells of the numeric pad are exactly the cells holding its keys: the gap at (3, 0) holds none |
| KeypadConundrum.DirectionalCells | 2024/day_21/main.py:55-67 | the cells of the directional pad are exactly the cells holding its keys: the gap at (0, 0) holds none |
| KeypadConundrum.TrailDistance | 2024/day_21/main.py:70-214 | no path covers more grid distance than its number of moves |
| KeypadConundrum.FitsShortest | 2024/day_21/main.py:70-214 | an entry that fits is no longer than any path over the keypad between the same cells |
| KeypadConundrum.NumTableFits | 2024/day_21/main.py:70-214 | every entry of the numeric table leads from its first key to its second, stays on the keys, presses nothing and is as short as the grid allows |
| KeypadConundrum.NumPath | 2024/day_21/main.py:217-220 | the lookup succeeds exactly for two numeric keys, and then returns a fitting entry |
| KeypadConundrum.NumPathShortest | 2024/day_21/main.py:217-220 | no path over the numeric keypad between two keys is shorter than the table's |
| KeypadConundrum.DirMovesGood | 2024/day_21/main.py:223-259 | every entry of the directional table leads from its first key to its second without crossing the gap |
| KeypadConundrum.DirPath | 2024/day_21/main.py:262-265 | the entry fits: it leads from a to b along a shortest path over the keys |
| KeypadConundrum.DirPathShortest | 2024/day_21/main.py:262-265 | no path over the directional keypad between two keys is shorter than the table's |
| KeypadConundrum.RunMoves | 2024/day_21/main.py:70-265 | moving without pressing presses nothing and ends where the path does |
| KeypadConundrum.RunEntry | 2024/day_21/main.py:70-265 | a fitting entry followed by a press types exactly the key at its end |
| KeypadConundrum.DoorSequence | 2024/day_21/main.py:268-279 | defined exactly when every key is on the numeric keypad; one press per key, and a non-empty code ends with a press |
| KeypadConundrum.DoorSequenceLength | 2024/day_21/main.py:268-279 | the length is the grid distance travelled from key to key plus one press per key |
| KeypadConundrum.DoorSequenceTypes | 2024/day_21/main.py:268-279 | performed by the door robot from A, the sequence presses the keys of the code in order and never points at the gap |
| KeypadConundrum.ExpandNumericalSequence | 2024/day_21/main.py:268-279 | the loop builds the door sequence |
| KeypadConundrum.RobotSequence | 2024/day_21/main.py:289-293 | the presses on the keypad above that make a robot type s: one press per key of s, ending with a press |
| KeypadConundrum.RobotSequenceTypes | 2024/day_21/main.py:289-293 | performed by a robot from A, that sequence presses the keys of s in order and never points at the gap |
| KeypadConundrum.RelayOuter | 2024/day_21/main.py:282-294 | each keypad of the chain types exactly the sequence of the keypad below it |
| KeypadConundrum.Presses | 2024/day_21/main.py:282-294 | every step costs at least one press |
| KeypadConundrum.PressesAlongAppend | 2024/day_21/main.py:290-293 | a sequence that ends back on A costs the same whatever follows it, so costs add up |
| KeypadConundrum.PressesAlongZero | 2024/day_21/main.py:286-287 | with no expansions left each key costs one press |
| KeypadConundrum.PressesAlongRobot | 2024/day_21/main.py:288-294 | the cost through n + 1 keypads is the cost through n keypads of the sequence that types s |
| KeypadConundrum.PressesAlongIsLength | 2024/day_21/main.py:282-294 | the summed costs are the length of the sequence pressed on the outermost keypad |
| KeypadConundrum.Cost | 2024/day_21/main.py:282-294 | the recursion and loop of cost compute the presses on the outermost keypad for one step |
| KeypadConundrum.CostAlong | 2024/day_21/main.py:300-304 | the loop over a sequence from A adds up the costs of its steps |
| KeypadConundrum.KeyText | 2024/day_21/main.py:305 | one character per key |
| KeypadConundrum.ComplexityOf | 2024/day_21/main.py:297-307 | defined exactly when the keys are numeric and the code without its last character reads as a number; then the outermost sequence's length times that number, never negative |
| KeypadConundrum.Complexity | 2024/day_21/main.py:297-307 | the method computes that complexity |
| KeypadConundrum.ComplexitySumDefined | 2024/day_21/main.py:310-311 | the sum is defined exactly when every code has a complexity, and is then not negative |
| KeypadConundrum.ParseKey | 2024/day_21/main.py:17-20 | a character that parses is a numeric key (A, or a digit read by int) |
| KeypadConundrum.ParseKeys | 2024/day_21/main.py:16-20 | the line parses exactly when every character does, giving one key per character |
| KeypadConundrum.ParseKeysText | 2024/day_21/main.py:16-20 | writing a code out and reading it back gives the code |
| KeypadConundrum.ParseCodeText | 2024/day_21/main.py:16-20 | the same through strip() |
| KeypadConundrum.ParseKeysPrefix | 2024/day_21/main.py:20 | once a prefix of the line fails to parse, so does the whole line (the int call raises) |
| KeypadConundrum.ParseInput | 2024/day_21/main.py:11-23 | the loop over lines builds the codes, or fails where a line does not parse |
| KeypadConundrum.ParseLine | 2024/day_21/main.py:15-21 | the inner loop parses one stripped line |
| KeypadConundrum.ReadKeys | 2024/day_21/main.py:15-21 | reading the stripped line one character at a time gives its keys in order, and None as soon as a character is not a key |
| LanParty.SplitOnce | 2024/day_23/src/main.rs:15 | defined exactly when the separator occurs; the text is the part before the first separator, the separator and the rest |
| LanParty.SplitOnceOf | 2024/day_23/src/main.rs:15 | splitting l + c + r at c, with no c in l, gives l and r back |
| LanParty.ParseLink | 2024/day_23/src/main.rs:15 | a line parses exactly when its trimmed text holds '-', into the names before and after the first '-'; otherwise the expect panics |
| LanParty.ParseLinkOf | 2024/day_23/src/main.rs:15 | the line a-b, with no '-' in a, parses to (a, b) |
| LanParty.GraphOfStep | 2024/day_23/src/main.rs:17-24 | one more line adds its link in both directions |
| LanParty.GraphOfLinks | 2024/day_23/src/main.rs:9-28 | the keys are the names on some line, and b is a neighbour of a exactly when some line links them in either order |
| LanParty.GraphOfShape | 2024/day_23/src/main.rs:9-28 | the parsed graph is symmetric, and has no self-link exactly when no line is a-a |
| LanParty.ParseFile | 2024/day_23/src/main.rs:9-28 | the loop over the lines builds that graph, or fails at a line without '-' |
| LanParty.Pos | 2024/day_23/src/main.rs:32-36 | the index of a key in the key order is where that key stands first |
| LanParty.PosInjective | 2024/day_23/src/main.rs:32-36 | with every key once in the order, distinct keys have distinct indices |
| LanParty.TrianglesMembers | 2024/day_23/src/main.rs:30-59 | a triple is found exactly when it satisfies the three loops' conditions |
| LanParty.FindTriangles | 2024/day_23/src/main.rs:30-59 | the loops build exactly that set of triples |
| LanParty.AddTrianglesAt | 2024/day_23/src/main.rs:38-56 | one round of the outer loop adds exactly the triples starting with its key |
| LanParty.AddThirds | 2024/day_23/src/main.rs:45-54 | one round of the middle loop adds exactly the triples starting with its two keys |
| LanParty.TriangleIff | 2024/day_23/src/main.rs:30-59 | on a symmetric graph without self-links, a triple is found exactly when its three computers are pairwise linked and listed in strictly increasing key order |
| LanParty.TriangleUnique | 2024/day_23/src/main.rs:30-59 | two found triples with the same members are equal, so each group of three is counted once |
| LanParty.NumTrianglesWithT | 2024/day_23/src/main.rs:61-68 | the count of found triples with a member starting with 't' |
| LanParty.WithTBound | 2024/day_23/src/main.rs:64-67 | the filtered triples are among the found ones, at most as many, and include every found triple with a 't' member |
| LanParty.ExtendClique | 2024/day_23/src/main.rs:87-88 | adding a candidate linked to the whole clique gives a clique one larger |
| LanParty.BronKerbosch | 2024/day_23/src/main.rs:70-103 | on return the current clique is as on entry, candidates are empty and the excluded set gained them; the largest clique is kept or replaced by a strictly larger clique, and no clique between current and current + candidates + excluded is larger |
| LanParty.LeafBounded | 2024/day_23/src/main.rs:77-82 | with no candidates and nothing excluded, the only clique in range is the current one |
| LanParty.EnterStep | 2024/day_23/src/main.rs:84-97 | the recursive call is made with a valid state and fewer candidates |
| LanParty.LeaveStep | 2024/day_23/src/main.rs:99-101 | moving the node from the candidates to the excluded set keeps the loop's state valid |
| LanParty.ExitBounded | 2024/day_23/src/main.rs:84-102 | after the loop, every clique in range uses an excluded name or is extended by one |
| LanParty.FindLargestClique | 2024/day_23/src/main.rs:105-117 | the result is a clique, and no clique of the graph is larger |
| LanParty.LargestIsMaximal | 2024/day_23/src/main.rs:105-117 | a largest clique cannot be extended by any computer |
| LanParty.Members | 2024/day_23/src/main.rs:120 | a listing of a set holds each member once |
| LanParty.Collect | 2024/day_23/src/main.rs:120 | the collected names are the set's members, each once |
| LanParty.PasswordAnyOrder | 2024/day_23/src/main.rs:120-122 | after sorting, the order the names were collected in does not matter |
| LanParty.PasswordOfSorted | 2024/day_23/src/main.rs:121-122 | a sorted listing of the set joined by commas is the password |
| LanParty.FindPassword | 2024/day_23/src/main.rs:119-123 | the password is the sorted, comma-joined names of a clique that no clique is larger than |
| LanParty.PasswordExample | 2024/day_23/src/main.rs:157-161 | the clique {co, de, ka, ta} gives "co,de,ka,ta" |
| FreshIngredients.Hull | 2025/day_05/main.py:26 | the merged range contains both ranges |
| FreshIngredients.CoveredMembers | 2025/day_05/main.py:47 | an id is covered exactly when some range contains it |
| FreshIngredients.HullCovers | 2025/day_05/main.py:20-26 | two ranges that pass the overlap test cover, together, exactly their hull |
| FreshIngredients.SharedOverlap | 2025/day_05/main.py:20-25 | ranges that share an id pass the overlap test |
| FreshIngredients.MergeRanges | 2025/day_05/main.py:13-33 | the list never grows; it shrinks when something merged, and comes back unchanged otherwise; something merges exactly when two input ranges overlap; for ranges with start <= end the ids covered stay the same |
| FreshIngredients.MergeRangesRecursive | 2025/day_05/main.py:36-40 | the recursion ends with a list that is no longer, has no two overlapping ranges and covers the same ids; a list without overlaps comes back unchanged |
| FreshIngredients.CountIn | 2025/day_05/main.py:43-50 | at most every ingredient is counted |
| FreshIngredients.Task1 | 2025/day_05/main.py:43-50 | the loops count each ingredient once, exactly when some range contains it |
| FreshIngredients.IntervalSize | 2025/day_05/main.py:58 | a range holds end - start + 1 ids |
| FreshIngredients.TotalSizeDisjoint | 2025/day_05/main.py:56-59 | for ranges no two of which overlap the sizes add up to the number of ids covered |
| FreshIngredients.Task2 | 2025/day_05/main.py:53-59 | for ranges with start <= end the result is the number of ids some range contains |
| FreshIngredients.TotalSizeAtLeastCovered | 2025/day_05/main.py:53-59 | without the merging the plain sum of sizes is never below the number of ids covered |
| FreshIngredients.ParseRange | 2025/day_05/main.py:3 | a line reads as a range exactly when it splits at `-` into two numbers |
| FreshIngredients.ParseRangeRendered | 2025/day_05/main.py:1-6 | a range written as "a-b" reads back as itself |
| FreshIngredients.NonEmpty | 2025/day_05/main.py:4-5 | the non-empty lines, and only lines of the input |
| FreshIngredients.NonEmptyAppend | 2025/day_05/main.py:4-5 | the filter keeps the order of the lines: the non-empty lines of a + b are those of a followed by those of b |
| JunctionBoxes.Dist | 2025/day_08/main.py:22-23 | the squared Euclidean distance of a pair is never negative |
| JunctionBoxes.DistProperties | 2025/day_08/main.py:22-23 | the distance does not depend on the order of the pair, and is zero exactly for a box paired with its own coordinates |
| JunctionBoxes.CoordPairsMembers | 2025/day_08/main.py:8-15 | the pairs are exactly the choices (coords[i], coords[j]) with i < j |
| JunctionBoxes.CoordPairsLength | 2025/day_08/main.py:8-15 | there are n(n-1)/2 pairs |
| JunctionBoxes.SortByDist | 2025/day_08/main.py:72 | the sort is ascending by distance and a permutation of the pairs |
| JunctionBoxes.RankingExists | 2025/day_08/main.py:72 | every list of boxes has a ranking of its pairs closest first |
| JunctionBoxes.ConnLastMerged | 2025/day_08/main.py:31-52 | the last pair merges the circuits of its two ends and nothing else |
| JunctionBoxes.ConnTransitive | 2025/day_08/main.py:31-52 | being connected through strung pairs is transitive |
| JunctionBoxes.PairsConnected | 2025/day_08/main.py:31-52 | the two boxes of every strung pair are connected |
| JunctionBoxes.ConnRespectsLabels | 2025/day_08/main.py:31-52 | connection is the least relation joining strung pairs: any labelling agreeing on every pair agrees on connected boxes |
| JunctionBoxes.ConnMentioned | 2025/day_08/main.py:31-52 | only boxes of some pair are connected to anything but themselves |
| JunctionBoxes.NewCircuit | 2025/day_08/main.py:32-36 | the first branch gives both boxes the fresh id max_id + 1 and keeps ids and dictionaries in agreement with the pairs |
| JunctionBoxes.AddToCircuit | 2025/day_08/main.py:37-44 | the second and third branches add the box without an id to the other box's circuit, keeping the agreement |
| JunctionBoxes.MergeIndexed | 2025/day_08/main.py:45-52 | with two different ids, moving the second circuit into the first and deleting its id keeps the two dictionaries consistent |
| JunctionBoxes.MergeTracked | 2025/day_08/main.py:45-52 | and makes the ids follow the pairs with the new pair added |
| JunctionBoxes.SameCircuit | 2025/day_08/main.py:48 | with one id nothing changes, since the boxes are already connected |
| JunctionBoxes.MoveBoxes | 2025/day_08/main.py:49-51 | each box of the second circuit gets the first id and joins the first circuit |
| JunctionBoxes.Step | 2025/day_08/main.py:31-52 | after one pair both boxes share an id, ids agree exactly with connection through the pairs so far, and a merge deletes the second id |
| JunctionBoxes.MergeBoth | 2025/day_08/main.py:45-52 | the last branch: two ids merge and the second is deleted; one id leaves the keys alone |
| JunctionBoxes.Circuits.Join | 2025/day_08/main.py:31-52 | one turn of the merge loop on the object's dictionaries: the pair is strung and both boxes share an id |
| JunctionBoxes.Circuits.SpansAll | 2025/day_08/main.py:95-97 | the check holds exactly when the pairs so far form one circuit holding as many boxes as the list |
| JunctionBoxes.Circuits.CircuitSizes | 2025/day_08/main.py:55 | the sizes of the dictionary's values are the sizes of the circuits, one per circuit |
| JunctionBoxes.CircuitsPartition | 2025/day_08/main.py:31-52 | the circuits partition the strung boxes into non-empty connected classes |
| JunctionBoxes.SameCircuitOf | 2025/day_08/main.py:31-52 | connected boxes have the same circuit |
| JunctionBoxes.IdCircuit | 2025/day_08/main.py:31-52 | the set id_to_coords holds for a box's id is the box's circuit |
| JunctionBoxes.IdsAreCircuits | 2025/day_08/main.py:31-52 | the values of id_to_coords are the circuits, a different set for each id |
| JunctionBoxes.Top | 2025/day_08/main.py:55 | nlargest(3, ..) takes three sizes, or all when there are fewer |
| JunctionBoxes.LargestProductAnyOrder | 2025/day_08/main.py:54-56 | the product does not depend on the order the sizes are listed in |
| JunctionBoxes.TopIsLargest | 2025/day_08/main.py:55 | no size left out is larger than one chosen |
| JunctionBoxes.Closest | 2025/day_08/main.py:25 | nsmallest(max_steps, ..) is the first max_steps pairs of the ranking, none when max_steps is not positive and all when it exceeds their number |
| JunctionBoxes.StringPairs | 2025/day_08/main.py:27-52 | the merge loop strings exactly the given pairs and leaves the dictionaries consistent |
| JunctionBoxes.ProductOf | 2025/day_08/main.py:54-56 | the loop multiplies the chosen sizes |
| JunctionBoxes.Task1 | 2025/day_08/main.py:18-58 | the product of the sizes of the three largest circuits after stringing the max_steps closest pairs |
| JunctionBoxes.Task2 | 2025/day_08/main.py:61-100 | the product of the x coordinates of the first pair after which the check holds, or 0 |
| JunctionBoxes.BoxesCount | 2025/day_08/main.py:95-97 | a list has at most as many different boxes as entries, exactly as many when no box repeats |
| JunctionBoxes.SpansIffConnected | 2025/day_08/main.py:95-97 | for at least two different boxes the check holds exactly when every box is connected to every other |
| JunctionBoxes.RepeatedBoxNeverSpans | 2025/day_08/main.py:95-97 | a list with a repeated box never passes the check, as a circuit holds fewer different boxes than the list's length |
| JunctionBoxes.RepeatedBoxAnswersZero | 2025/day_08/main.py:61-100 | with a repeated box task_2 returns 0 |
| JunctionBoxes.RankingConnectsAll | 2025/day_08/main.py:72-93 | stringing every pair connects every box |
| JunctionBoxes.Task2Meaning | 2025/day_08/main.py:61-100 | for at least two different boxes task_2 returns the x product of the first pair in the ranking after which every box is connected to every other |
| PageOrdering.SplitOnce | day_05/src/main.rs:11 | `split_once` succeeds exactly when the separator occurs, and then splits at its first occurrence |
| PageOrdering.ParseU32 | day_05/src/main.rs:13-31 | `parse::<u32>` succeeds exactly on an optional '+' followed by a non-empty run of digits whose value is below 2^32, and yields that value |
| PageOrdering.ParseU32Decimal | day_05/src/main.rs:13-31 | a u32 written out in decimal reads back as itself |
| PageOrdering.ParseRule | day_05/src/main.rs:11-16 | a rule line reads as its two numbers exactly when both sides parse; otherwise `expect` panics |
| PageOrdering.ParseRuleRendered | day_05/src/main.rs:11-16 | a rule written out as l, a bar and r reads back as itself |
| PageOrdering.GetRules | day_05/src/main.rs:9-16 | reading the rules succeeds exactly when every line holding a bar parses |
| PageOrdering.GetRulesSound | day_05/src/main.rs:9-16 | every rule read comes from a rule line |
| PageOrdering.GetRulesComplete | day_05/src/main.rs:9-16 | every rule line's rule is read |
| PageOrdering.Successors | day_05/src/main.rs:17-20 | in the folded map b is a successor of a exactly when the rule a, bar, b is given, and every page in the map has a successor |
| PageOrdering.RuleLineIsSuccessor | day_05/src/main.rs:7-21 | every input line l, bar, r puts r among the successors of l |
| PageOrdering.OrderingLines | day_05/src/main.rs:28 | the update lines are exactly the non-empty lines without a bar |
| PageOrdering.ParseNumbers | day_05/src/main.rs:30-32 | the fields of an update read as numbers exactly when every field parses, one number per field |
| PageOrdering.ParseOrdering | day_05/src/main.rs:29-33 | an update read has one page per comma-separated field, so at least one |
| PageOrdering.ParseOrderings | day_05/src/main.rs:23-35 | reading the updates succeeds exactly when every update line parses, one update per line |
| PageOrdering.OrderingRendered | day_05/src/main.rs:29-33 | an update written out with commas reads back as itself |
| PageOrdering.CorrectOrderIff | day_05/src/main.rs:37-51 | `correct_order` holds exactly when no page is followed by a page that a rule puts before it |
| PageOrdering.Compare | day_05/src/main.rs:54-70 | the comparator answers Less exactly when a rule puts the first page first, Greater exactly when only a rule putting the second first applies, Equal when no rule relates them |
| PageOrdering.CompareSwapped | day_05/src/main.rs:54-70 | without contradicting rules, swapping the pages swaps Less and Greater and keeps Equal |
| PageOrdering.SortByPermutes | day_05/src/main.rs:53-71 | `reorder` only rearranges the pages of the update |
| PageOrdering.SortBySorted | day_05/src/main.rs:53-71 | when the rules order the update's pages strictly and totally, the reordered update breaks no rule |
| PageOrdering.SortByCorrect | day_05/src/main.rs:53-71 | an update already in the right order is left as it is |
| PageOrdering.Reorder | day_05/src/main.rs:53-71 | the in-place sort leaves the array holding the stable sort of its old contents by the comparator |
| PageOrdering.InsertLast | day_05/src/main.rs:54 | one insertion step places the last page into the sorted prefix and leaves the rest of the array alone |
| PageOrdering.MakeRoom | day_05/src/main.rs:54 | the pages the new page compares Less to are shifted right one place and the others stay put |
| PageOrdering.Middle | day_05/src/main.rs:80-95 | the middle page is a page of the update |
| PageOrdering.ChallengesPartition | day_05/src/main.rs:73-97 | the two challenges together sum the middle page of every update after reordering, a correct update being its own reordering |
| PageOrdering.FiltersPartition | day_05/src/main.rs:79-90 | every update is selected by exactly one of the two filters |
| PageOrdering.Challenge1 | day_05/src/main.rs:73-82 | challenge 1 succeeds exactly when reading the rules and the updates does, and then sums the middle pages of the correct updates |
| PageOrdering.Challenge2 | day_05/src/main.rs:84-97 | the loop that reorders each incorrect update in a buffer sums the middle pages of the reordered incorrect updates |
| PageOrdering.ReorderedAreCorrect | day_05/src/main.rs:84-97 | under a strict total order of the pages every update challenge 2 reorders comes out correct and is a permutation of the original |
| RepeatedIds.NinesValue | 2025/day_02/main.py:20 | `int("9" * n)` is 10^n - 1, the largest number of n digits |
| RepeatedIds.OneZerosValue | 2025/day_02/main.py:21 | `int("1" + "0" * n)` is 10^n, the smallest number of n + 1 digits |
| RepeatedIds.SplitRanges | 2025/day_02/main.py:13-24 | the loop appends the pieces of every range in order |
| RepeatedIds.DigitLimits | 2025/day_02/main.py:20-21 | the two numbers the inner loop writes out are the last number of n digits and the first of n + 1 |
| RepeatedIds.SplitRangeOk | 2025/day_02/main.py:15-22 | a range with start <= end is cut into consecutive pieces, each of one digit count, that together are exactly the range |
| RepeatedIds.SplitRangeBackwards | 2025/day_02/main.py:15-22 | a range that ends before it starts is kept as it is |
| RepeatedIds.ProperFactors | 2025/day_02/main.py:28-34 | the factors listed are exactly the divisors of n below n, ascending |
| RepeatedIds.GetFactors | 2025/day_02/main.py:27-34 | the loop finds the proper factors of its argument |
| RepeatedIds.RepUnitIsPowerSum | 2025/day_02/main.py:49 | the repeated block "0...01" is the sum of the powers 10^(jk) for j below the repeat count |
| RepeatedIds.RepeatedBlockValue | 2025/day_02/main.py:49 | `int(("0" * (k - 1) + "1") * r)` is the repunit of block length k and r blocks |
| RepeatedIds.RepeatedValue | 2025/day_02/main.py:49 | a block of digits written r times is the block's value times the repunit of its length |
| RepeatedIds.GetDivisor | 2025/day_02/main.py:37-40 | there is a divisor exactly for an even digit count n, and it is 10^(n/2) + 1, the repunit of two blocks |
| RepeatedIds.GetDivisorText | 2025/day_02/main.py:40 | the divisor is the number written as "1", n/2 - 1 zeros and "1" |
| RepeatedIds.DivisorsOf | 2025/day_02/main.py:43-51 | one divisor per proper factor k of the digit count, the repunit of k-digit blocks, all positive |
| RepeatedIds.GetDivisors | 2025/day_02/main.py:43-51 | the loop builds the divisors for the digit count |
| RepeatedIds.MinInvalidIdAfter | 2025/day_02/main.py:54-55 | the least multiple of the divisor at or after the id |
| RepeatedIds.MaxInvalidIdBefore | 2025/day_02/main.py:58-59 | the greatest multiple of the divisor at or before the id |
| RepeatedIds.RangeStep | 2025/day_02/main.py:71-83 | `range(lo, hi, step)` holds exactly the numbers from lo below hi that are lo plus a multiple of step, ascending |
| RepeatedIds.MultiplesBetween | 2025/day_02/main.py:67-71 | stepping by d from the least multiple after start to the greatest before end meets exactly the multiples of d in [start, end] |
| RepeatedIds.InvalidIdsInRange | 2025/day_02/main.py:62-71 | none for an odd digit count; otherwise exactly the multiples of the divisor in [start, end], ascending |
| RepeatedIds.MultiplesIn | 2025/day_02/main.py:79-83 | the multiples of one divisor in [start, end], ascending |
| RepeatedIds.InvalidIdsInRange2 | 2025/day_02/main.py:74-85 | the ids found are duplicate-free and are exactly those in [start, end] that some divisor divides |
| RepeatedIds.GatherMultiples | 2025/day_02/main.py:78-84 | the gathered list holds exactly the ids in range that some divisor divides |
| RepeatedIds.Deduplicate | 2025/day_02/main.py:85 | `list(set(...))` keeps every id once and nothing else |
| RepeatedIds.Task1IdsAreTask2Ids | 2025/day_02/main.py:62-85 | every task-1 invalid id of a range is a task-2 one |
| RepeatedIds.MultipleIffRepeated | 2025/day_02/main.py:49 | an id of k r digits is a multiple of the repunit of r blocks of k exactly when its digits are one k-digit block written r times |
| RepeatedIds.DoubledIff | 2025/day_02/main.py:40 | an id of 2h digits is a multiple of 10^h + 1 exactly when its digits are one block written twice |
| RepeatedIds.InvalidIdsAreDoubled | 2025/day_02/main.py:62-71 | in a piece of one digit count, task 1 finds exactly the ids whose digits are one block written twice |
| RepeatedIds.FactorRepeats | 2025/day_02/main.py:43-51 | for a proper block length k, task 2's divisor for k divides an id exactly when its digits repeat a block of k |
| RepeatedIds.InvalidIds2AreRepeated | 2025/day_02/main.py:74-85 | in a piece of one digit count, task 2 finds exactly the ids whose digits are one block written at least twice |
| RepeatedIds.Task1 | 2025/day_02/main.py:88-94 | the loop sums task 1's invalid ids of every range |
| RepeatedIds.SumOfMultiples | 2025/day_02/main.py:85-101 | the sum of a duplicate-free list of exactly the matching ids does not depend on the order the set hands them out in |
| RepeatedIds.Task2 | 2025/day_02/main.py:97-103 | the loop sums task 2's invalid ids of every range, whatever order each set yields |
| RepeatedIds.ParseRange | 2025/day_02/main.py:7-8 | a field reads as a range exactly when it splits at `-` into two parts that `int` accepts |
| RepeatedIds.ParseRangeRendered | 2025/day_02/main.py:4-10 | a range written "a-b" reads back as itself, even with the file's final line break after it |
| Towels.TrimAll | 2024/day_19/src/main.rs:12-31 | one trimmed string per input string |
| Towels.ParseFile | 2024/day_19/src/main.rs:5-35 | no lines fail with "missing headers", one line with "missing expected format"; otherwise at least one pattern and one design per line after the second |
| Towels.ParseFileRoundTrip | 2024/day_19/src/main.rs:5-35 | a file written as the patterns joined by `,`, any second line and one design per line reads back as those patterns and designs |
| Towels.HasIffArrangement | 2024/day_19/src/main.rs:37-46 | `has_towel_arrangement` holds exactly when some sequence of patterns spells the design |
| Towels.HasIffNum | 2024/day_19/src/main.rs:37-70 | a design is possible exactly when its number of arrangements is positive |
| Towels.NumCountsArrangements | 2024/day_19/src/main.rs:48-70 | the count is the number of distinct sequences of patterns that spell the design |
| Towels.Memo.constructor | 2024/day_19/src/main.rs:82 | the memo starts empty |
| Towels.NumPossibleTowelArrangements | 2024/day_19/src/main.rs:48-70 | with a memo holding only true counts, the result is the memo-free count, the memo stays sound, keeps its keys and gains the design |
| Towels.NumPossible | 2024/day_19/src/main.rs:72-78 | challenge 1 counts at most every design |
| Towels.PossibleAtMostArrangements | 2024/day_19/src/main.rs:72-87 | challenge 1 never exceeds challenge 2 |
| Towels.Challenge2 | 2024/day_19/src/main.rs:80-87 | with one memo shared by all designs, challenge 2 sums every design's number of arrangements |
| Stones.Rule1 | 2024/day_11/src/main.rs:13-18 | `rule_1` applies exactly to the stone 0, and turns it into the single stone 1 |
| Stones.Rule2 | 2024/day_11/src/main.rs:20-29 | `rule_2` applies exactly to stones with an even number of digits, and gives two stones |
| Stones.Ruleset | 2024/day_11/src/main.rs:35-40 | a blink turns a stone into one or two stones |
| Stones.Rule2Halves | 2024/day_11/src/main.rs:25-28 | for a stone of 2h digits the halves are its quotient and remainder by 10^h, leading zeros of the right half dropped |
| Stones.RulesetCases | 2024/day_11/src/main.rs:31-40 | 0 becomes 1; otherwise an even number of digits splits; otherwise the stone is multiplied by 2024 |
| Stones.BlinkAppend | 2024/day_11/src/main.rs:54-59 | blinking a row is blinking its parts separately, in order |
| Stones.SumStonesIsLength | 2024/day_11/src/main.rs:42-59 | the per-stone recursive count is the length of the row after that many blinks |
| Stones.NumStonesBounds | 2024/day_11/src/main.rs:42-52 | under a rule yielding one or two stones, a stone becomes between 1 and 2^blinks stones |
| Stones.SumStonesAppend | 2024/day_11/src/main.rs:54-59 | the count of a row is the sum of the counts of its parts |
| Stones.NumStonesAfterBlinking | 2024/day_11/src/main.rs:54-59 | the number of stones in the row after the blinks, between the row's length and 2^blinks times it |
| Stones.NumStonesAfterBlinkingSingle | 2024/day_11/src/main.rs:42-52 | one stone becomes between 1 and 2^blinks stones, and after a first blink it counts as the stones it turned into |
| Schematics.Row | 2024/day_25/src/main.rs:36-47 | `next_row` has a 1 exactly in the columns whose character is `#` |
| Schematics.AddRow | 2024/day_25/src/main.rs:49-51 | each column of the current data grows by the new row's entry |
| Schematics.Step | 2024/day_25/src/main.rs:13-52 | one iteration keeps the scan state well formed, and panics exactly on a non-blank line shorter than five characters |
| Schematics.ParseFile | 2024/day_25/src/main.rs:3-55 | the loop over the lines, with the five-slot array updated in place, computes the keys and locks of the line-by-line fold |
| Schematics.NextRow | 2024/day_25/src/main.rs:36-47 | the row is built exactly when the line has five characters, and then marks the `#` columns |
| Schematics.AddRowInto | 2024/day_25/src/main.rs:49-51 | the array holds the column-wise sum of its old contents and the row |
| Schematics.FeedLine | 2024/day_25/src/main.rs:14-51 | the body of the loop performs one step of the fold, failing exactly where that step panics |
| Schematics.Heights | 2024/day_25/src/main.rs:9-51 | a block's stored heights: five columns, each the `#` count minus one |
| Schematics.InsideBlock | 2024/day_25/src/main.rs:36-51 | inside a block every non-blank line only adds its row |
| Schematics.OutsideIgnoresCurrent | 2024/day_25/src/main.rs:14-16 | outside a block the array is reset first, so what it held does not matter |
| Schematics.HeightsAreCounts | 2024/day_25/src/main.rs:9-51 | adding a block's rows to the reset array gives its heights |
| Schematics.LockBlock | 2024/day_25/src/main.rs:17-33 | a lock block closed by a blank line is pushed onto the locks with its heights |
| Schematics.KeyBlock | 2024/day_25/src/main.rs:20-33 | a key block closed by a blank line is pushed onto the keys with its heights |
| Schematics.ParseRendered | 2024/day_25/src/main.rs:3-55 | a file of lock and key blocks, each closed by a blank line, yields their heights: keys and locks each in file order |
| Schematics.BlankOutsideBlockIsLock | 2024/day_25/src/main.rs:17-33 | a blank line outside a block passes the all-`#` test, so it pushes the reset array as a lock |
| Schematics.DoubleBlankLine | 2024/day_25/src/main.rs:14-33 | two blank lines between blocks add a lock [-1, -1, -1, -1, -1] between them |
| Schematics.UnclosedBlockDropped | 2024/day_25/src/main.rs:24-54 | a block with no blank line after it is never pushed |
| Schematics.CheckFitIff | 2024/day_25/src/main.rs:57-59 | a lock fits a key exactly when in every column their heights add up to less than 6 |
| Schematics.CheckFitExamples | 2024/day_25/src/main.rs:83-86 | the fit checks of the first test lock against the three test keys |
| Schematics.FitsOf | 2024/day_25/src/main.rs:64 | a lock fits at most every key |
| Schematics.CountFittingPairsBound | 2024/day_25/src/main.rs:61-66 | at most every lock-key pair fits |
| Schematics.CountOrderIrrelevant | 2024/day_25/src/main.rs:61-66 | counting lock by lock or key by key gives the same number of pairs |
| Schematics.UnsetFitsAll | 2024/day_25/src/main.rs:57-59 | the spurious lock [-1, -1, -1, -1, -1] fits every key with heights below 7 |
| PaperRolls.Contents | 2025/day_04/main.py:5-8 | the grid read row by row: one row per array row, each as wide as the array, cell for cell |
| PaperRolls.NeighborCounts | 2025/day_04/main.py:5-24 | the specification of the counts: every cell gets the number of occupied cells among its in-bounds neighbours |
| PaperRolls.CountBeforeStep | 2025/day_04/main.py:10-22 | visiting a cell adds its occupant to each of its eight neighbours' counts |
| PaperRolls.CountBeforeEnds | 2025/day_04/main.py:8-24 | before the first cell nothing is counted; after the last, the whole neighbour count |
| PaperRolls.Spread | 2025/day_04/main.py:14-22 | the offset loops add delta to the count of each in-bounds cell around the given one, and no other |
| PaperRolls.CountedAll | 2025/day_04/main.py:10-24 | once every cell has been visited the counts are the neighbour counts |
| PaperRolls.GetNeighborCounts | 2025/day_04/main.py:5-24 | no answer for a grid without a first row (`grid[0]` raises); otherwise the neighbour counts of the grid |
| PaperRolls.ReachableAtMostRolls | 2025/day_04/main.py:27-35 | task 1 never counts more than the rolls on the grid |
| PaperRolls.ReachableRollsNone | 2025/day_04/main.py:27-35 | task 1 counts nothing exactly when no roll has fewer than four occupied neighbours |
| PaperRolls.Task1 | 2025/day_04/main.py:27-35 | no answer for a grid without a first row; otherwise the number of rolls with fewer than four occupied neighbours |
| PaperRolls.Sweep | 2025/day_04/main.py:44-57 | one pass over the cells before a given one keeps the grid's shape |
| PaperRolls.Settle | 2025/day_04/main.py:42-61 | passes until one removes nothing: the grid task 2 leaves |
| PaperRolls.VisitRolls | 2025/day_04/main.py:46-48 | a visit takes away one roll exactly when the cell holds a reachable roll |
| PaperRolls.SettleRolls | 2025/day_04/main.py:42-61 | task 2 never adds rolls |
| PaperRolls.PassIdleIffUnreachable | 2025/day_04/main.py:43-61 | a pass removes nothing exactly when task 1 finds no reachable roll |
| PaperRolls.SettleStable | 2025/day_04/main.py:60-61 | when task 2 stops no roll on the grid is reachable |
| PaperRolls.RemovedNoneIffUnreachable | 2025/day_04/main.py:27-63 | task 2 removes nothing exactly when task 1 counts nothing |
| PaperRolls.SweepThins | 2025/day_04/main.py:44-57 | a pass only turns rolls into floor, and only in cells it has visited |
| PaperRolls.SettleThins | 2025/day_04/main.py:42-61 | task 2 only turns `@` cells into `.` |
| PaperRolls.ThinnedCount | 2025/day_04/main.py:5-24 | taking rolls away never raises a neighbour count |
| PaperRolls.SweepClears | 2025/day_04/main.py:44-57 | every roll reachable at the start of a pass is gone once the pass has visited it |
| PaperRolls.RemovedAtLeastReachable | 2025/day_04/main.py:27-63 | task 2 removes at least the rolls task 1 counts |
| PaperRolls.RemoveNeighborCount | 2025/day_04/main.py:48-57 | taking away a roll lowers by one exactly the counts of its neighbours |
| PaperRolls.TakeRoll | 2025/day_04/main.py:46-57 | taking the roll turns its cell into floor, keeps the counts those of the new grid and lowers the roll count by one |
| PaperRolls.RemovalPass | 2025/day_04/main.py:43-58 | one pass of the outer loop turns the grid into one pass of itself, keeping the counts those of the current grid |
| PaperRolls.Task2 | 2025/day_04/main.py:38-63 | no answer and an unchanged grid without a first row; otherwise the rolls removed, with the settled grid left in the caller's array |
| TachyonBeams.Contents | 2025/day_07/main.py:4-5 | the grid read row by row, cell for cell |
| TachyonBeams.Visit | 2025/day_07/main.py:15-27 | one visit keeps the grid's shape |
| TachyonBeams.VisitLights | 2025/day_07/main.py:15-27 | a visit only writes beams, and only into its own row |
| TachyonBeams.TraceBound | 2025/day_07/main.py:13-27 | task 1 only writes beams, and counts at most one split per splitter it has passed |
| TachyonBeams.SplitsAtMostSplitters | 2025/day_07/main.py:8-29 | every split task 1 counts is at a splitter of the input |
| TachyonBeams.TraceSinceRows | 2025/day_07/main.py:13-27 | the rows above the current one are final once the loop reaches it |
| TachyonBeams.BeamsPropagate | 2025/day_07/main.py:15-18 | in the grid task 1 leaves, every `.` below a beam or the entry carries a beam |
| TachyonBeams.SetCell | 2025/day_07/main.py:18-25 | writing one cell changes that cell and no other |
| TachyonBeams.VisitCell | 2025/day_07/main.py:15-27 | one visit on the copy performs the specified visit and returns the split it counts |
| TachyonBeams.MarkRow | 2025/day_07/main.py:14-27 | one row of task 1's loop traces that row |
| TachyonBeams.Task1 | 2025/day_07/main.py:8-29 | None where the grid has no first row; otherwise the splits of the traced copy, the caller's grid unchanged |
| TachyonBeams.FirstRow | 2025/day_07/main.py:35-38 | row 0 of the timeline counts, as wide as the grid |
| TachyonBeams.CountsNonNegative | 2025/day_07/main.py:35-49 | timeline counts are never negative |
| TachyonBeams.ScatterIsNextRow | 2025/day_07/main.py:41-49 | sending each count on from its column gives the row in which each cell gathers the counts that reach it |
| TachyonBeams.ScatterConserves | 2025/day_07/main.py:41-49 | every timeline goes on into as many cells as its column feeds: down through a `.`, into each in-bounds side at a splitter, and nowhere at any other cell |
| TachyonBeams.TimelinesStep | 2025/day_07/main.py:40-51 | the timelines of a row are those of the row above, each counted once per cell it goes on into |
| TachyonBeams.StartRow | 2025/day_07/main.py:36-38 | task 2's row 0 has a one under every entry |
| TachyonBeams.ScatterColumn | 2025/day_07/main.py:42-49 | one column of task 2's row loop sends the count above it on |
| TachyonBeams.FillRow | 2025/day_07/main.py:41-49 | the column loop over one row fills that row with its timeline counts |
| TachyonBeams.Task2 | 2025/day_07/main.py:32-51 | None where the grid has no first row; otherwise the sum of the last row of timeline counts |
| CephalopodMath.Lines | 2025/day_06/main.py:10-24 | `splitlines` gives lines without any of its line boundaries ('\n', '\r', '\x0b', '\x0c', '\x1c' to '\x1e', '\x85', U+2028, U+2029), "\r\n" counting as one |
| CephalopodMath.Entry | 2025/day_06/main.py:8-15 | a stored number is never negative: the token, or the initial 0 when the line has no such token |
| CephalopodMath.ParseGrid | 2025/day_06/main.py:4-17 | parsing succeeds exactly when every line's tokens fit the matrix; then one row of `numLines` numbers per token of the first line |
| CephalopodMath.ParsedRow | 2025/day_06/main.py:10-15 | a problem's numbers are its tokens on the number lines, in line order |
| CephalopodMath.StoreOperator | 2025/day_06/main.py:12-13 | a token of the operator line is appended to the operators |
| CephalopodMath.StoreNumber | 2025/day_06/main.py:14-15 | a token of a number line is stored at its problem and line |
| CephalopodMath.StoredReject | 2025/day_06/main.py:11-15 | a token that does not fit makes `parse_problems` raise |
| CephalopodMath.ParseProblems | 2025/day_06/main.py:4-17 | the method computes the specified parse, None where the code raises |
| CephalopodMath.FillMatrix | 2025/day_06/main.py:5-15 | the loops build the parsed matrix and operator list |
| CephalopodMath.RenderLines | 2025/day_06/main.py:6-10 | a written-out worksheet splits back into its lines, one line break each |
| CephalopodMath.ParseRendered | 2025/day_06/main.py:4-17 | part one reads a written-out worksheet back: rendering then parsing is the identity |
| CephalopodMath.BlankColumn | 2025/day_06/main.py:29 | a column is blank exactly when it contributes no characters |
| CephalopodMath.DigitsAreColumn | 2025/day_06/main.py:33-36 | every non-space character of the column is in its number |
| CephalopodMath.JoinSplitAtNone | 2025/day_06/main.py:26-38 | splitting the columns at the blank ones and joining the groups gives the columns back |
| CephalopodMath.SplitJoinAtNone | 2025/day_06/main.py:26-38 | joining groups and splitting them at the blank columns gives the groups back |
| CephalopodMath.GroupCount | 2025/day_06/main.py:26-38 | there is one group more than there are blank columns |
| CephalopodMath.ParseColumnsSpec | 2025/day_06/main.py:20-40 | the operators of part two are the tokens of the last line |
| CephalopodMath.RejectShort | 2025/day_06/main.py:29 | a row shorter than the first line makes `parse_problems_2` raise |
| CephalopodMath.RejectColumn | 2025/day_06/main.py:37 | a column that is neither blank nor a number makes it raise |
| CephalopodMath.ParseProblems2 | 2025/day_06/main.py:20-40 | the method computes the specified column parse, None where the code raises |
| CephalopodMath.ReadColumns | 2025/day_06/main.py:26-38 | the column loop gives the groups of column numbers between blank columns |
| CephalopodMath.ColumnTextReads | 2025/day_06/main.py:33-37 | a column of digits then spaces reads as its number, a column of spaces as blank |
| CephalopodMath.DigitsTransposed | 2025/day_06/main.py:33-36 | reading a column of the transposed rows gives back the column's characters |
| CephalopodMath.ParseColumnsRendered | 2025/day_06/main.py:20-40 | part two reads a worksheet written column by column back: rendering then parsing is the identity |
| CephalopodMath.ReduceAdd | 2025/day_06/main.py:46-58 | folding with `add` is the sum |
| CephalopodMath.ReduceMul | 2025/day_06/main.py:49-58 | folding with `mul` is the product |
| CephalopodMath.GrandTotalIgnoresSurplus | 2025/day_06/main.py:52 | a group without an operator does not change the total, because `zip` stops at the shorter list |
| CephalopodMath.GrandTotalSnoc | 2025/day_06/main.py:52-58 | one more problem with its operator adds its answer to the total |
| CephalopodMath.CalcProblems | 2025/day_06/main.py:43-60 | the loop computes the grand total: each paired problem's numbers summed, or multiplied under `*`; None where `reduce` meets an empty problem |
| SafeDial.ParseRotation1 | 2025/day_01/main.py:6-10 | a line reads exactly when `int(line[1:])` parses; an `L` line turns left by that amount, any other line right |
| SafeDial.ParseRotation2 | 2025/day_01/main.py:41-47 | lines starting with neither `L` nor `R` are skipped; the others read as in part 1 |
| SafeDial.ParseAll1 | 2025/day_01/main.py:5-10 | the file reads exactly when every line does, one rotation per line |
| SafeDial.ParseAll2 | 2025/day_01/main.py:40-47 | the file reads exactly when every turning line does, at most one rotation per line |
| SafeDial.CountLandings | 2025/day_01/main.py:5-12 | the loop counts the rotations after which the dial points at 0 |
| SafeDial.Part1 | 2025/day_01/main.py:1-14 | None where a line does not parse; otherwise the number of rotations from 50 that end on 0 |
| SafeDial.ModShift | 2025/day_01/main.py:51 | reducing the position first does not change where the dial ends |
| SafeDial.ZeroClicksRight | 2025/day_01/main.py:20-23 | turning right, the clicks onto 0 are the multiples of 100 after the start up to the end |
| SafeDial.ZeroClicksLeft | 2025/day_01/main.py:24-31 | turning left, the clicks onto 0 are the multiples of 100 from the end up to before the start |
| SafeDial.ZeroClicksShift | 2025/day_01/main.py:51 | shifting start and end by whole turns keeps the count |
| SafeDial.TimesZeroIsCrossed | 2025/day_01/main.py:17-33 | for a start in 0..99 the two loops count the clicks that land on 0 when turning one click at a time, the `-1` for a left turn from 0 included |
| SafeDial.CountZeroClicks | 2025/day_01/main.py:49-51 | the loop, keeping `current` in 0..99, counts every click onto 0 over all rotations |
| SafeDial.Part2 | 2025/day_01/main.py:36-53 | None where a line does not parse; otherwise every click onto 0 over all rotations from 50 |
| SafeDial.LandingsAtMostClicks | 2025/day_01/main.py:1-53 | with no zero-length rotation, part 2 is at least part 1 |
| SafeDial.ZeroRotationCountsOnlyOnce | 2025/day_01/main.py:12-33 | a zero-length rotation at 0 counts in part 1 but clicks nothing in part 2 |
| BatteryBanks.Scan | 2025/day_03/main.py:1-9 | the pair the scan keeps: a position inside the window, or -1, and (0, -1) for an empty window |
| BatteryBanks.ScanMeaning | 2025/day_03/main.py:1-9 | the digit is the window's maximum and the position its first occurrence, or (0, -1) when every digit is 0 |
| BatteryBanks.ScanSlice | 2025/day_03/main.py:19 | the scan of a slice depends only on the digits inside it |
| BatteryBanks.LargestDigit | 2025/day_03/main.py:1-9 | the loop computes the scan's pair, a digit below 10 |
| BatteryBanks.WindowEnd | 2025/day_03/main.py:16-18 | the slice end `-n + i + 1`, or the end of the bank when that is 0, leaves room for the digits still to pick |
| BatteryBanks.PlaceIsPow | 2025/day_03/main.py:21 | the digit placed at e is `10 ** e * d` |
| BatteryBanks.GetJoltage | 2025/day_03/main.py:12-22 | the loop computes the greedy joltage of the bank |
| BatteryBanks.WindowScan | 2025/day_03/main.py:16-19 | the slice handed to `get_largest_digit`, with Python's clamping, scans like the window |
| BatteryBanks.JoltageBound | 2025/day_03/main.py:12-22 | the joltage has at most n digits |
| BatteryBanks.GreedyUpper | 2025/day_03/main.py:15-21 | no choice of the remaining batteries, kept in order, beats the greedy loop |
| BatteryBanks.SkipZero | 2025/day_03/main.py:5-20 | a leading 0 battery does not change the greedy result |
| BatteryBanks.GreedyAttained | 2025/day_03/main.py:15-21 | some choice of the remaining batteries, kept in order, reaches the greedy result |
| BatteryBanks.JoltageIsOptimal | 2025/day_03/main.py:12-22 | the joltage is the largest number spelled by n batteries of the bank kept in order |
| BatteryBanks.TotalJoltageBound | 2025/day_03/main.py:25-30 | each bank adds less than 10^n |
| BatteryBanks.SumJoltages | 2025/day_03/main.py:25-30 | the generator sums the joltage of every bank |
| BatteryBanks.Task1 | 2025/day_03/main.py:25-26 | task 1 sums the two-battery joltages |
| BatteryBanks.Task2 | 2025/day_03/main.py:29-30 | task 2 sums the twelve-battery joltages |
| Reports.Diffs | 2024/day_02/main.py:2 | one difference per adjacent pair of levels, later minus earlier |
| Reports.IsSafeIff | 2024/day_02/main.py:1-11 | `is_safe` holds exactly when the levels rise, or fall, by 1 to 3 at every step |
| Reports.ShortReportSafe | 2024/day_02/main.py:1-11 | a report of at most one level has no differences and is safe |
| Reports.RepeatedLevelUnsafe | 2024/day_02/main.py:4-11 | two equal adjacent levels make a report unsafe |
| Reports.Without | 2024/day_02/main.py:37 | dropping the level at idx keeps every other level in order |
| Reports.SafeIsDampenedSafe | 2024/day_02/main.py:36-38 | a safe report is safe with the dampener |
| Reports.SafeWithoutEnds | 2024/day_02/main.py:36-38 | dropping the first or the last level of a safe report keeps it safe |
| Reports.DampenLastLevel | 2024/day_02/main.py:36-38 | a single bad level at the end can be dampened away |
| Reports.DroppingMiddleCanBreak | 2024/day_02/main.py:37 | dropping a middle level can make a safe report unsafe |
| Reports.ParseReport | 2024/day_02/main.py:23 | a line reads exactly when each of its tokens is a number, one level per token |
| Reports.SafeAtMostDampened | 2024/day_02/main.py:29-41 | the dampener never turns a safe report unsafe, so challenge 2 counts at least challenge 1 |
| Reports.SomeDeletionSafe | 2024/day_02/main.py:36-38 | the `any` holds exactly when dropping some level from idx on leaves a safe report |
| Reports.Tally | 2024/day_02/main.py:14-41 | the four counters: safe and dampened-safe reports, with safe plus unsafe (and likewise dampened) equal to the non-empty reports |
| LocationLists.Abs | 2024/day_01/main.py:22 | `abs` gives the number or its negation |
| LocationLists.ParsePair | 2024/day_01/main.py:11-13 | a line reads exactly when it has two tokens that are both numbers, and gives those numbers |
| LocationLists.ParsePairRoundTrip | 2024/day_01/main.py:11-13 | two numbers written on a line read back as themselves |
| LocationLists.ParseLists | 2024/day_01/main.py:7-13 | the file reads exactly when every line does; then one number per line in each list, in file order |
| LocationLists.ReadLists | day_01/challenge_1/main.py:4-8 | the reading loop builds the two lists of the file, None where a line raises |
| LocationLists.ParseListsPrefix | 2024/day_01/main.py:10-13 | a line that fails to parse makes the whole read fail |
| LocationLists.SortList | 2024/day_01/main.py:17-18 | `sort` leaves the list in ascending order with the same elements |
| LocationLists.DiffSumSymmetric | 2024/day_01/main.py:20-25 | the distance does not depend on which list is left |
| LocationLists.DiffSumZero | 2024/day_01/main.py:20-25 | the distance is zero exactly when the lists agree position by position over the shorter length |
| LocationLists.TotalDistanceOrderFree | day_01/challenge_1/main.py:10-18 | the total distance depends only on the multisets of the lists, not on the reading order |
| LocationLists.TotalDistanceZero | day_01/challenge_1/main.py:10-18 | lists of equal length are at distance zero exactly when they hold the same IDs |
| LocationLists.SimilarityRightMultiset | 2024/day_01/main.py:31-38 | `Counter(right).get(l, 0)` is the multiplicity of l in the right list, so only its multiset matters |
| LocationLists.SimilarityAddRight | 2024/day_01/main.py:31-38 | one more right ID x adds x times its count on the left |
| LocationLists.SimilaritySymmetric | 2024/day_01/main.py:31-38 | the score is the same with the lists exchanged |
| LocationLists.SimilarityOrderFree | 2024/day_01/main.py:17-38 | the score does not depend on the order of either list, so sorting before part 2 leaves it unchanged |
| LocationLists.SimilarityScore | 2024/day_01/main.py:31-38 | part 2 on the sorted lists is the similarity of the lists read |
| LocationLists.SimilarityDisjoint | 2024/day_01/main.py:33-38 | a left list none of whose IDs occurs on the right scores zero |
| Basics.ParseNat | 2025/day_05/main.py:3 | `int(s)` succeeds on a non-empty run of decimal digits and gives its value |
| Basics.Decimal | 2025/day_02/main.py:16-17 | `str(n)` is a non-empty digit string that starts with 0 only for 0 |
| Basics.DecimalRoundTrip | 2025/day_02/main.py:16-17 | `int(str(n))` is n |
| Basics.NumDigits | 2025/day_02/main.py:16-17 | `len(str(n))`, at least one |
| Basics.SortInts | 2024/day_01/main.py:17-18 | `list.sort()` gives an ascending permutation of the list |
| Basics.SortedUnique | 2024/day_01/main.py:17-18 | two ascending lists with the same elements are equal, so the sorted list is determined by the elements |
| Basics.Split | 2024/day_02/main.py:23 | `str.split()` gives non-empty tokens without whitespace, whitespace being the characters of `str.isspace` |
| Basics.SplitJoin | 2024/day_02/main.py:23 | splitting words joined by single spaces gives the words back |
| Basics.SplitOn | 2025/day_02/main.py:6-7 | `s.split(c)` gives at least one field, none holding c |
| Basics.JoinSplitOn | 2025/day_02/main.py:6-7 | joining the fields with the separator gives the string back |
| Basics.SplitOnJoin | 2025/day_02/main.py:6-7 | splitting fields joined by the separator gives the fields back |
| Basics.Trim | 2024/day_19/src/main.rs:12-31 | `trim` leaves no whitespace at either end |
| Basics.TrimIdempotent | 2024/day_19/src/main.rs:12-31 | trimming twice is trimming once |
| Basics.ReadAll | day_05/src/main.rs:31 | reading a list succeeds exactly when every element reads, one value per element |
