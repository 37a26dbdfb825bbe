# A verified model of the oblivious circuit runtime

A tamper-resistant card runs a circuit whose arrays live on an untrusted host. An array is stored under a
secret permutation; every access fetches one more element into a working set and scans all of that set;
when a session is over, the working set goes back and the array is moved to a new permutation by a sorting
network. This project models that machinery from the sorting network up to the circuit evaluator and proves
that none of it shows: **a circuit run over hidden arrays leaves the value table, the array contents and the
outputs, or stops with the fault, that it would have over plain arrays** (`Evaluator.CircuitEval.Eval`), for
every circuit, every choice of random probes and permutations, every value C++ leaves undefined and whatever
uninitialised buffers hold.

The layers, each proved against a specification that the next one uses:

| layer | modules | main result |
|---|---|---|
| comparator networks | `Network`, `BatcherSort`, `BatcherShape` | Batcher's network, cut off at any width, sorts (`BatcherSorts`); it is the network for the next power of two with some comparators left out (`BatcherRestricted`, `CutOffIsFull`) |
| the control loop and the batching comparator | `BatcherLoop` (RunBatcher.dfy), `Comparators`, `Bulk` | the loop, in 32-bit unsigned arithmetic, asks for exactly that network; executing comparators in bulk is executing them one by one |
| streams | `FlatStore`, `Stream` | chunked processing is one-at-a-time processing, also in place and without outputs |
| shuffling | `Permutations`, `Shuffling` | the record at i ends up, unchanged, at p(i) |
| hidden arrays | `HiddenState`, `WorkingSet`, `ObliviousArray`, `ArrayStore` | reads, writes and re-permutations are those of a plain sequence; distinct descriptors never interfere |
| circuits | `Words`, `NilArithmetic`, `Circuit`, `Evaluator`, `CircuitMeaning` | evaluation is evaluation over plain arrays; the table fill is the recursive meaning in any order; Nil and enable bits behave as promised |
| what plain evaluation means | `OperatorLaws`, `GateLaws`, `ArrayLaws`, `StructLaws`, `NewArrayLaws` | laws that fix the results of operators and gates without naming how they are worked out: arithmetic, bits, misses, the places of struct components, the pointers that gates hand on, outputs |

## Assumptions

- The machine has 32-bit `int`, `unsigned`, `size_t` and `index_t`, little-endian, with arithmetic right shift.
- Arrays and networks have 1 to 2^31 - 1 elements. The bound is where `int(N)` in card/batcher-network.h:108
  stops being defined; up to it no sum or difference in the loops wraps. For two elements or more the cache
  must hold two records, or the shuffler's batch size would be 0 and no batch would ever be full
  (card/batcher-permute.cc:98, 179).
- The storage layer is a container of byte strings with pointwise and list reads and writes. `lgN_ceil(N)` is
  the least n with 2^n >= N, `lgN_floor(N)` the greatest n with 2^n <= N, and `RePermutation(p, q)` takes p(x)
  to q(x).
- Randomness is any stream of probes and any sequence of permutations. For the probe loop to end, every
  index must keep turning up among the probes; nothing else is assumed. The square root computed in floating
  point (card/array.cc:135) is any function.
- Results that C++ leaves undefined (overflow, a bad shift amount) and the bytes of buffers before they are
  filled are parameters of the theorems: any values. Assertions and exceptions are faults that stop the run.

## Where code and comments differ

The model follows the code.

- The containers of the working set are created with `_max_retrievals` slots (card/array.cc:349-351), but the
  budget test is `>` (card/array.cc:205, 243), so one more element than that is in use before a session ends.
  Containers grow by one slot in the model, and the bound proved is `maxRetrievals + 1`.
- A `Select` gate with a Nil selector picks its second value (card/run-circuit.cc:292-295), and `LNot` of Nil
  is 1 (common/gate.cc:134): both break monotonicity in Nil, and the exact conditions are proved.
- A read that misses sets only the tag of the first component to Nil (card/array.cc:746-747); the tags of later
  components are whatever the buffer held (`StructLaws.NilReadComponents`).
- A condition other than Nil, 0 and 1 disables both branches of a conditional, since `And` gives Nil for it
  (common/gate.cc:57-63) while `Select` takes it as true (`NilArithmetic.OneLeafWrites`).

## Model

| member | source | states |
|---|---|---|
| BatcherSort.BatcherSorts | card/batcher-network.h:71-173 | for every width, power of two or not, and every key, the network leaves the wires sorted and holding a permutation of the input |
| BatcherSort.InvertedHalfCleaner | card/batcher-network.h:86-113 | comparing two sorted halves of bits with each other's mirror image leaves two bitonic halves, nothing in the first above anything in the second |
| BatcherSort.HalfCleaner | card/batcher-network.h:144-164 | comparing the halves of a bitonic block of bits leaves two bitonic halves, the first before the second |
| BatcherSort.PassEffect | card/batcher-network.h:98-113 | after a pass that leaves out comparators with a missing wire, every wire holds the minimum or maximum of itself and its mate, with missing wires counted as top |
| BatcherSort.MergerSorts | card/batcher-network.h:84-170 | one merger turns two sorted halves of any aligned block into one sorted block, also where the block is cut off |
| BatcherSort.SortersFinish | card/batcher-network.h:128-167 | the remaining bitonic sorters of a merger turn a chain of bitonic blocks into a sorted block |
| Network.ZeroOnePrinciple | card/batcher-network.h:64-73 | passes that sort every sequence of bits sort every sequence |
| Network.RunPassesPermutes | card/test-batcher-network.cc:33-41 | compare-exchanges never lose or invent an element |
| BatcherShape.BatcherPassesDisjoint | card/batcher-permute.cc:235-239 | in no pass of any width does a wire occur twice, and every comparator has a < b < N |
| BatcherShape.BatcherRestricted | card/batcher-network.h:94-113 | the network on N wires is the one for the next power of two without the comparators whose bottom wire is N or more: same passes, same order |
| BatcherShape.CutOffIsFull | card/batcher-network.h:137-164 | with a top value on every missing wire, the full network computes on the N wires what the cut-off one does, and the top values never move |
| BatcherShape.BatcherCost | card/batcher-network.h:81-167 | n(n+1)/2 passes for n = ceil(lg N), each with at most N/2 comparators |
| BatcherShape.FullNetworkCost | card/batcher-network.h:81-167 | exactly N n(n+1)/4 comparators when N = 2^n |
| BatcherLoop.RunBatcher | card/batcher-network.h:71-173 | in wrapping-free 32-bit arithmetic the loops ask for exactly the passes of the network, in order, with a boundary after each; afterwards nothing is pending and the container is what those passes make of it |
| BatcherLoop.MirroredGroup | card/batcher-network.h:98-113 | one group of mirrored half-cleaners, starting at the first comparator with both wires, brings exactly the comparators of that group that exist |
| BatcherLoop.SorterGroup | card/batcher-network.h:144-164 | the same for a group of half-cleaners that stops at the last comparator with both wires |
| BatcherLoop.HalfCleaners | card/batcher-network.h:94-115 | all mirrored groups together are the whole first pass of a merger, although the loop stops early |
| BatcherLoop.SorterLevel | card/batcher-network.h:137-166 | all groups of one level together are one whole pass |
| BatcherLoop.Sort | card/batcher-network.h:124-167 | the levels m = M/2, ..., 2 add exactly the sorter passes, each closed by a boundary |
| Comparators.Comparator.constructor | card/batcher-permute.h:86-93 | nothing is collected at first, and the caches have the sizes that the batch limit calls for |
| Comparators.Comparator.Compare | card/batcher-permute.cc:163-184 | whenever no wire repeats within the pass, the container as it will be is changed by exactly this compare-exchange, whether or not the batch is flushed now |
| Comparators.Comparator.NewPass | card/batcher-permute.cc:186-198 | the container now is what it was going to be, and nothing is pending |
| Comparators.Comparator.DoBatch | card/batcher-permute.cc:220-253 | one bulk read, pairwise swaps and one bulk write leave what executing the pending comparators one by one would |
| Comparators.Comparator.BuildIdxList | card/batcher-permute.cc:269-282 | the index list holds the wires of all comparators, pair by pair |
| Comparators.Comparator.DoComparators | card/batcher-permute.cc:291-333 | every pair of neighbours is put in the order of its tags, and the assertion on tags holds |
| Bulk.BulkIsImmediate | card/batcher-permute.cc:232-248 | for comparators without a repeated wire, fetch all, exchange neighbours, store all equals one comparator after the other |
| Stream.Process | card/stream/processor.h:263-350 | for every chunk size and any stateful item procedure, outputs and final state are those of processing items 0..n one at a time, whether outputs are separate, the same containers as the inputs, or absent |
| Stream.ProcessChunk | card/stream/processor.h:291-346 | one round moves the point up to which items are processed by a chunk and touches nothing after it |
| Stream.DoRead | card/stream/processor.h:86-129 | item j gets the object at position lo + j of each present stream |
| Stream.DoWrite | card/stream/processor.h:136-177 | each present output stream has exactly the chunk's positions replaced by its column |
| Stream.Filter | card/stream/processor.h:316-330 | running a chunk continues the one-at-a-time run from the state reached before |
| Stream.ProcessOne | card/stream/processor.h:399-424 | the front end for one input and one output stream, either of which may be absent |
| Stream.ScatterRange | card/stream/helpers.h:259-264 | writing a list to consecutive positions replaces that stretch and nothing else |
| Stream.OutputAt | card/stream/processor.h:322-330 | output i is what the procedure gives for item i in the state left by the items before it |
| Shuffling.Shuffler.Shuffle | card/batcher-permute.cc:82-111 | for every permutation, the record first at i is afterwards at p(i) with its bytes unchanged |
| Shuffling.Shuffler.Prepare | card/batcher-permute.cc:115-140 | every record gets its destination appended as its tag |
| Shuffling.Shuffler.RemoveTags | card/batcher-permute.cc:143-159 | every record loses exactly its tag |
| Shuffling.SortingPlaces | card/test-batcher-permute.cc:145-154 | sorting records by the destinations a permutation gives them puts each record at its destination |
| Shuffling.TagRoundTrip | card/batcher-permute.cc:121-150 | the tag read back is the destination, and removing it restores the record |
| Permutations.Repermutation | card/array.cc:619-620 | a permutation that takes p(x) to q(x) for every x |
| Permutations.IncreasingIsIdentity | card/test-batcher-permute.cc:145-154 | n increasing numbers out of n consecutive ones are all of them in order |
| HiddenState.FetchKeepsLogical | card/array.cc:289-312 | fetching an untouched slot changes no logical element |
| HiddenState.ItemIsLogical | card/array.cc:455-475 | the working item whose slot is p(i) is the logical element i |
| HiddenState.RewriteLogical | card/array.cc:469-479 | rewriting that item rewrites logical element i and no other |
| HiddenState.RepermuteKeepsLogical | card/array.cc:250-280 | merging, moving every slot from the old to the new permutation and emptying the working set changes no logical element |
| HiddenState.FreshSlotExists | card/array.cc:296-304 | at most N slots are touched, and while fewer are there is a fresh one |
| WorkingSet.ArrayT.FindFetchIdx | card/array.cc:375-428 | the target if it has not been touched, else the random index if that has not, else nothing |
| WorkingSet.FinderFinds | card/array.cc:391-403 | after streaming the touched indices the two flags say exactly whether target and random index are among them |
| WorkingSet.ArrayT.DoDummyAccesses | card/array.cc:510-540 | the target's item comes back, it alone is rewritten when there is a new value, the touched indices stay, and neither assertion fails |
| WorkingSet.ScannerFinds | card/array.cc:454-501 | with the target in the set exactly once, the scan ends with its item and no failed assertion |
| WorkingSet.ScanOutcome | card/array.cc:454-501 | both output streams of such a scan: indices unchanged, items unchanged except the target's |
| WorkingSet.ArrayT.AppendItem | card/array.cc:542-548 | one more index and item at the end of the two containers |
| ObliviousArray.Array.constructor | card/array.cc:109-149 | the array shows the given or zeroed elements, and the session budget is capped at N - 1 |
| ObliviousArray.Array.Read | card/array.cc:172-210 | the logical element comes back and no element changes, in every session and across re-permutations; a session ends after exactly maxRetrievals + 1 accesses |
| ObliviousArray.Array.Write | card/array.cc:213-246 | an enabled write splices its bytes into one logical element, a disabled one changes none |
| ObliviousArray.Array.AppendNewWorkingItem | card/array.cc:289-312 | exactly one slot not fetched before in this session joins the working set, the target is in the set afterwards, and what the array shows stays |
| ObliviousArray.Array.ChooseIndex | card/array.cc:292-304 | the probe loop ends, with the target if it is not in the working set, else with the first probe that is not |
| ObliviousArray.Array.Scan | card/array.cc:191-192 | the scan returns the logical element asked for and applies the rewrite to it alone |
| ObliviousArray.Array.Repermute | card/array.cc:250-280 | a new session starts with an empty working set, the next permutation of the source and the same logical elements |
| ObliviousArray.Array.Merge | card/array.cc:318-329 | every working item ends up in its slot of the main container, and the other slots stay |
| ObliviousArray.ArrayA.constructor | card/array.cc:560-590 | an existing container is taken as it is, a new one is streamed full of zeros |
| ObliviousArray.ArrayA.Repermute | card/array.cc:596-629 | every record moves from where the old permutation puts it to where the new one does |
| ArrayStore.Store.NewArray | card/array.cc:640-676 | a descriptor not in use, standing for a new array, with all other arrays as before |
| ArrayStore.Store.Read | card/array.cc:731-775 | the element, or Nil in a new buffer when disabled, Nil-indexed or out of range; no array changes |
| ArrayStore.Store.Write | card/array.cc:695-721 | the plain array changes as over plain arrays: one element, or none when disabled, Nil-indexed or out of range (`ArrayLaws.WriteHits`, `ArrayLaws.WriteMisses`) |
| Words.OptRoundTrip | common/gate.h:160-198 | decoding an encoded optional gives it back whatever the unused bytes hold, and the tag is nonzero exactly for a value |
| Words.WordRoundTrip | common/gate.h:173-175 | four bytes, least significant first, give the number back |
| Words.OptBuffer | common/gate.h:180-198 | the new buffer holds the encoding, with the bytes behind a Nil as they were |
| Words.NilBuffer | common/gate.h:222-235 | a buffer of any size becomes Nil by its first byte alone |
| Words.MakeJust | common/gate.h:239-246 | tag and value are set and the bytes behind them stay |
| NilArithmetic.TruncDivIsC | common/gate.cc:83-84 | quotient and remainder recombine, and the remainder is smaller than the divisor with the sign of the dividend |
| NilArithmetic.BinOpMonotone | common/gate.cc:49-113 | turning arguments into Nil can only turn the result into Nil |
| NilArithmetic.UnOpMonotone | common/gate.cc:115-139 | the same for unary operators exactly unless LNot loses an argument other than 0 |
| NilArithmetic.OneLeafWrites | common/gate.cc:57-63 | in any nest of conditionals under an enabled root, a leaf's write takes effect if and only if it is the leaf that Select picks and every condition on the way is Nil, 0 or 1 |
| NilArithmetic.DisabledStaysDisabled | common/gate.cc:128-134 | under a disabled root no leaf's write takes effect |
| Evaluator.CircuitEval.constructor | card/run-circuit.cc:114-134 | an evaluator with a filled value table and no arrays |
| Evaluator.CircuitEval.Eval | card/run-circuit.cc:136-154 | table, arrays and outputs, or the fault, are those of evaluating the circuit over plain arrays |
| Evaluator.CircuitEval.DoGate | card/run-circuit.cc:192-528 | one gate does what the same gate does over plain arrays, including the store into the table and the output |
| Evaluator.CircuitEval.DoBinary | card/run-circuit.cc:200-217 | a binary gate decodes, computes and encodes as over plain arrays, or faults alike; what it computes is fixed by `OperatorLaws` |
| Evaluator.CircuitEval.DoUnary | card/run-circuit.cc:221-235 | the same for a unary gate |
| Evaluator.CircuitEval.DoInput | card/run-circuit.cc:239-268 | a scalar input is the table's value, an array input is a new array with the host's elements |
| Evaluator.CircuitEval.DoSelect | card/run-circuit.cc:278-305 | the bytes of the chosen value, the second one for a Nil selector |
| Evaluator.CircuitEval.DoSlicer | card/run-circuit.cc:365-418 | the bytes asked for, or Nil when the value is Nil or too short |
| Evaluator.CircuitEval.DoReadArray | card/run-circuit.cc:600-613 | pointer and element as a plain array would give them (`ArrayLaws.ReadHits`, `ArrayLaws.ReadMisses`), the hidden array showing what it showed |
| Evaluator.CircuitEval.DoReadGate | card/run-circuit.cc:308-325 | a read gate over hidden arrays is a read gate over plain ones |
| Evaluator.CircuitEval.DoWriteArray | card/run-circuit.cc:616-634 | the plain array changes as a plain write would change it, all others stay |
| Evaluator.CircuitEval.DoWriteGate | card/run-circuit.cc:327-362 | a write gate over hidden arrays is a write gate over plain ones |
| Evaluator.CircuitEval.DoNewArray | card/run-circuit.cc:421-439 | the next descriptor stands for the new array, and the gate's value points to it (`NewArrayLaws.NewArrayStep`) |
| Evaluator.CircuitEval.ConcatInputs | card/run-circuit.cc:335-350 | the further inputs' bytes in order (`ArrayLaws.ConcatInOrder`), or a fault if one is missing |
| Evaluator.CircuitEval.PrintOutput | card/run-circuit.cc:472-527 | scalar and array outputs are those of the plain machine; printing an array reads it through the hidden array and leaves it showing the same |
| CircuitMeaning.FillIsMeaning | card/run-circuit.cc:136-154 | for scalar circuits in any order that respects inputs, the filled table holds every gate's recursive meaning |
| CircuitMeaning.OrderIrrelevant | card/run-circuit.cc:136-154 | any two such orders give every gate the same value, whatever uninitialised bytes either run saw |
| CircuitMeaning.NilMonotone | common/gate.cc:49-139 | in circuits of Input, Lit, BinOp, Negate and BNot gates, turning inputs into Nil only turns values into Nil |
| CircuitMeaning.SelectMonotone | card/run-circuit.cc:290-303 | a Select gate keeps that property if and only if losing the selector does not switch to a conflicting value |
| CircuitMeaning.NegationAndSelectionBreakIt | common/gate.cc:128-134 | concrete inputs on which LNot and Select change a defined value when an input becomes Nil |
| OperatorLaws.PlusCounts | common/gate.cc:86 | Plus is commutative, 0 is neutral, and adding one more gives one more |
| OperatorLaws.PlusRegroups | common/gate.cc:86 | sums may be regrouped as long as they fit |
| OperatorLaws.MinusUndoesPlus | common/gate.cc:87 | Minus takes back what Plus adds, and the other way round |
| OperatorLaws.TimesDistributes | common/gate.cc:89 | Times is commutative and distributes over Plus, with 0 and 1 as they should be |
| OperatorLaws.OverflowIsUndefined | common/gate.cc:86-89 | a sum, difference, product or negation that does not fit is left to the machine |
| OperatorLaws.DivAndModRecombine | common/gate.cc:83-84 | quotient times divisor plus remainder is the dividend, the remainder smaller than the divisor with the dividend's sign; Nil for a zero divisor; undefined for the one quotient that does not fit |
| OperatorLaws.ComparisonsAgree | common/gate.cc:95-100 | exactly one of LT, Eq, GT is 1; LT is fixed step by step from the smallest integer; LTEq, GTEq and NEq are the negations |
| OperatorLaws.LessIsPlusPositive | common/gate.cc:95 | where the difference fits, x is less than y if and only if y is x Plus a positive number |
| OperatorLaws.TruthTables | common/gate.cc:57-70 | exactly when And and Or are 0 and 1, and LNot of everything |
| OperatorLaws.DeMorgan | common/gate.cc:57-70 | And and Or mirror each other under LNot |
| OperatorLaws.StrictInNil | common/gate.cc:73-77 | every other operator gives Nil for a Nil argument |
| OperatorLaws.ShiftsDoubleAndHalve | common/gate.cc:91-92 | SL doubles and SR takes the half rounded down, as many times as asked; exactly when the machine decides |
| OperatorLaws.BitwiseBits | common/gate.cc:103-105 | each of the 32 bits of BAnd, BOr and BXor follows from the operands' bits |
| OperatorLaws.BNotBits | common/gate.cc:126 | BNot turns each bit over |
| OperatorLaws.BitsDetermine | common/gate.cc:103-126 | the 32 bits determine the integer |
| OperatorLaws.UnaryInverses | common/gate.cc:125-126 | Negate and BNot undo themselves, and a number and its negation add up to 0 |
| OperatorLaws.TwosComplement | common/gate.h:173-195 | words of successive integers are successive, all ones standing before all zeros |
| Words.LowByteFirst | common/gate.h:189-195 | the lowest byte comes first |
| GateLaws.BinaryStep | card/run-circuit.cc:200-217 | the slot decodes to the operator's result on the decoded inputs; nothing else changes |
| GateLaws.UnaryStep | card/run-circuit.cc:221-235 | the same for unary gates |
| GateLaws.LitStep | card/run-circuit.cc:270-275 | the slot decodes to the literal |
| GateLaws.InputStep | card/run-circuit.cc:255-264 | a scalar input leaves the machine as it was |
| GateLaws.SelectStep | card/run-circuit.cc:278-305 | the first value only for a selector with a value other than 0 |
| GateLaws.SlicerOfNil | card/run-circuit.cc:384-402 | slicing a Nil, or beyond the end, gives a Nil of the length asked for |
| GateLaws.DivModGates | card/run-circuit.cc:200-217 | Div, Mod, Times and Plus gates in a row give the dividend back |
| GateLaws.OperandsAreScalars | card/run-circuit.cc:553-587 | a gate gets past its operands only if their slots exist and hold five bytes |
| GateLaws.MalformedGateFaults | card/run-circuit.cc:204-284 | wrong numbers of inputs and Print gates stop the evaluation |
| GateLaws.OutputIsOwnValue | card/run-circuit.cc:472-527 | an output gate prints the value in its own slot, or the elements in order of the array it points to, and no other gate prints |
| GateLaws.OutputApart | card/run-circuit.cc:467-472 | marking a gate as an output changes only what is printed |
| GateLaws.EmptyNotStored | card/run-circuit.cc:467-469 | an empty value leaves the table as it was |
| GateLaws.EvalAppend | card/run-circuit.cc:136-154 | the second part of a circuit starts where the first ended, and a fault in the first is the fault of both |
| ArrayLaws.ConcatInOrder | card/run-circuit.cc:335-350 | value input k stands behind the lengths of inputs 0 to k-1, and the whole is as long as all of them |
| ArrayLaws.ConcatNeedsAll | card/run-circuit.cc:335-342 | the inputs can be concatenated exactly if every one is in the table |
| ArrayLaws.WriteMisses | card/array.cc:705-714 | with a Nil or zero enable bit, or a Nil, negative or too large index, no array changes |
| ArrayLaws.WriteHits | card/array.cc:715-718 | the bytes stand at the offset of element i; the rest of it, the other elements and the other arrays stay |
| ArrayLaws.WriteFaults | card/run-circuit.cc:625-630 | a write stops the evaluation exactly if the announced length is wrong or the bytes do not fit the element reached |
| ArrayLaws.BadPointerFaults | card/array.cc:679-690 | a null pointer and an unknown descriptor stop the evaluation, each with its own fault |
| ArrayLaws.ReadHits | card/array.cc:765-769 | the gate's value is a pointer to the array read, then element i |
| ArrayLaws.ReadMisses | card/array.cc:743-764 | with a miss of any kind it is a pointer to the array, then a buffer of the element's size whose first byte alone is set, to Nil |
| StructLaws.WriteReadSlice | card/run-circuit.cc:308-418 | write at an offset, read, slice at 5 plus an offset: what was written there, or what was there before if nothing was |
| StructLaws.MissedWriteReadSlice | card/run-circuit.cc:308-418 | after a write that missed or was disabled every component is what it was |
| StructLaws.EveryInputReadBack | card/run-circuit.cc:327-418 | each value input of a write gate comes back from the gate's offset plus the lengths of the value inputs before it |
| StructLaws.NilReadComponents | card/array.cc:743-764 | after a read that misses, a component is Nil if and only if it is the first one or the buffer happened to hold a zero there |
| StructLaws.SecondRead | card/run-circuit.cc:600-612 | a read through the pointer sliced off an earlier read, hit or miss, reads the same array |
| StructLaws.WriteAfterRead | card/run-circuit.cc:600-634 | a write through that pointer changes the same array and no other |
| NewArrayLaws.NewArrayStep | card/array.cc:640-676 | the gate's value points to a descriptor that was not in use, which stands for len elements of elemSize zeros or for the host's elements in order; other arrays stay |
| NewArrayLaws.NewArrayFaults | card/run-circuit.cc:239-253 | no array is made for an unsupported size, an unknown name, or after the last descriptor |
| NewArrayLaws.NewArraysApart | card/run-circuit.cc:421-439 | make two arrays, write through the second pointer, read through the first: what the first was made with |
| NewArrayLaws.EvalKeepsSound | card/array.cc:664-676 | in every reachable state the descriptors in use are those handed out, and every array has a supported size |

## Left out

- Encryption, MACs and keys: foreign libraries, taken as transparent.
- Host communication, container names, and the caching and moving of containers on the host.
- Probability, timing and access-pattern secrecy: not functional properties.
- Circuit text parsing, input loading (card/prep-circuit.cc) and the command line; circuits and the prepared value table are given.
- Output text, logging, `LOGVALS` tracing and `Array::print`; outputs are collected as values instead.
- `Array::write_clear`, used only while inputs are loaded.
- The variants of the array built with `NO_REFETCHES`, `NO_REPERMUTE` or `NO_ENCRYPT`.
- Other comparators and the absent pass listener of `run_batcher`: with a comparator that executes at once, the result is `BatcherSorts` on the passes that `RunBatcher` asks for.
- The template machinery of ranges and slices: index and object sequences are modelled directly, for one and two streams with one item per call.
- The sharing of bytes between `ByteBuffer` aliases: records are values.
- Two input gates naming the same host container: each array gets a copy of the elements.
- Evaluator.CircuitEval.DoNewArray: lengths and element sizes outside the assumptions fault when the array is made, although the original fails only later.
- Stream.Process: output streams must go to pairwise different containers.
