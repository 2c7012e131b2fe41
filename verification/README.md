# The picobit Scheme compiler and virtual machine, in Dafny

The project models the parts of the ESP32 Scheme system on which everything else
rests, and proves that they do what they are for:

* **The memory manager.** A marker that reverses the links of the heap in place, a
  sweep that rebuilds the free list, and allocation on top of both. For any heap
  graph the marker ends, marks exactly what can be reached, and puts every link
  back; a collection frees exactly the cells that no root can reach.
* **Unlimited integers.** Lists of 16-bit digits in that heap. Every operation may
  trigger a collection at any of its allocations; each is proved against the
  mathematical integer it should yield, in canonical form, with its operands and
  everything else that can be reached left as they were. Where the code falls
  short (`bitwise_ior`, `bitwise_xor`, the 16-bit length of a dividend), the exact
  condition under which it is right is proved, in both directions.
* **The assembler.** The relaxation of variable-length branches as a loop over an
  array of forms, the emission of code, and the decoder of the virtual machine
  that reads each branch back to its label; the pool of constants and its image in
  ROM; the Intel HEX writer and reader.
* **The compiler.** Code generation for expressions against an evaluator;
  pruning, reordering and linearization of basic blocks against a machine over
  blocks; and both joined, down to bytes: what the virtual machine fetches from the
  bytes of a program of expressions ends as the evaluator says.
* **The machine's calls and threads.** Arguments passed by relinking the cells of
  the stack, and the ring of suspended threads as a queue.

## How the model is built

Code that changes things step by step is a class or a method: the heap is a class
over arrays for links, types, marks and flips, and the bignum operations are
methods over that heap. Code made of expressions is functions. Proofs about
arrays are made on values: a method keeps a ghost value equal to the arrays, and
lemmas speak about that value (`Marking`, `Sweeping`, `Relaxation`,
`LinearCode`).

Some conventions:

* A cell is a number below the size of the heap. Numbers from 0xE000 on are
  addresses in ROM, from 0xFE00 on small integers and the three atoms, as in the
  virtual machine.
* `Valid()` of the heap says that the free list is a chain of distinct cells none
  of which can be reached from a root, and that no mark or flip is set.
* `Live(g, roots)` is what can be reached. `Agree(g, g', cells)` says that two
  heaps have the same contents in those cells.
* `Holds(m, x, v)` says that x is the canonical form of the integer v;
  `HoldsOnce` shows that it determines v.
* A bignum operation takes a `Job`: the memory as it was when the operation began,
  the cells that must be kept, and those the result may share with the operands.
  `Finished(...)` says: the result holds the stated integer, its cells are new or
  shared ones, the heap is valid, and every cell to be kept is unchanged.
  A run without any collection meets the same statement, so a collection can make
  no difference to a result.
* `hide` at the start of a body keeps the solver from definitions that the proof does
  not need. `Live` is the one notion that is always handled closed, and opened by
  lemmas where its contents matter. This only keeps proofs short.
* `None` stands for the fatal error of an exhausted heap; the contracts say that
  it happens only when the last collection left no room.

A proof about a machine (`Blocks.Machine`) or the primitives (`CompilerRuns.Semantics`)
holds for every choice of what the instructions do to the data. `Programs.MachineFor`
makes a machine of a semantics; its data are no longer sound after an instruction that
made no sense, such as one that pops an empty stack.

## Model

| member | source | states |
|---|---|---|
| VmArch.LinkMasksTestTheType | main/include/vm_arch.h:561-563 | Whatever the mark, flip and user bits are, the two masks over the flag byte test exactly whether the type is below 8 (left link) and below 4 (right link). |
| VmArch.LiveIsReachable | main/mm.c:109-163 | What one root keeps alive, as the least set closed under links, is exactly what a path of links leads to. |
| VmArch.LiveUnchanged | main/mm.c:253-281 | What can be reached depends on no cell outside of it: heaps that agree on the live cells have the same live cells. |
| VmArch.LiveWithRoot | main/mm.c:270-279 | Marking one root after the other marks the union of what each of them reaches. |
| Marking.InvStart | main/mm.c:111-116 | The invariant of the marker holds at the start for any heap without flips and any set of marks closed under links. |
| Marking.DescendKeepsInv | main/mm.c:118-129 | Going down a left link, which is reversed, keeps the invariant: the reversed path leads back to the root, and every link can be restored from it. |
| Marking.UpThroughCdrKeepsInv | main/mm.c:134-140 | Coming back over a right link restores it, keeps the invariant, and takes work off. |
| Marking.CrossKeepsInv | main/mm.c:146-152 | Turning from the left to the right side of a pair restores its car, reverses its cdr, keeps the invariant, and takes work off. |
| Marking.UpThroughCarKeepsInv | main/mm.c:153-161 | Coming back to a cell without a right link restores its car, keeps the invariant, and takes work off. |
| Marking.InvFinish | main/mm.c:142-163 | At the end all links are as they were, no flip is set, and the marks are the earlier ones and exactly what the root reaches. |
| MemoryManagement.Heap.Mark | main/mm.c:111-163 | For every heap graph, shared and cyclic ones included: marking ends, adds exactly the cells reachable from p to the marks, and changes no link; the count of marked cells is exact. |
| MemoryManagement.Heap.GoDown | main/mm.c:118-129 | The inner loop stops at a cell that is marked or outside the heap, with the invariant kept. |
| MemoryManagement.Heap.LeaveCrossed | main/mm.c:134-140 | The loop over flipped cells stops at a cell that is not flipped, with the invariant kept. |
| MemoryManagement.Heap.Turn | main/mm.c:146-161 | A turn at an unflipped cell, to its right side or up, keeps the invariant and strictly takes work off. |
| MemoryManagement.CountOneMore | main/mm.c:119-122 | Marking an unmarked cell makes the number of marked cells one larger, so the statistics count every cell once. |
| Sweeping.KeepCell | main/mm.c:205-207 | A marked cell only loses its mark. |
| Sweeping.FreeCell | main/mm.c:208-219 | An unmarked cell joins the front of the free list, which stays an increasing chain of exactly the unmarked cells seen; a vector header gives its block back and becomes a pair. |
| Sweeping.SweptLeavesTheDead | main/mm.c:188-232 | When the marks are the live cells, a sweep leaves them as they were, frees exactly the others, and frees exactly the vector blocks whose header died. |
| MemoryManagement.Heap.Sweep | main/mm.c:188-232 | The sweep ends with no mark set and with the heap, the free list and the vector flags related as the sweep promises. |
| MemoryManagement.Heap.ClearGlobals | main/mm.c:226-231 | The marks of the globals are cleared, and no others. |
| MemoryManagement.Heap.CheckFreeList | main/mm.c:234-244 | True exactly when the free list and the reserved cells make up the given total. |
| MemoryManagement.Heap.MarkRoot | main/mm.c:270-277 | One more root: the marks are then exactly what the larger set of roots reaches. |
| MemoryManagement.Heap.MarkAll | main/mm.c:270-279 | After all roots, the marks are exactly the live cells: those reached from the globals, the four registers, cont, env and the five bignum temporaries. |
| MemoryManagement.Heap.Gc | main/mm.c:253-301 | A collection leaves the live cells and their contents as they were, puts exactly the others on an increasing, acyclic free list, clears all marks, and counts used + free = heap size. |
| MemoryManagement.FreeAndLiveFillTheHeap | main/mm.c:291-298 | When the free list holds exactly the cells that are not live, the two counts add up to the size of the heap: the fragmentation warning cannot occur. |
| MemoryManagement.Heap.NewRamCell | main/mm.c:392-410 | The cell returned is neither live nor on the free list any more; nothing live changed, even if a collection took place; it fails exactly when no cell outside the live ones is left; without a collection it is the first free cell and no cell changes. |
| MemoryManagement.Heap.NewPair | main/vm_arch.c:74-83 | A new pair with the given parts; all that was live is unchanged. |
| MemoryManagement.Heap.NewBignum | main/vm_arch.c:120-129 | A new digit cell whose value is the low 16 bits; all that was live is unchanged. |
| MemoryManagement.Heap.constructor | main/mm.c:412-494 | A heap to start with: the globals are empty pairs, the registers and temporaries hold nothing, and every other cell is free. |
| MemoryManagement.Heap.FirstFreeList | main/mm.c:487-489 | The first sweep, over a heap without marks, makes every cell but the reserved ones free, in increasing order. |
| Stack.ReturnToFreeList | main/mm.c:246-251 | The cell becomes the head of the free list, and no other cell changes. |
| Stack.Pop | main/vm_arch.c:26-59 | The top of the stack and the rest below it; the heap stays sound exactly when nothing but the stack held the popped cell, because pop frees it at once. |
| Stack.Push | main/vm_arch.c:74-83 | The value is on top of the old stack and everything live is unchanged; the new cell is held by the stack alone, so that a pop of it is safe. |
| Integers.HoldsOnce | main/bignum.c:92-121 | Canonical forms are unique: a cell or code stands for at most one integer. |
| Integers.TakeApart | main/bignum.c:57-90 | integer_lo and integer_hi split an operand into its low 16 bits and the floor of the rest, which is canonical again; only 0 and -1 are their own high part. |
| Integers.AbsorbDigit | main/bignum.c:98-108 | A digit that leaves a small integer is absorbed into its code. |
| Integers.LinkDigit | main/bignum.c:109-116 | Any other digit cell is linked in front of the rest, and the result is canonical. |
| Digits.Norm | main/bignum.c:92-121 | The reversed scratch list of digits becomes the canonical form of the integer it spells, in place; no cell outside the list is written. |
| Digits.NewDigit | main/bignum.c:21-55 | A digit made in the middle of an operation, by way of a collection if need be, is apart from everything live, and nothing live has changed. |
| Bignum.AddColumn | main/bignum.c:396-408 | One column: digit and carry together are the sum of both digits and the carry that came in. |
| Bignum.AddStep | main/bignum.c:388-425 | A column with its carry, in front of the sum of the rest, is the sum of both integers and the incoming carry; each step brings the loop nearer to its end. |
| Bignum.Add | main/bignum.c:383-425 | The canonical form of the exact sum, for all signs and lengths, whatever collections take place; both operands stay as they were, although the result shares their tails. |
| Bignum.Sub | main/bignum.c:427-468 | The same for the exact difference. |
| Comparisons.Negp | main/bignum.c:123-136 | True exactly for the negative integers. |
| Comparisons.IntegerLength | main/bignum.c:138-160 | The number of bits of a nonnegative integer, modulo 65536, which is the width of its counter. |
| Comparisons.Cmp | main/bignum.c:332-381 | 0, 1 or 2 exactly as the first integer is below, equal to or above the second, for all signs and lengths. |
| Comparisons.OrderOfParts | main/bignum.c:338-381 | The order of two integers is that of their high parts, or of their low digits when these are equal. |
| Shifting.Shr | main/bignum.c:162-193 | The canonical form of the floor of half of any integer. |
| Shifting.Shl | main/bignum.c:205-236 | The canonical form of twice any integer. |
| Shifting.HalfOfJoin | main/bignum.c:183-188 | A digit halved, with the lowest bit of the next one on top, is the low digit of half the integer. |
| Shifting.DoubleOfJoin | main/bignum.c:218-231 | A digit doubled, with the carry below, is the low digit of twice the integer plus the carry; its highest bit is the next carry. |
| Shifting.ShiftBits | main/bignum.c:247-251 | The first loop shifts bit by bit until a whole number of digits is left. |
| Shifting.ShiftDigits | main/bignum.c:253-257 | The second loop puts zero digits below, without norm; the result is canonical all the same. |
| Shifting.ShiftLeft | main/bignum.c:238-262 | x times a power of 2, canonical, with the temporary roots given back. |
| Multiplication.ProductFits | main/bignum.c:287-330 | In scale the 32-bit product never overflows, and the carry stays below the factor. |
| Multiplication.ScaleStep | main/bignum.c:287-330 | One digit of the product with its carry, in front of the rest, is the whole product. |
| Multiplication.Scale | main/bignum.c:274-330 | The canonical form of n times x, for every digit n and every integer x of either sign. |
| Multiplication.EndNegative | main/bignum.c:293-318 | The digits that end the product of a negative integer spell carry - n. |
| Multiplication.MultiplyDigits | main/bignum.c:479-494 | The loop of the schoolbook method: what has been moved out, what is being summed and what is left always make up the product. |
| Multiplication.MulNonNeg | main/bignum.c:470-499 | x * y exactly, for x >= 0 and y of either sign, through any collections; all temporaries are given back. |
| Division.RoundsDivide | main/bignum.c:519-531 | n rounds of shift and subtract add the quotient to what was there, but no more than n bits of it. |
| Division.QuotientIsRightExactlyWhen | main/bignum.c:501-536 | divnonneg yields x / y exactly when the length of x has wrapped around no more often than that of y; in particular whenever x has fewer than 65536 bits. |
| Division.QuotientOfShortIntegers | main/bignum.c:501-536 | Below 65536 bits: x = q * y + r with 0 <= r < y. |
| Division.LongDividendGoesWrong | main/bignum.c:512-515 | A dividend of exactly 65536 bits: 2 to the 65535 divided by 1 gives 0, because its length counts as 0. |
| Division.Round | main/bignum.c:519-531 | One round doubles the quotient, subtracts the divisor if it fits, and halves the divisor. |
| Division.DivideRounds | main/bignum.c:518-531 | The whole loop, from the divisor shifted left: the quotient of as many bits as there are rounds. |
| Division.DivNonNeg | main/bignum.c:501-536 | The canonical form of that quotient, through any collections; no cell that the registers reach changes. |
| Bits.BitwiseBits | main/bignum.c:538-639 | The operation on digits, with the signs continued, is the operation on every bit of the two infinite two's complement numbers. |
| Bits.BitsDetermine | main/bignum.c:538-639 | An integer is determined by its bits. |
| Bits.InvertBits | main/bignum.c:590-613 | -v - 1 has every bit inverted. |
| Bits.LoopIsRightExactlyWhen | main/bignum.c:538-639 | What the three loops return is right exactly when: always for and; for ior when the first operand is negative or the second one agrees where the first ends; for xor likewise with the signs exchanged. |
| Bits.LoopsGoWrong | main/bignum.c:545-549 | 0 ior 1 gives 0, and -1 xor 1 gives -1, because the first operand is returned instead of the second. |
| BitwiseOperations.BitwiseLoop | main/bignum.c:538-589 | What the loops return, canonical, through any collections; it is the bitwise operation whenever the condition above holds. |
| BitwiseOperations.BitwiseNot | main/bignum.c:590-613 | -x - 1, canonical, for every integer. |
| Temporaries.LiveByRoot | main/bignum.c:48-55 | The live cells are those of the registers and of each of the five temporaries. |
| Temporaries.FreeByRegister | main/mm.c:270-279 | The free list is apart from the live cells exactly when it is apart from what each single root reaches. |
| NumericPrimitives.RemNonNeg | main/primitives_numeric.c:110-133 | reg1 then holds x - y * (x / y) as divnonneg computes it, which is x mod y exactly when the lengths wrap as above; the operands stay rooted in the registers, and all that the globals, cont and env reach is unchanged. |
| NumericPrimitives.RemainderIs | main/primitives_numeric.c:117-121 | The difference is the remainder exactly when the quotient is right. |
| Library.MulOnHeap | compiler/library.scm:41-53 | #%mul over the heap, with its negations, comparisons and mul-non-neg as the primitives do them: the exact product in canonical form for all signs, through any collections. |
| Library.QuotientOnHeap | compiler/library.scm:55-67 | quotient over the heap: the canonical form of the quotient of the sizes with the sign that the operands give it. |
| Library.TruncatedIsTowardsZero | compiler/library.scm:55-67 | The rest of a truncated quotient is smaller than the divisor and has the sign of the dividend. |
| Library.QuotientTruncatesExactlyWhen | compiler/library.scm:55-67 | The library quotient truncates towards zero, for all signs, exactly when the quotient of the sizes is right. |
| Relaxation.RoundGrows | compiler/asm.rkt:220-241 | A round only drops forms; sizes never shrink. |
| Relaxation.DistancesGrow | compiler/asm.rkt:220-261 | Distances in the code never shrink from round to round. |
| Relaxation.StaysOutOfReach | compiler/assembler.rkt:179-208 | A branch once out of reach of the two-byte form stays out of reach. |
| Relaxation.MovedLabelsTakeWork | compiler/asm.rkt:242-261 | A round that moves a label drops a form for good; hence the loop ends. |
| Relaxation.LastRoundFits | compiler/asm.rkt:217-261 | When no label moves any more, the range check of every branch that no branch behind the last label precedes holds in the final layout. |
| Relaxation.OneRoundIsAll | compiler/asm.rkt:217-261 | When all labels come before all branches, the loop is over after one round, and the form chosen for a branch at byte distances reaches its label exactly when it still fits after the branches before it have got their sizes. |
| Assembler.ProducedDecodes | compiler/assembler.rkt:169-208 | The bytes of a form are decoded to its kind, its target and the place behind it exactly when its range check holds: an operand that does not fit wraps to another target or instruction. |
| Assembler.BranchesDecode | compiler/asm.rkt:262-293 | A branch of the code emitted is decoded to its label's address, with the next item behind it, exactly when its form reaches that far in the final layout; every anchored branch does. |
| Assembler.NoLongFormInVain | compiler/assembler.rkt:179-208 | No branch takes three bytes where two would reach its label in the final layout. |
| Assembler.Assembler.Pass1 | compiler/asm.rkt:460-477 | The first positions of the labels are those of a layout without branches. |
| Assembler.Assembler.ChooseForms | compiler/asm.rkt:220-241 | One round: every branch drops the forms that do not fit the old layout. |
| Assembler.Assembler.PlaceLabels | compiler/asm.rkt:242-261 | The labels stand where the new layout puts them, and the loop goes on exactly when one of them moved. |
| Assembler.Assembler.Relax | compiler/asm.rkt:217-261 | The loop ends in a layout whose last round moved no label and in which no form was dropped without need. |
| Assembler.Assembler.Emit | compiler/asm.rkt:262-293 | The code emitted is that of the layout; the internal error "inconsistency detected" cannot occur. |
| Assembler.Assemble | compiler/asm.rkt:217-293 | A whole run, from any items: code is emitted, each branch goes to its label exactly when it is in reach, all anchored branches are, and no long form is taken in vain. |
| Assembler.TrailingBranchesStop | compiler/asm.rkt:242-261 | A program with two branches behind its last label is taken for settled after one round. |
| Assembler.TrailingBranchGoesWrong | compiler/asm.rkt:242-261 | Its second branch is emitted out of range, and the machine reads another target: only labels are watched. |
| Assembler.TrailingBranchesGoHome | compiler/asm.rkt:242-261 | The exact condition for such programs, on the items alone: a trailing branch is decoded to its label exactly when its form fits after all. |
| Blocks.StepStaysProper | main/interpreter.c:162-421 | A run over blocks never leaves the program, for every machine whose data hold no other addresses. |
| Blocks.ClosedHoldsReachable | compiler/tree-shaker.rkt:11-31 | Every set of blocks closed under mentions holds all reachable ones. |
| Linearizer.Linearize | compiler/scheduling.rkt:162-168 | Every block stands in the code exactly where its label is, with its body and a tail that leads to its successors; block 0 comes first, and there are no lines but those of the blocks. |
| Linearizer.Linearizer.Get | compiler/scheduling.rkt:77-95 | On fall-through the next entry of the list, otherwise a block that waits and has not been emitted; none only when all that wait have been. |
| Linearizer.Linearizer.NextLabel | compiler/scheduling.rkt:97-100 | The block that will come next, found without changing the list. |
| Linearizer.Linearizer.Schedule | compiler/scheduling.rkt:102-111 | The label is put at the end that the order of emission asks for. |
| Linearizer.Linearizer.DumpBlock | compiler/scheduling.rkt:122-159 | A block is emitted with its mark, its body and the shortest tail for the block that comes next, and all that it mentions is scheduled. |
| Linearizer.Linearizer.Dump | compiler/scheduling.rkt:113-120 | No block is emitted twice, and at the end nothing waits. |
| Linearizer.BlockAdded | compiler/scheduling.rkt:122-159 | The invariant of the emission: every block emitted is in place, every omitted goto has its target as the next line or due next, and every mention has been emitted or waits. |
| Linearizer.AllDone | compiler/scheduling.rkt:113-120 | When nothing waits, every block reachable from block 0 has been emitted. |
| LinearCode.StepSimulated | compiler/scheduling.rkt:122-159 | One step over blocks is one to three steps over lines, from the image of one state to the image of the next: omitted gotos fall through to their true successors, and a negated test goes the right way. |
| LinearCode.RunSimulated | compiler/scheduling.rkt:162-168 | The same for runs of any length. |
| LinearCode.SameEnds | compiler/scheduling.rkt:162-168 | Blocks and lines end in the same results, in both directions: lines neither lose a run nor add one. |
| Renumbering.StepRenamed | compiler/back-end.rkt:11-30 | A step of the renumbered program is the renumbered step. |
| Renumbering.RunRenamed | compiler/back-end.rkt:11-30 | The same for runs of any length. |
| Renumbering.SameEndsRenamed | compiler/back-end.rkt:11-30 | A renumbered program has the same results, up to the names of labels in the data, in both directions. |
| Renumbering.RenumberedIsWellFormed | compiler/back-end.rkt:11-30 | After renumbering every jump goes to a block that exists. |
| Renumbering.RenumberedIsReachable | compiler/tree-shaker.rkt:94-103 | Renumbering what is reachable leaves no unreachable block. |
| Renumbering.RenumberLabels | compiler/back-end.rkt:11-30 | Every block that is used stands at its new label, with all its references renamed. |
| TreeShaker.RefCounts | compiler/tree-shaker.rkt:11-31 | A block has a positive count exactly when it can be reached from block 0. |
| TreeShaker.TreeShaker.Visit | compiler/tree-shaker.rkt:15-29 | A visit counts the block and everything it mentions, directly or not, and only reachable blocks; it ends on cyclic programs. |
| TreeShaker.NumberUsed | compiler/tree-shaker.rkt:94-103 | The blocks used get the numbers 0, 1, 2 and so on in their order. |
| TreeShaker.RemoveUseless | compiler/tree-shaker.rkt:94-103 | The result is the program renumbered to exactly its reachable blocks. |
| Reordering.Reorder | compiler/scheduling.rkt:14-61 | The result is the program renumbered by a permutation of its labels, with block 0 first; every block is still reachable. |
| Reordering.OrderIsPermutation | compiler/scheduling.rkt:14-61 | When all blocks are done, the new labels are a permutation. |
| Reordering.Reorderer.ScheduleHere | compiler/scheduling.rkt:22-49 | The block and a chain of successors get the next labels, each once; everything they mention is done or on the list. |
| Reordering.Reorderer.ScheduleTodo | compiler/scheduling.rkt:51-56 | At the end nothing that is mentioned is left. |
| BackEnd.CodeRunsAsBlocks | compiler/scheduling.rkt:8-9 | A run of the final code from its first line ends in a result exactly when a run of the original blocks from block 0 ends in the corresponding one, whatever the instructions do to the data, also when they save, exchange and resume continuations (main/primitives_control.c:44-81). |
| BackEnd.Compile | compiler/scheduling.rkt:8-12 | Pruning, reordering and linearizing yield code that is chained to the program by two renumberings and a layout. |
| Compiler.NoneExtends | compiler/comp.rkt:8-31 | Compiling for effect only adds code: it changes no finished block, and only new labels are used. |
| Compiler.IfExtends | compiler/comp.rkt:73-117 | The same for an if, whose labels are made first and each used for one block. |
| Compiler.CompIf | compiler/comp.rkt:73-117 | Behind an if the stack is that in front of it, one value higher when the value is wanted. |
| Compiler.ArmsMeet | compiler/comp.rkt:73-117 | Both arms end with the very stack of the join, which is that in front of the test, one value higher when the value is wanted. |
| Compiler.CompTest | compiler/comp.rkt:232-246 | A test leaves the stack that both arms start from. |
| Compiler.CompPush | compiler/comp.rkt:46-71 | The compile-time stack is one higher. |
| Compiler.CompNone | compiler/comp.rkt:8-31 | The compile-time stack is as it was. |
| Compiler.CompArgs | compiler/comp.rkt:179-212 | The compile-time stack is higher by the number of arguments. |
| CompilerRuns.PushRuns | compiler/comp.rkt:46-71 | The code made by comp-push, from any stack that matches the environment, pushes exactly the value of the expression on the untouched stack and has exactly its effects. |
| CompilerRuns.NoneRuns | compiler/comp.rkt:8-31 | The code made by comp-none has exactly the effects of the expression and leaves the stack as it was. |
| CompilerRuns.TailRuns | compiler/comp.rkt:33-44 | The code made by comp-tail returns the value of the expression. |
| CompilerRuns.IfRuns | compiler/comp.rkt:73-117 | An if runs the arm that the test chooses and no other. |
| CompilerRuns.TestRuns | compiler/comp.rkt:232-246 | A test goes to the first label exactly when the value is not false, with the stack untouched; a constant test jumps without a test. |
| CompilerRuns.BodyRuns | compiler/comp.rkt:119-136 | A sequence does its parts in order and keeps the value of the last one. |
| CompilerRuns.ArgsRun | compiler/comp.rkt:179-190 | Arguments are evaluated from left to right; the last one ends on top. |
| CompilerRuns.CallRuns | compiler/comp.rkt:179-212 | A primitive gets its arguments in order, and its call leaves what the reason for it asks for, also when it has no value of its own. |
| CompilerRuns.LocalRuns | compiler/code-gen.rkt:26-32 | A reference to a local or closed variable pushes the value of that variable. |
| CompilerRuns.DepthShifted | compiler/ir.rkt:77-111 | Values pushed on top move a variable down by as many places, on the stack as in the closed environment. |
| CompilerRuns.ExpressionRuns | compiler/comp.rkt:8-71 | From block 0 on, for every expression of the fragment, the two statements above. |
| CompilerRuns.ExpressionReturns | compiler/comp.rkt:33-44 | From block 0 on, an expression in tail position returns its value. |
| Shapes.CompShapes | compiler/comp.rkt:8-246 | Whatever is compiled: every block that is left behind ends at its one jump, every jump goes to a label that has been made, and every label made is used for a block. |
| Programs.ToVector | compiler/back-end.rkt:36-41 | The vector holds every block at its label. |
| Programs.VectorIsWellFormed | compiler/back-end.rkt:36-41 | No slot of the vector is left blank, and all its jumps stay in range: what the compiler makes is what the back end takes. |
| Programs.BodyComputes | compiler/comp.rkt:33-44 | The linear code of an expression in tail position, pruned, reordered and put in line, returns with the value of the expression on top. |
| Programs.ProgramComputes | compiler/picobit.rkt:37-41 | The linear code of a whole program ends exactly in the world that its forms leave when they are evaluated one after the other, with an empty stack. |
| Programs.Compile | compiler/picobit.rkt:37-41 | From forms to linear code: the blocks are those that the compiler makes of the forms and the halt, and the lines those of the blocks. |
| ByteCode.FetchesBack | main/interpreter.c:162-416 | The bytes of an instruction are fetched as that instruction, with the next one behind it, exactly when its number has room in its form. |
| ByteCode.LongGlobalIsAJump | compiler/assembler.rkt:224-240 | From the seventeenth on, globals go wrong: the machine takes the long forms for jumps to a top-level procedure. |
| ByteCode.WriteItems | compiler/assembler.rkt:439-479 | The items of all lines in their order behind the header, or an error exactly when some line cannot be written. |
| ByteCode.LinesArePlaced | compiler/assembler.rkt:396-416 | In code that comes from blocks every label is set once, and every branch goes to a label that is set. |
| ByteCode.BranchIsFetched | main/interpreter.c:244-397 | Where branches go home, the machine fetches each as a branch to the line behind its label, with the next line behind it. |
| ByteCode.LinesFollowed | main/interpreter.c:162-421 | From any line on, the bytes end as the lines do. |
| ByteCode.BytesCompute | compiler/picobit.rkt:37-45 | Run from behind the header, the bytes of a program end in the world that its forms leave when evaluated one after the other, with an empty stack, and in no other way. |
| ByteCode.Compile | compiler/picobit.rkt:37-45 | From forms to bytes: compiled, pruned, reordered, put in line and assembled; when every branch is anchored, the condition of the statement before on branches is met. |
| Calls.BuildEnvironment | main/interpreter.c:142-160 | The cells of the arguments are relinked in reverse in front of reg1, and no other cell is written. |
| Calls.PrepareArguments | main/interpreter.c:63-124 | The closure is taken off the stack; a rest procedure gets its surplus arguments as a list in order, in the very cells of the stack. |
| Calls.EntryByteTells | compiler/assembler.rkt:446-447 | From the entry byte the machine recovers the number of parameters and whether there is a rest parameter, up to 127 parameters. |
| Calls.BindArguments | main/interpreter.c:63-160 | From closure, a_n .. a_1, S: env = S and reg1 = a_1 .. a_n followed by the closure's environment, or a_1 .. a_k, the list of the others and that environment; only the cells of the call are written. |
| Calls.CollectRest | main/interpreter.c:105-114 | The surplus arguments, first one first, with the fixed ones left on the stack. |
| Calls.JumpClosure | main/interpreter.c:233-242 | A tail call enters that environment at the byte behind the entry byte. |
| Calls.SaveCont | main/interpreter.c:126-131 | A new continuation holds the caller's stack, the place to come back to and its own parent, through two allocations that may collect; every cell that any root reached is unchanged. |
| Calls.CallClosure | main/interpreter.c:223-232 | A call saves the caller and enters the environment made of the arguments; whatever the globals, the caller's stack, its continuation and the temporaries held is unchanged, the cells of the call excepted. |
| Threads.ThreadRing.constructor | compiler/library.scm:198-205 | The ring of one pair whose slot is empty. |
| Threads.ThreadRing.SpawnThread | compiler/library.scm:207-214 | The ring stays one cycle with one empty slot, that of the running thread; as a queue, the parent comes next. |
| Threads.ThreadRing.ExitThread | compiler/library.scm:216-225 | The next thread runs and its pair leaves the ring; exit returns to its caller exactly when no thread waits. |
| Threads.ThreadRing.YieldThread | compiler/library.scm:227-237 | The caller goes to the end of the queue, and the first one runs. |
| Threads.ThreadsKept | compiler/library.scm:207-237 | No suspended continuation is lost or doubled. |
| Threads.PlaceMoves | compiler/library.scm:207-237 | A waiting thread moves one place on at each yield or exit, and one back at each spawn. |
| Threads.TurnComes | compiler/library.scm:195-237 | Over any run of events: once more yields and exits than spawns have happened than stood before it, the thread runs. |
| Threads.RunRing | compiler/library.scm:195-237 | Over any run, the ring does what the queue does. |
| HexFile.WriteHex | compiler/asm.rkt:376-439 | The lines written are those of the records cut at the boundaries of sixteen bytes. |
| HexFile.RecordSumsToZero | compiler/asm.rkt:383-396 | All bytes of a written record sum to 0 modulo 256. |
| HexFile.TextReadsBack | main/hexfile.c:27-46 | Bytes written as hexadecimal digits read back. |
| HexFile.RecordReadsBack | main/hexfile.c:76-114 | The line of a record is accepted and does what the record says. |
| HexFile.AcceptedSumsToZero | main/hexfile.c:108-114 | In a file that is accepted, every record read up to the end record sums to 0 modulo 256, from whatever lines it came. |
| HexFile.RecordsApplied | compiler/asm.rkt:404-439 | The records put all bytes of the code at their addresses, whatever was in the buffer. |
| HexFile.ProgramReadsBack | compiler/asm.rkt:376-439 | A code of up to 65535 bytes, written and read into any buffer that is large enough, is in the buffer byte for byte, the rest of which is as it was; max_addr is its length, and no error is reported. |
| HexFile.Hex2Byte | main/hexfile.c:35-46 | The byte and the place behind it, 0 at the end of the line; the checksum counts it modulo 256. |
| HexFile.LoadLine | main/hexfile.c:76-115 | A line changes the buffer, the highest address and the flags as its record says. |
| HexFile.ReadHexFile | main/hexfile.c:58-132 | Succeeds exactly when no record is in error, an end record comes, and the first two bytes are D7 FB; the buffer is then that of the records, all of which sum to 0. |
| Constants.AddedIsEncodable | compiler/assembler.rkt:70-119 | Adding a constant gives it a code, keeps all entries, and adds what it is made of. |
| Constants.PoolIsClosed | compiler/assembler.rkt:70-119 | The pool is closed under components and has no entry twice. |
| Constants.SortedByUse | compiler/assembler.rkt:130-141 | Sorting loses no entry and doubles none; those that the code uses most come first. |
| Constants.LowCodesForTheMostUsed | compiler/assembler.rkt:130-141 | No pool constant has a lower code than one that the code pushes more often. |
| Constants.OrderIsFree | compiler/assembler.rkt:130-141 | Any order of the pool is closed and encodes the same constants. |
| Constants.CodesTellApart | compiler/assembler.rkt:34-40 | Two constants have the same code exactly when they are the same, a character counting as its integer. |
| Constants.CellReadsBack | compiler/assembler.rkt:303-356 | The five bytes of a ROM cell give back its two links and its type. |
| Constants.ProgramBytesReadBack | compiler/assembler.rkt:428-439 | From the bytes of a program - header, constants, code - the machine finds the cells of its ROM and the start of its code. |
| Constants.PushLoadsAddress | main/interpreter.c:184-194 | The two forms of push agree with the machine on the address of every code a pool can have. |
| Constants.ConstantReadsBack | compiler/assembler.rkt:303-356 | From the address of its code, the machine reads every constant back: chars as integers, vectors as lists, integers in the canonical form of the bignum code. |
| Constants.ProgramConstantsReadBack | compiler/assembler.rkt:396-447 | All constants of a program read back, from the bytes of the push that loads them, in the ROM that the machine finds in the bytes of the program. |

## Left out

- Vector space: allocation in it and its compaction. The sweep of vector headers is modelled; compaction reads a block header that its own move may have overwritten, so it holds only for blocks of one size.
- Fatal errors: an exhausted heap and a call of something that is no closure are `None`; the model does not go on after them. Errors that are only printed (division by zero, a wrong number of arguments) let the operation go on, as in the code.
- Statistics are modelled only where they state a property: the counts of used and free cells.
- encode_int and decode_int: the high part is not shifted, so the round trip holds only on a small range.
- The numeric primitives other than the remainder: they only pass registers to the bignum operations.
- BitwiseLoop: for ior and xor the contract says what the code returns, and that it is the bitwise operation exactly under `Bits.RightWhen`; it is not the bitwise operation for all operands, because the code is not.
- Assemble: that a branch is in reach is shown for all branches that no branch behind the last label precedes. For others the final range check decides, with the exact condition on the items when all labels come first; `Assembler.TrailingBranchGoesWrong` is a program where it fails.
- WellPlaced labels: the assembler stops with an error when a label is set twice or not at all; `ByteCode.LinesArePlaced` shows that compiled code never makes it do so.
- ReadHexFile: when a record does not fit the buffer the reader reports an error but goes on writing; the model reports the error without these writes. Lines are given whole (the reader cuts them at 98 characters), the last one ends in a newline, and the buffer is at most 65536 bytes.
- Intel HEX records of type 3, which the writer makes only for start addresses above 65535.
- Float constants, alignment, origins and listings of the assembler.
- Empty vectors as constants: the assembler fails on them. Pools of more than 255 entries, whose number does not fit the header.
- Symbols in ROM keep no name, so that a symbol reads back as the cell of its own type.
- tighten-jump-cascades! runs over integers and never changes a block; it is the identity.
- Compiler: lambda expressions, closures and calls of anything but primitives (comp-prc, build-closure and the other branches of comp-call), and globals that are inlined as constants. Variables are numbered.
- The parser, the front end and its folding.
- Negated tests: scheduling.rkt emits `#%not`, and no primitive has that name (the machine calls it `not`). In `LinearCode` it is the boolean negation that is meant; in `ByteCode` it is the error that the assembler reports.
- BytesCompute: programs of expressions without procedures, whose primitives only compute; the instructions work on a stack of values, not on the heap, and constants, globals and primitives have the numbers that the assembler gives them. Programs with more than sixteen globals, or with a branch that does not go home, are outside it, because the machine reads other instructions there.
- Continuations entered more than once: pop frees stack cells that a saved continuation may share, which `Stack.Pop` states as the exact condition for the heap to stay sound.
- The ring of threads is modelled on pairs of its own, without the collector below it; a continuation is a number.
- Lists that the source keeps in reverse (instructions of a block, lines of code, bytes of a record) are kept forwards.
- Input and output, GPIO, network, clock, keyboard, tracing, and the printing of values.
