# blockMemory: a B-tree in a block of bit fields, modelled in Dafny

The repository lays out a B-tree in one block of fixed-width memory, as a
chip would hold it.

**Layout.** A memory layout is written as indented lines such as
`stucks array 16` / `  stuckKeys var 8`. `Layout` parses these lines into
fields:

- a `bit` or `var` is a fixed-width cell;
- a `bit` or `var` nested inside `array`s also gets a backing memory, with
  one element per combination of the enclosing arrays' indices, placed in
  row-major order (`convolute`).

On top of the fields sits a small instruction tape. A program is recorded
as read, write, add, increment, decrement, jump and stop instructions, and
run with a program counter under a 200-step bound. `If` and `Block` are
builders that emit jump code.

**Stuck.** A `Stuck` is a bounded array of key/data pairs with a count of
the pairs in use.

**Btree.** A `Btree` is a pool of `size` node slots ("stucks"). Each slot
has a leaf bit, a free bit, a free-chain link, a count, and rows of keys
and data. The pool offers:

- a free-chain slab allocator (`createFreeChain`, `allocate`, `free`);
- copying a slot out into a stuck and saving a stuck back into a slot;
- `find`, which descends branches by the first key greater than or equal to
  the search key (or through a key-less top pointer) to a leaf, then
  searches the leaf for an exact match;
- `findAndInsert`, which updates a key in place or inserts it into a leaf
  that is not full.

The Dafny project has these modules:

- `Bits` (bits.dfy): Java `int` wrap-around and the truncation of a written
  value to the low `min(width, 31)` bits of its field.
  - `SetBitsFromInt` is the source's bit-copying loop, proved to compute
    that truncation.
- `Layout` (layout.dfy): the layout parser over pre-split lines. `Parse`
  states the three passes as functions, and the methods that loop over the
  lines and fields are proved to compute them:
  - the tree of fields with parents and children (`Tree`, one line at a
    time by `Declare`, each parent chosen by `ParentRule`);
  - the enclosing-array dimensions of each spacer (`WithDimensions`);
  - the child-count checks (`ChildCheck`).

  Lemmas state what an accepted layout looks like, that every parent is
  the one its line's indentation picks, and the outcome of the
  repository's parse test.

  It also holds `dimProduct`, `convolute` and memory allocation. Each loop
  is proved to compute a function, and the functions are proved to mean
  what the source promises (row-major placement, bounds).
- `Tape` (tape.dfy): the instructions as a datatype and one step of the
  machine as a function, `Step`.
  - Runs are `Exec`/`Run` under fuel.
  - Lemmas state each instruction's effect, the meaning of `If` and
    `Block`, and runs of the repository's own tests.
  - The class `Tape.Program` holds the code, program counter, result code,
    field values and memories, which its methods update in place. Each
    method is proved against `Step` and `Run`.
- `Stuck` (stuck.dfy): the class `Stuck.Stuck` over two arrays with `push`.
  It also has the search, element and insertion operations the B-tree calls
  on a stuck. Pure lemmas about first-equal and first-greater-or-equal
  search and about insertion order support them.
- `BtreePool` (pool.dfy): the whole pool as a value, with every B-tree
  operation as a function.
  - Lemmas state the free chain's behaviour (a LIFO stack of the free
    slots), save/copy round trips, the meaning of find, and that
    find-and-insert rewrites only the target leaf, keeps it ascending and
    leaves the key findable with the new datum.
- `PoolExamples` (pool_examples.dfy): the pool functions on the trees the
  repository's tests build.
- `Btree` (btree.dfy): the class `Btree.Btree`, whose slot fields are
  arrays that its methods update in place. Every method is proved to leave
  the pool in the state the matching `BtreePool` function gives.

The B-tree's tape-recorded routines are modelled directly as methods of
`Btree.Btree`, and the tape interpreter separately in `Tape`.

Three abbreviations recur in the table: a "stuck" is one node slot's pairs;
a "spacer" is a `bit` or `var` field; "find-and-insert" is `findAndInsert`.

## Model

| member | source | states |
|---|---|---|
| Bits.Wrap32 | Layout.java:236-273 | the result is a Java int congruent to its argument modulo 2^32, and equal to it when it already is an int |
| Bits.Width | Layout.java:147-148 | a field keeps min(width, 31) bits: never more than its width nor 31, and exactly one of them |
| Bits.TruncateBounds | Layout.java:147-155 | a written value ends in [0, 2^min(width,31)); a value already in range is kept unchanged |
| Bits.Truncate | Layout.java:147-155 | the stored value differs from the written one by a multiple of 2^min(width,31): its low bits are kept |
| Bits.SetBitsFromInt | Layout.java:147-155 | copying the low bits one at a time stores exactly the value truncated to the field's width |
| Bits.LogTwo | Btree.java:43-55 | logTwo(n) is the least p with n <= 2^p (ceiling of log2) |
| Bits.FitsInLogTwoPlusOne | Btree.java:46-55 | every number up to n fits in logTwo(n)+1 bits, the width of the index fields |
| Layout.DecodeExamples | Layout.java:409-420 | an array line, a bit line with an upper-case command, and the refusals of an unknown command, a missing operand and a non-numeric repetition, each with its 1-based line |
| Layout.DecodeSound | Layout.java:409-420 | a decoded line names its field by the first word, a bit has 2 words and repetition 1, an array or var has 3 words, and the repetition is a Java int |
| Layout.Decode | Layout.java:406-420 | a line of fewer than two words is refused as short of operands; every refusal names line l+1 and is one of the four decoding refusals |
| Layout.NonComment | Layout.java:403-405 | the field-declaring lines before l are exactly the non-comment lines, in order |
| Layout.ParseExampleLines | Layout.java:405 | a line holding only `#` declares nothing |
| Layout.LastIndented | Layout.java:392-396 | the last of the first n fields with this indentation, with no later field so indented; none exactly when no field has it |
| Layout.PreviousElement | Layout.java:388-398 | the field a new line is placed after is one of the fields so far |
| Layout.ParentRule | Layout.java:424-427 | the first field declared has no parent |
| Layout.ParentRuleSound | Layout.java:429-439 | a parent the rule picks is an earlier field indented less than the new line |
| Layout.ParentRuleFrame | Layout.java:388-439 | the rule reads only the indentation and the parent of the fields so far |
| Layout.Declare | Layout.java:403-439 | reading a line keeps every parent earlier than, and indented less than, its children |
| Layout.DeclareAppends | Layout.java:406-439 | a line that decodes, has a fresh name and a parent by the rule is appended below that parent |
| Layout.DeclareBuilt | Layout.java:403-439 | reading a line keeps the first-pass invariant: one field per declaring line, unique names, parents before children, exact child lists |
| Layout.Tree | Layout.java:403-440 | what the first pass accepts has every parent earlier than, and indented less than, its children |
| Layout.TreeBuilt | Layout.java:403-440 | what the first pass accepts has one field per declaring line, unique names, exact child lists and no dimensions yet |
| Layout.TreeErrStays | Layout.java:403-440 | once a line is refused, the first pass over any longer prefix is that same refusal |
| Layout.TreeByRule | Layout.java:424-439 | in what the first pass accepts, each field's parent is the one ParentRule picks from the fields before it, at its line's indentation |
| Layout.DeclareByRule | Layout.java:424-439 | reading one line keeps every parent the one the rule picks |
| Layout.WithDimensions | Layout.java:442-449 | every spacer's dimensions are its enclosing arrays and name arrays; arrays get none; nothing else changes |
| Layout.ChildCheck | Layout.java:451-460 | succeeds exactly when no bit or var from field k on has a child and every array has at least one |
| Layout.Parse | Layout.java:400-461 | an accepted layout has one field per declaring line, unique names, parents before and less indented than children, exact child lists, spacers dimensioned by their enclosing arrays and valid child counts |
| Layout.ParseByRule | Layout.java:400-461 | in an accepted layout every field's parent is the one the indentation rule picks for its line |
| Layout.BitWithChildRefused | Layout.java:457 | `a bit` followed by an indented `b var 4` is refused: the bit on line 1 has a child |
| Layout.TestLayoutTree | Layout.java:500-543 | test_parse's first pass gives A over a, b and B; B over a1, b1 and C; C over a2 and b2 |
| Layout.TestLayoutParses | Layout.java:500-546 | test_parse is accepted; b1 has dimensions A and B with 2*4 = 8 elements, b2 has A, B and C with 2*4*2 = 16 |
| Layout.LocatePreviousElement | Layout.java:388-398 | the backward search computes PreviousElement: indentation 2 or more deeper hangs on the last field; 1 deeper is refused; otherwise the last field with the same indentation, or a refusal when there is none |
| Layout.ParentFor | Layout.java:424-439 | computes ParentRule: the first field has no parent; any parent is an earlier field indented less than the new line |
| Layout.Attach | Layout.java:433-439 | the new field is appended and listed among its parent's children; every earlier field is unchanged apart from its child list |
| Layout.SkipComment | Layout.java:405 | a comment line leaves everything built so far as it is |
| Layout.AppendField | Layout.java:422-439 | appending the field a line declares keeps the first pass's invariant: one field per non-comment line, unique names, parents before children, exact child lists |
| Layout.AppendKeepsShape | Layout.java:422-439 | appending a field with a fresh name and an earlier, less-indented parent keeps names unique and parents well placed |
| Layout.AppendKeepsChildrenListed | Layout.java:432-439 | after appending, every field's children are exactly the later fields whose parent it is, in order |
| Layout.AppendKeepsFromLines | Layout.java:403-439 | after appending, field k is still what the k-th declaring line says |
| Layout.ReadLine | Layout.java:406-439 | decodes the line, refuses a taken name and attaches the field exactly as Declare does, failing with Declare's refusal otherwise; the first-pass invariant and the name table are kept |
| Layout.NextLine | Layout.java:403-439 | one step of the first pass: from Tree over the lines before l to Tree over l+1 lines, failing with Tree's refusal; the name table is kept |
| Layout.BuildTree | Layout.java:403-440 | the loop over the lines computes the first pass Tree over all of them, including its first refusal |
| Layout.Above | Layout.java:445-448 | the arrays among a field and its ancestors, in strictly ascending (outermost first) order |
| Layout.ArraysAround | Layout.java:445-448 | the loop up through the parents collects exactly the enclosing arrays, outermost first |
| Layout.SetDimensions | Layout.java:442-449 | the loop computes WithDimensions: every spacer gets its enclosing arrays as dimensions, arrays get none, and nothing else changes |
| Layout.CheckChildren | Layout.java:451-460 | the loop computes ChildCheck: it succeeds exactly when no bit or var has a child and every array has at least one |
| Layout.ParseFields | Layout.java:400-461 | the three passes compute Parse: a successful parse gives one field per non-comment line, unique names, parents before and less indented than children, exact child lists, each spacer dimensioned by its enclosing arrays, and valid child counts |
| Layout.WrappedProductExact | Layout.java:106-111 | when the product of the dimensions fits an int, Java's int product equals the true product |
| Layout.DimProduct | Layout.java:106-111 | the source's three-way computation (no dimension, one, several) equals the int product of the repetitions |
| Layout.DimProductExample | Layout.java:106-111 | dimensions 2 and 4 give 8, and 2, 4 and 2 give 16 |
| Layout.WrappedProduct | Layout.java:106-111 | Java's int product of the repetitions is always a Java int |
| Layout.ConvoluteLoop | Layout.java:157-170 | the convolute loop computes Convolute, including its refusal of a negative or too large index after the first |
| Layout.ConvoluteFrom | Layout.java:159-168 | succeeds exactly when every index from c on names a dimension and lies within it; an int running offset stays an int |
| Layout.Convolute | Layout.java:157-170 | succeeds exactly when there is an index and every index after the first lies within its dimension; the first is never checked |
| Layout.ConvoluteIsRowMajor | Layout.java:157-170 | for in-range indices, convolute is the row-major offset, and it lies in [0, product of dimensions) |
| Layout.TwoByThree | Layout.java:634-669 | in a 2 by 3 array element (x, y) sits at x*3 + y |
| Layout.FirstIndexUnchecked | Layout.java:158-160 | the first index is never checked: (5, 1) in a 2 by 3 array gives offset 16 |
| Layout.AllocateMemory | Layout.java:130-135 | allocation succeeds exactly when no spacer with dimensions has a negative (overflowed) product; such a spacer gets that many zero elements, every other field none |
| Tape.Step | Layout.java:174-373 | a successful step keeps the state's shape; each instruction's meaning is stated by the lemmas below |
| Tape.Load | Layout.java:174-190 | a read succeeds exactly when the index addresses an element of the memory; the field takes that element and pc advances; memory, result code and other fields are unchanged |
| Tape.Store | Layout.java:206-230 | a write at an index succeeds exactly when it addresses an element; the field and that element both get the truncated value; other elements and fields, and the result code, are unchanged; pc advances |
| Tape.Accumulate | Layout.java:265-270 | the running sum is a Java int once any source is added |
| Tape.AddValue | Layout.java:250-273 | an add of no source or of two or more gives a Java int; so does a copy of a Java int |
| Tape.Exec | Layout.java:354-361 | a finished run has left the code and one out of steps has not; both keep the state's shape |
| Tape.Run | Layout.java:354-361 | a run starts at pc 0 with no result code: empty code finishes at once, a zero budget with code runs out of steps at once, and a finished run ends past the code |
| Tape.WriteKeepsLowBits | Layout.java:194-230 | after any write the field holds the written value truncated to its width, so it lies in [0, 2^min(width,31)) |
| Tape.WriteLeavesMemory | Layout.java:194-204 | writing a constant changes only the field's current value: memory, result code and other fields unchanged |
| Tape.WriteSetsOneElement | Layout.java:206-230 | a write at an index sets exactly that memory element and the current value to the same truncated number; every other element and field is unchanged |
| Tape.WriteOutsideFaults | Layout.java:206-216 | a write to an element outside the memory halts the run |
| Tape.WriteThenRead | Layout.java:181-230 | writing through index fields and reading back through the same ones returns the written value, memory untouched by the read |
| Tape.AddMeaning | Layout.java:250-273 | an add of no source clears, of one copies, of two sums with wrap-around; memory and other fields unchanged |
| Tape.AccumulateIsSum | Layout.java:265-270 | three or more sources not including the target sum with int wrap-around |
| Tape.AddReadsAccumulator | Layout.java:265-270 | a target among its own sources contributes the running total, not its old value |
| Tape.AddSources | Layout.java:671-705 | test_add's sums: 8 for five sources, 3 for two |
| Tape.IncDecMeaning | Layout.java:236-248 | increment and decrement add and subtract one without truncation, leaving memory and other fields unchanged |
| Tape.IncWraps | Layout.java:243-248 | incrementing the largest int gives the smallest |
| Tape.ConditionalJumps | Layout.java:302-316 | GoZero jumps exactly on zero, GoNotZero exactly on a positive value (a negative one falls through), and neither changes values |
| Tape.StopEndsRun | Layout.java:363-373 | a stop records its message and moves past the end, so the run finishes with no further step |
| Tape.IfCode | Layout.java:318-331 | the If's code is its two branches plus two jumps |
| Tape.IfBranches | Layout.java:318-331 | the first step of an If enters Then exactly when the condition is non-zero, Else exactly when it is zero |
| Tape.IfThen | Layout.java:318-331 | with a non-zero condition Then runs and the If ends at its End label, Else skipped |
| Tape.IfElse | Layout.java:318-331 | with a zero condition Else runs straight after the jump |
| Tape.BlockExit | Layout.java:333-340 | a GoNotZero in the block's body aimed at its end label, with a positive condition, makes the run go on from the end label, skipping the rest of the body |
| Tape.BlockContinue | Layout.java:333-340 | a Goto in the block's body aimed at its start label makes the run go on from the body's first instruction |
| Tape.ExecAfter | Layout.java:354-361 | n steps inside the code use up n steps of a run's budget |
| Tape.RunIfExample | Layout.java:707-739 | test_if runs Then of the first If and Else of the second, ending with t = 2 and e = 5 |
| Tape.RunBlockExample | Layout.java:741-772 | test_block leaves the block early and never writes d |
| Tape.RunStopExample | Layout.java:774-792 | test_stop records "Stopped" and the later write never runs |
| Tape.RunLoopExample | Layout.java:354-361 | a program that loops forever runs out of steps |
| Tape.Program.constructor | Layout.java:278-284 | a new program has no code, pc 0, no result code and 200 steps |
| Tape.Program.Here | Layout.java:288-292 | a label is the offset of the end of the code so far |
| Tape.Program.Emit | Layout.java:344-350 | recording an instruction appends it to the code (refused if it names a missing field) and changes nothing else, the step budget included |
| Tape.Program.If | Layout.java:318-331 | the If builder appends exactly IfCode at the current offset and changes nothing else, the step budget included |
| Tape.Program.ClearProgram | Layout.java:352 | clearing empties the code and keeps values, memory, pc, result code and step budget |
| Tape.Program.StopProgram | Layout.java:363-367 | the result code becomes the message and pc the end of the code |
| Tape.Program.StoreAt | Layout.java:206-216 | a write at an index leaves the state Store gives, or the same fault and no change |
| Tape.Program.AddInto | Layout.java:265-270 | the accumulating add sets the target to the running total and changes nothing else |
| Tape.Program.Action | Layout.java:174-373 | running the instruction at pc changes the state exactly as Step does, or fails with Step's fault and leaves the state as it was |
| Tape.Program.MoveAction | Layout.java:174-230 | the read and write instructions change the state exactly as Step does, or fail with Step's fault and leave the state as it was |
| Tape.Program.RunProgram | Layout.java:354-361 | the run loop ends as Run does with the same budget: finished with Run's state, aborted with its fault, or "Out of steps"; the budget itself is unchanged |
| Stuck.FirstEq | Btree.java:276-277 | search_eq: the first position below the count holding the key, or none when no position in use holds it |
| Stuck.FirstGe | Btree.java:283-284 | search_le: the first position below the count holding a key greater than or equal to the search key, or none when all are smaller |
| Stuck.FirstGeFindsPresent | Stuck.java:28 | in ascending keys, a key that is present is where the first-greater-or-equal search lands |
| Stuck.ShiftedAt | Btree.java:329 | inserting at i keeps the positions before i, puts the new element at i and moves the used positions after it up by one |
| Stuck.InsertKeepsAscending | Btree.java:324-330 | inserting a missing key at its first-greater-or-equal position, or at the end, keeps the keys in use ascending |
| Stuck.InsertAddsOne | Btree.java:329 | the keys in use after an insertion are the old ones plus the new one, as a multiset |
| Stuck.PushKeepsAscending | Stuck.java:45-57 | pushing a key larger than the last keeps the keys in use ascending |
| Stuck.Stuck.constructor | Stuck.java:18-25 | a new stuck has `size` zero key and data slots and count 0 |
| Stuck.Stuck.Push | Stuck.java:45-57 | the corrected push (see Findings): a full stuck halts with "Cannot push to a full stuck" and its count, pairs, key and datum are unchanged; otherwise key and data go at position count, truncated, every other slot is unchanged and the count grows by one |
| Stuck.PushFour | Stuck.java:65-81 | four pushes give keys 1, 2, 3, 4 and data 2, 4, 6, 8 |
| Stuck.Stuck.PushAsWritten | Stuck.java:45-57 | push as written: a full stuck sets the result code to "Cannot push to a full stuck", then the write at index `size` faults with "Array index out of bounds", the stuck unchanged; otherwise exactly the corrected push |
| Stuck.PushFullAsWritten | Stuck.java:50-53 | as written, a fifth push into a capacity-4 stuck records the full-stuck message and then faults on the write past the last slot |
| Stuck.PushFull | Stuck.java:50 | corrected, a fifth push into a capacity-4 stuck halts with the full-stuck message and goes no further |
| Stuck.Stuck.IsFull | Btree.java:321-322 | full exactly when the count equals the capacity |
| Stuck.Stuck.SearchEq | Btree.java:277 | found exactly when the key is among the pairs in use, at its first position; otherwise the index is the count |
| Stuck.Stuck.SearchLe | Btree.java:284 | the first position with a key at least the search key, or the count (the top pointer) when there is none, loading that position's datum; past a full stuck it faults |
| Stuck.Stuck.ElementAt | Btree.java:279 | loads the pair at a position into the key and data fields |
| Stuck.Stuck.SetElementAt | Btree.java:315 | stores the key and data fields, truncated, at one position; nothing else changes |
| Stuck.Stuck.SetPastLastElement | Btree.java:556 | stores the key and data fields just past the pairs in use |
| Stuck.ShiftUp | Btree.java:329 | moving the elements up in place leaves the array as Shifted describes |
| Stuck.Stuck.InsertElementAt | Btree.java:329 | inserts the key and data at a position, moving the later pairs up, with the count one larger |
| BtreePool.LayoutCheck | Btree.java:43-45 | construction halts with "Bits per data too small for tree of this size" exactly when logTwo(size) >= bitsPerData |
| BtreePool.LayoutCheckMeans | Btree.java:43-55 | when the check passes, every slot index fits both a data cell and an index field unchanged |
| BtreePool.NodeAt | Btree.java:149-164 | a slot copied out fits a stuck of the pool's widths |
| BtreePool.SaveNode | Btree.java:166-180 | saving a stuck into a slot keeps the free chain and leaf bits |
| BtreePool.SaveThenCopy | Btree.java:149-180 | saving a stuck into slot n and copying slot n out gives back its count and all its key and data slots |
| BtreePool.SaveLeavesOthers | Btree.java:166-180 | saving into slot n leaves every other slot as it was |
| BtreePool.CopyThenSave | Btree.java:149-180 | copying a slot out and saving it back leaves the pool unchanged |
| BtreePool.Initial | Btree.java:76-95 | the pool after construction fits its widths |
| BtreePool.InitialChain | Btree.java:76-95 | after construction the free chain is slots 1 to size-1 in order, each with its free bit, the last link `size`, and the root not on it |
| BtreePool.AllocateAsWritten | Btree.java:97-115 | allocation as written keeps the pool within its widths |
| BtreePool.AllocateAsWrittenFaults | Btree.java:84-101 | as written, allocating from the exhausted chain built at construction faults on slot `size` instead of halting with "Out of memory" |
| BtreePool.TwoSlotPoolFaults | Btree.java:76-115 | in a two-slot pool the second allocation faults as written, and is "Out of memory" when corrected |
| BtreePool.Allocate | Btree.java:97-115 | corrected allocation keeps the pool within its widths |
| BtreePool.AllocateTakesHead | Btree.java:97-115 | allocation returns the head of the chain, which was free and is now in use, leaves the rest as the chain, and touches no node contents |
| BtreePool.AllocateExhausted | Btree.java:101 | an empty chain gives "Out of memory" |
| BtreePool.Free | Btree.java:117-139 | freeing keeps the pool within its widths |
| BtreePool.FreePushes | Btree.java:117-139 | freeing an in-use slot other than the root pushes it on the front of the chain |
| BtreePool.AllocateThenFree | Btree.java:97-139 | freeing what was just allocated restores the pool exactly |
| BtreePool.AllocateAndFreeTwice | Btree.java:450-504 | two allocations give 1 then 2 with freeStart 3; freeing both gives freeStart 2, then 1, then 3 |
| BtreePool.LeafLookup | Btree.java:276-282 | at a leaf, Found gives the first position of the key below the count with its datum; Missing exactly when the key is absent |
| BtreePool.VisitSlot | Btree.java:253-290 | a leaf is searched; a branch passes on to the child at its first key >= the search key, or to the top pointer at position count |
| BtreePool.FindFrom | Btree.java:266-291 | find ends at a leaf slot with that leaf's exact-match answer |
| BtreePool.Find | Btree.java:266-291 | find from the root ends at a leaf, and a found key is at a used position of that leaf |
| BtreePool.FindFrame | Btree.java:266-291 | a find that ends at leaf n is unaffected by changes to slot n's contents |
| BtreePool.Inserted | Btree.java:310-333 | the leaf after the pair goes in still fits its widths |
| BtreePool.InsertedHolds | Btree.java:310-333 | after the pair goes in, the key is found in the leaf with the new datum |
| BtreePool.InsertedAscending | Btree.java:321-333 | inserting keeps the keys ascending, and a new key adds exactly one key to the multiset |
| BtreePool.Place | Btree.java:310-339 | placing a pair keeps the pool within its widths |
| BtreePool.FindAndInsertAsWritten | Btree.java:295-340 | as written, find-and-insert keeps the pool within its widths |
| BtreePool.UpdateIsLost | Btree.java:276-316 | as written, find-and-insert on an existing key reports success and leaves the pool unchanged |
| BtreePool.FindAndInsert | Btree.java:295-340 | corrected find-and-insert fails exactly when find fails |
| BtreePool.OnlyTargetLeaf | Btree.java:295-340 | find-and-insert changes no slot but the target leaf, and neither the free chain nor the leaf bits |
| BtreePool.InsertKeepsOrder | Btree.java:321-333 | if every leaf's keys are ascending before, they are after |
| BtreePool.InsertThenFind | Btree.java:295-340 | after a successful insertion, find reaches the same leaf and finds the key with the new datum |
| BtreePool.FullLeafUnchanged | Btree.java:320-339 | a missing key aimed at a full leaf reports false and leaves the pool unchanged |
| PoolExamples.TreeFits | Btree.java:506-591 | the tree test_btree builds fits its widths |
| PoolExamples.TreeRoot | Btree.java:506-591 | its root is a branch with keys 10, 20, 30 over slots 1 to 3 and top pointer 4 |
| PoolExamples.FindMissing | Btree.java:593-655 | key 5 is missing, in leaf 1 |
| PoolExamples.FindFirstLeaf | Btree.java:593-655 | key 4 is found in leaf 1 at position 3 with datum 8 |
| PoolExamples.FindSecondLeaf | Btree.java:593-655 | key 14 is found in leaf 2 at position 3 with datum 18 |
| PoolExamples.FindThirdLeaf | Btree.java:593-655 | key 23 is found in leaf 3 at position 2 with datum 26 |
| PoolExamples.FindTopPointer | Btree.java:593-655 | key 32 follows the top pointer to leaf 4, found at position 1 with datum 34 |
| PoolExamples.InsertFirst | Btree.java:663-674 | into an empty root leaf (20, 21) is pushed |
| PoolExamples.InsertSecond | Btree.java:676-687 | then (10, 1) goes in front of 20 |
| PoolExamples.InsertThird | Btree.java:689-700 | then (30, 31) is pushed after 20 |
| PoolExamples.UpdateTwentyIsLost | Btree.java:276-316 | as written, giving key 20 datum 99 keeps datum 21; corrected, 20 gets 99 |
| Btree.Btree.constructor | Btree.java:25-39 | a new tree has the given geometry and the pool after construction |
| Btree.Btree.Make | Btree.java:25-57 | construction halts with the widths message exactly when logTwo(size) >= bitsPerData, else gives a fresh tree in its initial state |
| Btree.Btree.CreateFreeChain | Btree.java:76-95 | the arrays after the loop are exactly the initial pool |
| Btree.Btree.Allocate | Btree.java:97-115 | the pool changes exactly as the corrected allocation says, returning its slot or its error |
| Btree.Btree.Free | Btree.java:117-139 | the pool changes exactly as Free says, or not at all on an error |
| Btree.Btree.CopyStuckFrom | Btree.java:149-164 | the stuck receives slot n's count, keys and data, and its key and data fields are left holding the last pair copied; the pool is unchanged; a slot outside the pool faults with the stuck's fields unchanged |
| Btree.Btree.WritePairs | Btree.java:159-163 | rows written pair by pair through the stuck's key and data fields become its contents, the fields left holding the last pair |
| Btree.Btree.SaveStuckInto | Btree.java:166-180 | the pool becomes SaveNode of the stuck, as it was, into slot n; the stuck keeps its count and contents, and its key and data fields are left holding its last pair; a slot outside the pool faults with nothing changed |
| Btree.Btree.ReadPairs | Btree.java:174-179 | reading a stuck pair by pair through its key and data fields yields its rows unchanged, the fields left holding the last pair |
| Btree.Btree.SetLeaf | Btree.java:208 | only slot n's leaf bit changes, to 1 |
| Btree.Btree.SetBranch | Btree.java:209 | only slot n's leaf bit changes, to 0 |
| Btree.Btree.IsLeaf | Btree.java:211-214 | true exactly when slot n's leaf bit is 1 |
| Btree.Btree.IsRootLeaf | Btree.java:216-222 | true exactly when the root's leaf bit is 1 |
| Btree.Btree.Visit | Btree.java:253-290 | one pass of find's block decides as VisitSlot does and leaves the pool unchanged |
| Btree.Btree.Find | Btree.java:266-291 | the descent loop returns what the Find function gives |
| Btree.Btree.RewriteInStuck | Btree.java:313-316 | the pair at a found position is rewritten, the count and every other pair are kept, and the stuck's key and datum fields hold the new pair |
| Btree.Btree.AddToStuck | Btree.java:321-336 | a non-full stuck gets the pair at its first key >= it, shifting the rest up, or pushed at the end, with one more pair and the key and datum fields holding the new pair; a full one is refused with its count, pairs, key and datum unchanged |
| Btree.Btree.PlaceInStuck | Btree.java:324-330 | in a stuck that is not full, the pair goes in at the first key >= it, shifting the rest up, or is pushed at the end, with one more pair, and the key and datum fields hold the new pair |
| Btree.Btree.InsertInStuck | Btree.java:326-329 | the pair goes in at position i, the later pairs move up one place, the count grows by one, and the key and datum fields hold the new pair |
| Btree.Btree.PushOnStuck | Btree.java:326-330 | the pair goes just past those in use, the count grows by one, and the key and datum fields hold the new pair |
| Btree.Btree.LoadStuck | Btree.java:296-303 | a fresh stuck holds slot n's count, keys and data |
| Btree.Btree.SavePlaced | Btree.java:315-316 | saving a stuck that holds the target leaf with the pair placed leaves the pool as Place gives it, with the pair reported in |
| Btree.Btree.PlaceFound | Btree.java:313-319 | an existing key's pair is rewritten and its leaf saved, as Place says |
| Btree.Btree.PlaceMissing | Btree.java:321-339 | a missing key is added to a non-full leaf and saved, or nothing changes, as Place says |
| Btree.Btree.FindAndInsert | Btree.java:295-340 | the pool changes exactly as corrected find-and-insert says, returning whether the pair went in |

## Left out

- Memory layout: the pool is modelled as one sequence per slot field and
  not as a flat block of bit cells. The bits each field keeps are stated in
  `Bits` and `Tape`, and `BtreePool.Fits` bounds every stored value by its
  field's width.
- Instruction encoding: the B-tree's routines are tape programs in the
  source. They are modelled as methods and functions over the pool, not as
  instructions run by `Tape`. Inline instructions in Btree.java never
  advance the program counter, so they target a runner that does it
  for them.
- The 200-step bound of the B-tree's routines: every routine of `Btree` and
  `BtreePool` is modelled without it. The source's own tape runs would hit
  "Out of steps" on large pools: `createFreeChain` (Btree.java:76-95)
  records three instructions per slot, so a pool of about 67 slots or more
  needs more than 200 steps.
  The tape model `Tape` keeps the bound.
- BtreePool.Find: the step bound is a count of slot visits, not the tape's
  200 (or 500) instructions. Running out gives "Out of steps", as the tape
  would.
- BtreePool.FindAndInsert, Btree.Btree.FindAndInsert: same step bound as
  `Find`.
- Btree.Btree.Find: faults are modelled as `Err` results. The tape's `stop`
  aborts the run; `stopProgram` sets the result code.
- `put` and node splitting: the body of `put` is commented out in the
  source.
- Not modelled, because the tape machine is modelled on its own:
  - `startNewProgram` and `continueProgram`;
  - the shared `Program` object between layouts and the stucks created for a
    btree (one explicit state is threaded instead);
  - `additionalLayout`.
- `setRootAsLeaf`, `setRootAsBranch`, `copyStuckFromRoot` and
  `saveStuckIntoRoot` are the slot-0 cases of `SetLeaf`, `SetBranch`,
  `CopyStuckFrom` and `SaveStuckInto`; they are not separate members.
- Labels: a jump carries its target offset. A `Label` set after the jump
  that uses it is modelled by `IfCode` computing the offsets.
- Parsing is over lines already split into an indentation and words:
  - Java's regular expressions, `split`, `toLowerCase` beyond ASCII and
    `Integer.parseInt` are not modelled;
  - a line whose only word is `#` is a comment;
  - refusals are `Err` values naming the line, not messages.
- Printing: `toString`, `dump`, `say`, message suppression and the
  traceback recorded with each instruction.
- The test driver: `main`, `coverageAnalysis` and `testSummary`.
- Stuck.Stuck.Push: the in-action re-recording of `iWrite`/`iInc` in the
  source is an artifact of the tape builder, so push is one atomic step.
  The fall-through past the halt on a full stuck is kept in
  `Stuck.Stuck.PushAsWritten` (see Findings).
- The values of the B-tree's own fields (`stuckSizeField`,
  `stuckKeysField`, `stuckDataField`), through which copy and save pass
  each pair, are not state of the model. The pool holds only their memory.
  The stuck's key and data fields, which are left holding the last pair,
  are modelled.
- The stuck's `struct` layout is not parsed, because the parser refuses
  `struct`. The stuck's state is modelled directly as arrays.
- The stuck operations that Btree.java calls but Stuck.java does not define
  (`search_eq`, `search_le`, `elementAt`, `setElementAt`,
  `insertElementAt`, `isFull`, `setPastLastElement`, `index`, `key`,
  `data`, `empty`, `full`) are given contracts inferred from how `find`,
  `findAndInsert` and the tests use them.
  - `iZero` and `iOne` are writes of 0 and 1.
  - A write `f.iWrite(i, j…)` whose arguments are all index fields is
    read as "store f's own current value at the element those index fields
    select". Layout.java has no such form. Its `iWrite(Field source,
    Field... indices)` (Layout.java:218) would take the first field as the
    value to store. Under that form, `freeNextField.iWrite(index)` would
    fault, because it has no index at all (Layout.java:158). The Btree.java
    lines modelled with the inferred reading are 89-90 (`CreateFreeChain`),
    132 (`Free`), 161-162 (`CopyStuckFrom`, `WritePairs`), 170 and 177-178
    (`SaveStuckInto`, `ReadPairs`). Btree.java also calls `startNewProgram`,
    `iZero` and `iOne`, which this Layout.java lacks, so it is written
    against a later version of the layout API.
  - `L.variable` (a one-field layout) is not modelled.
- Bits.LogTwo: Test.java, which defines `logTwo`, is not part of this
  model. It is taken to be the ceiling of log2, which makes the free-chain
  end marker `size` fit an index field of `logTwo(size)+1` bits.
- BitSet internals and `getIntFromBits` are not modelled: a field's memory
  element is the natural number its low bits spell.
- experiments/MM.java, a prototype multi-reader memory controller, is
  unrelated to the tree.

## Findings

| source | as written | input that shows it | evidently intended | confidence | as-written member | corrected member |
|---|---|---|---|---|---|---|
| Btree.java:276-316 | `find` moves the stored datum of a found key into the `Data` field, which `findAndInsert` then writes back at the found position | a root leaf holding (20, 21); find-and-insert (20, 99) | the existing key gets the new datum 99 | not executed | BtreePool.UpdateIsLost | BtreePool.InsertThenFind |
| Btree.java:84-106 | the free chain built at construction ends with link `size`, but `allocate` treats only 0 as the end | a two-slot pool: the second `allocate` takes slot 2 as the head, and its first access to slot 2 (clearing the free bit) is outside the pool | "Out of memory" once the chain is used up | not executed | BtreePool.AllocateAsWrittenFaults | BtreePool.AllocateExhausted |
| Stuck.java:50-53 | on a full stuck `push` calls `stopProgram` but does not return, so the action goes on to write the pair at index `stuckSize`, which is `size`, one past the stuck's memory | a fifth push into a stuck of capacity 4 | halt with "Cannot push to a full stuck" and leave the stuck as it was, as `free` does by returning after `stopProgram` (Btree.java:121-122) | not executed | Stuck.PushFullAsWritten | Stuck.PushFull |

- The first row's as-written behaviour is also shown on concrete trees by
  `PoolExamples.UpdateTwentyIsLost`, and its corrected meaning by
  `BtreePool.FindAndInsert`.
- The second row is also shown by `BtreePool.TwoSlotPoolFaults`, and
  corrected by `BtreePool.Allocate` and `BtreePool.AllocateTakesHead`.
- The third row's as-written push is `Stuck.Stuck.PushAsWritten`, and the
  corrected one is `Stuck.Stuck.Push`.
- `Btree.Btree` uses the corrected `Allocate`, `FindAndInsert` and `Push`;
  it only pushes onto a stuck that is not full.
