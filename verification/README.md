# Verified models of the compiler's code generation and front-end algorithms

This project models, in Dafny, the parts of a C-like compiler whose correctness rests on
loops, state and arithmetic, and proves that they do what the language promises. The
instructions the compiler emits are treated as the program under study: basic blocks,
storage units, heap blocks and byte buffers are modelled directly.

| files | part of the system |
|---|---|
| `Cfg`, `DeferSource`, `DeferCodegen`, `DeferSim`, `DeferTheorem`, `DeferOrder`, `DeferGenerator` | statements with `defer` and string clean-ups: source semantics, the generator (a class with its stacks and insertion block, and the function that specifies it), the proof that generated blocks mean what the source means, and the order in which deferred calls run |
| `BitInt`, `BitField`, `Layout`, `LayoutBuild`, `LayoutTheorem`, `LayoutReserve`, `LayoutTight`, `LayoutAlign`, `LayoutBuilder`, `Record` | aggregate layout, its alignment and padding, bit-field access, and records as independent cells |
| `ConstantUnits`, `PackedUnits`, `Designated`, `DesignatedTheorem`, `DesignatedLayout`, `DesignatedRuns`, `DesignatedAgreement`, `DesignatedStores` | constant initialisers and the stores emitted for the same lists |
| `StringHeap`, `StringGrowth`, `StringRuns`, `StringMachine`, `StringActivation` | owning strings over `malloc`, `realloc` and `free`, and what growing them costs |
| `StringAggregates`, `AggregateTheorem`, `AggregateFaults`, `AggregateInit`, `AggregateWitness`, `AggregateLimits`, `AggregateCases` | copying and releasing values that hold strings, the types for which that works, and the others |
| `Utf8`, `StrSplit` | emitted byte routines |
| `FormatSpec`, `FormatMeaning`, `FormatScan`, `FormatRoutines` | the three format scanners and the printf strings |
| `CtArith`, `CtLaws` | compile-time integers |
| `ModuleLoader` | the depth-first module loader |
| `TemplateTypes`, `TemplateExprs`, `TemplateRegistry`, `TemplateRanks` | template instances, the integer expressions in their arguments, and which uses are instantiated without an error |
| `Overload`, `OverloadRanks`, `LayoutKey` | overload resolution, type keys |
| `Options`, `Arith`, `Decimals` | shared helpers |

How the modelling is done:

- Conditions and expressions of statements are opaque: an oracle answers each evaluation
  from the history so far, so the results hold for every behaviour of the expressions. The
  source semantics takes a step bound only so that it is total; the main theorem quantifies
  it away.
- Memory for bit-fields is a sequence of bits, lowest first, as little-endian memory orders
  them. For strings it is a heap of numbered blocks that records every illegal access and
  every block freed; whether `realloc` moves and what fresh memory holds are free choices.
- `realloc`, `malloc` and `free` never fail and sizes do not overflow.
- Where the field-aware copy or release of an aggregate counts its slots wrongly, an
  instruction emitted for a slot of another kind, or past the last slot, counts as an illegal
  access; the heap records it.
- File contents and specifier resolution of the module loader, the spelling of template
  instance names and canonical names, and the text rendered for a format slot are
  parameters.
- Storage types of bit-fields are integers, whose alignment is a function of their size.
- The analyser's checks appear as preconditions: power-of-two alignments, bit-field widths
  no larger than their type, designator chains that lead to a scalar or a bit-field,
  template arguments without free variables.

Where the code does not do what a reader would expect, the model follows the code; one lemma
gives the exact condition and another an input on which it fails:

- a field's explicit alignment does not raise the reported alignment of the aggregate
  (`LayoutAlign.ExplicitAlignHonoured`, `ExplicitAlignLost`);
- a packed storage unit can be narrower than the value that the constant builder widens to
  it; widening to fewer bits is an error of the LLVM integer class, which the model answers
  with no constant (`PackedUnits.UnitWideEnough`, `ConstantOfUnit`, `NarrowUnit`);
- designating the same bit-field twice ORs the values in a constant but overwrites in
  memory (`DesignatedAgreement.ConstantIsMemory`, `DesignatedTwice`);
- appending a part of a string to itself appends the string's beginning instead
  (`StringHeap.AppendCorrectIff`, `AppendsBeginning`);
- initialising an Optional or a Result reads the destination's old flag and may free what
  the old contents point to (`AggregateInit.InitSafeIff`, `InitFreesAnother`);
- copying and releasing a struct or class with a base walks the wrong slots, or finds no
  strings, for some types: a derived struct with its own field list, a derived class whose
  list already contains the base, a class with strings whose base has none
  (`AggregateLimits.AssignFaithfulIff` and `ReleaseCompleteIff`, whose proofs build failing
  values for every such type; `AggregateCases.DerivedStructShares`, `DerivedStructSkips`,
  `DerivedStructMistakes`, `MaterialisedClassOverruns`);
- a NUL in a format literal ends what printf sees (`FormatScan.PrintfSeesAll`, `NulUnseen`);
- comparisons of mixed signedness at compile time wrap the signed operand
  (`CtArith.MixedCompare`, `MinusOneNotLess`).

A deferred call as an unbraced branch is registered in the enclosing block, reached or not
(`DeferTheorem.BareDeferRunsUnreached`); the theorem about defers is for bodies without one.

The layout self-check at `src/ast/LayoutBuilder.cpp:319-335` can never run, because the list
it compares is only filled when the check is skipped; `LayoutTheorem.LayoutSound` proves what
it was meant to check.

## Model

| member | source | states |
|---|---|---|
| DeferTheorem.DeferInliningPreservesMeaning | src/ast/Stmt.cpp:41-341 | for every function body whose defers stand in blocks, the generated blocks return (or trap) with a history exactly when the block-structured source semantics does; both diverge together |
| DeferTheorem.CallRuns | src/ast/Stmt.cpp:41-341 | each source run with enough steps is matched by the blocks step for step: same end, same history, same divergence |
| DeferTheorem.NeverMalformed | src/ast/Stmt.cpp:41-341 | no run of the generated function reaches a block without a terminator or a jump to nowhere |
| DeferTheorem.Simulates | src/ast/Stmt.cpp:41-341 | the simulation invariant of one statement: falling, break, continue and return all leave the blocks where the scope stacks say, having run the reached defers of every scope left, innermost first, once |
| DeferTheorem.BlockSimulates | src/ast/Stmt.cpp:41-67 | a block runs its own defers and then its string releases on every kind of exit |
| DeferTheorem.ReturnSimulates | src/ast/Stmt.cpp:69-128 | return evaluates its value first, then unwinds every scope of the function, then leaves |
| DeferTheorem.IfSimulates | src/ast/Stmt.cpp:130-159 | both arms join again unless they ended in a jump |
| DeferTheorem.WhileSimulates | src/ast/Stmt.cpp:161-188 | condition, body and back edge run as the source loop does, break and continue included |
| DeferTheorem.DoSimulates | src/ast/Stmt.cpp:190-216 | the body runs before the first test and continue goes to the test |
| DeferTheorem.ForSimulates | src/ast/Stmt.cpp:218-260 | initialiser once, continue goes to the increment, break past the loop |
| DeferTheorem.SwitchSimulates | src/ast/Stmt.cpp:262-319 | the jump enters the labelled case (or the default wherever it stands), cases fall through, break leaves |
| DeferTheorem.SelectFinds | src/ast/Stmt.cpp:262-319 | the arms of the emitted switch pick the first case with the value, as the source does |
| DeferTheorem.BareDeferRunsUnreached | src/ast/Decl.cpp:1674-1681 | a deferred call that is the unbraced branch of an if runs on exit although control never reached it |
| DeferOrder.DefersRunBackwards | src/codegen/CodegenContext.cpp:341-355 | a void body that only registers deferred calls, any number of them, returns having run exactly these calls, last registered first; so do the generated blocks |
| DeferOrder.FallsThrough | src/codegen/CodegenContext.cpp:341-371 | a straight-line body runs its expressions, then its deferred calls last registered first, then releases its strings last declared first; source and blocks |
| DeferOrder.ReturnsThroughBlocks | src/ast/Stmt.cpp:69-128 | a return inside any number of nested blocks evaluates its value and then leaves the blocks from the innermost outwards, each with its calls backwards and then its strings backwards; source and blocks |
| DeferOrder.DefersBackwards | src/codegen/CodegenContext.cpp:341-355 | entry i of the deferred calls run is the i-th from the end of those registered |
| DeferOrder.CleanupsBackwards | src/codegen/CodegenContext.cpp:341-355 | entry i of the strings released is the i-th from the end of those declared |
| DeferCodegen.CompFramed | src/codegen/CodegenContext.cpp:289-385 | generating a statement only adds blocks and ends the current one; blocks finished earlier stay as they are |
| DeferSim.ContextKept | src/codegen/CodegenContext.cpp:325-371 | generating a statement leaves the stacks of scopes and jump targets as it found them, but for defers it registers in the innermost scope |
| DeferGenerator.CodegenContext.Codegen | src/ast/Stmt.cpp:41-341 | the imperative generator, which moves its insertion block and pushes and pops its stacks, ends in the state the specification function gives |
| DeferGenerator.CodegenContext.CodegenFunction | src/ast/Decl.cpp:1416-1428 | a whole function: the blocks built are those the meaning theorem is about |
| DeferGenerator.CodegenContext.EmitDefersFrom | src/codegen/CodegenContext.cpp:341-355 | runs the defers of the scopes above a depth, innermost scope and latest defer first, each scope followed by its string releases |
| DeferGenerator.CodegenContext.CodegenSwitch | src/ast/Stmt.cpp:262-319 | blocks, arms and default of a switch as specified |
| DeferGenerator.CodegenContext.SwitchArms | src/ast/Stmt.cpp:262-319 | one arm per labelled case in order, and the last default label as the default target |
| DeferGenerator.CodegenContext.CodegenFor | src/ast/Stmt.cpp:218-260 | the four blocks of a for loop and its break and continue targets as specified |
| BitField.StoreSplices | src/codegen/CodegenContext.cpp:256-281 | the mask, shift, and, or sequence replaces exactly the bits of the field |
| BitField.LoadExtends | src/codegen/CodegenContext.cpp:226-254 | shift and truncation read exactly the bits of the field, zero- or sign-extended by the declared type |
| BitField.ExtendMeans | src/codegen/CodegenContext.cpp:226-254 | read as a number, an unsigned field shows the value modulo 2^width, a signed one its two's-complement representative |
| BitField.LoadAfterStore | src/codegen/CodegenContext.cpp:226-281 | a load after a store shows the value reduced to the width, and no bit outside the field changes |
| Layout.AlignUpSound | src/ast/LayoutBuilder.cpp:14-16 | rounding up by division gives the next multiple of any positive alignment |
| Layout.WalkOrdered | src/ast/LayoutBuilder.cpp:286-295 | in the align-and-add struct walk entries are aligned, in order, without overlap, inside the struct |
| LayoutTheorem.LayoutSound | src/ast/LayoutBuilder.cpp:87-335 | the struct walk over the padded list reproduces the builder's own target offsets and total size (the self-check that the code never runs); fields meet their alignment, bit ranges are inside their unit and disjoint, with the declared widths; the size is a multiple of the alignment |
| LayoutAlign.ReportedIsDeclared | src/ast/LayoutBuilder.cpp:286-295 | the reported alignment follows from the declaration: the forced alignment and, outside packed aggregates, the natural alignments of the base, the ordinary fields and the bit-fields that have storage |
| LayoutAlign.ExplicitAlignHonoured | src/ast/LayoutBuilder.cpp:211-237 | a field's explicit alignment holds at every placement if and only if that declared alignment is at least as large; the builder does not raise the reported alignment for it |
| LayoutAlign.ExplicitAlignLost | src/ast/LayoutBuilder.cpp:211-237 | struct with an int8 and an int32 aligned to 16: reported alignment 4, so the field can end up misaligned |
| LayoutTheorem.PlainAgrees | src/ast/LayoutBuilder.cpp:34-97 | without annotations and bit-fields the padded list is the plain list: the builder changes nothing |
| LayoutTheorem.SharingRule | src/ast/LayoutBuilder.cpp:98-238 | exactly when two neighbouring bit-fields share a storage unit, and at which bit the second starts |
| LayoutTheorem.ZeroWidthRule | src/ast/LayoutBuilder.cpp:98-238 | a zero-width bit-field ends the unit: the next bit-field starts a new one |
| LayoutReserve.ReserveRule | src/ast/LayoutBuilder.cpp:142-209 | two named bit-fields of one run of nonzero widths, whatever lies between them, named or not: if the layout is packed, or all are of one type size and fit together, the second lies in the unit of the first at its offset plus all declared widths from the first up to it, and otherwise in a later unit |
| LayoutReserve.ZeroStartsAfresh | src/ast/LayoutBuilder.cpp:150-179 | after any fields, the bit-field behind a zero width starts a unit, or in a packed layout lies at a multiple of the size of the zero-width field's type |
| LayoutTight.OrdinaryTight | src/ast/LayoutBuilder.cpp:211-237 | an ordinary field lies behind all fields before it, at the least offset that its alignment allows, with at most one padding entry before it |
| LayoutTight.UnitTight | src/ast/LayoutBuilder.cpp:180-206 | a bit-field that does not share the unit before it gets a unit of its type at the least offset that the type's alignment allows |
| LayoutTight.SizeTight | src/ast/LayoutBuilder.cpp:239-251 | the size is the least multiple of the final alignment that covers all entries |
| LayoutBuild.StepSound | src/ast/LayoutBuilder.cpp:98-238 | each field added keeps cursor, padded list, units and pending packed bits consistent |
| LayoutBuild.FoldSound | src/ast/LayoutBuilder.cpp:98-238 | so does the whole loop over any field list |
| LayoutBuilder.AggregateType.BuildAggregate | src/ast/LayoutBuilder.cpp:34-337 | the first call materialises the field list, every further call returns the same answer |
| LayoutBuilder.AggregateType.Materialise | src/ast/LayoutBuilder.cpp:87-277 | overwrites the declared fields with the padded list and fills the bit-field table, as the specification says |
| LayoutBuilder.Builder.Add | src/ast/LayoutBuilder.cpp:98-238 | one round of the loop: bit-field in a unit, packed bit-field, zero-width or ordinary field |
| LayoutBuilder.Builder.CloseRegion | src/ast/LayoutBuilder.cpp:98-170 | a packed region becomes one byte array and its pending fields get their places in it |
| LayoutBuilder.Builder.Finish | src/ast/LayoutBuilder.cpp:239-257 | the tail padding and total size |
| LayoutBuilder.DescribedOffsets | src/ast/LayoutBuilder.cpp:284-317 | the offsets reported by name are those of the fields themselves, behind the base object if there is one; exactly the named fields are reported |
| Record.RunIsCells | src/codegen/CodegenContext.cpp:226-281 | any sequence of field and bit-field stores acts on independent named cells |
| Record.RecordRefinesCells | src/ast/LayoutBuilder.cpp:98-238 | the same for every declared aggregate laid out by the builder, packed or not, with the declared widths; loads show the last value stored |
| Record.RangesApart | src/ast/LayoutBuilder.cpp:98-238 | two named members never share a bit of the object |
| ConstantUnits.OrIsStore | src/ast/Decl.cpp:640-656 | OR-ing into a unit equals the read-modify-write store if and only if the value is no wider than the unit and no bit already set in the field is clear in it |
| ConstantUnits.ConstantIsStored | src/ast/Decl.cpp:811-875 | the constant of a storage unit is what the run-time initialiser leaves in a zeroed unit; if some value is wider than the unit, widening it is an error and there is no constant |
| ConstantUnits.SplitBytes | src/ast/Decl.cpp:28-39 | the byte array of a packed unit concatenates to the unit |
| ConstantUnits.JoinBytes | src/ast/Decl.cpp:42-54 | joining the bytes gives the unit back |
| ConstantUnits.FlatInjective | src/ast/Decl.cpp:28-54 | a unit determines its bytes, so splitting and joining are inverse |
| PackedUnits.UnitIs | src/ast/LayoutBuilder.cpp:125-170 | the width of every bit-field's unit from the declaration: its type, or in a packed aggregate the bits of its run of adjacent bit-fields rounded up to bytes |
| PackedUnits.UnitWideEnough | src/ast/LayoutBuilder.cpp:125-170 | the unit is at least as wide as the field's type if and only if the aggregate is not packed or that extent is at least the size of the type |
| PackedUnits.ConstantOfUnit | src/ast/Decl.cpp:811-875 | for every unit of every declared aggregate: constant and stores agree if all members initialised there are wide enough, and there is no constant otherwise |
| PackedUnits.NarrowUnit | src/ast/Decl.cpp:848-862 | a packed struct of two int32 fields of three bits: the unit has eight bits and no constant can be built |
| DesignatedLayout.LaidOutSound | src/ast/LayoutBuilder.cpp:98-257 | the record of every declared aggregate meets what the designated initialiser needs: members in slots of their types or in ranges of units, never overlapping |
| DesignatedLayout.WideByDeclaration | src/ast/Decl.cpp:640-656 | for such a record the declaration decides whether a constant can hold a bit-field |
| DesignatedTheorem.PlaceIsUpdate | src/ast/Decl.cpp:516-681 | the constant is rebuilt at exactly the address the emitted pointer walk arrives at, through arrays, fields, bit-fields and base objects; it fails exactly if the value is wider than the unit it goes to |
| Designated.CastKeeps | src/codegen/CodegenContext.cpp:465-483 | converting a constant to a type of n bits keeps its number modulo 2^n, and all of it where the type is not narrower: the signed number of a signed value, the unsigned number of an unsigned or one-bit one |
| Designated.OwnSlot | src/ast/Decl.cpp:305-382 | in a record without a field list a designator means the first slot of its name behind the base object |
| Designated.OwnListed | src/ast/Decl.cpp:305-382 | with a field list its first entry of the name decides: a bit-field lies at its place, any other member in the first slot of the name |
| DesignatedRuns.ChainsApart | src/ast/Decl.cpp:305-382 | different designator chains lead to storage that does not overlap |
| DesignatedRuns.MemoryHoldsLast | src/ast/Decl.cpp:387-470 | after the stores every path holds the bits of the value last written to it, or zero; read as a number, that is the last value given there modulo the width of the target |
| DesignatedAgreement.ConstantExists | src/ast/Decl.cpp:516-707 | there is a constant if and only if every value fits the unit it goes to |
| DesignatedAgreement.ConstantHolds | src/ast/Decl.cpp:516-707 | in the constant a scalar shows the last number given to it modulo its width, or zero; a bit-field shows the numbers given to it OR-ed digit by digit |
| DesignatedAgreement.ConstantIsMemory | src/ast/Decl.cpp:516-707 | there is a constant and it equals memory if and only if every value fits its unit and no bit-field is given a bit that its last value clears |
| DesignatedAgreement.DesignatedTwice | src/ast/Decl.cpp:640-656 | a bit-field designated as 1 and then as 2: constant and memory differ |
| DesignatedStores.EmitDesignated | src/ast/Decl.cpp:387-470 | the emitted stores leave in the object what the run of the list says and touch nothing else |
| DesignatedStores.EmittedIsConstant | src/ast/Decl.cpp:387-707 | emitted into zeroed memory, the list leaves the constant under the same exact condition |
| DesignatedStores.Arrive | src/ast/Decl.cpp:402-444 | the loop over the chain arrives at the chain's target |
| StringHeap.CopyBecomes | src/codegen/CodegenContext.cpp:1635-1673 | a copy owns a fresh buffer with the source's bytes, nothing else changes |
| StringHeap.AssignBecomes | src/codegen/CodegenContext.cpp:1679-1723 | assignment leaves the source's text in the destination and frees its old buffer once; self-assignment is safe |
| StringHeap.AssignFreshBecomes | src/ast/Expr.cpp:1953-1987 | a fresh value is moved in, the old buffer freed |
| StringHeap.AppendBecomes | src/ast/Expr.cpp:3635-3697 | append adds the bytes, for a source elsewhere or at the start of the receiver, whether or not realloc moves |
| StringHeap.AppendCorrectIff | src/ast/Expr.cpp:3677-3688 | append adds the viewed bytes if and only if the view lies outside the receiver or equals the receiver's beginning; other views into the receiver are replaced by its first bytes |
| StringHeap.AppendsBeginning | src/ast/Expr.cpp:3677-3688 | "ab" to which its second byte is appended becomes "aba" |
| StringHeap.PushBecomes | src/ast/Expr.cpp:3698-3749 | push adds one byte |
| StringHeap.DestroyBecomes | src/ast/Expr.cpp:3621-3634 | destroy frees the buffer and leaves the empty string |
| StringGrowth.ExtendGrows | src/ast/Expr.cpp:3650-3675 | append and push keep the buffer where text and terminator fit; otherwise they at least double it, never beyond twice what is needed |
| StringGrowth.BuildingIsLinear | src/ast/Expr.cpp:3635-3749 | a string built from any pieces: the bytes asked for over its life are at most four times its final length (and terminator), and the number of reallocations is logarithmic in it |
| StringRuns.StepHolds | src/ast/Expr.cpp:3597-3749 | every operation keeps the ownership invariant and does to the text what the language says |
| StringRuns.RunHolds | src/codegen/CodegenContext.cpp:1618-1723 | over any run: distinct headers own distinct live buffers, len + 1 <= cap, no free or access of a dead block, texts as in a model without memory |
| StringRuns.LeaveLeavesOnly | src/ast/Stmt.cpp:95-126 | leaving by the end of the body, or by return of a local (moved), a fresh value (as it is) or another string (copied), leaves no live buffer but the returned one, which holds the right text |
| StringRuns.WholeFunction | src/ast/Stmt.cpp:95-126 | for a whole function from an empty heap: exactly the returned buffer is live, and it holds the right text |
| StringMachine.Machine.StringCopy | src/codegen/CodegenContext.cpp:1635-1673 | the emitted routine on a mutable heap is the specified step |
| StringMachine.Machine.StringAssign | src/codegen/CodegenContext.cpp:1679-1723 | likewise, with the pointer comparison that protects self-assignment |
| StringMachine.Machine.AssignFresh | src/ast/Expr.cpp:1953-1987 | likewise for moving a fresh value in |
| StringMachine.Machine.StringAppend | src/ast/Expr.cpp:3635-3697 | likewise, with the reload of the source after realloc |
| StringMachine.Machine.StringPush | src/ast/Expr.cpp:3698-3749 | likewise |
| StringMachine.Machine.StringDestroy | src/ast/Expr.cpp:3621-3634 | likewise |
| StringActivation.Activation.Perform | src/ast/Expr.cpp:3597-3749 | one program operation on locals and scopes updated in place, through the emitted routines |
| StringActivation.Activation.Run | src/codegen/CodegenContext.cpp:1618-1723 | any run on the mutable heap keeps the ownership invariant and ends with the right texts |
| StringActivation.Activation.Leave | src/ast/Stmt.cpp:95-126 | handing over, making or copying the returned string, then releasing every scope, as specified |
| StringActivation.Call | src/ast/Stmt.cpp:95-126 | a whole call on the mutable heap misuses no block and leaves exactly the returned buffer live, with the right text |
| AggregateTheorem.ReleaseFrees | src/codegen/CodegenContext.cpp:1932-2063 | for every type tree whose release walk fits the slots: each buffer of the value is freed once and no other, and every string is null afterwards |
| AggregateTheorem.ValueCopied | src/codegen/CodegenContext.cpp:1762-1926 | for every type tree whose copy walk fits the slots, copy and assignment give the source's content, free each replaced or invalidated buffer once, make fresh ones, and keep inactive slots null |
| AggregateTheorem.DerivedCopied | src/codegen/CodegenContext.cpp:1815-1846 | the same for a record whose base is walked in slot 0 and whose fields are walked from slot 1 |
| AggregateTheorem.ResultCopied | src/codegen/CodegenContext.cpp:1879-1926 | the same for a Result that may switch its active side |
| AggregateLimits.AssignIndependent | src/codegen/CodegenContext.cpp:1796-1926 | after a copy or an assignment the two values show the same and share no buffer, the source is unchanged, and no buffer is lost |
| AggregateLimits.AssignSelf | src/codegen/CodegenContext.cpp:1796-1926 | assigning a value to itself changes nothing |
| AggregateLimits.AssignFaithfulIff | src/codegen/CodegenContext.cpp:1727-1926 | copying keeps the content and shares no buffer, for all values of a type, if and only if the type fits its own walk: strings are found wherever there are some, every slot walked fits the type it is walked as, and no slot left out has anything to show |
| AggregateLimits.ReleaseCompleteIff | src/codegen/CodegenContext.cpp:1932-2063 | releasing frees every buffer once and leaves nulls, for all values of a type, if and only if strings are found wherever there are some, every slot walked fits, and no slot left out holds strings |
| AggregateCases.RegularFits | src/codegen/CodegenContext.cpp:1727-1846 | the condition holds of every type without bases, of derived structs once their list contains the base, and of derived classes before that whose base has strings or nothing to be missed |
| AggregateCases.DerivedStructShares | src/codegen/CodegenContext.cpp:1734-1737 | struct A { string s; }; struct B : A { int32 x; }: assignment stores B as it is, and two objects own one buffer |
| AggregateCases.DerivedStructSkips | src/codegen/CodegenContext.cpp:1806-1838 | struct B : A { A extra; }: the base is copied in place of the field, and the field keeps what it had |
| AggregateCases.DerivedStructMistakes | src/codegen/CodegenContext.cpp:1806-1838 | struct A { int32 n; }; struct B : A { string s; }: copying any two values treats the base object as a string |
| AggregateCases.MaterialisedClassOverruns | src/codegen/CodegenContext.cpp:1815-1838 | a derived class whose field list was overwritten by its layout: copying and releasing any value look past the last slot |
| AggregateInit.InitSafeIff | src/codegen/CodegenContext.cpp:1796-1926 | for every type tree and any destination contents, an initialising copy frees and changes nothing that was there, legally, if and only if no Optional or Result slot the source makes inactive was marked active and would free a non-null string, and every slot is of the kind it is walked as |
| AggregateInit.NullsNotStale | src/codegen/CodegenContext.cpp:1796-1926 | memory whose strings are null, such as zeroed memory, meets that condition for every type whose release walk fits |
| AggregateInit.InitFreesAnother | src/codegen/CodegenContext.cpp:1849-1878 | an absent optional string copied over a stale valid slot legally frees the buffer of another string |
| Utf8.OctetsAreEncodings | src/codegen/CodegenContext.cpp:1223-1350 | the octet grammar of section 4 of RFC 3629 describes exactly the encodings of sequences of Unicode scalar values |
| Utf8.DecodeEncode | src/codegen/CodegenContext.cpp:1223-1350 | decoding undoes encoding, and an encoding is one character of the grammar |
| Utf8.EncodeDecode | src/codegen/CodegenContext.cpp:1223-1350 | encoding undoes decoding: no overlong forms, no surrogates |
| Utf8.CharLenAt | src/codegen/CodegenContext.cpp:932-968 | the width the lead byte's shape announces, 0 for a byte that leads nothing; at a character of valid text it is the character's length |
| Utf8.CharCount | src/codegen/CodegenContext.cpp:970-1013 | on valid text the number of scalar values |
| Utf8.Validate | src/codegen/CodegenContext.cpp:1223-1350 | the emitted validator accepts exactly the encodings, whatever byte lies after the end |
| CtArith.NormalizeIntIsRep | src/ast/CtValue.cpp:96-116 | normalisation gives the representative of the raw word at width and signedness |
| CtArith.RepUnique | src/ast/CtValue.cpp:96-116 | that representative is the only value in range congruent to the word modulo 2^bits |
| CtArith.SignExtendIsRep | src/ast/CtValue.cpp:19-26 | sign extension by mask, xor and subtraction is the two's-complement reading |
| CtArith.MaskIsMod | src/ast/CtValue.cpp:13-17 | masking is reduction modulo 2^bits |
| CtArith.BinaryExact | src/ast/CtValue.cpp:211-374 | add, sub, mul, shifts, div and mod at the result type are the integer operation modulo 2^bits, quotients truncating; division by zero is refused |
| CtArith.BitwiseExact | src/ast/CtValue.cpp:211-374 | and, or, xor act on the binary digits of the operands modulo 2^bits |
| CtArith.ShiftCountIsMod | src/ast/CtValue.cpp:211-374 | shift counts are taken modulo the width |
| CtArith.DivModRecombine | src/ast/CtValue.cpp:211-374 | (a / b) * b + a % b is a modulo 2^bits, min / -1 included |
| CtArith.CompareExact | src/ast/CtValue.cpp:300-330 | operands of the same signedness compare in integer order |
| CtArith.MixedCompare | src/ast/CtValue.cpp:300-330 | a signed and an unsigned operand compare in integer order if and only if the signed one is not negative or still smaller after wrapping |
| CtArith.MinusOneNotLess | src/ast/CtValue.cpp:300-330 | int32 -1 < uint32 1 folds to false |
| CtLaws.ComparesIntegers | src/ast/CtValue.cpp:304-330 | for operands of the same signedness each of the six comparisons folds to the bool that is the truth about the integers |
| CtLaws.ConnectsTruth | src/ast/CtValue.cpp:308-311 | the logical connectives of two folded operands are those of "is not zero" |
| CtLaws.OperationType | src/ast/CtValue.cpp:266-296 | the type of an operation: the requested one, or signed 32 bits for narrower operands, or the greater width, unsigned if one operand is |
| CtLaws.SmallSums | src/ast/CtValue.cpp:211-374 | sums and differences of operands narrower than 31 bits are exact |
| CtArith.CastExact | src/ast/CtValue.cpp:376-410 | a cast reduces modulo the new width and keeps values that fit |
| ModuleLoader.Loader.LoadModuleFile | src/driver/ModuleLoader.cpp:179-278 | keeps the loader's invariant, restores the active stack, terminates because every continuing call adds a path, and reports nothing where everything below the file can be imported |
| ModuleLoader.Loader.FollowImports | src/driver/ModuleLoader.cpp:257-273 | every import in order is resolved and loaded, or reported; nothing is reported where all of them can be imported |
| ModuleLoader.Loader.PreloadImports | src/driver/ModuleLoader.cpp:153-177 | the same from the command line's first imports |
| ModuleLoader.Loader.ReadModule | src/driver/ModuleLoader.cpp:205-254 | a file is accepted if and only if it is readable, has no diagnostic that is an error, parses without errors, and declares no name or, where the specifier is dotted, the specifier's; exactly its complaints are reported, its imports recorded and its declarations tagged with its name |
| ModuleLoader.SilentIff | src/driver/ModuleLoader.cpp:205-254 | reading a file reports nothing if and only if it is acceptable and has no diagnostics |
| ModuleLoader.TagNames | src/driver/ModuleLoader.cpp:97-102 | declarations without a module get the module's name; order and everything else stay |
| ModuleLoader.LoadedWithoutErrors | src/driver/ModuleLoader.cpp:153-278 | if nothing is reported, every import resolved to an acceptable file without diagnostics, every reached file is emitted exactly once, after all files it imports, and the reached graph has no cycle |
| ModuleLoader.AcyclicImportable | src/driver/ModuleLoader.cpp:153-278 | the converse: from any file of an acyclic graph of acceptable files without diagnostics, whose imports all resolve and are not legacy, everything can be imported, so loading reports nothing |
| ModuleLoader.NoCycle | src/driver/ModuleLoader.cpp:179-278 | an emission order that respects imports rules out cycles |
| ModuleLoader.CycleFound | src/driver/ModuleLoader.cpp:188-199 | the reported path is the part of the stack from the file met again, closed by it |
| ModuleLoader.ReportedCyclesReal | src/driver/ModuleLoader.cpp:188-199 | every reported cycle is a cycle of the recorded import graph |
| FormatSpec.ParseSpell | src/ast/PrintFormat.cpp:32-123 | every legal specification is read back from its spelling |
| FormatSpec.ParseLegal | src/ast/PrintFormat.cpp:32-123 | every accepted specification is legal |
| FormatSpec.AcceptedIff | src/ast/PrintFormat.cpp:32-123 | a spelled specification is accepted if and only if width and precision are at most 200, an alignment or zero flag has a width, and zeros go to the left |
| FormatSpec.ParseParts | src/ast/PrintFormat.cpp:32-123 | an accepted text holds nothing beside the parts of its specification |
| FormatSpec.ToPrintfReads | src/ast/PrintFormat.cpp:125-225 | the conversion is one printf conversion that consumes as many arguments as code generation pushes |
| FormatMeaning.ToPrintfMeans | src/ast/PrintFormat.cpp:125-225 | read as printf reads it, the conversion asks for the sign, zero fill, side, width, precision, integer size and notation of the specification |
| FormatMeaning.RefusedIff | src/ast/PrintFormat.cpp:125-225 | exactly which specifications a kind of value refuses |
| FormatMeaning.TakesWhatIsPassed | src/ast/PrintFormat.cpp:125-225 | the conversion takes from the argument list what the call passes for that kind |
| FormatMeaning.DefaultMeans | src/ast/PrintFormat.cpp:12-30 | so does the conversion of a slot without a specification, which is plain, decimal or general |
| FormatMeaning.SlotMeans | src/ast/PrintFormat.cpp:310-328 | a slot gets the default conversion, the conversion its specification asks for, a fault of syntax or a fault of type, each in exactly its case |
| FormatScan.ScannersAgree | src/ast/Expr.cpp:1277-1381 | on every format the compile-time scan accepts, literal assembly and the run-time scanner write the same bytes for the same chunks |
| FormatScan.AcceptedAgree | src/ast/PrintFormat.cpp:270-357 | so on every format that buildPrintFormat accepts, with one chunk per slot |
| FormatScan.DynamicBound | src/codegen/CodegenContext.cpp:1064-1217 | on every format at all, the run-time scanner writes at most the format's length plus the chunks' lengths |
| FormatScan.BuildIsPrinted | src/ast/PrintFormat.cpp:270-357 | the one-pass builder produces the printed form of the parsed pieces |
| FormatScan.ReadsBack | src/ast/PrintFormat.cpp:270-357 | read as printf reads it, the produced string is the literal text and one conversion per slot; its varargs are those pushed |
| FormatScan.PrintfSeesAll | src/ast/PrintFormat.cpp:270-357 | printf sees the whole produced string if and only if the literal holds no NUL |
| FormatScan.NulUnseen | src/ast/PrintFormat.cpp:270-357 | a literal that is one NUL reaches printf as an empty format |
| FormatRoutines.ParsePrintSpec | src/ast/PrintFormat.cpp:32-123 | the index loop computes the specification |
| FormatRoutines.BuildPrintFormat | src/ast/PrintFormat.cpp:270-357 | the index loop builds the printed form, or reports the same fault |
| FormatRoutines.FormatDyn | src/codegen/CodegenContext.cpp:1016-1220 | the emitted scanner stays inside its buffer and writes the specified bytes and a terminator |
| FormatRoutines.AssembleLiteral | src/ast/Expr.cpp:1277-1381 | the chunk list is copied into a buffer of exactly the total length |
| StrSplit.LeftmostJoins | src/codegen/CodegenContext.cpp:1495-1616 | joining the parts with the separator gives the input back |
| StrSplit.LeftmostUnique | src/codegen/CodegenContext.cpp:1495-1616 | the leftmost split is unique |
| StrSplit.ScanLeftmost | src/codegen/CodegenContext.cpp:1495-1616 | the scan yields the leftmost non-overlapping split, all views in bounds |
| StrSplit.MatchAt | src/codegen/CodegenContext.cpp:1449-1493 | true exactly if the separator occurs at the position |
| StrSplit.CountParts | src/codegen/CodegenContext.cpp:1495-1560 | the first pass counts the parts |
| StrSplit.FillParts | src/codegen/CodegenContext.cpp:1560-1616 | the second pass writes as many, each in bounds |
| StrSplit.Split | src/ast/Expr.cpp:1470-1484 | an empty separator is refused; otherwise the parts are the leftmost split and join to the input |
| Overload.OverloadSet.Resolve | src/ast/Symbol.cpp:300-350 | the one viable candidate of least rank and then fewest defaults; none if there is none or two tie |
| Overload.ChoiceUnique | src/ast/Symbol.cpp:300-350 | that determines the answer from the set of candidates, whatever their order |
| Overload.RankThroughTypedefs | src/ast/Symbol.cpp:233-294 | the conversion rank looks through typedefs of both types |
| OverloadRanks.RankClasses | src/ast/Symbol.cpp:223-294 | ranks 0 to 3 and "does not convert", each described by the pairs of types that have it, independent of the order of the tests |
| OverloadRanks.Widths | src/ast/Symbol.cpp:83-112 | the integer widths that decide which conversions widen |
| OverloadRanks.ConstCharPointers | src/ast/Symbol.cpp:223-231 | a read-only C string is a pointer to constant char, through typedefs of either, whose own constness does not count |
| OverloadRanks.EqualIsErased | src/ast/Symbol.cpp:4-81 | equal types are those that agree after removing const and the names of typedefs at every level |
| OverloadRanks.CallableIff | src/ast/Symbol.cpp:300-335 | exactly when a candidate can be called: defaults for missing arguments, an ellipsis for extra ones, and each argument converts |
| OverloadRanks.SumShifts | src/ast/Symbol.cpp:306-335 | changing one argument changes the sum by the difference of its ranks |
| OverloadRanks.VariadicDearer | src/ast/Symbol.cpp:306-335 | an ellipsis costs one |
| OverloadRanks.MatchWins | src/ast/Symbol.cpp:300-350 | a candidate that alone takes every argument at its own type is the answer |
| Overload.OverloadSet.TotalRank | src/ast/Symbol.cpp:306-335 | the sum of the ranks, or not viable as soon as one argument does not convert |
| LayoutKey.KeyReads | src/codegen/CodegenContext.cpp:558-627 | the type (enums at their underlying type) is read back from its key, even with a dotted suffix |
| LayoutKey.KeyInjective | src/codegen/CodegenContext.cpp:558-627 | equal keys mean equal types |
| LayoutKey.LayoutNamesInjective | src/codegen/CodegenContext.cpp:759-790 | no two Optional or Result instances share a layout name |
| TemplateRegistry.Registry.Rewrite | src/sema/TemplateInstantiator.cpp:145-236 | terminates, keeps the registry's invariant and yields the type with variables, sizes and instances filled in; if no error was added and no clone has failed, every use of a class template becomes its registered type; and no error is added where every use can be built |
| TemplateRegistry.Registry.ResolveInstance | src/sema/TemplateRegistry.cpp:189-248 | arguments one level deeper, then the instance's registered type; null for a class only with a new error or if the clone of this very instance failed; no error where the use can be built |
| TemplateRanks.RankedBuild | src/sema/TemplateRegistry.cpp:84-248 | the converse: if instances can be ranked so that each mentions only lower ones, all of class templates that can be cloned, with value arguments that evaluate, then every use is built without an error as long as the depth and the rank together stay within 64 |
| TemplateRegistry.Registry.EvalAll | src/sema/TemplateRegistry.cpp:205-229 | each value argument evaluated, or the first failure reported; what the expressions compute is said by the laws of TemplateExprs |
| TemplateExprs.FailsIff | src/sema/TemplateInstantiator.cpp:8-62 | evaluation fails if and only if some part is an unknown name, another kind of expression, or a division by zero |
| TemplateExprs.SumLaws | src/sema/TemplateInstantiator.cpp:8-62 | a difference plus its right operand is the left one, a sum less its right operand is the left one, sums commute, a negation plus its operand is 0, a complement plus its operand is -1 |
| TemplateExprs.ProductLaws | src/sema/TemplateInstantiator.cpp:8-62 | products distribute over sums, 1 is neutral, signs come out |
| TemplateExprs.DivisionLaws | src/sema/TemplateInstantiator.cpp:8-62 | quotient and remainder recombine, the remainder is smaller than the divisor and has the sign of the dividend, and no other pair does that |
| TemplateExprs.BitwiseLaws | src/sema/TemplateInstantiator.cpp:8-62 | and, or, xor act on each two's-complement digit |
| TemplateExprs.DigitsDecide | src/sema/TemplateInstantiator.cpp:8-62 | two numbers with the same two's-complement digits are equal |
| TemplateRegistry.Registry.InstantiateByKey | src/sema/TemplateRegistry.cpp:84-134 | repeats answer the same declaration without change; a key in progress is reported as recursion; a key not started before is answered if and only if the limit is not reached, the template is known and can be cloned, and the first two are reported as such otherwise; the depth counter is restored and the keys in progress are as before |
| TemplateRegistry.Registry.CloneOnce | src/sema/TemplateRegistry.cpp:100-134 | a key is cloned once, from its template with the arguments filled in, without nulls for classes if nothing was reported |
| TemplateRegistry.Registry.Conclude | src/sema/TemplateRegistry.cpp:118-134 | the clone is queued and answers for its key from now on |
| TemplateRegistry.Registry.InstantiateClass | src/sema/TemplateRegistry.cpp:136-157 | answers by the instance's name; an instance not started before is made from the template with the type and value arguments bound to its parameters, each parameter to the argument in its place among those of its sort |
| TemplateRegistry.Registry.BindArguments | src/sema/TemplateRegistry.cpp:136-157 | the loop over the parameters binds type and value parameters to their arguments in order |
| TemplateTypes.BindIs | src/sema/TemplateRegistry.cpp:136-157 | each parameter of a sort is bound to the argument in its place, and nothing else is bound |
| TemplateTypes.ParamPlace | src/sema/TemplateRegistry.cpp:136-157 | a parameter's place among those of its sort, which is the place of its argument |
| TemplateRegistry.FinishedKept | src/sema/TemplateRegistry.cpp:84-134 | finishing a key keeps all other keys, their answers and the depth |

## Left out

- DeferTheorem.DeferInliningPreservesMeaning: claimed for bodies whose defers stand directly in blocks; a defer that is itself the unbraced branch of an if, loop or case is registered in the enclosing block, and no condition short of running the program says when that goes unnoticed.
- DeferTheorem.DeferInliningPreservesMeaning: lambda bodies, whose returns unwind the scopes of the enclosing function, and the compile-time `repeat` statement are not statements of the model; `break` and `continue` outside a loop trap, as the unreachable instruction does.
- DeferTheorem.ForSimulates: the initialiser of a for loop is an expression or a string declaration.
- LayoutTheorem.LayoutSound: fields without a machine type and sizes of 2^31 bytes and more are not modelled; nothing is claimed about the layouts of other compilers.
- LayoutBuilder.AggregateType.BuildAggregate: unions, whose layout is the maximum of their members, would only add easy members.
- DesignatedAgreement.ConstantIsMemory: the values are constant integers; nested lists, unions, strings and floating-point leaves are not modelled, and packed units are taken as whole units (their split into bytes is proved inverse in ConstantUnits).
- ConstantUnits.ConstantIsStored: with assertions compiled out, LLVM may truncate where the model has no constant; what such a build does is not claimed.
- StringHeap.AppendBecomes: the addition of lengths and the doubling of capacities do not wrap around, and an allocation never fails.
- StringRuns.WholeFunction: by-value string parameters and unassigned temporaries have no clean-up in the code, so the claim is about locals.
- StringRuns.WholeFunction: an uninitialised local array of strings is not zeroed by the code and is not part of the model.
- AggregateTheorem.ValueCopied: assignment of an Optional, Result or array variable as a whole is a plain store in the code (src/ast/Expr.cpp:1988-1993); the recursive copy is claimed where the code calls it.
- Utf8.Validate: the emitted loop may read the byte after the end before it tests the index; that byte is a parameter.
- FormatSpec.ParseSpell: widths and precisions are unbounded; std::stoi refuses those beyond 2^31 - 1.
- FormatScan.ScannersAgree: chunks are opaque; how a value is rendered, including the width of a string slot in `format`, is snprintf's business.
- CtArith.BinaryExact: floating-point operands and compile-time containers are not modelled.
- CtArith.CastExact: casts to char, to floating point and to other kinds are not modelled.
- TemplateRegistry.Registry.Rewrite: atomic and const wrappers are dropped, and cloning rewrites the types a template mentions but not its statements.
- TemplateRegistry.Registry.EvalAll: expressions are unbounded integers (overflow of 64 bits is undefined in the code, and an array's length is narrowed to int); the two shifts are not modelled, and bool and char literals are numbers.
- TemplateRegistry.Registry.InstantiateByKey: instance names are an abstract function of template and arguments; the real spelling drops array lengths and is not injective.
- TemplateRegistry.Registry.InstantiateByKey: a failed clone leaves its key done without a declaration; the null entry that the next lookup inserts is modelled as no declaration.
- LayoutKey.KeyInjective: typedefs, functions, qualifiers and kinds that print as "unknown" are excluded; enums count as their underlying type.
- StrSplit.Split: find and rfind share the matching loop and would only add easy members.
- ModuleLoader.Loader.LoadModuleFile: reading files, lexing and parsing are parameters.
- Driver, linker, debug information, logging, the parser and the semantic analyser are I/O and library plumbing or need files that are not part of this model.
- LLVM, atomics, inline assembly and floating point are not modelled.
