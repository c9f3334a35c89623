# MiniRust program builder, type printer and block/slice rules, in Dafny

This project models the part of MiniRust's tooling that builds and prints
MiniRust programs, together with the well-formedness rules that its block and
slice tests pin down.

- **Type constructors** (`TyBuild`, from `build/ty.rs`): total functions from
  their arguments to a `Type`, a `Discriminator` or an `UnsafeCellStrategy`.
  Each one states the shape it builds and the layout that shape has.
- **Rust-to-MiniRust type mapping** (`TyConv`, from `build/ty_conv.rs`): the
  `TypeConv` implementations become one function over a datatype of Rust type
  shapes. Lemmas state what each implementation yields: integers, raw pointers,
  references, arrays, slices, `bool` and `()`.
- **Terminator constructors** (`Terminators`, the free functions of
  `build/terminator.rs`): pure value builders. The most detailed facts are
  about `switch_int`: its case map keeps the last pair for a repeated value and
  every pair when the values are distinct.
- **The function builder** (`FunctionBuilding.FunctionBuilder`, the
  `impl FunctionBuilder` of `build/terminator.rs`): a class whose fields are
  the current block, the finished blocks and a block-name counter. Every method
  states the new state exactly, in terms of the old one, and keeps the
  invariant `Valid`: every name in use came from the counter, and the current
  block is not yet finished. As a consequence, `finish_block`'s
  `try_insert(..).unwrap()` never panics. `switch_int` is two loops; each
  carries invariants that tie it to a specification function, `SwitchBlocks`
  for the blocks and `SwitchCur` for the block left current. `if_` is proved to
  be `switch_int` with the single case 1, and `while_` is proved to build the
  condition, body, exit and join blocks.
- **The well-formedness rules** (`WellFormed`): a pure check that returns the
  first violated rule's message. Lemmas state what passing means (every
  function, every local, every block; the block-kind table for terminators),
  which failure is reported (the first in name order) and that every rejection
  carries one of the rule messages.
- **The tests of `tests/blocks.rs` and `tests/slice.rs`** (`BlockRules`,
  `SliceRules`): each test's program is written as a value, and its verdict is
  proved. For the undefined-behaviour tests of `slice.rs`, the out-of-bounds
  index and the total-size limit of safe slice pointers are predicates, with
  lemmas that decide each test's case.
- **The type printer** (`FmtTy`, from `fmt/ty.rs`):
  - The leaf printers are pure functions. Each comes with a read-back or
    injectivity lemma: distinct integer types, metadata kinds, layouts (up to
    trait names) and reference mutabilities print differently, and the pointee
    markers read back as the flags that wrote them.
  - The composite-type table is threaded through the functions as a value.
    `get_comptype_index`, `fmt_comptype`, `fmt_comptype_fields`,
    `fmt_comptype_chunks` and the loop of `fmt_comptypes` are methods with
    loops, proved equal to specification functions.
  - The table only grows by new, distinct entries, and a name `T<i>`, once
    printed, keeps its meaning while the table grows.
  - The loop of `fmt_comptypes` terminates, because every entry it adds is a
    composite type nested in the first table.

Helper modules:
- `Wrappers`: `Option` and `Result`.
- `Lang`: the MiniRust datatypes, plus stand-ins for the layout computation.
- `NatSets`: the ascending name order.
- `Decimal`: decimal rendering and reading back.

## Model

| member | source | states |
|---|---|---|
| TyBuild.IntTy | tooling/miniutil/src/build/ty.rs:3-5 | an integer type of the given signedness whose size and alignment are both its width |
| TyBuild.BoolTy | tooling/miniutil/src/build/ty.rs:7-9 | `bool` is sized, needs no pointer metadata and is not a composite type |
| TyBuild.RefTy | tooling/miniutil/src/build/ty.rs:11-13 | a shared reference to exactly the given pointee; its metadata kind is the pointee layout's |
| TyBuild.FromFrozenLayout | tooling/miniutil/src/build/ty.rs:16-27 | a cell strategy of the layout's shape with no `UnsafeCell` bytes |
| TyBuild.FrozenLayoutUnique | tooling/miniutil/src/build/ty.rs:16-27 | that strategy is the only frozen one of the layout's shape |
| TyBuild.RefTyDefaultMarkersFor | tooling/miniutil/src/build/ty.rs:31-36 | a shared reference to the type's layout that is inhabited, `Unpin` and frozen, with the type's metadata kind |
| TyBuild.RefMutTy | tooling/miniutil/src/build/ty.rs:38-40 | a mutable reference to exactly the given pointee |
| TyBuild.RefMutTyDefaultMarkersFor | tooling/miniutil/src/build/ty.rs:44-49 | the mutable counterpart, with the same pointee properties |
| TyBuild.DefaultMarkerRefsDifferInMutability | tooling/miniutil/src/build/ty.rs:31-49 | the two default-marker references differ in mutability only |
| TyBuild.BoxTy | tooling/miniutil/src/build/ty.rs:51-53 | a box of exactly the given pointee, with the pointee layout's metadata kind |
| TyBuild.RawPtrTy | tooling/miniutil/src/build/ty.rs:55-57 | a raw pointer carrying exactly the given metadata kind |
| TyBuild.RawVoidPtrTy | tooling/miniutil/src/build/ty.rs:59-61 | a thin raw pointer, one pointer in size and alignment |
| TyBuild.TupleTy | tooling/miniutil/src/build/ty.rs:63-69 | a tuple with the given fields, not packed, with no unsized field, sized as given |
| TyBuild.UnsizedTupleTy | tooling/miniutil/src/build/ty.rs:71-83 | a tuple whose layout is the head followed by the unsized field's layout; its metadata kind and sizedness are the field's |
| TyBuild.UnionTy | tooling/miniutil/src/build/ty.rs:85-88 | a union with one data chunk covering all its bytes, sized as given |
| TyBuild.ArrayTy | tooling/miniutil/src/build/ty.rs:90-92 | an array of the element and count, sized count times the element size |
| TyBuild.SliceTy | tooling/miniutil/src/build/ty.rs:94-96 | a slice of the element: unsized, with element-count metadata |
| TyBuild.TraitObjectTy | tooling/miniutil/src/build/ty.rs:98-100 | a trait object: unsized, with vtable metadata of its trait |
| TyBuild.EnumVariant | tooling/miniutil/src/build/ty.rs:102-104 | a variant with exactly the given type and tagger |
| TyBuild.EnumTy | tooling/miniutil/src/build/ty.rs:106-122 | None (the panic) exactly when the discriminant type is not an integer; otherwise the enum with the given variants, discriminator and size |
| TyBuild.DiscriminatorInvalid | tooling/miniutil/src/build/ty.rs:124-126 | the invalid discriminator |
| TyBuild.DiscriminatorKnown | tooling/miniutil/src/build/ty.rs:128-130 | a known discriminator carrying exactly the discriminant |
| TyBuild.DiscriminatorBranch | tooling/miniutil/src/build/ty.rs:133-149 | a branch on the integer at the offset, with exactly the given fallback and children |
| TyConv.GetSize | tooling/miniutil/src/build/ty_conv.rs:14-19 | the size exactly when the layout is sized; None (the panic) otherwise |
| TyConv.GetAlign | tooling/miniutil/src/build/ty_conv.rs:20-25 | the alignment exactly when the layout is sized; None (the panic) otherwise |
| TyConv.IntTypesMapToInts | tooling/miniutil/src/build/ty_conv.rs:31-56 | every Rust integer is a MiniRust integer of its signedness and one of the sizes 1 to 16, sized and aligned to it; `usize`/`isize` are the 8-byte types |
| TyConv.RawPointersCarryMetaKind | tooling/miniutil/src/build/ty_conv.rs:58-68 | `*const T` and `*mut T` are the same raw pointer, carrying `T`'s metadata kind |
| TyConv.BoolIsOneByte | tooling/miniutil/src/build/ty_conv.rs:70-74 | `bool` is MiniRust's boolean, one byte in size and alignment |
| TyConv.RefShapes | tooling/miniutil/src/build/ty_conv.rs:77-93 | `&T` and `&mut T` are references of the right mutability to the same pointee |
| TyConv.ReferencesToLayout | tooling/miniutil/src/build/ty_conv.rs:77-93 | that pointee has `T`'s layout, is inhabited and frozen, and takes `T::UNPIN` |
| TyConv.DefaultRefsAgree | tooling/miniutil/src/build/ty_conv.rs:77-93 | for an `Unpin` `T`, `&T` and `&mut T` are the default-marker references of `T`'s type |
| TyConv.RefLayout | tooling/miniutil/src/build/ty_conv.rs:77-84 | a reference is one pointer wide when `T` needs no metadata and two otherwise |
| TyConv.ArraysAndSlices | tooling/miniutil/src/build/ty_conv.rs:95-105 | `[T; N]` is sized N times `T`; `[T]` has neither size nor alignment |
| TyConv.SliceRefIsWide | tooling/miniutil/src/build/ty_conv.rs:101-105 | a reference to a slice carries an element count and is two pointers wide |
| TyConv.UnitIsEmptyTuple | tooling/miniutil/src/build/ty_conv.rs:107-111 | `()` is the empty tuple, of size 0 and alignment 1 |
| Terminators.GotoTerminator | tooling/miniutil/src/build/terminator.rs:320-322 | a jump to exactly the given block |
| Terminators.IfTerminator | tooling/miniutil/src/build/terminator.rs:324-330 | a switch on the condition as an integer, whose only case 1 goes to the then-block and whose fallback is the else-block |
| Terminators.CasesMap | tooling/miniutil/src/build/terminator.rs:339-342 | the collected map's keys are exactly the case values |
| Terminators.CasesMapLastWins | tooling/miniutil/src/build/terminator.rs:339-342 | a pair whose value no later pair repeats survives the collection |
| Terminators.CasesMapKeepsDistinct | tooling/miniutil/src/build/terminator.rs:339-342 | with distinct values, every pair survives |
| Terminators.SwitchIntTerminator | tooling/miniutil/src/build/terminator.rs:332-345 | a switch on the value with the given fallback |
| Terminators.SwitchIntTerminatorCases | tooling/miniutil/src/build/terminator.rs:332-345 | the switch branches on exactly the case values and, when they are distinct, sends each to its own successor |
| Terminators.CallTerminator | tooling/miniutil/src/build/terminator.rs:351-360 | a C-convention call of the function, with the given arguments, return place and next block, that never unwinds |
| Terminators.ExitTerminator | tooling/miniutil/src/build/terminator.rs:407-414 | the exit intrinsic, with no arguments and no next block |
| Terminators.AbortTerminator | tooling/miniutil/src/build/terminator.rs:416-423 | the abort intrinsic, with no arguments and no next block |
| Terminators.IntrinsicTerminator | tooling/miniutil/src/build/terminator.rs:362-578 | each single-successor intrinsic constructor builds an intrinsic terminator (never exit or abort) continuing in the given block |
| Terminators.IntrinsicTerminatorSignature | tooling/miniutil/src/build/terminator.rs:362-578 | each passes as many arguments as its intrinsic takes, and those returning `()` write to `unit_place()` |
| Terminators.FetchOp | tooling/miniutil/src/build/terminator.rs:498-501 | the integer operation is `Add` exactly for `FetchAdd` |
| Terminators.AtomicFetchShape | tooling/miniutil/src/build/terminator.rs:486-509 | `atomic_fetch` applies `Add` or `Sub` as chosen, to the pointer and the operand, writing the return place |
| FunctionBuilding.TryInsert | tooling/miniutil/src/build/terminator.rs:8 | fails exactly when the key is present; otherwise adds exactly that entry and keeps the rest |
| FunctionBuilding.FunctionBuilder.DeclareBlock | tooling/miniutil/src/build/terminator.rs:17 | a fresh name, neither finished nor current; nothing else changes |
| FunctionBuilding.FunctionBuilder.SetCurBlock | tooling/miniutil/src/build/terminator.rs:20 | a declared, unfinished block becomes current, empty, with the given kind |
| FunctionBuilding.FunctionBuilder.FinishBlock | tooling/miniutil/src/build/terminator.rs:5-9 | the current block, ended by the terminator, enters the finished blocks under its name, which was not there; no block is current |
| FunctionBuilding.FunctionBuilder.FinishWithNextBlock | tooling/miniutil/src/build/terminator.rs:12-21 | the current block ends with the terminator built for a fresh block, which becomes current with the same kind |
| FunctionBuilding.FunctionBuilder.Exit | tooling/miniutil/src/build/terminator.rs:25-27 | the current block ends with `exit()` |
| FunctionBuilding.FunctionBuilder.Abort | tooling/miniutil/src/build/terminator.rs:29-31 | the current block ends with `abort()` |
| FunctionBuilding.FunctionBuilder.Unreachable | tooling/miniutil/src/build/terminator.rs:33-35 | the current block ends with `Unreachable` |
| FunctionBuilding.FunctionBuilder.Return | tooling/miniutil/src/build/terminator.rs:37-39 | the current block ends with `Return` |
| FunctionBuilding.FunctionBuilder.ResumeUnwind | tooling/miniutil/src/build/terminator.rs:41-43 | the current block ends with `ResumeUnwind` |
| FunctionBuilding.FunctionBuilder.HandleCall | tooling/miniutil/src/build/terminator.rs:48-69 | the current block ends with the call carrying exactly the given callee, convention, arguments, return place and edges; the next block, if any, becomes current with the caller's kind |
| FunctionBuilding.FunctionBuilder.CallNoret | tooling/miniutil/src/build/terminator.rs:72-74 | a Rust call with neither a next nor an unwind block; no block is current |
| FunctionBuilding.FunctionBuilder.CallNounwind | tooling/miniutil/src/build/terminator.rs:77-80 | a Rust call returning to a fresh block, which becomes current, and not unwinding |
| FunctionBuilding.FunctionBuilder.CallIgnoreret | tooling/miniutil/src/build/terminator.rs:83-86 | the same, returning into `unit_place()` |
| FunctionBuilding.FunctionBuilder.Call | tooling/miniutil/src/build/terminator.rs:89-105 | a Rust call returning to a fresh current block and unwinding to the given block |
| FunctionBuilding.FunctionBuilder.CallWithConv | tooling/miniutil/src/build/terminator.rs:108-118 | the same, with the given calling convention |
| FunctionBuilding.FunctionBuilder.Goto | tooling/miniutil/src/build/terminator.rs:122-124 | the current block ends with a jump to the destination |
| FunctionBuilding.FunctionBuilder.FinishWithIntrinsic | tooling/miniutil/src/build/terminator.rs:126-228 | each intrinsic method ends the current block with that intrinsic's terminator for a fresh next block, which becomes current with the same kind |
| FunctionBuilding.FunctionBuilder.StartUnwind | tooling/miniutil/src/build/terminator.rs:230-232 | the current block ends with `StartUnwind` to the cleanup block |
| FunctionBuilding.FunctionBuilder.StopUnwind | tooling/miniutil/src/build/terminator.rs:234-236 | the current block ends with `StopUnwind` to the next block |
| FunctionBuilding.CaseTargets | tooling/miniutil/src/build/terminator.rs:270-274 | case `j` is paired with the `j`-th fresh block |
| FunctionBuilding.CaseTargetsStep | tooling/miniutil/src/build/terminator.rs:270-274 | one round of the first loop: the value is a repeat exactly when an earlier case carries it; otherwise its pair extends the map |
| FunctionBuilding.FunctionBuilder.DeclareCaseBlocks | tooling/miniutil/src/build/terminator.rs:270-274 | the first loop: None (the `unwrap` panic) exactly when a case value repeats; otherwise one fresh block per case, and the map of the cases to them |
| FunctionBuilding.FunctionBuilder.StartSwitch | tooling/miniutil/src/build/terminator.rs:264-278 | the case blocks and the fallback block are declared, and the current block ends with the switch over them |
| FunctionBuilding.BranchSteps | tooling/miniutil/src/build/terminator.rs:281-283 | the branches run in order: the cases, then the fallback |
| FunctionBuilding.StepTerminator | tooling/miniutil/src/build/terminator.rs:286-294 | a branch block ends with the branch's own terminator or, left open, with a jump to the join block |
| FunctionBuilding.BranchBlockAt | tooling/miniutil/src/build/terminator.rs:286-294 | block `first + j` is the empty block branch `j` builds, of the switching block's kind |
| FunctionBuilding.BranchBlocksKind | tooling/miniutil/src/build/terminator.rs:286-294 | every branch block has the switching block's kind and no statements |
| FunctionBuilding.AnyLeftOpenStep | tooling/miniutil/src/build/terminator.rs:286-294 | a join block is needed after `k + 1` branches exactly when it was after `k` or branch `k` is left open |
| FunctionBuilding.FunctionBuilder.RunBranch | tooling/miniutil/src/build/terminator.rs:287-293 | one round of the second loop: the branch's block is added, and the join block is declared at the first branch left open |
| FunctionBuilding.FunctionBuilder.RunBranches | tooling/miniutil/src/build/terminator.rs:286-294 | the second loop: all branch blocks are added, and the join block is declared exactly when some branch is left open |
| FunctionBuilding.FunctionBuilder.EndSwitch | tooling/miniutil/src/build/terminator.rs:286-297 | the branch blocks are added, and the join block, if needed, becomes current with the original kind |
| FunctionBuilding.FunctionBuilder.SwitchInt | tooling/miniutil/src/build/terminator.rs:254-298 | `ok` exactly when the case values are distinct; if not, the blocks and the current block are unchanged; if so, the blocks become `SwitchBlocks`, the current block `SwitchCur`, and the counter moves past the blocks declared |
| FunctionBuilding.IfIsSwitchInt | tooling/miniutil/src/build/terminator.rs:246-252 | `if_` is `switch_int` with the single case 1: the current block ends with the `if` terminator, the then- and else-blocks are the two fresh blocks, and they join at the third when either is left open |
| FunctionBuilding.FunctionBuilder.If | tooling/miniutil/src/build/terminator.rs:246-252 | the blocks and the current block after `if_`, exactly |
| FunctionBuilding.FunctionBuilder.While | tooling/miniutil/src/build/terminator.rs:300-317 | a jump to a fresh condition block, which switches to the body block (jumping back to the condition unless the body ends its block) or to an exit block that jumps to the new current block |
| WellFormed.FirstErr | tooling/minitest/src/tests/blocks.rs:4-261 | passes exactly when every check passes; otherwise it is a failure that only passing checks precede |
| WellFormed.CheckTerminatorMeaning | tooling/minitest/src/tests/blocks.rs:4-261 | a terminator passes exactly when its operands are well-formed and it keeps the block-kind table: normal successors keep the kind, a call with a normal return edge only in regular or catch blocks, `Return`/`StartUnwind` only in regular blocks, `ResumeUnwind` only in cleanup blocks, no unwinding out of a catch block |
| WellFormed.CallReturnEdge | tooling/minitest/src/tests/blocks.rs:51-68 | a call's normal return edge is rejected from a cleanup or terminate block; from a regular or catch block its target must exist and share the kind |
| WellFormed.CheckOkIffFunctionsOk | tooling/minitest/src/tests/blocks.rs:100-123 | a program passes exactly when every function does |
| WellFormed.CheckFunctionOkIff | tooling/minitest/src/tests/slice.rs:99-114 | a function passes exactly when every local and every block does |
| WellFormed.CheckLocalsOkIff | tooling/minitest/src/tests/slice.rs:99-114 | the locals pass exactly when each local's type is sized and well-formed |
| WellFormed.CheckBlocksOkIff | tooling/minitest/src/tests/blocks.rs:4-12 | the blocks pass exactly when each block does |
| WellFormed.OnlyFailingFunction | tooling/minitest/src/tests/blocks.rs:165-186 | a program with exactly one failing function is rejected with that function's message |
| WellFormed.OnlyFailingBlock | tooling/minitest/src/tests/blocks.rs:4-12 | a function with exactly one failing block is rejected with that block's message |
| WellFormed.FirstFailingStatement | tooling/minitest/src/tests/slice.rs:117-134 | a block is rejected with its first failing statement's message, before its terminator is looked at |
| WellFormed.StatementsPass | tooling/minitest/src/tests/blocks.rs:4-12 | a block whose statements pass has its terminator's verdict |
| WellFormed.CheckReportsFirstFailure | tooling/minitest/src/tests/blocks.rs:100-123 | a rejection names a failing function before which, in name order, every function passes |
| WellFormed.CheckBlocksReportsFirstFailure | tooling/minitest/src/tests/blocks.rs:213-246 | a rejection names a failing block before which, in name order, every block passes |
| WellFormed.CheckReported | tooling/minitest/src/tests/blocks.rs:11-260 | every rejection carries one of the rule messages |
| BlockRules.TwoFunctions | tooling/minitest/src/tests/blocks.rs:50-67 | a two-function program has the first function's verdict if it fails, else the second's |
| BlockRules.OtherFPasses | tooling/minitest/src/tests/blocks.rs:158-162 | `other_f()` is well-formed |
| BlockRules.ReturningFPasses | tooling/minitest/src/tests/blocks.rs:63 | a function that only returns, from a regular block, is well-formed |
| BlockRules.GotoWrongBlockKind | tooling/minitest/src/tests/blocks.rs:4-12 | a jump from a regular to a cleanup block is rejected: "next block has the wrong block kind" |
| BlockRules.GotoSameKindAccepted | tooling/minitest/src/tests/blocks.rs:4-12 | the same jump to a block of the same kind is accepted |
| BlockRules.SwitchWrongBlockKind | tooling/minitest/src/tests/blocks.rs:15-24 | a switch case to a cleanup block is rejected: "next block has the wrong block kind" |
| BlockRules.SwitchWrongBlockKindFallback | tooling/minitest/src/tests/blocks.rs:27-36 | a switch fallback to a cleanup block is rejected the same way |
| BlockRules.IntrinsicWrongBlockKind | tooling/minitest/src/tests/blocks.rs:39-47 | an intrinsic continuing in a cleanup block is rejected the same way |
| BlockRules.CallNextBlockWrongKind | tooling/minitest/src/tests/blocks.rs:50-67 | a call returning to a terminate block is rejected the same way |
| BlockRules.CallUnwindBlockWrongKind | tooling/minitest/src/tests/blocks.rs:69-86 | a call unwinding to a regular block is rejected: "unwind block has the wrong block kind" |
| BlockRules.StartUnwindWrongNextBlock | tooling/minitest/src/tests/blocks.rs:89-97 | `StartUnwind` into a regular block is rejected the same way |
| BlockRules.ReturnInCleanup | tooling/minitest/src/tests/blocks.rs:100-123 | `Return` in a cleanup block is rejected, in the called function, though the caller passes |
| BlockRules.StartUnwindInCleanup | tooling/minitest/src/tests/blocks.rs:126-141 | `StartUnwind` in a cleanup block is rejected |
| BlockRules.ResumeInRegularBlock | tooling/minitest/src/tests/blocks.rs:144-155 | `ResumeUnwind` in a regular block is rejected |
| BlockRules.CallNextBlockNonExist | tooling/minitest/src/tests/blocks.rs:165-186 | a call returning to a missing block is rejected: "next block does not exist" |
| BlockRules.UnwindBlockNonExist | tooling/minitest/src/tests/blocks.rs:189-210 | a call unwinding to a missing block is rejected: "unwind block does not exist" |
| BlockRules.UnwindInCatchBlock | tooling/minitest/src/tests/blocks.rs:213-246 | a call with an unwind block inside a catch block is rejected: "unwinding is not allowed in a catch block" |
| BlockRules.GotoFromCleanupToCatch | tooling/minitest/src/tests/blocks.rs:249-261 | a jump from a cleanup to a catch block is rejected: "next block has the wrong block kind" |
| SliceRules.SliceRefTypes | tooling/minitest/src/tests/slice.rs:36-37 | `&[u32]` and `&mut [u8]` convert to wide references to 4-byte and 1-byte elements |
| SliceRules.NestedArraySlicePtrType | tooling/minitest/src/tests/slice.rs:38 | `*const [[[u8; 3]; 2]]` is a raw pointer with element-count metadata |
| SliceRules.ExitingMainPasses | tooling/minitest/src/tests/slice.rs:43-47 | a `main` that only exits is well-formed |
| SliceRules.WfSliceRef | tooling/minitest/src/tests/slice.rs:29-51 | slices behind `&`, `&mut` and `*const` are accepted |
| SliceRules.SecondElementType | tooling/minitest/src/tests/slice.rs:63 | indexing the dereferenced `&[u32]` gives a `u32` place |
| SliceRules.WfIndex | tooling/minitest/src/tests/slice.rs:53-78 | writing and loading a slice element is accepted |
| SliceRules.IllSliceRefUnsizedElem | tooling/minitest/src/tests/slice.rs:80-97 | validating a place of type `[[u32]]` is rejected: "unsized element type" |
| SliceRules.IllLocal | tooling/minitest/src/tests/slice.rs:99-114 | a local of type `[u32]` is rejected: "unsized local variable" |
| SliceRules.IllLoad | tooling/minitest/src/tests/slice.rs:116-134 | loading at type `[u32]` is rejected: "unsized value type" |
| SliceRules.IllTransmute | tooling/minitest/src/tests/slice.rs:136-156 | transmuting to `[u32]` is rejected: "unsized target type" |
| SliceRules.WidePointerParts | tooling/minitest/src/tests/slice.rs:313-347 | `get_metadata` and `get_thin_pointer` give back the length and the address a wide pointer was built from, and the pointer is its `(pointer, usize)` pair |
| SliceRules.WidePair | tooling/minitest/src/tests/slice.rs:12-15 | a pointer has a wide pair exactly when it carries metadata (the `expect` fails only on thin pointers); the pair has the pointer's layout, the thin pointer at 0 and the metadata at 8, a `usize` exactly for an element count |
| SliceRules.TraitObjectRefPair | tooling/minitest/src/tests/slice.rs:12-15 | a reference to a trait object is wide, with a vtable pointer of its trait as the metadata |
| SliceRules.RawSlicePointerPair | tooling/minitest/src/tests/slice.rs:6-27 | the pair of a raw slice pointer: a thin pointer at offset 0 and a `usize` at offset 8 |
| SliceRules.CheckIndex | tooling/minitest/src/tests/slice.rs:228-256 | an index passes exactly when it is within the length; otherwise it is the out-of-bounds UB |
| SliceRules.ElementAddress | tooling/minitest/src/tests/slice.rs:190-225 | an element has an address exactly when its index is within the length |
| SliceRules.ElementsInsideSlice | tooling/minitest/src/tests/slice.rs:190-225 | every element lies within the slice's bytes, and distinct elements of non-zero size have distinct addresses |
| SliceRules.ThinPointerIsFirstElement | tooling/minitest/src/tests/slice.rs:349-377 | the thin pointer is the address of element 0 |
| SliceRules.InvalidIndex | tooling/minitest/src/tests/slice.rs:227-256 | in a slice of two `u32`, indices -1 and 2 are out of bounds and 0 and 1 are not |
| SliceRules.CheckTotalSize | tooling/minitest/src/tests/slice.rs:283-306 | the only failure is the total-size UB |
| SliceRules.RawPointersUnchecked | tooling/minitest/src/tests/slice.rs:258-281 | a raw pointer is never rejected for its total size |
| SliceRules.SafeSlicePointerIff | tooling/minitest/src/tests/slice.rs:283-306 | a safe slice pointer passes exactly when element size times length is at most `isize::MAX` |
| SliceRules.TotalSizeMonotone | tooling/minitest/src/tests/slice.rs:283-306 | a shorter slice behind the same pointer type passes whenever a longer one does |
| SliceRules.BigElemLayout | tooling/minitest/src/tests/slice.rs:265-272 | `[u32; 0x1_0000]` is 0x4_0000 bytes, and a slice of it carries an element count |
| SliceRules.TooLargeSlice | tooling/minitest/src/tests/slice.rs:258-306 | the slice of `isize::MAX + 1` bytes is UB behind `&` and fine behind `*const`; one element fewer is fine behind `&` too |
| FmtTy.FmtType | tooling/miniutil/src/fmt/ty.rs:3-24 | only pointer types print as non-atomic expressions |
| FmtTy.FmtTypeExtends | tooling/miniutil/src/fmt/ty.rs:3-24 | printing a type adds to the table only the composite types it names, each once, and leaves all of them in the table |
| FmtTy.FmtTypeNamesEntry | tooling/miniutil/src/fmt/ty.rs:8-12 | a composite prints as `T` followed by the position of its first table entry |
| FmtTy.FmtTypeStable | tooling/miniutil/src/fmt/ty.rs:3-24 | printing again against any later table gives the same text and adds nothing |
| FmtTy.FmtIntType | tooling/miniutil/src/fmt/ty.rs:26-34 | `i` exactly for signed and `u` exactly for unsigned, followed by the width in bits |
| FmtTy.FmtIntTypeInjective | tooling/miniutil/src/fmt/ty.rs:26-34 | distinct integer types print differently |
| FmtTy.FmtPtrType | tooling/miniutil/src/fmt/ty.rs:36-57 | exactly references and raw pointers print as non-atomic expressions |
| FmtTy.FmtRefInjective | tooling/miniutil/src/fmt/ty.rs:38-45 | a shared and a mutable reference print differently, and the pointee markers can be read back |
| FmtTy.FmtMetaKindInjective | tooling/miniutil/src/fmt/ty.rs:59-66 | distinct metadata kinds print differently |
| FmtTy.FmtLayoutStrategy | tooling/miniutil/src/fmt/ty.rs:68-90 | a rendered layout ends with a digit, `}` or `)` |
| FmtTy.FmtLayoutStrategyInjective | tooling/miniutil/src/fmt/ty.rs:68-90 | a rendered layout determines the layout, except for a trait-object tail's trait name |
| FmtTy.TupleLayoutInjective | tooling/miniutil/src/fmt/ty.rs:75-88 | the head of a tuple layout, and the text of its tail, can be read back |
| FmtTy.PointeeEnds | tooling/miniutil/src/fmt/ty.rs:92-108 | a rendered pointee opens with `pointee_info(` and closes with `)` |
| FmtTy.PointeeMarkersReadBack | tooling/miniutil/src/fmt/ty.rs:92-108 | the `uninhabited`, `!Freeze` and `!Unpin` markers appear exactly when the property fails |
| FmtTy.ComptypeIndex | tooling/miniutil/src/fmt/ty.rs:127-138 | the answer is a position of the type in the returned table |
| FmtTy.GetComptypeIndex | tooling/miniutil/src/fmt/ty.rs:127-138 | the first position of the type, with the table unchanged, or else the old length, with the type appended |
| FmtTy.ComptypeIndexKeepsNoDup | tooling/miniutil/src/fmt/ty.rs:125-138 | a duplicate-free table stays duplicate-free and grows by at most one |
| FmtTy.FmtComptypeIndex | tooling/miniutil/src/fmt/ty.rs:140-143 | `T` followed by digits that read back as the index |
| FmtTy.FieldsText | tooling/miniutil/src/fmt/ty.rs:201-209 | the field lines add to the table only the composite types named in the fields, and leave all of them in it |
| FmtTy.FmtComptypeFields | tooling/miniutil/src/fmt/ty.rs:201-209 | the loop prints the field lines and leaves the table that `FieldsText` specifies |
| FmtTy.ChunksTextAppend | tooling/miniutil/src/fmt/ty.rs:211-219 | the chunk lines of a list are those of its parts, one after the other |
| FmtTy.FmtComptypeChunks | tooling/miniutil/src/fmt/ty.rs:211-219 | the loop prints one chunk line per chunk, in order |
| FmtTy.VariantsText | tooling/miniutil/src/fmt/ty.rs:187-194 | the variant lines add to the table only the composite types named in the variants, and leave all of them in it |
| FmtTy.FmtComptypeVariants | tooling/miniutil/src/fmt/ty.rs:190-193 | the loop prints the variant lines and leaves the table that `VariantsText` specifies |
| FmtTy.ComptypeBody | tooling/miniutil/src/fmt/ty.rs:175-196 | the body adds to the table only the composite types the fields, tail or variants name |
| FmtTy.ComptypeText | tooling/miniutil/src/fmt/ty.rs:165-199 | None (the panic) exactly for a non-composite type; otherwise the table grows only by what the body names |
| FmtTy.FmtComptype | tooling/miniutil/src/fmt/ty.rs:165-199 | None exactly for a non-composite type, with the table unchanged; otherwise the block and table of `ComptypeText` |
| FmtTy.ComptypesStep | tooling/miniutil/src/fmt/ty.rs:149-160 | printing an entry keeps the table within the closure of the first table, so the loop's table stays bounded |
| FmtTy.ComptypesFromEntry | tooling/miniutil/src/fmt/ty.rs:149-160 | one round of the loop moves entry `i`'s block from what is left to print onto what is printed |
| FmtTy.FmtComptypesEntry | tooling/miniutil/src/fmt/ty.rs:150-159 | the body of the loop, against the specification of what is left to print |
| FmtTy.FmtComptypes | tooling/miniutil/src/fmt/ty.rs:146-163 | the output is the blocks of every table entry, the entries added while printing included; the loop ends |

## Left out

- Layout: `Type::layout`, `meta_kind()` and `UnsafeCellStrategy::is_freeze_outside` are defined outside the modelled files. `Lang.Layout`, `Lang.MetaKind` and `Lang.IsFreezeOutside` stand in for them. They follow MiniRust's layout rules: integers and pointers have fixed sizes, a slice is sized by its length, a trait object has unknown size, and a tuple with an unsized field is a sized head followed by that field's layout. Pointers are 8 bytes, as on the default target. `PtrType::as_wide_pair` is also defined outside the modelled files. `SliceRules.WidePair` stands in for it: a thin raw pointer followed by the metadata, a `usize` element count or a vtable pointer.
- Array sizes: `Lang.Layout` gives an array of unsized elements a zero size instead of failing. No modelled operation builds such an array.
- Sizes and alignments are plain naturals. The `Size`/`Align` newtypes and their overflow checks are not modelled, and nor are the `u32` block names and `bbname_into_u32`.
- Well-formedness checker: its source is not part of this model. `WellFormed` states the rules and messages the tests pin down, completed by MiniRust's block-kind table (normal successors keep the kind; a call returns normally only from a regular or catch block; `Return` and `StartUnwind` only in regular blocks, `ResumeUnwind` only in cleanup blocks; no unwinding out of a catch block). Open choices are:
  - functions and blocks are visited in ascending name order;
  - locals are checked before blocks, and statements before the terminator;
  - switch targets are checked for existence first, then for kind, then the fallback;
  - an unwind edge from a regular block may go to a cleanup or a catch block, and from a cleanup or terminate block only to a terminate block;
  - a call with a normal return edge in a cleanup or terminate block is rejected, after its operands and before its edges are checked, with the model's own message "Terminator::Call: returning call has to be in a regular or catch block";
  - the messages "PlaceExpr::Local: unknown local" and "PlaceExpr::Index: indexed place is not an array or slice" are the model's own.
- Other checks the checker makes are not modelled: callee existence, argument and return types, storage, validity of values, alignment, and the intrinsics' own argument types.
- Test programs built by `ProgramBuilder`: block and function naming (`declare_block`, `cleanup_block`, `catch_block`, `declare_function`) happens outside the modelled files. The programs use names in creation order, and no verdict depends on them. Function arguments and the return place are locals.
- `FunctionBuilding.FunctionBuilder.constructor`: `FunctionBuilder::new` is outside the modelled files. The constructor starts with block 0 current, of kind Regular.
- `FunctionBuilding.FunctionBuilder.DeclareBlock`: a counter stands in for `declare_block`, which is outside the modelled files.
- `FunctionBuilding.FunctionBuilder.SetCurBlock`: the method requires no block to be current and the named block to be declared but unfinished. `set_cur_block` is outside the modelled files, and the modelled callers always meet this.
- `FunctionBuilding.FunctionBuilder.FinishBlock`: the `expect` panic when no block is current is the precondition `curBlock.Some?`. Every method that calls `cur_block()` or `finish_block` has the same precondition.
- Statement builders (`assign`, `storage_live`, `validate`, ...) are outside the modelled files. The current block's statements are taken as they are.
- `FunctionBuilding.BranchStep`: a branch closure of `switch_int`, `if_` and `while_` is modelled by what the builder observes of it. It either finishes its block with a terminator or leaves it open. A closure that builds more blocks of its own is not modelled.
- `FunctionBuilding.FunctionBuilder.SwitchInt`: a repeated case value, where the source panics in `unwrap`, is reported as `ok == false`, with the finished blocks and the current block as they were.
- `TyBuild.DiscriminatorBranch`: requires an integer type. The source's `ToInt` bound guarantees one and answers anything else with `unreachable!()`.
- `TyBuild.EnumTy` and `FmtTy.FmtComptype`: the panics are modelled as None.
- Repeated keys and order: the source collects enum variants, taggers and branch children into maps, where a repeated key keeps only one entry and equality ignores the order the entries were given in. The model holds them as sequences, and only distinct keys are modelled. Types compare variants, taggers and children in sequence order. So `FmtTy.ComptypeIndex`, `FmtTy.GetComptypeIndex` and `FmtTy.FmtType` give two enums that differ only in the order of their variants two table entries and two names, where the source gives one. The variant lines print in sequence order, not in the order the source's map iterates in.
- Generic Rust types: `TyConv.RustTy` lists the shapes with implementations in `build/ty_conv.rs`. Any other type is `Foreign`, given by its MiniRust type and its `UNPIN` constant. `FREEZE` is not used by the modelled file.
- Intrinsics are only built, never executed. Execution, the memory model and undefined behaviour beyond the two slice predicates are not modelled. Neither is the running of the `assert_stop` tests `index_to_transmuted_slice`, `index_to_slice` and `get_metadata_correct`, beyond the wide-pointer facts they rely on.
- `FmtTy.FmtType`: trait names print as themselves (`fmt_trait_name` is outside the modelled files). `FmtExpr::to_string` is taken to return the text unchanged. Numbers print as decimal digits.
- Output: `dump_program`, printing to the terminal, and the test harness's assertions are not modelled.
