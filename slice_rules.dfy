/**
 * The slice tests (`tests/slice.rs`): the static sizedness rules, shown on the
 * tests' programs, and the two dynamic rules about slice pointers, as
 * predicates over the index, the length and the pointer type.
 *
 * Function arguments and return places are locals here (a function is its
 * list of locals and its blocks). The second function of each
 * `ProgramBuilder` program, the `main` that only exits, is function 1.
 */
module SliceRules {
  import opened Wrappers
  import opened Lang
  import opened TyBuild
  import opened TyConv
  import opened Terminators
  import opened WellFormed
  import opened BlockRules

  // The types of the tests, written out; the `...Types` lemmas tie each to `get_type`.

  function U8Ty(): Type { Int(IntType(Unsigned, 1)) }
  function U32Ty(): Type { Int(IntType(Unsigned, 4)) }
  function I32Ty(): Type { Int(IntType(Signed, 4)) }

  /** `[u32]`. */
  function U32Slice(): Type { Slice(U32Ty()) }

  /** `&[u32]`: a wide shared reference to elements of 4 bytes. */
  function U32SliceRef(): Type {
    Ptr(Ref(Immutable, PointeeInfo(SliceLayout(4, 4), true, SliceCells([]), true)))
  }

  /** `&mut [u8]`. */
  function U8SliceMut(): Type {
    Ptr(Ref(Mutable, PointeeInfo(SliceLayout(1, 1), true, SliceCells([]), true)))
  }

  /** `*const [[[u8; 3]; 2]]`. */
  function NestedArraySlicePtr(): Type { Ptr(Raw(ElementCount)) }

  /** `[u32; 1]`. */
  function U32Array1(): Type { Array(U32Ty(), 1) }

  /** `const_int(42_u32)`. */
  function U32Const(): ValueExpr { Constant(U32Ty()) }

  lemma IntTestTypes()
    ensures U8Ty() == GetType(U8) && U32Ty() == GetType(U32) && I32Ty() == GetType(I32)
  {
  }

  lemma SliceTestTypes()
    ensures U32Slice() == GetType(RustSlice(U32)) && U32Array1() == GetType(RustArray(U32, 1))
  {
    assert GetType(U32) == U32Ty();
  }

  lemma SliceRefTypes()
    ensures U32SliceRef() == GetType(SharedRef(RustSlice(U32)))
    ensures U8SliceMut() == GetType(MutRef(RustSlice(U8)))
  {
    RefShapes(RustSlice(U32));
    RefShapes(RustSlice(U8));
  }

  lemma NestedArraySlicePtrType()
    ensures NestedArraySlicePtr() == GetType(ConstPtr(RustSlice(RustArray(RustArray(U8, 3), 2))))
  {
  }

  /** `main`: a function that exits straight away. */
  function ExitingMain(): Function {
    Function([], map[0 := ExitBlock(Regular)])
  }

  lemma ExitingMainPasses()
    ensures CheckFunction(ExitingMain()).Ok?
  {
    var f := ExitingMain();
    assert CheckBlock(f, 0).Ok?;
    CheckFunctionOkIff(f);
  }

  // ------------------------------------------------------------ wf_slice_ref

  /** A `&[u32]` local, a `&mut [u8]` return place and a `*const [[[u8; 3]; 2]]` argument. */
  function WfSliceRefFn(): Function {
    Function([U32SliceRef(), U8SliceMut(), NestedArraySlicePtr()],
             map[0 := ExitBlock(Regular)])
  }

  lemma WfSliceRefFnLocals()
    ensures forall i :: 0 <= i < |WfSliceRefFn().locals| ==> CheckLocal(WfSliceRefFn().locals[i]).Ok?
  {
    var f := WfSliceRefFn();
    assert CheckLocal(f.locals[0]).Ok? && CheckLocal(f.locals[1]).Ok? && CheckLocal(f.locals[2]).Ok?;
  }

  lemma WfSliceRefFnPasses()
    ensures CheckFunction(WfSliceRefFn()).Ok?
  {
    var f := WfSliceRefFn();
    WfSliceRefFnLocals();
    assert CheckBlock(f, 0).Ok?;
    CheckFunctionOkIff(f);
  }

  /** Slices behind `&`, `&mut` and `*const` are accepted. */
  lemma WfSliceRef()
    ensures Check(Program(map[0 := WfSliceRefFn(), 1 := ExitingMain()])) == Ok(())
  {
    WfSliceRefFnPasses();
    ExitingMainPasses();
    BothPass(WfSliceRefFn(), ExitingMain());
  }

  // ---------------------------------------------------------------- wf_index

  /** `index(deref(load(slice), <[u32]>::get_type()), const_int(2))`. */
  function SecondElement(): PlaceExpr {
    Index(Deref(Load(Local(0)), U32Slice()), Constant(I32Ty()))
  }

  /** Writes element 2 of the `&[u32]` argument, then loads it into a `u32` local. */
  function WfIndexFn(): Function {
    Function([U32SliceRef(), U32Ty()], map[0 := BasicBlock([
      StorageLive(1),
      Assign(SecondElement(), U32Const()),
      Assign(Local(1), Load(SecondElement()))], ExitTerminator(), Regular)])
  }

  /** Element 2 of the `&[u32]` argument is a `u32` place. */
  lemma SecondElementType()
    ensures PlaceType([U32SliceRef(), U32Ty()], SecondElement()) == Ok(U32Ty())
  {
    assert ValueType([U32SliceRef(), U32Ty()], Load(Local(0))) == Ok(U32SliceRef());
  }

  lemma WfIndexFnBlock()
    ensures CheckBlock(WfIndexFn(), 0).Ok?
  {
    var f := WfIndexFn();
    SecondElementType();
    var ss := f.blocks[0].statements;
    assert CheckStatement(f.locals, ss[0]).Ok?;
    assert CheckStatement(f.locals, ss[1]).Ok?;
    assert CheckStatement(f.locals, ss[2]).Ok?;
    StatementsPass(f, 0);
    ExitTerminatorPasses(f.locals, f.blocks, Regular);
  }

  lemma WfIndexFnPasses()
    ensures CheckFunction(WfIndexFn()).Ok?
  {
    var f := WfIndexFn();
    assert CheckLocal(f.locals[0]).Ok? && CheckLocal(f.locals[1]).Ok?;
    WfIndexFnBlock();
    CheckFunctionOkIff(f);
  }

  /** Indexing a slice place and loading the (sized) element is accepted. */
  lemma WfIndex()
    ensures Check(Program(map[0 := WfIndexFn(), 1 := ExitingMain()])) == Ok(())
  {
    WfIndexFnPasses();
    ExitingMainPasses();
    BothPass(WfIndexFn(), ExitingMain());
  }

  // --------------------------------------------- ill_slice_ref_unsized_elem

  /** Validates `*var` at the type `[[u32]]`. */
  function IllSliceRefUnsizedElemFn(): Function {
    Function([U32SliceRef()], map[0 := BasicBlock([
      StorageLive(0),
      Validate(Deref(Load(Local(0)), SliceTy(SliceTy(U32Ty()))), false)], ExitTerminator(), Regular)])
  }

  lemma IllSliceRefUnsizedElem()
    ensures Check(Program(map[0 := IllSliceRefUnsizedElemFn()])) == Err(UnsizedElement)
  {
    var f := IllSliceRefUnsizedElemFn();
    assert CheckLocal(f.locals[0]).Ok?;
    var validated := f.blocks[0].statements[1].validated;
    assert ValueType(f.locals, validated.pointer) == Ok(U32SliceRef());
    assert !IsSized(U32Slice());
    assert CheckType(validated.ty) == Err(UnsizedElement);
    assert CheckStatement(f.locals, f.blocks[0].statements[0]).Ok?;
    assert CheckStatement(f.locals, f.blocks[0].statements[1]) == Err(UnsizedElement);
    FirstFailingStatement(f, 0, 1);
    OnlyFailingBlock(f, 0);
    OneFunction(f);
  }

  // --------------------------------------------------------------- ill_local

  /** A local of type `[u32]`. */
  function IllLocalFn(): Function {
    Function([U32Slice()], map[0 := ExitBlock(Regular)])
  }

  lemma IllLocal()
    ensures Check(Program(map[0 := IllLocalFn()])) == Err(UnsizedLocal)
  {
    var f := IllLocalFn();
    var ls := seq(|f.locals|, i requires 0 <= i < |f.locals| => CheckLocal(f.locals[i]));
    assert ls == [Err(UnsizedLocal)];
    assert CheckFunction(f) == Err(UnsizedLocal);
    OneFunction(f);
  }

  // ---------------------------------------------------------------- ill_load

  /** Prints a load of `*var` at the type `[u32]`. */
  function IllLoadFn(): Function {
    Function([U32SliceRef()], map[
      0 := BasicBlock([StorageLive(0)], IntrinsicTerminator(PrintCall(Load(Deref(Load(Local(0)), U32Slice()))), 1), Regular),
      1 := ExitBlock(Regular)])
  }

  lemma IllLoadFnHead()
    ensures CheckBlock(IllLoadFn(), 0) == Err(UnsizedLoad)
  {
    var f := IllLoadFn();
    assert CheckStatement(f.locals, StorageLive(0)).Ok?;
    StatementsPass(f, 0);
    assert ValueType(f.locals, Load(Deref(Load(Local(0)), U32Slice()))) == Err(UnsizedLoad);
  }

  lemma IllLoadFnFails()
    ensures CheckFunction(IllLoadFn()) == Err(UnsizedLoad)
  {
    var f := IllLoadFn();
    assert CheckLocal(f.locals[0]).Ok?;
    IllLoadFnHead();
    assert CheckBlock(f, 1).Ok?;
    assert f.blocks.Keys == {0, 1};
    OnlyFailingBlock(f, 0);
  }

  lemma IllLoad()
    ensures Check(Program(map[0 := IllLoadFn()])) == Err(UnsizedLoad)
  {
    IllLoadFnFails();
    OneFunction(IllLoadFn());
  }

  // ----------------------------------------------------------- ill_transmute

  /** Writes element 0 of a `[u32; 1]` local, then prints the array transmuted to `[u32]`. */
  function IllTransmuteFn(): Function {
    Function([U32Array1()], map[
      0 := BasicBlock([StorageLive(0), Assign(Index(Local(0), Constant(I32Ty())), U32Const())],
                      IntrinsicTerminator(PrintCall(Transmute(Load(Local(0)), U32Slice())), 1), Regular),
      1 := ExitBlock(Regular)])
  }

  lemma IllTransmuteFnStatements()
    ensures forall j :: 0 <= j < |IllTransmuteFn().blocks[0].statements| ==>
              CheckStatement(IllTransmuteFn().locals, IllTransmuteFn().blocks[0].statements[j]).Ok?
  {
    var f := IllTransmuteFn();
    var ss := f.blocks[0].statements;
    assert PlaceType(f.locals, Index(Local(0), Constant(I32Ty()))) == Ok(U32Ty());
    assert CheckStatement(f.locals, ss[0]).Ok? && CheckStatement(f.locals, ss[1]).Ok?;
  }

  lemma IllTransmuteFnHead()
    ensures CheckBlock(IllTransmuteFn(), 0) == Err(UnsizedTransmute)
  {
    var f := IllTransmuteFn();
    IllTransmuteFnStatements();
    StatementsPass(f, 0);
    assert ValueType(f.locals, Transmute(Load(Local(0)), U32Slice())) == Err(UnsizedTransmute);
  }

  lemma IllTransmuteFnFails()
    ensures CheckFunction(IllTransmuteFn()) == Err(UnsizedTransmute)
  {
    var f := IllTransmuteFn();
    assert CheckLocal(f.locals[0]).Ok?;
    IllTransmuteFnHead();
    assert CheckBlock(f, 1).Ok?;
    assert f.blocks.Keys == {0, 1};
    OnlyFailingBlock(f, 0);
  }

  lemma IllTransmute()
    ensures Check(Program(map[0 := IllTransmuteFn()])) == Err(UnsizedTransmute)
  {
    IllTransmuteFnFails();
    OneFunction(IllTransmuteFn());
  }

  // ============================================ dynamic rules on slice pointers

  const OutOfBounds := "access to out-of-bounds index"
  const TotalSizeTooLarge := "Value::Ptr: total size exeeds isize::MAX"

  /** `isize::MAX` on the default (64-bit) target. */
  const ISIZE_MAX: int := 0x7fff_ffff_ffff_ffff

  /**
   * A wide pointer to a slice: the address of element 0 (the thin pointer)
   * and the element count (the metadata).
   */
  datatype SlicePtr = SlicePtr(thin: nat, len: nat)

  /** `construct_wide_pointer(thin, len, ..)`. */
  function ConstructWidePointer(thin: nat, len: nat): SlicePtr {
    SlicePtr(thin, len)
  }

  /** `get_metadata`. */
  function GetMetadata(p: SlicePtr): nat {
    p.len
  }

  /** `get_thin_pointer`. */
  function GetThinPointer(p: SlicePtr): nat {
    p.thin
  }

  /** The `(*const T, usize)` pair the pointer is made of, field 0 and field 1. */
  function AsPair(p: SlicePtr): (nat, nat) {
    (p.thin, p.len)
  }

  /** A wide pointer transmuted from its `(*const T, usize)` pair. */
  function FromPair(pair: (nat, nat)): SlicePtr {
    SlicePtr(pair.0, pair.1)
  }

  /** Constructing a wide pointer and taking it apart again gives back its parts. */
  lemma WidePointerParts(thin: nat, len: nat)
    ensures GetMetadata(ConstructWidePointer(thin, len)) == len
    ensures GetThinPointer(ConstructWidePointer(thin, len)) == thin
    ensures FromPair(AsPair(ConstructWidePointer(thin, len))) == ConstructWidePointer(thin, len)
  {
  }

  /** Indexing into a slice of `len` elements: the index, or the out-of-bounds UB. */
  function CheckIndex(idx: int, len: nat): (r: Result<nat, string>)
    ensures r.Ok? <==> 0 <= idx < len
    ensures r.Ok? ==> r.value == idx
    ensures r.Err? ==> r.error == OutOfBounds
  {
    if 0 <= idx < len then Ok(idx) else Err(OutOfBounds)
  }

  /** The address of element `idx` of the slice `p`, elements being `elemSize` bytes apart. */
  function ElementAddress(p: SlicePtr, elemSize: Size, idx: int): (r: Result<nat, string>)
    ensures r.Ok? <==> 0 <= idx < p.len
    ensures r.Err? ==> r.error == OutOfBounds
  {
    var i :- CheckIndex(idx, p.len);
    Ok(p.thin + i * elemSize)
  }

  /**
   * Every element of a slice lies inside the `elemSize * len` bytes after the
   * thin pointer, and distinct indices of a slice of non-zero-sized elements
   * have distinct addresses.
   */
  lemma ElementsInsideSlice(p: SlicePtr, elemSize: Size, i: int, j: int)
    requires ElementAddress(p, elemSize, i).Ok? && ElementAddress(p, elemSize, j).Ok?
    ensures p.thin <= ElementAddress(p, elemSize, i).value
    ensures ElementAddress(p, elemSize, i).value + elemSize <= p.thin + elemSize * p.len
    ensures elemSize > 0 && i != j ==> ElementAddress(p, elemSize, i).value != ElementAddress(p, elemSize, j).value
  {
    var a := ElementAddress(p, elemSize, i).value;
    assert a == p.thin + i * elemSize;
    assert (i + 1) * elemSize <= p.len * elemSize by {
      MulLeMono(i + 1, p.len, elemSize);
    }
    if elemSize > 0 && i != j {
      assert ElementAddress(p, elemSize, j).value == p.thin + j * elemSize;
      if i < j {
        MulLtMono(i, j, elemSize);
      } else {
        MulLtMono(j, i, elemSize);
      }
    }
  }

  lemma MulLeMono(a: int, b: int, c: nat)
    requires a <= b
    ensures a * c <= b * c
  {
  }

  lemma MulLtMono(a: int, b: int, c: nat)
    requires a < b && c > 0
    ensures a * c < b * c
  {
  }

  /** `get_thin_pointer_is_first_elem`: the thin pointer is the address of element 0. */
  lemma ThinPointerIsFirstElement(thin: nat, len: nat, elemSize: Size)
    requires len > 0
    ensures ElementAddress(ConstructWidePointer(thin, len), elemSize, 0) == Ok(GetThinPointer(ConstructWidePointer(thin, len)))
  {
  }

  /** `ub_invalid_index`: in a slice of two `u32`, indices -1 and 2 are out of bounds; 0 and 1 are not. */
  lemma InvalidIndex(thin: nat)
    ensures ElementAddress(ConstructWidePointer(thin, 2), 4, -1) == Err(OutOfBounds)
    ensures ElementAddress(ConstructWidePointer(thin, 2), 4, 2) == Err(OutOfBounds)
    ensures ElementAddress(ConstructWidePointer(thin, 2), 4, 0) == Ok(thin)
    ensures ElementAddress(ConstructWidePointer(thin, 2), 4, 1) == Ok(thin + 4)
  {
  }

  /**
   * The size check on a slice pointer value: through a safe pointer (`&`,
   * `&mut`, `Box`) to a slice, `elemSize * len` must not exceed `isize::MAX`;
   * raw pointers, and pointers to anything but a slice, are not checked.
   */
  function CheckTotalSize(ptr: PtrType, len: nat): (r: Result<(), string>)
    ensures r.Err? ==> r.error == TotalSizeTooLarge
  {
    var layout := match ptr
      case Ref(_, pointee) => pointee.layout
      case Box(pointee) => pointee.layout
      case _ => SizedLayout(0, 1);
    if layout.SliceLayout? && layout.elemSize * len > ISIZE_MAX then Err(TotalSizeTooLarge) else Ok(())
  }

  /** Raw pointers are never rejected for their total size. */
  lemma RawPointersUnchecked(metaKind: PointerMetaKind, len: nat)
    ensures CheckTotalSize(Raw(metaKind), len).Ok?
  {
  }

  /** A safe slice pointer passes exactly when its slice fits in `isize::MAX` bytes. */
  lemma SafeSlicePointerIff(ptr: PtrType, elemSize: Size, align: Align, len: nat)
    requires ptr.Ref? || ptr.Box?
    requires ptr.pointee.layout == SliceLayout(elemSize, align)
    ensures CheckTotalSize(ptr, len).Ok? <==> elemSize * len <= ISIZE_MAX
  {
  }

  /** A shorter slice behind the same pointer type passes whenever a longer one does. */
  lemma TotalSizeMonotone(ptr: PtrType, len: nat, shorter: nat)
    requires shorter <= len && CheckTotalSize(ptr, len).Ok?
    ensures CheckTotalSize(ptr, shorter).Ok?
  {
    match ptr
    case Ref(_, pointee) =>
      if pointee.layout.SliceLayout? {
        MulLeMono(shorter, len, pointee.layout.elemSize);
      }
    case Box(pointee) =>
      if pointee.layout.SliceLayout? {
        MulLeMono(shorter, len, pointee.layout.elemSize);
      }
    case _ =>
  }

  /** `[u32; 0x1_0000]`: 0x4_0000 bytes. */
  function BigElem(): RustTy {
    RustArray(U32, 0x1_0000)
  }

  /** The length of the tests' slices: 0x2000_0000_0000 elements of 0x4_0000 bytes is `isize::MAX + 1` bytes. */
  const BIG_LEN: nat := 0x2000_0000_0000

  /** `&[[u32; 0x1_0000]]` points at elements of 0x4_0000 bytes; `*const [[u32; 0x1_0000]]` is a raw slice pointer. */
  lemma BigSlicePointerTypes()
    ensures GetType(SharedRef(RustSlice(BigElem())))
            == Ptr(Ref(Immutable, PointeeInfo(SliceLayout(0x4_0000, 4), true, SliceCells([]), true)))
    ensures GetType(ConstPtr(RustSlice(BigElem()))) == Ptr(Raw(ElementCount))
  {
    BigElemLayout();
    assert GetLayout(RustSlice(BigElem())) == SliceLayout(0x4_0000, 4);
  }

  lemma BigElemLayout()
    ensures GetType(BigElem()) == Array(Int(IntType(Unsigned, 4)), 0x1_0000)
    ensures Layout(GetType(BigElem())) == SizedLayout(0x4_0000, 4)
    ensures MetaKind(GetType(RustSlice(BigElem()))) == ElementCount
  {
  }

  /**
   * `ub_too_large_slice` and `large_raw`: the same slice is UB behind
   * `&[[u32; 0x1_0000]]` and fine behind `*const [[u32; 0x1_0000]]`, while one
   * element fewer is fine behind the reference too.
   */
  lemma TooLargeSlice()
    ensures GetType(SharedRef(RustSlice(BigElem()))).Ptr?
    ensures CheckTotalSize(GetType(SharedRef(RustSlice(BigElem()))).ptrType, BIG_LEN) == Err(TotalSizeTooLarge)
    ensures CheckTotalSize(GetType(SharedRef(RustSlice(BigElem()))).ptrType, BIG_LEN - 1).Ok?
    ensures GetType(ConstPtr(RustSlice(BigElem()))).Ptr?
    ensures CheckTotalSize(GetType(ConstPtr(RustSlice(BigElem()))).ptrType, BIG_LEN).Ok?
  {
    BigSlicePointerTypes();
    assert 0x4_0000 * BIG_LEN == ISIZE_MAX + 1;
  }

  /**
   * `as_wide_pair`: the pair a wide pointer can be transmuted from, a thin raw
   * pointer at offset 0 and the metadata at offset `PTR_SIZE` (a `usize`
   * element count, or a vtable pointer of the pointee's trait); None for a
   * thin pointer, the case `.expect("PtrType is wide")` rejects.
   */
  function WidePair(ptr: PtrType): (r: Option<Type>)
    ensures r.Some? <==> PtrMetaKind(ptr) != NoMeta
    ensures r.Some? ==> Layout(r.value) == Layout(Ptr(ptr))
    ensures r.Some? ==> r.value.Tuple? && |r.value.sizedFields| == 2 && r.value.sizedFields[0] == (0, RawVoidPtrTy())
    ensures r.Some? ==> r.value.sizedFields[1].0 == PTR_SIZE
    ensures r.Some? ==> (r.value.sizedFields[1].1 == IntTy(Unsigned, PTR_SIZE) <==> PtrMetaKind(ptr) == ElementCount)
  {
    match PtrMetaKind(ptr)
    case NoMeta => None
    case ElementCount =>
      Some(TupleTy([(0, RawVoidPtrTy()), (PTR_SIZE, IntTy(Unsigned, PTR_SIZE))], 2 * PTR_SIZE, PTR_SIZE))
    case VTablePointer(name) =>
      Some(TupleTy([(0, RawVoidPtrTy()), (PTR_SIZE, Ptr(VTablePtr(name)))], 2 * PTR_SIZE, PTR_SIZE))
  }

  /** A `&dyn Tr` is wide: its pair holds the thin pointer and a vtable pointer for `Tr`. */
  lemma TraitObjectRefPair(name: TraitName)
    ensures WidePair(Ref(Immutable, PointeeInfo(TraitObjectLayout(name), true, TraitObjectCells(true), true)))
            == Some(TupleTy([(0, RawVoidPtrTy()), (PTR_SIZE, Ptr(VTablePtr(name)))], 2 * PTR_SIZE, PTR_SIZE))
  {
  }

  /** The raw slice pointer's pair: field 0 the thin pointer, field 1 the `usize` length. */
  lemma RawSlicePointerPair()
    ensures WidePair(Raw(ElementCount)).Some?
    ensures WidePair(Raw(ElementCount)).value.sizedFields[0].1 == GetType(ConstPtr(U8))
    ensures WidePair(Raw(ElementCount)).value.sizedFields[1] == (PTR_SIZE, GetType(Usize))
  {
  }
}
