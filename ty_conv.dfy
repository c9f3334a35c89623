/**
 * The Rust-to-MiniRust type mapping of `build/ty_conv.rs`. The `TypeConv`
 * trait is a function over the Rust type shapes it has implementations for.
 */
module TyConv {
  import opened Wrappers
  import opened Lang
  import opened TyBuild

  /**
   * The Rust types with a `TypeConv` implementation in the modelled file, plus
   * `Foreign`: a type whose implementation is written elsewhere, given by the
   * MiniRust type it converts to and its `UNPIN` constant.
   */
  datatype RustTy =
    | U8 | U16 | U32 | U64 | U128
    | I8 | I16 | I32 | I64 | I128
    | Usize | Isize
    | RustBool
    | ConstPtr(pointee: RustTy)
    | MutPtr(pointee: RustTy)
    | SharedRef(referent: RustTy)
    | MutRef(referent: RustTy)
    | RustArray(elem: RustTy, n: nat)
    | RustSlice(elem: RustTy)
    | UnitTy
    | Foreign(ty: Type, foreignUnpin: bool)

  /** `TypeConv::UNPIN`: true unless an implementation overrides it. */
  function Unpin(t: RustTy): bool {
    match t
    case Foreign(_, unpin) => unpin
    case _ => true
  }

  function GetType(t: RustTy): Type
    decreases t, 0
  {
    match t
    case U8 => Int(IntType(Unsigned, 1))
    case U16 => Int(IntType(Unsigned, 2))
    case U32 => Int(IntType(Unsigned, 4))
    case U64 => Int(IntType(Unsigned, 8))
    case U128 => Int(IntType(Unsigned, 16))
    case I8 => Int(IntType(Signed, 1))
    case I16 => Int(IntType(Signed, 2))
    case I32 => Int(IntType(Signed, 4))
    case I64 => Int(IntType(Signed, 8))
    case I128 => Int(IntType(Signed, 16))
    case Usize => Int(IntType(Unsigned, PTR_SIZE))
    case Isize => Int(IntType(Signed, PTR_SIZE))
    case RustBool => BoolTy()
    case ConstPtr(p) => RawPtrTy(MetaKind(GetType(p)))
    case MutPtr(p) => RawPtrTy(MetaKind(GetType(p)))
    case SharedRef(r) => RefTy(RefPointee(r))
    case MutRef(r) => RefMutTy(RefPointee(r))
    case RustArray(e, n) => ArrayTy(GetType(e), n)
    case RustSlice(e) => SliceTy(GetType(e))
    case UnitTy => TupleTy([], 0, 1)
    case Foreign(ty, _) => ty
  }

  function GetLayout(t: RustTy): LayoutStrategy
    decreases t, 1
  {
    Layout(GetType(t))
  }

  /** What `&T` and `&mut T` point at: `T`'s layout, inhabited, frozen, with `T::UNPIN`. */
  function RefPointee(t: RustTy): PointeeInfo
    decreases t, 2
  {
    var layout := GetLayout(t);
    PointeeInfo(layout, true, FromFrozenLayout(layout), Unpin(t))
  }

  lemma {:induction false} RefShapes(t: RustTy)
    ensures GetType(SharedRef(t)) == Ptr(Ref(Immutable, RefPointee(t)))
    ensures GetType(MutRef(t)) == Ptr(Ref(Mutable, RefPointee(t)))
  {
  }

  /** A reference is sized: one pointer wide when `T` needs no metadata, two otherwise. */
  lemma {:induction false} RefLayout(t: RustTy)
    ensures GetLayout(SharedRef(t)) == SizedLayout(if MetaKind(GetType(t)) == NoMeta then PTR_SIZE else 2 * PTR_SIZE, PTR_SIZE)
  {
    RefShapes(t);
    assert PtrMetaKind(Ref(Immutable, RefPointee(t))) == MetaKind(GetType(t));
  }

  /** `get_size`: None stands for the panic on a type whose layout is not sized. */
  function GetSize(t: RustTy): (r: Option<Size>)
    ensures r.Some? <==> GetLayout(t).SizedLayout?
    ensures r.Some? ==> GetLayout(t) == SizedLayout(r.value, GetLayout(t).align)
  {
    match GetLayout(t)
    case SizedLayout(size, _) => Some(size)
    case _ => None
  }

  /** `get_align`: None stands for the panic on a type whose layout is not sized. */
  function GetAlign(t: RustTy): (r: Option<Align>)
    ensures r.Some? <==> GetLayout(t).SizedLayout?
    ensures r.Some? ==> GetLayout(t) == SizedLayout(GetLayout(t).size, r.value)
  {
    match GetLayout(t)
    case SizedLayout(_, align) => Some(align)
    case _ => None
  }

  predicate IsRustInt(t: RustTy) {
    t in {U8, U16, U32, U64, U128, I8, I16, I32, I64, I128, Usize, Isize}
  }

  predicate IsRustSigned(t: RustTy) {
    t in {I8, I16, I32, I64, I128, Isize}
  }

  /**
   * Every Rust integer type becomes a MiniRust integer of its signedness, one
   * of the sizes 1, 2, 4, 8 or 16 bytes, sized and aligned to its width; `usize`
   * and `isize` are the 8-byte types of the default target.
   */
  lemma IntTypesMapToInts(t: RustTy)
    requires IsRustInt(t)
    ensures GetType(t).Int?
    ensures GetType(t).intType.signed == (if IsRustSigned(t) then Signed else Unsigned)
    ensures GetType(t).intType.size in {1, 2, 4, 8, 16}
    ensures GetSize(t) == GetAlign(t) == Some(GetType(t).intType.size)
    ensures GetType(Usize) == GetType(U64) && GetType(Isize) == GetType(I64)
  {
  }

  /** `*const T` and `*mut T` are the same raw pointer, carrying `T`'s metadata kind. */
  lemma RawPointersCarryMetaKind(t: RustTy)
    ensures GetType(ConstPtr(t)) == GetType(MutPtr(t)) == Ptr(Raw(MetaKind(GetType(t))))
  {
  }

  /**
   * `&T` and `&mut T` point at `T`'s layout, are inhabited, have no `UnsafeCell`
   * bytes, take `T::UNPIN`, and differ only in mutability.
   */
  lemma ReferencesToLayout(t: RustTy)
    ensures GetType(SharedRef(t)).Ptr? && GetType(SharedRef(t)).ptrType.Ref?
    ensures GetType(SharedRef(t)).ptrType.mutbl == Immutable
    ensures GetType(MutRef(t)) == Ptr(Ref(Mutable, GetType(SharedRef(t)).ptrType.pointee))
    ensures GetType(SharedRef(t)).ptrType.pointee.layout == GetLayout(t)
    ensures GetType(SharedRef(t)).ptrType.pointee.inhabited
    ensures IsFreezeOutside(GetType(SharedRef(t)).ptrType.pointee.unsafeCells)
    ensures GetType(SharedRef(t)).ptrType.pointee.unpin == Unpin(t)
  {
    RefShapes(t);
  }

  /** With the default markers, `&T` is exactly `ref_ty_default_markers_for(T)`. */
  lemma DefaultRefsAgree(t: RustTy)
    requires Unpin(t)
    ensures GetType(SharedRef(t)) == RefTyDefaultMarkersFor(GetType(t))
    ensures GetType(MutRef(t)) == RefMutTyDefaultMarkersFor(GetType(t))
  {
    RefShapes(t);
  }

  /** `[T; N]` is sized with N times the size of `T`; `[T]` is unsized and has no size. */
  lemma ArraysAndSlices(t: RustTy, n: nat)
    ensures GetType(RustArray(t, n)) == Array(GetType(t), n)
    ensures GetType(RustSlice(t)) == Slice(GetType(t))
    ensures GetSize(t).Some? ==> GetSize(RustArray(t, n)) == Some(GetSize(t).value * n)
    ensures GetSize(RustSlice(t)) == None && GetAlign(RustSlice(t)) == None
  {
    var e := GetType(t);
    assert GetType(RustArray(t, n)) == Array(e, n);
    assert GetType(RustSlice(t)) == Slice(e);
    assert GetLayout(RustSlice(t)).SliceLayout?;
  }

  /** `()` is the empty tuple of size 0 and alignment 1. */
  lemma UnitIsEmptyTuple()
    ensures GetType(UnitTy) == Tuple([], TupleHeadLayout(0, 1, None), None)
    ensures GetSize(UnitTy) == Some(0) && GetAlign(UnitTy) == Some(1)
  {
  }

  /** `bool` is MiniRust's boolean, one byte in size and alignment. */
  lemma BoolIsOneByte()
    ensures GetType(RustBool) == Bool
    ensures GetSize(RustBool) == Some(1) && GetAlign(RustBool) == Some(1)
  {
  }

  /** A reference to a slice is a wide pointer: twice the pointer width. */
  lemma SliceRefIsWide(t: RustTy)
    ensures MetaKind(GetType(RustSlice(t))) == ElementCount
    ensures GetSize(SharedRef(RustSlice(t))) == Some(2 * PTR_SIZE)
    ensures GetSize(SharedRef(t)) == Some(if MetaKind(GetType(t)) == NoMeta then PTR_SIZE else 2 * PTR_SIZE)
  {
    assert GetType(RustSlice(t)) == Slice(GetType(t));
    RefLayout(RustSlice(t));
    RefLayout(t);
  }
}
