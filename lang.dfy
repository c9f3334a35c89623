/**
 * The MiniRust values the builder, the formatter and the well-formedness rules
 * work on: types with their layout strategies, and programs made of functions,
 * basic blocks and terminators.
 *
 * `Layout`, `MetaKind` and `IsFreezeOutside` stand in for `Type::layout`,
 * `meta_kind()` and `UnsafeCellStrategy::is_freeze_outside`, which are defined
 * outside the modelled files; they follow MiniRust's layout rules
 * (integers and pointers have fixed sizes, a slice is sized by its length, a
 * trait object has unknown size, a tuple with an unsized field has a sized head
 * followed by the field's layout).
 */
module Lang {
  import opened Wrappers

  type Size = nat
  type Align = nat
  type Offset = nat
  type BbName = nat
  type FnName = nat
  type LocalName = nat
  type TraitName = string

  /** Pointer width, in bytes, of the default target. */
  const PTR_SIZE: Size := 8

  // ---------------------------------------------------------------- types

  datatype Signedness = Signed | Unsigned

  datatype IntType = IntType(signed: Signedness, size: Size)

  datatype Mutability = Mutable | Immutable

  datatype PointerMetaKind = NoMeta | ElementCount | VTablePointer(traitName: TraitName)

  datatype TupleHeadLayout = TupleHeadLayout(end: Offset, align: Align, packedAlign: Option<Align>)

  datatype LayoutStrategy =
    | SizedLayout(size: Size, align: Align)
    | SliceLayout(elemSize: Size, align: Align)
    | TraitObjectLayout(traitName: TraitName)
    | TupleLayout(head: TupleHeadLayout, tail: LayoutStrategy)

  /** Where the `UnsafeCell` bytes of a pointee are, shaped like its layout. */
  datatype UnsafeCellStrategy =
    | SizedCells(bytes: seq<(Offset, Size)>)
    | SliceCells(element: seq<(Offset, Size)>)
    | TraitObjectCells(isFreeze: bool)
    | TupleCells(head: seq<(Offset, Size)>, tail: UnsafeCellStrategy)

  datatype PointeeInfo = PointeeInfo(
    layout: LayoutStrategy,
    inhabited: bool,
    unsafeCells: UnsafeCellStrategy,
    unpin: bool)

  datatype PtrType =
    | Ref(mutbl: Mutability, pointee: PointeeInfo)
    | Box(pointee: PointeeInfo)
    | Raw(metaKind: PointerMetaKind)
    | FnPtr
    | VTablePtr(traitName: TraitName)

  datatype Discriminator =
    | Invalid
    | Known(discriminant: int)
    | Branch(
        offset: Offset,
        valueType: IntType,
        fallback: Discriminator,
        children: seq<((int, int), Discriminator)>)

  datatype Type =
    | Int(intType: IntType)
    | Bool
    | Ptr(ptrType: PtrType)
    | Tuple(sizedFields: seq<(Offset, Type)>, sizedHeadLayout: TupleHeadLayout, unsizedField: Option<Type>)
    | Union(fields: seq<(Offset, Type)>, size: Size, align: Align, chunks: seq<(Offset, Size)>)
    | Enum(variants: seq<(int, Variant)>, discriminator: Discriminator, discriminantTy: IntType, size: Size, align: Align)
    | Array(elem: Type, count: int)
    | Slice(elem: Type)
    | TraitObject(traitName: TraitName)

  datatype Variant = Variant(ty: Type, tagger: seq<(Offset, (IntType, int))>)

  /** Tuples, unions and enums: the types the formatter prints separately. */
  predicate IsComposite(t: Type) {
    t.Tuple? || t.Union? || t.Enum?
  }

  // --------------------------------------------------------------- layout

  function LayoutMetaKind(l: LayoutStrategy): PointerMetaKind {
    match l
    case SizedLayout(_, _) => NoMeta
    case SliceLayout(_, _) => ElementCount
    case TraitObjectLayout(n) => VTablePointer(n)
    case TupleLayout(_, tail) => LayoutMetaKind(tail)
  }

  /** Sized: a fixed size, or a tuple whose tail is (recursively) sized. */
  predicate IsSizedLayout(l: LayoutStrategy) {
    match l
    case SizedLayout(_, _) => true
    case TupleLayout(_, tail) => IsSizedLayout(tail)
    case _ => false
  }

  function PtrMetaKind(p: PtrType): PointerMetaKind {
    match p
    case Ref(_, pointee) => LayoutMetaKind(pointee.layout)
    case Box(pointee) => LayoutMetaKind(pointee.layout)
    case Raw(m) => m
    case FnPtr => NoMeta
    case VTablePtr(_) => NoMeta
  }

  function Layout(t: Type): LayoutStrategy {
    match t
    case Int(it) => SizedLayout(it.size, it.size)
    case Bool => SizedLayout(1, 1)
    case Ptr(p) =>
      if PtrMetaKind(p) == NoMeta then SizedLayout(PTR_SIZE, PTR_SIZE)
      else SizedLayout(2 * PTR_SIZE, PTR_SIZE)
    case Tuple(_, head, unsizedField) =>
      (match unsizedField
       case None => SizedLayout(head.end, head.align)
       case Some(u) => TupleLayout(head, Layout(u)))
    case Union(_, size, align, _) => SizedLayout(size, align)
    case Enum(_, _, _, size, align) => SizedLayout(size, align)
    case Array(elem, count) =>
      (match Layout(elem)
       case SizedLayout(s, a) => SizedLayout(s * (if count < 0 then 0 else count), a)
       case _ => SizedLayout(0, 1))
    case Slice(elem) =>
      (match Layout(elem)
       case SizedLayout(s, a) => SliceLayout(s, a)
       case _ => SliceLayout(0, 1))
    case TraitObject(n) => TraitObjectLayout(n)
  }

  function MetaKind(t: Type): PointerMetaKind {
    LayoutMetaKind(Layout(t))
  }

  predicate IsSized(t: Type) {
    IsSizedLayout(Layout(t))
  }

  /** No `UnsafeCell` byte outside of what a pointer may mutate through a shared reference. */
  predicate IsFreezeOutside(c: UnsafeCellStrategy) {
    match c
    case SizedCells(bytes) => bytes == []
    case SliceCells(element) => element == []
    case TraitObjectCells(isFreeze) => isFreeze
    case TupleCells(head, tail) => head == [] && IsFreezeOutside(tail)
  }

  // ------------------------------------------------------------- programs

  datatype BbKind = Regular | Cleanup | Catch | Terminate

  datatype CallingConvention = Rust | C

  datatype IntBinOp = Add | Sub

  datatype LockOp = Create | Acquire | Release

  datatype IntrinsicOp =
    | Exit
    | Abort
    | AssumeOp
    | PrintStdout
    | PrintStderr
    | Allocate
    | Deallocate
    | Spawn
    | Join
    | RawEq
    | AtomicStore
    | AtomicLoad
    | AtomicFetchAndOp(binOp: IntBinOp)
    | AtomicCompareExchange
    | PointerExposeProvenance
    | PointerWithExposedProvenance
    | Lock(lockOp: LockOp)
    | GetUnwindPayload

  datatype ValueExpr =
    | Constant(ty: Type)
    | FnPointer(fnName: FnName)
    | Load(source: PlaceExpr)
    | Transmute(operand: ValueExpr, target: Type)
    | BoolToInt(operand: ValueExpr)

  datatype PlaceExpr =
    | Local(name: LocalName)
    | Deref(pointer: ValueExpr, ty: Type)
    | Index(root: PlaceExpr, index: ValueExpr)

  datatype ArgumentExpr = ByValue(value: ValueExpr) | InPlace(place: PlaceExpr)

  datatype Statement =
    | Assign(destination: PlaceExpr, src: ValueExpr)
    | StorageLive(live: LocalName)
    | StorageDead(dead: LocalName)
    | Validate(validated: PlaceExpr, fnEntry: bool)

  datatype Terminator =
    | Goto(target: BbName)
    | Switch(value: ValueExpr, cases: map<int, BbName>, fallback: BbName)
    | Unreachable
    | Intrinsic(intrinsic: IntrinsicOp, args: seq<ValueExpr>, ret: PlaceExpr, nextBlock: Option<BbName>)
    | Call(
        callee: ValueExpr,
        callingConvention: CallingConvention,
        arguments: seq<ArgumentExpr>,
        ret: PlaceExpr,
        nextBlock: Option<BbName>,
        unwindBlock: Option<BbName>)
    | Return
    | StartUnwind(unwindPayload: ValueExpr, cleanupBlock: BbName)
    | StopUnwind(stopNext: BbName)
    | ResumeUnwind

  datatype BasicBlock = BasicBlock(statements: seq<Statement>, terminator: Terminator, kind: BbKind)

  datatype Function = Function(locals: seq<Type>, blocks: map<BbName, BasicBlock>)

  datatype Program = Program(functions: map<FnName, Function>)
}
