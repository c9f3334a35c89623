/**
 * Type constructors of the program builder (`build/ty.rs`): small total
 * functions from their arguments to a `Type`, a `Discriminator` or an
 * `UnsafeCellStrategy`.
 */
module TyBuild {
  import opened Wrappers
  import opened Lang

  function IntTy(signed: Signedness, size: Size): (r: Type)
    ensures r.Int? && r.intType.signed == signed && Layout(r) == SizedLayout(size, size)
  {
    Int(IntType(signed, size))
  }

  function BoolTy(): (r: Type)
    ensures IsSized(r) && MetaKind(r) == NoMeta && !IsComposite(r)
  {
    Bool
  }

  function RefTy(pointee: PointeeInfo): (r: Type)
    ensures r.Ptr? && r.ptrType.Ref? && r.ptrType.mutbl == Immutable && r.ptrType.pointee == pointee
    ensures PtrMetaKind(r.ptrType) == LayoutMetaKind(pointee.layout)
  {
    Ptr(Ref(Immutable, pointee))
  }

  function RefMutTy(pointee: PointeeInfo): (r: Type)
    ensures r.Ptr? && r.ptrType.Ref? && r.ptrType.mutbl == Mutable && r.ptrType.pointee == pointee
    ensures PtrMetaKind(r.ptrType) == LayoutMetaKind(pointee.layout)
  {
    Ptr(Ref(Mutable, pointee))
  }

  function BoxTy(pointee: PointeeInfo): (r: Type)
    ensures r.Ptr? && r.ptrType.Box? && r.ptrType.pointee == pointee
    ensures PtrMetaKind(r.ptrType) == LayoutMetaKind(pointee.layout)
  {
    Ptr(Box(pointee))
  }

  /** The cell strategy has the layout's shape (constructor for constructor, tail for tail). */
  predicate SameShape(l: LayoutStrategy, c: UnsafeCellStrategy) {
    match l
    case SizedLayout(_, _) => c.SizedCells?
    case SliceLayout(_, _) => c.SliceCells?
    case TraitObjectLayout(_) => c.TraitObjectCells?
    case TupleLayout(_, tail) => c.TupleCells? && SameShape(tail, c.tail)
  }

  /** An `UnsafeCellStrategy` with no `UnsafeCell` bytes, shaped like `layout`. */
  function FromFrozenLayout(layout: LayoutStrategy): (r: UnsafeCellStrategy)
    ensures SameShape(layout, r) && IsFreezeOutside(r)
  {
    match layout
    case SizedLayout(_, _) => SizedCells([])
    case SliceLayout(_, _) => SliceCells([])
    case TraitObjectLayout(_) => TraitObjectCells(true)
    case TupleLayout(_, tail) => TupleCells([], FromFrozenLayout(tail))
  }

  /** `FromFrozenLayout` is the only frozen cell strategy of the layout's shape. */
  lemma {:induction false} FrozenLayoutUnique(layout: LayoutStrategy, c: UnsafeCellStrategy)
    requires SameShape(layout, c) && IsFreezeOutside(c)
    ensures c == FromFrozenLayout(layout)
  {
    match layout
    case TupleLayout(_, tail) => FrozenLayoutUnique(tail, c.tail);
    case _ =>
  }

  /** A shared reference to `ty`, for a type that is inhabited, `Freeze` and `Unpin`. */
  function RefTyDefaultMarkersFor(ty: Type): (r: Type)
    ensures r.Ptr? && r.ptrType.Ref? && r.ptrType.mutbl == Immutable
    ensures r.ptrType.pointee.layout == Layout(ty)
    ensures r.ptrType.pointee.inhabited && r.ptrType.pointee.unpin
    ensures IsFreezeOutside(r.ptrType.pointee.unsafeCells)
    ensures SameShape(Layout(ty), r.ptrType.pointee.unsafeCells)
    ensures PtrMetaKind(r.ptrType) == MetaKind(ty)
  {
    var layout := Layout(ty);
    RefTy(PointeeInfo(layout, true, FromFrozenLayout(layout), true))
  }

  /** The mutable counterpart of `RefTyDefaultMarkersFor`. */
  function RefMutTyDefaultMarkersFor(ty: Type): (r: Type)
    ensures r.Ptr? && r.ptrType.Ref? && r.ptrType.mutbl == Mutable
    ensures r.ptrType.pointee.layout == Layout(ty)
    ensures r.ptrType.pointee.inhabited && r.ptrType.pointee.unpin
    ensures IsFreezeOutside(r.ptrType.pointee.unsafeCells)
    ensures SameShape(Layout(ty), r.ptrType.pointee.unsafeCells)
    ensures PtrMetaKind(r.ptrType) == MetaKind(ty)
  {
    var layout := Layout(ty);
    RefMutTy(PointeeInfo(layout, true, FromFrozenLayout(layout), true))
  }

  /** The two default-marker reference constructors differ in nothing but mutability. */
  lemma DefaultMarkerRefsDifferInMutability(ty: Type)
    ensures RefMutTyDefaultMarkersFor(ty) == Ptr(Ref(Mutable, RefTyDefaultMarkersFor(ty).ptrType.pointee))
  {
  }

  function RawPtrTy(metaKind: PointerMetaKind): (r: Type)
    ensures r.Ptr? && r.ptrType.Raw? && PtrMetaKind(r.ptrType) == metaKind
  {
    Ptr(Raw(metaKind))
  }

  function RawVoidPtrTy(): (r: Type)
    ensures r.Ptr? && r.ptrType.Raw? && PtrMetaKind(r.ptrType) == NoMeta
    ensures Layout(r) == SizedLayout(PTR_SIZE, PTR_SIZE)
  {
    RawPtrTy(NoMeta)
  }

  /** A sized tuple: its head ends at `size` and it has no unsized field. */
  function TupleTy(fields: seq<(Offset, Type)>, size: Size, align: Align): (r: Type)
    ensures r.Tuple? && r.sizedFields == fields && r.unsizedField == None
    ensures r.sizedHeadLayout.packedAlign == None
    ensures Layout(r) == SizedLayout(size, align)
  {
    Tuple(fields, TupleHeadLayout(size, align, None), None)
  }

  /** A tuple whose last field is unsized: its layout is the head followed by that field's layout. */
  function UnsizedTupleTy(fields: seq<(Offset, Type)>, unsizedTy: Type, end: Offset, align: Align, packedAlign: Option<Align>): (r: Type)
    ensures r.Tuple? && r.sizedFields == fields && r.unsizedField == Some(unsizedTy)
    ensures Layout(r) == TupleLayout(TupleHeadLayout(end, align, packedAlign), Layout(unsizedTy))
    ensures MetaKind(r) == MetaKind(unsizedTy)
    ensures IsSized(r) <==> IsSized(unsizedTy)
  {
    Tuple(fields, TupleHeadLayout(end, align, packedAlign), Some(unsizedTy))
  }

  /** A union with a single data chunk covering all of its bytes. */
  function UnionTy(fields: seq<(Offset, Type)>, size: Size, align: Align): (r: Type)
    ensures r.Union? && r.fields == fields && r.chunks == [(0, size)]
    ensures Layout(r) == SizedLayout(size, align)
  {
    Union(fields, size, align, [(0, size)])
  }

  function ArrayTy(elem: Type, count: int): (r: Type)
    ensures r.Array? && r.elem == elem && r.count == count
    ensures IsSized(r)
    ensures Layout(elem).SizedLayout? && count >= 0 ==>
              Layout(r) == SizedLayout(Layout(elem).size * count, Layout(elem).align)
  {
    Array(elem, count)
  }

  /** A slice is unsized, and pointers to it carry an element count. */
  function SliceTy(elem: Type): (r: Type)
    ensures r.Slice? && r.elem == elem
    ensures !IsSized(r) && MetaKind(r) == ElementCount
  {
    Slice(elem)
  }

  /** A trait object is unsized, and pointers to it carry a vtable of its trait. */
  function TraitObjectTy(traitName: TraitName): (r: Type)
    ensures r.TraitObject? && !IsSized(r) && MetaKind(r) == VTablePointer(traitName)
  {
    TraitObject(traitName)
  }

  function EnumVariant(ty: Type, tagger: seq<(Offset, (IntType, int))>): (r: Variant)
    ensures r.ty == ty && r.tagger == tagger
  {
    Variant(ty, tagger)
  }

  /**
   * An enum; `discriminantTy` is what the discriminant's Rust type converts to.
   * None stands for the panic when that is not an integer type.
   */
  function EnumTy(discriminantTy: Type, variants: seq<(int, Variant)>, discriminator: Discriminator, size: Size, align: Align): (r: Option<Type>)
    ensures r.Some? <==> discriminantTy.Int?
    ensures r.Some? ==> r.value.Enum? && r.value.discriminantTy == discriminantTy.intType
    ensures r.Some? ==> r.value.variants == variants && r.value.discriminator == discriminator
    ensures r.Some? ==> Layout(r.value) == SizedLayout(size, align)
  {
    match discriminantTy
    case Int(it) => Some(Enum(variants, discriminator, it, size, align))
    case _ => None
  }

  function DiscriminatorInvalid(): (r: Discriminator)
    ensures r.Invalid?
  {
    Invalid
  }

  function DiscriminatorKnown(discriminant: int): (r: Discriminator)
    ensures r.Known? && r.discriminant == discriminant
  {
    Known(discriminant)
  }

  /**
   * A discriminator that branches on the integer at `offset`; `valueTy` is what
   * the integer Rust type of the ranges converts to.
   */
  function DiscriminatorBranch(valueTy: Type, offset: Offset, fallback: Discriminator, children: seq<((int, int), Discriminator)>): (r: Discriminator)
    requires valueTy.Int?
    ensures r.Branch? && r.valueType == valueTy.intType && r.offset == offset
    ensures r.fallback == fallback && r.children == children
  {
    Branch(offset, valueTy.intType, fallback, children)
  }
}
