/**
 * The type printer of the program formatter (`fmt/ty.rs`).
 *
 * Leaf renderers (integer types, pointer metadata, layouts, pointee
 * information, pointers) are pure functions. Tuples, unions and enums
 * ("composite" types) are not printed inline: `fmt_type` names them `T<i>`,
 * where `i` is the position of the type in a table of composite types that
 * grows as new ones are met, and `fmt_comptypes` later prints one block per
 * table entry, walking a table that keeps growing while it is walked.
 *
 * The table, a `&mut Vec` in the source, is threaded through the functions as
 * a value: every formatter that may add to it takes the table and returns the
 * new one. `FmtExpr::to_string` is taken to return the text unchanged.
 */
module FmtTy {
  import opened Wrappers
  import opened Lang
  import opened Decimal

  /** A rendered type; NonAtomic ones need parentheses when nested in a larger expression. */
  datatype FmtExpr = Atomic(text: string) | NonAtomic(text: string)

  // ------------------------------------------------------------ strings

  predicate EndsWith(s: string, suffix: string) {
    |suffix| <= |s| && s[|s| - |suffix|..] == suffix
  }

  lemma {:induction false} PrefixCancel(p: string, x: string, y: string)
    requires p + x == p + y
    ensures x == y
  {
    assert x == (p + x)[|p|..];
    assert y == (p + y)[|p|..];
  }

  lemma {:induction false} SuffixCancel(x: string, y: string, q: string)
    requires x + q == y + q
    ensures x == y
  {
    assert x == (x + q)[..|x|];
    assert y == (y + q)[..|y|];
  }

  // ------------------------------------------------------ leaf renderers

  /** `i` or `u`, then the width in bits. */
  function FmtIntType(it: IntType): (s: string)
    ensures |s| >= 2
    ensures s[0] == 'i' <==> it.signed == Signed
    ensures s[0] == 'u' <==> it.signed == Unsigned
    ensures AllDigits(s[1..]) && ParseNat(s[1..]) == 8 * it.size
  {
    var signed := if it.signed == Signed then "i" else "u";
    assert signed[0] == (if it.signed == Signed then 'i' else 'u');
    var bits := NatToString(it.size * 8);
    ParseNatToString(it.size * 8);
    assert (signed + bits)[0] == signed[0] && (signed + bits)[1..] == bits;
    signed + bits
  }

  /** Distinct integer types print differently. */
  lemma {:induction false} FmtIntTypeInjective(a: IntType, b: IntType)
    requires FmtIntType(a) == FmtIntType(b)
    ensures a == b
  {
  }

  function FmtMetaKind(kind: PointerMetaKind): (s: string) {
    match kind
    case NoMeta => "thin"
    case ElementCount => "meta=len"
    case VTablePointer(name) => "meta=vtable<" + name + ">"
  }

  /** Distinct metadata kinds print differently, down to the trait name. */
  lemma {:induction false} FmtMetaKindInjective(a: PointerMetaKind, b: PointerMetaKind)
    requires FmtMetaKind(a) == FmtMetaKind(b)
    ensures a == b
  {
    if a.VTablePointer? && b.VTablePointer? {
      assert FmtMetaKind(a) == "meta=vtable<" + (a.traitName + ">");
      assert FmtMetaKind(b) == "meta=vtable<" + (b.traitName + ">");
      PrefixCancel("meta=vtable<", a.traitName + ">", b.traitName + ">");
      SuffixCancel(a.traitName, b.traitName, ">");
    }
  }

  /** Text closing a rendered layout: a digit, `}` or `)`. */
  predicate LayoutEnd(c: char) {
    IsDigit(c) || c == '}' || c == ')'
  }

  function PackedText(packedAlign: Option<Align>): string {
    match packedAlign
    case None => ""
    case Some(p) => ", packed=" + NatToString(p)
  }

  /** `size=`, the size, `kind` (`, align=` or `*len, align=`), then the alignment. */
  function SizeAlignText(size: Size, kind: string, align: Align): (s: string)
    ensures |s| > 0 && IsDigit(s[|s| - 1])
  {
    NatToStringDigits(align);
    "size=" + (NatToString(size) + (kind + NatToString(align)))
  }

  /** `head=(end=E, align=A)` followed by `rest`. */
  function HeadText(head: TupleHeadLayout, rest: string): string {
    "head=(end=" + (NatToString(head.end) + (", align=" + (NatToString(head.align) + (")" + rest))))
  }

  function FmtLayoutStrategy(layout: LayoutStrategy): (s: string)
    ensures |s| > 0 && LayoutEnd(s[|s| - 1])
  {
    match layout
    case SizedLayout(size, align) => SizeAlignText(size, ", align=", align)
    case SliceLayout(size, align) => SizeAlignText(size, "*len, align=", align)
    case TraitObjectLayout(_) => "size,align={unknown}"
    case TupleLayout(head, tail) =>
      HeadText(head, PackedText(head.packedAlign) + (", tail=(" + (FmtLayoutStrategy(tail) + ")")))
  }

  /** The trait-name-free part of a layout: all that its rendering keeps. */
  function Unnamed(layout: LayoutStrategy): LayoutStrategy {
    match layout
    case TraitObjectLayout(_) => TraitObjectLayout("")
    case TupleLayout(head, tail) => TupleLayout(head, Unnamed(tail))
    case _ => layout
  }

  /** Two rendered numbers, each followed by a text that opens with a non-digit, split one way only. */
  lemma {:induction false} NumbersSplit(m: nat, r1: string, n: nat, r2: string)
    requires |r1| > 0 && !IsDigit(r1[0]) && |r2| > 0 && !IsDigit(r2[0])
    requires NatToString(m) + r1 == NatToString(n) + r2
    ensures m == n && r1 == r2
  {
    NatToStringDigits(m);
    NatToStringDigits(n);
    DigitsSplit(NatToString(m), r1, NatToString(n), r2);
    NatToStringInjective(m, n);
  }

  lemma {:induction false} NumbersAfter(k: string, m: nat, r1: string, n: nat, r2: string)
    requires |r1| > 0 && !IsDigit(r1[0]) && |r2| > 0 && !IsDigit(r2[0])
    requires k + (NatToString(m) + r1) == k + (NatToString(n) + r2)
    ensures m == n && r1 == r2
  {
    PrefixCancel(k, NatToString(m) + r1, NatToString(n) + r2);
    NumbersSplit(m, r1, n, r2);
  }

  lemma {:induction false} SizeAlignInjective(s1: Size, k1: string, a1: Align, s2: Size, k2: string, a2: Align)
    requires k1 == ", align=" || k1 == "*len, align="
    requires k2 == ", align=" || k2 == "*len, align="
    requires SizeAlignText(s1, k1, a1) == SizeAlignText(s2, k2, a2)
    ensures s1 == s2 && k1 == k2 && a1 == a2
  {
    NumbersAfter("size=", s1, k1 + NatToString(a1), s2, k2 + NatToString(a2));
    if k1 == k2 {
      PrefixCancel(k1, NatToString(a1), NatToString(a2));
      NatToStringInjective(a1, a2);
    }
  }

  /**
   * A rendered layout determines the layout, except for the trait name of a
   * trait-object tail, which is not printed.
   */
  lemma {:induction false} FmtLayoutStrategyInjective(a: LayoutStrategy, b: LayoutStrategy)
    requires FmtLayoutStrategy(a) == FmtLayoutStrategy(b)
    ensures Unnamed(a) == Unnamed(b)
    decreases a
  {
    LayoutOpening(a);
    LayoutOpening(b);
    if a.TupleLayout? && b.TupleLayout? {
      TupleLayoutInjective(a.head, a.tail, b.head, b.tail);
      FmtLayoutStrategyInjective(a.tail, b.tail);
    } else if a.SizedLayout? && b.SizedLayout? {
      SizeAlignInjective(a.size, ", align=", a.align, b.size, ", align=", b.align);
    } else if a.SizedLayout? && b.SliceLayout? {
      SizeAlignInjective(a.size, ", align=", a.align, b.elemSize, "*len, align=", b.align);
    } else if a.SliceLayout? && b.SizedLayout? {
      SizeAlignInjective(a.elemSize, "*len, align=", a.align, b.size, ", align=", b.align);
    } else if a.SliceLayout? && b.SliceLayout? {
      SizeAlignInjective(a.elemSize, "*len, align=", a.align, b.elemSize, "*len, align=", b.align);
    }
  }

  /** A tuple layout opens with `h`, the others with `size`, then `,` for a trait object and `=` otherwise. */
  lemma {:induction false} LayoutOpening(l: LayoutStrategy)
    ensures var s := FmtLayoutStrategy(l);
      && |s| > 4
      && s[0] == (if l.TupleLayout? then 'h' else 's')
      && s[4] == (if l.TraitObjectLayout? then ',' else '=')
  {
    match l
    case SizedLayout(size, align) =>
      Opening("size=", NatToString(size) + (", align=" + NatToString(align)));
    case SliceLayout(size, align) =>
      Opening("size=", NatToString(size) + ("*len, align=" + NatToString(align)));
    case TraitObjectLayout(_) =>
    case TupleLayout(head, tail) =>
      Opening("head=(end=", NatToString(head.end) + (", align=" + (NatToString(head.align)
        + (")" + (PackedText(head.packedAlign) + (", tail=(" + (FmtLayoutStrategy(tail) + ")")))))));
  }

  lemma {:induction false} Opening(p: string, x: string)
    requires |p| > 4
    ensures |p + x| > 4 && (p + x)[0] == p[0] && (p + x)[4] == p[4]
  {
  }

  /** The head of a tuple layout, and where its tail's text sits, can be read back. */
  lemma {:induction false} TupleLayoutInjective(ha: TupleHeadLayout, ta: LayoutStrategy, hb: TupleHeadLayout, tb: LayoutStrategy)
    requires FmtLayoutStrategy(TupleLayout(ha, ta)) == FmtLayoutStrategy(TupleLayout(hb, tb))
    ensures ha == hb && FmtLayoutStrategy(ta) == FmtLayoutStrategy(tb)
  {
    var ra := PackedText(ha.packedAlign) + (", tail=(" + (FmtLayoutStrategy(ta) + ")"));
    var rb := PackedText(hb.packedAlign) + (", tail=(" + (FmtLayoutStrategy(tb) + ")"));
    HeadInjective(ha, ra, hb, rb);
    PackedInjective(ha.packedAlign, FmtLayoutStrategy(ta), hb.packedAlign, FmtLayoutStrategy(tb));
  }

  lemma {:induction false} HeadInjective(ha: TupleHeadLayout, ra: string, hb: TupleHeadLayout, rb: string)
    requires HeadText(ha, ra) == HeadText(hb, rb)
    ensures ha.end == hb.end && ha.align == hb.align && ra == rb
  {
    NumbersAfter("head=(end=", ha.end, ", align=" + (NatToString(ha.align) + (")" + ra)),
      hb.end, ", align=" + (NatToString(hb.align) + (")" + rb)));
    NumbersAfter(", align=", ha.align, ")" + ra, hb.align, ")" + rb);
    PrefixCancel(")", ra, rb);
  }

  lemma {:induction false} PackedInjective(pa: Option<Align>, ta: string, pb: Option<Align>, tb: string)
    requires PackedText(pa) + (", tail=(" + (ta + ")")) == PackedText(pb) + (", tail=(" + (tb + ")"))
    ensures pa == pb && ta == tb
  {
    PackedSplit(pa, ta);
    PackedSplit(pb, tb);
    SameOpening(PackedOpening(pa), PackedRest(pa, ta), PackedOpening(pb), PackedRest(pb, tb));
    PrefixCancel(PackedOpening(pa), PackedRest(pa, ta), PackedRest(pb, tb));
    if pa.Some? {
      NumbersSplit(pa.value, ", tail=(" + (ta + ")"), pb.value, ", tail=(" + (tb + ")"));
      PrefixCancel(", tail=(", ta + ")", tb + ")");
    }
    SuffixCancel(ta, tb, ")");
  }

  /** The first words after a tuple head: `, packed=` when packed, `, tail=(` otherwise. */
  function PackedOpening(packedAlign: Option<Align>): string {
    if packedAlign.Some? then ", packed=" else ", tail=("
  }

  function PackedRest(packedAlign: Option<Align>, tail: string): string {
    match packedAlign
    case Some(p) => NatToString(p) + (", tail=(" + (tail + ")"))
    case None => tail + ")"
  }

  lemma {:induction false} PackedSplit(packedAlign: Option<Align>, tail: string)
    ensures PackedText(packedAlign) + (", tail=(" + (tail + ")"))
         == PackedOpening(packedAlign) + PackedRest(packedAlign, tail)
  {
    if packedAlign.None? {
      assert PackedText(packedAlign) == "";
    }
  }

  lemma {:induction false} SameOpening(p: string, x: string, q: string, y: string)
    requires p == ", packed=" || p == ", tail=("
    requires q == ", packed=" || q == ", tail=("
    requires p + x == q + y
    ensures p == q
  {
    assert (p + x)[2] == p[2];
    assert (q + y)[2] == q[2];
  }

  // ------------------------------------------------- pointee information

  /** `text` when the marked property fails, nothing when it holds. */
  function Marker(holds: bool, text: string): string {
    if holds then "" else text
  }

  /** `pointee_info(`, the metadata kind and the layout: what precedes the markers. */
  function PointeeHead(pointee: PointeeInfo): string {
    "pointee_info(" + FmtMetaKind(LayoutMetaKind(pointee.layout)) + ", " + FmtLayoutStrategy(pointee.layout)
  }

  /** `head`, the markers of the properties that fail, and the closing parenthesis. */
  function WithMarkers(head: string, inhabited: bool, freeze: bool, unpin: bool): string {
    head + Marker(inhabited, ", uninhabited") + Marker(freeze, ", !Freeze") + Marker(unpin, ", !Unpin") + ")"
  }

  function FmtPointeeInfo(pointee: PointeeInfo): string {
    WithMarkers(PointeeHead(pointee), pointee.inhabited, IsFreezeOutside(pointee.unsafeCells), pointee.unpin)
  }

  /** A rendered pointee opens with `p`; its head closes the way a layout does. */
  lemma {:induction false} PointeeEnds(pointee: PointeeInfo)
    ensures var h := PointeeHead(pointee); |h| > 0 && h[0] == 'p' && LayoutEnd(h[|h| - 1])
    ensures var s := FmtPointeeInfo(pointee); |s| > 0 && s[0] == 'p' && s[|s| - 1] == ')'
  {
  }

  /**
   * Reads the three markers back from the end of a rendered pointee: drop the
   * closing parenthesis, then peel `, !Unpin`, `, !Freeze` and `, uninhabited`
   * in that order, each only if present. Answers (inhabited, freeze, unpin).
   */
  function ReadMarkers(s: string): (bool, bool, bool) {
    if |s| == 0 then (true, true, true) else
    var b0 := s[..|s| - 1];
    var unpin := !EndsWith(b0, ", !Unpin");
    var b1 := if unpin then b0 else b0[..|b0| - 8];
    var freeze := !EndsWith(b1, ", !Freeze");
    var b2 := if freeze then b1 else b1[..|b1| - 9];
    (!EndsWith(b2, ", uninhabited"), freeze, unpin)
  }

  /** Appending a marker that may be absent: it is found at the end exactly when present. */
  lemma {:induction false} PeelMarker(w: string, holds: bool, tag: string)
    requires |w| > 0 && |tag| > 0 && w[|w| - 1] != tag[|tag| - 1]
    ensures var v := w + Marker(holds, tag);
      && |v| > 0
      && (EndsWith(v, tag) <==> !holds)
      && (if holds then v == w else v[..|v| - |tag|] == w)
      && v[|v| - 1] == (if holds then w[|w| - 1] else tag[|tag| - 1])
  {
    var v := w + Marker(holds, tag);
    if holds {
      assert v == w;
    } else {
      assert v[|v| - |tag|..] == tag;
      assert v[..|v| - |tag|] == w;
    }
  }

  /** The `uninhabited`, `!Freeze` and `!Unpin` markers appear exactly when the property fails. */
  lemma {:induction false} PointeeMarkersReadBack(pointee: PointeeInfo)
    ensures ReadMarkers(FmtPointeeInfo(pointee))
         == (pointee.inhabited, IsFreezeOutside(pointee.unsafeCells), pointee.unpin)
  {
    PointeeEnds(pointee);
    MarkersReadBack(PointeeHead(pointee), pointee.inhabited, IsFreezeOutside(pointee.unsafeCells), pointee.unpin);
  }

  /** After a head that closes like a layout, the markers read back as the flags that wrote them. */
  lemma {:induction false} MarkersReadBack(x: string, inhabited: bool, freeze: bool, unpin: bool)
    requires |x| > 0 && LayoutEnd(x[|x| - 1])
    ensures ReadMarkers(WithMarkers(x, inhabited, freeze, unpin)) == (inhabited, freeze, unpin)
  {
    PeelMarker(x, inhabited, ", uninhabited");
    var w1 := x + Marker(inhabited, ", uninhabited");
    PeelMarker(w1, freeze, ", !Freeze");
    var w2 := w1 + Marker(freeze, ", !Freeze");
    PeelMarker(w2, unpin, ", !Unpin");
    var w3 := w2 + Marker(unpin, ", !Unpin");
    DropClose(w3);
  }

  lemma {:induction false} DropClose(w: string)
    ensures var s := w + ")"; |s| > 0 && s[..|s| - 1] == w
  {
    var s := w + ")";
    assert s[..|s| - 1] == w;
  }

  // ------------------------------------------------------------ pointers

  function FmtPtrType(ptr: PtrType): (r: FmtExpr)
    ensures r.NonAtomic? <==> ptr.Ref? || ptr.Raw?
  {
    match ptr
    case Ref(Mutable, pointee) => NonAtomic("&mut " + FmtPointeeInfo(pointee))
    case Ref(Immutable, pointee) => NonAtomic("&" + FmtPointeeInfo(pointee))
    case Box(pointee) => Atomic("Box<" + FmtPointeeInfo(pointee) + ">")
    case Raw(metaKind) => NonAtomic("*raw(" + FmtMetaKind(metaKind) + ")")
    case FnPtr => Atomic("fn()")
    case VTablePtr(_) => Atomic("{vtable}")
  }

  /** A shared and a mutable reference to the same pointee print differently, and the pointee can be read back. */
  lemma {:induction false} FmtRefInjective(a: PtrType, b: PtrType)
    requires a.Ref? && b.Ref?
    requires FmtPtrType(a) == FmtPtrType(b)
    ensures a.mutbl == b.mutbl
    ensures ReadMarkers(FmtPointeeInfo(a.pointee)) == ReadMarkers(FmtPointeeInfo(b.pointee))
  {
    var ka := if a.mutbl == Mutable then "&mut " else "&";
    var kb := if b.mutbl == Mutable then "&mut " else "&";
    PointeeEnds(a.pointee);
    PointeeEnds(b.pointee);
    SigilSplit(ka, FmtPointeeInfo(a.pointee), kb, FmtPointeeInfo(b.pointee));
  }

  /** `&mut ` or `&` in front of a text opening with `p`: the sigil and the text split one way only. */
  lemma {:induction false} SigilSplit(ka: string, ta: string, kb: string, tb: string)
    requires ka == "&mut " || ka == "&"
    requires kb == "&mut " || kb == "&"
    requires |ta| > 0 && ta[0] == 'p' && |tb| > 0 && tb[0] == 'p'
    requires ka + ta == kb + tb
    ensures ka == kb && ta == tb
  {
    assert (ka + ta)[1] == (if ka == "&mut " then 'm' else 'p');
    assert (kb + tb)[1] == (if kb == "&mut " then 'm' else 'p');
    PrefixCancel(ka, ta, tb);
  }

  // ------------------------------------------------ the composite-type table

  predicate NoDup(cs: seq<Type>) {
    forall j, k :: 0 <= j < k < |cs| ==> cs[j] != cs[k]
  }

  function Elems(cs: seq<Type>): set<Type> {
    set x | x in cs
  }

  /** The position of the first entry equal to `x`. */
  function FirstIndex(cs: seq<Type>, x: Type): (i: nat)
    requires x in cs
    ensures i < |cs| && cs[i] == x
    ensures forall j :: 0 <= j < i ==> cs[j] != x
  {
    if cs[0] == x then 0 else 1 + FirstIndex(cs[1..], x)
  }

  /** What `get_comptype_index` answers and leaves in the table. */
  function ComptypeIndex(ty: Type, cs: seq<Type>): (r: (nat, seq<Type>))
    ensures r.0 < |r.1| && r.1[r.0] == ty
  {
    if ty in cs then (FirstIndex(cs, ty), cs) else (|cs|, cs + [ty])
  }

  /**
   * Looks `ty` up in the table: its first position if present, otherwise the
   * old length after appending it.
   */
  method GetComptypeIndex(ty: Type, comptypes: seq<Type>) returns (idx: nat, comptypes': seq<Type>)
    ensures idx < |comptypes'| && comptypes'[idx] == ty
    ensures ty in comptypes ==> comptypes' == comptypes && forall j :: 0 <= j < idx ==> comptypes[j] != ty
    ensures ty !in comptypes ==> comptypes' == comptypes + [ty] && idx == |comptypes|
    ensures (idx, comptypes') == ComptypeIndex(ty, comptypes)
  {
    var k := 0;
    while k < |comptypes| && comptypes[k] != ty
      invariant k <= |comptypes|
      invariant forall j :: 0 <= j < k ==> comptypes[j] != ty
    {
      k := k + 1;
    }
    if k < |comptypes| {
      FirstIndexUnique(comptypes, ty, k);
      idx, comptypes' := k, comptypes;
    } else {
      idx, comptypes' := |comptypes|, comptypes + [ty];
    }
  }

  lemma {:induction false} FirstIndexUnique(cs: seq<Type>, x: Type, k: nat)
    requires k < |cs| && cs[k] == x
    requires forall j :: 0 <= j < k ==> cs[j] != x
    ensures FirstIndex(cs, x) == k
  {
  }

  /** The table only ever grows by one new entry: it stays duplicate-free. */
  lemma {:induction false} ComptypeIndexKeepsNoDup(ty: Type, cs: seq<Type>)
    requires NoDup(cs)
    ensures NoDup(ComptypeIndex(ty, cs).1)
    ensures |ComptypeIndex(ty, cs).1| <= |cs| + 1
  {
  }

  /** `T` followed by the index. */
  function FmtComptypeIndex(idx: nat): (s: string)
    ensures |s| >= 2 && s[0] == 'T'
    ensures AllDigits(s[1..]) && ParseNat(s[1..]) == idx
  {
    ParseNatToString(idx);
    assert ("T" + NatToString(idx))[1..] == NatToString(idx);
    "T" + NatToString(idx)
  }

  /**
   * `cs'` is `cs` followed by new entries, each absent from `cs`, distinct
   * from one another and drawn from `s`.
   */
  ghost predicate Extends(cs: seq<Type>, cs': seq<Type>, s: set<Type>) {
    && |cs| <= |cs'| && cs'[..|cs|] == cs
    && (forall j :: |cs| <= j < |cs'| ==> cs'[j] in s && cs'[j] !in cs)
    && (forall j, k :: |cs| <= j < k < |cs'| ==> cs'[j] != cs'[k])
  }

  lemma {:induction false} ExtendsRefl(cs: seq<Type>, s: set<Type>)
    ensures Extends(cs, cs, s)
  {
    assert cs[..|cs|] == cs;
  }

  lemma {:induction false} ExtendsTrans(a: seq<Type>, b: seq<Type>, c: seq<Type>, s: set<Type>, t: set<Type>)
    requires Extends(a, b, s) && Extends(b, c, t)
    ensures Extends(a, c, s + t)
  {
    assert c[..|a|] == b[..|a|];
    forall j | |a| <= j < |c|
      ensures c[j] in s + t && c[j] !in a
    {
      if j < |b| {
        assert c[j] == b[j];
      } else {
        assert c[j] !in b;
        assert forall x :: x in a ==> x in b;
      }
    }
    forall j, k | |a| <= j < k < |c|
      ensures c[j] != c[k]
    {
      if k < |b| {
        assert c[j] == b[j] && c[k] == b[k];
      } else if j < |b| {
        assert c[j] == b[j];
        assert c[k] !in b;
      }
    }
  }

  lemma {:induction false} ExtendsMono(a: seq<Type>, b: seq<Type>, s: set<Type>, t: set<Type>)
    requires Extends(a, b, s) && s <= t
    ensures Extends(a, b, t)
  {
  }

  lemma {:induction false} ExtendsKeepsNoDup(a: seq<Type>, b: seq<Type>, s: set<Type>)
    requires Extends(a, b, s) && NoDup(a)
    ensures NoDup(b)
  {
    forall j, k | 0 <= j < k < |b|
      ensures b[j] != b[k]
    {
      if k < |a| {
        assert b[j] == a[j] && b[k] == a[k];
      } else if j < |a| {
        assert b[j] == a[j];
      }
    }
  }

  /** New entries are distinct and drawn from `s`, so there are at most `|s|` of them. */
  lemma {:induction false} ExtendsBound(a: seq<Type>, b: seq<Type>, s: set<Type>)
    requires Extends(a, b, s)
    ensures |b| <= |a| + |s|
    decreases |b|
  {
    if |b| > |a| {
      var x := b[|b| - 1];
      var b' := b[..|b| - 1];
      assert Extends(a, b', s - {x}) by {
        forall j | |a| <= j < |b'|
          ensures b'[j] != x
        {
          assert b[j] != b[|b| - 1];
        }
      }
      ExtendsBound(a, b', s - {x});
    }
  }

  // ----------------------------------------------------------- fmt_type

  /** The composite types `fmt_type` names (and may add) for `t`: `t` itself, or those under an array or slice. */
  ghost function Shallow(t: Type): set<Type> {
    if IsComposite(t) then {t}
    else match t
      case Array(elem, _) => Shallow(elem)
      case Slice(elem) => Shallow(elem)
      case _ => {}
  }

  /**
   * Renders a type against the composite-type table: a composite becomes
   * `T<i>`, with `i` its table position (adding it when new).
   */
  function FmtType(t: Type, cs: seq<Type>): (r: (FmtExpr, seq<Type>))
    ensures r.0.NonAtomic? ==> t.Ptr?
  {
    match t
    case Int(it) => (Atomic(FmtIntType(it)), cs)
    case Ptr(p) => (FmtPtrType(p), cs)
    case Bool => (Atomic("bool"), cs)
    case Tuple(_, _, _) | Union(_, _, _, _) | Enum(_, _, _, _, _) =>
      var (idx, cs') := ComptypeIndex(t, cs);
      (Atomic(FmtComptypeIndex(idx)), cs')
    case Array(elem, count) =>
      var (e, cs') := FmtType(elem, cs);
      (Atomic("[" + e.text + "; " + IntToString(count) + "]"), cs')
    case Slice(elem) =>
      var (e, cs') := FmtType(elem, cs);
      (Atomic("[" + e.text + "]"), cs')
    case TraitObject(name) => (Atomic("dyn " + name), cs)
  }

  /**
   * Rendering a type adds to the table only the composite types it names,
   * each at most once, and leaves every one of them in the table.
   */
  lemma {:induction false} FmtTypeExtends(t: Type, cs: seq<Type>)
    ensures var cs' := FmtType(t, cs).1; Extends(cs, cs', Shallow(t)) && Shallow(t) <= Elems(cs')
    decreases t
  {
    if IsComposite(t) {
      assert FmtType(t, cs).1 == ComptypeIndex(t, cs).1;
    } else if t.Array? || t.Slice? {
      FmtTypeExtends(t.elem, cs);
      assert FmtType(t, cs).1 == FmtType(t.elem, cs).1;
    } else {
      ExtendsRefl(cs, Shallow(t));
    }
  }

  /** A composite is printed as `T` and the position of its first table entry. */
  lemma {:induction false} FmtTypeNamesEntry(t: Type, cs: seq<Type>)
    requires IsComposite(t)
    ensures var (e, cs') := FmtType(t, cs);
      && e.Atomic? && e.text[0] == 'T' && AllDigits(e.text[1..])
      && t in cs' && ParseNat(e.text[1..]) == FirstIndex(cs', t)
  {
    if t !in cs {
      FirstIndexUnique(cs + [t], t, |cs|);
    }
  }

  /**
   * Printing a type again against any later table (one that starts with the
   * table the first printing left) gives the same text and adds nothing: a
   * name, once given, keeps its meaning while the table grows.
   */
  lemma {:induction false} FmtTypeStable(t: Type, cs: seq<Type>, later: seq<Type>)
    requires var cs' := FmtType(t, cs).1; |cs'| <= |later| && later[..|cs'|] == cs'
    ensures FmtType(t, later) == (FmtType(t, cs).0, later)
    decreases t
  {
    if IsComposite(t) {
      CompositeStable(t, cs, later);
    } else if t.Array? || t.Slice? {
      FmtTypeStable(t.elem, cs, later);
    } else {
      assert FmtType(t, cs).1 == cs;
    }
  }

  lemma {:induction false} CompositeStable(t: Type, cs: seq<Type>, later: seq<Type>)
    requires IsComposite(t)
    requires var cs' := ComptypeIndex(t, cs).1; |cs'| <= |later| && later[..|cs'|] == cs'
    ensures ComptypeIndex(t, later) == (ComptypeIndex(t, cs).0, later)
  {
    var cs' := ComptypeIndex(t, cs).1;
    var i := ComptypeIndex(t, cs).0;
    if t !in cs {
      FirstIndexUnique(cs + [t], t, |cs|);
    }
    assert i == FirstIndex(cs', t);
    assert later[i] == cs'[i];
    assert forall j :: 0 <= j < i ==> later[j] == cs'[j];
    FirstIndexUnique(later, t, i);
  }

  // --------------------------------------------- fmt_comptype, fmt_comptypes

  ghost function FieldsRefs(fields: seq<(Offset, Type)>): set<Type> {
    set i, x | 0 <= i < |fields| && x in Shallow(fields[i].1) :: x
  }

  ghost function VariantsRefs(variants: seq<(int, Variant)>): set<Type> {
    set i, x | 0 <= i < |variants| && x in Shallow(variants[i].1.ty) :: x
  }

  /** The composite types the block printed for `t` names: those `fmt_type` meets in its fields. */
  ghost function Refs(t: Type): set<Type> {
    match t
    case Tuple(fields, _, unsizedField) =>
      FieldsRefs(fields) + (if unsizedField.Some? then Shallow(unsizedField.value) else {})
    case Union(fields, _, _, _) => FieldsRefs(fields)
    case Enum(variants, _, _, _, _) => VariantsRefs(variants)
    case _ => {}
  }

  /** Every composite type nested anywhere in `t`, `t` included. */
  ghost function Deep(t: Type): set<Type>
    decreases t
  {
    (if IsComposite(t) then {t} else {}) +
    match t
    case Tuple(fields, _, unsizedField) =>
      (set i, x | 0 <= i < |fields| && x in Deep(fields[i].1) :: x)
        + (if unsizedField.Some? then Deep(unsizedField.value) else {})
    case Union(fields, _, _, _) =>
      set i, x | 0 <= i < |fields| && x in Deep(fields[i].1) :: x
    case Enum(variants, _, _, _, _) =>
      set i, x | 0 <= i < |variants| && x in Deep(variants[i].1.ty) :: x
    case Array(elem, _) => Deep(elem)
    case Slice(elem) => Deep(elem)
    case _ => {}
  }

  lemma {:induction false} ShallowInDeep(t: Type)
    ensures Shallow(t) <= Deep(t)
    decreases t
  {
    if !IsComposite(t) && (t.Array? || t.Slice?) {
      ShallowInDeep(t.elem);
    }
  }

  lemma {:induction false} RefsInDeep(t: Type)
    ensures Refs(t) <= Deep(t)
  {
    match t
    case Tuple(fields, _, unsizedField) =>
      forall x | x in FieldsRefs(fields)
        ensures x in Deep(t)
      {
        var i :| 0 <= i < |fields| && x in Shallow(fields[i].1);
        ShallowInDeep(fields[i].1);
      }
      if unsizedField.Some? {
        ShallowInDeep(unsizedField.value);
      }
    case Union(fields, _, _, _) =>
      forall x | x in FieldsRefs(fields)
        ensures x in Deep(t)
      {
        var i :| 0 <= i < |fields| && x in Shallow(fields[i].1);
        ShallowInDeep(fields[i].1);
      }
    case Enum(variants, _, _, _, _) =>
      forall x | x in VariantsRefs(variants)
        ensures x in Deep(t)
      {
        var i :| 0 <= i < |variants| && x in Shallow(variants[i].1.ty);
        ShallowInDeep(variants[i].1.ty);
      }
    case _ =>
  }

  /** What is nested in something nested in `t` is nested in `t`. */
  lemma {:induction false} DeepTrans(t: Type, x: Type)
    requires x in Deep(t)
    ensures Deep(x) <= Deep(t)
    decreases t
  {
    if x != t {
      match t
      case Tuple(fields, _, unsizedField) =>
        if i :| 0 <= i < |fields| && x in Deep(fields[i].1) {
          DeepTrans(fields[i].1, x);
        } else {
          DeepTrans(unsizedField.value, x);
        }
      case Union(fields, _, _, _) =>
        var i :| 0 <= i < |fields| && x in Deep(fields[i].1);
        DeepTrans(fields[i].1, x);
      case Enum(variants, _, _, _, _) =>
        var i :| 0 <= i < |variants| && x in Deep(variants[i].1.ty);
        DeepTrans(variants[i].1.ty, x);
      case Array(elem, _) =>
        DeepTrans(elem, x);
      case Slice(elem) =>
        DeepTrans(elem, x);
    }
  }

  /** The entries of a table and every composite type nested in them: a finite bound on what the table can grow to. */
  ghost function Closure(cs: seq<Type>): set<Type> {
    Elems(cs) + (set i, x | 0 <= i < |cs| && x in Deep(cs[i]) :: x)
  }

  lemma {:induction false} ClosureClosed(cs: seq<Type>, y: Type)
    requires y in Closure(cs)
    ensures Refs(y) <= Closure(cs)
  {
    RefsInDeep(y);
    if y !in cs {
      var i :| 0 <= i < |cs| && y in Deep(cs[i]);
      DeepTrans(cs[i], y);
    }
  }

  lemma {:induction false} ExtendsElems(a: seq<Type>, b: seq<Type>, s: set<Type>)
    requires Extends(a, b, s)
    ensures Elems(a) <= Elems(b)
  {
    forall x | x in Elems(a)
      ensures x in Elems(b)
    {
      var j :| 0 <= j < |a| && a[j] == x;
      assert b[j] == x;
    }
  }

  function FieldLine(offset: Offset, ty: string): string {
    "  at byte " + NatToString(offset) + ": " + ty + ",\n"
  }

  /** The lines `fmt_comptype_fields` prints for `fields`, and the table they leave. */
  function FieldsText(fields: seq<(Offset, Type)>, cs: seq<Type>): (r: (string, seq<Type>))
    ensures Extends(cs, r.1, FieldsRefs(fields)) && FieldsRefs(fields) <= Elems(r.1)
    decreases |fields|
  {
    if |fields| == 0 then ("", cs)
    else
      var last := fields[|fields| - 1];
      var (s, c1) := FieldsText(fields[..|fields| - 1], cs);
      var (e, c2) := FmtType(last.1, c1);
      FmtTypeExtends(last.1, c1);
      FieldsRefsSnoc(fields);
      ExtendsTrans(cs, c1, c2, FieldsRefs(fields[..|fields| - 1]), Shallow(last.1));
      ExtendsElems(c1, c2, Shallow(last.1));
      (s + FieldLine(last.0, e.text), c2)
  }

  lemma {:induction false} FieldsRefsSnoc(fields: seq<(Offset, Type)>)
    requires |fields| > 0
    ensures FieldsRefs(fields) == FieldsRefs(fields[..|fields| - 1]) + Shallow(fields[|fields| - 1].1)
  {
    var init := fields[..|fields| - 1];
    forall x | x in FieldsRefs(fields)
      ensures x in FieldsRefs(init) + Shallow(fields[|fields| - 1].1)
    {
      var i :| 0 <= i < |fields| && x in Shallow(fields[i].1);
      if i < |init| {
        assert init[i] == fields[i];
      }
    }
    forall x | x in FieldsRefs(init)
      ensures x in FieldsRefs(fields)
    {
      var i :| 0 <= i < |init| && x in Shallow(init[i].1);
      assert fields[i] == init[i];
    }
  }

  function VariantLine(discriminant: int, ty: string): string {
    "  Variant " + IntToString(discriminant) + ": " + ty + "\n"
  }

  /** The lines the variant loop of `fmt_comptype` prints, and the table they leave. */
  function VariantsText(variants: seq<(int, Variant)>, cs: seq<Type>): (r: (string, seq<Type>))
    ensures Extends(cs, r.1, VariantsRefs(variants)) && VariantsRefs(variants) <= Elems(r.1)
    decreases |variants|
  {
    if |variants| == 0 then ("", cs)
    else
      var last := variants[|variants| - 1];
      var (s, c1) := VariantsText(variants[..|variants| - 1], cs);
      var (e, c2) := FmtType(last.1.ty, c1);
      FmtTypeExtends(last.1.ty, c1);
      VariantsRefsSnoc(variants);
      ExtendsTrans(cs, c1, c2, VariantsRefs(variants[..|variants| - 1]), Shallow(last.1.ty));
      ExtendsElems(c1, c2, Shallow(last.1.ty));
      (s + VariantLine(last.0, e.text), c2)
  }

  lemma {:induction false} VariantsRefsSnoc(variants: seq<(int, Variant)>)
    requires |variants| > 0
    ensures VariantsRefs(variants) == VariantsRefs(variants[..|variants| - 1]) + Shallow(variants[|variants| - 1].1.ty)
  {
    var init := variants[..|variants| - 1];
    forall x | x in VariantsRefs(variants)
      ensures x in VariantsRefs(init) + Shallow(variants[|variants| - 1].1.ty)
    {
      var i :| 0 <= i < |variants| && x in Shallow(variants[i].1.ty);
      if i < |init| {
        assert init[i] == variants[i];
      }
    }
    forall x | x in VariantsRefs(init)
      ensures x in VariantsRefs(variants)
    {
      var i :| 0 <= i < |init| && x in Shallow(init[i].1.ty);
      assert variants[i] == init[i];
    }
  }

  function ChunkLine(chunk: (Offset, Size)): string {
    "  chunk(at=" + NatToString(chunk.0) + ", size=" + NatToString(chunk.1) + "),\n"
  }

  /** The lines `fmt_comptype_chunks` prints: one per chunk, in order. */
  function ChunksText(chunks: seq<(Offset, Size)>): string
    decreases |chunks|
  {
    if |chunks| == 0 then "" else ChunksText(chunks[..|chunks| - 1]) + ChunkLine(chunks[|chunks| - 1])
  }

  lemma {:induction false} AppendAssoc(x: string, y: string, z: string)
    ensures (x + y) + z == x + (y + z)
  {
  }

  lemma {:induction false} AppendEmpty(x: string)
    ensures x + "" == x
  {
  }

  /** Chunk lines of a list are those of its parts, one after the other. */
  lemma {:induction false} ChunksTextAppend(a: seq<(Offset, Size)>, b: seq<(Offset, Size)>)
    ensures ChunksText(a + b) == ChunksText(a) + ChunksText(b)
    decreases |b|
  {
    if |b| == 0 {
      assert a + b == a;
      AppendEmpty(ChunksText(a));
    } else {
      var b', c := b[..|b| - 1], b[|b| - 1];
      assert (a + b)[..|a + b| - 1] == a + b';
      assert (a + b)[|a + b| - 1] == c;
      ChunksTextAppend(a, b');
      AppendAssoc(ChunksText(a), ChunksText(b'), ChunkLine(c));
    }
  }

  function Keyword(t: Type): string
    requires IsComposite(t)
  {
    match t
    case Tuple(_, _, _) => "tuple"
    case Union(_, _, _, _) => "union"
    case Enum(_, _, _, _, _) => "enum"
  }

  /** `tuple T3 (size=8, align=4) {` and a line break: the first line of a block. */
  function ComptypeHeader(i: nat, t: Type): string
    requires IsComposite(t)
  {
    Keyword(t) + " " + FmtComptypeIndex(i) + " (" + FmtLayoutStrategy(Layout(t)) + ") {\n"
  }

  /** The lines between the header and the closing brace, and the table they leave. */
  function ComptypeBody(t: Type, cs: seq<Type>): (r: (string, seq<Type>))
    requires IsComposite(t)
    ensures Extends(cs, r.1, Refs(t)) && Refs(t) <= Elems(r.1)
  {
    match t
    case Tuple(fields, _, unsizedField) =>
      var (s, c1) := FieldsText(fields, cs);
      if unsizedField.None? then (s, c1)
      else
        var (e, c2) := FmtType(unsizedField.value, c1);
        FmtTypeExtends(unsizedField.value, c1);
        ExtendsTrans(cs, c1, c2, FieldsRefs(fields), Shallow(unsizedField.value));
        ExtendsElems(c1, c2, Shallow(unsizedField.value));
        (s + "  tail: " + e.text + ",\n", c2)
    case Union(fields, _, _, chunks) =>
      var (s, c1) := FieldsText(fields, cs);
      (s + ChunksText(chunks), c1)
    case Enum(variants, _, discriminantTy, _, _) =>
      var (s, c1) := VariantsText(variants, cs);
      ("  Discriminant: " + FmtIntType(discriminantTy) + "\n" + s, c1)
  }

  /**
   * The block `fmt_comptype` prints for table entry `i` holding `t`, and the
   * table it leaves; None where the source panics (not a composite type).
   */
  function ComptypeText(i: nat, t: Type, cs: seq<Type>): (r: Option<(string, seq<Type>)>)
    ensures r.Some? <==> IsComposite(t)
    ensures r.Some? ==> Extends(cs, r.value.1, Refs(t)) && Refs(t) <= Elems(r.value.1)
  {
    if !IsComposite(t) then None
    else
      var (body, cs') := ComptypeBody(t, cs);
      Some((ComptypeHeader(i, t) + body + "}\n\n", cs'))
  }

  /** One line per field, in order, naming the field's type against the growing table. */
  method FmtComptypeFields(fields: seq<(Offset, Type)>, comptypes: seq<Type>) returns (s: string, comptypes': seq<Type>)
    ensures (s, comptypes') == FieldsText(fields, comptypes)
  {
    s, comptypes' := "", comptypes;
    for k := 0 to |fields|
      invariant (s, comptypes') == FieldsText(fields[..k], comptypes)
    {
      assert fields[..k + 1][..k] == fields[..k];
      var (e, c) := FmtType(fields[k].1, comptypes');
      s := s + FieldLine(fields[k].0, e.text);
      comptypes' := c;
    }
    assert fields[..|fields|] == fields;
  }

  method FmtComptypeChunks(chunks: seq<(Offset, Size)>) returns (s: string)
    ensures s == ChunksText(chunks)
  {
    s := "";
    for k := 0 to |chunks|
      invariant s == ChunksText(chunks[..k])
    {
      assert chunks[..k + 1][..k] == chunks[..k];
      s := s + ChunkLine(chunks[k]);
    }
    assert chunks[..|chunks|] == chunks;
  }

  /** The variant loop of `fmt_comptype`: one line per variant, in order, against the growing table. */
  method FmtComptypeVariants(variants: seq<(int, Variant)>, comptypes: seq<Type>) returns (s: string, comptypes': seq<Type>)
    ensures (s, comptypes') == VariantsText(variants, comptypes)
  {
    s, comptypes' := "", comptypes;
    for k := 0 to |variants|
      invariant (s, comptypes') == VariantsText(variants[..k], comptypes)
    {
      assert variants[..k + 1][..k] == variants[..k];
      var (e, c) := FmtType(variants[k].1.ty, comptypes');
      s := s + VariantLine(variants[k].0, e.text);
      comptypes' := c;
    }
    assert variants[..|variants|] == variants;
  }

  /**
   * Prints the block of table entry `i`, holding `t`: a header, the fields
   * (and the tail, the chunks or the variants), then a closing brace. None
   * where the source panics, on a type that is not a tuple, union or enum.
   */
  method FmtComptype(i: nat, t: Type, comptypes: seq<Type>) returns (r: Option<string>, comptypes': seq<Type>)
    ensures r.None? <==> !IsComposite(t)
    ensures r.None? ==> comptypes' == comptypes
    ensures r.Some? ==> ComptypeText(i, t, comptypes) == Some((r.value, comptypes'))
  {
    if !IsComposite(t) {
      return None, comptypes;
    }
    var header := ComptypeHeader(i, t);
    var body: string;
    match t {
      case Tuple(fields, _, unsizedField) =>
        body, comptypes' := FmtComptypeFields(fields, comptypes);
        if unsizedField.Some? {
          var (e, c) := FmtType(unsizedField.value, comptypes');
          body := body + "  tail: " + e.text + ",\n";
          comptypes' := c;
        }
      case Union(fields, _, _, chunks) =>
        body, comptypes' := FmtComptypeFields(fields, comptypes);
        var c := FmtComptypeChunks(chunks);
        body := body + c;
      case Enum(variants, _, discriminantTy, _, _) =>
        var lines;
        lines, comptypes' := FmtComptypeVariants(variants, comptypes);
        body := "  Discriminant: " + FmtIntType(discriminantTy) + "\n" + lines;
    }
    assert (body, comptypes') == ComptypeBody(t, comptypes);
    r := Some(header + body + "}\n\n");
  }

  /** `prefix` in front of a text that may be missing (after a panic). */
  function Prepend(prefix: string, rest: Option<string>): Option<string> {
    if rest.Some? then Some(prefix + rest.value) else None
  }

  /** Printing entry `i` keeps the table inside the closure of the first table, so it stays bounded. */
  lemma {:induction false} ComptypesStep(i: nat, cs: seq<Type>, cs0: seq<Type>)
    requires i < |cs| && Extends(cs0, cs, Closure(cs0)) && IsComposite(cs[i])
    ensures var cs' := ComptypeText(i, cs[i], cs).value.1;
      Extends(cs0, cs', Closure(cs0)) && i < |cs'| <= |cs0| + |Closure(cs0)|
  {
    var k := Closure(cs0);
    var cs' := ComptypeText(i, cs[i], cs).value.1;
    if i < |cs0| {
      assert cs[i] == cs0[i];
    }
    ClosureClosed(cs0, cs[i]);
    ExtendsTrans(cs0, cs, cs', k, Refs(cs[i]));
    assert k + Refs(cs[i]) == k;
    ExtendsBound(cs0, cs', k);
  }

  /**
   * What the loop of `fmt_comptypes` prints from index `i` on, with the table
   * `cs`, and the table it ends with: entry `i`, then `i + 1` against the table
   * that printing entry `i` left, and so on until the index reaches the end of
   * the table as it then is. The loop ends because every entry added is a
   * composite type nested in the first table, and none is added twice.
   */
  ghost function ComptypesFrom(i: nat, cs: seq<Type>, cs0: seq<Type>): (Option<string>, seq<Type>)
    requires i <= |cs| && Extends(cs0, cs, Closure(cs0))
    decreases |cs0| + |Closure(cs0)| - i
  {
    if i == |cs| then (Some(""), cs)
    else
      match ComptypeText(i, cs[i], cs)
      case None => (None, cs)
      case Some((s, cs')) =>
        ComptypesStep(i, cs, cs0);
        var (rest, last) := ComptypesFrom(i + 1, cs', cs0);
        (Prepend(s, rest), last)
  }

  /**
   * One round of the loop: a non-composite entry `i` stops the printing, a
   * composite one moves its block from what is left to print onto what is
   * printed, with the table it leaves.
   */
  lemma {:induction false} ComptypesFromEntry(out: string, i: nat, cs: seq<Type>, cs0: seq<Type>, s: string, cs': seq<Type>)
    requires i < |cs| && Extends(cs0, cs, Closure(cs0))
    requires ComptypeText(i, cs[i], cs) == Some((s, cs'))
    ensures Extends(cs0, cs', Closure(cs0)) && i < |cs'| <= |cs0| + |Closure(cs0)|
    ensures Prepend(out, ComptypesFrom(i, cs, cs0).0) == Prepend(out + s, ComptypesFrom(i + 1, cs', cs0).0)
  {
    ComptypesStep(i, cs, cs0);
    PrependTwice(out, s, ComptypesFrom(i + 1, cs', cs0).0);
  }

  /** A non-composite entry stops the printing. */
  lemma {:induction false} ComptypesFromStop(out: string, i: nat, cs: seq<Type>, cs0: seq<Type>)
    requires i < |cs| && Extends(cs0, cs, Closure(cs0)) && !IsComposite(cs[i])
    ensures Prepend(out, ComptypesFrom(i, cs, cs0).0) == None
  {
  }

  lemma {:induction false} PrependTwice(a: string, b: string, rest: Option<string>)
    ensures Prepend(a, Prepend(b, rest)) == Prepend(a + b, rest)
  {
    if rest.Some? {
      assert a + (b + rest.value) == (a + b) + rest.value;
    }
  }

  lemma {:induction false} PrependEmpty(rest: Option<string>)
    ensures Prepend("", rest) == rest
  {
    if rest.Some? {
      assert "" + rest.value == rest.value;
    }
  }

  /** One round of the loop of `fmt_comptypes`: the block of entry `i` added to `out`. */
  method FmtComptypesEntry(out: string, i: nat, cs: seq<Type>, ghost cs0: seq<Type>) returns (r: Option<string>, cs': seq<Type>)
    requires i < |cs| && Extends(cs0, cs, Closure(cs0))
    ensures r.None? ==> Prepend(out, ComptypesFrom(i, cs, cs0).0) == None
    ensures r.Some? ==>
      && Extends(cs0, cs', Closure(cs0)) && i < |cs'| <= |cs0| + |Closure(cs0)|
      && Prepend(out, ComptypesFrom(i, cs, cs0).0) == Prepend(r.value, ComptypesFrom(i + 1, cs', cs0).0)
  {
    var s;
    s, cs' := FmtComptype(i, cs[i], cs);
    if s.None? {
      ComptypesFromStop(out, i, cs, cs0);
      return None, cs';
    }
    ComptypesFromEntry(out, i, cs, cs0, s.value, cs');
    r := Some(out + s.value);
  }

  /** Prints the block of every table entry, the ones added while printing included. */
  method FmtComptypes(comptypes: seq<Type>) returns (r: Option<string>)
    ensures r == ComptypesFrom(0, comptypes, comptypes).0
  {
    ghost var k := Closure(comptypes);
    var cs := comptypes;
    var out := "";
    var i := 0;
    ExtendsRefl(comptypes, k);
    ghost var all := ComptypesFrom(0, comptypes, comptypes).0;
    PrependEmpty(all);
    while i < |cs|
      invariant i <= |cs| && Extends(comptypes, cs, k)
      invariant all == Prepend(out, ComptypesFrom(i, cs, comptypes).0)
      decreases |comptypes| + |k| - i
    {
      var next, cs' := FmtComptypesEntry(out, i, cs, comptypes);
      if next.None? {
        return None;
      }
      out := next.value;
      cs := cs';
      i := i + 1;
    }
    AppendEmpty(out);
    r := Some(out);
  }
}
