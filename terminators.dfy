/**
 * The free terminator constructors of `build/terminator.rs`: pure value
 * builders, used directly to write blocks by hand and by `FunctionBuilder`.
 *
 * `unreachable()`, `return_()`, `resume_unwind()`, `start_unwind(..)` and
 * `stop_unwind(..)` are the `Terminator` constructors `Unreachable`, `Return`,
 * `ResumeUnwind`, `StartUnwind` and `StopUnwind` themselves.
 */
module Terminators {
  import opened Wrappers
  import opened Lang
  import opened TyBuild

  /** `unit_ptr()`: a thin raw pointer value (its address plays no part here). */
  function UnitPtr(): ValueExpr {
    Constant(RawVoidPtrTy())
  }

  /** `unit_place()`: a place of type `()`, behind a thin raw pointer. */
  function UnitPlace(): PlaceExpr {
    Deref(UnitPtr(), TupleTy([], 0, 1))
  }

  /** The operator argument of `atomic_fetch`. */
  datatype FetchBinOp = FetchAdd | FetchSub

  /**
   * The arguments of one of the single-successor intrinsic constructors
   * (`assume`, `print`, `eprint`, `allocate`, `deallocate`, `spawn`, `join`,
   * `raw_eq`, `atomic_store`, `atomic_load`, `atomic_fetch`,
   * `compare_exchange`, `expose_provenance`, `with_exposed_provenance`,
   * `lock_create`, `lock_acquire`, `lock_release`, `get_unwind_payload`).
   */
  datatype IntrinsicCall =
    | AssumeCall(condition: ValueExpr)
    | PrintCall(printed: ValueExpr)
    | EprintCall(printed: ValueExpr)
    | AllocateCall(size: ValueExpr, align: ValueExpr, retPlace: PlaceExpr)
    | DeallocateCall(ptr: ValueExpr, size: ValueExpr, align: ValueExpr)
    | SpawnCall(fnPtr: ValueExpr, dataPtr: ValueExpr, retPlace: PlaceExpr)
    | JoinCall(threadId: ValueExpr)
    | RawEqCall(retPlace: PlaceExpr, leftPtr: ValueExpr, rightPtr: ValueExpr)
    | AtomicStoreCall(ptr: ValueExpr, src: ValueExpr)
    | AtomicLoadCall(retPlace: PlaceExpr, ptr: ValueExpr)
    | AtomicFetchCall(binOp: FetchBinOp, retPlace: PlaceExpr, ptr: ValueExpr, other: ValueExpr)
    | CompareExchangeCall(retPlace: PlaceExpr, ptr: ValueExpr, current: ValueExpr, nextVal: ValueExpr)
    | ExposeProvenanceCall(retPlace: PlaceExpr, ptr: ValueExpr)
    | WithExposedProvenanceCall(retPlace: PlaceExpr, addr: ValueExpr)
    | LockCreateCall(retPlace: PlaceExpr)
    | LockAcquireCall(lockId: ValueExpr)
    | LockReleaseCall(lockId: ValueExpr)
    | GetUnwindPayloadCall(retPlace: PlaceExpr)

  /** How many value arguments each intrinsic takes. */
  function Arity(op: IntrinsicOp): nat {
    match op
    case Exit => 0
    case Abort => 0
    case AssumeOp => 1
    case PrintStdout => 1
    case PrintStderr => 1
    case Allocate => 2
    case Deallocate => 3
    case Spawn => 2
    case Join => 1
    case RawEq => 2
    case AtomicStore => 2
    case AtomicLoad => 1
    case AtomicFetchAndOp(_) => 2
    case AtomicCompareExchange => 3
    case PointerExposeProvenance => 1
    case PointerWithExposedProvenance => 1
    case Lock(lockOp) => if lockOp == Create then 0 else 1
    case GetUnwindPayload => 0
  }

  /** The intrinsics whose result is `()`: they write to `unit_place()`. */
  predicate ReturnsUnit(op: IntrinsicOp) {
    match op
    case Exit | Abort | AssumeOp | PrintStdout | PrintStderr | Deallocate | Join | AtomicStore => true
    case Lock(lockOp) => lockOp != Create
    case _ => false
  }

  /**
   * The terminator an intrinsic constructor builds: the intrinsic with its
   * arguments and return place, continuing in `next`.
   */
  function IntrinsicTerminator(c: IntrinsicCall, next: BbName): (t: Terminator)
    ensures t.Intrinsic? && t.nextBlock == Some(next)
    ensures t.intrinsic != Exit && t.intrinsic != Abort
  {
    match c
    case AssumeCall(v) => Intrinsic(AssumeOp, [v], UnitPlace(), Some(next))
    case PrintCall(a) => Intrinsic(PrintStdout, [a], UnitPlace(), Some(next))
    case EprintCall(a) => Intrinsic(PrintStderr, [a], UnitPlace(), Some(next))
    case AllocateCall(size, align, retPlace) => Intrinsic(Allocate, [size, align], retPlace, Some(next))
    case DeallocateCall(ptr, size, align) => Intrinsic(Deallocate, [ptr, size, align], UnitPlace(), Some(next))
    case SpawnCall(fnPtr, dataPtr, retPlace) => Intrinsic(Spawn, [fnPtr, dataPtr], retPlace, Some(next))
    case JoinCall(threadId) => Intrinsic(Join, [threadId], UnitPlace(), Some(next))
    case RawEqCall(retPlace, l, r) => Intrinsic(RawEq, [l, r], retPlace, Some(next))
    case AtomicStoreCall(ptr, src) => Intrinsic(AtomicStore, [ptr, src], UnitPlace(), Some(next))
    case AtomicLoadCall(retPlace, ptr) => Intrinsic(AtomicLoad, [ptr], retPlace, Some(next))
    case AtomicFetchCall(binOp, retPlace, ptr, other) =>
      Intrinsic(AtomicFetchAndOp(FetchOp(binOp)), [ptr, other], retPlace, Some(next))
    case CompareExchangeCall(retPlace, ptr, current, nextVal) =>
      Intrinsic(AtomicCompareExchange, [ptr, current, nextVal], retPlace, Some(next))
    case ExposeProvenanceCall(retPlace, ptr) => Intrinsic(PointerExposeProvenance, [ptr], retPlace, Some(next))
    case WithExposedProvenanceCall(retPlace, addr) =>
      Intrinsic(PointerWithExposedProvenance, [addr], retPlace, Some(next))
    case LockCreateCall(retPlace) => Intrinsic(Lock(Create), [], retPlace, Some(next))
    case LockAcquireCall(lockId) => Intrinsic(Lock(Acquire), [lockId], UnitPlace(), Some(next))
    case LockReleaseCall(lockId) => Intrinsic(Lock(Release), [lockId], UnitPlace(), Some(next))
    case GetUnwindPayloadCall(retPlace) => Intrinsic(GetUnwindPayload, [], retPlace, Some(next))
  }

  /**
   * Every intrinsic constructor passes as many arguments as its intrinsic
   * takes, and the ones whose result is `()` write it to `unit_place()`.
   */
  lemma IntrinsicTerminatorSignature(c: IntrinsicCall, next: BbName)
    ensures |IntrinsicTerminator(c, next).args| == Arity(IntrinsicTerminator(c, next).intrinsic)
    ensures ReturnsUnit(IntrinsicTerminator(c, next).intrinsic) ==> IntrinsicTerminator(c, next).ret == UnitPlace()
  {
    match c
    case AtomicFetchCall(binOp, _, _, _) =>
    case LockCreateCall(_) =>
    case LockAcquireCall(_) =>
    case LockReleaseCall(_) =>
    case _ =>
  }

  function FetchOp(binOp: FetchBinOp): (r: IntBinOp)
    ensures r == Add <==> binOp == FetchAdd
  {
    match binOp
    case FetchAdd => Add
    case FetchSub => Sub
  }

  /** `atomic_fetch` applies `Add` for `FetchAdd` and `Sub` for `FetchSub`, to `ptr` and `other`. */
  lemma AtomicFetchShape(binOp: FetchBinOp, retPlace: PlaceExpr, ptr: ValueExpr, other: ValueExpr, next: BbName)
    ensures IntrinsicTerminator(AtomicFetchCall(FetchAdd, retPlace, ptr, other), next).intrinsic == AtomicFetchAndOp(Add)
    ensures IntrinsicTerminator(AtomicFetchCall(FetchSub, retPlace, ptr, other), next).intrinsic == AtomicFetchAndOp(Sub)
    ensures IntrinsicTerminator(AtomicFetchCall(binOp, retPlace, ptr, other), next).args == [ptr, other]
    ensures IntrinsicTerminator(AtomicFetchCall(binOp, retPlace, ptr, other), next).ret == retPlace
  {
  }

  /** `exit()`: ends the program; no arguments and no next block. */
  function ExitTerminator(): (t: Terminator)
    ensures t.Intrinsic? && t.intrinsic == Exit && t.args == [] && t.nextBlock == None
  {
    Intrinsic(Exit, [], UnitPlace(), None)
  }

  /** `abort()`: aborts the program; no arguments and no next block. */
  function AbortTerminator(): (t: Terminator)
    ensures t.Intrinsic? && t.intrinsic == Abort && t.args == [] && t.nextBlock == None
  {
    Intrinsic(Abort, [], UnitPlace(), None)
  }

  /** `goto(x)`. */
  function GotoTerminator(x: BbName): (t: Terminator)
    ensures t.Goto? && t.target == x
  {
    Goto(x)
  }

  /** `if_`: a switch on the condition as `u8`, with the single case 1 and the else block as fallback. */
  function IfTerminator(condition: ValueExpr, thenBlk: BbName, elseBlk: BbName): (t: Terminator)
    ensures t.Switch? && t.value == BoolToInt(condition)
    ensures t.cases.Keys == {1} && t.cases[1] == thenBlk && t.fallback == elseBlk
  {
    Switch(BoolToInt(condition), map[1 := thenBlk], elseBlk)
  }

  /**
   * The map the `cases` slice collects into: each value to its successor, a
   * later pair replacing an earlier one with the same value.
   */
  function CasesMap(cases: seq<(int, BbName)>): (m: map<int, BbName>)
    ensures m.Keys == set i | 0 <= i < |cases| :: cases[i].0
  {
    if cases == [] then map[]
    else
      var front := cases[..|cases| - 1];
      assert forall i :: 0 <= i < |cases| - 1 ==> front[i] == cases[i];
      CasesMap(front)[cases[|cases| - 1].0 := cases[|cases| - 1].1]
  }

  /** A case pair whose value no later pair repeats survives the collection. */
  lemma {:induction false} CasesMapLastWins(cases: seq<(int, BbName)>, i: nat)
    requires i < |cases|
    requires forall j :: i < j < |cases| ==> cases[j].0 != cases[i].0
    ensures CasesMap(cases)[cases[i].0] == cases[i].1
  {
    if i < |cases| - 1 {
      var front := cases[..|cases| - 1];
      CasesMapLastWins(front, i);
    }
  }

  /** With distinct case values, `switch_int` keeps every case-successor pair. */
  predicate DistinctValues<V>(cases: seq<(int, V)>) {
    forall i, j :: 0 <= i < j < |cases| ==> cases[i].0 != cases[j].0
  }

  lemma CasesMapKeepsDistinct(cases: seq<(int, BbName)>)
    requires DistinctValues(cases)
    ensures forall i :: 0 <= i < |cases| ==> CasesMap(cases)[cases[i].0] == cases[i].1
  {
    forall i | 0 <= i < |cases|
      ensures CasesMap(cases)[cases[i].0] == cases[i].1
    {
      CasesMapLastWins(cases, i);
    }
  }

  /** `switch_int`: a switch on the value, falling back to `fallback`. */
  function SwitchIntTerminator(value: ValueExpr, cases: seq<(int, BbName)>, fallback: BbName): (t: Terminator)
    ensures t.Switch? && t.value == value && t.fallback == fallback
  {
    Switch(value, CasesMap(cases), fallback)
  }

  /**
   * The switch `switch_int` builds branches on exactly the case values, and,
   * when they are distinct, sends each one to its own successor.
   */
  lemma SwitchIntTerminatorCases(value: ValueExpr, cases: seq<(int, BbName)>, fallback: BbName)
    ensures SwitchIntTerminator(value, cases, fallback).cases.Keys == set i | 0 <= i < |cases| :: cases[i].0
    ensures DistinctValues(cases) ==>
              forall i :: 0 <= i < |cases| ==> SwitchIntTerminator(value, cases, fallback).cases[cases[i].0] == cases[i].1
  {
    if DistinctValues(cases) {
      CasesMapKeepsDistinct(cases);
    }
  }

  /** `call`: a C-convention call of function `f` that never unwinds. */
  function CallTerminator(f: FnName, args: seq<ArgumentExpr>, ret: PlaceExpr, next: Option<BbName>): (t: Terminator)
    ensures t.Call? && t.callee == FnPointer(f) && t.callingConvention == C
    ensures t.arguments == args && t.ret == ret && t.nextBlock == next && t.unwindBlock == None
  {
    Call(FnPointer(f), C, args, ret, next, None)
  }
}
