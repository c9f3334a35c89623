/**
 * The well-formedness rules the block and slice tests pin down, as one pure
 * check that returns the first violated rule's message.
 *
 * The checker itself is not part of this model; the rules, their messages and
 * their order are the ones the tests pin down, completed by MiniRust's
 * block-kind table (see `KindDiscipline`). Functions are visited in
 * ascending name order, and in each function the locals first, then the blocks
 * in ascending name order; in a block the statements come before the
 * terminator.
 */
module WellFormed {
  import opened Wrappers
  import opened Lang
  import opened NatSets

  const NextMissing := "Terminator: next block does not exist"
  const UnwindMissing := "Terminator: unwind block does not exist"
  const NextWrongKind := "Terminator: next block has the wrong block kind"
  const UnwindWrongKind := "Terminator: unwind block has the wrong block kind"
  const ReturnNotRegular := "Terminator::Return has to be called in a regular block"
  const StartUnwindNotRegular := "Terminator::StartUnwind has to be called in a regular block"
  const ResumeNotCleanup := "Terminator::ResumeUnwind: has to be called in cleanup block"
  const UnwindInCatch := "Terminator: unwinding is not allowed in a catch block"
  const CallReturnNotAllowed := "Terminator::Call: returning call has to be in a regular or catch block"
  const UnsizedLocal := "Function: unsized local variable"
  const UnsizedElement := "Type::Slice: unsized element type"
  const UnsizedLoad := "ValueExpr::Load: unsized value type"
  const UnsizedTransmute := "Cast::Transmute: unsized target type"
  const UnknownLocal := "PlaceExpr::Local: unknown local"
  const NotIndexable := "PlaceExpr::Index: indexed place is not an array or slice"

  /** Every message the check can return: one per rule. */
  const Messages: set<string> := {
    NextMissing, UnwindMissing, NextWrongKind, UnwindWrongKind, ReturnNotRegular, StartUnwindNotRegular,
    ResumeNotCleanup, UnwindInCatch, CallReturnNotAllowed, UnsizedLocal, UnsizedElement, UnsizedLoad, UnsizedTransmute,
    UnknownLocal, NotIndexable}

  /** Reports that a check failed with a known message. */
  predicate Reported(r: Result<(), string>) {
    r.Err? ==> r.error in Messages
  }

  // ---------------------------------------------------------- first error

  /** The first failure among `rs`, in order; Ok when none fails. */
  function FirstErr(rs: seq<Result<(), string>>): (r: Result<(), string>)
    ensures r.Ok? <==> forall i :: 0 <= i < |rs| ==> rs[i].Ok?
    ensures r.Err? ==> exists i :: 0 <= i < |rs| && rs[i] == r && forall j :: 0 <= j < i ==> rs[j].Ok?
  {
    if rs == [] then Ok(())
    else if rs[0].Err? then rs[0]
    else
      var r := FirstErr(rs[1..]);
      assert forall i :: 0 <= i < |rs| - 1 ==> rs[1..][i] == rs[i + 1];
      r
  }

  /** The first failure is the failure that only passing checks precede, whatever follows it. */
  lemma {:induction false} FirstErrAt(rs: seq<Result<(), string>>, k: nat)
    requires k < |rs| && rs[k].Err?
    requires forall i :: 0 <= i < k ==> rs[i].Ok?
    ensures FirstErr(rs) == rs[k]
  {
    if k > 0 {
      FirstErrAt(rs[1..], k - 1);
    }
  }

  /**
   * Checks visited in ascending name order: a failure names the check whose
   * name is the smallest among the failing ones.
   */
  lemma FirstErrByName(names: seq<nat>, rs: seq<Result<(), string>>) returns (k: nat)
    requires StrictlyIncreasing(names) && |rs| == |names| && FirstErr(rs).Err?
    ensures k < |rs| && rs[k] == FirstErr(rs)
    ensures forall j :: 0 <= j < |names| && names[j] < names[k] ==> rs[j].Ok?
  {
    k :| 0 <= k < |rs| && rs[k] == FirstErr(rs) && forall j :: 0 <= j < k ==> rs[j].Ok?;
    forall j | 0 <= j < |names| && names[j] < names[k] ensures rs[j].Ok? {
      SmallerComesFirst(names, j, k);
    }
  }

  // ---------------------------------------------------------------- types

  /** Every slice type inside `t` has a sized element type. */
  predicate SliceElementsSized(t: Type) {
    match t
    case Tuple(fields, _, unsizedField) =>
      (forall i :: 0 <= i < |fields| ==> SliceElementsSized(fields[i].1))
      && (unsizedField.Some? ==> SliceElementsSized(unsizedField.value))
    case Union(fields, _, _, _) => forall i :: 0 <= i < |fields| ==> SliceElementsSized(fields[i].1)
    case Enum(variants, _, _, _, _) => forall i :: 0 <= i < |variants| ==> SliceElementsSized(variants[i].1.ty)
    case Array(elem, _) => SliceElementsSized(elem)
    case Slice(elem) => SliceElementsSized(elem) && IsSized(elem)
    case _ => true
  }

  /** `Type::check_wf` as far as the tests go: the slice element rule, wherever a slice occurs. */
  function CheckType(t: Type): (r: Result<(), string>)
    ensures r.Ok? <==> SliceElementsSized(t)
    ensures r.Err? ==> r.error == UnsizedElement
  {
    if SliceElementsSized(t) then Ok(()) else Err(UnsizedElement)
  }

  /** A local must have a well-formed, sized type. */
  function CheckLocal(t: Type): (r: Result<(), string>)
    ensures r.Ok? <==> SliceElementsSized(t) && IsSized(t)
    ensures r.Err? ==> r.error == if SliceElementsSized(t) then UnsizedLocal else UnsizedElement
  {
    var _ :- CheckType(t);
    if IsSized(t) then Ok(()) else Err(UnsizedLocal)
  }

  // ------------------------------------------------------ values, places

  /** The type of a value expression, or the first rule it breaks. */
  function ValueType(locals: seq<Type>, v: ValueExpr): Result<Type, string>
    decreases v
  {
    match v
    case Constant(ty) =>
      var _ :- CheckType(ty);
      Ok(ty)
    case FnPointer(_) => Ok(Ptr(FnPtr))
    case Load(source) =>
      var ty :- PlaceType(locals, source);
      if IsSized(ty) then Ok(ty) else Err(UnsizedLoad)
    case Transmute(operand, target) =>
      var _ :- ValueType(locals, operand);
      var _ :- CheckType(target);
      if IsSized(target) then Ok(target) else Err(UnsizedTransmute)
    case BoolToInt(operand) =>
      var _ :- ValueType(locals, operand);
      Ok(Int(IntType(Unsigned, 1)))
  }

  /** The type of a place expression, or the first rule it breaks. */
  function PlaceType(locals: seq<Type>, p: PlaceExpr): Result<Type, string>
    decreases p
  {
    match p
    case Local(name) => if name < |locals| then Ok(locals[name]) else Err(UnknownLocal)
    case Deref(pointer, ty) =>
      var _ :- ValueType(locals, pointer);
      var _ :- CheckType(ty);
      Ok(ty)
    case Index(root, index) =>
      var rootTy :- PlaceType(locals, root);
      var _ :- ValueType(locals, index);
      (match rootTy
       case Array(elem, _) => Ok(elem)
       case Slice(elem) => Ok(elem)
       case _ => Err(NotIndexable))
  }

  /** Every value and place check fails with one of the rule messages. */
  lemma {:induction false} ValueTypeReported(locals: seq<Type>, v: ValueExpr)
    ensures ValueType(locals, v).Err? ==> ValueType(locals, v).error in Messages
    decreases v
  {
    match v
    case Constant(_) =>
    case FnPointer(_) =>
    case Load(source) => PlaceTypeReported(locals, source);
    case Transmute(operand, _) => ValueTypeReported(locals, operand);
    case BoolToInt(operand) => ValueTypeReported(locals, operand);
  }

  lemma {:induction false} PlaceTypeReported(locals: seq<Type>, p: PlaceExpr)
    ensures PlaceType(locals, p).Err? ==> PlaceType(locals, p).error in Messages
    decreases p
  {
    match p
    case Local(_) =>
    case Deref(pointer, _) => ValueTypeReported(locals, pointer);
    case Index(root, index) =>
      PlaceTypeReported(locals, root);
      ValueTypeReported(locals, index);
  }

  /** A value's check, forgetting its type. */
  function CheckValue(locals: seq<Type>, v: ValueExpr): (r: Result<(), string>)
    ensures r.Ok? <==> ValueType(locals, v).Ok?
    ensures r.Err? ==> r.error == ValueType(locals, v).error
  {
    var _ :- ValueType(locals, v);
    Ok(())
  }

  /** A place's check, forgetting its type. */
  function CheckPlace(locals: seq<Type>, p: PlaceExpr): (r: Result<(), string>)
    ensures r.Ok? <==> PlaceType(locals, p).Ok?
    ensures r.Err? ==> r.error == PlaceType(locals, p).error
  {
    var _ :- PlaceType(locals, p);
    Ok(())
  }

  function CheckArgument(locals: seq<Type>, a: ArgumentExpr): Result<(), string> {
    match a
    case ByValue(v) => CheckValue(locals, v)
    case InPlace(p) => CheckPlace(locals, p)
  }

  function CheckValues(locals: seq<Type>, vs: seq<ValueExpr>): Result<(), string> {
    FirstErr(seq(|vs|, i requires 0 <= i < |vs| => CheckValue(locals, vs[i])))
  }

  function CheckArguments(locals: seq<Type>, args: seq<ArgumentExpr>): Result<(), string> {
    FirstErr(seq(|args|, i requires 0 <= i < |args| => CheckArgument(locals, args[i])))
  }

  // ----------------------------------------------------------- statements

  function CheckStatement(locals: seq<Type>, s: Statement): Result<(), string> {
    match s
    case Assign(destination, src) =>
      var _ :- CheckPlace(locals, destination);
      CheckValue(locals, src)
    case StorageLive(_) => Ok(())
    case StorageDead(_) => Ok(())
    case Validate(validated, _) => CheckPlace(locals, validated)
  }

  // ---------------------------------------------------------- terminators

  /** A normal edge: the target exists and has the current block's kind. */
  function CheckNext(blocks: map<BbName, BasicBlock>, kind: BbKind, target: BbName): (r: Result<(), string>)
    ensures r.Ok? <==> target in blocks && blocks[target].kind == kind
    ensures r.Err? ==> r.error == if target in blocks then NextWrongKind else NextMissing
  {
    if target !in blocks then Err(NextMissing)
    else if blocks[target].kind != kind then Err(NextWrongKind)
    else Ok(())
  }

  /**
   * Where an unwind edge may lead from a block of kind `from`: out of a regular
   * block into a cleanup block or a catch block, out of a cleanup (or
   * terminate) block into a terminate block; never out of a catch block.
   */
  predicate UnwindTargetKind(from: BbKind, to: BbKind) {
    match from
    case Regular => to == Cleanup || to == Catch
    case Cleanup => to == Terminate
    case Terminate => to == Terminate
    case Catch => false
  }

  /** The kinds of block a call may return into normally: regular and catch blocks. */
  predicate ReturnKind(kind: BbKind) {
    kind == Regular || kind == Catch
  }

  /** A call's unwind edge: none from a catch block; otherwise the target exists and has an allowed kind. */
  function CheckUnwind(blocks: map<BbName, BasicBlock>, kind: BbKind, target: BbName): (r: Result<(), string>)
    ensures r.Ok? <==> kind != Catch && target in blocks && UnwindTargetKind(kind, blocks[target].kind)
    ensures r.Err? ==> r.error == if kind == Catch then UnwindInCatch else if target in blocks then UnwindWrongKind else UnwindMissing
  {
    if kind == Catch then Err(UnwindInCatch)
    else if target !in blocks then Err(UnwindMissing)
    else if !UnwindTargetKind(kind, blocks[target].kind) then Err(UnwindWrongKind)
    else Ok(())
  }

  /**
   * A switch's edges: a missing case target is reported before a case target
   * of the wrong kind, and both before the fallback.
   */
  function CheckSwitchTargets(blocks: map<BbName, BasicBlock>, kind: BbKind, cases: map<int, BbName>, fallback: BbName)
    : (r: Result<(), string>)
    ensures r.Ok? <==> (forall v :: v in cases ==> cases[v] in blocks && blocks[cases[v]].kind == kind)
                       && fallback in blocks && blocks[fallback].kind == kind
  {
    if exists v :: v in cases && cases[v] !in blocks then Err(NextMissing)
    else if exists v :: v in cases && blocks[cases[v]].kind != kind then Err(NextWrongKind)
    else CheckNext(blocks, kind, fallback)
  }

  function CheckOptionalNext(blocks: map<BbName, BasicBlock>, kind: BbKind, next: Option<BbName>): Result<(), string> {
    if next.Some? then CheckNext(blocks, kind, next.value) else Ok(())
  }

  /** The terminator of a block of kind `kind`, among `blocks`, with `locals` in scope. */
  function CheckTerminator(locals: seq<Type>, blocks: map<BbName, BasicBlock>, kind: BbKind, t: Terminator)
    : Result<(), string>
  {
    match t
    case Goto(target) => CheckNext(blocks, kind, target)
    case Switch(value, cases, fallback) =>
      var _ :- CheckValue(locals, value);
      CheckSwitchTargets(blocks, kind, cases, fallback)
    case Unreachable => Ok(())
    case Intrinsic(_, args, ret, nextBlock) =>
      var _ :- CheckValues(locals, args);
      var _ :- CheckPlace(locals, ret);
      CheckOptionalNext(blocks, kind, nextBlock)
    case Call(callee, _, arguments, ret, nextBlock, unwindBlock) =>
      var _ :- CheckValue(locals, callee);
      var _ :- CheckArguments(locals, arguments);
      var _ :- CheckPlace(locals, ret);
      var _ :- if nextBlock.Some? && !ReturnKind(kind) then Err(CallReturnNotAllowed) else Ok(());
      var _ :- CheckOptionalNext(blocks, kind, nextBlock);
      if unwindBlock.Some? then CheckUnwind(blocks, kind, unwindBlock.value) else Ok(())
    case Return => if kind == Regular then Ok(()) else Err(ReturnNotRegular)
    case StartUnwind(unwindPayload, cleanupBlock) =>
      if kind != Regular then Err(StartUnwindNotRegular)
      else
        var _ :- CheckValue(locals, unwindPayload);
        if cleanupBlock !in blocks then Err(UnwindMissing)
        else if blocks[cleanupBlock].kind != Cleanup then Err(UnwindWrongKind)
        else Ok(())
    case StopUnwind(next) =>
      if next !in blocks then Err(NextMissing)
      else if blocks[next].kind != Regular then Err(NextWrongKind)
      else Ok(())
    case ResumeUnwind => if kind == Cleanup then Ok(()) else Err(ResumeNotCleanup)
  }

  // ------------------------------------------------ blocks, functions, program

  function CheckBlock(f: Function, name: BbName): Result<(), string>
    requires name in f.blocks
  {
    var bb := f.blocks[name];
    var _ :- FirstErr(seq(|bb.statements|, i requires 0 <= i < |bb.statements| => CheckStatement(f.locals, bb.statements[i])));
    CheckTerminator(f.locals, f.blocks, bb.kind, bb.terminator)
  }

  function CheckLocals(f: Function): Result<(), string> {
    FirstErr(seq(|f.locals|, i requires 0 <= i < |f.locals| => CheckLocal(f.locals[i])))
  }

  function CheckBlocks(f: Function): Result<(), string> {
    var names := SortedElements(f.blocks.Keys);
    FirstErr(seq(|names|, i requires 0 <= i < |names| => CheckBlock(f, names[i])))
  }

  function CheckFunction(f: Function): Result<(), string> {
    var _ :- CheckLocals(f);
    CheckBlocks(f)
  }

  /** `check_wf`: the program's verdict, the first violated rule in visiting order. */
  function Check(p: Program): Result<(), string> {
    var names := SortedElements(p.functions.Keys);
    FirstErr(seq(|names|, i requires 0 <= i < |names| => CheckFunction(p.functions[names[i]])))
  }

  // ------------------------------------------------------ the kind table

  /** The normal successors, other than the switch cases, that must share the block's kind. */
  function SameKindSuccessors(t: Terminator): (r: set<BbName>)
    ensures t.Goto? ==> r == {t.target}
  {
    match t
    case Goto(target) => {target}
    case Switch(_, _, fallback) => {fallback}
    case Intrinsic(_, _, _, nextBlock) => if nextBlock.Some? then {nextBlock.value} else {}
    case Call(_, _, _, _, nextBlock, _) => if nextBlock.Some? then {nextBlock.value} else {}
    case _ => {}
  }

  /**
   * The block-kind discipline, rule by rule: normal successors keep the kind;
   * `StopUnwind` continues in a regular block; `Return` and `StartUnwind`
   * only in regular blocks, `ResumeUnwind` only in cleanup blocks;
   * `StartUnwind` unwinds into a cleanup block; a call with a normal return
   * edge sits in a regular or catch block; a call unwinds along an allowed
   * edge and never out of a catch block.
   */
  predicate KindDiscipline(blocks: map<BbName, BasicBlock>, kind: BbKind, t: Terminator) {
    (forall b :: b in SameKindSuccessors(t) ==> b in blocks && blocks[b].kind == kind)
    && (t.Switch? ==> forall v :: v in t.cases ==> t.cases[v] in blocks && blocks[t.cases[v]].kind == kind)
    && (t.StopUnwind? ==> t.stopNext in blocks && blocks[t.stopNext].kind == Regular)
    && (t.Return? ==> kind == Regular)
    && (t.ResumeUnwind? ==> kind == Cleanup)
    && (t.StartUnwind? ==> kind == Regular && t.cleanupBlock in blocks && blocks[t.cleanupBlock].kind == Cleanup)
    && (t.Call? && t.nextBlock.Some? ==> ReturnKind(kind))
    && (t.Call? && t.unwindBlock.Some? ==>
          kind != Catch && t.unwindBlock.value in blocks && UnwindTargetKind(kind, blocks[t.unwindBlock.value].kind))
  }

  /** Every value, argument and place a terminator carries passes its own checks. */
  predicate OperandsWellFormed(locals: seq<Type>, t: Terminator) {
    match t
    case Switch(value, _, _) => CheckValue(locals, value).Ok?
    case Intrinsic(_, args, ret, _) => CheckValues(locals, args).Ok? && CheckPlace(locals, ret).Ok?
    case Call(callee, _, arguments, ret, _, _) =>
      CheckValue(locals, callee).Ok? && CheckArguments(locals, arguments).Ok? && CheckPlace(locals, ret).Ok?
    case StartUnwind(unwindPayload, _) => CheckValue(locals, unwindPayload).Ok?
    case _ => true
  }

  /** A terminator passes exactly when its operands are well-formed and it keeps the kind discipline. */
  lemma CheckTerminatorMeaning(locals: seq<Type>, blocks: map<BbName, BasicBlock>, kind: BbKind, t: Terminator)
    ensures CheckTerminator(locals, blocks, kind, t).Ok? <==> OperandsWellFormed(locals, t) && KindDiscipline(blocks, kind, t)
  {
  }

  /**
   * A call's normal return edge: from a cleanup or terminate block it is
   * rejected whatever its target; from a regular or catch block it must lead
   * to an existing block of the same kind.
   */
  lemma CallReturnEdge(locals: seq<Type>, blocks: map<BbName, BasicBlock>, kind: BbKind, t: Terminator)
    requires t.Call? && t.nextBlock.Some? && t.unwindBlock.None? && OperandsWellFormed(locals, t)
    ensures !ReturnKind(kind) ==> CheckTerminator(locals, blocks, kind, t) == Err(CallReturnNotAllowed)
    ensures ReturnKind(kind) ==> CheckTerminator(locals, blocks, kind, t) == CheckNext(blocks, kind, t.nextBlock.value)
  {
  }

  // ----------------------------------------------------- what the check means

  /** The program passes exactly when every function does. */
  lemma CheckOkIffFunctionsOk(p: Program)
    ensures Check(p).Ok? <==> forall g :: g in p.functions ==> CheckFunction(p.functions[g]).Ok?
  {
    var names := SortedElements(p.functions.Keys);
    var rs := seq(|names|, i requires 0 <= i < |names| => CheckFunction(p.functions[names[i]]));
    assert Check(p) == FirstErr(rs);
    if Check(p).Ok? {
      forall g | g in p.functions ensures CheckFunction(p.functions[g]).Ok? {
        var i :| 0 <= i < |names| && names[i] == g;
        assert rs[i].Ok?;
      }
    }
  }

  lemma CheckLocalsOkIff(f: Function)
    ensures CheckLocals(f).Ok? <==> forall i :: 0 <= i < |f.locals| ==> CheckLocal(f.locals[i]).Ok?
  {
    var ls := seq(|f.locals|, i requires 0 <= i < |f.locals| => CheckLocal(f.locals[i]));
    assert CheckLocals(f) == FirstErr(ls);
    assert forall i :: 0 <= i < |f.locals| ==> ls[i] == CheckLocal(f.locals[i]);
  }

  lemma CheckBlocksOkIff(f: Function)
    ensures CheckBlocks(f).Ok? <==> forall b :: b in f.blocks ==> CheckBlock(f, b).Ok?
  {
    var names := SortedElements(f.blocks.Keys);
    var rs := seq(|names|, i requires 0 <= i < |names| => CheckBlock(f, names[i]));
    assert CheckBlocks(f) == FirstErr(rs);
    if CheckBlocks(f).Ok? {
      forall b | b in f.blocks ensures CheckBlock(f, b).Ok? {
        var i :| 0 <= i < |names| && names[i] == b;
        assert rs[i].Ok?;
      }
    }
  }

  /** A function passes exactly when every local and every block does. */
  lemma CheckFunctionOkIff(f: Function)
    ensures CheckFunction(f).Ok? <==>
              (forall i :: 0 <= i < |f.locals| ==> CheckLocal(f.locals[i]).Ok?)
              && forall b :: b in f.blocks ==> CheckBlock(f, b).Ok?
  {
    CheckLocalsOkIff(f);
    CheckBlocksOkIff(f);
  }

  /**
   * A program with exactly one failing function is rejected with that
   * function's message, wherever the function sits in the visiting order.
   */
  lemma OnlyFailingFunction(p: Program, g: FnName)
    requires g in p.functions && CheckFunction(p.functions[g]).Err?
    requires forall h :: h in p.functions && h != g ==> CheckFunction(p.functions[h]).Ok?
    ensures Check(p) == CheckFunction(p.functions[g])
  {
    CheckOkIffFunctionsOk(p);
    CheckReportsFirstFailure(p);
  }

  /**
   * A function whose locals pass and which has exactly one failing block is
   * rejected with that block's message.
   */
  lemma OnlyFailingBlock(f: Function, b: BbName)
    requires CheckLocals(f).Ok?
    requires b in f.blocks && CheckBlock(f, b).Err?
    requires forall c :: c in f.blocks && c != b ==> CheckBlock(f, c).Ok?
    ensures CheckFunction(f) == CheckBlock(f, b)
  {
    CheckBlocksOkIff(f);
    CheckBlocksReportsFirstFailure(f);
  }

  /**
   * A block whose statement `k` is the first to fail is rejected with that
   * statement's message; its terminator is not looked at.
   */
  lemma FirstFailingStatement(f: Function, b: BbName, k: nat)
    requires b in f.blocks && k < |f.blocks[b].statements|
    requires CheckStatement(f.locals, f.blocks[b].statements[k]).Err?
    requires forall j :: 0 <= j < k ==> CheckStatement(f.locals, f.blocks[b].statements[j]).Ok?
    ensures CheckBlock(f, b) == CheckStatement(f.locals, f.blocks[b].statements[k])
  {
    var ss := f.blocks[b].statements;
    var rs := seq(|ss|, i requires 0 <= i < |ss| => CheckStatement(f.locals, ss[i]));
    FirstErrAt(rs, k);
    var bb := f.blocks[b];
    assert rs == seq(|bb.statements|, i requires 0 <= i < |bb.statements| => CheckStatement(f.locals, bb.statements[i]));
  }

  /** A block whose statements all pass has its terminator's verdict. */
  lemma StatementsPass(f: Function, b: BbName)
    requires b in f.blocks
    requires forall j :: 0 <= j < |f.blocks[b].statements| ==> CheckStatement(f.locals, f.blocks[b].statements[j]).Ok?
    ensures CheckBlock(f, b) == CheckTerminator(f.locals, f.blocks, f.blocks[b].kind, f.blocks[b].terminator)
  {
    var ss := f.blocks[b].statements;
    var rs := seq(|ss|, i requires 0 <= i < |ss| => CheckStatement(f.locals, ss[i]));
    assert FirstErr(rs).Ok?;
  }

  /**
   * A rejection names the first failing function in ascending name order:
   * every function with a smaller name passes.
   */
  lemma CheckReportsFirstFailure(p: Program)
    requires Check(p).Err?
    ensures exists g :: g in p.functions && CheckFunction(p.functions[g]) == Check(p)
              && forall h :: h in p.functions && h < g ==> CheckFunction(p.functions[h]).Ok?
  {
    var names := SortedElements(p.functions.Keys);
    var rs := seq(|names|, i requires 0 <= i < |names| => CheckFunction(p.functions[names[i]]));
    assert Check(p) == FirstErr(rs);
    var k := FirstErrByName(names, rs);
    forall h | h in p.functions && h < names[k] ensures CheckFunction(p.functions[h]).Ok? {
      var j :| 0 <= j < |names| && names[j] == h;
      assert rs[j].Ok?;
    }
    assert CheckFunction(p.functions[names[k]]) == Check(p);
  }

  /**
   * Inside a function, a rejection names the first failing block in ascending
   * name order: every block with a smaller name passes.
   */
  lemma CheckBlocksReportsFirstFailure(f: Function)
    requires CheckBlocks(f).Err?
    ensures exists b :: b in f.blocks && CheckBlock(f, b) == CheckBlocks(f)
              && forall c :: c in f.blocks && c < b ==> CheckBlock(f, c).Ok?
  {
    var names := SortedElements(f.blocks.Keys);
    var rs := seq(|names|, i requires 0 <= i < |names| => CheckBlock(f, names[i]));
    assert CheckBlocks(f) == FirstErr(rs);
    var k := FirstErrByName(names, rs);
    forall c | c in f.blocks && c < names[k] ensures CheckBlock(f, c).Ok? {
      var j :| 0 <= j < |names| && names[j] == c;
      assert rs[j].Ok?;
    }
    assert CheckBlock(f, names[k]) == CheckBlocks(f);
  }

  // ------------------------------------------------------------- messages

  lemma FirstErrReported(rs: seq<Result<(), string>>)
    requires forall i :: 0 <= i < |rs| ==> Reported(rs[i])
    ensures Reported(FirstErr(rs))
  {
  }

  lemma CheckTerminatorReported(locals: seq<Type>, blocks: map<BbName, BasicBlock>, kind: BbKind, t: Terminator)
    ensures Reported(CheckTerminator(locals, blocks, kind, t))
  {
    match t
    case Switch(value, _, _) => ValueTypeReported(locals, value);
    case Intrinsic(_, args, ret, _) =>
      forall i | 0 <= i < |args| { ValueTypeReported(locals, args[i]); }
      FirstErrReported(seq(|args|, i requires 0 <= i < |args| => CheckValue(locals, args[i])));
      PlaceTypeReported(locals, ret);
    case Call(callee, _, arguments, ret, _, _) =>
      ValueTypeReported(locals, callee);
      forall i | 0 <= i < |arguments| ensures Reported(CheckArgument(locals, arguments[i])) {
        match arguments[i]
        case ByValue(v) => ValueTypeReported(locals, v);
        case InPlace(q) => PlaceTypeReported(locals, q);
      }
      FirstErrReported(seq(|arguments|, i requires 0 <= i < |arguments| => CheckArgument(locals, arguments[i])));
      PlaceTypeReported(locals, ret);
    case StartUnwind(unwindPayload, _) => ValueTypeReported(locals, unwindPayload);
    case _ =>
  }

  lemma CheckBlockReported(f: Function, b: BbName)
    requires b in f.blocks
    ensures Reported(CheckBlock(f, b))
  {
    var bb := f.blocks[b];
    forall i | 0 <= i < |bb.statements| ensures Reported(CheckStatement(f.locals, bb.statements[i])) {
      match bb.statements[i]
      case Assign(destination, src) =>
        PlaceTypeReported(f.locals, destination);
        ValueTypeReported(f.locals, src);
      case Validate(validated, _) => PlaceTypeReported(f.locals, validated);
      case _ =>
    }
    FirstErrReported(seq(|bb.statements|, i requires 0 <= i < |bb.statements| => CheckStatement(f.locals, bb.statements[i])));
    CheckTerminatorReported(f.locals, f.blocks, bb.kind, bb.terminator);
  }

  lemma CheckFunctionReported(f: Function)
    ensures Reported(CheckFunction(f))
  {
    FirstErrReported(seq(|f.locals|, i requires 0 <= i < |f.locals| => CheckLocal(f.locals[i])));
    var names := SortedElements(f.blocks.Keys);
    forall i | 0 <= i < |names| { CheckBlockReported(f, names[i]); }
    FirstErrReported(seq(|names|, i requires 0 <= i < |names| => CheckBlock(f, names[i])));
  }

  /** A rejection always carries one of the rule messages. */
  lemma CheckReported(p: Program)
    ensures Reported(Check(p))
  {
    var names := SortedElements(p.functions.Keys);
    var rs := seq(|names|, i requires 0 <= i < |names| => CheckFunction(p.functions[names[i]]));
    forall i | 0 <= i < |names| ensures Reported(rs[i]) {
      CheckFunctionReported(p.functions[names[i]]);
    }
    FirstErrReported(rs);
  }
}
