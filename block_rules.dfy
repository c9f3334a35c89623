/**
 * The programs of the block-kind tests (`tests/blocks.rs`), written as values,
 * and the verdict the well-formedness check gives each of them.
 *
 * Programs made with `function(..)` and `program(..)` name blocks and
 * functions by position. For the ones made with `ProgramBuilder`, whose block
 * naming (`declare_block`, `cleanup_block`, `catch_block`) is outside this
 * model, the names are chosen in creation order; no verdict depends on them.
 *
 * Each verdict is proved in three steps: the verdict of every block, then the
 * verdict of every function (the only failing block, or none), then the
 * verdict of the program (the only failing function).
 */
module BlockRules {
  import opened Wrappers
  import opened Lang
  import opened TyBuild
  import opened Terminators
  import opened WellFormed

  /** `const_int(..)`: an `i32` constant (only its type matters to the check). */
  function ConstInt(): ValueExpr {
    Constant(IntTy(Signed, 4))
  }

  /** The type `()`. */
  function UnitTy(): Type {
    TupleTy([], 0, 1)
  }

  /** `unit()`: the value of type `()`. */
  function UnitValue(): ValueExpr {
    Constant(UnitTy())
  }

  /** A block of kind `kind` without statements that ends the program. */
  function ExitBlock(kind: BbKind): BasicBlock {
    BasicBlock([], ExitTerminator(), kind)
  }

  /** `exit()` passes in every block: it takes no arguments and writes `()`. */
  lemma ExitTerminatorPasses(locals: seq<Type>, blocks: map<BbName, BasicBlock>, kind: BbKind)
    ensures CheckTerminator(locals, blocks, kind, ExitTerminator()).Ok?
  {
    assert CheckValues(locals, []).Ok?;
  }

  /** `other_f()`: two `()` locals and a block that exits. */
  function OtherF(): Function {
    Function([UnitTy(), UnitTy()], map[0 := ExitBlock(Regular)])
  }

  /** `function(Ret::No, 0, &[], &[block!(return_())])`: a function that returns. */
  function ReturningF(): Function {
    Function([], map[0 := BasicBlock([], Return, Regular)])
  }

  // ------------------------------------------------ from functions to programs

  /** A one-function program has its function's verdict. */
  lemma OneFunction(f: Function)
    ensures Check(Program(map[0 := f])) == CheckFunction(f)
  {
    var p := Program(map[0 := f]);
    assert p.functions.Keys == {0};
    CheckOkIffFunctionsOk(p);
    if Check(p).Err? {
      CheckReportsFirstFailure(p);
    } else {
      assert Check(p).value == CheckFunction(f).value;
    }
  }

  /** A two-function program has function 0's verdict if that one fails, else function 1's. */
  lemma TwoFunctions(f: Function, g: Function)
    ensures Check(Program(map[0 := f, 1 := g])) == if CheckFunction(f).Err? then CheckFunction(f) else CheckFunction(g)
  {
    var p := Program(map[0 := f, 1 := g]);
    assert p.functions.Keys == {0, 1};
    CheckOkIffFunctionsOk(p);
    if Check(p).Err? {
      CheckReportsFirstFailure(p);
      var h :| h in p.functions && CheckFunction(p.functions[h]) == Check(p)
                && forall h' :: h' in p.functions && h' < h ==> CheckFunction(p.functions[h']).Ok?;
      if h == 1 {
        assert CheckFunction(p.functions[0]).Ok?;
      }
    } else {
      assert Check(p).value == CheckFunction(g).value;
    }
  }

  /** A two-function program whose function 0 alone fails has function 0's verdict. */
  lemma FirstOfTwoFails(f: Function, g: Function)
    requires CheckFunction(f).Err? && CheckFunction(g).Ok?
    ensures Check(Program(map[0 := f, 1 := g])) == CheckFunction(f)
  {
    TwoFunctions(f, g);
  }

  /** A two-function program whose function 1 alone fails has function 1's verdict. */
  lemma SecondOfTwoFails(f: Function, g: Function)
    requires CheckFunction(f).Ok? && CheckFunction(g).Err?
    ensures Check(Program(map[0 := f, 1 := g])) == CheckFunction(g)
  {
    TwoFunctions(f, g);
  }

  /** A two-function program whose functions both pass is accepted. */
  lemma BothPass(f: Function, g: Function)
    requires CheckFunction(f).Ok? && CheckFunction(g).Ok?
    ensures Check(Program(map[0 := f, 1 := g])) == Ok(())
  {
    TwoFunctions(f, g);
    assert CheckFunction(g).value == ();
  }

  lemma OtherFPasses()
    ensures CheckFunction(OtherF()).Ok?
  {
    var f := OtherF();
    assert CheckLocal(f.locals[0]).Ok? && CheckLocal(f.locals[1]).Ok?;
    assert CheckBlock(f, 0).Ok?;
    CheckFunctionOkIff(f);
  }

  lemma ReturningFPasses()
    ensures CheckFunction(ReturningF()).Ok?
  {
    var f := ReturningF();
    assert CheckBlock(f, 0).Ok?;
    CheckFunctionOkIff(f);
  }

  // ------------------------------------------------- goto_wrong_blockkind

  /** A regular block jumps to a cleanup block. */
  function GotoWrongBlockKindFn(): Function {
    Function([], map[0 := BasicBlock([], GotoTerminator(1), Regular), 1 := ExitBlock(Cleanup)])
  }

  lemma GotoWrongBlockKindFnFails()
    ensures CheckFunction(GotoWrongBlockKindFn()) == Err(NextWrongKind)
  {
    var f := GotoWrongBlockKindFn();
    assert CheckBlock(f, 0) == Err(NextWrongKind);
    assert CheckBlock(f, 1).Ok?;
    assert f.blocks.Keys == {0, 1};
    OnlyFailingBlock(f, 0);
  }

  lemma GotoWrongBlockKind()
    ensures Check(Program(map[0 := GotoWrongBlockKindFn()])) == Err(NextWrongKind)
  {
    GotoWrongBlockKindFnFails();
    OneFunction(GotoWrongBlockKindFn());
  }

  // ------------------------------------------------- switch_wrong_blockkind

  /** `switch_int(const_int(..), &[(0, 1), (1, 1), (7, 2)], 1)`. */
  function WrongCaseSwitch(): Terminator {
    SwitchIntTerminator(ConstInt(), [(0, 1), (1, 1), (7, 2)], 1)
  }

  lemma WrongCaseSwitchCases()
    ensures WrongCaseSwitch().cases == map[0 := 1, 1 := 1, 7 := 2]
  {
    var cs := [(0, 1), (1, 1), (7, 2)];
    assert cs[..2] == [(0, 1), (1, 1)];
    assert cs[..2][..1] == [(0, 1)];
    assert CasesMap(cs[..2][..1]) == map[0 := 1];
  }

  /** The case for 7 leads to a cleanup block. */
  function SwitchWrongBlockKindFn(): Function {
    Function([], map[0 := BasicBlock([], WrongCaseSwitch(), Regular), 1 := ExitBlock(Regular), 2 := ExitBlock(Cleanup)])
  }

  lemma SwitchWrongBlockKindFnBlocks()
    ensures forall b :: b in SwitchWrongBlockKindFn().blocks && b != 0 ==> CheckBlock(SwitchWrongBlockKindFn(), b).Ok?
  {
    var f := SwitchWrongBlockKindFn();
    assert CheckBlock(f, 1).Ok? && CheckBlock(f, 2).Ok?;
    assert f.blocks.Keys == {0, 1, 2};
  }

  lemma SwitchWrongBlockKindFnHead()
    ensures CheckBlock(SwitchWrongBlockKindFn(), 0) == Err(NextWrongKind)
  {
    var f := SwitchWrongBlockKindFn();
    WrongCaseSwitchCases();
    assert f.blocks.Keys == {0, 1, 2};
    var cases := WrongCaseSwitch().cases;
    assert forall v :: v in cases ==> cases[v] in f.blocks;
    assert 7 in cases && f.blocks[cases[7]].kind != Regular;
  }

  lemma SwitchWrongBlockKindFnFails()
    ensures CheckFunction(SwitchWrongBlockKindFn()) == Err(NextWrongKind)
  {
    SwitchWrongBlockKindFnBlocks();
    SwitchWrongBlockKindFnHead();
    OnlyFailingBlock(SwitchWrongBlockKindFn(), 0);
  }

  lemma SwitchWrongBlockKind()
    ensures Check(Program(map[0 := SwitchWrongBlockKindFn()])) == Err(NextWrongKind)
  {
    SwitchWrongBlockKindFnFails();
    OneFunction(SwitchWrongBlockKindFn());
  }

  // ---------------------------------------- switch_wrong_blockkind_fallback

  /** `switch_int(const_int(..), &[(0, 1), (1, 1), (7, 1)], 2)`. */
  function WrongFallbackSwitch(): Terminator {
    SwitchIntTerminator(ConstInt(), [(0, 1), (1, 1), (7, 1)], 2)
  }

  lemma WrongFallbackSwitchCases()
    ensures WrongFallbackSwitch().cases == map[0 := 1, 1 := 1, 7 := 1]
  {
    var cs := [(0, 1), (1, 1), (7, 1)];
    assert cs[..2] == [(0, 1), (1, 1)];
    assert cs[..2][..1] == [(0, 1)];
    assert CasesMap(cs[..2][..1]) == map[0 := 1];
  }

  /** Every case leads to a regular block, the fallback to a cleanup block. */
  function SwitchWrongBlockKindFallbackFn(): Function {
    Function([], map[0 := BasicBlock([], WrongFallbackSwitch(), Regular), 1 := ExitBlock(Regular), 2 := ExitBlock(Cleanup)])
  }

  lemma SwitchWrongBlockKindFallbackFnBlocks()
    ensures CheckBlock(SwitchWrongBlockKindFallbackFn(), 0) == Err(NextWrongKind)
    ensures forall b :: b in SwitchWrongBlockKindFallbackFn().blocks && b != 0 ==>
              CheckBlock(SwitchWrongBlockKindFallbackFn(), b).Ok?
  {
    var f := SwitchWrongBlockKindFallbackFn();
    WrongFallbackSwitchCases();
    assert CheckBlock(f, 1).Ok? && CheckBlock(f, 2).Ok?;
    assert f.blocks.Keys == {0, 1, 2};
  }

  lemma SwitchWrongBlockKindFallbackFnFails()
    ensures CheckFunction(SwitchWrongBlockKindFallbackFn()) == Err(NextWrongKind)
  {
    SwitchWrongBlockKindFallbackFnBlocks();
    OnlyFailingBlock(SwitchWrongBlockKindFallbackFn(), 0);
  }

  lemma SwitchWrongBlockKindFallback()
    ensures Check(Program(map[0 := SwitchWrongBlockKindFallbackFn()])) == Err(NextWrongKind)
  {
    SwitchWrongBlockKindFallbackFnFails();
    OneFunction(SwitchWrongBlockKindFallbackFn());
  }

  // ---------------------------------------------- intrinsic_wrong_blockkind

  /** `print` continues in a cleanup block. */
  function IntrinsicWrongBlockKindFn(): Function {
    Function([], map[0 := BasicBlock([], IntrinsicTerminator(PrintCall(ConstInt()), 1), Regular), 1 := ExitBlock(Cleanup)])
  }

  lemma IntrinsicWrongBlockKindFnFails()
    ensures CheckFunction(IntrinsicWrongBlockKindFn()) == Err(NextWrongKind)
  {
    var f := IntrinsicWrongBlockKindFn();
    assert CheckBlock(f, 0) == Err(NextWrongKind);
    assert CheckBlock(f, 1).Ok?;
    assert f.blocks.Keys == {0, 1};
    OnlyFailingBlock(f, 0);
  }

  lemma IntrinsicWrongBlockKind()
    ensures Check(Program(map[0 := IntrinsicWrongBlockKindFn()])) == Err(NextWrongKind)
  {
    IntrinsicWrongBlockKindFnFails();
    OneFunction(IntrinsicWrongBlockKindFn());
  }

  // ---------------------------------------------- call_nextblock_wrong_kind

  /** A C call of function 1, returning into `()`. */
  function UnitCall(next: Option<BbName>, unwind: Option<BbName>): Terminator {
    Call(FnPointer(1), C, [], UnitPlace(), next, unwind)
  }

  /** A call returns into a terminate block. */
  function CallNextBlockWrongKindFn(): Function {
    Function([], map[0 := BasicBlock([], UnitCall(Some(1), None), Regular), 1 := ExitBlock(Terminate)])
  }

  lemma CallNextBlockWrongKindFnFails()
    ensures CheckFunction(CallNextBlockWrongKindFn()) == Err(NextWrongKind)
  {
    var f := CallNextBlockWrongKindFn();
    assert CheckBlock(f, 0) == Err(NextWrongKind);
    assert CheckBlock(f, 1).Ok?;
    assert f.blocks.Keys == {0, 1};
    OnlyFailingBlock(f, 0);
  }

  lemma CallNextBlockWrongKind()
    ensures Check(Program(map[0 := CallNextBlockWrongKindFn(), 1 := ReturningF()])) == Err(NextWrongKind)
  {
    CallNextBlockWrongKindFnFails();
    ReturningFPasses();
    FirstOfTwoFails(CallNextBlockWrongKindFn(), ReturningF());
  }

  // -------------------------------------------- call_unwindblock_wrong_kind

  /** A call unwinds into a regular block. */
  function CallUnwindBlockWrongKindFn(): Function {
    Function([], map[0 := BasicBlock([], UnitCall(None, Some(1)), Regular), 1 := ExitBlock(Regular)])
  }

  lemma CallUnwindBlockWrongKindFnFails()
    ensures CheckFunction(CallUnwindBlockWrongKindFn()) == Err(UnwindWrongKind)
  {
    var f := CallUnwindBlockWrongKindFn();
    assert CheckBlock(f, 0) == Err(UnwindWrongKind);
    assert CheckBlock(f, 1).Ok?;
    assert f.blocks.Keys == {0, 1};
    OnlyFailingBlock(f, 0);
  }

  lemma CallUnwindBlockWrongKind()
    ensures Check(Program(map[0 := CallUnwindBlockWrongKindFn(), 1 := ReturningF()])) == Err(UnwindWrongKind)
  {
    CallUnwindBlockWrongKindFnFails();
    ReturningFPasses();
    FirstOfTwoFails(CallUnwindBlockWrongKindFn(), ReturningF());
  }

  // ------------------------------------------- start_unwind_wrong_nextblock

  /** `StartUnwind` into a regular block. */
  function StartUnwindWrongNextBlockFn(): Function {
    Function([], map[0 := BasicBlock([], StartUnwind(UnitPtr(), 1), Regular), 1 := ExitBlock(Regular)])
  }

  lemma StartUnwindWrongNextBlockFnFails()
    ensures CheckFunction(StartUnwindWrongNextBlockFn()) == Err(UnwindWrongKind)
  {
    var f := StartUnwindWrongNextBlockFn();
    assert CheckBlock(f, 0) == Err(UnwindWrongKind);
    assert CheckBlock(f, 1).Ok?;
    assert f.blocks.Keys == {0, 1};
    OnlyFailingBlock(f, 0);
  }

  lemma StartUnwindWrongNextBlock()
    ensures Check(Program(map[0 := StartUnwindWrongNextBlockFn()])) == Err(UnwindWrongKind)
  {
    StartUnwindWrongNextBlockFnFails();
    OneFunction(StartUnwindWrongNextBlockFn());
  }

  // ------------------------------------------------------ return_in_cleanup

  /** Starts unwinding into a cleanup block that returns. */
  function ReturnInCleanupCallee(): Function {
    Function([], map[0 := BasicBlock([], StartUnwind(UnitPtr(), 1), Regular), 1 := BasicBlock([], Return, Cleanup)])
  }

  /** Calls function 0, with a cleanup block that aborts. */
  function ReturnInCleanupCaller(): Function {
    Function([], map[
      0 := BasicBlock([], Call(FnPointer(0), Rust, [], UnitPlace(), Some(2), Some(1)), Regular),
      1 := BasicBlock([], AbortTerminator(), Cleanup),
      2 := ExitBlock(Regular)])
  }

  lemma ReturnInCleanupCalleeFails()
    ensures CheckFunction(ReturnInCleanupCallee()) == Err(ReturnNotRegular)
  {
    var f := ReturnInCleanupCallee();
    assert CheckBlock(f, 0).Ok?;
    assert CheckBlock(f, 1) == Err(ReturnNotRegular);
    assert f.blocks.Keys == {0, 1};
    OnlyFailingBlock(f, 1);
  }

  lemma ReturnInCleanupCallerBlocks()
    ensures forall b :: b in ReturnInCleanupCaller().blocks ==> CheckBlock(ReturnInCleanupCaller(), b).Ok?
  {
    var f := ReturnInCleanupCaller();
    assert CheckBlock(f, 0).Ok? && CheckBlock(f, 1).Ok? && CheckBlock(f, 2).Ok?;
    assert f.blocks.Keys == {0, 1, 2};
  }

  lemma ReturnInCleanupCallerPasses()
    ensures CheckFunction(ReturnInCleanupCaller()).Ok?
  {
    ReturnInCleanupCallerBlocks();
    CheckFunctionOkIff(ReturnInCleanupCaller());
  }

  lemma ReturnInCleanup()
    ensures Check(Program(map[0 := ReturnInCleanupCallee(), 1 := ReturnInCleanupCaller()])) == Err(ReturnNotRegular)
  {
    ReturnInCleanupCalleeFails();
    ReturnInCleanupCallerPasses();
    FirstOfTwoFails(ReturnInCleanupCallee(), ReturnInCleanupCaller());
  }

  // ------------------------------------------------ start_unwind_in_cleanup

  /** The cleanup block starts unwinding again. */
  function StartUnwindInCleanupFn(): Function {
    Function([], map[
      0 := BasicBlock([], StartUnwind(UnitPtr(), 1), Regular),
      1 := BasicBlock([], StartUnwind(UnitPtr(), 2), Cleanup),
      2 := ExitBlock(Cleanup)])
  }

  lemma StartUnwindInCleanupFnFails()
    ensures CheckFunction(StartUnwindInCleanupFn()) == Err(StartUnwindNotRegular)
  {
    var f := StartUnwindInCleanupFn();
    assert CheckBlock(f, 0).Ok? && CheckBlock(f, 2).Ok?;
    assert CheckBlock(f, 1) == Err(StartUnwindNotRegular);
    assert f.blocks.Keys == {0, 1, 2};
    OnlyFailingBlock(f, 1);
  }

  lemma StartUnwindInCleanup()
    ensures Check(Program(map[0 := StartUnwindInCleanupFn()])) == Err(StartUnwindNotRegular)
  {
    StartUnwindInCleanupFnFails();
    OneFunction(StartUnwindInCleanupFn());
  }

  // ------------------------------------------------ resume_in_regular_block

  /** The start block resumes unwinding. */
  function ResumeInRegularBlockFn(): Function {
    Function([], map[0 := BasicBlock([], ResumeUnwind, Regular)])
  }

  lemma ResumeInRegularBlock()
    ensures Check(Program(map[0 := ResumeInRegularBlockFn()])) == Err(ResumeNotCleanup)
  {
    var f := ResumeInRegularBlockFn();
    assert CheckBlock(f, 0) == Err(ResumeNotCleanup);
    OnlyFailingBlock(f, 0);
    OneFunction(f);
  }

  // ---------------------------------------------- call_next_block_non_exist

  /** `StorageLive(0)`, then a C call of function 1 with `unit()`, into local 0. */
  function CallBlock(next: BbName, unwind: BbName): BasicBlock {
    BasicBlock([StorageLive(0)], Call(FnPointer(1), C, [ByValue(UnitValue())], Local(0), Some(next), Some(unwind)), Regular)
  }

  /** The next block does not exist (and neither does the unwind block's right kind). */
  function CallNextBlockNonExistFn(): Function {
    Function([UnitTy()], map[0 := CallBlock(2, 1), 1 := ExitBlock(Regular)])
  }

  lemma CallNextBlockNonExistFnFails()
    ensures CheckFunction(CallNextBlockNonExistFn()) == Err(NextMissing)
  {
    var f := CallNextBlockNonExistFn();
    assert CheckLocal(f.locals[0]).Ok?;
    assert CheckBlock(f, 0) == Err(NextMissing);
    assert CheckBlock(f, 1).Ok?;
    assert f.blocks.Keys == {0, 1};
    OnlyFailingBlock(f, 0);
  }

  lemma CallNextBlockNonExist()
    ensures Check(Program(map[0 := CallNextBlockNonExistFn(), 1 := OtherF()])) == Err(NextMissing)
  {
    CallNextBlockNonExistFnFails();
    OtherFPasses();
    FirstOfTwoFails(CallNextBlockNonExistFn(), OtherF());
  }

  // ------------------------------------------------- unwind_block_non_exist

  /** The next block is fine, the unwind block does not exist. */
  function UnwindBlockNonExistFn(): Function {
    Function([UnitTy()], map[0 := CallBlock(1, 2), 1 := ExitBlock(Regular)])
  }

  lemma UnwindBlockNonExistFnFails()
    ensures CheckFunction(UnwindBlockNonExistFn()) == Err(UnwindMissing)
  {
    var f := UnwindBlockNonExistFn();
    assert CheckLocal(f.locals[0]).Ok?;
    assert CheckBlock(f, 0) == Err(UnwindMissing);
    assert CheckBlock(f, 1).Ok?;
    assert f.blocks.Keys == {0, 1};
    OnlyFailingBlock(f, 0);
  }

  lemma UnwindBlockNonExist()
    ensures Check(Program(map[0 := UnwindBlockNonExistFn(), 1 := OtherF()])) == Err(UnwindMissing)
  {
    UnwindBlockNonExistFnFails();
    OtherFPasses();
    FirstOfTwoFails(UnwindBlockNonExistFn(), OtherF());
  }

  // -------------------------------------------------- unwind_in_catch_block

  /** Prints, then starts unwinding into a cleanup block that resumes. */
  function PanickingFn(): Function {
    Function([], map[
      0 := BasicBlock([], IntrinsicTerminator(PrintCall(ConstInt()), 1), Regular),
      1 := BasicBlock([], StartUnwind(UnitPtr(), 2), Regular),
      2 := BasicBlock([], ResumeUnwind, Cleanup)])
  }

  /** Calls function 0 catching into block 3, whose own call of function 0 unwinds again. */
  function CatchingFn(): Function {
    Function([], map[
      0 := BasicBlock([], Call(FnPointer(0), Rust, [], UnitPlace(), Some(5), Some(3)), Regular),
      1 := ExitBlock(Regular),
      2 := BasicBlock([], AbortTerminator(), Cleanup),
      3 := BasicBlock([], Call(FnPointer(0), Rust, [], UnitPlace(), Some(4), Some(2)), Catch),
      4 := BasicBlock([], StopUnwind(1), Catch),
      5 := BasicBlock([], GotoTerminator(1), Regular)])
  }

  lemma PanickingFnBlocks()
    ensures forall b :: b in PanickingFn().blocks ==> CheckBlock(PanickingFn(), b).Ok?
  {
    var f := PanickingFn();
    assert CheckBlock(f, 0).Ok? && CheckBlock(f, 1).Ok? && CheckBlock(f, 2).Ok?;
    assert f.blocks.Keys == {0, 1, 2};
  }

  lemma PanickingFnPasses()
    ensures CheckFunction(PanickingFn()).Ok?
  {
    PanickingFnBlocks();
    CheckFunctionOkIff(PanickingFn());
  }

  lemma CatchingFnRegularBlocks()
    ensures CheckBlock(CatchingFn(), 0).Ok? && CheckBlock(CatchingFn(), 1).Ok? && CheckBlock(CatchingFn(), 5).Ok?
  {
  }

  lemma CatchingFnOtherBlocks()
    ensures CheckBlock(CatchingFn(), 2).Ok? && CheckBlock(CatchingFn(), 4).Ok?
  {
  }

  /** Block 3 is a catch block whose call has an unwind edge. */
  lemma CatchingFnCatchBlock()
    ensures CheckBlock(CatchingFn(), 3) == Err(UnwindInCatch)
  {
  }

  lemma CatchingFnBlocks()
    ensures CheckBlock(CatchingFn(), 3) == Err(UnwindInCatch)
    ensures forall b :: b in CatchingFn().blocks && b != 3 ==> CheckBlock(CatchingFn(), b).Ok?
  {
    var f := CatchingFn();
    CatchingFnCatchBlock();
    CatchingFnRegularBlocks();
    CatchingFnOtherBlocks();
    assert f.blocks.Keys == {0, 1, 2, 3, 4, 5};
  }

  lemma CatchingFnFails()
    ensures CheckFunction(CatchingFn()) == Err(UnwindInCatch)
  {
    CatchingFnBlocks();
    OnlyFailingBlock(CatchingFn(), 3);
  }

  lemma UnwindInCatchBlock()
    ensures Check(Program(map[0 := PanickingFn(), 1 := CatchingFn()])) == Err(UnwindInCatch)
  {
    PanickingFnPasses();
    CatchingFnFails();
    SecondOfTwoFails(PanickingFn(), CatchingFn());
  }

  // --------------------------------------------- goto_from_cleanup_to_catch

  /** A cleanup block jumps to a catch block. */
  function GotoFromCleanupToCatchFn(): Function {
    Function([UnitTy()], map[
      0 := BasicBlock([StorageLive(0)], StartUnwind(UnitPtr(), 1), Regular),
      1 := BasicBlock([], Goto(2), Cleanup),
      2 := ExitBlock(Catch)])
  }

  lemma GotoFromCleanupToCatchFnFails()
    ensures CheckFunction(GotoFromCleanupToCatchFn()) == Err(NextWrongKind)
  {
    var f := GotoFromCleanupToCatchFn();
    assert CheckLocal(f.locals[0]).Ok?;
    assert CheckBlock(f, 0).Ok? && CheckBlock(f, 2).Ok?;
    assert CheckBlock(f, 1) == Err(NextWrongKind);
    assert f.blocks.Keys == {0, 1, 2};
    OnlyFailingBlock(f, 1);
  }

  lemma GotoFromCleanupToCatch()
    ensures Check(Program(map[0 := GotoFromCleanupToCatchFn(), 1 := OtherF()])) == Err(NextWrongKind)
  {
    GotoFromCleanupToCatchFnFails();
    OtherFPasses();
    FirstOfTwoFails(GotoFromCleanupToCatchFn(), OtherF());
  }

  // -------------------------------------------------------- an accepted one

  /** Two regular blocks, the first jumping to the second, which exits. */
  function GotoSameKindFn(): Function {
    Function([], map[0 := BasicBlock([], GotoTerminator(1), Regular), 1 := ExitBlock(Regular)])
  }

  lemma GotoSameKindFnPasses()
    ensures CheckFunction(GotoSameKindFn()).Ok?
  {
    var f := GotoSameKindFn();
    assert CheckBlock(f, 0).Ok? && CheckBlock(f, 1).Ok?;
    assert f.blocks.Keys == {0, 1};
    CheckFunctionOkIff(f);
  }

  lemma GotoSameKindAccepted()
    ensures Check(Program(map[0 := GotoSameKindFn()])) == Ok(())
  {
    GotoSameKindFnPasses();
    OneFunction(GotoSameKindFn());
    assert CheckFunction(GotoSameKindFn()).value == ();
  }
}
