/**
 * The `FunctionBuilder` of `build/terminator.rs`: a current-block slot and a
 * map of finished blocks, updated step by step as terminators are added.
 *
 * Block names come from a counter (`nextName`), which stands in for
 * `declare_block`. A branch closure of `switch_int`, `if_` and `while_` is
 * modelled by the one thing the builder observes about it: whether it finishes
 * the block it starts in (and with which terminator) or leaves it open.
 */
module FunctionBuilding {
  import opened Wrappers
  import opened Lang
  import opened TyBuild
  import opened Terminators

  /** The block being built: its name, its statements so far and its kind. */
  datatype CurBlock = CurBlock(name: BbName, statements: seq<Statement>, kind: BbKind)

  /** What a branch closure does to the block it is started in. */
  datatype BranchStep = LeaveOpen | FinishWith(terminator: Terminator)

  /** `Map::try_insert`: fails when the key is present, otherwise adds exactly that entry. */
  function TryInsert<K, V>(m: map<K, V>, k: K, v: V): (r: Option<map<K, V>>)
    ensures r.Some? <==> k !in m
    ensures r.Some? ==> r.value.Keys == m.Keys + {k} && r.value[k] == v
    ensures r.Some? ==> forall j :: j in m ==> r.value[j] == m[j]
  {
    if k in m then None else Some(m[k := v])
  }

  /** The finished form of the current block, ended by `t`. */
  function Close(cur: CurBlock, t: Terminator): (bb: BasicBlock)
    ensures bb.statements == cur.statements && bb.kind == cur.kind && bb.terminator == t
  {
    BasicBlock(cur.statements, t, cur.kind)
  }

  /** Each case value paired with the block `switch_int` declares for it, in order from `first`. */
  function CaseTargets(cases: seq<(int, BranchStep)>, first: BbName): (r: seq<(int, BbName)>)
    ensures |r| == |cases|
    ensures forall j :: 0 <= j < |r| ==> r[j] == (cases[j].0, first + j)
  {
    seq(|cases|, j requires 0 <= j < |cases| => (cases[j].0, first + j))
  }

  /** The branches `switch_int` runs: the cases in order, then the fallback. */
  function BranchSteps(cases: seq<(int, BranchStep)>, fallback: BranchStep): (r: seq<BranchStep>)
    ensures |r| == |cases| + 1 && r[|cases|] == fallback
    ensures forall j :: 0 <= j < |cases| ==> r[j] == cases[j].1
  {
    seq(|cases|, j requires 0 <= j < |cases| => cases[j].1) + [fallback]
  }

  predicate AnyLeftOpen(steps: seq<BranchStep>) {
    exists j :: 0 <= j < |steps| && steps[j].LeaveOpen?
  }

  /** How a branch block ends: its own terminator, or a jump to the join block. */
  function StepTerminator(step: BranchStep, join: BbName): (t: Terminator)
    ensures step.FinishWith? ==> t == step.terminator
    ensures step.LeaveOpen? ==> t == Goto(join)
  {
    match step
    case FinishWith(t) => t
    case LeaveOpen => Goto(join)
  }

  /** Collecting one more pair adds (or replaces) that one entry. */
  lemma CasesMapSnoc(cases: seq<(int, BbName)>, p: (int, BbName))
    ensures CasesMap(cases + [p]) == CasesMap(cases)[p.0 := p.1]
  {
    assert (cases + [p])[..|cases|] == cases;
  }

  /** A value is a key of the collected map exactly when some pair carries it. */
  lemma CasesMapKeys(cases: seq<(int, BbName)>, v: int)
    ensures v in CasesMap(cases) <==> exists j :: 0 <= j < |cases| && cases[j].0 == v
  {
  }

  /**
   * One step of declaring the case blocks: the next case value is new exactly
   * when no earlier case carries it, and then its pair extends the map.
   */
  lemma CaseTargetsStep(cases: seq<(int, BranchStep)>, first: BbName, i: nat, m: map<int, BbName>)
    requires i < |cases| && m == CasesMap(CaseTargets(cases, first)[..i])
    requires forall a, b :: 0 <= a < b < i ==> cases[a].0 != cases[b].0
    ensures cases[i].0 in m <==> exists a :: 0 <= a < i && cases[a].0 == cases[i].0
    ensures cases[i].0 !in m ==>
              (forall a, b :: 0 <= a < b < i + 1 ==> cases[a].0 != cases[b].0)
              && m[cases[i].0 := first + i] == CasesMap(CaseTargets(cases, first)[..i + 1])
  {
    var targets := CaseTargets(cases, first);
    CasesMapKeys(targets[..i], cases[i].0);
    if cases[i].0 in m {
      var j :| 0 <= j < i && targets[..i][j].0 == cases[i].0;
      assert cases[j].0 == cases[i].0;
    } else {
      forall a | 0 <= a < i ensures cases[a].0 != cases[i].0 {
        assert targets[..i][a].0 == cases[a].0;
      }
      CasesMapSnoc(targets[..i], targets[i]);
      assert targets[..i + 1] == targets[..i] + [targets[i]];
    }
  }

  /**
   * The branch blocks `switch_int` builds for `steps`: block `first + j` is
   * empty, has kind `kind`, and ends as branch `j` directs or, left open,
   * jumps to `join`.
   */
  function BranchBlocks(steps: seq<BranchStep>, first: BbName, join: BbName, kind: BbKind): (m: map<BbName, BasicBlock>)
    ensures forall b :: b in m <==> first <= b < first + |steps|
  {
    if steps == [] then map[]
    else BranchBlocks(steps[..|steps| - 1], first, join, kind)[first + |steps| - 1 :=
           BasicBlock([], StepTerminator(steps[|steps| - 1], join), kind)]
  }

  /** Block `first + j` of the branch blocks is the one branch `j` builds. */
  lemma {:induction false} BranchBlockAt(steps: seq<BranchStep>, first: BbName, join: BbName, kind: BbKind, j: nat)
    requires j < |steps|
    ensures first + j in BranchBlocks(steps, first, join, kind)
    ensures BranchBlocks(steps, first, join, kind)[first + j] == BasicBlock([], StepTerminator(steps[j], join), kind)
  {
    if j < |steps| - 1 {
      BranchBlockAt(steps[..|steps| - 1], first, join, kind, j);
    }
  }

  /** One more branch adds exactly its block, after the others. */
  lemma BranchBlocksSnoc(steps: seq<BranchStep>, step: BranchStep, first: BbName, join: BbName, kind: BbKind)
    ensures BranchBlocks(steps + [step], first, join, kind) ==
            BranchBlocks(steps, first, join, kind)[first + |steps| := BasicBlock([], StepTerminator(step, join), kind)]
  {
    assert (steps + [step])[..|steps|] == steps;
  }

  /** Running branch `k` after the first `k` adds its block on top of theirs. */
  lemma BranchBlocksStep(m: map<BbName, BasicBlock>, steps: seq<BranchStep>, k: nat, first: BbName, join: BbName, kind: BbKind)
    requires k < |steps|
    ensures (m + BranchBlocks(steps[..k], first, join, kind))[first + k := BasicBlock([], StepTerminator(steps[k], join), kind)]
            == m + BranchBlocks(steps[..k + 1], first, join, kind)
  {
    assert steps[..k + 1] == steps[..k] + [steps[k]];
    BranchBlocksSnoc(steps[..k], steps[k], first, join, kind);
    UnionUpdate(m, BranchBlocks(steps[..k], first, join, kind), first + k, BasicBlock([], StepTerminator(steps[k], join), kind));
  }

  /** Some branch among the first `k + 1` is left open iff one among the first `k` is or branch `k` is. */
  lemma AnyLeftOpenStep(steps: seq<BranchStep>, k: nat)
    requires k < |steps|
    ensures AnyLeftOpen(steps[..k + 1]) <==> AnyLeftOpen(steps[..k]) || steps[k].LeaveOpen?
  {
    if AnyLeftOpen(steps[..k + 1]) && !steps[k].LeaveOpen? {
      var j :| 0 <= j < k + 1 && steps[..k + 1][j].LeaveOpen?;
      assert steps[..k][j].LeaveOpen?;
    }
    if AnyLeftOpen(steps[..k]) {
      var j :| 0 <= j < k && steps[..k][j].LeaveOpen?;
      assert steps[..k + 1][j].LeaveOpen?;
    }
    if steps[k].LeaveOpen? {
      assert steps[..k + 1][k].LeaveOpen?;
    }
  }

  /** A union with a two-entry map is two updates. */
  lemma UnionPair<K, V>(m: map<K, V>, a: K, x: V, b: K, y: V)
    requires a != b
    ensures m + map[a := x, b := y] == m[a := x][b := y]
  {
  }

  /** Updating the right operand of a union updates the union. */
  lemma UnionUpdate<K, V>(m: map<K, V>, n: map<K, V>, k: K, v: V)
    ensures (m + n)[k := v] == m + n[k := v]
  {
  }

  /** Every branch block has the switching block's kind and no statements. */
  lemma BranchBlocksKind(steps: seq<BranchStep>, first: BbName, join: BbName, kind: BbKind)
    ensures forall b :: b in BranchBlocks(steps, first, join, kind) ==>
              BranchBlocks(steps, first, join, kind)[b].kind == kind && BranchBlocks(steps, first, join, kind)[b].statements == []
  {
    forall b | b in BranchBlocks(steps, first, join, kind)
      ensures BranchBlocks(steps, first, join, kind)[b].kind == kind && BranchBlocks(steps, first, join, kind)[b].statements == []
    {
      BranchBlockAt(steps, first, join, kind, b - first);
    }
  }

  /**
   * The blocks once `switch_int` with distinct case values has ended `cur`,
   * started with `blocks` finished and `n0` the next fresh name: `cur` ends
   * with the switch to blocks `n0`, ..., `n0 + |cases|`, the last one the
   * fallback.
   */
  function SwitchHead(blocks: map<BbName, BasicBlock>, cur: CurBlock, value: ValueExpr,
                      cases: seq<(int, BranchStep)>, n0: BbName): map<BbName, BasicBlock>
  {
    blocks[cur.name := Close(cur, SwitchIntTerminator(value, CaseTargets(cases, n0), n0 + |cases|))]
  }

  /** The blocks after `switch_int`: the switch, then the branch blocks, joining at `n0 + |cases| + 1`. */
  function SwitchBlocks(blocks: map<BbName, BasicBlock>, cur: CurBlock, value: ValueExpr,
                        cases: seq<(int, BranchStep)>, fallback: BranchStep, n0: BbName): map<BbName, BasicBlock>
  {
    SwitchHead(blocks, cur, value, cases, n0) + BranchBlocks(BranchSteps(cases, fallback), n0, n0 + |cases| + 1, cur.kind)
  }

  /** The current block after `switch_int`: the join block, when some branch left its block open. */
  function SwitchCur(cases: seq<(int, BranchStep)>, fallback: BranchStep, n0: BbName, kind: BbKind): Option<CurBlock>
  {
    if AnyLeftOpen(BranchSteps(cases, fallback)) then Some(CurBlock(n0 + |cases| + 1, [], kind)) else None
  }

  /** The switch `if_` ends the current block with is the `if` terminator. */
  lemma IfHead(blocks: map<BbName, BasicBlock>, cur: CurBlock, condition: ValueExpr, thenStep: BranchStep, n0: BbName)
    ensures SwitchHead(blocks, cur, BoolToInt(condition), [(1, thenStep)], n0) ==
            blocks[cur.name := Close(cur, IfTerminator(condition, n0, n0 + 1))]
  {
    assert CaseTargets([(1, thenStep)], n0) == [(1, n0)];
    assert CasesMap([(1, n0)]) == map[1 := n0] by {
      assert [(1, n0)][..0] == [];
    }
  }

  /** The two branch blocks of `if_`: then-block `n0`, else-block `n0 + 1`. */
  lemma IfBranchBlocks(thenStep: BranchStep, elseStep: BranchStep, n0: BbName, kind: BbKind)
    ensures BranchBlocks([thenStep, elseStep], n0, n0 + 2, kind) ==
            map[n0 := BasicBlock([], StepTerminator(thenStep, n0 + 2), kind),
                n0 + 1 := BasicBlock([], StepTerminator(elseStep, n0 + 2), kind)]
  {
    var steps := [thenStep, elseStep];
    assert steps[..1] == [thenStep];
    assert steps[..1][..0] == [];
  }

  /**
   * `if_` is `switch_int` on the condition with the single case 1: its case
   * values are distinct, the switch is the `if` terminator, and the then- and
   * else-blocks are the two fresh blocks, joining at the third.
   */
  lemma IfIsSwitchInt(blocks: map<BbName, BasicBlock>, cur: CurBlock, condition: ValueExpr,
                      thenStep: BranchStep, elseStep: BranchStep, n0: BbName)
    requires n0 != cur.name && n0 + 1 != cur.name
    ensures DistinctValues([(1, thenStep)])
    ensures SwitchBlocks(blocks, cur, BoolToInt(condition), [(1, thenStep)], elseStep, n0) ==
            blocks[cur.name := Close(cur, IfTerminator(condition, n0, n0 + 1))]
                  [n0 := BasicBlock([], StepTerminator(thenStep, n0 + 2), cur.kind)]
                  [n0 + 1 := BasicBlock([], StepTerminator(elseStep, n0 + 2), cur.kind)]
    ensures SwitchCur([(1, thenStep)], elseStep, n0, cur.kind) ==
            if thenStep.LeaveOpen? || elseStep.LeaveOpen? then Some(CurBlock(n0 + 2, [], cur.kind)) else None
  {
    var cases := [(1, thenStep)];
    var steps := BranchSteps(cases, elseStep);
    assert steps == [thenStep, elseStep];
    assert AnyLeftOpen(steps) <==> thenStep.LeaveOpen? || elseStep.LeaveOpen? by {
      if thenStep.LeaveOpen? { assert steps[0].LeaveOpen?; }
      if elseStep.LeaveOpen? { assert steps[1].LeaveOpen?; }
    }
    var head := blocks[cur.name := Close(cur, IfTerminator(condition, n0, n0 + 1))];
    IfHead(blocks, cur, condition, thenStep, n0);
    IfBranchBlocks(thenStep, elseStep, n0, cur.kind);
    UnionPair(head, n0, BasicBlock([], StepTerminator(thenStep, n0 + 2), cur.kind),
              n0 + 1, BasicBlock([], StepTerminator(elseStep, n0 + 2), cur.kind));
  }

  class FunctionBuilder {
    var curBlock: Option<CurBlock>
    var blocks: map<BbName, BasicBlock>
    var nextName: nat

    /** Every name in use came from the counter, and the current block is not finished yet. */
    ghost predicate Valid()
      reads this
    {
      (forall b :: b in blocks ==> b < nextName)
      && (curBlock.Some? ==> curBlock.value.name < nextName && curBlock.value.name !in blocks)
    }

    /** A builder whose start block, of kind Regular, is current. */
    constructor ()
      ensures Valid()
      ensures curBlock == Some(CurBlock(0, [], Regular)) && blocks == map[] && nextName == 1
    {
      curBlock := Some(CurBlock(0, [], Regular));
      blocks := map[];
      nextName := 1;
    }

    /** A fresh block name. */
    method DeclareBlock() returns (name: BbName)
      requires Valid()
      modifies this
      ensures Valid()
      ensures name == old(nextName) && nextName == old(nextName) + 1
      ensures name !in blocks && (curBlock.Some? ==> name != curBlock.value.name)
      ensures blocks == old(blocks) && curBlock == old(curBlock)
    {
      name := nextName;
      nextName := nextName + 1;
    }

    /** Makes a declared, unfinished block current, with no statements yet. */
    method SetCurBlock(name: BbName, kind: BbKind)
      requires Valid() && curBlock.None? && name < nextName && name !in blocks
      modifies this
      ensures Valid()
      ensures curBlock == Some(CurBlock(name, [], kind))
      ensures blocks == old(blocks) && nextName == old(nextName)
    {
      curBlock := Some(CurBlock(name, [], kind));
    }

    /**
     * `finish_block`: the current block, ended by `t`, enters `blocks` under its
     * own name, and no block is current. The insertion cannot fail, because a
     * current block is never already finished.
     */
    method FinishBlock(t: Terminator)
      requires Valid() && curBlock.Some?
      modifies this
      ensures Valid() && curBlock == None && nextName == old(nextName)
      ensures old(curBlock.value.name) !in old(blocks)
      ensures blocks == old(blocks)[old(curBlock.value.name) := Close(old(curBlock.value), t)]
    {
      var cur := curBlock.value;
      curBlock := None;
      var inserted := TryInsert(blocks, cur.name, Close(cur, t));
      blocks := inserted.value;
    }

    /**
     * `finish_with_next_block`: ends the current block with the terminator
     * `mk` builds for a fresh block, which becomes current with the same kind.
     */
    method FinishWithNextBlock(mk: BbName -> Terminator)
      requires Valid() && curBlock.Some?
      modifies this
      ensures Valid() && nextName == old(nextName) + 1
      ensures blocks == old(blocks)[old(curBlock.value.name) := Close(old(curBlock.value), mk(old(nextName)))]
      ensures curBlock == Some(CurBlock(old(nextName), [], old(curBlock.value.kind)))
    {
      var kind := curBlock.value.kind;
      var next := DeclareBlock();
      FinishBlock(mk(next));
      SetCurBlock(next, kind);
    }

    // terminators with no following block

    method Exit()
      requires Valid() && curBlock.Some?
      modifies this
      ensures Valid() && curBlock == None && nextName == old(nextName)
      ensures blocks == old(blocks)[old(curBlock.value.name) := Close(old(curBlock.value), ExitTerminator())]
    {
      FinishBlock(ExitTerminator());
    }

    method Abort()
      requires Valid() && curBlock.Some?
      modifies this
      ensures Valid() && curBlock == None && nextName == old(nextName)
      ensures blocks == old(blocks)[old(curBlock.value.name) := Close(old(curBlock.value), AbortTerminator())]
    {
      FinishBlock(AbortTerminator());
    }

    method Unreachable()
      requires Valid() && curBlock.Some?
      modifies this
      ensures Valid() && curBlock == None && nextName == old(nextName)
      ensures blocks == old(blocks)[old(curBlock.value.name) := Close(old(curBlock.value), Terminator.Unreachable)]
    {
      FinishBlock(Terminator.Unreachable);
    }

    method Return()
      requires Valid() && curBlock.Some?
      modifies this
      ensures Valid() && curBlock == None && nextName == old(nextName)
      ensures blocks == old(blocks)[old(curBlock.value.name) := Close(old(curBlock.value), Terminator.Return)]
    {
      FinishBlock(Terminator.Return);
    }

    method ResumeUnwind()
      requires Valid() && curBlock.Some?
      modifies this
      ensures Valid() && curBlock == None && nextName == old(nextName)
      ensures blocks == old(blocks)[old(curBlock.value.name) := Close(old(curBlock.value), Terminator.ResumeUnwind)]
    {
      FinishBlock(Terminator.ResumeUnwind);
    }

    // call terminators

    /**
     * `handle_call`: ends the current block with a call carrying exactly the
     * given callee, convention, arguments, return place and edges; continues in
     * `next` with the caller's kind when there is one.
     */
    method HandleCall(ret: PlaceExpr, f: ValueExpr, args: seq<ArgumentExpr>, conv: CallingConvention,
                      next: Option<BbName>, unwind: Option<BbName>)
      requires Valid() && curBlock.Some?
      requires next.Some? ==> next.value < nextName && next.value !in blocks && next.value != curBlock.value.name
      modifies this
      ensures Valid() && nextName == old(nextName)
      ensures blocks == old(blocks)[old(curBlock.value.name) :=
                Close(old(curBlock.value), Terminator.Call(f, conv, args, ret, next, unwind))]
      ensures curBlock == if next.Some? then Some(CurBlock(next.value, [], old(curBlock.value.kind))) else None
    {
      var kind := curBlock.value.kind;
      FinishBlock(Terminator.Call(f, conv, args, ret, next, unwind));
      if next.Some? {
        SetCurBlock(next.value, kind);
      }
    }

    /** `call_noret`: a Rust call with neither a next nor an unwind block. */
    method CallNoret(ret: PlaceExpr, f: ValueExpr, args: seq<ArgumentExpr>)
      requires Valid() && curBlock.Some?
      modifies this
      ensures Valid() && curBlock == None && nextName == old(nextName)
      ensures blocks == old(blocks)[old(curBlock.value.name) :=
                Close(old(curBlock.value), Terminator.Call(f, Rust, args, ret, None, None))]
    {
      HandleCall(ret, f, args, Rust, None, None);
    }

    /** `call_nounwind`: a Rust call returning to a fresh block, without an unwind block. */
    method CallNounwind(ret: PlaceExpr, f: ValueExpr, args: seq<ArgumentExpr>)
      requires Valid() && curBlock.Some?
      modifies this
      ensures Valid() && nextName == old(nextName) + 1
      ensures blocks == old(blocks)[old(curBlock.value.name) :=
                Close(old(curBlock.value), Terminator.Call(f, Rust, args, ret, Some(old(nextName)), None))]
      ensures curBlock == Some(CurBlock(old(nextName), [], old(curBlock.value.kind)))
    {
      var next := DeclareBlock();
      HandleCall(ret, f, args, Rust, Some(next), None);
    }

    /** `call_ignoreret`: as `call_nounwind`, returning into `unit_place()`. */
    method CallIgnoreret(f: ValueExpr, args: seq<ArgumentExpr>)
      requires Valid() && curBlock.Some?
      modifies this
      ensures Valid() && nextName == old(nextName) + 1
      ensures blocks == old(blocks)[old(curBlock.value.name) :=
                Close(old(curBlock.value), Terminator.Call(f, Rust, args, UnitPlace(), Some(old(nextName)), None))]
      ensures curBlock == Some(CurBlock(old(nextName), [], old(curBlock.value.kind)))
    {
      var next := DeclareBlock();
      HandleCall(UnitPlace(), f, args, Rust, Some(next), None);
    }

    /** `call`: a Rust call returning to a fresh block and unwinding to `unwind`. */
    method Call(ret: PlaceExpr, f: ValueExpr, args: seq<ArgumentExpr>, unwind: BbName)
      requires Valid() && curBlock.Some?
      modifies this
      ensures Valid() && nextName == old(nextName) + 1
      ensures blocks == old(blocks)[old(curBlock.value.name) :=
                Close(old(curBlock.value), Terminator.Call(f, Rust, args, ret, Some(old(nextName)), Some(unwind)))]
      ensures curBlock == Some(CurBlock(old(nextName), [], old(curBlock.value.kind)))
    {
      var next := DeclareBlock();
      HandleCall(ret, f, args, Rust, Some(next), Some(unwind));
    }

    /** `call_with_conv`: as `call`, with the given calling convention. */
    method CallWithConv(ret: PlaceExpr, f: ValueExpr, args: seq<ArgumentExpr>, conv: CallingConvention, unwind: BbName)
      requires Valid() && curBlock.Some?
      modifies this
      ensures Valid() && nextName == old(nextName) + 1
      ensures blocks == old(blocks)[old(curBlock.value.name) :=
                Close(old(curBlock.value), Terminator.Call(f, conv, args, ret, Some(old(nextName)), Some(unwind)))]
      ensures curBlock == Some(CurBlock(old(nextName), [], old(curBlock.value.kind)))
    {
      var next := DeclareBlock();
      HandleCall(ret, f, args, conv, Some(next), Some(unwind));
    }

    // terminators with one following block

    method Goto(dest: BbName)
      requires Valid() && curBlock.Some?
      modifies this
      ensures Valid() && curBlock == None && nextName == old(nextName)
      ensures blocks == old(blocks)[old(curBlock.value.name) := Close(old(curBlock.value), GotoTerminator(dest))]
    {
      FinishBlock(GotoTerminator(dest));
    }

    /**
     * The intrinsic methods (`assume`, `print`, ..., `get_unwind_payload`):
     * the intrinsic's terminator for a fresh next block of the same kind.
     */
    method FinishWithIntrinsic(c: IntrinsicCall)
      requires Valid() && curBlock.Some?
      modifies this
      ensures Valid() && nextName == old(nextName) + 1
      ensures blocks == old(blocks)[old(curBlock.value.name) :=
                Close(old(curBlock.value), IntrinsicTerminator(c, old(nextName)))]
      ensures curBlock == Some(CurBlock(old(nextName), [], old(curBlock.value.kind)))
    {
      FinishWithNextBlock((next: BbName) => IntrinsicTerminator(c, next));
    }

    method StartUnwind(unwindPayload: ValueExpr, cleanup: BbName)
      requires Valid() && curBlock.Some?
      modifies this
      ensures Valid() && curBlock == None && nextName == old(nextName)
      ensures blocks == old(blocks)[old(curBlock.value.name) :=
                Close(old(curBlock.value), Terminator.StartUnwind(unwindPayload, cleanup))]
    {
      FinishBlock(Terminator.StartUnwind(unwindPayload, cleanup));
    }

    method StopUnwind(next: BbName)
      requires Valid() && curBlock.Some?
      modifies this
      ensures Valid() && curBlock == None && nextName == old(nextName)
      ensures blocks == old(blocks)[old(curBlock.value.name) := Close(old(curBlock.value), Terminator.StopUnwind(next))]
    {
      FinishBlock(Terminator.StopUnwind(next));
    }

    // terminators with two or more following blocks

    /**
     * `switch_int`: declares one fresh block per case, in order, then a fresh
     * fallback block, and ends the current block with the switch over them.
     * Every branch then runs in its own block with the switching block's kind;
     * a branch left open jumps to the join block, declared once, after all the
     * others, and only when some branch is left open; the join block is then
     * current with the original kind. A repeated case value is the panic of
     * `try_insert(..).unwrap()` (`ok` false), which happens before any block is
     * finished.
     */
    method SwitchInt(value: ValueExpr, cases: seq<(int, BranchStep)>, fallback: BranchStep) returns (ok: bool)
      requires Valid() && curBlock.Some?
      modifies this
      ensures Valid()
      ensures ok <==> DistinctValues(cases)
      ensures !ok ==> blocks == old(blocks) && curBlock == old(curBlock)
      ensures ok ==> blocks == SwitchBlocks(old(blocks), old(curBlock.value), value, cases, fallback, old(nextName))
      ensures ok ==> curBlock == SwitchCur(cases, fallback, old(nextName), old(curBlock.value.kind))
      ensures ok ==> nextName == old(nextName) + |cases| + (if curBlock.Some? then 2 else 1)
    {
      var n0 := nextName;
      var cur := curBlock.value;
      ghost var b0 := blocks;
      ok := StartSwitch(value, cases);
      if ok {
        assert blocks == SwitchHead(b0, cur, value, cases, n0);
        EndSwitch(BranchSteps(cases, fallback), n0, cur.kind, n0 + |cases| + 1);
      }
    }

    /**
     * The part of `switch_int` before the branches run: the case blocks and the
     * fallback block are declared and the current block ends with the switch.
     */
    method StartSwitch(value: ValueExpr, cases: seq<(int, BranchStep)>) returns (ok: bool)
      requires Valid() && curBlock.Some?
      modifies this
      ensures Valid()
      ensures ok <==> DistinctValues(cases)
      ensures !ok ==> blocks == old(blocks) && curBlock == old(curBlock)
      ensures ok ==> curBlock == None && nextName == old(nextName) + |cases| + 1
      ensures ok ==> forall b :: b in blocks ==> b < old(nextName)
      ensures ok ==> blocks == old(blocks)[old(curBlock.value.name) :=
                Close(old(curBlock.value), SwitchIntTerminator(value, CaseTargets(cases, old(nextName)), old(nextName) + |cases|))]
    {
      var n0 := nextName;
      var branchMap := DeclareCaseBlocks(cases);
      if branchMap.None? {
        return false;
      }
      var fallbackBlock := DeclareBlock();
      assert Switch(value, branchMap.value, fallbackBlock) == SwitchIntTerminator(value, CaseTargets(cases, n0), n0 + |cases|);
      FinishBlock(Switch(value, branchMap.value, fallbackBlock));
      ok := true;
    }

    /**
     * The part of `switch_int` from the branches on: the branch blocks are
     * built, and the join block, if any branch needed one, becomes current.
     */
    method EndSwitch(steps: seq<BranchStep>, first: BbName, kind: BbKind, joinName: BbName)
      requires Valid() && curBlock.None?
      requires joinName == first + |steps| && nextName == joinName && forall b :: b in blocks ==> b < first
      modifies this
      ensures Valid()
      ensures blocks == old(blocks) + BranchBlocks(steps, first, joinName, kind)
      ensures curBlock == if AnyLeftOpen(steps) then Some(CurBlock(joinName, [], kind)) else None
      ensures nextName == joinName + if AnyLeftOpen(steps) then 1 else 0
    {
      var join := RunBranches(steps, first, kind, joinName);
      if join.Some? {
        SetCurBlock(join.value, kind);
      }
    }

    /**
     * The first loop of `switch_int`: one fresh block per case, in order, and
     * the map from case values to them; None when a case value repeats.
     */
    method DeclareCaseBlocks(cases: seq<(int, BranchStep)>) returns (branchMap: Option<map<int, BbName>>)
      requires Valid()
      modifies this
      ensures Valid() && blocks == old(blocks) && curBlock == old(curBlock)
      ensures branchMap.Some? <==> DistinctValues(cases)
      ensures branchMap.Some? ==>
                branchMap.value == CasesMap(CaseTargets(cases, old(nextName))) && nextName == old(nextName) + |cases|
    {
      var n0 := nextName;
      ghost var targets := CaseTargets(cases, n0);
      var m: map<int, BbName> := map[];
      var i := 0;
      while i < |cases|
        invariant 0 <= i <= |cases|
        invariant Valid() && curBlock == old(curBlock) && blocks == old(blocks)
        invariant nextName == n0 + i
        invariant forall a, b :: 0 <= a < b < i ==> cases[a].0 != cases[b].0
        invariant m == CasesMap(targets[..i])
      {
        var newBlock := DeclareBlock();
        var inserted := TryInsert(m, cases[i].0, newBlock);
        CaseTargetsStep(cases, n0, i, m);
        if inserted.None? {
          return None;
        }
        m := inserted.value;
        i := i + 1;
      }
      assert targets[..i] == targets;
      branchMap := Some(m);
    }

    /**
     * The second loop of `switch_int`: each branch runs in its declared block
     * `first + j` with kind `kind`; a branch left open jumps to the join block,
     * which is declared at the first such branch.
     */
    method RunBranches(branches: seq<BranchStep>, first: BbName, kind: BbKind, joinName: BbName) returns (join: Option<BbName>)
      requires Valid() && curBlock.None?
      requires joinName == first + |branches| && nextName == joinName && forall b :: b in blocks ==> b < first
      modifies this
      ensures Valid() && curBlock == None
      ensures blocks == old(blocks) + BranchBlocks(branches, first, joinName, kind)
      ensures join.Some? <==> AnyLeftOpen(branches)
      ensures join.Some? ==> join.value == joinName && nextName == joinName + 1
      ensures join.None? ==> nextName == joinName
    {
      join := None;
      var k := 0;
      while k < |branches|
        invariant 0 <= k <= |branches|
        invariant Valid() && curBlock == None
        invariant join.Some? <==> AnyLeftOpen(branches[..k])
        invariant join.Some? ==> join.value == joinName
        invariant nextName == joinName + (if join.Some? then 1 else 0)
        invariant blocks == old(blocks) + BranchBlocks(branches[..k], first, joinName, kind)
      {
        join := RunBranch(branches[k], first + k, kind, joinName, join);
        BranchBlocksStep(old(blocks), branches, k, first, joinName, kind);
        AnyLeftOpenStep(branches, k);
        k := k + 1;
      }
      assert branches[..k] == branches;
    }

    /**
     * One pass of the second loop of `switch_int`: block `name` becomes current
     * with kind `kind`, the branch runs, and a block it leaves open jumps to
     * the join block `joinName`, declared now if it was not yet.
     */
    method RunBranch(step: BranchStep, name: BbName, kind: BbKind, joinName: BbName, join: Option<BbName>)
      returns (join': Option<BbName>)
      requires Valid() && curBlock.None? && name < joinName && name !in blocks
      requires join.Some? ==> join.value == joinName && nextName == joinName + 1
      requires join.None? ==> nextName == joinName
      modifies this
      ensures Valid() && curBlock == None
      ensures blocks == old(blocks)[name := BasicBlock([], StepTerminator(step, joinName), kind)]
      ensures join'.Some? <==> join.Some? || step.LeaveOpen?
      ensures join'.Some? ==> join'.value == joinName && nextName == joinName + 1
      ensures join'.None? ==> nextName == joinName
    {
      join' := join;
      SetCurBlock(name, kind);
      match step {
        case FinishWith(t) => FinishBlock(t);
        case LeaveOpen =>
      }
      if curBlock.Some? {
        if join'.None? {
          var d := DeclareBlock();
          join' := Some(d);
        }
        Goto(join'.value);
      }
    }

    /**
     * `if_`: `switch_int` on the condition as an integer, with the single case
     * 1 for the then-branch and the else-branch as fallback.
     */
    method If(condition: ValueExpr, thenStep: BranchStep, elseStep: BranchStep)
      requires Valid() && curBlock.Some?
      modifies this
      ensures Valid()
      ensures blocks == old(blocks)
                [old(curBlock.value.name) := Close(old(curBlock.value), IfTerminator(condition, old(nextName), old(nextName) + 1))]
                [old(nextName) := BasicBlock([], StepTerminator(thenStep, old(nextName) + 2), old(curBlock.value.kind))]
                [old(nextName) + 1 := BasicBlock([], StepTerminator(elseStep, old(nextName) + 2), old(curBlock.value.kind))]
      ensures thenStep.LeaveOpen? || elseStep.LeaveOpen? ==>
                curBlock == Some(CurBlock(old(nextName) + 2, [], old(curBlock.value.kind))) && nextName == old(nextName) + 3
      ensures !(thenStep.LeaveOpen? || elseStep.LeaveOpen?) ==> curBlock == None && nextName == old(nextName) + 2
    {
      var n0 := nextName;
      var cur := curBlock.value;
      ghost var b0 := blocks;
      var ok := SwitchInt(BoolToInt(condition), [(1, thenStep)], elseStep);
      IfIsSwitchInt(b0, cur, condition, thenStep, elseStep, n0);
    }

    /**
     * `while_`: the condition sits alone in a fresh block reached by a jump; its
     * then-branch runs the body and, if the body leaves its block open, jumps
     * back to the condition; its empty else-branch ends the loop.
     */
    method While(condition: ValueExpr, body: BranchStep)
      requires Valid() && curBlock.Some?
      modifies this
      ensures Valid()
      ensures blocks == old(blocks)
                [old(curBlock.value.name) := Close(old(curBlock.value), GotoTerminator(old(nextName)))]
                [old(nextName) := BasicBlock([], IfTerminator(condition, old(nextName) + 1, old(nextName) + 2), old(curBlock.value.kind))]
                [old(nextName) + 1 := BasicBlock([], StepTerminator(body, old(nextName)), old(curBlock.value.kind))]
                [old(nextName) + 2 := BasicBlock([], GotoTerminator(old(nextName) + 3), old(curBlock.value.kind))]
      ensures curBlock == Some(CurBlock(old(nextName) + 3, [], old(curBlock.value.kind))) && nextName == old(nextName) + 4
    {
      var cond := DeclareBlock();
      var kind := curBlock.value.kind;
      Goto(cond);
      SetCurBlock(cond, kind);
      var thenStep := match body
        case LeaveOpen => FinishWith(GotoTerminator(cond))
        case FinishWith(_) => body;
      assert StepTerminator(thenStep, cond + 3) == StepTerminator(body, cond);
      If(condition, thenStep, LeaveOpen);
    }
  }
}
