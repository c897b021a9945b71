/**
 Lowering of structured control flow to basic blocks: the builder as a mutable object, method by
 method as in src/builder/llvm, and beside it the same emission as functions on builder states,
 about which the theorems of LoweringSound and GraphShape speak.
 */
module Lowering {
  import opened Wrappers
  import opened Ir
  import opened BlockGraph

  /** Branch targets of `continue` and `break` in the innermost loop. */
  datatype Targets = Targets(continueBlock: nat, breakBlock: nat)

  datatype BuilderState = BuilderState(blocks: Graph, cur: nat, loop: Option<Targets>, next: nat)

  type State = s: BuilderState | s.cur < |s.blocks| witness BuilderState([[]], 0, None, 0)

  function Here(st: State): Code {
    st.blocks[st.cur]
  }

  /** The insertion block ends in a terminator. */
  predicate Terminated(st: State) {
    Here(st) != [] && Here(st)[|Here(st)| - 1].IsTerminator()
  }

  function Append(st: State, i: Instr): (st': State) {
    st.(blocks := st.blocks[st.cur := st.blocks[st.cur] + [i]])
  }

  /** Append an instruction that defines the next register. */
  function Define(st: State, i: Instr): (st': State) {
    Append(st, i).(next := st.next + 1)
  }

  /** Create `n` empty blocks behind the existing ones; the insertion point stays. */
  function NewBlocks(st: State, n: nat): (st': State)
    ensures |st'.blocks| == |st.blocks| + n
    ensures st'.cur == st.cur && st'.loop == st.loop && st'.next == st.next
    ensures forall i :: 0 <= i < |st.blocks| ==> st'.blocks[i] == st.blocks[i]
    ensures forall i :: |st.blocks| <= i < |st'.blocks| ==> st'.blocks[i] == []
  {
    st.(blocks := st.blocks + seq(n, _ => []))
  }

  function MoveTo(st: State, b: nat): (st': State)
    requires b < |st.blocks|
  {
    st.(cur := b)
  }

  function EmitCondBr(st: State, cond: Operand, thn: nat, els: nat): (st': State) {
    if OperandWidth(cond) == I8 then
      Append(Define(st, Truncate(st.next, cond)), CondBr(Reg(st.next, I1), thn, els))
    else
      Append(st, CondBr(cond, thn, els))
  }

  function EmitToBool(st: State, v: Operand): (r: (State, Operand)) {
    if OperandWidth(v) == I1 then (st, v)
    else (Define(st, NonZero(st.next, v)), Reg(st.next, I1))
  }

  /** A cast to `bool`, which is a byte; nothing for what is a byte already. */
  function EmitCast(st: State, v: Operand): (r: (State, Operand))
    ensures |st.blocks| <= |r.0.blocks| && r.0.loop == st.loop
  {
    if OperandWidth(v) == I8 then (st, v)
    else (Define(st, IntCast(st.next, I8, v)), Reg(st.next, I8))
  }

  /** The branch if the block is still open. */
  function EmitBrIfOpen(st: State, target: nat): (st': State) {
    if Terminated(st) then st else Append(st, Br(target))
  }

  function EmitExpr(e: Expr, st: State): (r: (State, Operand))
    ensures |st.blocks| <= |r.0.blocks| && r.0.loop == st.loop
    decreases e, 1
  {
    match e
    case Const(v, width) => (st, Imm(v, width))
    case Load(name, width) => (Define(st, LoadVar(st.next, width, name)), Reg(st.next, width))
    case Call(callee, width, args) =>
      var (st1, vs) := EmitArgs(args, st);
      (Define(st1, Invoke(st1.next, width, callee, vs)), Reg(st1.next, width))
    case Arith(op, width, l, r) =>
      if l.Load? then
        var (st1, b) := EmitExpr(r, st);
        var (st2, a) := EmitExpr(l, st1);
        (Define(st2, Binary(st2.next, width, op, a, b)), Reg(st2.next, width))
      else
        var (st1, a) := EmitExpr(l, st);
        var (st2, b) := EmitExpr(r, st1);
        (Define(st2, Binary(st2.next, width, op, a, b)), Reg(st2.next, width))
    case And(l, r) =>
      var (st1, a) := EmitExpr(l, st);
      EmitRight(true, r, st1, a)
    case Or(l, r) =>
      var (st1, a) := EmitExpr(l, st);
      EmitRight(false, r, st1, a)
    case Not(x) =>
      var (st1, a) := EmitExpr(x, st);
      var (st2, b) := EmitToBool(st1, a);
      (Define(st2, IsZero(st2.next, b)), Reg(st2.next, I1))
    case CastToBool(x) =>
      var (st1, a) := EmitExpr(x, st);
      EmitCast(st1, a)
  }

  /** The part of `&&` and `||` after the left operand: branch, right operand, join with a phi. */
  function EmitRight(isAnd: bool, r: Expr, st: State, left: Operand): (res: (State, Operand))
    ensures |st.blocks| <= |res.0.blocks| && res.0.loop == st.loop
    decreases r, 2
  {
    var (st2, b) := EmitExpr(r, EmitFork(isAnd, st, left));
    EmitJoin(isAnd, st2, b, st.cur, |st.blocks| + 1)
  }

  /** Test the left operand: on to the right operand, or past it to the join block. */
  function EmitFork(isAnd: bool, st: State, left: Operand): (st': State)
    ensures |st'.blocks| == |st.blocks| + 2 && st'.loop == st.loop && st'.cur == |st.blocks|
  {
    var (st1, a) := EmitToBool(st, left);
    var t := |st.blocks|;
    MoveTo(EmitCondBr(NewBlocks(st1, 2), a, if isAnd then t else t + 1, if isAnd then t + 1 else t), t)
  }

  /** Compare the right operand with zero, branch to the join block and choose the result there. */
  function EmitJoin(isAnd: bool, st: State, right: Operand, from: nat, join: nat): (res: (State, Operand))
    requires join < |st.blocks|
    ensures |st.blocks| == |res.0.blocks| && res.0.loop == st.loop
  {
    var (st1, b) := EmitToBool(st, right);
    var st2 := MoveTo(Append(Define(st1, NonZero(st1.next, b)), Br(join)), join);
    (Define(st2, Phi(st2.next, Imm(BoolBit(!isAnd), I1), from, Reg(st1.next, I1), st1.cur)), Reg(st2.next, I1))
  }

  function EmitArgs(es: seq<Expr>, st: State): (r: (State, seq<Operand>))
    ensures |st.blocks| <= |r.0.blocks| && r.0.loop == st.loop
    decreases es, 0
  {
    if es == [] then (st, [])
    else
      var (st1, v) := EmitExpr(es[0], st);
      var (st2, vs) := EmitArgs(es[1..], st1);
      (st2, [v] + vs)
  }

  function EmitStmt(s: Stmt, st: State): (st': State)
    requires Scoped(s, st.loop.Some?)
    ensures |st.blocks| <= |st'.blocks| && st'.loop == st.loop
    decreases s, 1
  {
    match s
    case Block(stmts) => EmitSeq(stmts, st)
    case Eval(e) => EmitExpr(e, st).0
    case Assign(name, e) =>
      var (st1, v) := EmitExpr(e, st);
      Append(st1, StoreVar(name, v))
    case If(_, _, _) => EmitIf(s, st)
    case Loop(_, _, _, _) => EmitLoop(s, st)
    case Break => Append(st, Br(st.loop.value.breakBlock))
    case Continue => Append(st, Br(st.loop.value.continueBlock))
    case Return(None) => Append(st, Ret(None))
    case Return(Some(e)) =>
      var (st1, v) := EmitExpr(e, st);
      Append(st1, Ret(Some(v)))
  }

  /** A nested body: emitted into block `b`, and closed with a branch to `target` where it is still open. */
  function EmitArm(s: Stmt, st: State, b: nat, target: nat): (st': State)
    requires Scoped(s, st.loop.Some?) && b < |st.blocks|
    ensures |st.blocks| <= |st'.blocks| && st'.loop == st.loop
    decreases s, 2
  {
    EmitBrIfOpen(EmitStmt(s, MoveTo(st, b)), target)
  }

  /** Two arms that meet in a third block. */
  function EmitIf(s: Stmt, st: State): (st': State)
    requires s.If? && Scoped(s, st.loop.Some?)
    ensures |st.blocks| <= |st'.blocks| && st'.loop == st.loop
    decreases s, 0, 1
  {
    var t := |st.blocks|;
    MoveTo(EmitElse(s, EmitThen(s, st), t), t + 2)
  }

  /** The test and the first arm. */
  function EmitThen(s: Stmt, st: State): (st': State)
    requires s.If? && Scoped(s, st.loop.Some?)
    ensures |st.blocks| + 3 <= |st'.blocks| && st'.loop == st.loop
    decreases s, 0, 0
  {
    EmitArm(s.thn, EmitBranch(s.cond, st), |st.blocks|, |st.blocks| + 2)
  }

  /** The three blocks of an `if`, and the test. */
  function EmitBranch(cond: Expr, st: State): (st': State)
    ensures |st.blocks| + 3 <= |st'.blocks| && st'.loop == st.loop
  {
    EmitTest(cond, NewBlocks(st, 3), |st.blocks|, |st.blocks| + 1)
  }

  /** The second arm; without an `else` it is a branch to the third block. */
  function EmitElse(s: Stmt, st: State, t: nat): (st': State)
    requires s.If? && Scoped(s, st.loop.Some?) && t + 1 < |st.blocks|
    ensures |st.blocks| <= |st'.blocks| && st'.loop == st.loop
    decreases s, 0, 0
  {
    if s.els.Some? then EmitArm(s.els.value, st, t + 1, t + 2) else Append(MoveTo(st, t + 1), Br(t + 2))
  }

  function InLoop(st: State, continueBlock: nat, breakBlock: nat): (st': State) {
    st.(loop := Some(Targets(continueBlock, breakBlock)))
  }

  /** The three blocks of every loop, its branch targets, and then one of the three layouts. */
  function EmitLoop(s: Stmt, st: State): (st': State)
    requires s.Loop? && Scoped(s, st.loop.Some?)
    ensures |st.blocks| <= |st'.blocks| && st'.loop == st.loop
    decreases s, 0, 2
  {
    var h := |st.blocks|;
    EmitLayout(s, InLoop(NewBlocks(st, 3), h, h + 2), h).(loop := st.loop)
  }

  /** The test block is `h`, the body block `h + 1`, the block after the loop `h + 2`. */
  function EmitLayout(s: Stmt, st: State, h: nat): (st': State)
    requires s.Loop? && Scoped(s, false) && st.loop.Some? && h + 3 <= |st.blocks|
    ensures |st.blocks| <= |st'.blocks| && st'.cur == h + 2
    decreases s, 0, 1
  {
    if s.doWhile then EmitDoWhile(s, st, h)
    else if s.step.Some? then EmitFor(s, st, h)
    else EmitWhile(s, st, h)
  }

  function EmitDoWhile(s: Stmt, st: State, h: nat): (st': State)
    requires s.Loop? && Scoped(s, false) && st.loop.Some? && h + 3 <= |st.blocks|
    ensures |st.blocks| <= |st'.blocks| && st'.cur == h + 2
    decreases s, 0, 0
  {
    var st1 := EmitArm(s.body, Append(st, Br(h + 1)), h + 1, h);
    MoveTo(EmitTest(s.cond, MoveTo(st1, h), h + 1, h + 2), h + 2)
  }

  function EmitFor(s: Stmt, st: State, h: nat): (st': State)
    requires s.Loop? && s.step.Some? && Scoped(s, false) && st.loop.Some? && h + 3 <= |st.blocks|
    ensures |st.blocks| <= |st'.blocks| && st'.cur == h + 2
    decreases s, 0, 0
  {
    var forCond := |st.blocks|;
    var st1 := InLoop(EmitHeader(s.cond, NewBlocks(st, 1), h), forCond, h + 2);
    var st2 := EmitArm(s.body, st1, h + 1, forCond);
    MoveTo(EmitStep(s.step.value, MoveTo(st2, forCond), h), h + 2)
  }

  function EmitStep(step: Expr, st: State, h: nat): (st': State)
    ensures |st.blocks| <= |st'.blocks| && st'.loop == st.loop
  {
    Append(EmitExpr(step, st).0, Br(h))
  }

  function EmitWhile(s: Stmt, st: State, h: nat): (st': State)
    requires s.Loop? && Scoped(s, false) && st.loop.Some? && h + 3 <= |st.blocks|
    ensures |st.blocks| <= |st'.blocks| && st'.cur == h + 2
    decreases s, 0, 0
  {
    MoveTo(EmitArm(s.body, EmitHeader(s.cond, st, h), h + 1, h), h + 2)
  }

  /** Evaluate a condition and branch on it. */
  function EmitTest(cond: Expr, st: State, thn: nat, els: nat): (st': State)
    ensures |st.blocks| <= |st'.blocks| && st'.loop == st.loop
  {
    var (st1, c) := EmitExpr(cond, st);
    EmitCondBr(st1, c, thn, els)
  }

  /** Enter a test-first loop and test its condition in block `h`. */
  function EmitHeader(cond: Expr, st: State, h: nat): (st': State)
    requires h < |st.blocks|
    ensures |st.blocks| <= |st'.blocks| && st'.loop == st.loop
  {
    EmitTest(cond, MoveTo(Append(st, Br(h)), h), h + 1, h + 2)
  }

  function EmitSeq(stmts: seq<Stmt>, st: State): (st': State)
    requires forall x | x in stmts :: Scoped(x, st.loop.Some?)
    ensures |st.blocks| <= |st'.blocks| && st'.loop == st.loop
    decreases stmts, 0
  {
    if stmts == [] then st else EmitSeq(stmts[1..], EmitStmt(stmts[0], st))
  }

  function ClosingValue(kind: FuncKind): Option<Operand> {
    match kind
    case Procedure => None
    case Constructor => Some(SelfArg)
    case ValueFunction => Some(Imm(0, Wide))
  }

  function EmitFunction(kind: FuncKind, body: Stmt): (st: State)
    requires Scoped(body, false)
  {
    var st := EmitStmt(body, BuilderState([[Br(1)], []], 1, None, 0));
    if Terminated(st) then st else Append(st, Ret(ClosingValue(kind)))
  }

  /** The builder object, with the fields the visits read and write. */
  class LLVMBuilder {
    var blocks: Graph
    var insertBlock: nat
    var loop: Option<Targets>
    var nextValue: nat

    predicate Valid()
      reads this
    {
      insertBlock < |blocks|
    }

    function St(): State
      requires Valid()
      reads this
    {
      BuilderState(blocks, insertBlock, loop, nextValue)
    }

    /** A function with its entry block and its empty body block. */
    constructor ()
      ensures Valid() && St() == BuilderState([[Br(1)], []], 1, None, 0)
    {
      blocks := [[Br(1)], []];
      insertBlock, loop, nextValue := 1, None, 0;
    }

    method CreateBlock() returns (b: nat)
      requires Valid()
      modifies this`blocks
      ensures Valid() && b == |old(blocks)| && blocks == old(blocks) + [[]]
    {
      b := |blocks|;
      blocks := blocks + [[]];
    }

    method SetInsertPoint(b: nat)
      requires Valid() && b < |blocks|
      modifies this`insertBlock
      ensures Valid() && St() == MoveTo(old(St()), b)
    {
      insertBlock := b;
    }

    method Insert(i: Instr)
      requires Valid()
      modifies this`blocks
      ensures Valid() && St() == Append(old(St()), i)
    {
      blocks := blocks[insertBlock := blocks[insertBlock] + [i]];
    }

    method HasTerminator() returns (b: bool)
      requires Valid()
      ensures b == Terminated(St())
    {
      var code := blocks[insertBlock];
      b := |code| > 0 && code[|code| - 1].IsTerminator();
    }

    method NewValue() returns (r: nat)
      requires Valid()
      modifies this`nextValue
      ensures Valid() && r == old(nextValue) && nextValue == old(nextValue) + 1
    {
      r := nextValue;
      nextValue := nextValue + 1;
    }

    method CreateCondBr(cond: Operand, thn: nat, els: nat)
      requires Valid()
      modifies this
      ensures Valid() && St() == EmitCondBr(old(St()), cond, thn, els)
    {
      var c := cond;
      if OperandWidth(c) == I8 {
        var r := NewValue();
        Insert(Truncate(r, c));
        c := Reg(r, I1);
      }
      Insert(CondBr(c, thn, els));
    }

    method ToBool(v: Operand) returns (r: Operand)
      requires Valid()
      modifies this
      ensures Valid() && (St(), r) == EmitToBool(old(St()), v)
    {
      if OperandWidth(v) == I1 {
        return v;
      }
      var d := NewValue();
      Insert(NonZero(d, v));
      r := Reg(d, I1);
    }

    method Cast(v: Operand) returns (r: Operand)
      requires Valid()
      modifies this
      ensures Valid() && (St(), r) == EmitCast(old(St()), v)
    {
      if OperandWidth(v) == I8 {
        return v;
      }
      var d := NewValue();
      Insert(IntCast(d, I8, v));
      r := Reg(d, I8);
    }

    method BuildExpr(e: Expr) returns (v: Operand)
      requires Valid()
      modifies this
      ensures Valid() && (St(), v) == EmitExpr(e, old(St()))
      decreases e, 1
    {
      match e {
        case Const(n, width) => v := Imm(n, width);
        case Load(name, width) =>
          var d := NewValue();
          Insert(LoadVar(d, width, name));
          v := Reg(d, width);
        case Call(callee, width, args) =>
          var vs := BuildArgs(args);
          var d := NewValue();
          Insert(Invoke(d, width, callee, vs));
          v := Reg(d, width);
        case Arith(op, width, l, r) =>
          var left: Operand;
          if !l.Load? {
            left := BuildExpr(l);
          }
          var right := BuildExpr(r);
          if l.Load? {
            left := BuildExpr(l);
          }
          var d := NewValue();
          Insert(Binary(d, width, op, left, right));
          v := Reg(d, width);
        case And(l, r) =>
          var left := BuildExpr(l);
          v := BuildRight(true, r, left);
        case Or(l, r) =>
          var left := BuildExpr(l);
          v := BuildRight(false, r, left);
        case Not(x) =>
          var left := BuildExpr(x);
          left := ToBool(left);
          var d := NewValue();
          Insert(IsZero(d, left));
          v := Reg(d, I1);
        case CastToBool(x) =>
          v := BuildExpr(x);
          v := Cast(v);
      }
    }

    method BuildRight(isAnd: bool, r: Expr, operand: Operand) returns (v: Operand)
      requires Valid()
      modifies this
      ensures Valid() && (St(), v) == EmitRight(isAnd, r, old(St()), operand)
      decreases r, 2
    {
      var currentBlock, continueBlock := BuildFork(isAnd, operand);
      var right := BuildExpr(r);
      v := BuildJoin(isAnd, right, currentBlock, continueBlock);
    }

    method BuildFork(isAnd: bool, operand: Operand) returns (currentBlock: nat, continueBlock: nat)
      requires Valid()
      modifies this
      ensures Valid() && St() == EmitFork(isAnd, old(St()), operand)
      ensures currentBlock == old(insertBlock) && continueBlock == |old(blocks)| + 1
    {
      var left := ToBool(operand);
      ghost var st1 := St();
      currentBlock := insertBlock;
      var trueBlock := CreateBlock();
      continueBlock := CreateBlock();
      assert St() == NewBlocks(st1, 2);
      if isAnd {
        CreateCondBr(left, trueBlock, continueBlock);
      } else {
        CreateCondBr(left, continueBlock, trueBlock);
      }
      SetInsertPoint(trueBlock);
    }

    method BuildJoin(isAnd: bool, operand: Operand, currentBlock: nat, continueBlock: nat) returns (v: Operand)
      requires Valid() && continueBlock < |blocks|
      modifies this
      ensures Valid() && (St(), v) == EmitJoin(isAnd, old(St()), operand, currentBlock, continueBlock)
    {
      var right := ToBool(operand);
      var trueNode := insertBlock;
      var cmp := NewValue();
      Insert(NonZero(cmp, right));
      Insert(Br(continueBlock));
      SetInsertPoint(continueBlock);
      var d := NewValue();
      Insert(Phi(d, Imm(BoolBit(!isAnd), I1), currentBlock, Reg(cmp, I1), trueNode));
      v := Reg(d, I1);
    }

    method BuildArgs(args: seq<Expr>) returns (vs: seq<Operand>)
      requires Valid()
      modifies this
      ensures Valid() && (St(), vs) == EmitArgs(args, old(St()))
      decreases args, 0
    {
      vs := [];
      ghost var start := St();
      for i := 0 to |args|
        invariant Valid()
        invariant EmitArgs(args[i..], St()).0 == EmitArgs(args, start).0
        invariant vs + EmitArgs(args[i..], St()).1 == EmitArgs(args, start).1
      {
        assert args[i..][1..] == args[i + 1..];
        var v := BuildExpr(args[i]);
        vs := vs + [v];
      }
      assert EmitArgs(args[|args|..], St()) == (St(), []);
      assert vs + [] == vs;
    }

    method VisitBlock(stmts: seq<Stmt>)
      requires Valid() && forall x | x in stmts :: Scoped(x, loop.Some?)
      modifies this
      ensures Valid() && St() == EmitSeq(stmts, old(St()))
      decreases stmts, 0
    {
      ghost var start := St();
      for i := 0 to |stmts|
        invariant Valid() && loop == start.loop
        invariant EmitSeq(stmts[i..], St()) == EmitSeq(stmts, start)
      {
        assert stmts[i..][1..] == stmts[i + 1..];
        Build(stmts[i]);
      }
    }

    method Build(s: Stmt)
      requires Valid() && Scoped(s, loop.Some?)
      modifies this
      ensures Valid() && St() == EmitStmt(s, old(St()))
      decreases s, 1
    {
      match s {
        case Block(stmts) => VisitBlock(stmts);
        case Eval(e) => var _ := BuildExpr(e);
        case Assign(name, e) =>
          var v := BuildExpr(e);
          Insert(StoreVar(name, v));
        case If(_, _, _) => VisitConditional(s);
        case Loop(_, _, _, _) => VisitWhileLoop(s);
        case Break => Insert(Br(loop.value.breakBlock));
        case Continue => Insert(Br(loop.value.continueBlock));
        case Return(None) => Insert(Ret(None));
        case Return(Some(e)) =>
          var v := BuildExpr(e);
          Insert(Ret(Some(v)));
      }
    }

    method BuildArm(s: Stmt, b: nat, target: nat)
      requires Valid() && Scoped(s, loop.Some?) && b < |blocks|
      modifies this
      ensures Valid() && St() == EmitArm(s, old(St()), b, target)
      decreases s, 2
    {
      SetInsertPoint(b);
      Build(s);
      var closed := HasTerminator();
      if !closed {
        Insert(Br(target));
      }
    }

    method VisitConditional(s: Stmt)
      requires Valid() && s.If? && Scoped(s, loop.Some?)
      modifies this
      ensures Valid() && St() == EmitStmt(s, old(St()))
      decreases s, 0, 1
    {
      var trueBB := BuildThen(s);
      BuildElse(s, trueBB);
      SetInsertPoint(trueBB + 2);
    }

    method BuildThen(s: Stmt) returns (trueBB: nat)
      requires Valid() && s.If? && Scoped(s, loop.Some?)
      modifies this
      ensures Valid() && St() == EmitThen(s, old(St())) && trueBB == |old(blocks)|
      decreases s, 0, 0
    {
      trueBB := BuildBranch(s.cond);
      BuildArm(s.thn, trueBB, trueBB + 2);
    }

    method BuildBranch(cond: Expr) returns (trueBB: nat)
      requires Valid()
      modifies this
      ensures Valid() && St() == EmitBranch(cond, old(St())) && trueBB == |old(blocks)|
    {
      ghost var start := St();
      trueBB := CreateBlock();
      var falseBB := CreateBlock();
      var continueBB := CreateBlock();
      assert St() == NewBlocks(start, 3);
      BuildTest(cond, trueBB, falseBB);
    }

    method BuildElse(s: Stmt, trueBB: nat)
      requires Valid() && s.If? && Scoped(s, loop.Some?) && trueBB + 1 < |blocks|
      modifies this
      ensures Valid() && St() == EmitElse(s, old(St()), trueBB)
      decreases s, 0, 0
    {
      var falseBB, continueBB := trueBB + 1, trueBB + 2;
      if s.els.Some? {
        BuildArm(s.els.value, falseBB, continueBB);
      } else {
        SetInsertPoint(falseBB);
        Insert(Br(continueBB));
      }
    }

    method VisitWhileLoop(s: Stmt)
      requires Valid() && s.Loop? && Scoped(s, loop.Some?)
      modifies this
      ensures Valid() && St() == EmitStmt(s, old(St()))
      decreases s, 0, 2
    {
      ghost var start := St();
      var condBB := CreateBlock();
      var whileBB := CreateBlock();
      var continueBB := CreateBlock();
      assert St() == NewBlocks(start, 3);
      var backupLoop := loop;
      loop := Some(Targets(condBB, continueBB));
      LayOut(s, condBB, whileBB, continueBB);
      loop := backupLoop;
    }

    method LayOut(s: Stmt, condBB: nat, whileBB: nat, continueBB: nat)
      requires Valid() && s.Loop? && Scoped(s, false) && loop == Some(Targets(condBB, continueBB))
      requires whileBB == condBB + 1 && continueBB == condBB + 2 && condBB + 3 <= |blocks|
      modifies this
      ensures Valid() && St() == EmitLayout(s, old(St()), condBB)
      decreases s, 0, 1
    {
      if s.doWhile {
        LayOutDoWhile(s, condBB, whileBB, continueBB);
      } else if s.step.Some? {
        LayOutFor(s, condBB, whileBB, continueBB);
      } else {
        LayOutWhile(s, condBB, whileBB, continueBB);
      }
    }

    method LayOutDoWhile(s: Stmt, condBB: nat, whileBB: nat, continueBB: nat)
      requires Valid() && s.Loop? && Scoped(s, false) && loop.Some?
      requires whileBB == condBB + 1 && continueBB == condBB + 2 && condBB + 3 <= |blocks|
      modifies this
      ensures Valid() && St() == EmitDoWhile(s, old(St()), condBB)
      decreases s, 0, 0
    {
      Insert(Br(whileBB));
      BuildArm(s.body, whileBB, condBB);
      SetInsertPoint(condBB);
      BuildTest(s.cond, whileBB, continueBB);
      SetInsertPoint(continueBB);
    }

    method LayOutFor(s: Stmt, condBB: nat, whileBB: nat, continueBB: nat)
      requires Valid() && s.Loop? && s.step.Some? && Scoped(s, false) && loop.Some?
      requires whileBB == condBB + 1 && continueBB == condBB + 2 && condBB + 3 <= |blocks|
      requires loop.value.breakBlock == continueBB
      modifies this
      ensures Valid() && St() == EmitFor(s, old(St()), condBB)
      decreases s, 0, 0
    {
      ghost var start := St();
      var forCondBB := CreateBlock();
      assert St() == NewBlocks(start, 1);
      BuildHeader(s.cond, condBB);
      loop := Some(loop.value.(continueBlock := forCondBB));
      BuildArm(s.body, whileBB, forCondBB);
      SetInsertPoint(forCondBB);
      BuildStep(s.step.value, condBB);
      SetInsertPoint(continueBB);
    }

    method BuildStep(step: Expr, condBB: nat)
      requires Valid()
      modifies this
      ensures Valid() && St() == EmitStep(step, old(St()), condBB)
    {
      var _ := BuildExpr(step);
      Insert(Br(condBB));
    }

    method LayOutWhile(s: Stmt, condBB: nat, whileBB: nat, continueBB: nat)
      requires Valid() && s.Loop? && Scoped(s, false) && loop.Some?
      requires whileBB == condBB + 1 && continueBB == condBB + 2 && condBB + 3 <= |blocks|
      modifies this
      ensures Valid() && St() == EmitWhile(s, old(St()), condBB)
      decreases s, 0, 0
    {
      BuildHeader(s.cond, condBB);
      BuildArm(s.body, whileBB, condBB);
      SetInsertPoint(continueBB);
    }

    method BuildHeader(cond: Expr, condBB: nat)
      requires Valid() && condBB < |blocks|
      modifies this
      ensures Valid() && St() == EmitHeader(cond, old(St()), condBB)
    {
      Insert(Br(condBB));
      SetInsertPoint(condBB);
      BuildTest(cond, condBB + 1, condBB + 2);
    }

    /** `expr` and `createCondBr`, as every conditional and loop calls them. */
    method BuildTest(cond: Expr, thn: nat, els: nat)
      requires Valid()
      modifies this
      ensures Valid() && St() == EmitTest(cond, old(St()), thn, els)
    {
      var c := BuildExpr(cond);
      CreateCondBr(c, thn, els);
    }

    /** The body of a function and its closing return, in a builder that has just been created. */
    method BuildBody(kind: FuncKind, body: Stmt)
      requires Valid() && St() == BuilderState([[Br(1)], []], 1, None, 0) && Scoped(body, false)
      modifies this
      ensures Valid() && St() == EmitFunction(kind, body)
    {
      Build(body);
      var closed := HasTerminator();
      if !closed {
        match kind {
          case Procedure => Insert(Ret(None));
          case Constructor => Insert(Ret(Some(SelfArg)));
          case ValueFunction => Insert(Ret(Some(Imm(0, Wide))));
        }
      }
    }
  }
}
