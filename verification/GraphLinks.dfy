/**
 How the blocks of a lowered function hang together: every branch leads to a block that exists, and
 the two incoming blocks of each phi are exactly the predecessors of its block.
 */
module GraphLinks {
  import opened Wrappers
  import opened Ir
  import opened BlockGraph
  import opened Lowering
  import opened LoweringFrame

  predicate Jumps(i: Instr, b: nat) {
    (i.Br? && i.target == b) || (i.CondBr? && (i.thn == b || i.els == b))
  }

  ghost predicate JumpsTo(code: Code, b: nat) {
    exists k :: 0 <= k < |code| && Jumps(code[k], b)
  }

  /** The blocks with a branch to `b`. */
  ghost function Preds(g: Graph, b: nat): set<nat> {
    set p: nat | p < |g| && JumpsTo(g[p], b)
  }

  predicate HasPhi(code: Code) {
    code != [] && code[0].Phi?
  }

  ghost predicate LinkedAt(g: Graph, b: nat) {
    if b >= |g| then Preds(g, b) == {}
    else
      && (HasPhi(g[b]) ==> Preds(g, b) == {g[b][0].fromA, g[b][0].fromB})
      && forall k :: 0 < k < |g[b]| ==> !g[b][k].Phi?
  }

  /** Branch targets exist; a phi stands first in its block and names exactly its predecessors. */
  ghost predicate Linked(g: Graph) {
    forall b :: LinkedAt(g, b)
  }

  /** A block a branch may be added to: it exists and chooses nothing by predecessor. */
  predicate Joinable(g: Graph, b: nat) {
    b < |g| && !HasPhi(g[b])
  }

  ghost predicate EdgesKeptAt(g: Graph, g': Graph, b: nat) {
    b < |g| ==> b < |g'| && Preds(g', b) == Preds(g, b) && HasPhi(g'[b]) == HasPhi(g[b])
  }

  /** Expressions add neither predecessors nor a phi to any block that was there before. */
  ghost predicate EdgesKept(g: Graph, g': Graph) {
    forall b :: EdgesKeptAt(g, g', b)
  }

  predicate PhiKeptAt(g: Graph, g': Graph, b: nat) {
    Joinable(g, b) ==> Joinable(g', b)
  }

  /** Joinable blocks stay joinable. */
  ghost predicate PhisKept(g: Graph, g': Graph) {
    forall b :: PhiKeptAt(g, g', b)
  }

  lemma PhisTransitive(a: Graph, b: Graph, c: Graph)
    requires PhisKept(a, b) && PhisKept(b, c)
    ensures PhisKept(a, c)
  {
    forall i: nat
      ensures PhiKeptAt(a, c, i)
    {
      assert PhiKeptAt(a, b, i) && PhiKeptAt(b, c, i);
    }
  }

  lemma StaysJoinable(g: Graph, g': Graph, b: nat)
    requires PhisKept(g, g') && Joinable(g, b)
    ensures Joinable(g', b)
  {
    assert PhiKeptAt(g, g', b);
  }

  lemma StaysReady(st: State, st': State)
    requires PhisKept(st.blocks, st'.blocks) && TargetsOk(st) && st'.loop == st.loop
    ensures TargetsOk(st')
  {
    if st.loop.Some? {
      StaysJoinable(st.blocks, st'.blocks, st.loop.value.continueBlock);
      StaysJoinable(st.blocks, st'.blocks, st.loop.value.breakBlock);
    }
  }

  lemma AppendPreds(st: State, i: Instr, b: nat)
    ensures Preds(Append(st, i).blocks, b) == Preds(st.blocks, b) + if Jumps(i, b) then {st.cur} else {}
  {
    var g, g' := st.blocks, Append(st, i).blocks;
    forall p: nat
      ensures p in Preds(g', b) <==> p in Preds(g, b) || (Jumps(i, b) && p == st.cur)
    {
      if p == st.cur {
        assert g'[p] == g[p] + [i];
        if JumpsTo(g[p], b) {
          var k :| 0 <= k < |g[p]| && Jumps(g[p][k], b);
          assert Jumps(g'[p][k], b);
        }
        if Jumps(i, b) {
          assert Jumps(g'[p][|g[p]|], b);
        }
      }
    }
  }

  lemma NewBlocksPreds(st: State, n: nat, b: nat)
    ensures Preds(NewBlocks(st, n).blocks, b) == Preds(st.blocks, b)
  {
    var g, g' := st.blocks, NewBlocks(st, n).blocks;
    forall p: nat
      ensures p in Preds(g', b) <==> p in Preds(g, b)
    {
      if p < |g| {
        assert g'[p] == g[p];
      } else if p < |g'| {
        assert g'[p] == [];
      }
    }
  }

  /** An instruction that is no branch and no phi changes no link. */
  lemma AppendPlain(st: State, i: Instr)
    requires Linked(st.blocks) && !i.Phi? && !i.Br? && !i.CondBr?
    ensures Linked(Append(st, i).blocks) && EdgesKept(st.blocks, Append(st, i).blocks)
  {
    var g, g' := st.blocks, Append(st, i).blocks;
    forall b: nat
      ensures LinkedAt(g', b) && EdgesKeptAt(g, g', b)
    {
      AppendPreds(st, i, b);
      assert LinkedAt(g, b);
    }
  }

  /** A branch to joinable blocks keeps the links; only its targets get a predecessor. */
  lemma AppendBranch(st: State, i: Instr)
    requires Linked(st.blocks)
    requires i.Br? || i.CondBr?
    requires i.Br? ==> Joinable(st.blocks, i.target)
    requires i.CondBr? ==> Joinable(st.blocks, i.thn) && Joinable(st.blocks, i.els)
    ensures Linked(Append(st, i).blocks) && PhisKept(st.blocks, Append(st, i).blocks)
  {
    var g, g' := st.blocks, Append(st, i).blocks;
    forall b: nat
      ensures LinkedAt(g', b)
    {
      AppendPreds(st, i, b);
      assert LinkedAt(g, b);
    }
    forall b: nat
      ensures PhiKeptAt(g, g', b)
    {
    }
  }

  lemma NewBlocksLinked(st: State, n: nat)
    requires Linked(st.blocks)
    ensures Linked(NewBlocks(st, n).blocks) && EdgesKept(st.blocks, NewBlocks(st, n).blocks)
    ensures forall b :: |st.blocks| <= b < |st.blocks| + n ==> Preds(NewBlocks(st, n).blocks, b) == {}
  {
    var g, g' := st.blocks, NewBlocks(st, n).blocks;
    forall b: nat
      ensures LinkedAt(g', b) && EdgesKeptAt(g, g', b)
      ensures b >= |g| ==> Preds(g', b) == {}
    {
      NewBlocksPreds(st, n, b);
      assert LinkedAt(g, b);
    }
  }

  lemma EdgesTransitive(a: Graph, b: Graph, c: Graph)
    requires EdgesKept(a, b) && EdgesKept(b, c)
    ensures EdgesKept(a, c)
  {
    forall i: nat
      ensures EdgesKeptAt(a, c, i)
    {
      assert EdgesKeptAt(a, b, i) && EdgesKeptAt(b, c, i);
    }
  }

  lemma EdgesKeepPhis(a: Graph, b: Graph)
    requires EdgesKept(a, b)
    ensures PhisKept(a, b)
  {
    forall i: nat
      ensures PhiKeptAt(a, b, i)
    {
      assert EdgesKeptAt(a, b, i);
    }
  }

  lemma LinkToBool(st: State, v: Operand)
    requires Linked(st.blocks)
    ensures Linked(EmitToBool(st, v).0.blocks) && EdgesKept(st.blocks, EmitToBool(st, v).0.blocks)
  {
    if OperandWidth(v) != I1 {
      AppendPlain(st, NonZero(st.next, v));
    } else {
      forall b: nat
        ensures EdgesKeptAt(st.blocks, st.blocks, b)
      {
      }
    }
  }

  lemma LinkCondBr(st: State, cond: Operand, thn: nat, els: nat)
    requires Linked(st.blocks) && Joinable(st.blocks, thn) && Joinable(st.blocks, els)
    ensures Linked(EmitCondBr(st, cond, thn, els).blocks)
    ensures PhisKept(st.blocks, EmitCondBr(st, cond, thn, els).blocks)
    ensures forall b: nat :: Preds(EmitCondBr(st, cond, thn, els).blocks, b)
                             == Preds(st.blocks, b) + if b == thn || b == els then {st.cur} else {}
  {
    var st1, c := st, cond;
    if OperandWidth(cond) == I8 {
      st1, c := Define(st, Truncate(st.next, cond)), Reg(st.next, I1);
      AppendPlain(st, Truncate(st.next, cond));
      EdgesKeepPhis(st.blocks, st1.blocks);
      StaysJoinable(st.blocks, st1.blocks, thn);
      StaysJoinable(st.blocks, st1.blocks, els);
      AppendBranch(st1, CondBr(c, thn, els));
      PhisTransitive(st.blocks, st1.blocks, Append(st1, CondBr(c, thn, els)).blocks);
    } else {
      AppendBranch(st1, CondBr(c, thn, els));
    }
    forall b: nat
      ensures Preds(Append(st1, CondBr(c, thn, els)).blocks, b)
        == Preds(st.blocks, b) + if b == thn || b == els then {st.cur} else {}
    {
      AppendPreds(st, Truncate(st.next, cond), b);
      AppendPreds(st1, CondBr(c, thn, els), b);
    }
  }

  lemma {:induction false} LinkExpr(e: Expr, st: State)
    requires Linked(st.blocks)
    ensures Linked(EmitExpr(e, st).0.blocks) && EdgesKept(st.blocks, EmitExpr(e, st).0.blocks)
    decreases e, 1
  {
    match e
    case Const(_, _) => LinkToBool(st, Imm(0, I1));
    case Load(name, width) => AppendPlain(st, LoadVar(st.next, width, name));
    case Call(callee, width, args) =>
      LinkArgs(args, st);
      var (st1, vs) := EmitArgs(args, st);
      AppendPlain(st1, Invoke(st1.next, width, callee, vs));
      EdgesTransitive(st.blocks, st1.blocks, EmitExpr(e, st).0.blocks);
    case Arith(op, width, l, r) =>
      var first, second := if l.Load? then r else l, if l.Load? then l else r;
      var (st1, x) := EmitExpr(first, st);
      var (st2, y) := EmitExpr(second, st1);
      LinkExpr(first, st);
      LinkExpr(second, st1);
      EdgesTransitive(st.blocks, st1.blocks, st2.blocks);
      AppendPlain(st2, Binary(st2.next, width, op, if l.Load? then y else x, if l.Load? then x else y));
      EdgesTransitive(st.blocks, st2.blocks, EmitExpr(e, st).0.blocks);
    case And(l, r) =>
      LinkExpr(l, st);
      var (st1, a) := EmitExpr(l, st);
      LinkRight(true, r, st1, a);
      EdgesTransitive(st.blocks, st1.blocks, EmitExpr(e, st).0.blocks);
    case Or(l, r) =>
      LinkExpr(l, st);
      var (st1, a) := EmitExpr(l, st);
      LinkRight(false, r, st1, a);
      EdgesTransitive(st.blocks, st1.blocks, EmitExpr(e, st).0.blocks);
    case Not(x) =>
      LinkExpr(x, st);
      var (st1, a) := EmitExpr(x, st);
      var (st2, b) := EmitToBool(st1, a);
      LinkToBool(st1, a);
      EdgesTransitive(st.blocks, st1.blocks, st2.blocks);
      AppendPlain(st2, IsZero(st2.next, b));
      EdgesTransitive(st.blocks, st2.blocks, EmitExpr(e, st).0.blocks);
    case CastToBool(x) =>
      LinkExpr(x, st);
      var (st1, a) := EmitExpr(x, st);
      AppendPlain(st1, IntCast(st1.next, I8, a));
      EdgesTransitive(st.blocks, st1.blocks, EmitExpr(e, st).0.blocks);
  }

  lemma LinkFork(isAnd: bool, st: State, left: Operand)
    requires Linked(st.blocks)
    ensures var st' := EmitFork(isAnd, st, left);
      && Linked(st'.blocks) && EdgesKept(st.blocks, st'.blocks) && Preds(st'.blocks, |st.blocks| + 1) == {st.cur}
  {
    var t := |st.blocks|;
    var (st1, a) := EmitToBool(st, left);
    var st2 := NewBlocks(st1, 2);
    var thn, els := if isAnd then t else t + 1, if isAnd then t + 1 else t;
    LinkToBool(st, left);
    NewBlocksLinked(st1, 2);
    LinkCondBr(st2, a, thn, els);
    EdgesTransitive(st.blocks, st1.blocks, st2.blocks);
    forall b: nat
      ensures EdgesKeptAt(st.blocks, EmitFork(isAnd, st, left).blocks, b)
    {
      assert EdgesKeptAt(st.blocks, st2.blocks, b);
    }
  }

  /** The join block is empty and has one predecessor; it ends up with two, those of its phi. */
  lemma LinkJoin(isAnd: bool, st: State, right: Operand, from: nat, join: nat)
    requires join < |st.blocks| && join != st.cur && st.blocks[join] == []
    requires Linked(st.blocks) && Preds(st.blocks, join) == {from}
    ensures var g' := EmitJoin(isAnd, st, right, from, join).0.blocks;
      && Linked(g') && Preds(g', join) == {from, st.cur}
      && forall b: nat :: b < |st.blocks| && b != join ==> EdgesKeptAt(st.blocks, g', b)
  {
    var (st1, v) := EmitToBool(st, right);
    var st2 := Define(st1, NonZero(st1.next, v));
    var st3 := MoveTo(Append(st2, Br(join)), join);
    var phi := Phi(st3.next, Imm(BoolBit(!isAnd), I1), from, Reg(st1.next, I1), st1.cur);
    var g' := Append(st3, phi).blocks;
    LinkToBool(st, right);
    AppendPlain(st1, NonZero(st1.next, v));
    EdgesTransitive(st.blocks, st1.blocks, st2.blocks);
    assert EdgesKeptAt(st.blocks, st2.blocks, join);
    AppendBranch(st2, Br(join));
    forall b: nat
      ensures LinkedAt(g', b)
      ensures b < |st.blocks| && b != join ==> EdgesKeptAt(st.blocks, g', b)
      ensures b == join ==> Preds(g', b) == {from, st.cur}
    {
      assert EdgesKeptAt(st.blocks, st2.blocks, b);
      AppendPreds(st2, Br(join), b);
      AppendPreds(st3, phi, b);
      assert LinkedAt(st3.blocks, b);
    }
  }

  lemma {:induction false} LinkRight(isAnd: bool, r: Expr, st: State, left: Operand)
    requires Linked(st.blocks)
    ensures Linked(EmitRight(isAnd, r, st, left).0.blocks)
    ensures EdgesKept(st.blocks, EmitRight(isAnd, r, st, left).0.blocks)
    decreases r, 2
  {
    var t := |st.blocks|;
    var st1 := EmitFork(isAnd, st, left);
    var (st2, b) := EmitExpr(r, st1);
    LinkFork(isAnd, st, left);
    ForkGrows(isAnd, st, left);
    LinkExpr(r, st1);
    ExprKeepsBlock(r, st1, t + 1);
    LinkJoined(isAnd, st.blocks, st1.blocks, st2, b, st.cur, t + 1);
  }

  lemma LinkJoined(isAnd: bool, a: Graph, a': Graph, st: State, right: Operand, from: nat, join: nat)
    requires EdgesKept(a, a') && EdgesKept(a', st.blocks) && Linked(st.blocks)
    requires |a| <= join < |a'| <= |st.blocks| && join != st.cur && st.blocks[join] == [] && Preds(a', join) == {from}
    ensures Linked(EmitJoin(isAnd, st, right, from, join).0.blocks)
    ensures EdgesKept(a, EmitJoin(isAnd, st, right, from, join).0.blocks)
  {
    assert EdgesKeptAt(a', st.blocks, join);
    LinkJoin(isAnd, st, right, from, join);
    EdgesPast(a, a', st.blocks, EmitJoin(isAnd, st, right, from, join).0.blocks, join);
  }

  /** A change in a block that is new since `a` does not matter to `a`. */
  lemma EdgesPast(a: Graph, a': Graph, b: Graph, c: Graph, join: nat)
    requires EdgesKept(a, a') && EdgesKept(a', b) && |a| <= join
    requires forall i: nat :: i < |b| && i != join ==> EdgesKeptAt(b, c, i)
    ensures EdgesKept(a, c)
  {
    EdgesTransitive(a, a', b);
    forall i: nat
      ensures EdgesKeptAt(a, c, i)
    {
      assert EdgesKeptAt(a, b, i);
      assert i < |b| && i != join ==> EdgesKeptAt(b, c, i);
    }
  }

  lemma {:induction false} LinkArgs(es: seq<Expr>, st: State)
    requires Linked(st.blocks)
    ensures Linked(EmitArgs(es, st).0.blocks) && EdgesKept(st.blocks, EmitArgs(es, st).0.blocks)
    decreases es, 0
  {
    if es == [] {
      LinkToBool(st, Imm(0, I1));
    } else {
      var st1 := EmitExpr(es[0], st).0;
      LinkExpr(es[0], st);
      LinkArgs(es[1..], st1);
      EdgesTransitive(st.blocks, st1.blocks, EmitArgs(es, st).0.blocks);
    }
  }

  // Statements

  predicate TargetsOk(st: State) {
    st.loop.Some? ==> Joinable(st.blocks, st.loop.value.continueBlock) && Joinable(st.blocks, st.loop.value.breakBlock)
  }

  lemma LinkTest(cond: Expr, st: State, thn: nat, els: nat)
    requires Linked(st.blocks) && Joinable(st.blocks, thn) && Joinable(st.blocks, els)
    ensures Linked(EmitTest(cond, st, thn, els).blocks) && PhisKept(st.blocks, EmitTest(cond, st, thn, els).blocks)
  {
    var (st1, c) := EmitExpr(cond, st);
    LinkExpr(cond, st);
    EdgesKeepPhis(st.blocks, st1.blocks);
    StaysJoinable(st.blocks, st1.blocks, thn);
    StaysJoinable(st.blocks, st1.blocks, els);
    LinkCondBr(st1, c, thn, els);
    PhisTransitive(st.blocks, st1.blocks, EmitTest(cond, st, thn, els).blocks);
  }

  lemma {:induction false} LinkStmt(s: Stmt, st: State)
    requires Scoped(s, st.loop.Some?) && Linked(st.blocks) && TargetsOk(st)
    ensures Linked(EmitStmt(s, st).blocks) && PhisKept(st.blocks, EmitStmt(s, st).blocks)
    decreases s, 1
  {
    match s
    case Block(stmts) => LinkSeq(stmts, st);
    case Eval(e) => LinkExpr(e, st); EdgesKeepPhis(st.blocks, EmitExpr(e, st).0.blocks);
    case Assign(name, e) =>
      var (st1, v) := EmitExpr(e, st);
      LinkExpr(e, st);
      AppendPlain(st1, StoreVar(name, v));
      EdgesTransitive(st.blocks, st1.blocks, EmitStmt(s, st).blocks);
      EdgesKeepPhis(st.blocks, EmitStmt(s, st).blocks);
    case If(_, _, _) => LinkIf(s, st);
    case Loop(_, _, _, _) => LinkLoop(s, st);
    case Break => AppendBranch(st, Br(st.loop.value.breakBlock));
    case Continue => AppendBranch(st, Br(st.loop.value.continueBlock));
    case Return(None) => AppendPlain(st, Ret(None)); EdgesKeepPhis(st.blocks, EmitStmt(s, st).blocks);
    case Return(Some(e)) =>
      var (st1, v) := EmitExpr(e, st);
      LinkExpr(e, st);
      AppendPlain(st1, Ret(Some(v)));
      EdgesTransitive(st.blocks, st1.blocks, EmitStmt(s, st).blocks);
      EdgesKeepPhis(st.blocks, EmitStmt(s, st).blocks);
  }

  lemma {:induction false} LinkSeq(stmts: seq<Stmt>, st: State)
    requires (forall x | x in stmts :: Scoped(x, st.loop.Some?)) && Linked(st.blocks) && TargetsOk(st)
    ensures Linked(EmitSeq(stmts, st).blocks) && PhisKept(st.blocks, EmitSeq(stmts, st).blocks)
    decreases stmts, 0
  {
    if stmts == [] {
      LinkToBool(st, Imm(0, I1));
      EdgesKeepPhis(st.blocks, st.blocks);
    } else {
      var st1 := EmitStmt(stmts[0], st);
      LinkStmt(stmts[0], st);
      StaysReady(st, st1);
      LinkSeq(stmts[1..], st1);
      PhisTransitive(st.blocks, st1.blocks, EmitSeq(stmts, st).blocks);
    }
  }

  lemma {:induction false} LinkArm(s: Stmt, st: State, b: nat, target: nat)
    requires Scoped(s, st.loop.Some?) && Linked(st.blocks) && TargetsOk(st)
    requires b < |st.blocks| && Joinable(st.blocks, target)
    ensures Linked(EmitArm(s, st, b, target).blocks) && PhisKept(st.blocks, EmitArm(s, st, b, target).blocks)
    decreases s, 2
  {
    var st1 := EmitStmt(s, MoveTo(st, b));
    LinkStmt(s, MoveTo(st, b));
    if !Terminated(st1) {
      StaysJoinable(st.blocks, st1.blocks, target);
      AppendBranch(st1, Br(target));
      PhisTransitive(st.blocks, st1.blocks, Append(st1, Br(target)).blocks);
    }
  }

  lemma {:induction false} LinkIf(s: Stmt, st: State)
    requires s.If? && Scoped(s, st.loop.Some?) && Linked(st.blocks) && TargetsOk(st)
    ensures Linked(EmitIf(s, st).blocks) && PhisKept(st.blocks, EmitIf(s, st).blocks)
    decreases s, 0, 1
  {
    var st1 := EmitThen(s, st);
    LinkThen(s, st);
    StaysReady(st, st1);
    LinkElse(s, st1, |st.blocks|);
    PhisTransitive(st.blocks, st1.blocks, EmitElse(s, st1, |st.blocks|).blocks);
  }

  lemma {:induction false} LinkThen(s: Stmt, st: State)
    requires s.If? && Scoped(s, st.loop.Some?) && Linked(st.blocks) && TargetsOk(st)
    ensures Linked(EmitThen(s, st).blocks) && PhisKept(st.blocks, EmitThen(s, st).blocks)
    ensures Joinable(EmitThen(s, st).blocks, |st.blocks| + 2)
    decreases s, 0, 0
  {
    var t := |st.blocks|;
    var st0 := NewBlocks(st, 3);
    var st1 := EmitBranch(s.cond, st);
    NewBlocksLinked(st, 3);
    EdgesKeepPhis(st.blocks, st0.blocks);
    LinkTest(s.cond, st0, t, t + 1);
    PhisTransitive(st.blocks, st0.blocks, st1.blocks);
    StaysReady(st, st1);
    StaysJoinable(st0.blocks, st1.blocks, t + 2);
    LinkArm(s.thn, st1, t, t + 2);
    PhisTransitive(st.blocks, st1.blocks, EmitThen(s, st).blocks);
    StaysJoinable(st1.blocks, EmitThen(s, st).blocks, t + 2);
  }

  lemma {:induction false} LinkElse(s: Stmt, st: State, t: nat)
    requires s.If? && Scoped(s, st.loop.Some?) && Linked(st.blocks) && TargetsOk(st)
    requires t + 1 < |st.blocks| && Joinable(st.blocks, t + 2)
    ensures Linked(EmitElse(s, st, t).blocks) && PhisKept(st.blocks, EmitElse(s, st, t).blocks)
    decreases s, 0, 0
  {
    if s.els.Some? {
      LinkArm(s.els.value, st, t + 1, t + 2);
    } else {
      AppendBranch(MoveTo(st, t + 1), Br(t + 2));
    }
  }

  lemma {:induction false} LinkLoop(s: Stmt, st: State)
    requires s.Loop? && Scoped(s, st.loop.Some?) && Linked(st.blocks) && TargetsOk(st)
    ensures Linked(EmitLoop(s, st).blocks) && PhisKept(st.blocks, EmitLoop(s, st).blocks)
    decreases s, 0, 3
  {
    var h := |st.blocks|;
    var st0 := InLoop(NewBlocks(st, 3), h, h + 2);
    NewBlocksLinked(st, 3);
    EdgesKeepPhis(st.blocks, st0.blocks);
    LinkLayout(s, st0, h);
    PhisTransitive(st.blocks, st0.blocks, EmitLayout(s, st0, h).blocks);
  }

  lemma {:induction false} LinkLayout(s: Stmt, st: State, h: nat)
    requires s.Loop? && Scoped(s, false) && Linked(st.blocks) && LoopReady(st, h)
    ensures Linked(EmitLayout(s, st, h).blocks) && PhisKept(st.blocks, EmitLayout(s, st, h).blocks)
    decreases s, 0, 2
  {
    if s.doWhile {
      LinkDoWhile(s, st, h);
    } else if s.step.Some? {
      LinkFor(s, st, h);
    } else {
      LinkWhile(s, st, h);
    }
  }

  /** The blocks of a loop, still empty or without a phi. */
  predicate LoopReady(st: State, h: nat) {
    Joinable(st.blocks, h) && Joinable(st.blocks, h + 1) && Joinable(st.blocks, h + 2) && TargetsOk(st) && st.loop.Some?
  }

  lemma {:induction false} LinkDoWhile(s: Stmt, st: State, h: nat)
    requires s.Loop? && Scoped(s, false) && Linked(st.blocks) && LoopReady(st, h)
    ensures Linked(EmitDoWhile(s, st, h).blocks) && PhisKept(st.blocks, EmitDoWhile(s, st, h).blocks)
    decreases s, 0, 0
  {
    var st1 := Append(st, Br(h + 1));
    AppendBranch(st, Br(h + 1));
    StaysLoopReady(st, st1, h);
    LinkArm(s.body, st1, h + 1, h);
    var st2 := MoveTo(EmitArm(s.body, st1, h + 1, h), h);
    PhisTransitive(st.blocks, st1.blocks, st2.blocks);
    StaysLoopReady(st, st2, h);
    LinkTest(s.cond, st2, h + 1, h + 2);
    PhisTransitive(st.blocks, st2.blocks, EmitTest(s.cond, st2, h + 1, h + 2).blocks);
  }

  lemma StaysLoopReady(st: State, st': State, h: nat)
    requires LoopReady(st, h) && PhisKept(st.blocks, st'.blocks) && st'.loop == st.loop
    ensures LoopReady(st', h)
  {
    StaysReady(st, st');
    StaysJoinable(st.blocks, st'.blocks, h);
    StaysJoinable(st.blocks, st'.blocks, h + 1);
    StaysJoinable(st.blocks, st'.blocks, h + 2);
  }

  lemma LinkHeader(cond: Expr, st: State, h: nat)
    requires Linked(st.blocks) && LoopReady(st, h)
    ensures Linked(EmitHeader(cond, st, h).blocks) && PhisKept(st.blocks, EmitHeader(cond, st, h).blocks)
    ensures LoopReady(EmitHeader(cond, st, h), h)
  {
    var st1 := MoveTo(Append(st, Br(h)), h);
    AppendBranch(st, Br(h));
    StaysLoopReady(st, st1, h);
    LinkTest(cond, st1, h + 1, h + 2);
    PhisTransitive(st.blocks, st1.blocks, EmitHeader(cond, st, h).blocks);
    StaysLoopReady(st, EmitHeader(cond, st, h), h);
  }

  lemma {:induction false} LinkWhile(s: Stmt, st: State, h: nat)
    requires s.Loop? && Scoped(s, false) && Linked(st.blocks) && LoopReady(st, h)
    ensures Linked(EmitWhile(s, st, h).blocks) && PhisKept(st.blocks, EmitWhile(s, st, h).blocks)
    decreases s, 0, 0
  {
    var st1 := EmitHeader(s.cond, st, h);
    LinkHeader(s.cond, st, h);
    LinkArm(s.body, st1, h + 1, h);
    PhisTransitive(st.blocks, st1.blocks, EmitArm(s.body, st1, h + 1, h).blocks);
  }

  lemma {:induction false} LinkFor(s: Stmt, st: State, h: nat)
    requires s.Loop? && s.step.Some? && Scoped(s, false) && Linked(st.blocks) && LoopReady(st, h)
    ensures Linked(EmitFor(s, st, h).blocks) && PhisKept(st.blocks, EmitFor(s, st, h).blocks)
    decreases s, 0, 1
  {
    var forCond := |st.blocks|;
    var st0 := NewBlocks(st, 1);
    NewBlocksLinked(st, 1);
    EdgesKeepPhis(st.blocks, st0.blocks);
    StaysLoopReady(st, st0, h);
    LinkHeader(s.cond, st0, h);
    var st1 := EmitHeader(s.cond, st0, h);
    StaysJoinable(st0.blocks, st1.blocks, forCond);
    PhisTransitive(st.blocks, st0.blocks, st1.blocks);
    LinkForBody(s, InLoop(st1, forCond, h + 2), h, forCond);
    PhisTransitive(st.blocks, st1.blocks, EmitFor(s, st, h).blocks);
  }

  lemma {:induction false} LinkForBody(s: Stmt, st: State, h: nat, forCond: nat)
    requires s.Loop? && s.step.Some? && Scoped(s, false) && Linked(st.blocks)
    requires LoopReady(st, h) && Joinable(st.blocks, forCond)
    ensures var st1 := MoveTo(EmitArm(s.body, st, h + 1, forCond), forCond);
      var st2 := Append(EmitExpr(s.step.value, st1).0, Br(h));
      Linked(st2.blocks) && PhisKept(st.blocks, st2.blocks)
    decreases s, 0, 0
  {
    var st1 := MoveTo(EmitArm(s.body, st, h + 1, forCond), forCond);
    LinkArm(s.body, st, h + 1, forCond);
    var st2 := EmitExpr(s.step.value, st1).0;
    LinkExpr(s.step.value, st1);
    EdgesKeepPhis(st1.blocks, st2.blocks);
    PhisTransitive(st.blocks, st1.blocks, st2.blocks);
    StaysJoinable(st.blocks, st2.blocks, h);
    AppendBranch(st2, Br(h));
    PhisTransitive(st.blocks, st2.blocks, Append(st2, Br(h)).blocks);
  }

  /**
   In the block graph of a function every branch target exists, and every phi stands first in its
   block with its incoming blocks being exactly the block's predecessors.
   */
  lemma FunctionLinked(kind: FuncKind, body: Stmt)
    requires Scoped(body, false)
    ensures var g := EmitFunction(kind, body).blocks;
      && (forall p, b: nat :: 0 <= p < |g| && JumpsTo(g[p], b) ==> b < |g|)
      && (forall b :: 0 <= b < |g| && HasPhi(g[b]) ==> Preds(g, b) == {g[b][0].fromA, g[b][0].fromB})
      && (forall b, k :: 0 <= b < |g| && 0 < k < |g[b]| ==> !g[b][k].Phi?)
  {
    var st0: State := BuilderState([[Br(1)], []], 1, None, 0);
    var st1 := EmitStmt(body, st0);
    var g := EmitFunction(kind, body).blocks;
    forall b: nat
      ensures LinkedAt(st0.blocks, b)
    {
      assert Preds(st0.blocks, b) == if b == 1 then {0} else {} by {
        assert Jumps(st0.blocks[0][0], 1);
      }
    }
    LinkStmt(body, st0);
    if !Terminated(st1) {
      AppendPlain(st1, Ret(ClosingValue(kind)));
    }
    assert Linked(g);
    forall p, b: nat | 0 <= p < |g| && JumpsTo(g[p], b)
      ensures b < |g|
    {
      assert LinkedAt(g, b);
      assert p in Preds(g, b);
    }
    forall b: nat | b < |g|
      ensures HasPhi(g[b]) ==> Preds(g, b) == {g[b][0].fromA, g[b][0].fromB}
      ensures forall k :: 0 < k < |g[b]| ==> !g[b][k].Phi?
    {
      assert LinkedAt(g, b);
    }
  }
}
