/**
 The control-flow part of the Snowball intermediate representation and its structured
 (source-level) meaning.

 Loops may run forever, so statements are executed with fuel: `OutOfFuel` means that the
 given number of loop iterations was not enough.
 */
module Ir {
  import opened Wrappers

  type Store = map<string, int>

  /** LLVM integer widths the lowering tells apart: `i1`, the memory size of a boolean, and the rest. */
  datatype Width = I1 | I8 | Wide

  /** The two's complement pattern of `v` in a register of the given width. */
  function Norm(width: Width, v: int): int {
    match width
    case I1 => v % 2
    case I8 => v % 256
    case Wide => v
  }

  datatype Expr =
    | Const(value: int, width: Width)
    | Load(name: string, width: Width)
    | Call(callee: string, width: Width, args: seq<Expr>)
    | Arith(op: string, width: Width, left: Expr, right: Expr)
    | And(left: Expr, right: Expr)
    | Or(left: Expr, right: Expr)
    | Not(arg: Expr)
    | CastToBool(arg: Expr)
  {
    function WidthOf(): Width {
      match this
      case Const(_, w) => w
      case Load(_, w) => w
      case Call(_, w, _) => w
      case Arith(_, w, _, _) => w
      case And(_, _) => I1
      case Or(_, _) => I1
      case Not(_) => I1
      case CastToBool(_) => I8
    }
  }

  datatype Stmt =
    | Block(stmts: seq<Stmt>)
    | Eval(e: Expr)
    | Assign(name: string, e: Expr)
    | If(cond: Expr, thn: Stmt, els: Option<Stmt>)
    | Loop(cond: Expr, body: Stmt, doWhile: bool, step: Option<Expr>)
    | Break
    | Continue
    | Return(result: Option<Expr>)

  /** Everything the lowering does not look into: what calls do to the store, arithmetic, `self`. */
  datatype World = World(
    call: (string, seq<int>, Store) -> (int, Store),
    arith: (string, int, int) -> int,
    self: int)

  function ReadVar(s: Store, name: string): int {
    if name in s then s[name] else 0
  }

  function BoolBit(b: bool): int {
    if b then 1 else 0
  }

  /**
   Value of an expression and the store it leaves behind. A variable on the left of an integer
   operator is read after the right operand ran: the operator builds its left operand to an address
   and loads it last.
   */
  function EvalExpr(w: World, e: Expr, s: Store): (int, Store)
    decreases e, 1
  {
    match e
    case Const(v, width) => (Norm(width, v), s)
    case Load(name, width) => (Norm(width, ReadVar(s, name)), s)
    case Call(callee, width, args) =>
      var (vs, s1) := EvalArgs(w, args, s);
      var (v, s2) := w.call(callee, vs, s1);
      (Norm(width, v), s2)
    case Arith(op, width, l, r) =>
      if l.Load? then
        var (b, s1) := EvalExpr(w, r, s);
        var (a, s2) := EvalExpr(w, l, s1);
        (Norm(width, w.arith(op, a, b)), s2)
      else
        var (a, s1) := EvalExpr(w, l, s);
        var (b, s2) := EvalExpr(w, r, s1);
        (Norm(width, w.arith(op, a, b)), s2)
    case And(l, r) =>
      var (a, s1) := EvalExpr(w, l, s);
      if a == 0 then (0, s1)
      else
        var (b, s2) := EvalExpr(w, r, s1);
        (BoolBit(b != 0), s2)
    case Or(l, r) =>
      var (a, s1) := EvalExpr(w, l, s);
      if a != 0 then (1, s1)
      else
        var (b, s2) := EvalExpr(w, r, s1);
        (BoolBit(b != 0), s2)
    case Not(x) =>
      var (a, s1) := EvalExpr(w, x, s);
      (BoolBit(a == 0), s1)
    case CastToBool(x) =>
      var (a, s1) := EvalExpr(w, x, s);
      (if x.WidthOf() == I8 then a else Norm(I8, a), s1)
  }

  function EvalArgs(w: World, es: seq<Expr>, s: Store): (seq<int>, Store)
    decreases es, 0
  {
    if es == [] then ([], s)
    else
      var (v, s1) := EvalExpr(w, es[0], s);
      var (vs, s2) := EvalArgs(w, es[1..], s1);
      ([v] + vs, s2)
  }

  /** How a condition of the given width is tested: a boolean that is kept in a byte is cut to its lowest
      bit first. */
  predicate Truth(width: Width, v: int) {
    if width == I8 then v % 2 == 1 else v != 0
  }

  /** What a condition is about: where a number is a condition, a cast to `bool` is put around it. */
  function Asked(cond: Expr): Expr {
    if cond.CastToBool? then cond.arg else cond
  }

  /** `exact` asks for "not zero". */
  predicate Test(w: World, exact: bool, cond: Expr, s: Store) {
    if exact then EvalExpr(w, Asked(cond), s).0 != 0 else Truth(cond.WidthOf(), EvalExpr(w, cond, s).0)
  }

  datatype Outcome = Normal | Broke | Continued | Returned(value: Option<int>)

  datatype Run = Done(outcome: Outcome, store: Store) | OutOfFuel

  function EvalOptional(w: World, e: Option<Expr>, s: Store): (Option<int>, Store) {
    match e
    case None => (None, s)
    case Some(x) =>
      var (v, s1) := EvalExpr(w, x, s);
      (Some(v), s1)
  }

  function Exec(w: World, exact: bool, stmt: Stmt, s: Store, fuel: nat): Run
    decreases fuel, stmt, 1
  {
    match stmt
    case Block(stmts) => ExecSeq(w, exact, stmts, s, fuel)
    case Eval(e) => Done(Normal, EvalExpr(w, e, s).1)
    case Assign(name, e) =>
      var (v, s1) := EvalExpr(w, e, s);
      Done(Normal, s1[name := v])
    case If(cond, thn, els) =>
      var s1 := EvalExpr(w, cond, s).1;
      if Test(w, exact, cond, s) then Exec(w, exact, thn, s1, fuel)
      else if els.Some? then Exec(w, exact, els.value, s1, fuel)
      else Done(Normal, s1)
    case Loop(cond, body, doWhile, step) =>
      if fuel == 0 then OutOfFuel
      else if doWhile then
        var r := Exec(w, exact, body, s, fuel);
        if r.Done? && (r.outcome.Normal? || r.outcome.Continued?) then
          var s1 := EvalExpr(w, cond, r.store).1;
          if Test(w, exact, cond, r.store) then Exec(w, exact, stmt, s1, fuel - 1) else Done(Normal, s1)
        else LeaveLoop(r)
      else
        var s1 := EvalExpr(w, cond, s).1;
        if !Test(w, exact, cond, s) then Done(Normal, s1)
        else
          var r := Exec(w, exact, body, s1, fuel);
          if r.Done? && (r.outcome.Normal? || r.outcome.Continued?) then
            Exec(w, exact, stmt, EvalOptional(w, step, r.store).1, fuel - 1)
          else LeaveLoop(r)
    case Break => Done(Broke, s)
    case Continue => Done(Continued, s)
    case Return(e) =>
      var (v, s1) := EvalOptional(w, e, s);
      Done(Returned(v), s1)
  }

  /** What a loop makes of a body that did not come to its end: `break` is used up, the rest is passed on. */
  function LeaveLoop(r: Run): Run {
    if r.Done? && r.outcome.Broke? then Done(Normal, r.store) else r
  }

  function ExecSeq(w: World, exact: bool, stmts: seq<Stmt>, s: Store, fuel: nat): Run
    decreases fuel, stmts, 0
  {
    if stmts == [] then Done(Normal, s)
    else
      var r := Exec(w, exact, stmts[0], s, fuel);
      if r.Done? && r.outcome.Normal? then ExecSeq(w, exact, stmts[1..], r.store, fuel) else r
  }

  /** How a function ends when control falls off its body. */
  datatype FuncKind = Procedure | Constructor | ValueFunction

  function FallOff(w: World, kind: FuncKind): Option<int> {
    match kind
    case Procedure => None
    case Constructor => Some(w.self)
    case ValueFunction => Some(0)
  }

  /** A call of a whole function: the returned value and the final store, if the fuel lasts. */
  function ExecFunction(w: World, exact: bool, kind: FuncKind, body: Stmt, s: Store,
      fuel: nat): Option<(Option<int>, Store)> {
    match Exec(w, exact, body, s, fuel)
    case OutOfFuel => None
    case Done(Returned(v), s') => Some((v, s'))
    case Done(_, s') => Some((FallOff(w, kind), s'))
  }

  /** `break` and `continue` occur inside a loop only; the generator has no branch target for them elsewhere. */
  predicate Scoped(stmt: Stmt, inLoop: bool)
    decreases stmt
  {
    match stmt
    case Block(stmts) => forall x | x in stmts :: Scoped(x, inLoop)
    case If(_, thn, els) => Scoped(thn, inLoop) && (els.Some? ==> Scoped(els.value, inLoop))
    case Loop(_, body, _, _) => Scoped(body, true)
    case Break => inLoop
    case Continue => inLoop
    case _ => true
  }

  /** A byte holds 0 to 255 and counts round, a bit 0 and 1; wider values are kept as they are. */
  lemma WidthsKeep(v: int, rounds: int)
    ensures 0 <= Norm(I8, v) < 256 && (Norm(I8, v) == v <==> 0 <= v < 256)
    ensures Norm(I8, v + 256 * rounds) == Norm(I8, v)
    ensures 0 <= Norm(I1, v) < 2 && (Norm(I1, v) == v <==> 0 <= v < 2) && Norm(I1, v + 2 * rounds) == Norm(I1, v)
    ensures Norm(Wide, v) == v
  {
    Rounds(v, rounds, 256);
    Rounds(v, rounds, 2);
  }

  lemma Rounds(v: int, rounds: int, n: int)
    requires n == 256 || n == 2
    ensures (v + n * rounds) % n == v % n
  {
    var q, r := v / n, v % n;
    assert v + n * rounds == n * (q + rounds) + r;
  }
}
