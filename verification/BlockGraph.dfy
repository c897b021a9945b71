/** The target of the lowering: basic blocks of instructions, and how a block graph runs. */
module BlockGraph {
  import opened Wrappers
  import opened Ir

  datatype Operand =
    | Imm(value: int, width: Width)
    | Reg(id: nat, width: Width)
    | SelfArg

  datatype Instr =
    | LoadVar(dst: nat, width: Width, name: string)
    | StoreVar(name: string, src: Operand)
    | Invoke(dst: nat, width: Width, callee: string, args: seq<Operand>)
    | Binary(dst: nat, width: Width, op: string, a: Operand, b: Operand)
    | NonZero(dst: nat, src: Operand)
    | IsZero(dst: nat, src: Operand)
    | Truncate(dst: nat, src: Operand)
    | IntCast(dst: nat, width: Width, src: Operand)
    | Phi(dst: nat, a: Operand, fromA: nat, b: Operand, fromB: nat)
    | Br(target: nat)
    | CondBr(cond: Operand, thn: nat, els: nat)
    | Ret(result: Option<Operand>)
  {
    predicate IsTerminator() {
      Br? || CondBr? || Ret?
    }
  }

  type Code = seq<Instr>
  type Graph = seq<Code>

  type Regs = map<nat, int>

  datatype Conf =
    | At(block: nat, pc: nat, prev: nat, regs: Regs, store: Store)
    | Halt(result: Option<int>, final: Store)
    | Stuck

  function OperandWidth(o: Operand): Width {
    match o
    case Imm(_, w) => w
    case Reg(_, w) => w
    case SelfArg => Wide
  }

  function RegValue(regs: Regs, r: nat): int {
    if r in regs then regs[r] else 0
  }

  function Value(w: World, regs: Regs, o: Operand): int {
    match o
    case Imm(v, width) => Norm(width, v)
    case Reg(r, _) => RegValue(regs, r)
    case SelfArg => w.self
  }

  function Values(w: World, regs: Regs, os: seq<Operand>): (vs: seq<int>) {
    if os == [] then [] else [Value(w, regs, os[0])] + Values(w, regs, os[1..])
  }

  function SetReg(c: Conf, dst: nat, v: int): Conf
    requires c.At?
  {
    c.(pc := c.pc + 1, regs := c.regs[dst := v])
  }

  function Jump(c: Conf, target: nat): Conf
    requires c.At?
  {
    c.(block := target, pc := 0, prev := c.block)
  }

  /** One instruction. A finished or stuck machine stays as it is. */
  function Step(w: World, g: Graph, c: Conf): Conf {
    if !c.At? then c
    else if c.block >= |g| || c.pc >= |g[c.block]| then Stuck
    else
      match g[c.block][c.pc]
      case LoadVar(dst, width, name) => SetReg(c, dst, Norm(width, ReadVar(c.store, name)))
      case StoreVar(name, src) => c.(pc := c.pc + 1, store := c.store[name := Value(w, c.regs, src)])
      case Invoke(dst, width, callee, args) =>
        var (v, s) := w.call(callee, Values(w, c.regs, args), c.store);
        SetReg(c, dst, Norm(width, v)).(store := s)
      case Binary(dst, width, op, a, b) =>
        SetReg(c, dst, Norm(width, w.arith(op, Value(w, c.regs, a), Value(w, c.regs, b))))
      case NonZero(dst, src) => SetReg(c, dst, BoolBit(Value(w, c.regs, src) != 0))
      case IsZero(dst, src) => SetReg(c, dst, BoolBit(Value(w, c.regs, src) == 0))
      case Truncate(dst, src) => SetReg(c, dst, Value(w, c.regs, src) % 2)
      case IntCast(dst, width, src) => SetReg(c, dst, Norm(width, Value(w, c.regs, src)))
      case Phi(dst, a, fromA, b, fromB) =>
        if c.prev == fromA then SetReg(c, dst, Value(w, c.regs, a))
        else if c.prev == fromB then SetReg(c, dst, Value(w, c.regs, b))
        else Stuck
      case Br(target) => Jump(c, target)
      case CondBr(cond, thn, els) => Jump(c, if Value(w, c.regs, cond) != 0 then thn else els)
      case Ret(None) => Halt(None, c.store)
      case Ret(Some(src)) => Halt(Some(Value(w, c.regs, src)), c.store)
  }

  function Steps(w: World, g: Graph, c: Conf, n: nat): Conf
    decreases n
  {
    if n == 0 then c else Steps(w, g, Step(w, g, c), n - 1)
  }

  lemma {:induction false} StepsAdd(w: World, g: Graph, c: Conf, a: nat, b: nat)
    ensures Steps(w, g, c, a + b) == Steps(w, g, Steps(w, g, c, a), b)
    decreases a
  {
    if a > 0 {
      StepsAdd(w, g, Step(w, g, c), a - 1, b);
    }
  }

  /** Once a machine has halted it stays halted with the same answer. */
  lemma {:induction false} HaltedStays(w: World, g: Graph, c: Conf, n: nat, m: nat)
    requires Steps(w, g, c, n).Halt? && n <= m
    ensures Steps(w, g, c, m) == Steps(w, g, c, n)
  {
    StepsAdd(w, g, c, n, m - n);
    StoppedStays(w, g, Steps(w, g, c, n), m - n);
  }

  lemma {:induction false} StoppedStays(w: World, g: Graph, c: Conf, n: nat)
    requires !c.At?
    ensures Steps(w, g, c, n) == c
    decreases n
  {
    if n > 0 {
      StoppedStays(w, g, c, n - 1);
    }
  }
}
