/**
 `Parser::buildOperatorTree`: the list of operands and operators of an expression is reduced in
 place until one tree is left.
 */
module OperatorTree {
  import opened Wrappers

  /** A reference has the flag `isMutableReference` of its node. */
  datatype Op =
    | NOT | BIT_NOT | UPLUS | UMINUS | REFERENCE(isMutable: bool) | DEREFERENCE
    | MUL | DIV | MOD
    | PLUS | MINUS
    | BIT_LSHIFT | BIT_RSHIFT
    | LT | LTEQ | GT | GTEQ
    | EQEQ | NOTEQ
    | BIT_AND | BIT_XOR | BIT_OR
    | AND | OR
    | EQ | PLUSEQ | MINUSEQ | MULEQ | DIVEQ | MOD_EQ
    | BIT_LSHIFT_EQ | BIT_RSHIFT_EQ | BIT_AND_EQ | BIT_XOR_EQ | BIT_OR_EQ
    | INDEX | RANGE

  /** Lower binds tighter; all unary operators bind tightest. */
  function Precedence(op: Op): int {
    match op
    case NOT | BIT_NOT | UPLUS | UMINUS | REFERENCE(_) | DEREFERENCE => 0
    case MUL | DIV | MOD => 1
    case PLUS | MINUS => 2
    case BIT_LSHIFT | BIT_RSHIFT => 3
    case LT | LTEQ | GT | GTEQ => 4
    case EQEQ | NOTEQ => 5
    case BIT_AND => 6
    case BIT_XOR => 7
    case BIT_OR => 8
    case AND => 9
    case OR => 10
    case EQ | PLUSEQ | MINUSEQ | MULEQ | DIVEQ | MOD_EQ => 11
    case BIT_LSHIFT_EQ | BIT_RSHIFT_EQ | BIT_AND_EQ | BIT_XOR_EQ | BIT_OR_EQ => 11
    case INDEX | RANGE => -1
  }

  /** `Atom` is an operand the list builder does not look into (a literal, a call, a parenthesis);
      `Bare` is an operator node left without operands. */
  datatype Tree = Atom(id: nat) | Unary(op: Op, child: Tree) | Binary(op: Op, left: Tree, right: Tree) | Bare(op: Op)

  datatype Item = Operand(tree: Tree) | Operator(op: Op)

  predicate IsUnary(i: Item) {
    i.Operator? && Precedence(i.op) == 0
  }

  predicate IsBinary(i: Item) {
    i.Operator? && Precedence(i.op) > 0
  }

  /** What `new BinaryOp(e->op_type)` has: the kind of the operator, but the flag of a new node. */
  function Rebuilt(op: Op): Op {
    if op.REFERENCE? then REFERENCE(false) else op
  }

  datatype BuildError = ExpectedExpression | AssertionFailed

  // One reduction as functions

  /** Leftmost of the operators of lowest precedence among the first `n` items, -1 if there is none. */
  function Selected(exprs: seq<Item>, n: nat): (k: int)
    requires n <= |exprs|
    ensures -1 <= k < n
    ensures k >= 0 ==> exprs[k].Operator?
  {
    if n == 0 then -1
    else
      var best := Selected(exprs, n - 1);
      if exprs[n - 1].Operator? && (best < 0 || Precedence(exprs[n - 1].op) < Precedence(exprs[best].op)) then n - 1
      else best
  }

  /** First operand at or behind position `k`. */
  function NextOperand(exprs: seq<Item>, k: nat): (j: nat)
    requires k <= |exprs|
    ensures k <= j <= |exprs|
    ensures forall i :: k <= i < j ==> exprs[i].Operator?
    ensures j < |exprs| ==> exprs[j].Operand?
    decreases |exprs| - k
  {
    if k == |exprs| || exprs[k].Operand? then k else NextOperand(exprs, k + 1)
  }

  /** The operators at `k..j` applied, the last one first, to the operand at `j`. */
  function WrapRun(exprs: seq<Item>, k: nat, j: nat): Tree
    requires k <= j < |exprs| && exprs[j].Operand?
    requires forall i :: k <= i < j ==> exprs[i].Operator?
    decreases j - k
  {
    if k == j then exprs[j].tree else Unary(Rebuilt(exprs[k].op), WrapRun(exprs, k + 1, j))
  }

  function Replace(exprs: seq<Item>, from: nat, to: nat, tree: Tree): seq<Item>
    requires from <= to < |exprs|
  {
    exprs[..from] + [Operand(tree)] + exprs[to + 1..]
  }

  /** One round of the reduction loop; the asserts of the source are the `AssertionFailed` cases. */
  function Reduce(exprs: seq<Item>): (r: Result<seq<Item>, BuildError>)
    requires |exprs| > 1
    ensures r.Ok? ==> 0 < |r.value| < |exprs|
  {
    var k := Selected(exprs, |exprs|);
    if k < 0 then Err(AssertionFailed)
    else if IsUnary(exprs[k]) then
      var j := NextOperand(exprs, k);
      if j == |exprs| then Err(ExpectedExpression) else Ok(Replace(exprs, k, j, WrapRun(exprs, k, j)))
    else if !(1 <= k < |exprs| - 1) || exprs[k - 1].Operator? || exprs[k + 1].Operator? then Err(AssertionFailed)
    else Ok(Replace(exprs, k - 1, k + 1, Binary(Rebuilt(exprs[k].op), exprs[k - 1].tree, exprs[k + 1].tree)))
  }

  function Build(exprs: seq<Item>): Result<Tree, BuildError>
    requires |exprs| > 0
    decreases |exprs|
  {
    if |exprs| == 1 then Ok(if exprs[0].Operand? then exprs[0].tree else Bare(exprs[0].op))
    else
      match Reduce(exprs)
      case Err(e) => Err(e)
      case Ok(exprs') => Build(exprs')
  }

  // The reduction in place

  class OperatorList {
    var exprs: seq<Item>

    constructor (items: seq<Item>)
      ensures exprs == items
    {
      exprs := items;
    }

    /** The inner scan: position of the operator to reduce and whether it is unary. */
    method Select() returns (nextOp: int, unary: bool)
      ensures nextOp == Selected(exprs, |exprs|)
      ensures unary <==> nextOp >= 0 && IsUnary(exprs[nextOp])
    {
      nextOp, unary := -1, false;
      var minPrecedence := 0xFFFFF;
      for i := 0 to |exprs|
        invariant nextOp == Selected(exprs, i)
        invariant minPrecedence == if nextOp < 0 then 0xFFFFF else Precedence(exprs[nextOp].op)
        invariant unary <==> nextOp >= 0 && IsUnary(exprs[nextOp])
      {
        if exprs[i].Operator? {
          var precedence := Precedence(exprs[i].op);
          if precedence < minPrecedence {
            minPrecedence := precedence;
            nextOp := i;
            unary := IsUnary(exprs[i]);
          }
        }
      }
    }

    /** Collapse the run of operators at `nextOp` onto the operand behind it, from the inside out. */
    method CollapseUnary(nextOp: nat) returns (ok: bool)
      requires nextOp < |exprs|
      modifies this
      ensures ok <==> NextOperand(old(exprs), nextOp) < |old(exprs)|
      ensures ok ==> exprs == Replace(old(exprs), nextOp, NextOperand(old(exprs), nextOp),
                                      WrapRun(old(exprs), nextOp, NextOperand(old(exprs), nextOp)))
      ensures !ok ==> exprs == old(exprs)
    {
      var nextExpr := nextOp;
      while exprs[nextExpr].Operator?
        invariant nextOp <= nextExpr < |exprs|
        invariant NextOperand(exprs, nextExpr) == NextOperand(exprs, nextOp)
        decreases |exprs| - nextExpr
      {
        nextExpr := nextExpr + 1;
        if nextExpr == |exprs| {
          return false;
        }
      }
      ghost var before := exprs;
      var i := nextExpr - 1;
      while i >= nextOp
        invariant nextOp - 1 <= i < nextExpr < |before|
        invariant exprs == Replace(before, i + 1, nextExpr, WrapRun(before, i + 1, nextExpr))
        decreases i
      {
        var node := Unary(Rebuilt(exprs[i].op), exprs[i + 1].tree);
        exprs := exprs[i := Operand(node)];
        exprs := exprs[..i + 1] + exprs[i + 2..];
        i := i - 1;
      }
      ok := true;
    }

    /** Replace the operator at `nextOp` and its two neighbours by one operand. */
    method CollapseBinary(nextOp: nat)
      requires 1 <= nextOp < |exprs| - 1 && exprs[nextOp].Operator?
      requires exprs[nextOp - 1].Operand? && exprs[nextOp + 1].Operand?
      modifies this
      ensures exprs == Replace(old(exprs), nextOp - 1, nextOp + 1,
                               Binary(Rebuilt(old(exprs)[nextOp].op), old(exprs)[nextOp - 1].tree,
                                      old(exprs)[nextOp + 1].tree))
    {
      var node := Binary(Rebuilt(exprs[nextOp].op), exprs[nextOp - 1].tree, exprs[nextOp + 1].tree);
      exprs := exprs[nextOp - 1 := Operand(node)];
      exprs := exprs[..nextOp] + exprs[nextOp + 1..];
      exprs := exprs[..nextOp] + exprs[nextOp + 1..];
    }

    /** One round of the loop. */
    method ReduceOnce() returns (error: Option<BuildError>)
      requires |exprs| > 1
      modifies this
      ensures match Reduce(old(exprs))
              case Err(e) => error == Some(e)
              case Ok(reduced) => error == None && exprs == reduced
    {
      var nextOp, unary := Select();
      if nextOp < 0 {
        return Some(AssertionFailed);
      }
      if unary {
        var ok := CollapseUnary(nextOp);
        return if ok then None else Some(ExpectedExpression);
      }
      if !(1 <= nextOp < |exprs| - 1) || exprs[nextOp + 1].Operator? || exprs[nextOp - 1].Operator? {
        return Some(AssertionFailed);
      }
      CollapseBinary(nextOp);
      return None;
    }

    /** The whole loop. */
    method BuildOperatorTree() returns (r: Result<Tree, BuildError>)
      requires |exprs| > 0
      modifies this
      ensures r == Build(old(exprs))
      ensures r.Ok? ==> |exprs| == 1
    {
      while |exprs| > 1
        invariant |exprs| > 0 && Build(exprs) == Build(old(exprs))
        decreases |exprs|
      {
        var error := ReduceOnce();
        if error.Some? {
          return Err(error.value);
        }
      }
      return Ok(if exprs[0].Operand? then exprs[0].tree else Bare(exprs[0].op));
    }
  }
}
