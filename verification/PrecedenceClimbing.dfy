/**
 The builder's repeated scan against precedence climbing, the usual one-pass recursive method.
 */
module PrecedenceClimbing {
  import opened Wrappers
  import opened OperatorTree
  import opened OperatorTreeTheorem

  const LOOSEST := 11

  /** An operand with the unary operators before it, and what follows. */
  function Primary(exprs: seq<Item>): (r: (Tree, seq<Item>))
    requires Expression(exprs)
    ensures |r.1| < |exprs|
  {
    if exprs[0].Operand? then (exprs[0].tree, exprs[1..])
    else
      var (t, rest) := Primary(exprs[1..]);
      (Unary(exprs[0].op, t), rest)
  }

  lemma {:induction false} PrimaryIs(exprs: seq<Item>)
    requires Expression(exprs) && Atomic(exprs)
    ensures var (t, rest) := Primary(exprs);
      Bound(t) && Level(t) == 0 && Yield(t) + rest == exprs && MoreOperands(rest) && Atomic(rest)
  {
    assert exprs[0] in exprs;
    if exprs[0].Operator? {
      PrimaryIs(exprs[1..]);
      assert exprs == [exprs[0]] + exprs[1..];
    }
  }

  /** The longest expression at the front whose operators bind at least as tightly as `p`, and what follows. */
  function Climb(exprs: seq<Item>, p: int): (r: (Tree, seq<Item>))
    requires Expression(exprs) && Atomic(exprs)
    ensures |r.1| < |exprs|
    ensures MoreOperands(r.1) && Atomic(r.1)
    decreases |exprs|, 1
  {
    PrimaryIs(exprs);
    var (left, rest) := Primary(exprs);
    Extend(left, rest, p)
  }

  /** `left` extended to the right as long as the operators bind at least as tightly as `p`. */
  function Extend(left: Tree, rest: seq<Item>, p: int): (r: (Tree, seq<Item>))
    requires MoreOperands(rest) && Atomic(rest)
    ensures |r.1| <= |rest|
    ensures MoreOperands(r.1) && Atomic(r.1)
    decreases |rest|, 0
  {
    if rest == [] || Precedence(rest[0].op) > p then (left, rest)
    else
      var (right, rest') := Climb(rest[1..], Precedence(rest[0].op) - 1);
      Extend(Binary(rest[0].op, left, right), rest', p)
  }

  lemma {:induction false} ClimbIs(exprs: seq<Item>, p: int)
    requires Expression(exprs) && Atomic(exprs) && p >= 0
    ensures var (t, rest) := Climb(exprs, p);
      && Bound(t) && Level(t) <= p && Yield(t) + rest == exprs
      && (rest != [] ==> Precedence(rest[0].op) > p)
    decreases |exprs|, 1
  {
    PrimaryIs(exprs);
    var (left, rest) := Primary(exprs);
    ExtendIs(left, rest, p);
  }

  lemma {:induction false} ExtendIs(left: Tree, rest: seq<Item>, p: int)
    requires MoreOperands(rest) && Atomic(rest) && p >= 0
    requires Bound(left) && Level(left) <= p
    requires rest != [] ==> Level(left) <= Precedence(rest[0].op)
    ensures var (t, rest') := Extend(left, rest, p);
      && Bound(t) && Level(t) <= p && Yield(t) + rest' == Yield(left) + rest
      && (rest' != [] ==> Precedence(rest'[0].op) > p)
    decreases |rest|, 0
  {
    if rest != [] && Precedence(rest[0].op) <= p {
      var q := Precedence(rest[0].op);
      var (right, rest') := Climb(rest[1..], q - 1);
      ClimbIs(rest[1..], q - 1);
      var joined := Binary(rest[0].op, left, right);
      Regroup(Yield(left), rest[0], Yield(right), rest', rest);
      ExtendIs(joined, rest', p);
    }
  }

  lemma Regroup(a: seq<Item>, op: Item, b: seq<Item>, c: seq<Item>, rest: seq<Item>)
    requires rest != [] && rest[0] == op && b + c == rest[1..]
    ensures a + [op] + b + c == a + rest
  {
    assert rest == [op] + (b + c);
  }

  /** One climb over a whole well-formed list, without its marks, gives the tree the builder gives. */
  lemma BuildIsPrecedenceClimbing(exprs: seq<Item>)
    requires Expression(exprs) && Atomic(exprs)
    ensures Expression(EraseAll(exprs)) && Atomic(EraseAll(exprs))
    ensures Climb(EraseAll(exprs), LOOSEST).1 == []
    ensures Build(exprs) == Ok(Climb(EraseAll(exprs), LOOSEST).0)
  {
    EraseExpression(exprs);
    EraseAtomic(exprs);
    ClimbIs(EraseAll(exprs), LOOSEST);
    var (t, rest) := Climb(EraseAll(exprs), LOOSEST);
    assert rest == [];
    assert Yield(t) + [] == Yield(t);
    BuildsTheOneBoundTree(exprs);
  }
}
