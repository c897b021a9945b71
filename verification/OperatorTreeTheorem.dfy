/**
 What the operator tree builder returns: the one tree with the given yield in which every operator
 binds as its precedence says, operators of equal precedence associating to the left.
 */
module OperatorTreeTheorem {
  import opened Wrappers
  import opened OperatorTree

  // Yield

  /** The operators and atoms of a tree from left to right. */
  function Yield(t: Tree): (y: seq<Item>)
    ensures |y| > 0
  {
    match t
    case Atom(_) => [Operand(t)]
    case Unary(op, c) => [Operator(op)] + Yield(c)
    case Binary(op, l, r) => Yield(l) + [Operator(op)] + Yield(r)
    case Bare(op) => [Operator(op)]
  }

  function Flatten(exprs: seq<Item>): seq<Item> {
    if exprs == [] then [] else (if exprs[0].Operand? then Yield(exprs[0].tree) else [exprs[0]]) + Flatten(exprs[1..])
  }

  lemma {:induction false} FlattenConcat(a: seq<Item>, b: seq<Item>)
    ensures Flatten(a + b) == Flatten(a) + Flatten(b)
  {
    if a == [] {
      assert a + b == b;
    } else {
      assert (a + b)[1..] == a[1..] + b;
      FlattenConcat(a[1..], b);
    }
  }

  // Marks

  /** An item of the list without the mark of a mutable reference. */
  function Erase(i: Item): Item {
    if i.Operator? then Operator(Rebuilt(i.op)) else i
  }

  function EraseAll(exprs: seq<Item>): (erased: seq<Item>)
    ensures |erased| == |exprs| && forall i :: 0 <= i < |exprs| ==> erased[i] == Erase(exprs[i])
  {
    seq(|exprs|, i requires 0 <= i < |exprs| => Erase(exprs[i]))
  }

  predicate IsMark(i: Item) {
    i == Operator(REFERENCE(true))
  }

  lemma EraseConcat(a: seq<Item>, b: seq<Item>)
    ensures EraseAll(a + b) == EraseAll(a) + EraseAll(b)
  {
  }

  lemma {:induction false} WrapYield(exprs: seq<Item>, k: nat, j: nat)
    requires k <= j < |exprs| && exprs[j].Operand?
    requires forall i :: k <= i < j ==> exprs[i].Operator?
    ensures EraseAll(Yield(WrapRun(exprs, k, j))) == EraseAll(Flatten(exprs[k..j + 1]))
    decreases j - k
  {
    assert exprs[k..j + 1][1..] == exprs[k + 1..j + 1];
    if k < j {
      WrapYield(exprs, k + 1, j);
      EraseConcat([Operator(Rebuilt(exprs[k].op))], Yield(WrapRun(exprs, k + 1, j)));
      EraseConcat([exprs[k]], Flatten(exprs[k + 1..j + 1]));
    }
  }

  lemma ReplaceConserves(exprs: seq<Item>, from: nat, to: nat, tree: Tree)
    requires from <= to < |exprs| && EraseAll(Yield(tree)) == EraseAll(Flatten(exprs[from..to + 1]))
    ensures EraseAll(Flatten(Replace(exprs, from, to, tree))) == EraseAll(Flatten(exprs))
  {
    var a, b, c := exprs[..from], exprs[from..to + 1], exprs[to + 1..];
    assert exprs == a + b + c;
    FlattenThree(a, b, c);
    FlattenThree(a, [Operand(tree)], c);
    assert Flatten([Operand(tree)]) == Yield(tree);
  }

  lemma FlattenThree(a: seq<Item>, b: seq<Item>, c: seq<Item>)
    ensures EraseAll(Flatten(a + b + c)) == EraseAll(Flatten(a)) + EraseAll(Flatten(b)) + EraseAll(Flatten(c))
  {
    FlattenConcat(a + b, c);
    FlattenConcat(a, b);
    EraseConcat(Flatten(a) + Flatten(b), Flatten(c));
    EraseConcat(Flatten(a), Flatten(b));
  }

  /** Every round keeps the kinds of the operators and the operands and their order, and shortens the list;
      for any list. */
  lemma ReduceConserves(exprs: seq<Item>)
    requires |exprs| > 1 && Reduce(exprs).Ok?
    ensures EraseAll(Flatten(Reduce(exprs).value)) == EraseAll(Flatten(exprs)) && |Reduce(exprs).value| < |exprs|
  {
    var k := Selected(exprs, |exprs|);
    if IsUnary(exprs[k]) {
      var j := NextOperand(exprs, k);
      WrapYield(exprs, k, j);
      ReplaceConserves(exprs, k, j, WrapRun(exprs, k, j));
    } else {
      TripleConserves(exprs, k);
    }
  }

  lemma TripleConserves(exprs: seq<Item>, k: nat)
    requires 1 <= k < |exprs| - 1 && exprs[k - 1].Operand? && exprs[k].Operator? && exprs[k + 1].Operand?
    ensures var t := Binary(Rebuilt(exprs[k].op), exprs[k - 1].tree, exprs[k + 1].tree);
      EraseAll(Flatten(Replace(exprs, k - 1, k + 1, t))) == EraseAll(Flatten(exprs))
  {
    var a, b, c := [exprs[k - 1]], [exprs[k]], [exprs[k + 1]];
    assert exprs[k - 1..k + 2] == a + b + c;
    FlattenThree(a, b, c);
    assert Flatten(a) == Yield(exprs[k - 1].tree) && Flatten(b) == b && Flatten(c) == Yield(exprs[k + 1].tree);
    var t := Binary(Rebuilt(exprs[k].op), exprs[k - 1].tree, exprs[k + 1].tree);
    EraseConcat(Yield(t.left) + [Operator(t.op)], Yield(t.right));
    EraseConcat(Yield(t.left), [Operator(t.op)]);
    ReplaceConserves(exprs, k - 1, k + 1, t);
  }

  /** Whatever list it succeeds on, the result has exactly the kinds of operators and the operands of the list. */
  lemma {:induction false} BuildConserves(exprs: seq<Item>)
    requires |exprs| > 0 && Build(exprs).Ok?
    ensures EraseAll(Yield(Build(exprs).value)) == EraseAll(Flatten(exprs))
    decreases |exprs|
  {
    if |exprs| == 1 {
      assert exprs[1..] == [];
    } else {
      ReduceConserves(exprs);
      BuildConserves(Reduce(exprs).value);
    }
  }

  /** No reference of the tree is marked. */
  predicate Unmarked(t: Tree) {
    match t
    case Atom(_) => true
    case Unary(op, c) => op != REFERENCE(true) && Unmarked(c)
    case Binary(op, l, r) => op != REFERENCE(true) && Unmarked(l) && Unmarked(r)
    case Bare(op) => op != REFERENCE(true)
  }

  lemma {:induction false} UnmarkedYield(t: Tree)
    requires Unmarked(t)
    ensures EraseAll(Yield(t)) == Yield(t)
  {
    match t
    case Atom(_) =>
    case Bare(_) =>
    case Unary(_, c) => UnmarkedYield(c);
    case Binary(op, l, r) =>
      UnmarkedYield(l);
      UnmarkedYield(r);
      EraseConcat(Yield(l) + [Operator(op)], Yield(r));
      EraseConcat(Yield(l), [Operator(op)]);
  }

  predicate OperandsUnmarked(exprs: seq<Item>) {
    forall i :: 0 <= i < |exprs| && exprs[i].Operand? ==> Unmarked(exprs[i].tree)
  }

  lemma {:induction false} WrapUnmarked(exprs: seq<Item>, k: nat, j: nat)
    requires k <= j < |exprs| && exprs[j].Operand? && Unmarked(exprs[j].tree)
    requires forall i :: k <= i < j ==> exprs[i].Operator?
    ensures Unmarked(WrapRun(exprs, k, j))
    decreases j - k
  {
    if k < j {
      WrapUnmarked(exprs, k + 1, j);
    }
  }

  /** The trees that are built have no marks. */
  lemma {:induction false} BuildUnmarked(exprs: seq<Item>)
    requires OperandsUnmarked(exprs) && |exprs| > 0 && (|exprs| == 1 ==> exprs[0].Operand?) && Build(exprs).Ok?
    ensures Unmarked(Build(exprs).value)
    decreases |exprs|
  {
    if |exprs| > 1 {
      var k := Selected(exprs, |exprs|);
      if IsUnary(exprs[k]) {
        WrapUnmarked(exprs, k, NextOperand(exprs, k));
      }
      BuildUnmarked(Reduce(exprs).value);
    }
  }

  // Well-formed lists

  /** `unary* operand (binary unary* operand)*` */
  predicate Expression(exprs: seq<Item>) {
    && exprs != []
    && if exprs[0].Operand? then MoreOperands(exprs[1..]) else IsUnary(exprs[0]) && Expression(exprs[1..])
  }

  /** `(binary unary* operand)*` */
  predicate MoreOperands(exprs: seq<Item>) {
    exprs == [] || (IsBinary(exprs[0]) && Expression(exprs[1..]))
  }

  predicate FollowedWell(exprs: seq<Item>, i: nat)
    requires i < |exprs|
  {
    if exprs[i].Operand? then i + 1 == |exprs| || IsBinary(exprs[i + 1])
    else
      && (IsUnary(exprs[i]) || IsBinary(exprs[i]))
      && i + 1 < |exprs| && (exprs[i + 1].Operand? || IsUnary(exprs[i + 1]))
  }

  ghost predicate AllFollowedWell(exprs: seq<Item>) {
    forall i :: 0 <= i < |exprs| ==> FollowedWell(exprs, i)
  }

  /** The same as `Expression`, said of neighbours. */
  ghost predicate Adjacent(exprs: seq<Item>) {
    exprs != [] && !IsBinary(exprs[0]) && AllFollowedWell(exprs)
  }

  lemma FollowedWellCons(exprs: seq<Item>)
    requires exprs != []
    ensures AllFollowedWell(exprs) <==> FollowedWell(exprs, 0) && AllFollowedWell(exprs[1..])
  {
    var rest := exprs[1..];
    if AllFollowedWell(exprs) {
      forall i | 0 <= i < |rest|
        ensures FollowedWell(rest, i)
      {
        assert FollowedWell(exprs, i + 1);
      }
    }
    if FollowedWell(exprs, 0) && AllFollowedWell(rest) {
      forall i | 0 <= i < |exprs|
        ensures FollowedWell(exprs, i)
      {
        assert i > 0 ==> FollowedWell(rest, i - 1);
      }
    }
  }

  lemma {:induction false} ExpressionIffAdjacent(exprs: seq<Item>)
    ensures Expression(exprs) <==> Adjacent(exprs)
    ensures MoreOperands(exprs) <==> exprs == [] || (IsBinary(exprs[0]) && AllFollowedWell(exprs))
    decreases |exprs|
  {
    if exprs != [] {
      FollowedWellCons(exprs);
      ExpressionIffAdjacent(exprs[1..]);
    }
  }

  // Binding

  function Level(t: Tree): int {
    if t.Binary? then Precedence(t.op) else 0
  }

  /** A binary operator's left child binds at least as tightly as it, its right child more tightly;
      unary operators bind tightest. */
  predicate Bound(t: Tree) {
    match t
    case Atom(_) => true
    case Unary(op, c) => Precedence(op) == 0 && Level(c) == 0 && Bound(c)
    case Binary(op, l, r) => Precedence(op) > 0 && Level(l) <= Precedence(op) && Level(r) < Precedence(op)
      && Bound(l) && Bound(r)
    case Bare(_) => false
  }

  /** The operator at `i`, not reduced yet, against the operand tree at `j`. */
  predicate Fits(exprs: seq<Item>, i: nat, j: nat)
    requires i < |exprs| && j < |exprs|
  {
    exprs[i].Operator? && exprs[j].Operand? ==> FitsTree(exprs[i].op, i < j, exprs[j].tree)
  }

  predicate FitsTree(op: Op, before: bool, t: Tree) {
    if Precedence(op) == 0 then Level(t) == 0
    else if before then Level(t) < Precedence(op)
    else Level(t) <= Precedence(op)
  }

  ghost predicate AllFit(exprs: seq<Item>) {
    forall i: nat, j: nat | i < |exprs| && j < |exprs| :: Fits(exprs, i, j)
  }

  ghost predicate AllBound(exprs: seq<Item>) {
    forall j | 0 <= j < |exprs| && exprs[j].Operand? :: Bound(exprs[j].tree)
  }

  /** What holds in every round of the loop. */
  ghost predicate Inv(exprs: seq<Item>) {
    Adjacent(exprs) && AllBound(exprs) && AllFit(exprs)
  }

  lemma {:induction false} SelectedIsLeftmostLowest(exprs: seq<Item>, n: nat)
    requires n <= |exprs|
    ensures var k := Selected(exprs, n);
      && (forall i :: 0 <= i < n && exprs[i].Operator? ==> k >= 0 && Precedence(exprs[k].op) <= Precedence(exprs[i].op))
      && (forall i :: 0 <= i < k && exprs[i].Operator? ==> Precedence(exprs[k].op) < Precedence(exprs[i].op))
  {
    if n > 0 {
      SelectedIsLeftmostLowest(exprs, n - 1);
    }
  }

  lemma {:induction false} WrapBound(exprs: seq<Item>, k: nat, j: nat)
    requires k <= j < |exprs| && exprs[j].Operand? && Bound(exprs[j].tree) && Level(exprs[j].tree) == 0
    requires forall i :: k <= i < j ==> exprs[i].Operator?
    requires forall i :: k <= i < j ==> IsUnary(exprs[i])
    ensures Bound(WrapRun(exprs, k, j)) && Level(WrapRun(exprs, k, j)) == 0
    decreases j - k
  {
    if k < j {
      WrapBound(exprs, k + 1, j);
    }
  }

  /** Position in `exprs` of the item that stands at `i` after a replacement. */
  function Origin(from: nat, to: nat, i: nat): nat {
    if i <= from then i else i + (to - from)
  }

  lemma ReplaceAt(exprs: seq<Item>, from: nat, to: nat, tree: Tree, i: nat)
    requires from <= to < |exprs| && i < |Replace(exprs, from, to, tree)|
    ensures Origin(from, to, i) < |exprs|
    ensures Replace(exprs, from, to, tree)[i] == if i == from then Operand(tree) else exprs[Origin(from, to, i)]
  {
  }

  /** Collapsing a part that starts like an operand and ends in one keeps the list well-formed. */
  lemma ReplaceAdjacent(exprs: seq<Item>, from: nat, to: nat, tree: Tree)
    requires Adjacent(exprs) && from <= to < |exprs| && exprs[to].Operand? && !IsBinary(exprs[from])
    ensures Adjacent(Replace(exprs, from, to, tree))
  {
    var e' := Replace(exprs, from, to, tree);
    forall i | 0 <= i < |e'|
      ensures FollowedWell(e', i)
    {
      ReplaceAt(exprs, from, to, tree, i);
      assert FollowedWell(exprs, if i == from then to else Origin(from, to, i));
      if i + 1 < |e'| {
        ReplaceAt(exprs, from, to, tree, i + 1);
      }
    }
    ReplaceAt(exprs, from, to, tree, 0);
  }

  /** Putting in a well-bound tree that fits the operators outside keeps the invariant. */
  lemma ReplaceInv(exprs: seq<Item>, from: nat, to: nat, tree: Tree)
    requires Inv(exprs) && from <= to < |exprs| && exprs[to].Operand? && !IsBinary(exprs[from])
    requires Bound(tree)
    requires forall i | 0 <= i < |exprs| && exprs[i].Operator? && !(from <= i <= to) ::
      FitsTree(exprs[i].op, i < from, tree)
    ensures Inv(Replace(exprs, from, to, tree))
  {
    var e' := Replace(exprs, from, to, tree);
    ReplaceAdjacent(exprs, from, to, tree);
    forall i: nat, j: nat | i < |e'| && j < |e'|
      ensures Fits(e', i, j)
    {
      ReplaceAt(exprs, from, to, tree, i);
      ReplaceAt(exprs, from, to, tree, j);
      assert Fits(exprs, Origin(from, to, i), Origin(from, to, j));
    }
    forall j | 0 <= j < |e'| && e'[j].Operand?
      ensures Bound(e'[j].tree)
    {
      ReplaceAt(exprs, from, to, tree, j);
    }
  }

  /** Behind a unary operator there are only unary operators up to the next operand. */
  lemma {:induction false} UnaryRun(exprs: seq<Item>, k: nat)
    requires Adjacent(exprs) && k < |exprs| && !IsBinary(exprs[k])
    ensures NextOperand(exprs, k) < |exprs| && forall i :: k <= i < NextOperand(exprs, k) ==> IsUnary(exprs[i])
    decreases |exprs| - k
  {
    assert FollowedWell(exprs, k);
    if exprs[k].Operator? {
      UnaryRun(exprs, k + 1);
    }
  }

  lemma UnaryStep(exprs: seq<Item>, k: nat)
    requires Inv(exprs) && |exprs| > 1 && k == Selected(exprs, |exprs|) && IsUnary(exprs[k])
    ensures Reduce(exprs).Ok? && Inv(Reduce(exprs).value)
  {
    var j := NextOperand(exprs, k);
    UnaryRun(exprs, k);
    assert Fits(exprs, k, j);
    WrapBound(exprs, k, j);
    var t := WrapRun(exprs, k, j);
    forall i | 0 <= i < |exprs| && exprs[i].Operator? && !(k <= i <= j)
      ensures FitsTree(exprs[i].op, i < k, t)
    {
      assert FollowedWell(exprs, i);
    }
    ReplaceInv(exprs, k, j, t);
  }

  lemma BinaryStep(exprs: seq<Item>, k: nat)
    requires Inv(exprs) && |exprs| > 1 && k == Selected(exprs, |exprs|) && !IsUnary(exprs[k])
    ensures Reduce(exprs).Ok? && Inv(Reduce(exprs).value)
  {
    SelectedIsLeftmostLowest(exprs, |exprs|);
    BinaryNeighbours(exprs, k);
    assert Fits(exprs, k, k - 1) && Fits(exprs, k, k + 1);
    var t := Binary(Rebuilt(exprs[k].op), exprs[k - 1].tree, exprs[k + 1].tree);
    forall i | 0 <= i < |exprs| && exprs[i].Operator? && !(k - 1 <= i <= k + 1)
      ensures FitsTree(exprs[i].op, i < k - 1, t)
    {
    }
    ReplaceInv(exprs, k - 1, k + 1, t);
  }

  /** With no unary operator left, a selected operator stands between two operands. */
  lemma BinaryNeighbours(exprs: seq<Item>, k: nat)
    requires Adjacent(exprs) && k == Selected(exprs, |exprs|) && !IsUnary(exprs[k])
    ensures IsBinary(exprs[k]) && 1 <= k < |exprs| - 1 && exprs[k - 1].Operand? && exprs[k + 1].Operand?
  {
    SelectedIsLeftmostLowest(exprs, |exprs|);
    assert FollowedWell(exprs, k);
    assert k > 0 ==> FollowedWell(exprs, k - 1);
  }

  lemma HasOperator(exprs: seq<Item>)
    requires Adjacent(exprs) && |exprs| > 1
    ensures Selected(exprs, |exprs|) >= 0
  {
    SelectedIsLeftmostLowest(exprs, |exprs|);
    assert FollowedWell(exprs, 0);
  }

  lemma {:induction false} BuildKeepsInvariant(exprs: seq<Item>)
    requires Inv(exprs)
    ensures Build(exprs).Ok? && Bound(Build(exprs).value)
    decreases |exprs|
  {
    if |exprs| == 1 {
      assert FollowedWell(exprs, 0);
    } else {
      HasOperator(exprs);
      var k := Selected(exprs, |exprs|);
      if IsUnary(exprs[k]) {
        UnaryStep(exprs, k);
      } else {
        BinaryStep(exprs, k);
      }
      BuildKeepsInvariant(Reduce(exprs).value);
    }
  }

  predicate Atomic(exprs: seq<Item>) {
    forall i | i in exprs :: i.Operand? ==> i.tree.Atom?
  }

  lemma {:induction false} AtomicFlat(exprs: seq<Item>)
    requires Atomic(exprs)
    ensures Flatten(exprs) == exprs
  {
    if exprs != [] {
      assert exprs[0] in exprs;
      assert exprs == [exprs[0]] + exprs[1..];
      AtomicFlat(exprs[1..]);
    }
  }

  // Uniqueness

  /** Last of the binary operators of highest precedence among the first `n` items, -1 if there is none. */
  function Loosest(exprs: seq<Item>, n: nat): (k: int)
    requires n <= |exprs|
    ensures -1 <= k < n
    ensures k >= 0 ==> IsBinary(exprs[k])
  {
    if n == 0 then -1
    else
      var best := Loosest(exprs, n - 1);
      if IsBinary(exprs[n - 1]) && (best < 0 || Precedence(exprs[best].op) <= Precedence(exprs[n - 1].op)) then n - 1
      else best
  }

  /** The reference: split at the loosest operator, the last one if there are several. */
  function Reference(exprs: seq<Item>): Tree
    decreases |exprs|
  {
    if exprs == [] then Bare(INDEX)
    else
      var k := Loosest(exprs, |exprs|);
      if k >= 0 then Binary(exprs[k].op, Reference(exprs[..k]), Reference(exprs[k + 1..]))
      else if exprs[0].Operator? then Unary(exprs[0].op, Reference(exprs[1..]))
      else exprs[0].tree
  }

  lemma {:induction false} LoosestIs(exprs: seq<Item>, n: nat, k: nat)
    requires k < n <= |exprs| && IsBinary(exprs[k])
    requires forall i :: 0 <= i < k && IsBinary(exprs[i]) ==> Precedence(exprs[i].op) <= Precedence(exprs[k].op)
    requires forall i :: k < i < n && IsBinary(exprs[i]) ==> Precedence(exprs[i].op) < Precedence(exprs[k].op)
    ensures Loosest(exprs, n) == k
    decreases n
  {
    if n - 1 > k {
      LoosestIs(exprs, n - 1, k);
    } else {
      LoosestBelow(exprs, k, Precedence(exprs[k].op));
    }
  }

  lemma {:induction false} LoosestBelow(exprs: seq<Item>, n: nat, p: int)
    requires n <= |exprs|
    requires forall i :: 0 <= i < n && IsBinary(exprs[i]) ==> Precedence(exprs[i].op) <= p
    ensures Loosest(exprs, n) >= 0 ==> Precedence(exprs[Loosest(exprs, n)].op) <= p
  {
    if n > 0 {
      LoosestBelow(exprs, n - 1, p);
    }
  }

  /** No binary operator in a well-bound tree binds more loosely than the one at its root. */
  lemma {:induction false} LevelBounds(t: Tree)
    requires Bound(t)
    ensures forall i :: 0 <= i < |Yield(t)| && IsBinary(Yield(t)[i]) ==> Precedence(Yield(t)[i].op) <= Level(t)
  {
    match t
    case Atom(_) =>
    case Unary(_, c) =>
      LevelBounds(c);
      assert Yield(t)[1..] == Yield(c);
    case Binary(_, l, r) =>
      LevelBounds(l);
      LevelBounds(r);
      var n := |Yield(l)|;
      forall i | 0 <= i < |Yield(t)| && IsBinary(Yield(t)[i])
        ensures Precedence(Yield(t)[i].op) <= Level(t)
      {
        assert i < n ==> Yield(t)[i] == Yield(l)[i];
        assert i > n ==> Yield(t)[i] == Yield(r)[i - n - 1];
      }
  }

  /** A well-bound tree is determined by its yield. */
  lemma {:induction false} BoundIsReference(t: Tree)
    requires Bound(t)
    ensures Reference(Yield(t)) == t
  {
    var y := Yield(t);
    match t
    case Atom(_) =>
    case Unary(_, c) =>
      LevelBounds(t);
      BoundIsReference(c);
      assert y[1..] == Yield(c);
      LoosestBelow(y, |y|, 0);
    case Binary(op, l, r) =>
      var n := |Yield(l)|;
      LevelBounds(l);
      LevelBounds(r);
      assert y[..n] == Yield(l) && y[n + 1..] == Yield(r) && y[n] == Operator(op);
      forall i | 0 <= i < |y| && i != n && IsBinary(y[i])
        ensures if i < n then Precedence(y[i].op) <= Precedence(op) else Precedence(y[i].op) < Precedence(op)
      {
        assert i < n ==> y[i] == Yield(l)[i];
        assert i > n ==> y[i] == Yield(r)[i - n - 1];
      }
      LoosestIs(y, |y|, n);
      BoundIsReference(l);
      BoundIsReference(r);
  }

  /**
   On every well-formed list the builder succeeds with the reference tree of the list without marks. This
   tree is well bound, has that list as its yield, and is the only such tree.
   */
  lemma BuildsTheOneBoundTree(exprs: seq<Item>)
    requires Expression(exprs) && Atomic(exprs)
    ensures var plain := EraseAll(exprs);
      && Build(exprs) == Ok(Reference(plain))
      && Bound(Reference(plain)) && Yield(Reference(plain)) == plain
      && forall t :: Bound(t) && Yield(t) == plain ==> t == Reference(plain)
  {
    BuiltYield(exprs);
    BoundIsReference(Build(exprs).value);
    forall t | Bound(t) && Yield(t) == EraseAll(exprs)
      ensures t == Reference(EraseAll(exprs))
    {
      BoundIsReference(t);
    }
  }

  lemma BuiltYield(exprs: seq<Item>)
    requires Expression(exprs) && Atomic(exprs)
    ensures Build(exprs).Ok? && Bound(Build(exprs).value) && Yield(Build(exprs).value) == EraseAll(exprs)
  {
    ExpressionIffAdjacent(exprs);
    forall i: nat, j: nat | i < |exprs| && j < |exprs|
      ensures Fits(exprs, i, j)
    {
      assert exprs[j] in exprs && FollowedWell(exprs, i);
    }
    forall j | 0 <= j < |exprs| && exprs[j].Operand?
      ensures Bound(exprs[j].tree) && Unmarked(exprs[j].tree)
    {
      assert exprs[j] in exprs;
    }
    BuildKeepsInvariant(exprs);
    BuildConserves(exprs);
    AtomicFlat(exprs);
    assert FollowedWell(exprs, 0);
    BuildUnmarked(exprs);
    UnmarkedYield(Build(exprs).value);
  }

  /** The tree carries the marks of the list if and only if the list has none. */
  lemma MarksKeptIff(exprs: seq<Item>)
    requires Expression(exprs) && Atomic(exprs)
    ensures Build(exprs).Ok?
    ensures Yield(Build(exprs).value) == exprs <==> forall i :: 0 <= i < |exprs| ==> !IsMark(exprs[i])
  {
    BuiltYield(exprs);
    if Yield(Build(exprs).value) == exprs {
      forall i | 0 <= i < |exprs|
        ensures !IsMark(exprs[i])
      {
        assert Erase(exprs[i]) == exprs[i];
      }
    }
  }

  /** Erasing marks keeps what is well-formed. */
  lemma {:induction false} EraseExpression(exprs: seq<Item>)
    ensures Expression(EraseAll(exprs)) <==> Expression(exprs)
    ensures MoreOperands(EraseAll(exprs)) <==> MoreOperands(exprs)
    decreases |exprs|
  {
    if exprs != [] {
      EraseExpression(exprs[1..]);
      assert EraseAll(exprs)[1..] == EraseAll(exprs[1..]);
    }
  }

  lemma EraseAtomic(exprs: seq<Item>)
    requires Atomic(exprs)
    ensures Atomic(EraseAll(exprs))
  {
    forall i | i in EraseAll(exprs)
      ensures i.Operand? ==> i.tree.Atom?
    {
      var k :| 0 <= k < |exprs| && EraseAll(exprs)[k] == i;
      assert exprs[k] in exprs;
    }
  }

  lemma EraseTwice(exprs: seq<Item>)
    ensures EraseAll(EraseAll(exprs)) == EraseAll(exprs)
  {
  }
}
