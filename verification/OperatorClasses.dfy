/**
 Which operator binds tighter than which, from the tokens to the tree: the classes of operators written
 out once, and what the parser makes of two operators side by side.
 */
module OperatorClasses {
  import opened Wrappers
  import opened OperatorTree
  import opened OperatorTreeTheorem
  import opened ExpressionList

  type TokenClass = set<(Token, Op)>

  const MULTIPLICATIVE: TokenClass := {(T_MUL, MUL), (T_DIV, DIV), (T_MOD, MOD)}
  const ADDITIVE: TokenClass := {(T_PLUS, PLUS), (T_MINUS, MINUS)}
  const SHIFTS: TokenClass := {(T_BIT_LSHIFT, BIT_LSHIFT), (T_BIT_RSHIFT, BIT_RSHIFT)}
  const ORDERS: TokenClass := {(T_LT, LT), (T_LTEQ, LTEQ), (T_GT, GT), (T_GTEQ, GTEQ)}
  const EQUALITIES: TokenClass := {(T_EQEQ, EQEQ), (T_NOTEQ, NOTEQ)}
  const SIMPLE_ASSIGNMENTS: TokenClass := {
    (T_EQ, EQ), (T_PLUSEQ, PLUSEQ), (T_MINUSEQ, MINUSEQ), (T_MULEQ, MULEQ), (T_DIVEQ, DIVEQ), (T_MOD_EQ, MOD_EQ)
  }
  const BIT_ASSIGNMENTS: TokenClass := {
    (T_BIT_LSHIFT_EQ, BIT_LSHIFT_EQ), (T_BIT_RSHIFT_EQ, BIT_RSHIFT_EQ), (T_BIT_AND_EQ, BIT_AND_EQ),
    (T_BIT_XOR_EQ, BIT_XOR_EQ), (T_BIT_OR_EQ, BIT_OR_EQ)
  }

  /** The binary operators with their tokens, the tightest class first. */
  const CLASSES: seq<TokenClass> := [
    MULTIPLICATIVE,
    ADDITIVE,
    SHIFTS,
    ORDERS,
    EQUALITIES,
    {(T_BIT_AND, BIT_AND)},
    {(T_BIT_XOR, BIT_XOR)},
    {(T_BIT_OR, BIT_OR)},
    {(T_AND, AND)},
    {(T_OR, OR)},
    SIMPLE_ASSIGNMENTS + BIT_ASSIGNMENTS
  ]

  /** The prefix operators, which bind tighter than all of these. */
  const PREFIXES: TokenClass := {
    (T_NOT, NOT), (T_BIT_NOT, BIT_NOT), (T_PLUS, UPLUS), (T_MINUS, UMINUS), (T_BIT_AND, REFERENCE(false)),
    (T_MUL, DEREFERENCE)
  }

  predicate InClass(t: Token, op: Op, i: nat) {
    i < |CLASSES| && (t, op) in CLASSES[i]
  }

  /** The token stands for the operator between operands, which is in the class of that number. */
  predicate Stands(t: Token, op: Op, i: nat) {
    InfixOp(t) == Some(op) && SpellOp(op) == t && Precedence(op) == i + 1
  }

  lemma MultiplicativeMembers(t: Token, op: Op)
    requires (t, op) in MULTIPLICATIVE
    ensures Stands(t, op, 0)
  {
    assert t == T_MUL || t == T_DIV || t == T_MOD;
  }

  lemma AdditiveMembers(t: Token, op: Op)
    requires (t, op) in ADDITIVE
    ensures Stands(t, op, 1)
  {
    assert t == T_PLUS || t == T_MINUS;
  }

  lemma ShiftMembers(t: Token, op: Op)
    requires (t, op) in SHIFTS
    ensures Stands(t, op, 2)
  {
    assert t == T_BIT_LSHIFT || t == T_BIT_RSHIFT;
  }

  lemma OrderMembers(t: Token, op: Op)
    requires (t, op) in ORDERS
    ensures Stands(t, op, 3)
  {
    assert t == T_LT || t == T_LTEQ || t == T_GT || t == T_GTEQ;
  }

  lemma EqualityMembers(t: Token, op: Op)
    requires (t, op) in EQUALITIES
    ensures Stands(t, op, 4)
  {
    assert t == T_EQEQ || t == T_NOTEQ;
  }

  lemma AssignmentMembers(t: Token, op: Op)
    requires (t, op) in SIMPLE_ASSIGNMENTS + BIT_ASSIGNMENTS
    ensures Stands(t, op, 10)
  {
    if (t, op) in SIMPLE_ASSIGNMENTS {
      SimpleAssignmentMembers(t, op);
    } else {
      BitAssignmentMembers(t, op);
    }
  }

  lemma SimpleAssignmentMembers(t: Token, op: Op)
    requires (t, op) in SIMPLE_ASSIGNMENTS
    ensures Stands(t, op, 10)
  {
    assert t == T_EQ || t == T_PLUSEQ || t == T_MINUSEQ || t == T_MULEQ || t == T_DIVEQ || t == T_MOD_EQ;
  }

  lemma BitAssignmentMembers(t: Token, op: Op)
    requires (t, op) in BIT_ASSIGNMENTS
    ensures Stands(t, op, 10)
  {
    assert t == T_BIT_LSHIFT_EQ || t == T_BIT_RSHIFT_EQ || t == T_BIT_AND_EQ || t == T_BIT_XOR_EQ || t == T_BIT_OR_EQ;
  }

  lemma ClassMembers(t: Token, op: Op, i: nat)
    requires InClass(t, op, i)
    ensures Stands(t, op, i)
  {
    match i
    case 0 => MultiplicativeMembers(t, op);
    case 1 => AdditiveMembers(t, op);
    case 2 => ShiftMembers(t, op);
    case 3 => OrderMembers(t, op);
    case 4 => EqualityMembers(t, op);
    case 10 => AssignmentMembers(t, op);
    case _ => SingleMembers(t, op, i);
  }

  lemma SingleMembers(t: Token, op: Op, i: nat)
    requires 5 <= i < 10 && (t, op) in CLASSES[i]
    ensures Stands(t, op, i)
  {
    assert i == 5 || i == 6 || i == 7 || i == 8 || i == 9;
  }

  lemma PrefixMembers(t: Token, op: Op)
    requires (t, op) in PREFIXES
    ensures PrefixOp(t) == Some(op) && SpellOp(op) == t && Precedence(op) == 0 && !IsMark(Operator(op))
  {
  }

  /** The classes are all there is, but for `!` and `~`, which no list with a tree has behind an operand. */
  lemma ClassesComplete(t: Token, op: Op)
    ensures InfixOp(t) == Some(op) <==> (t, op) in {(T_NOT, NOT), (T_BIT_NOT, BIT_NOT)} || exists i :: InClass(t, op, i)
    ensures PrefixOp(t) == Some(op) <==> (t, op) in PREFIXES
  {
    if InfixOp(t) == Some(op) && t != T_NOT && t != T_BIT_NOT {
      InfixHasClass(t, op);
      assert InClass(t, op, Precedence(op) - 1);
    }
    if exists i :: InClass(t, op, i) {
      var i :| InClass(t, op, i);
      ClassMembers(t, op, i);
    }
  }

  lemma InfixHasClass(t: Token, op: Op)
    requires InfixOp(t) == Some(op) && t != T_NOT && t != T_BIT_NOT
    ensures 0 < Precedence(op) <= 11 && (t, op) in CLASSES[Precedence(op) - 1]
  {
    if Precedence(op) <= 3 {
      ArithmeticHasClass(t, op);
    } else if Precedence(op) <= 5 {
      ComparisonHasClass(t, op);
    } else if Precedence(op) < 11 {
      SingleHasClass(t, op);
    } else {
      assert (t, op) in SIMPLE_ASSIGNMENTS || (t, op) in BIT_ASSIGNMENTS;
    }
  }

  lemma ArithmeticHasClass(t: Token, op: Op)
    requires InfixOp(t) == Some(op) && t != T_NOT && t != T_BIT_NOT && Precedence(op) <= 3
    ensures 0 < Precedence(op) && (t, op) in CLASSES[Precedence(op) - 1]
  {
    match Precedence(op)
    case 1 => assert (t, op) in MULTIPLICATIVE;
    case 2 => assert (t, op) in ADDITIVE;
    case 3 => assert (t, op) in SHIFTS;
  }

  lemma ComparisonHasClass(t: Token, op: Op)
    requires InfixOp(t) == Some(op) && 4 <= Precedence(op) <= 5
    ensures (t, op) in CLASSES[Precedence(op) - 1]
  {
    if Precedence(op) == 4 {
      assert (t, op) in ORDERS;
    } else {
      assert (t, op) in EQUALITIES;
    }
  }

  lemma SingleHasClass(t: Token, op: Op)
    requires InfixOp(t) == Some(op) && 6 <= Precedence(op) <= 10
    ensures (t, op) in CLASSES[Precedence(op) - 1]
  {
    assert op == BIT_AND || op == BIT_XOR || op == BIT_OR || op == AND || op == OR;
  }

  // Lists and their tokens

  /** A list that begins with an operand or a prefix operator, or, if not `whole`, with a binary operator;
      its tokens; and the tree with this yield. */
  predicate Listed(exprs: seq<Item>, tokens: seq<Token>, whole: bool) {
    && Atomic(exprs) && EraseAll(exprs) == exprs && Spelling(exprs) == tokens
    && if whole then Expression(exprs) && Parsed(exprs) else MoreOperands(exprs) && MoreParsed(exprs)
  }

  lemma NoItems()
    ensures Listed([], [], false)
  {
  }

  lemma ConsItem(i: Item, exprs: seq<Item>)
    ensures ([i] + exprs)[1..] == exprs && ([i] + exprs)[0] == i
    ensures Spelling([i] + exprs) == Spelled(i) + Spelling(exprs)
    ensures Atomic(exprs) && (i.Operand? ==> i.tree.Atom?) ==> Atomic([i] + exprs)
    ensures EraseAll(exprs) == exprs && !IsMark(i) ==> EraseAll([i] + exprs) == [i] + exprs
  {
    assert ([i] + exprs)[1..] == exprs;
  }

  lemma ConsOperand(a: nat, exprs: seq<Item>, tokens: seq<Token>)
    requires Listed(exprs, tokens, false)
    ensures Listed([Operand(Atom(a))] + exprs, [Value(a)] + tokens, true)
  {
    ConsItem(Operand(Atom(a)), exprs);
  }

  lemma ConsBinary(op: Op, exprs: seq<Item>, tokens: seq<Token>)
    requires Precedence(op) > 0 && Listed(exprs, tokens, true)
    ensures Listed([Operator(op)] + exprs, [SpellOp(op)] + tokens, false)
  {
    ConsItem(Operator(op), exprs);
  }

  lemma ConsPrefix(op: Op, exprs: seq<Item>, tokens: seq<Token>)
    requires Precedence(op) == 0 && !IsMark(Operator(op)) && Listed(exprs, tokens, true)
    ensures Listed([Operator(op)] + exprs, [SpellOp(op)] + tokens, true)
  {
    ConsItem(Operator(op), exprs);
  }

  /** A list is parsed to the one bound tree that has it for its yield. */
  lemma ParsedTo(exprs: seq<Item>, tokens: seq<Token>, tree: Tree)
    requires Listed(exprs, tokens, true) && Bound(tree) && Yield(tree) == exprs
    ensures Parse(tokens, true) == Ok(tree)
  {
    SpelledIsRead(exprs, []);
    assert tokens + [] == tokens;
    BuildsTheOneBoundTree(exprs);
  }

  // Two operators

  lemma OneBinary(o: Op, a: nat)
    requires Precedence(o) > 0
    ensures Listed([Operator(o)] + ([Operand(Atom(a))] + []), [SpellOp(o)] + ([Value(a)] + []), false)
  {
    NoItems();
    ConsOperand(a, [], []);
    ConsBinary(o, [Operand(Atom(a))] + [], [Value(a)] + []);
  }

  lemma TwoBinaries(a: nat, o1: Op, b: nat, o2: Op, c: nat)
    requires Precedence(o1) > 0 && Precedence(o2) > 0
    ensures Listed([Operand(Atom(a)), Operator(o1), Operand(Atom(b)), Operator(o2), Operand(Atom(c))],
                   [Value(a), SpellOp(o1), Value(b), SpellOp(o2), Value(c)], true)
  {
    var l, t := [Operator(o2)] + ([Operand(Atom(c))] + []), [SpellOp(o2)] + ([Value(c)] + []);
    OneBinary(o2, c);
    ConsOperand(b, l, t);
    ConsBinary(o1, [Operand(Atom(b))] + l, [Value(b)] + t);
    ConsOperand(a, [Operator(o1)] + ([Operand(Atom(b))] + l), [SpellOp(o1)] + ([Value(b)] + t));
    assert [Operand(Atom(a))] + ([Operator(o1)] + ([Operand(Atom(b))] + l))
      == [Operand(Atom(a)), Operator(o1), Operand(Atom(b)), Operator(o2), Operand(Atom(c))];
    assert [Value(a)] + ([SpellOp(o1)] + ([Value(b)] + t)) == [Value(a), SpellOp(o1), Value(b), SpellOp(o2), Value(c)];
  }

  lemma TwoYields(a: nat, o1: Op, b: nat, o2: Op, c: nat)
    ensures Yield(Binary(o2, Binary(o1, Atom(a), Atom(b)), Atom(c)))
      == Yield(Binary(o1, Atom(a), Binary(o2, Atom(b), Atom(c))))
      == [Operand(Atom(a)), Operator(o1), Operand(Atom(b)), Operator(o2), Operand(Atom(c))]
  {
    assert Yield(Binary(o1, Atom(a), Atom(b))) == [Operand(Atom(a)), Operator(o1), Operand(Atom(b))];
    assert Yield(Binary(o2, Atom(b), Atom(c))) == [Operand(Atom(b)), Operator(o2), Operand(Atom(c))];
  }

  /**
   `a o1 b o2 c`: the first operator takes `b` if and only if its class does not come behind that of the
   second, so operators of one class, assignments too, group from the left.
   */
  lemma PairBinds(a: nat, t1: Token, o1: Op, i: nat, b: nat, t2: Token, o2: Op, j: nat, c: nat)
    requires InClass(t1, o1, i) && InClass(t2, o2, j)
    ensures var tree := Parse([Value(a), t1, Value(b), t2, Value(c)], true);
      && (tree == Ok(Binary(o2, Binary(o1, Atom(a), Atom(b)), Atom(c))) <==> i <= j)
      && (tree == Ok(Binary(o1, Atom(a), Binary(o2, Atom(b), Atom(c)))) <==> i > j)
  {
    ClassMembers(t1, o1, i);
    ClassMembers(t2, o2, j);
    TwoBinaries(a, o1, b, o2, c);
    TwoYields(a, o1, b, o2, c);
    PairParsed(a, o1, b, o2, c);
  }

  lemma PairParsed(a: nat, o1: Op, b: nat, o2: Op, c: nat)
    requires Precedence(o1) > 0 && Precedence(o2) > 0
    ensures Parse([Value(a), SpellOp(o1), Value(b), SpellOp(o2), Value(c)], true)
      == Ok(if Precedence(o1) <= Precedence(o2) then Binary(o2, Binary(o1, Atom(a), Atom(b)), Atom(c))
            else Binary(o1, Atom(a), Binary(o2, Atom(b), Atom(c))))
  {
    TwoBinaries(a, o1, b, o2, c);
    TwoYields(a, o1, b, o2, c);
    ParsedTo([Operand(Atom(a)), Operator(o1), Operand(Atom(b)), Operator(o2), Operand(Atom(c))],
             [Value(a), SpellOp(o1), Value(b), SpellOp(o2), Value(c)],
             if Precedence(o1) <= Precedence(o2) then Binary(o2, Binary(o1, Atom(a), Atom(b)), Atom(c))
             else Binary(o1, Atom(a), Binary(o2, Atom(b), Atom(c))));
  }

  /** A prefix operator takes its operand from any binary operator, on either side. */
  lemma PrefixBinds(t1: Token, o1: Op, a: nat, t2: Token, o2: Op, j: nat, b: nat)
    requires (t1, o1) in PREFIXES && InClass(t2, o2, j)
    ensures Parse([t1, Value(a), t2, Value(b)], true) == Ok(Binary(o2, Unary(o1, Atom(a)), Atom(b)))
    ensures Parse([Value(a), t2, t1, Value(b)], true) == Ok(Binary(o2, Atom(a), Unary(o1, Atom(b))))
  {
    PrefixMembers(t1, o1);
    ClassMembers(t2, o2, j);
    PrefixFirst(o1, a, o2, b);
    PrefixSecond(a, o2, o1, b);
  }

  lemma PrefixFirst(o1: Op, a: nat, o2: Op, b: nat)
    requires Precedence(o1) == 0 && !IsMark(Operator(o1)) && Precedence(o2) > 0
    ensures Parse([SpellOp(o1), Value(a), SpellOp(o2), Value(b)], true)
      == Ok(Binary(o2, Unary(o1, Atom(a)), Atom(b)))
  {
    var l, t := [Operator(o2)] + ([Operand(Atom(b))] + []), [SpellOp(o2)] + ([Value(b)] + []);
    OneBinary(o2, b);
    ConsOperand(a, l, t);
    ConsPrefix(o1, [Operand(Atom(a))] + l, [Value(a)] + t);
    var tree := Binary(o2, Unary(o1, Atom(a)), Atom(b));
    assert Yield(Unary(o1, Atom(a))) == [Operator(o1), Operand(Atom(a))];
    assert Yield(tree) == [Operator(o1)] + ([Operand(Atom(a))] + l);
    ParsedTo([Operator(o1)] + ([Operand(Atom(a))] + l), [SpellOp(o1)] + ([Value(a)] + t), tree);
    assert [SpellOp(o1)] + ([Value(a)] + t) == [SpellOp(o1), Value(a), SpellOp(o2), Value(b)];
  }

  lemma PrefixSecond(a: nat, o2: Op, o1: Op, b: nat)
    requires Precedence(o1) == 0 && !IsMark(Operator(o1)) && Precedence(o2) > 0
    ensures Parse([Value(a), SpellOp(o2), SpellOp(o1), Value(b)], true)
      == Ok(Binary(o2, Atom(a), Unary(o1, Atom(b))))
  {
    NoItems();
    var l, t := [Operand(Atom(b))] + [], [Value(b)] + [];
    ConsOperand(b, [], []);
    ConsPrefix(o1, l, t);
    ConsBinary(o2, [Operator(o1)] + l, [SpellOp(o1)] + t);
    ConsOperand(a, [Operator(o2)] + ([Operator(o1)] + l), [SpellOp(o2)] + ([SpellOp(o1)] + t));
    var tree := Binary(o2, Atom(a), Unary(o1, Atom(b)));
    assert Yield(Unary(o1, Atom(b))) == [Operator(o1), Operand(Atom(b))];
    assert Yield(tree) == [Operand(Atom(a))] + ([Operator(o2)] + ([Operator(o1)] + l));
    ParsedTo([Operand(Atom(a))] + ([Operator(o2)] + ([Operator(o1)] + l)),
             [Value(a)] + ([SpellOp(o2)] + ([SpellOp(o1)] + t)), tree);
    assert [Value(a)] + ([SpellOp(o2)] + ([SpellOp(o1)] + t)) == [Value(a), SpellOp(o2), SpellOp(o1), Value(b)];
  }
}
