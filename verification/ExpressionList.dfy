/**
 The list `Parser::parseExpr` hands to the operator tree builder, and on which of those lists the
 builder succeeds: the token loop admits `!` and `~` behind an operand, the builder does not.
 */
module ExpressionList {
  import opened Wrappers
  import opened OperatorTree
  import opened OperatorTreeTheorem

  // Tokens

  /** `Value` is one operand with its postfix calls, indexing and casts; `Other` any further token. */
  datatype Token =
    | Value(id: nat)
    | T_NOT | T_BIT_NOT
    | T_MUL | T_DIV | T_MOD | T_PLUS | T_MINUS
    | T_BIT_LSHIFT | T_BIT_RSHIFT
    | T_LT | T_LTEQ | T_GT | T_GTEQ | T_EQEQ | T_NOTEQ
    | T_BIT_AND | T_BIT_XOR | T_BIT_OR | T_AND | T_OR
    | T_EQ | T_PLUSEQ | T_MINUSEQ | T_MULEQ | T_DIVEQ | T_MOD_EQ
    | T_BIT_LSHIFT_EQ | T_BIT_RSHIFT_EQ | T_BIT_AND_EQ | T_BIT_XOR_EQ | T_BIT_OR_EQ
    | T_MUT | Other

  /** What a token means where an operand is expected. */
  function PrefixOp(t: Token): Option<Op> {
    match t
    case T_NOT => Some(NOT)
    case T_PLUS => Some(UPLUS)
    case T_MINUS => Some(UMINUS)
    case T_BIT_NOT => Some(BIT_NOT)
    case T_BIT_AND => Some(REFERENCE(false))
    case T_MUL => Some(DEREFERENCE)
    case _ => None
  }

  /** What a token means behind an operand. */
  function InfixOp(t: Token): Option<Op> {
    match t
    case T_EQ => Some(EQ)
    case T_EQEQ => Some(EQEQ)
    case T_PLUS => Some(PLUS)
    case T_PLUSEQ => Some(PLUSEQ)
    case T_MINUS => Some(MINUS)
    case T_MINUSEQ => Some(MINUSEQ)
    case T_MUL => Some(MUL)
    case T_MULEQ => Some(MULEQ)
    case T_DIV => Some(DIV)
    case T_DIVEQ => Some(DIVEQ)
    case T_MOD => Some(MOD)
    case T_MOD_EQ => Some(MOD_EQ)
    case T_LT => Some(LT)
    case T_LTEQ => Some(LTEQ)
    case T_GT => Some(GT)
    case T_GTEQ => Some(GTEQ)
    case T_AND => Some(AND)
    case T_OR => Some(OR)
    case T_NOT => Some(NOT)
    case T_NOTEQ => Some(NOTEQ)
    case T_BIT_NOT => Some(BIT_NOT)
    case T_BIT_LSHIFT => Some(BIT_LSHIFT)
    case T_BIT_LSHIFT_EQ => Some(BIT_LSHIFT_EQ)
    case T_BIT_RSHIFT => Some(BIT_RSHIFT)
    case T_BIT_RSHIFT_EQ => Some(BIT_RSHIFT_EQ)
    case T_BIT_OR => Some(BIT_OR)
    case T_BIT_OR_EQ => Some(BIT_OR_EQ)
    case T_BIT_AND => Some(BIT_AND)
    case T_BIT_AND_EQ => Some(BIT_AND_EQ)
    case T_BIT_XOR => Some(BIT_XOR)
    case T_BIT_XOR_EQ => Some(BIT_XOR_EQ)
    case _ => None
  }

  // The lists of the token loop

  predicate IsInfix(i: Item) {
    IsBinary(i) || i == Operator(NOT) || i == Operator(BIT_NOT)
  }

  /** `unary* operand (infix unary* operand)*`, an infix being a binary operator, `!` or `~` */
  predicate Parsed(exprs: seq<Item>) {
    && exprs != []
    && if exprs[0].Operand? then MoreParsed(exprs[1..]) else IsUnary(exprs[0]) && Parsed(exprs[1..])
  }

  predicate MoreParsed(exprs: seq<Item>) {
    exprs == [] || (IsInfix(exprs[0]) && Parsed(exprs[1..]))
  }

  /** Some `!` or `~` stands directly behind an operand. */
  ghost predicate HasInfixNegation(exprs: seq<Item>) {
    exists i :: 0 <= i < |exprs| - 1 && exprs[i].Operand? && IsUnary(exprs[i + 1])
  }

  /** Among the lists of the token loop the well-formed ones are those without an infix negation. */
  lemma {:induction false} ParsedWellFormed(exprs: seq<Item>)
    ensures Parsed(exprs) ==> (Expression(exprs) <==> !HasInfixNegation(exprs))
    ensures MoreParsed(exprs) ==>
      (MoreOperands(exprs) <==> (exprs == [] || IsBinary(exprs[0])) && !HasInfixNegation(exprs))
    decreases |exprs|
  {
    if exprs != [] {
      var rest := exprs[1..];
      ParsedWellFormed(rest);
      if HasInfixNegation(rest) {
        var i :| 0 <= i < |rest| - 1 && rest[i].Operand? && IsUnary(rest[i + 1]);
        assert exprs[i + 1].Operand? && IsUnary(exprs[i + 2]);
      }
      if HasInfixNegation(exprs) {
        var i :| 0 <= i < |exprs| - 1 && exprs[i].Operand? && IsUnary(exprs[i + 1]);
        assert i > 0 ==> rest[i - 1].Operand? && IsUnary(rest[i]);
      }
      if exprs[0].Operand? && rest != [] && !IsBinary(rest[0]) && MoreParsed(rest) {
        assert IsUnary(exprs[1]);
      }
    }
  }

  // On which of them the builder succeeds

  /** Operands left over if every binary operator takes one away. */
  function Surplus(exprs: seq<Item>): int {
    if exprs == [] then 0
    else (if exprs[0].Operand? then 1 else if IsBinary(exprs[0]) then -1 else 0) + Surplus(exprs[1..])
  }

  lemma {:induction false} SurplusConcat(a: seq<Item>, b: seq<Item>)
    ensures Surplus(a + b) == Surplus(a) + Surplus(b)
  {
    if a == [] {
      assert a + b == b;
    } else {
      assert (a + b)[1..] == a[1..] + b;
      SurplusConcat(a[1..], b);
    }
  }

  lemma ReplaceSurplus(exprs: seq<Item>, from: nat, to: nat, tree: Tree)
    requires from <= to < |exprs| && Surplus(exprs[from..to + 1]) == 1
    ensures Surplus(Replace(exprs, from, to, tree)) == Surplus(exprs)
  {
    var a, b, c := exprs[..from], exprs[from..to + 1], exprs[to + 1..];
    assert exprs == a + b + c;
    SurplusConcat(a + b, c);
    SurplusConcat(a, b);
    SurplusConcat(a + [Operand(tree)], c);
    SurplusConcat(a, [Operand(tree)]);
    assert Surplus([Operand(tree)]) == 1;
  }

  lemma {:induction false} RunSurplus(exprs: seq<Item>, k: nat, j: nat)
    requires k <= j < |exprs| && exprs[j].Operand?
    requires forall i :: k <= i < j ==> IsUnary(exprs[i])
    ensures Surplus(exprs[k..j + 1]) == 1
    decreases j - k
  {
    assert exprs[k..j + 1][1..] == exprs[k + 1..j + 1];
    if k < j {
      RunSurplus(exprs, k + 1, j);
    }
  }

  predicate OperatorFollowed(exprs: seq<Item>, i: nat)
    requires i < |exprs|
  {
    exprs[i].Operator? ==>
      (IsUnary(exprs[i]) || IsBinary(exprs[i])) && i + 1 < |exprs| && (exprs[i + 1].Operand? || IsUnary(exprs[i + 1]))
  }

  /** Every operator is followed by a unary operator or an operand; operands may be neighbours. */
  ghost predicate Loose(exprs: seq<Item>) {
    forall i :: 0 <= i < |exprs| ==> OperatorFollowed(exprs, i)
  }

  lemma {:induction false} ParsedIsLoose(exprs: seq<Item>)
    ensures Parsed(exprs) || MoreParsed(exprs) ==> Loose(exprs)
    decreases |exprs|
  {
    if exprs != [] && (Parsed(exprs) || MoreParsed(exprs)) {
      ParsedIsLoose(exprs[1..]);
      forall i | 0 <= i < |exprs|
        ensures OperatorFollowed(exprs, i)
      {
        assert i > 0 ==> OperatorFollowed(exprs[1..], i - 1);
      }
    }
  }

  lemma {:induction false} LooseRun(exprs: seq<Item>, k: nat)
    requires Loose(exprs) && k < |exprs| && !IsBinary(exprs[k])
    ensures NextOperand(exprs, k) < |exprs| && forall i :: k <= i < NextOperand(exprs, k) ==> IsUnary(exprs[i])
    decreases |exprs| - k
  {
    assert OperatorFollowed(exprs, k);
    if exprs[k].Operator? {
      LooseRun(exprs, k + 1);
    }
  }

  lemma ReplaceLoose(exprs: seq<Item>, from: nat, to: nat, tree: Tree)
    requires Loose(exprs) && from <= to < |exprs|
    ensures Loose(Replace(exprs, from, to, tree))
  {
    var e' := Replace(exprs, from, to, tree);
    forall i | 0 <= i < |e'|
      ensures OperatorFollowed(e', i)
    {
      ReplaceAt(exprs, from, to, tree, i);
      assert OperatorFollowed(exprs, Origin(from, to, i));
      if i + 1 < |e'| {
        ReplaceAt(exprs, from, to, tree, i + 1);
      }
    }
  }

  lemma LooseUnaryStep(exprs: seq<Item>, k: nat)
    requires Loose(exprs) && |exprs| > 1 && k == Selected(exprs, |exprs|) && IsUnary(exprs[k])
    ensures Reduce(exprs).Ok? && Loose(Reduce(exprs).value) && Surplus(Reduce(exprs).value) == Surplus(exprs)
  {
    LooseRun(exprs, k);
    var j := NextOperand(exprs, k);
    RunSurplus(exprs, k, j);
    ReplaceSurplus(exprs, k, j, WrapRun(exprs, k, j));
    ReplaceLoose(exprs, k, j, WrapRun(exprs, k, j));
  }

  lemma LooseBinaryStep(exprs: seq<Item>, k: nat, t: Tree)
    requires Loose(exprs) && 1 <= k < |exprs| - 1
    requires exprs[k - 1].Operand? && IsBinary(exprs[k]) && exprs[k + 1].Operand?
    ensures var e' := Replace(exprs, k - 1, k + 1, t); Loose(e') && Surplus(e') == Surplus(exprs)
  {
    TripleSurplus(exprs, k);
    ReplaceSurplus(exprs, k - 1, k + 1, t);
    ReplaceLoose(exprs, k - 1, k + 1, t);
  }

  lemma LooseStep(exprs: seq<Item>)
    requires Loose(exprs) && |exprs| > 1
    ensures match Reduce(exprs)
            case Ok(e') => Loose(e') && Surplus(e') == Surplus(exprs)
            case Err(e) => e == AssertionFailed
  {
    var k := Selected(exprs, |exprs|);
    if k >= 0 {
      assert OperatorFollowed(exprs, k);
      if IsUnary(exprs[k]) {
        LooseUnaryStep(exprs, k);
      } else if Reduce(exprs).Ok? {
        LooseBinaryStep(exprs, k, Binary(Rebuilt(exprs[k].op), exprs[k - 1].tree, exprs[k + 1].tree));
      }
    }
  }

  lemma TripleSurplus(exprs: seq<Item>, k: nat)
    requires 1 <= k < |exprs| - 1 && exprs[k - 1].Operand? && IsBinary(exprs[k]) && exprs[k + 1].Operand?
    ensures Surplus(exprs[k - 1..k + 2]) == 1
  {
    var s := exprs[k - 1..k + 2];
    assert s[1..][1..][1..] == [];
    assert Surplus(s[1..][1..]) == 1;
  }

  lemma {:induction false} BuildNeedsSurplusOne(exprs: seq<Item>)
    requires Loose(exprs) && exprs != []
    ensures Build(exprs).Ok? ==> Surplus(exprs) == 1
    ensures Build(exprs).Err? ==> Build(exprs).error == AssertionFailed
    decreases |exprs|
  {
    if |exprs| == 1 {
      assert OperatorFollowed(exprs, 0);
      assert exprs[1..] == [];
    } else {
      LooseStep(exprs);
      if Reduce(exprs).Ok? {
        BuildNeedsSurplusOne(Reduce(exprs).value);
      }
    }
  }

  /** Every infix negation leaves one operand over. */
  lemma {:induction false} ParsedSurplus(exprs: seq<Item>)
    ensures Parsed(exprs) ==> Surplus(exprs) >= 1 && (Surplus(exprs) == 1 ==> Expression(exprs))
    ensures MoreParsed(exprs) ==> Surplus(exprs) >= 0 && (Surplus(exprs) == 0 ==> MoreOperands(exprs))
    decreases |exprs|
  {
    if exprs != [] {
      ParsedSurplus(exprs[1..]);
    }
  }

  /**
   On the lists the token loop produces, the builder returns a tree exactly when no `!` or `~` stands
   behind an operand; otherwise it is an assertion of the builder that fails, never a reported error.
   */
  lemma BuildSucceedsIff(exprs: seq<Item>)
    requires Parsed(exprs) && Atomic(exprs)
    ensures Build(exprs).Ok? <==> !HasInfixNegation(exprs)
    ensures HasInfixNegation(exprs) ==> Build(exprs) == Err(AssertionFailed)
  {
    ParsedWellFormed(exprs);
    if !HasInfixNegation(exprs) {
      BuildsTheOneBoundTree(exprs);
    } else {
      ParsedIsLoose(exprs);
      BuildNeedsSurplusOne(exprs);
      ParsedSurplus(exprs);
    }
  }

  /** The smallest failing list: `a ! b`. */
  lemma InfixNotFails(a: nat, b: nat)
    ensures var l := [Operand(Atom(a)), Operator(NOT), Operand(Atom(b))];
      Parsed(l) && Build(l) == Err(AssertionFailed)
  {
    var l := [Operand(Atom(a)), Operator(NOT), Operand(Atom(b))];
    assert l[1..] == [Operator(NOT), Operand(Atom(b))];
    assert l[1..][1..] == [Operand(Atom(b))];
    assert Parsed(l[1..][1..]);
    assert IsUnary(l[0 + 1]);
    forall i | i in l
      ensures i.Operand? ==> i.tree.Atom?
    {
    }
    BuildSucceedsIff(l);
  }

  // The token loop

  datatype Expected = ExpressionExpectedAt(left: nat)

  function SpellOp(op: Op): Token {
    match op
    case NOT => T_NOT
    case BIT_NOT => T_BIT_NOT
    case UPLUS | PLUS => T_PLUS
    case UMINUS | MINUS => T_MINUS
    case REFERENCE(_) | BIT_AND => T_BIT_AND
    case DEREFERENCE | MUL => T_MUL
    case DIV => T_DIV
    case MOD => T_MOD
    case BIT_LSHIFT => T_BIT_LSHIFT
    case BIT_RSHIFT => T_BIT_RSHIFT
    case LT => T_LT
    case LTEQ => T_LTEQ
    case GT => T_GT
    case GTEQ => T_GTEQ
    case EQEQ => T_EQEQ
    case NOTEQ => T_NOTEQ
    case BIT_XOR => T_BIT_XOR
    case BIT_OR => T_BIT_OR
    case AND => T_AND
    case OR => T_OR
    case EQ => T_EQ
    case PLUSEQ => T_PLUSEQ
    case MINUSEQ => T_MINUSEQ
    case MULEQ => T_MULEQ
    case DIVEQ => T_DIVEQ
    case MOD_EQ => T_MOD_EQ
    case BIT_LSHIFT_EQ => T_BIT_LSHIFT_EQ
    case BIT_RSHIFT_EQ => T_BIT_RSHIFT_EQ
    case BIT_AND_EQ => T_BIT_AND_EQ
    case BIT_XOR_EQ => T_BIT_XOR_EQ
    case BIT_OR_EQ => T_BIT_OR_EQ
    case INDEX | RANGE => Other
  }

  /** The token an item is read from. */
  function Spell(i: Item): Token {
    if i.Operator? then SpellOp(i.op) else if i.tree.Atom? then Value(i.tree.id) else Other
  }

  /** All its tokens: a mutable reference is spelled `&mut`. */
  function Spelled(i: Item): (tokens: seq<Token>)
    ensures tokens != [] && tokens[0] == Spell(i) != T_MUT
  {
    [Spell(i)] + if IsMark(i) then [T_MUT] else []
  }

  function Spelling(exprs: seq<Item>): seq<Token> {
    if exprs == [] then [] else Spelled(exprs[0]) + Spelling(exprs[1..])
  }

  predicate Stops(rest: seq<Token>) {
    rest == [] || InfixOp(rest[0]) == None
  }

  datatype Reading = Read(exprs: seq<Item>, rest: seq<Token>) | Stuck(error: Expected)

  function Prepend(i: Item, r: Reading): Reading {
    if r.Read? then Read([i] + r.exprs, r.rest) else r
  }

  /** `&` with a `mut` behind it. */
  predicate IsMutReference(tokens: seq<Token>) {
    |tokens| > 1 && tokens[0] == T_BIT_AND && tokens[1] == T_MUT
  }

  /** An expression at the front of `tokens`; the error counts the tokens not consumed. */
  function ReadExpr(tokens: seq<Token>): Reading {
    if tokens == [] then Stuck(ExpressionExpectedAt(0))
    else if tokens[0].Value? then Prepend(Operand(Atom(tokens[0].id)), ReadMore(tokens[1..]))
    else if IsMutReference(tokens) then Prepend(Operator(REFERENCE(true)), ReadExpr(tokens[2..]))
    else if PrefixOp(tokens[0]).Some? then Prepend(Operator(PrefixOp(tokens[0]).value), ReadExpr(tokens[1..]))
    else Stuck(ExpressionExpectedAt(|tokens|))
  }

  function ReadMore(tokens: seq<Token>): Reading {
    if Stops(tokens) then Read([], tokens)
    else Prepend(Operator(InfixOp(tokens[0]).value), ReadExpr(tokens[1..]))
  }

  lemma SpellPrefix(i: Item)
    ensures IsUnary(i) <==> PrefixOp(Spell(i)).Some? && Erase(i) == Operator(PrefixOp(Spell(i)).value)
    ensures IsInfix(i) <==> InfixOp(Spell(i)).Some? && i == Operator(InfixOp(Spell(i)).value)
  {
  }

  lemma PrefixIsSpelled(t: Token)
    requires PrefixOp(t).Some?
    ensures IsUnary(Operator(PrefixOp(t).value)) && Spell(Operator(PrefixOp(t).value)) == t
  {
  }

  lemma InfixIsSpelled(t: Token)
    requires InfixOp(t).Some?
    ensures IsInfix(Operator(InfixOp(t).value)) && Spell(Operator(InfixOp(t).value)) == t
  {
  }

  /** What a reading of `tokens` must be. */
  predicate Spells(tokens: seq<Token>, r: Reading) {
    r.Read? ==> Atomic(r.exprs) && tokens == Spelling(r.exprs) + r.rest && Stops(r.rest)
  }

  lemma PrependSpells(i: Item, tokens: seq<Token>, r: Reading)
    requires Spells(tokens, r) && (i.Operand? ==> i.tree.Atom?)
    ensures Spells(Spelled(i) + tokens, Prepend(i, r))
  {
    if r.Read? {
      assert ([i] + r.exprs)[1..] == r.exprs;
      assert Spelled(i) + (Spelling(r.exprs) + r.rest) == Spelled(i) + Spelling(r.exprs) + r.rest;
    }
  }

  lemma HeadIsSpelled(t: Token)
    ensures PrefixOp(t).Some? ==> IsUnary(Operator(PrefixOp(t).value)) && Spelled(Operator(PrefixOp(t).value)) == [t]
    ensures InfixOp(t).Some? ==> IsInfix(Operator(InfixOp(t).value)) && Spelled(Operator(InfixOp(t).value)) == [t]
  {
    if PrefixOp(t).Some? {
      PrefixIsSpelled(t);
    }
    if InfixOp(t).Some? {
      InfixIsSpelled(t);
    }
  }

  /** The first item read where an operand is expected, and the tokens behind it. */
  function FirstItem(tokens: seq<Token>): (r: (Item, seq<Token>))
    requires tokens != [] && (tokens[0].Value? || PrefixOp(tokens[0]).Some?)
    ensures |r.1| < |tokens|
  {
    if tokens[0].Value? then (Operand(Atom(tokens[0].id)), tokens[1..])
    else if IsMutReference(tokens) then (Operator(REFERENCE(true)), tokens[2..])
    else (Operator(PrefixOp(tokens[0]).value), tokens[1..])
  }

  lemma FirstItemSpelled(tokens: seq<Token>)
    requires tokens != [] && (tokens[0].Value? || PrefixOp(tokens[0]).Some?)
    ensures var (i, rest) := FirstItem(tokens);
      && tokens == Spelled(i) + rest
      && (if i.Operand? then i.tree.Atom? else IsUnary(i))
      && ReadExpr(tokens) == Prepend(i, if i.Operand? then ReadMore(rest) else ReadExpr(rest))
  {
    HeadIsSpelled(tokens[0]);
  }

  lemma {:induction false} ReadIsSpelled(tokens: seq<Token>)
    ensures Spells(tokens, ReadExpr(tokens)) && (ReadExpr(tokens).Read? ==> Parsed(ReadExpr(tokens).exprs))
    decreases |tokens|, 0
  {
    if tokens != [] && (tokens[0].Value? || PrefixOp(tokens[0]).Some?) {
      FirstItemSpelled(tokens);
      var (i, rest) := FirstItem(tokens);
      if i.Operand? {
        MoreIsSpelled(rest);
        PrependSpells(i, rest, ReadMore(rest));
      } else {
        ReadIsSpelled(rest);
        PrependSpells(i, rest, ReadExpr(rest));
      }
    }
  }

  lemma {:induction false} MoreIsSpelled(tokens: seq<Token>)
    ensures Spells(tokens, ReadMore(tokens)) && (ReadMore(tokens).Read? ==> MoreParsed(ReadMore(tokens).exprs))
    decreases |tokens|, 1
  {
    if !Stops(tokens) {
      var i := Operator(InfixOp(tokens[0]).value);
      HeadIsSpelled(tokens[0]);
      ReadIsSpelled(tokens[1..]);
      PrependSpells(i, tokens[1..], ReadExpr(tokens[1..]));
      assert tokens == Spelled(i) + tokens[1..];
    }
  }

  lemma ReadUnary(i: Item, tokens: seq<Token>)
    requires IsUnary(i) && tokens != [] && tokens[0] != T_MUT
    ensures ReadExpr(Spelled(i) + tokens) == Prepend(i, ReadExpr(tokens))
  {
    SpellPrefix(i);
    assert (Spelled(i) + tokens)[|Spelled(i)|..] == tokens;
  }

  lemma ReadInfix(i: Item, tokens: seq<Token>)
    requires IsInfix(i)
    ensures ReadMore(Spelled(i) + tokens) == Prepend(i, ReadExpr(tokens))
  {
    assert (Spelled(i) + tokens)[1..] == tokens;
    SpellPrefix(i);
  }

  lemma ReadOperand(i: Item, tokens: seq<Token>)
    requires i.Operand? && i.tree.Atom?
    ensures ReadExpr(Spelled(i) + tokens) == Prepend(i, ReadMore(tokens))
  {
    assert (Spelled(i) + tokens)[1..] == tokens;
  }

  /** What is spelled does not begin with `mut`. */
  lemma SpellingStarts(exprs: seq<Item>, rest: seq<Token>)
    requires exprs != []
    ensures var tokens := Spelling(exprs) + rest; tokens != [] && tokens[0] == Spell(exprs[0]) != T_MUT
  {
  }

  lemma Regrouped(a: seq<Token>, b: seq<Token>, c: seq<Token>)
    ensures a + b + c == a + (b + c)
  {
  }

  lemma AtomicTail(exprs: seq<Item>)
    requires exprs != [] && Atomic(exprs)
    ensures Atomic(exprs[1..]) && (exprs[0].Operand? ==> exprs[0].tree.Atom?)
    ensures exprs == [exprs[0]] + exprs[1..]
  {
    assert exprs[0] in exprs;
  }

  lemma SpellingTail(exprs: seq<Item>, rest: seq<Token>)
    requires exprs != []
    ensures Spelling(exprs) + rest == Spelled(exprs[0]) + (Spelling(exprs[1..]) + rest)
  {
    Regrouped(Spelled(exprs[0]), Spelling(exprs[1..]), rest);
  }

  lemma {:induction false} SpelledIsRead(exprs: seq<Item>, rest: seq<Token>)
    requires Atomic(exprs) && Stops(rest) && Parsed(exprs)
    ensures ReadExpr(Spelling(exprs) + rest) == Read(exprs, rest)
    decreases |exprs|, 0
  {
    var tokens := Spelling(exprs[1..]) + rest;
    AtomicTail(exprs);
    SpellingTail(exprs, rest);
    if exprs[0].Operand? {
      SpelledMoreIsRead(exprs[1..], rest);
      ReadOperand(exprs[0], tokens);
    } else {
      SpelledIsRead(exprs[1..], rest);
      SpellingStarts(exprs[1..], rest);
      ReadUnary(exprs[0], tokens);
    }
  }

  lemma {:induction false} SpelledMoreIsRead(exprs: seq<Item>, rest: seq<Token>)
    requires Atomic(exprs) && Stops(rest) && MoreParsed(exprs)
    ensures ReadMore(Spelling(exprs) + rest) == Read(exprs, rest)
    decreases |exprs|, 1
  {
    if exprs == [] {
      assert Spelling(exprs) + rest == rest;
    } else {
      AtomicTail(exprs);
      SpellingTail(exprs, rest);
      SpelledIsRead(exprs[1..], rest);
      ReadInfix(exprs[0], Spelling(exprs[1..]) + rest);
    }
  }

  /** What the token loop returns, in both directions: the list of the grammar that spells the tokens
      consumed, as long as it can be. */
  lemma ReadExprIff(tokens: seq<Token>, exprs: seq<Item>, rest: seq<Token>)
    ensures ReadExpr(tokens) == Read(exprs, rest)
      <==> Parsed(exprs) && Atomic(exprs) && Stops(rest) && tokens == Spelling(exprs) + rest
  {
    ReadIsSpelled(tokens);
    if Parsed(exprs) && Atomic(exprs) && Stops(rest) {
      SpelledIsRead(exprs, rest);
    }
  }

  /** Reading and building together: a tree that is well bound and spells the tokens consumed, if and only
      if no reference is mutable; otherwise but for the `mut`. */
  lemma BuiltTreeSpellsTokens(tokens: seq<Token>)
    requires ReadExpr(tokens).Read? && !HasInfixNegation(ReadExpr(tokens).exprs)
    ensures var Read(exprs, rest) := ReadExpr(tokens);
      && tokens == Spelling(exprs) + rest
      && Build(exprs).Ok? && Bound(Build(exprs).value) && Yield(Build(exprs).value) == EraseAll(exprs)
      && (Yield(Build(exprs).value) == exprs <==> forall i :: 0 <= i < |exprs| ==> !IsMark(exprs[i]))
  {
    var exprs := ReadExpr(tokens).exprs;
    ReadIsSpelled(tokens);
    ParsedWellFormed(exprs);
    BuiltYield(exprs);
    MarksKeptIff(exprs);
  }

  // The whole of `parseExpr`

  predicate IsAssignment(op: Op) {
    op in {EQ, PLUSEQ, MINUSEQ, MULEQ, DIVEQ, MOD_EQ, BIT_LSHIFT_EQ, BIT_RSHIFT_EQ, BIT_OR_EQ, BIT_AND_EQ, BIT_XOR_EQ}
  }

  datatype ParseError = NotRead(expected: Expected) | NotBuilt(error: BuildError) | AssignmentNotAllowed

  /** The tree must not be an assignment unless that is allowed. */
  function CheckRoot(t: Tree, allowAssign: bool): Result<Tree, ParseError> {
    if !allowAssign && t.Binary? && IsAssignment(t.op) then Err(AssignmentNotAllowed) else Ok(t)
  }

  lemma ReadIsNonempty(tokens: seq<Token>)
    ensures ReadExpr(tokens).Read? ==> ReadExpr(tokens).exprs != []
  {
    ReadIsSpelled(tokens);
  }

  function Parse(tokens: seq<Token>, allowAssign: bool): Result<Tree, ParseError> {
    match ReadExpr(tokens)
    case Stuck(e) => Err(NotRead(e))
    case Read(exprs, _) =>
      ReadIsNonempty(tokens);
      match Build(exprs)
      case Err(e) => Err(NotBuilt(e))
      case Ok(t) => CheckRoot(t, allowAssign)
  }

  predicate HasAssignment(exprs: seq<Item>) {
    exists i :: 0 <= i < |exprs| && exprs[i].Operator? && IsAssignment(exprs[i].op)
  }

  lemma AssignmentsAreLoosest(op: Op)
    ensures Precedence(op) <= 11
    ensures IsAssignment(op) <==> Precedence(op) == 11
  {
  }

  lemma AssignmentBelow(t: Tree, i: nat)
    requires Bound(t) && i < |Yield(t)| && Yield(t)[i].Operator? && IsAssignment(Yield(t)[i].op)
    ensures t.Binary? && IsAssignment(t.op)
  {
    LevelBounds(t);
    AssignmentsAreLoosest(Yield(t)[i].op);
    assert IsBinary(Yield(t)[i]);
    assert Level(t) >= 11;
    AssignmentsAreLoosest(t.op);
  }

  /** An assignment anywhere in a well-bound tree is an assignment at its root. */
  lemma AssignmentAtRoot(t: Tree)
    requires Bound(t)
    ensures HasAssignment(Yield(t)) <==> t.Binary? && IsAssignment(t.op)
  {
    if t.Binary? {
      assert Yield(t)[|Yield(t.left)|] == Operator(t.op);
    }
    if HasAssignment(Yield(t)) {
      var i :| 0 <= i < |Yield(t)| && Yield(t)[i].Operator? && IsAssignment(Yield(t)[i].op);
      AssignmentBelow(t, i);
    }
  }

  lemma AssignmentErased(exprs: seq<Item>)
    ensures HasAssignment(EraseAll(exprs)) <==> HasAssignment(exprs)
  {
    if HasAssignment(exprs) {
      var i :| 0 <= i < |exprs| && exprs[i].Operator? && IsAssignment(exprs[i].op);
      assert EraseAll(exprs)[i] == exprs[i];
    }
  }

  /** Looking at the root is enough: an expression is rejected if and only if there is an assignment
      operator anywhere in its list. */
  lemma AssignmentRejectedIff(tokens: seq<Token>)
    requires ReadExpr(tokens).Read? && !HasInfixNegation(ReadExpr(tokens).exprs)
    ensures var exprs := ReadExpr(tokens).exprs;
      && (Parse(tokens, false) == Err(AssignmentNotAllowed) <==> HasAssignment(exprs))
      && Parse(tokens, true) == Ok(Reference(EraseAll(exprs)))
      && (!HasAssignment(exprs) ==> Parse(tokens, false) == Ok(Reference(EraseAll(exprs))))
  {
    var exprs := ReadExpr(tokens).exprs;
    ReadIsSpelled(tokens);
    ParsedWellFormed(exprs);
    BuildsTheOneBoundTree(exprs);
    AssignmentAtRoot(Reference(EraseAll(exprs)));
    AssignmentErased(exprs);
  }

  lemma {:induction false} ParsedErased(exprs: seq<Item>)
    ensures Parsed(EraseAll(exprs)) <==> Parsed(exprs)
    ensures MoreParsed(EraseAll(exprs)) <==> MoreParsed(exprs)
    decreases |exprs|
  {
    if exprs != [] {
      ParsedErased(exprs[1..]);
      assert EraseAll(exprs)[1..] == EraseAll(exprs[1..]);
    }
  }

  /** Whether it succeeds or fails, the builder does the same with and without the marks. */
  lemma BuildErased(exprs: seq<Item>)
    requires Parsed(exprs) && Atomic(exprs)
    ensures Build(EraseAll(exprs)) == Build(exprs)
  {
    ParsedErased(exprs);
    EraseAtomic(exprs);
    EraseExpression(exprs);
    EraseTwice(exprs);
    ParsedWellFormed(exprs);
    ParsedWellFormed(EraseAll(exprs));
    BuildSucceedsIff(exprs);
    BuildSucceedsIff(EraseAll(exprs));
    if Expression(exprs) {
      BuildsTheOneBoundTree(exprs);
      BuildsTheOneBoundTree(EraseAll(exprs));
    }
  }

  /** What `mut` marks does not reach the tree: a list is parsed as if it were not there. */
  lemma MarksAreDropped(exprs: seq<Item>, rest: seq<Token>, allowAssign: bool)
    requires Parsed(exprs) && Atomic(exprs) && Stops(rest)
    ensures Parse(Spelling(exprs) + rest, allowAssign) == Parse(Spelling(EraseAll(exprs)) + rest, allowAssign)
  {
    ParsedErased(exprs);
    EraseAtomic(exprs);
    SpelledIsRead(exprs, rest);
    SpelledIsRead(EraseAll(exprs), rest);
    BuildErased(exprs);
  }

  function ReferenceTo(x: nat, isMutable: bool): seq<Item> {
    [Operator(REFERENCE(isMutable)), Operand(Atom(x))]
  }

  lemma ReferenceSpelled(x: nat, isMutable: bool)
    ensures var exprs := ReferenceTo(x, isMutable);
      && Spelling(exprs) == (if isMutable then [T_BIT_AND, T_MUT] else [T_BIT_AND]) + [Value(x)]
      && Parsed(exprs) && Atomic(exprs)
  {
    var exprs := ReferenceTo(x, isMutable);
    assert exprs[1..] == [Operand(Atom(x))] && exprs[1..][1..] == [];
    assert Spelling(exprs[1..]) == [Value(x)];
  }

  /** `&mut x` gives the tree of `&x`. */
  lemma MutReferenceIsReference(x: nat, rest: seq<Token>, allowAssign: bool)
    requires Stops(rest)
    ensures Parse([T_BIT_AND, T_MUT] + [Value(x)] + rest, allowAssign)
      == Parse([T_BIT_AND] + [Value(x)] + rest, allowAssign)
  {
    ReferenceSpelled(x, true);
    ReferenceSpelled(x, false);
    assert EraseAll(ReferenceTo(x, true)) == ReferenceTo(x, false);
    MarksAreDropped(ReferenceTo(x, true), rest, allowAssign);
  }

  // The loop over the tokens

  ghost function PrependAll(exprs: seq<Item>, r: Reading): Reading {
    if r.Read? then Read(exprs + r.exprs, r.rest) else r
  }

  lemma PrependLast(exprs: seq<Item>, e: Item, r: Reading)
    ensures PrependAll(exprs + [e], r) == PrependAll(exprs, Prepend(e, r))
  {
    if r.Read? {
      assert exprs + [e] + r.exprs == exprs + ([e] + r.exprs);
    }
  }

  /** In the middle of the loop: `exprs` have been read, and an operand is expected at `index`. */
  ghost predicate CollectedAt(seal: int, all: Reading, exprs: seq<Item>, tokens: seq<Token>, index: nat)
    requires index <= |tokens|
  {
    all == PrependAll(exprs, ReadExpr(tokens[index..]))
  }

  /** `seal` only keeps the definition folded: it is looked into where `CollectedAt` is mentioned. */
  ghost predicate Collected(all: Reading, exprs: seq<Item>, tokens: seq<Token>, index: nat)
    requires index <= |tokens|
  {
    forall seal :: CollectedAt(seal, all, exprs, tokens, index)
  }

  /** The same behind an operand. */
  ghost predicate CollectedMoreAt(seal: int, all: Reading, exprs: seq<Item>, tokens: seq<Token>, index: nat)
    requires index <= |tokens|
  {
    all == PrependAll(exprs, ReadMore(tokens[index..]))
  }

  ghost predicate CollectedMore(all: Reading, exprs: seq<Item>, tokens: seq<Token>, index: nat)
    requires index <= |tokens|
  {
    forall seal :: CollectedMoreAt(seal, all, exprs, tokens, index)
  }

  lemma CollectStart(tokens: seq<Token>, index: nat)
    requires index <= |tokens|
    ensures Collected(ReadExpr(tokens[index..]), [], tokens, index)
  {
    var all := ReadExpr(tokens[index..]);
    assert all == PrependAll([], all);
  }

  lemma CollectNothing(all: Reading, exprs: seq<Item>, tokens: seq<Token>, index: nat)
    requires index <= |tokens| && Collected(all, exprs, tokens, index)
    requires index < |tokens| ==> !tokens[index].Value? && PrefixOp(tokens[index]).None?
    ensures all == Stuck(ExpressionExpectedAt(|tokens| - index))
  {
    assert CollectedAt(0, all, exprs, tokens, index);
    assert index < |tokens| ==> tokens[index..][0] == tokens[index];
  }

  /** The flag set on the node of the operator read. */
  function Marked(op: Op, isMutable: bool): Op {
    if isMutable then REFERENCE(true) else op
  }

  lemma CollectPrefix(all: Reading, exprs: seq<Item>, tokens: seq<Token>, index: nat, op: Op, isMutable: bool)
    requires index < |tokens| && PrefixOp(tokens[index]) == Some(op) && Collected(all, exprs, tokens, index)
    requires isMutable <==> tokens[index] == T_BIT_AND && index + 1 < |tokens| && tokens[index + 1] == T_MUT
    ensures Collected(all, exprs + [Operator(Marked(op, isMutable))], tokens, index + if isMutable then 2 else 1)
  {
    assert CollectedAt(0, all, exprs, tokens, index);
    var front, n := tokens[index..], if isMutable then 2 else 1;
    assert isMutable <==> IsMutReference(front);
    assert front[n..] == tokens[index + n..];
    PrependLast(exprs, Operator(Marked(op, isMutable)), ReadExpr(tokens[index + n..]));
  }

  lemma CollectOperand(all: Reading, exprs: seq<Item>, tokens: seq<Token>, index: nat)
    requires index < |tokens| && tokens[index].Value? && Collected(all, exprs, tokens, index)
    ensures CollectedMore(all, exprs + [Operand(Atom(tokens[index].id))], tokens, index + 1)
  {
    assert CollectedAt(0, all, exprs, tokens, index);
    assert tokens[index..][1..] == tokens[index + 1..];
    PrependLast(exprs, Operand(Atom(tokens[index].id)), ReadMore(tokens[index + 1..]));
  }

  lemma CollectInfix(all: Reading, exprs: seq<Item>, tokens: seq<Token>, index: nat, op: Op)
    requires index < |tokens| && InfixOp(tokens[index]) == Some(op) && CollectedMore(all, exprs, tokens, index)
    ensures Collected(all, exprs + [Operator(op)], tokens, index + 1)
  {
    assert CollectedMoreAt(0, all, exprs, tokens, index);
    assert tokens[index..][1..] == tokens[index + 1..];
    PrependLast(exprs, Operator(op), ReadExpr(tokens[index + 1..]));
  }

  lemma CollectedAll(all: Reading, exprs: seq<Item>, tokens: seq<Token>, index: nat)
    requires index <= |tokens| && CollectedMore(all, exprs, tokens, index)
    requires index < |tokens| ==> InfixOp(tokens[index]).None?
    ensures all == Read(exprs, tokens[index..])
  {
    assert CollectedMoreAt(0, all, exprs, tokens, index);
    assert Stops(tokens[index..]) && exprs + [] == exprs;
  }

  class TokenCursor {
    const tokens: seq<Token>
    var index: nat

    ghost predicate Valid()
      reads this
    {
      index <= |tokens|
    }

    constructor (tokens: seq<Token>)
      ensures Valid() && this.tokens == tokens && index == 0
    {
      this.tokens := tokens;
      index := 0;
    }

    /** The loop of `parseExpr`: collects operands and operators up to the first token that is no infix operator. */
    method ReadList() returns (r: Result<seq<Item>, Expected>)
      requires Valid()
      modifies this
      ensures Valid()
      ensures match ReadExpr(tokens[old(index)..])
              case Read(exprs, rest) => r == Ok(exprs) && rest == tokens[index..]
              case Stuck(error) => r == Err(error) && error.left == |tokens| - index
    {
      CollectStart(tokens, index);
      r := CollectAll(ReadExpr(tokens[index..]));
    }

    /** `all` is what is to be read from here. */
    method CollectAll(ghost all: Reading) returns (r: Result<seq<Item>, Expected>)
      requires Valid() && Collected(all, [], tokens, index)
      modifies this
      ensures Valid()
      ensures match all
              case Read(exprs, rest) => r == Ok(exprs) && rest == tokens[index..]
              case Stuck(error) => r == Err(error) && error.left == |tokens| - index
    {
      var exprs: seq<Item> := [];
      while true
        invariant Valid() && Collected(all, exprs, tokens, index)
        decreases |tokens| - index
      {
        var prefix := if index < |tokens| then PrefixOp(tokens[index]) else None;
        if prefix.Some? {
          var isMutable := tokens[index] == T_BIT_AND && index + 1 < |tokens| && tokens[index + 1] == T_MUT;
          CollectPrefix(all, exprs, tokens, index, prefix.value, isMutable);
          exprs := exprs + [Operator(Marked(prefix.value, isMutable))];
          index := index + if isMutable then 2 else 1;
          continue;
        }
        if index == |tokens| || !tokens[index].Value? {
          CollectNothing(all, exprs, tokens, index);
          return Err(ExpressionExpectedAt(|tokens| - index));
        }
        CollectOperand(all, exprs, tokens, index);
        exprs := exprs + [Operand(Atom(tokens[index].id))];
        index := index + 1;
        var infix := if index < |tokens| then InfixOp(tokens[index]) else None;
        if infix.None? {
          CollectedAll(all, exprs, tokens, index);
          return Ok(exprs);
        }
        CollectInfix(all, exprs, tokens, index, infix.value);
        exprs := exprs + [Operator(infix.value)];
        index := index + 1;
      }
    }

    /** `parseExpr`: the list, its tree, and the check of its root. */
    method ParseExpr(allowAssign: bool) returns (r: Result<Tree, ParseError>)
      requires Valid()
      modifies this
      ensures Valid()
      ensures r == Parse(tokens[old(index)..], allowAssign)
      ensures ReadExpr(tokens[old(index)..]).Read? ==> tokens[index..] == ReadExpr(tokens[old(index)..]).rest
    {
      var list := ReadList();
      if list.Err? {
        return Err(NotRead(list.error));
      }
      ReadIsSpelled(tokens[old(index)..]);
      var operators := new OperatorList(list.value);
      var tree := operators.BuildOperatorTree();
      if tree.Err? {
        return Err(NotBuilt(tree.error));
      }
      return CheckRoot(tree.value, allowAssign);
    }
  }
}
