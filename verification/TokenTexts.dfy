/**
 The words and the punctuation of the language written out once, and how the lexer reads each of them.
 */
module TokenTexts {
  import opened Wrappers
  import opened Tokens
  import opened Lexer

  // Keywords

  /** Every keyword with its word. */
  const WORDS: seq<(string, Keyword)> := [
    ("new", KWORD_NEW), ("throw", KWORD_THROW), ("if", KWORD_IF), ("let", KWORD_VAR), ("for", KWORD_FOR),
    ("enum", KWORD_ENUM), ("decltype", KWORD_DECLTYPE), ("func", KWORD_FUNC), ("macro", KWORD_MACRO),
    ("operator", KWORD_OPERATOR), ("else", KWORD_ELSE), ("class", KWORD_CLASS), ("as", KWORD_AS),
    ("const", KWORD_CONST), ("while", KWORD_WHILE), ("break", KWORD_BREAK), ("external", KWORD_EXTERN),
    ("super", KWORD_SUPER), ("case", KWORD_CASE), ("switch", KWORD_SWITCH), ("static", KWORD_STATIC),
    ("import", KWORD_IMPORT), ("unsafe", KWORD_UNSAFE), ("constexpr", KWORD_CONSTEXPR),
    ("namespace", KWORD_NAMESPACE), ("struct", KWORD_STRUCT), ("type", KWORD_TYPEDEF), ("mut", KWORD_MUTABLE),
    ("do", KWORD_DO), ("private", KWORD_PRIVATE), ("public", KWORD_PUBLIC), ("virtual", KWORD_VIRTUAL),
    ("override", KWORD_OVERRIDE), ("return", KWORD_RETURN), ("default", KWORD_DEFAULT),
    ("continue", KWORD_CONTINUE), ("try", KWORD_TRY), ("catch", KWORD_CATCH), ("interface", KWORD_INTER),
    ("extends", KWORD_EXTENDS), ("implements", KWORD_IMPLEMENTS)
  ]

  lemma WordAt(k: Keyword)
    ensures PlaceOf(k) < |WORDS| && WORDS[PlaceOf(k)] == (KeywordText(k), k)
  {
    if PlaceOf(k) < 14 {
      FirstWords(k);
    } else if PlaceOf(k) < 28 {
      SecondWords(k);
    } else {
      ThirdWords(k);
    }
  }

  lemma FirstWords(k: Keyword)
    requires PlaceOf(k) < 14
    ensures WORDS[PlaceOf(k)] == (KeywordText(k), k)
  {
  }

  lemma SecondWords(k: Keyword)
    requires 14 <= PlaceOf(k) < 28
    ensures WORDS[PlaceOf(k)] == (KeywordText(k), k)
  {
  }

  lemma ThirdWords(k: Keyword)
    requires 28 <= PlaceOf(k)
    ensures WORDS[PlaceOf(k)] == (KeywordText(k), k)
  {
  }

  lemma PlaceInWords(i: nat)
    requires i < |WORDS|
    ensures PlaceOf(WORDS[i].1) == i
  {
    if i < 14 {
      PlaceInFirst(i);
    } else if i < 28 {
      PlaceInSecond(i);
    } else if i < 35 {
      PlaceInThird(i);
    } else {
      PlaceInFourth(i);
    }
  }

  lemma PlaceInFirst(i: nat)
    requires i < 14
    ensures PlaceOf(WORDS[i].1) == i
  {
  }

  lemma PlaceInSecond(i: nat)
    requires 14 <= i < 28
    ensures PlaceOf(WORDS[i].1) == i
  {
  }

  lemma PlaceInThird(i: nat)
    requires 28 <= i < 35
    ensures PlaceOf(WORDS[i].1) == i
  {
  }

  lemma PlaceInFourth(i: nat)
    requires 35 <= i < |WORDS|
    ensures PlaceOf(WORDS[i].1) == i
  {
  }

  /** A word is a keyword if and only if it stands in the list with that keyword. */
  lemma KeywordIff(word: string, k: Keyword)
    ensures WordKind(word) == Kword(k) <==> (word, k) in WORDS
  {
    WordAt(k);
    if WordKind(word) == Kword(k) {
      assert WORDS[PlaceOf(k)] == (word, k);
    }
    if (word, k) in WORDS {
      var i :| 0 <= i < |WORDS| && WORDS[i] == (word, k);
      PlaceInWords(i);
      KeywordRecognised(k);
    }
  }

  // Punctuation

  /** Symbols with their texts. */
  type SymbolTexts = set<(string, Symbol)>

  const MARKS: SymbolTexts := {
    ("@", SYM_AT), (".", SYM_DOT), ("#", SYM_HASH), (",", SYM_COMMA), (":", SYM_COLLON), ("::", SYM_COLCOL),
    ("$", SYM_DOLLAR), ("?", SYM_QUESTION), (";", SYM_SEMI_COLLON), ("{", BRACKET_LCURLY), ("}", BRACKET_RCURLY),
    ("(", BRACKET_LPARENT), (")", BRACKET_RPARENT), ("[", BRACKET_LSQUARED), ("]", BRACKET_RSQUARED)
  }

  const SHORT_OPERATORS: SymbolTexts := {
    (">", OP_GT), ("<", OP_LT), ("%", OP_MOD), ("/", OP_DIV), ("*", OP_MUL), ("+", OP_PLUS), ("-", OP_MINUS),
    ("=", OP_EQ), ("!", OP_NOT), ("|", OP_BIT_OR), ("~", OP_BIT_NOT), ("&", OP_BIT_AND), ("^", OP_BIT_XOR)
  }

  const LONG_OPERATORS: SymbolTexts := {
    (">=", OP_GTEQ), ("==", OP_EQEQ), ("<=", OP_LTEQ), ("!=", OP_NOTEQ), ("=>", OP_ARROW), ("*=", OP_MULEQ),
    ("/=", OP_DIVEQ), ("+=", OP_PLUSEQ), ("%=", OP_MOD_EQ), ("-=", OP_MINUSEQ), ("||", OP_OR), ("&&", OP_AND),
    ("|=", OP_BIT_OR_EQ), ("<<", OP_BIT_LSHIFT), ("|>>", OP_BIT_RSHIFT), ("&=", OP_BIT_AND_EQ),
    ("^=", OP_BIT_XOR_EQ), ("<<=", OP_BIT_LSHIFT_EQ), (">>=", OP_BIT_RSHIFT_EQ)
  }

  lemma MarkText(text: string, s: Symbol)
    requires (text, s) in MARKS
    ensures SymbolText(s) == text
  {
  }

  lemma ShortOperatorText(text: string, s: Symbol)
    requires (text, s) in SHORT_OPERATORS
    ensures SymbolText(s) == text
  {
  }

  lemma LongOperatorText(text: string, s: Symbol)
    requires (text, s) in LONG_OPERATORS
    ensures SymbolText(s) == text
  {
  }

  lemma SymbolListed(s: Symbol)
    ensures (SymbolText(s), s) in MARKS + SHORT_OPERATORS + LONG_OPERATORS
  {
    if (SymbolText(s), s) !in MARKS {
      OperatorListed(s);
    }
  }

  lemma OperatorListed(s: Symbol)
    requires (SymbolText(s), s) !in MARKS
    ensures (SymbolText(s), s) in SHORT_OPERATORS + LONG_OPERATORS
  {
  }

  /** The text of every symbol. */
  lemma SymbolTextIff(text: string, s: Symbol)
    ensures SymbolText(s) == text <==> (text, s) in MARKS + SHORT_OPERATORS + LONG_OPERATORS
  {
    SymbolListed(s);
    if (text, s) in MARKS {
      MarkText(text, s);
    } else if (text, s) in SHORT_OPERATORS {
      ShortOperatorText(text, s);
    } else if (text, s) in LONG_OPERATORS {
      LongOperatorText(text, s);
    }
  }

  /** The text of any symbol but the dot, with a blank, a zero character or the end behind it, is one token of
      that symbol, and the lexer goes on behind it. */
  lemma SymbolLexed(code: string, st: State, words: string -> Kind, s: Symbol)
    requires var p, text := st.cur.ptr, SymbolText(s);
      && s != SYM_DOT && p + |text| <= |code| && code[p..p + |text|] == text
      && CharAt(code, p + |text|) in [' ', '\0']
    ensures st.cur.ptr < |code|
    ensures var r, c, n := Step(code, st, words), st.cur, |SymbolText(s)|;
      && r.Ok? && r.value.cur == Cursor(c.ptr + n, c.line, c.col + n, c.slip)
      && r.value.tokens == st.tokens + [Token(Sym(s), c.line, c.col, "")]
  {
    SymbolStands(code, st.cur.ptr, s);
    OneSymbol(code, st, words, s, |SymbolText(s)|);
  }

  lemma SymbolStands(code: string, p: nat, s: Symbol)
    requires s != SYM_DOT && p + |SymbolText(s)| <= |code| && code[p..p + |SymbolText(s)|] == SymbolText(s)
    requires CharAt(code, p + |SymbolText(s)|) in [' ', '\0']
    ensures p < |code|
    ensures Punctuation(code[p], CharAt(code, p + 1), CharAt(code, p + 2)) == [(s, |SymbolText(s)|)]
  {
    var text := SymbolText(s);
    assert code[p] == text[0];
    assert |text| > 1 ==> code[p + 1] == text[1];
    assert |text| > 2 ==> code[p + 2] == text[2];
    SymbolRead(s, CharAt(code, p + 1), CharAt(code, p + 2));
  }

  lemma NeitherBlankNorComment(a: char, b: char, c: char)
    requires Punctuation(a, b, c) != []
    ensures a != '\0' && a != ' ' && a != '\t' && a != '\n' && !(a == '/' && (b == '/' || b == '*'))
  {
  }

  lemma OneSymbol(code: string, st: State, words: string -> Kind, s: Symbol, n: nat)
    requires var p := st.cur.ptr;
      p < |code| && Punctuation(code[p], CharAt(code, p + 1), CharAt(code, p + 2)) == [(s, n)]
    ensures Step(code, st, words) == Ok(Consume(st, Sym(s), n, true))
  {
    var p := st.cur.ptr;
    NeitherBlankNorComment(code[p], CharAt(code, p + 1), CharAt(code, p + 2));
    SymbolDispatched(code, st, words, s, n);
  }

  lemma SymbolDispatched(code: string, st: State, words: string -> Kind, s: Symbol, n: nat)
    requires st.cur.ptr < |code|
    requires var a, b := code[st.cur.ptr], CharAt(code, st.cur.ptr + 1);
      a != '\0' && a != ' ' && a != '\t' && a != '\n' && !(a == '/' && (b == '/' || b == '*'))
    ensures Dispatch(code, st, words, [(s, n)]) == Ok(Consume(st, Sym(s), n, true))
  {
    assert [(s, n)][1..] == [];
    assert ConsumeAll(st, [(s, n)]) == ConsumeAll(Consume(st, Sym(s), n, true), [(s, n)][1..]);
  }
}
