/**
 Tokens of the lexer, how they are printed, and the two tables the lexer decides by: keywords and
 punctuation.
 */
module Tokens {

  datatype Symbol =
    | SYM_AT | SYM_DOT | SYM_HASH | SYM_COMMA | SYM_COLLON
    | SYM_COLCOL | SYM_DOLLAR | SYM_QUESTION | SYM_SEMI_COLLON | BRACKET_LCURLY
    | BRACKET_RCURLY | BRACKET_LPARENT | BRACKET_RPARENT | BRACKET_LSQUARED | BRACKET_RSQUARED
    | OP_GT | OP_LT | OP_GTEQ | OP_EQEQ | OP_LTEQ
    | OP_NOTEQ | OP_ARROW | OP_MOD | OP_DIV | OP_MUL
    | OP_PLUS | OP_MINUS | OP_MULEQ | OP_DIVEQ | OP_PLUSEQ
    | OP_MOD_EQ | OP_MINUSEQ | OP_EQ | OP_OR | OP_AND
    | OP_NOT | OP_BIT_OR | OP_BIT_NOT | OP_BIT_AND | OP_BIT_XOR
    | OP_BIT_OR_EQ | OP_BIT_LSHIFT | OP_BIT_RSHIFT | OP_BIT_AND_EQ | OP_BIT_XOR_EQ
    | OP_BIT_LSHIFT_EQ | OP_BIT_RSHIFT_EQ

  datatype Keyword =
    | KWORD_NEW | KWORD_THROW | KWORD_IF | KWORD_VAR | KWORD_FOR
    | KWORD_ENUM | KWORD_DECLTYPE | KWORD_FUNC | KWORD_MACRO | KWORD_OPERATOR
    | KWORD_ELSE | KWORD_CLASS | KWORD_AS | KWORD_CONST | KWORD_WHILE
    | KWORD_BREAK | KWORD_EXTERN | KWORD_SUPER | KWORD_CASE | KWORD_SWITCH
    | KWORD_STATIC | KWORD_IMPORT | KWORD_UNSAFE | KWORD_CONSTEXPR | KWORD_NAMESPACE
    | KWORD_STRUCT | KWORD_TYPEDEF | KWORD_MUTABLE | KWORD_DO | KWORD_PRIVATE
    | KWORD_PUBLIC | KWORD_VIRTUAL | KWORD_OVERRIDE | KWORD_RETURN | KWORD_DEFAULT
    | KWORD_CONTINUE | KWORD_TRY | KWORD_CATCH | KWORD_INTER | KWORD_EXTENDS
    | KWORD_IMPLEMENTS

  datatype Kind =
    | IDENTIFIER | VALUE_NUMBER | VALUE_FLOAT | VALUE_BOOL | VALUE_STRING | VALUE_CHAR
    | Sym(symbol: Symbol) | Kword(keyword: Keyword) | EOF

  datatype Token = Token(kind: Kind, line: int, col: int, value: string)

  // Printing

  function SymbolText(s: Symbol): (text: string)
    ensures 1 <= |text| <= 3
  {
    match s
    case SYM_AT => "@"
    case SYM_DOT => "."
    case SYM_HASH => "#"
    case SYM_COMMA => ","
    case SYM_COLLON => ":"
    case SYM_COLCOL => "::"
    case SYM_DOLLAR => "$"
    case SYM_QUESTION => "?"
    case SYM_SEMI_COLLON => ";"
    case BRACKET_LCURLY => "{"
    case BRACKET_RCURLY => "}"
    case BRACKET_LPARENT => "("
    case BRACKET_RPARENT => ")"
    case BRACKET_LSQUARED => "["
    case BRACKET_RSQUARED => "]"
    case OP_GT => ">"
    case OP_LT => "<"
    case OP_GTEQ => ">="
    case OP_EQEQ => "=="
    case OP_LTEQ => "<="
    case OP_NOTEQ => "!="
    case OP_ARROW => "=>"
    case OP_MOD => "%"
    case OP_DIV => "/"
    case OP_MUL => "*"
    case OP_PLUS => "+"
    case OP_MINUS => "-"
    case OP_MULEQ => "*="
    case OP_DIVEQ => "/="
    case OP_PLUSEQ => "+="
    case OP_MOD_EQ => "%="
    case OP_MINUSEQ => "-="
    case OP_EQ => "="
    case OP_OR => "||"
    case OP_AND => "&&"
    case OP_NOT => "!"
    case OP_BIT_OR => "|"
    case OP_BIT_NOT => "~"
    case OP_BIT_AND => "&"
    case OP_BIT_XOR => "^"
    case OP_BIT_OR_EQ => "|="
    case OP_BIT_LSHIFT => "<<"
    case OP_BIT_RSHIFT => "|>>"
    case OP_BIT_AND_EQ => "&="
    case OP_BIT_XOR_EQ => "^="
    case OP_BIT_LSHIFT_EQ => "<<="
    case OP_BIT_RSHIFT_EQ => ">>="
  }

  function KeywordText(k: Keyword): (text: string)
    ensures |text| >= 2
  {
    match k
    case KWORD_NEW => "new"
    case KWORD_THROW => "throw"
    case KWORD_IF => "if"
    case KWORD_VAR => "let"
    case KWORD_FOR => "for"
    case KWORD_ENUM => "enum"
    case KWORD_DECLTYPE => "decltype"
    case KWORD_FUNC => "func"
    case KWORD_MACRO => "macro"
    case KWORD_OPERATOR => "operator"
    case KWORD_ELSE => "else"
    case KWORD_CLASS => "class"
    case KWORD_AS => "as"
    case KWORD_CONST => "const"
    case KWORD_WHILE => "while"
    case KWORD_BREAK => "break"
    case KWORD_EXTERN => "external"
    case KWORD_SUPER => "super"
    case KWORD_CASE => "case"
    case KWORD_SWITCH => "switch"
    case KWORD_STATIC => "static"
    case KWORD_IMPORT => "import"
    case KWORD_UNSAFE => "unsafe"
    case KWORD_CONSTEXPR => "constexpr"
    case KWORD_NAMESPACE => "namespace"
    case KWORD_STRUCT => "struct"
    case KWORD_TYPEDEF => "type"
    case KWORD_MUTABLE => "mut"
    case KWORD_DO => "do"
    case KWORD_PRIVATE => "private"
    case KWORD_PUBLIC => "public"
    case KWORD_VIRTUAL => "virtual"
    case KWORD_OVERRIDE => "override"
    case KWORD_RETURN => "return"
    case KWORD_DEFAULT => "default"
    case KWORD_CONTINUE => "continue"
    case KWORD_TRY => "try"
    case KWORD_CATCH => "catch"
    case KWORD_INTER => "interface"
    case KWORD_EXTENDS => "extends"
    case KWORD_IMPLEMENTS => "implements"
  }

  /** `Token::to_string` */
  function Text(t: Token): string {
    match t.kind
    case Sym(s) => SymbolText(s)
    case Kword(k) => KeywordText(k)
    case VALUE_STRING => "\"" + t.value + "\""
    case VALUE_CHAR => "'" + t.value + "'"
    case EOF => "<EOF>"
    case _ => t.value
  }

  // Keywords

  /** The keywords in the order in which the lexer compares an identifier with them. */
  const KEYWORDS: seq<Keyword> := [
    KWORD_NEW, KWORD_THROW, KWORD_IF, KWORD_VAR, KWORD_FOR, KWORD_ENUM,
    KWORD_DECLTYPE, KWORD_FUNC, KWORD_MACRO, KWORD_OPERATOR, KWORD_ELSE, KWORD_CLASS,
    KWORD_AS, KWORD_CONST, KWORD_WHILE, KWORD_BREAK, KWORD_EXTERN, KWORD_SUPER,
    KWORD_CASE, KWORD_SWITCH, KWORD_STATIC, KWORD_IMPORT, KWORD_UNSAFE, KWORD_CONSTEXPR,
    KWORD_NAMESPACE, KWORD_STRUCT, KWORD_TYPEDEF, KWORD_MUTABLE, KWORD_DO, KWORD_PRIVATE,
    KWORD_PUBLIC, KWORD_VIRTUAL, KWORD_OVERRIDE, KWORD_RETURN, KWORD_DEFAULT, KWORD_CONTINUE,
    KWORD_TRY, KWORD_CATCH, KWORD_INTER, KWORD_EXTENDS, KWORD_IMPLEMENTS
  ]

  /** First of the keywords from the `i`-th on that is spelled like the word, their number if there is none. */
  function SpelledAt(word: string, keywords: seq<Keyword>, spelling: Keyword -> string, i: nat): (k: nat)
    requires i <= |keywords|
    ensures i <= k <= |keywords|
    ensures k < |keywords| ==> spelling(keywords[k]) == word
    ensures forall j :: i <= j < k ==> spelling(keywords[j]) != word
    decreases |keywords| - i
  {
    if i == |keywords| || spelling(keywords[i]) == word then i else SpelledAt(word, keywords, spelling, i + 1)
  }

  /** The kind of the `k`-th comparison, `true` and `false` coming behind the keywords. */
  function KindAt(word: string, k: nat): Kind {
    if k < |KEYWORDS| then Kword(KEYWORDS[k])
    else if word == "true" || word == "false" then VALUE_BOOL
    else IDENTIFIER
  }

  /** The chain of comparisons. */
  function WordKind(word: string): Kind {
    KindAt(word, SpelledAt(word, KEYWORDS, KeywordText, 0))
  }

  /** Place of a keyword in the chain. */
  function PlaceOf(k: Keyword): (i: nat)
    ensures i < |KEYWORDS|
  {
    match k
    case KWORD_NEW => 0
    case KWORD_THROW => 1
    case KWORD_IF => 2
    case KWORD_VAR => 3
    case KWORD_FOR => 4
    case KWORD_ENUM => 5
    case KWORD_DECLTYPE => 6
    case KWORD_FUNC => 7
    case KWORD_MACRO => 8
    case KWORD_OPERATOR => 9
    case KWORD_ELSE => 10
    case KWORD_CLASS => 11
    case KWORD_AS => 12
    case KWORD_CONST => 13
    case KWORD_WHILE => 14
    case KWORD_BREAK => 15
    case KWORD_EXTERN => 16
    case KWORD_SUPER => 17
    case KWORD_CASE => 18
    case KWORD_SWITCH => 19
    case KWORD_STATIC => 20
    case KWORD_IMPORT => 21
    case KWORD_UNSAFE => 22
    case KWORD_CONSTEXPR => 23
    case KWORD_NAMESPACE => 24
    case KWORD_STRUCT => 25
    case KWORD_TYPEDEF => 26
    case KWORD_MUTABLE => 27
    case KWORD_DO => 28
    case KWORD_PRIVATE => 29
    case KWORD_PUBLIC => 30
    case KWORD_VIRTUAL => 31
    case KWORD_OVERRIDE => 32
    case KWORD_RETURN => 33
    case KWORD_DEFAULT => 34
    case KWORD_CONTINUE => 35
    case KWORD_TRY => 36
    case KWORD_CATCH => 37
    case KWORD_INTER => 38
    case KWORD_EXTENDS => 39
    case KWORD_IMPLEMENTS => 40
  }

  lemma KeywordInPlace(k: Keyword)
    ensures KEYWORDS[PlaceOf(k)] == k
  {
    if PlaceOf(k) < 14 {
      FirstInPlace(k);
    } else if PlaceOf(k) < 28 {
      SecondInPlace(k);
    } else {
      ThirdInPlace(k);
    }
  }

  lemma FirstInPlace(k: Keyword)
    requires PlaceOf(k) < 14
    ensures KEYWORDS[PlaceOf(k)] == k
  {
  }

  lemma SecondInPlace(k: Keyword)
    requires 14 <= PlaceOf(k) < 28
    ensures KEYWORDS[PlaceOf(k)] == k
  {
  }

  lemma ThirdInPlace(k: Keyword)
    requires 28 <= PlaceOf(k)
    ensures KEYWORDS[PlaceOf(k)] == k
  {
  }

  /** The one keyword a word can be, from its length and two of its letters. */
  function Guess(s: string): Keyword
    requires |s| >= 2
  {
    var a, b, n := s[0], s[1], |s|;
    if a == 'a' then KWORD_AS
    else if a == 'b' then KWORD_BREAK
    else if a == 'c' then
      if b == 'l' then KWORD_CLASS
      else if b == 'a' then if n == 4 then KWORD_CASE else KWORD_CATCH
      else if n == 5 then KWORD_CONST
      else if n == 9 then KWORD_CONSTEXPR
      else KWORD_CONTINUE
    else if a == 'd' then if n == 2 then KWORD_DO else if n == 8 then KWORD_DECLTYPE else KWORD_DEFAULT
    else if a == 'e' then
      if b == 'n' then KWORD_ENUM else if b == 'l' then KWORD_ELSE else if n == 8 then KWORD_EXTERN else KWORD_EXTENDS
    else if a == 'f' then if b == 'o' then KWORD_FOR else KWORD_FUNC
    else if a == 'i' then
      if n == 2 then KWORD_IF else if n == 6 then KWORD_IMPORT else if n == 9 then KWORD_INTER else KWORD_IMPLEMENTS
    else if a == 'l' then KWORD_VAR
    else if a == 'm' then if b == 'a' then KWORD_MACRO else KWORD_MUTABLE
    else if a == 'n' then if b == 'e' then KWORD_NEW else KWORD_NAMESPACE
    else if a == 'o' then if b == 'p' then KWORD_OPERATOR else KWORD_OVERRIDE
    else if a == 'p' then if b == 'r' then KWORD_PRIVATE else KWORD_PUBLIC
    else if a == 'r' then KWORD_RETURN
    else if a == 's' then
      if b == 'u' then KWORD_SUPER else if b == 'w' then KWORD_SWITCH
      else if n > 2 && s[2] == 'a' then KWORD_STATIC else KWORD_STRUCT
    else if a == 't' then if b == 'h' then KWORD_THROW else if b == 'y' then KWORD_TYPEDEF else KWORD_TRY
    else if a == 'u' then KWORD_UNSAFE
    else if a == 'v' then KWORD_VIRTUAL
    else KWORD_WHILE
  }

  lemma GuessIsRight(k: Keyword)
    ensures Guess(KeywordText(k)) == k
  {
    if PlaceOf(k) < 14 {
      FirstGuessed(k);
    } else if PlaceOf(k) < 28 {
      SecondGuessed(k);
    } else {
      ThirdGuessed(k);
    }
  }

  lemma FirstGuessed(k: Keyword)
    requires PlaceOf(k) < 14
    ensures Guess(KeywordText(k)) == k
  {
  }

  lemma SecondGuessed(k: Keyword)
    requires 14 <= PlaceOf(k) < 28
    ensures Guess(KeywordText(k)) == k
  {
  }

  lemma ThirdGuessed(k: Keyword)
    requires 28 <= PlaceOf(k)
    ensures Guess(KeywordText(k)) == k
  {
  }

  /** No two keywords are spelled alike. */
  lemma KeywordsDiffer(k: Keyword, l: Keyword)
    requires KeywordText(k) == KeywordText(l)
    ensures k == l
  {
    GuessIsRight(k);
    GuessIsRight(l);
  }

  /** The spelling of a keyword is recognised as that keyword. */
  lemma KeywordRecognised(k: Keyword)
    ensures WordKind(KeywordText(k)) == Kword(k)
  {
    KeywordInPlace(k);
    var i := SpelledAt(KeywordText(k), KEYWORDS, KeywordText, 0);
    KeywordsDiffer(k, KEYWORDS[i]);
  }

  /** Words are identifiers exactly when no keyword and neither `true` nor `false` is spelled like them. */
  lemma IdentifierIff(word: string)
    ensures WordKind(word) == IDENTIFIER <==> word != "true" && word != "false" && forall k :: word != KeywordText(k)
  {
    if SpelledAt(word, KEYWORDS, KeywordText, 0) == |KEYWORDS| {
      forall k
        ensures word != KeywordText(k)
      {
        KeywordInPlace(k);
      }
    }
  }

  // Punctuation

  /** The punctuation tokens read where the next three characters are these, with their widths; `>>` is
      two tokens, slashes that open a comment and the backslash are none, the dot is decided elsewhere. */
  function Punctuation(a: char, b: char, c: char): seq<(Symbol, nat)> {
    if a == ',' then [(SYM_COMMA, 1)]
    else if a == ';' then [(SYM_SEMI_COLLON, 1)]
    else if a == '#' then [(SYM_HASH, 1)]
    else if a == '$' then [(SYM_DOLLAR, 1)]
    else if a == '?' then [(SYM_QUESTION, 1)]
    else if a == '@' then [(SYM_AT, 1)]
    else if a == '(' then [(BRACKET_LPARENT, 1)]
    else if a == ')' then [(BRACKET_RPARENT, 1)]
    else if a == '{' then [(BRACKET_LCURLY, 1)]
    else if a == '}' then [(BRACKET_RCURLY, 1)]
    else if a == '[' then [(BRACKET_LSQUARED, 1)]
    else if a == ']' then [(BRACKET_RSQUARED, 1)]
    else if a == ':' then if b == ':' then [(SYM_COLCOL, 2)] else [(SYM_COLLON, 1)]
    else Operator(a, b, c)
  }

  function Operator(a: char, b: char, c: char): seq<(Symbol, nat)> {
    if a == '/' then if b == '=' then [(OP_DIVEQ, 2)] else if b == '/' || b == '*' then [] else [(OP_DIV, 1)]
    else if a == '=' then if b == '=' then [(OP_EQEQ, 2)] else if b == '>' then [(OP_ARROW, 2)] else [(OP_EQ, 1)]
    else if a == '+' then if b == '=' then [(OP_PLUSEQ, 2)] else [(OP_PLUS, 1)]
    else if a == '-' then if b == '=' then [(OP_MINUSEQ, 2)] else [(OP_MINUS, 1)]
    else if a == '*' then if b == '=' then [(OP_MULEQ, 2)] else [(OP_MUL, 1)]
    else if a == '%' then if b == '=' then [(OP_MOD_EQ, 2)] else [(OP_MOD, 1)]
    else if a == '!' then if b == '=' then [(OP_NOTEQ, 2)] else [(OP_NOT, 1)]
    else if a == '~' then [(OP_BIT_NOT, 1)]
    else if a == '^' then if b == '=' then [(OP_BIT_XOR_EQ, 2)] else [(OP_BIT_XOR, 1)]
    else if a == '&' then
      if b == '=' then [(OP_BIT_AND_EQ, 2)] else if b == '&' then [(OP_AND, 2)] else [(OP_BIT_AND, 1)]
    else if a == '|' then
      if b == '=' then [(OP_BIT_OR_EQ, 2)]
      else if b == '|' then [(OP_OR, 2)]
      else if b == '>' && c == '>' then [(OP_BIT_RSHIFT, 3)]
      else [(OP_BIT_OR, 1)]
    else if a == '<' then
      if b == '=' then [(OP_LTEQ, 2)]
      else if b == '<' then if c == '=' then [(OP_BIT_LSHIFT_EQ, 3)] else [(OP_BIT_LSHIFT, 2)]
      else [(OP_LT, 1)]
    else if a == '>' then
      if b == '=' then [(OP_GTEQ, 2)]
      else if b == '>' then if c == '=' then [(OP_BIT_RSHIFT_EQ, 3)] else [(OP_GT, 1), (OP_GT, 1)]
      else [(OP_GT, 1)]
    else []
  }

  lemma OneCharRead(s: Symbol, b: char, c: char)
    requires s != SYM_DOT && |SymbolText(s)| == 1 && (b == ' ' || b == '\0')
    ensures Punctuation(SymbolText(s)[0], b, c) == [(s, 1)]
  {
  }

  lemma TwoCharsRead(s: Symbol, c: char)
    requires |SymbolText(s)| == 2 && (c == ' ' || c == '\0')
    ensures Punctuation(SymbolText(s)[0], SymbolText(s)[1], c) == [(s, 2)]
  {
  }

  lemma ThreeCharsRead(s: Symbol)
    requires |SymbolText(s)| > 2
    ensures |SymbolText(s)| == 3
    ensures Punctuation(SymbolText(s)[0], SymbolText(s)[1], SymbolText(s)[2]) == [(s, 3)]
  {
  }

  /** A symbol printed and followed by a blank or the end is read as itself, the dot excepted. */
  lemma SymbolRead(s: Symbol, b: char, c: char)
    requires s != SYM_DOT
    requires |SymbolText(s)| < 2 ==> b == ' ' || b == '\0'
    requires |SymbolText(s)| >= 2 ==> b == SymbolText(s)[1]
    requires |SymbolText(s)| < 3 ==> |SymbolText(s)| == 1 || c == ' ' || c == '\0'
    requires |SymbolText(s)| >= 3 ==> c == SymbolText(s)[2]
    ensures Punctuation(SymbolText(s)[0], b, c) == [(s, |SymbolText(s)|)]
  {
    var text := SymbolText(s);
    if |text| == 1 {
      OneCharRead(s, b, c);
    } else if |text| == 2 {
      TwoCharsRead(s, c);
    } else {
      ThreeCharsRead(s);
    }
  }

  /** Punctuation covers as many characters as its spelling has. */
  lemma WidthIsSpelling(a: char, b: char, c: char, k: nat)
    requires k < |Punctuation(a, b, c)|
    ensures Punctuation(a, b, c)[k].1 == |SymbolText(Punctuation(a, b, c)[k].0)|
  {
    if Punctuation(a, b, c) == Operator(a, b, c) {
      OperatorWidth(a, b, c, k);
    }
  }

  lemma OperatorWidth(a: char, b: char, c: char, k: nat)
    requires k < |Operator(a, b, c)|
    ensures Operator(a, b, c)[k].1 == |SymbolText(Operator(a, b, c)[k].0)|
  {
    if a == '&' || a == '|' || a == '<' || a == '>' {
      LongOperatorWidth(a, b, c, k);
    } else {
      ShortOperatorWidth(a, b, c, k);
    }
  }

  lemma LongOperatorWidth(a: char, b: char, c: char, k: nat)
    requires (a == '&' || a == '|' || a == '<' || a == '>') && k < |Operator(a, b, c)|
    ensures Operator(a, b, c)[k].1 == |SymbolText(Operator(a, b, c)[k].0)|
  {
  }

  lemma ShortOperatorWidth(a: char, b: char, c: char, k: nat)
    requires a != '&' && a != '|' && a != '<' && a != '>' && k < |Operator(a, b, c)|
    ensures Operator(a, b, c)[k].1 == |SymbolText(Operator(a, b, c)[k].0)|
  {
  }
}
