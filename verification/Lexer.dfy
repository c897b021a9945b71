/**
 `Lexer::tokenize`: one token, blank or comment after the other, with line and column kept by the
 EAT macros.
 */
module Lexer {
  import opened Wrappers
  import opened Tokens

  datatype LexError = SyntaxError | UnexpectedEof

  /** Where the lexer stands. `slip` counts how often `char_ptr` was set back, without `cur_col`, since
      the last newline. */
  datatype Cursor = Cursor(ptr: nat, line: nat, col: int, slip: nat)

  /** Where a token was recorded, with the slip then; dots recorded before setting back are not `direct`. */
  datatype Mark = Mark(start: nat, slip: nat, direct: bool)

  datatype State = State(cur: Cursor, tokens: seq<Token>, marks: seq<Mark>)

  type Outcome = Result<State, LexError>

  // Characters

  /** `GET_CHAR` at an absolute position. */
  function CharAt(code: string, p: nat): char {
    if p < |code| then code[p] else '\0'
  }

  predicate IsNum(c: char) {
    '0' <= c <= '9'
  }

  predicate IsHex(c: char) {
    IsNum(c) || 'a' <= c <= 'f' || 'A' <= c <= 'F'
  }

  predicate IsText(c: char) {
    c == '_' || 'a' <= c <= 'z' || 'A' <= c <= 'Z'
  }

  predicate IsWord(c: char) {
    IsText(c) || IsNum(c)
  }

  predicate IsBinary(c: char) {
    c == '0' || c == '1'
  }

  predicate IsOctal(c: char) {
    '0' <= c <= '7'
  }

  predicate InLine(c: char) {
    c != '\n' && c != '\0'
  }

  /** First position at or behind `p` where the run ends. */
  function RunEnd(code: string, p: nat, run: char -> bool): (q: nat)
    ensures p <= q && (p <= |code| ==> q <= |code|)
    ensures forall i :: p <= i < q ==> i < |code| && run(code[i])
    ensures q < |code| ==> !run(code[q])
    decreases |code| - p
  {
    if p < |code| && run(code[p]) then RunEnd(code, p + 1, run) else p
  }

  // Moving

  /** `EAT_CHAR` */
  function Eat(c: Cursor, n: nat): Cursor {
    c.(ptr := c.ptr + n, col := c.col + n)
  }

  /** `EAT_LINE` */
  function EatLine(c: Cursor): Cursor {
    Cursor(c.ptr + 1, c.line + 1, 1, 0)
  }

  /** `this->char_ptr -= 1` */
  function SetBack(c: Cursor): Cursor
    requires c.ptr > 0
  {
    c.(ptr := c.ptr - 1, slip := c.slip + 1)
  }

  /** `consume` */
  function Consume(s: State, kind: Kind, n: nat, direct: bool): State {
    State(Eat(s.cur, n), s.tokens + [Token(kind, s.cur.line, s.cur.col, "")],
          s.marks + [Mark(s.cur.ptr, s.cur.slip, direct)])
  }

  function ConsumeAll(s: State, symbols: seq<(Symbol, nat)>): State
    decreases |symbols|
  {
    if symbols == [] then s else ConsumeAll(Consume(s, Sym(symbols[0].0), symbols[0].1, true), symbols[1..])
  }

  function Record(s: State, cur: Cursor, token: Token): State {
    State(cur, s.tokens + [token], s.marks + [Mark(s.cur.ptr, s.cur.slip, true)])
  }

  // Comments

  function LineComment(code: string, s: State): State {
    var q := RunEnd(code, s.cur.ptr, InLine);
    var s' := s.(cur := Eat(s.cur, q - s.cur.ptr));
    if CharAt(code, q) == '\n' then s'.(cur := EatLine(s'.cur)) else Consume(s', EOF, 1, true)
  }

  /** Behind the end of a block comment. */
  function BlockComment(code: string, c: Cursor): Result<Cursor, LexError>
    decreases |code| - c.ptr
  {
    if CharAt(code, c.ptr) == '*' && CharAt(code, c.ptr + 1) == '/' then Ok(Eat(c, 2))
    else if CharAt(code, c.ptr) == '\0' then Err(UnexpectedEof)
    else if code[c.ptr] == '\n' then BlockComment(code, EatLine(c))
    else BlockComment(code, Eat(c, 1))
  }

  // Quoted text

  /** Escapes of one letter; the two forms differ in `\0` and `\e`. */
  function SimpleEscape(e: char, isChar: bool): Option<char> {
    match e
    case '\\' => Some('\\')
    case '\'' => Some('\'')
    case 't' => Some('\t')
    case 'n' => Some('\n')
    case 'r' => Some('\r')
    case '"' => Some('"')
    case '0' => if isChar then Some('\0') else None
    case 'e' => if isChar then None else Some(27 as char)
    case _ => None
  }

  function HexDigit(c: char): nat
    requires IsHex(c)
  {
    if IsNum(c) then c as int - '0' as int
    else if 'a' <= c <= 'f' then c as int - 'a' as int + 10
    else c as int - 'A' as int + 10
  }

  /** Low eight bits of a hexadecimal number. */
  function HexByte(hex: string): (n: nat)
    requires forall i :: 0 <= i < |hex| ==> IsHex(hex[i])
    ensures n < 256
  {
    if hex == [] then 0
    else
      assert IsHex(hex[|hex| - 1]);
      (16 * HexByte(hex[..|hex| - 1]) + HexDigit(hex[|hex| - 1])) % 256
  }

  function HexRun(code: string, p: nat): (hex: string)
    ensures forall i :: 0 <= i < |hex| ==> IsHex(hex[i])
    ensures p + |hex| <= |code| || hex == ""
  {
    var q := RunEnd(code, p, IsHex);
    if q <= |code| then code[p..q] else ""
  }

  /** The text up to the closing quote, where the cursor is left. */
  function Quoted(code: string, c: Cursor, text: string, isChar: bool): Result<(Cursor, string), LexError>
    decreases |code| - c.ptr
  {
    var a, e := CharAt(code, c.ptr), CharAt(code, c.ptr + 1);
    if a == (if isChar then '\'' else '"') then Ok((c, text))
    else if a == '\\' then
      if e == '\0' then Err(UnexpectedEof)
      else if SimpleEscape(e, isChar).Some? then Quoted(code, Eat(c, 2), text + [SimpleEscape(e, isChar).value], isChar)
      else if e == '\n' then Quoted(code, EatLine(Eat(c, 1)), text, isChar)
      else if e == 'x' then
        var hex := HexRun(code, c.ptr + 2);
        if hex == "" then Err(SyntaxError)
        else Quoted(code, Eat(c, 2 + |hex|), text + [HexByte(hex) as char], isChar)
      else Err(SyntaxError)
    else if a == '\0' then Err(UnexpectedEof)
    else if a == '\n' then if isChar then Err(SyntaxError) else Quoted(code, EatLine(c), text + [a], isChar)
    else Quoted(code, Eat(c, 1), text + [a], isChar)
  }

  /** What a hexadecimal escape does to the text. */
  lemma QuotedHex(code: string, c: Cursor, text: string, isChar: bool, hex: string)
    requires CharAt(code, c.ptr) == '\\' && CharAt(code, c.ptr + 1) == 'x' && hex == HexRun(code, c.ptr + 2)
    ensures Quoted(code, c, text, isChar) ==
      if hex == "" then Err(SyntaxError) else Quoted(code, Eat(c, 2 + |hex|), text + [HexByte(hex) as char], isChar)
  {
  }

  function CharLiteral(code: string, s: State): Outcome {
    match Quoted(code, Eat(s.cur, 1), "", true)
    case Err(e) => Err(e)
    case Ok((c, text)) =>
      var after := Eat(c, 1);
      if |text| != 1 then Err(SyntaxError) else Ok(Record(s, after, Token(VALUE_CHAR, after.line, after.col - 3, text)))
  }

  function StringLiteral(code: string, s: State): Outcome {
    match Quoted(code, Eat(s.cur, 1), "", false)
    case Err(e) => Err(e)
    case Ok((c, text)) => Ok(Record(s, Eat(c, 1), Token(VALUE_STRING, s.cur.line, s.cur.col, text)))
  }

  // Numbers

  /** A number that begins with its dot; the `double` is assigned to a string as a character, 0. */
  function FloatLiteral(code: string, s: State): State {
    var q := RunEnd(code, s.cur.ptr + 1, IsNum);
    Record(s, Eat(s.cur, q - s.cur.ptr), Token(VALUE_FLOAT, s.cur.line, s.cur.col, ['\0']))
  }

  /** Digits and dots of a decimal number: end, text, whether it has a dot, whether a second dot ended it. */
  datatype Scan = Scan(end: nat, num: string, isFloat: bool, isRange: bool)

  function ScanDecimal(code: string, p: nat, num: string, isFloat: bool): (r: Scan)
    requires num != []
    ensures p <= r.end && (p <= |code| ==> r.end <= |code|)
    decreases |code| - p
  {
    if IsNum(CharAt(code, p)) then ScanDecimal(code, p + 1, num + [code[p]], isFloat)
    else if CharAt(code, p) != '.' then Scan(p, num, isFloat, false)
    else if isFloat then Scan(p, num[..|num| - 1], false, true)
    else ScanDecimal(code, p + 1, num + ['.'], true)
  }

  /** Run of a number with a base prefix. */
  function Prefixed(code: string, p: nat, digits: char -> bool): Scan
    requires p + 1 < |code|
  {
    var q := RunEnd(code, p + 2, digits);
    Scan(q, code[p..q], false, false)
  }

  function ScanNumber(code: string, p: nat): Scan
    requires p < |code|
  {
    var b := CharAt(code, p + 1);
    if code[p] == '0' && (b == 'b' || b == 'B') then Prefixed(code, p, IsBinary)
    else if code[p] == '0' && (b == 'x' || b == 'X') then Prefixed(code, p, IsHex)
    else if code[p] == '0' && (b == 'o' || b == 'O') then Prefixed(code, p, IsOctal)
    else ScanDecimal(code, p + 1, [code[p]], false)
  }

  function Signedness(c: char): string {
    if c == 'u' || c == 'U' then "u" else if c == 'i' || c == 'I' then "i" else ""
  }

  function Long(c: char): string {
    if c == 'l' || c == 'L' then "l" else ""
  }

  predicate EndsInDot(num: string) {
    num != [] && num[|num| - 1] == '.'
  }

  /** The suffix letters go in front of the digits. */
  function NumberToken(code: string, s: State, scan: Scan): State
    requires scan.end >= s.cur.ptr
  {
    var num := if EndsInDot(scan.num) then scan.num[..|scan.num| - 1] else scan.num;
    var c := Eat(s.cur, scan.end - s.cur.ptr);
    var sign := Signedness(CharAt(code, c.ptr));
    var long := Long(CharAt(code, c.ptr + |sign|));
    Record(s, Eat(c, |sign| + |long|),
           Token(if scan.isFloat && !EndsInDot(scan.num) then VALUE_FLOAT else VALUE_NUMBER, c.line, c.col - |num|,
                 sign + long + num))
  }

  /** Two dots for a range, of which the lexer has passed one; one dot for a number that ends in it. */
  function Dots(s: State, isRange: bool, appendDot: bool): State {
    var s' := if isRange then
        var t := Consume(Consume(s, Sym(SYM_DOT), 1, false), Sym(SYM_DOT), 1, false);
        t.(cur := SetBack(t.cur))
      else s;
    if appendDot then
      var t := Consume(s', Sym(SYM_DOT), 1, false);
      t.(cur := SetBack(t.cur))
    else s'
  }

  function NumberLiteral(code: string, s: State): State
    requires s.cur.ptr < |code|
  {
    var scan := ScanNumber(code, s.cur.ptr);
    Dots(NumberToken(code, s, scan), scan.isRange, EndsInDot(scan.num))
  }

  // Words

  /** `words` is the chain of comparisons with the keywords. */
  function WordLiteral(code: string, s: State, words: string -> Kind): State
    requires s.cur.ptr < |code|
  {
    var q := RunEnd(code, s.cur.ptr, IsWord);
    var word := code[s.cur.ptr..q];
    Record(s, Eat(s.cur, q - s.cur.ptr), Token(words(word), s.cur.line, s.cur.col, word))
  }

  // The loop

  /** What is done at one character; `symbols` is the punctuation that stands here. */
  function Dispatch(code: string, s: State, words: string -> Kind, symbols: seq<(Symbol, nat)>): Outcome
    requires s.cur.ptr < |code|
  {
    var p := s.cur.ptr;
    var a, b := code[p], CharAt(code, p + 1);
    if a == '\0' then Ok(Consume(s, EOF, 1, true))
    else if a == ' ' || a == '\t' then Ok(s.(cur := Eat(s.cur, 1)))
    else if a == '\n' then Ok(s.(cur := EatLine(s.cur)))
    else if a == '/' && b == '/' then Ok(LineComment(code, s))
    else if a == '/' && b == '*' then
      match BlockComment(code, Eat(s.cur, 2))
      case Err(e) => Err(e)
      case Ok(cur) => Ok(s.(cur := cur))
    else if symbols != [] then Ok(ConsumeAll(s, symbols))
    else if a == '\'' then CharLiteral(code, s)
    else if a == '"' then StringLiteral(code, s)
    else if a == '.' && IsNum(b) then Ok(FloatLiteral(code, s))
    else if IsNum(a) then Ok(NumberLiteral(code, s))
    else if IsText(a) then Ok(WordLiteral(code, s, words))
    else if a == '.' then Ok(Consume(s, Sym(SYM_DOT), 1, true))
    else Err(SyntaxError)
  }

  function Step(code: string, s: State, words: string -> Kind): Outcome
    requires s.cur.ptr < |code|
  {
    var p := s.cur.ptr;
    Dispatch(code, s, words, Punctuation(code[p], CharAt(code, p + 1), CharAt(code, p + 2)))
  }

  const START := State(Cursor(0, 1, 1, 0), [], [])

  lemma {:induction false} ConsumeAllAdvances(s: State, symbols: seq<(Symbol, nat)>)
    requires forall i :: 0 <= i < |symbols| ==> symbols[i].1 > 0
    ensures ConsumeAll(s, symbols).cur.ptr >= s.cur.ptr + |symbols|
    decreases |symbols|
  {
    if symbols != [] {
      ConsumeAllAdvances(Consume(s, Sym(symbols[0].0), symbols[0].1, true), symbols[1..]);
    }
  }

  lemma {:induction false} BlockCommentAdvances(code: string, c: Cursor)
    ensures var r := BlockComment(code, c); r.Ok? ==> r.value.ptr > c.ptr
    decreases |code| - c.ptr
  {
    if CharAt(code, c.ptr) == '*' && CharAt(code, c.ptr + 1) == '/' {
    } else if CharAt(code, c.ptr) != '\0' {
      BlockCommentAdvances(code, EatLine(c));
      BlockCommentAdvances(code, Eat(c, 1));
    }
  }

  lemma {:induction false} QuotedAdvances(code: string, c: Cursor, text: string, isChar: bool)
    ensures var r := Quoted(code, c, text, isChar); r.Ok? ==> r.value.0.ptr >= c.ptr
    decreases |code| - c.ptr
  {
    var a, e := CharAt(code, c.ptr), CharAt(code, c.ptr + 1);
    if a == '\\' {
      if SimpleEscape(e, isChar).Some? {
        QuotedAdvances(code, Eat(c, 2), text + [SimpleEscape(e, isChar).value], isChar);
      } else if e == '\n' {
        QuotedAdvances(code, EatLine(Eat(c, 1)), text, isChar);
      } else if e == 'x' {
        var hex := HexRun(code, c.ptr + 2);
        if hex != "" {
          QuotedAdvances(code, Eat(c, 2 + |hex|), text + [HexByte(hex) as char], isChar);
        }
      }
    } else if a != '\0' {
      QuotedAdvances(code, EatLine(c), text + [a], isChar);
      QuotedAdvances(code, Eat(c, 1), text + [a], isChar);
    }
  }

  lemma PunctuationAdvances(s: State, a: char, b: char, c: char)
    ensures Punctuation(a, b, c) != [] ==> ConsumeAll(s, Punctuation(a, b, c)).cur.ptr > s.cur.ptr
  {
    forall i | 0 <= i < |Punctuation(a, b, c)|
      ensures Punctuation(a, b, c)[i].1 > 0
    {
      WidthIsSpelling(a, b, c, i);
    }
    ConsumeAllAdvances(s, Punctuation(a, b, c));
  }

  lemma LiteralAdvances(code: string, s: State)
    ensures CharLiteral(code, s).Ok? ==> CharLiteral(code, s).value.cur.ptr > s.cur.ptr
    ensures StringLiteral(code, s).Ok? ==> StringLiteral(code, s).value.cur.ptr > s.cur.ptr
  {
    QuotedAdvances(code, Eat(s.cur, 1), "", true);
    QuotedAdvances(code, Eat(s.cur, 1), "", false);
  }

  lemma NumberAdvances(code: string, s: State)
    requires s.cur.ptr < |code|
    ensures NumberLiteral(code, s).cur.ptr > s.cur.ptr
  {
  }

  lemma WordAdvances(code: string, s: State, words: string -> Kind)
    requires s.cur.ptr < |code| && IsText(code[s.cur.ptr])
    ensures WordLiteral(code, s, words).cur.ptr > s.cur.ptr
  {
  }

  lemma DispatchAdvances(code: string, s: State, words: string -> Kind, symbols: seq<(Symbol, nat)>)
    requires s.cur.ptr < |code| && (symbols != [] ==> ConsumeAll(s, symbols).cur.ptr > s.cur.ptr)
    ensures var r := Dispatch(code, s, words, symbols); r.Ok? ==> r.value.cur.ptr > s.cur.ptr
  {
    BlockCommentAdvances(code, Eat(s.cur, 2));
    LiteralAdvances(code, s);
    NumberAdvances(code, s);
    if IsText(code[s.cur.ptr]) {
      WordAdvances(code, s, words);
    }
  }

  /** Every round of the loop gets further, in spite of the setting back. */
  lemma StepAdvances(code: string, s: State, words: string -> Kind)
    requires s.cur.ptr < |code|
    ensures Step(code, s, words).Ok? ==> Step(code, s, words).value.cur.ptr > s.cur.ptr
  {
    var p := s.cur.ptr;
    var a, b, c := code[p], CharAt(code, p + 1), CharAt(code, p + 2);
    PunctuationAdvances(s, a, b, c);
    DispatchAdvances(code, s, words, Punctuation(a, b, c));
  }

  function Run(code: string, s: State, words: string -> Kind): Outcome
    decreases |code| - s.cur.ptr
  {
    if s.cur.ptr >= |code| then Ok(s)
    else
      StepAdvances(code, s, words);
      match Step(code, s, words)
      case Err(e) => Err(e)
      case Ok(s') => Run(code, s', words)
  }

  /** The end token, unless it is there already. */
  function Finish(s: State): State {
    if s.tokens == [] || s.tokens[|s.tokens| - 1].kind != EOF then Consume(s, EOF, 0, true) else s
  }

  /** An empty source gives no token at all. */
  function LexWith(code: string, words: string -> Kind): Outcome {
    if code == "" then Ok(START)
    else
      match Run(code, START, words)
      case Err(e) => Err(e)
      case Ok(s) => Ok(Finish(s))
  }

  function Lex(code: string): Outcome {
    LexWith(code, WordKind)
  }
}
