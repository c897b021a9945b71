/**
 The lines and columns the lexer records: right up to the number of times it was set back on the line.
 */
module LexerPositions {
  import opened Wrappers
  import opened Tokens
  import opened Lexer
  import opened Positions

  // Cursors

  /** The cursor is where it says, but for the slip. */
  predicate Tracks(code: string, c: Cursor) {
    c.ptr <= |code| && c.line == Pos(code, c.ptr).line && c.col == Pos(code, c.ptr).col + c.slip
  }

  predicate NoNewline(code: string, p: nat, q: nat) {
    q <= |code| && forall i :: p <= i < q ==> code[i] != '\n'
  }

  lemma {:induction false} EatTracks(code: string, c: Cursor, n: nat)
    requires Tracks(code, c) && NoNewline(code, c.ptr, c.ptr + n)
    ensures Tracks(code, Eat(c, n))
    decreases n
  {
    if n > 0 {
      EatTracks(code, c, n - 1);
    }
  }

  lemma EatLineTracks(code: string, c: Cursor)
    requires Tracks(code, c) && c.ptr < |code| && code[c.ptr] == '\n'
    ensures Tracks(code, EatLine(c))
  {
  }

  // Tokens

  /** Numbers and characters do not record where they start. */
  predicate Positional(k: Kind) {
    !k.VALUE_NUMBER? && !k.VALUE_CHAR?
  }

  /** Line and column of a token are those of the offset where it was recorded, but for the slip. */
  predicate Placed(code: string, t: Token, m: Mark) {
    m.direct && Positional(t.kind) ==>
      m.start <= |code| && t.line == Pos(code, m.start).line && t.col == Pos(code, m.start).col + m.slip
  }

  predicate IsWordKind(k: Kind) {
    k.IDENTIFIER? || k.VALUE_BOOL? || k.Kword?
  }

  predicate At(code: string, p: nat, text: string) {
    p + |text| <= |code| && code[p..p + |text|] == text
  }

  /** The text of the token stands there. */
  predicate Spelled(code: string, t: Token, m: Mark) {
    m.direct ==>
      && (t.kind.Sym? ==> At(code, m.start, SymbolText(t.kind.symbol)))
      && (IsWordKind(t.kind) ==> At(code, m.start, t.value))
      && (t.kind.VALUE_STRING? ==> At(code, m.start, "\""))
  }

  predicate TokenOk(code: string, s: State, i: nat)
    requires i < |s.tokens| && i < |s.marks|
  {
    Placed(code, s.tokens[i], s.marks[i]) && Spelled(code, s.tokens[i], s.marks[i])
  }

  ghost predicate TokensOk(code: string, s: State) {
    |s.marks| == |s.tokens| && forall i :: 0 <= i < |s.tokens| ==> TokenOk(code, s, i)
  }

  lemma Appended(code: string, s: State, s': State, t: Token, m: Mark)
    requires TokensOk(code, s) && s'.tokens == s.tokens + [t] && s'.marks == s.marks + [m]
    requires Placed(code, t, m) && Spelled(code, t, m)
    ensures TokensOk(code, s')
  {
    forall i | 0 <= i < |s'.tokens|
      ensures TokenOk(code, s', i)
    {
      if i < |s.tokens| {
        assert TokenOk(code, s, i);
      }
    }
  }

  lemma Unchanged(code: string, s: State, s': State)
    requires TokensOk(code, s) && s'.tokens == s.tokens && s'.marks == s.marks
    ensures TokensOk(code, s')
  {
    forall i | 0 <= i < |s'.tokens|
      ensures TokenOk(code, s', i)
    {
      assert TokenOk(code, s, i);
    }
  }

  /** `consume` records the place of the cursor. */
  lemma ConsumeOk(code: string, s: State, kind: Kind, n: nat, direct: bool)
    requires TokensOk(code, s) && !IsWordKind(kind) && !kind.VALUE_STRING?
    requires direct ==> Tracks(code, s.cur) && (kind.Sym? ==> At(code, s.cur.ptr, SymbolText(kind.symbol)))
    ensures TokensOk(code, Consume(s, kind, n, direct))
  {
    Appended(code, s, Consume(s, kind, n, direct), Token(kind, s.cur.line, s.cur.col, ""),
             Mark(s.cur.ptr, s.cur.slip, direct));
  }

  // One round

  /** What holds between rounds: past the end only behind an end token. */
  ghost predicate Good(code: string, s: State) {
    && TokensOk(code, s)
    && (Tracks(code, s.cur) || (s.cur.ptr > |code| && s.tokens != [] && s.tokens[|s.tokens| - 1].kind == EOF))
  }

  /** One symbol with its text, or two `>`. */
  predicate SymbolsAt(code: string, p: nat, symbols: seq<(Symbol, nat)>) {
    if |symbols| == 1 then
      At(code, p, SymbolText(symbols[0].0)) && symbols[0].1 == |SymbolText(symbols[0].0)|
        && NoNewline(code, p, p + symbols[0].1)
    else symbols == [] || (symbols == [(OP_GT, 1), (OP_GT, 1)] && At(code, p, ">") && At(code, p + 1, ">"))
  }

  lemma SymbolsStand(code: string, p: nat)
    requires p < |code|
    ensures SymbolsAt(code, p, Punctuation(code[p], CharAt(code, p + 1), CharAt(code, p + 2)))
  {
    var a, b, c := code[p], CharAt(code, p + 1), CharAt(code, p + 2);
    var symbols := Punctuation(a, b, c);
    Pairs(a, b, c);
    if |symbols| == 1 {
      WidthIsSpelling(a, b, c, 0);
      SymbolChars(a, b, c);
      TextStands(code, p, SymbolText(symbols[0].0));
    }
  }

  lemma TextStands(code: string, p: nat, text: string)
    requires p < |code| && 1 <= |text| <= 3 && text[0] == code[p] && code[p] != '\n'
    requires |text| > 1 ==> text[1] == CharAt(code, p + 1) && text[1] != '\n' && text[1] != '\0'
    requires |text| > 2 ==> text[2] == CharAt(code, p + 2) && text[2] != '\n' && text[2] != '\0'
    ensures At(code, p, text) && NoNewline(code, p, p + |text|)
  {
    assert |text| > 1 ==> p + 1 < |code|;
    assert |text| > 2 ==> p + 2 < |code|;
    assert code[p..p + |text|] == text;
  }

  /** A single symbol is spelled by the characters read, none of which is a newline or the end. */
  lemma SymbolChars(a: char, b: char, c: char)
    requires |Punctuation(a, b, c)| == 1
    ensures var text := SymbolText(Punctuation(a, b, c)[0].0);
      && text[0] == a && a != '\n'
      && (|text| > 1 ==> text[1] == b && b != '\n' && b != '\0')
      && (|text| > 2 ==> text[2] == c && c != '\n' && c != '\0')
  {
    if Punctuation(a, b, c) == Operator(a, b, c) {
      OperatorChars(a, b, c);
    }
  }

  lemma OperatorChars(a: char, b: char, c: char)
    requires |Operator(a, b, c)| == 1
    ensures var text := SymbolText(Operator(a, b, c)[0].0);
      && text[0] == a && a != '\n'
      && (|text| > 1 ==> text[1] == b && b != '\n' && b != '\0')
      && (|text| > 2 ==> text[2] == c && c != '\n' && c != '\0')
  {
    if IsCalculation(a) {
      CalculationFirst(a, b, c);
    } else {
      ComparisonFirst(a, b, c);
    }
    var text := SymbolText(Operator(a, b, c)[0].0);
    if |text| > 1 {
      OperatorSecond(a, b, c);
    }
    if |text| > 2 {
      OperatorThird(a, b, c);
    }
  }

  predicate IsCalculation(a: char) {
    a == '/' || a == '+' || a == '-' || a == '*' || a == '%' || a == '~' || a == '^'
  }

  lemma CalculationFirst(a: char, b: char, c: char)
    requires IsCalculation(a) && |Operator(a, b, c)| == 1
    ensures SymbolText(Operator(a, b, c)[0].0)[0] == a && a != '\n'
  {
  }

  lemma ComparisonFirst(a: char, b: char, c: char)
    requires !IsCalculation(a) && |Operator(a, b, c)| == 1
    ensures SymbolText(Operator(a, b, c)[0].0)[0] == a && a != '\n'
  {
  }

  lemma OperatorSecond(a: char, b: char, c: char)
    requires |Operator(a, b, c)| == 1 && |SymbolText(Operator(a, b, c)[0].0)| > 1
    ensures SymbolText(Operator(a, b, c)[0].0)[1] == b && b != '\n' && b != '\0'
  {
  }

  lemma OperatorThird(a: char, b: char, c: char)
    requires |Operator(a, b, c)| == 1 && |SymbolText(Operator(a, b, c)[0].0)| > 2
    ensures SymbolText(Operator(a, b, c)[0].0)[2] == c && c != '\n' && c != '\0'
  {
  }

  lemma Pairs(a: char, b: char, c: char)
    ensures |Punctuation(a, b, c)| <= 2
    ensures |Punctuation(a, b, c)| == 2 ==> a == '>' && b == '>' && Punctuation(a, b, c) == [(OP_GT, 1), (OP_GT, 1)]
  {
  }

  lemma OneSymbolGood(code: string, s: State, symbol: Symbol, n: nat)
    requires TokensOk(code, s) && Tracks(code, s.cur) && At(code, s.cur.ptr, SymbolText(symbol))
    requires NoNewline(code, s.cur.ptr, s.cur.ptr + n)
    ensures var s' := ConsumeAll(s, [(symbol, n)]);
      TokensOk(code, s') && Tracks(code, s'.cur) && s' == Consume(s, Sym(symbol), n, true)
  {
    ConsumeOk(code, s, Sym(symbol), n, true);
    EatTracks(code, s.cur, n);
    var one: seq<(Symbol, nat)> := [(symbol, n)];
    assert |one[1..]| == 0;
  }

  lemma TwoGreaterGood(code: string, s: State)
    requires TokensOk(code, s) && Tracks(code, s.cur) && At(code, s.cur.ptr, ">") && At(code, s.cur.ptr + 1, ">")
    ensures var s' := ConsumeAll(s, [(OP_GT, 1), (OP_GT, 1)]); TokensOk(code, s') && Tracks(code, s'.cur)
  {
    assert code[s.cur.ptr] == code[s.cur.ptr..s.cur.ptr + 1][0] == '>';
    assert code[s.cur.ptr + 1] == code[s.cur.ptr + 1..s.cur.ptr + 2][0] == '>';
    var two: seq<(Symbol, nat)> := [(OP_GT, 1), (OP_GT, 1)];
    assert two[1..] == [(OP_GT, 1)];
    ConsumeOk(code, s, Sym(OP_GT), 1, true);
    EatTracks(code, s.cur, 1);
    OneSymbolGood(code, Consume(s, Sym(OP_GT), 1, true), OP_GT, 1);
  }

  lemma SymbolsGood(code: string, s: State, symbols: seq<(Symbol, nat)>)
    requires TokensOk(code, s) && Tracks(code, s.cur) && symbols != [] && SymbolsAt(code, s.cur.ptr, symbols)
    ensures Good(code, ConsumeAll(s, symbols))
  {
    if |symbols| == 1 {
      assert symbols == [(symbols[0].0, symbols[0].1)];
      OneSymbolGood(code, s, symbols[0].0, symbols[0].1);
    } else {
      TwoGreaterGood(code, s);
    }
  }

  lemma PunctuationGood(code: string, s: State)
    requires TokensOk(code, s) && Tracks(code, s.cur) && s.cur.ptr < |code|
    requires Punctuation(code[s.cur.ptr], CharAt(code, s.cur.ptr + 1), CharAt(code, s.cur.ptr + 2)) != []
    ensures var p := s.cur.ptr;
      Good(code, ConsumeAll(s, Punctuation(code[p], CharAt(code, p + 1), CharAt(code, p + 2))))
  {
    SymbolsStand(code, s.cur.ptr);
    SymbolsGood(code, s, Punctuation(code[s.cur.ptr], CharAt(code, s.cur.ptr + 1), CharAt(code, s.cur.ptr + 2)));
  }

  lemma LineCommentGood(code: string, s: State)
    requires TokensOk(code, s) && Tracks(code, s.cur)
    ensures Good(code, LineComment(code, s))
  {
    var q := RunEnd(code, s.cur.ptr, InLine);
    var s' := s.(cur := Eat(s.cur, q - s.cur.ptr));
    EatTracks(code, s.cur, q - s.cur.ptr);
    Unchanged(code, s, s');
    if CharAt(code, q) == '\n' {
      EatLineTracks(code, s'.cur);
      Unchanged(code, s, s'.(cur := EatLine(s'.cur)));
    } else {
      ConsumeOk(code, s', EOF, 1, true);
      if q < |code| {
        EatTracks(code, s'.cur, 1);
      }
    }
  }

  lemma {:induction false} BlockCommentTracks(code: string, c: Cursor)
    requires Tracks(code, c)
    ensures var r := BlockComment(code, c); r.Ok? ==> Tracks(code, r.value)
    decreases |code| - c.ptr
  {
    if CharAt(code, c.ptr) == '*' && CharAt(code, c.ptr + 1) == '/' {
      EatTracks(code, c, 2);
    } else if CharAt(code, c.ptr) == '\n' {
      EatLineTracks(code, c);
      BlockCommentTracks(code, EatLine(c));
    } else if CharAt(code, c.ptr) != '\0' {
      EatTracks(code, c, 1);
      BlockCommentTracks(code, Eat(c, 1));
    }
  }

  lemma EscapeTracks(code: string, c: Cursor)
    requires Tracks(code, c) && CharAt(code, c.ptr) == '\\'
    ensures CharAt(code, c.ptr + 1) != '\n' && CharAt(code, c.ptr + 1) != '\0' ==> Tracks(code, Eat(c, 2))
    ensures CharAt(code, c.ptr + 1) == '\n' ==> Tracks(code, EatLine(Eat(c, 1)))
    ensures CharAt(code, c.ptr + 1) == 'x' ==> Tracks(code, Eat(c, 2 + |HexRun(code, c.ptr + 2)|))
  {
    if CharAt(code, c.ptr + 1) == '\n' {
      EatTracks(code, c, 1);
    } else if CharAt(code, c.ptr + 1) != '\0' {
      EatTracks(code, c, 2);
      if CharAt(code, c.ptr + 1) == 'x' {
        EatTracks(code, Eat(c, 2), |HexRun(code, c.ptr + 2)|);
        assert Eat(Eat(c, 2), |HexRun(code, c.ptr + 2)|) == Eat(c, 2 + |HexRun(code, c.ptr + 2)|);
      }
    }
  }

  predicate QuotedIn(code: string, r: Result<(Cursor, string), LexError>, isChar: bool) {
    r.Ok? ==> Tracks(code, r.value.0) && CharAt(code, r.value.0.ptr) == (if isChar then '\'' else '"')
  }

  lemma {:induction false} QuotedTracks(code: string, c: Cursor, text: string, isChar: bool)
    requires Tracks(code, c)
    ensures QuotedIn(code, Quoted(code, c, text, isChar), isChar)
    decreases |code| - c.ptr, 1
  {
    var a := CharAt(code, c.ptr);
    if a == '\\' {
      EscapedTracks(code, c, text, isChar);
    } else if a == '\n' {
      EatLineTracks(code, c);
      QuotedTracks(code, EatLine(c), text + [a], isChar);
    } else if a != '\0' && a != (if isChar then '\'' else '"') {
      EatTracks(code, c, 1);
      QuotedTracks(code, Eat(c, 1), text + [a], isChar);
    }
  }

  lemma {:induction false} EscapedTracks(code: string, c: Cursor, text: string, isChar: bool)
    requires Tracks(code, c) && CharAt(code, c.ptr) == '\\'
    ensures QuotedIn(code, Quoted(code, c, text, isChar), isChar)
    decreases |code| - c.ptr, 0, 1
  {
    var e := CharAt(code, c.ptr + 1);
    EscapeTracks(code, c);
    if SimpleEscape(e, isChar).Some? {
      QuotedTracks(code, Eat(c, 2), text + [SimpleEscape(e, isChar).value], isChar);
    } else if e == '\n' {
      QuotedTracks(code, EatLine(Eat(c, 1)), text, isChar);
    } else if e == 'x' {
      HexTracks(code, c, text, isChar, HexRun(code, c.ptr + 2));
    }
  }

  lemma {:induction false} HexTracks(code: string, c: Cursor, text: string, isChar: bool, hex: string)
    requires Tracks(code, c) && CharAt(code, c.ptr) == '\\' && CharAt(code, c.ptr + 1) == 'x'
    requires hex == HexRun(code, c.ptr + 2) && Tracks(code, Eat(c, 2 + |hex|)) && c.ptr < |code|
    ensures QuotedIn(code, Quoted(code, c, text, isChar), isChar)
    decreases |code| - c.ptr, 0, 0
  {
    QuotedHex(code, c, text, isChar, hex);
    if hex != "" {
      QuotedTracks(code, Eat(c, 2 + |hex|), text + [HexByte(hex) as char], isChar);
    }
  }

  lemma LiteralGood(code: string, s: State, isChar: bool)
    requires TokensOk(code, s) && Tracks(code, s.cur) && CharAt(code, s.cur.ptr) == (if isChar then '\'' else '"')
    ensures var r := if isChar then CharLiteral(code, s) else StringLiteral(code, s); r.Ok? ==> Good(code, r.value)
  {
    EatTracks(code, s.cur, 1);
    QuotedTracks(code, Eat(s.cur, 1), "", isChar);
    var r := Quoted(code, Eat(s.cur, 1), "", isChar);
    if r.Ok? {
      var (c, text) := r.value;
      EatTracks(code, c, 1);
      var after := Eat(c, 1);
      var t := if isChar then Token(VALUE_CHAR, after.line, after.col - 3, text)
        else Token(VALUE_STRING, s.cur.line, s.cur.col, text);
      assert code[s.cur.ptr..s.cur.ptr + 1] == [code[s.cur.ptr]];
      Appended(code, s, Record(s, after, t), t, Mark(s.cur.ptr, s.cur.slip, true));
    }
  }

  lemma FloatGood(code: string, s: State)
    requires TokensOk(code, s) && Tracks(code, s.cur) && CharAt(code, s.cur.ptr) == '.'
    ensures Good(code, FloatLiteral(code, s))
  {
    var q := RunEnd(code, s.cur.ptr + 1, IsNum);
    EatTracks(code, s.cur, q - s.cur.ptr);
    Appended(code, s, FloatLiteral(code, s), Token(VALUE_FLOAT, s.cur.line, s.cur.col, ['\0']),
             Mark(s.cur.ptr, s.cur.slip, true));
  }

  ghost predicate WordsOnly(words: string -> Kind) {
    forall word :: IsWordKind(words(word))
  }

  lemma WordGood(code: string, s: State, words: string -> Kind)
    requires WordsOnly(words)
    requires TokensOk(code, s) && Tracks(code, s.cur) && s.cur.ptr < |code| && IsText(code[s.cur.ptr])
    ensures Good(code, WordLiteral(code, s, words))
  {
    var q := RunEnd(code, s.cur.ptr, IsWord);
    var word := code[s.cur.ptr..q];
    EatTracks(code, s.cur, q - s.cur.ptr);
    assert IsWordKind(words(word));
    Appended(code, s, WordLiteral(code, s, words), Token(words(word), s.cur.line, s.cur.col, word),
             Mark(s.cur.ptr, s.cur.slip, true));
  }

  lemma WordKindOfWord(word: string)
    ensures IsWordKind(WordKind(word))
  {
  }

  // Numbers

  /** The text of a number is as long as what was passed, but for the character a range takes away. */
  lemma {:induction false} ScanDecimalLength(code: string, p: nat, num: string, isFloat: bool)
    requires num != [] && p <= |code|
    ensures var r := ScanDecimal(code, p, num, isFloat);
      && |r.num| == |num| + (r.end - p) - (if r.isRange then 1 else 0)
      && (r.isRange ==> CharAt(code, r.end) == '.' && !r.isFloat)
      && NoNewline(code, p, r.end)
    decreases |code| - p
  {
    if IsNum(CharAt(code, p)) {
      ScanDecimalLength(code, p + 1, num + [code[p]], isFloat);
    } else if CharAt(code, p) == '.' && !isFloat {
      ScanDecimalLength(code, p + 1, num + ['.'], true);
    }
  }

  lemma {:induction false} ScanDecimalStart(code: string, p: nat, num: string, isFloat: bool)
    requires num != [] && IsNum(num[0]) && (isFloat ==> |num| >= 2)
    ensures var r := ScanDecimal(code, p, num, isFloat); r.num != [] && IsNum(r.num[0])
    decreases |code| - p
  {
    if IsNum(CharAt(code, p)) {
      ScanDecimalStart(code, p + 1, num + [code[p]], isFloat);
    } else if CharAt(code, p) == '.' && !isFloat {
      ScanDecimalStart(code, p + 1, num + ['.'], true);
    }
  }

  lemma PrefixedLength(code: string, p: nat, digits: char -> bool)
    requires p + 1 < |code| && code[p] != '\n' && code[p + 1] != '\n' && code[p + 1] != '.'
    requires forall c :: digits(c) ==> c != '\n' && c != '.'
    ensures var r := Prefixed(code, p, digits);
      |r.num| == r.end - p && NoNewline(code, p, r.end) && !EndsInDot(r.num) && r.end >= p + 2
  {
  }

  lemma ScanNumberLength(code: string, p: nat)
    requires p < |code| && IsNum(code[p])
    ensures var r := ScanNumber(code, p);
      && p < r.end && NoNewline(code, p, r.end)
      && |r.num| == r.end - p - (if r.isRange then 1 else 0)
      && (r.isRange ==> CharAt(code, r.end) == '.')
      && (EndsInDot(r.num) ==> |r.num| > 1)
  {
    ScanDecimalLength(code, p + 1, [code[p]], false);
    ScanDecimalStart(code, p + 1, [code[p]], false);
    var b := CharAt(code, p + 1);
    if code[p] == '0' && (b == 'b' || b == 'B') {
      PrefixedLength(code, p, IsBinary);
    } else if code[p] == '0' && (b == 'x' || b == 'X') {
      PrefixedLength(code, p, IsHex);
    } else if code[p] == '0' && (b == 'o' || b == 'O') {
      PrefixedLength(code, p, IsOctal);
    }
  }

  /** How often a number sets the lexer back. */
  function SetBacks(scan: Scan): nat {
    (if scan.isRange then 1 else 0) + (if EndsInDot(scan.num) then 1 else 0)
  }

  /** A number records a column that is too large by the dots it gives away. */
  lemma NumberColumn(code: string, s: State)
    requires s.cur.ptr < |code| && IsNum(code[s.cur.ptr])
    ensures var scan := ScanNumber(code, s.cur.ptr);
      var t := NumberToken(code, s, scan).tokens[|s.tokens|];
      t.line == s.cur.line && t.col == s.cur.col + SetBacks(scan)
  {
    ScanNumberLength(code, s.cur.ptr);
  }

  lemma SuffixTracks(code: string, c: Cursor)
    requires Tracks(code, c)
    ensures var sign := Signedness(CharAt(code, c.ptr));
      var long := Long(CharAt(code, c.ptr + |sign|));
      Tracks(code, Eat(c, |sign| + |long|))
      && (CharAt(code, c.ptr) == '.' ==> |sign| + |long| == 0)
  {
    var sign := Signedness(CharAt(code, c.ptr));
    var long := Long(CharAt(code, c.ptr + |sign|));
    EatTracks(code, c, |sign|);
    EatTracks(code, Eat(c, |sign|), |long|);
    assert Eat(Eat(c, |sign|), |long|) == Eat(c, |sign| + |long|);
  }

  lemma NumberTokenTracks(code: string, s: State, scan: Scan)
    requires Tracks(code, s.cur) && s.cur.ptr < |code| && IsNum(code[s.cur.ptr])
    requires scan == ScanNumber(code, s.cur.ptr)
    ensures var c := NumberToken(code, s, scan).cur;
      Tracks(code, c) && c.slip == s.cur.slip && (scan.isRange ==> c.ptr == scan.end && CharAt(code, scan.end) == '.')
  {
    ScanNumberLength(code, s.cur.ptr);
    EatTracks(code, s.cur, scan.end - s.cur.ptr);
    SuffixTracks(code, Eat(s.cur, scan.end - s.cur.ptr));
  }

  lemma NumberTokenRecorded(code: string, s: State, scan: Scan)
    requires TokensOk(code, s) && Tracks(code, s.cur) && s.cur.ptr < |code| && IsNum(code[s.cur.ptr])
    requires scan == ScanNumber(code, s.cur.ptr)
    ensures TokensOk(code, NumberToken(code, s, scan))
  {
    NumberColumn(code, s);
    FloatHasNoDots(code, s.cur.ptr);
    var s' := NumberToken(code, s, scan);
    Appended(code, s, s', s'.tokens[|s.tokens|], Mark(s.cur.ptr, s.cur.slip, true));
  }

  lemma FloatHasNoDots(code: string, p: nat)
    requires p < |code| && IsNum(code[p])
    ensures var scan := ScanNumber(code, p); scan.isFloat && !EndsInDot(scan.num) ==> SetBacks(scan) == 0
  {
    ScanDecimalLength(code, p + 1, [code[p]], false);
  }

  /** Setting back after two dots leaves the cursor behind one, with one more slip. */
  lemma RangeDotsGood(code: string, s: State)
    requires TokensOk(code, s) && Tracks(code, s.cur) && CharAt(code, s.cur.ptr) == '.'
    ensures var s' := Dots(s, true, false);
      TokensOk(code, s') && Tracks(code, s'.cur) && s'.cur.slip == s.cur.slip + 1 && s'.cur.ptr == s.cur.ptr + 1
  {
    var s1 := Consume(s, Sym(SYM_DOT), 1, false);
    var s2 := Consume(s1, Sym(SYM_DOT), 1, false);
    ConsumeOk(code, s, Sym(SYM_DOT), 1, false);
    ConsumeOk(code, s1, Sym(SYM_DOT), 1, false);
    EatTracks(code, s.cur, 1);
    Unchanged(code, s2, s2.(cur := SetBack(s2.cur)));
  }

  lemma AppendedDotGood(code: string, s: State)
    requires TokensOk(code, s) && Tracks(code, s.cur)
    ensures var s' := Dots(s, false, true);
      TokensOk(code, s') && Tracks(code, s'.cur) && s'.cur.slip == s.cur.slip + 1 && s'.cur.ptr == s.cur.ptr
  {
    var s1 := Consume(s, Sym(SYM_DOT), 1, false);
    ConsumeOk(code, s, Sym(SYM_DOT), 1, false);
    Unchanged(code, s1, s1.(cur := SetBack(s1.cur)));
  }

  lemma NumberGood(code: string, s: State)
    requires TokensOk(code, s) && Tracks(code, s.cur) && s.cur.ptr < |code| && IsNum(code[s.cur.ptr])
    ensures Good(code, NumberLiteral(code, s))
    ensures NumberLiteral(code, s).cur.slip == s.cur.slip + SetBacks(ScanNumber(code, s.cur.ptr))
  {
    var scan := ScanNumber(code, s.cur.ptr);
    var s1 := NumberToken(code, s, scan);
    NumberTokenTracks(code, s, scan);
    NumberTokenRecorded(code, s, scan);
    var s2 := Dots(s1, scan.isRange, false);
    if scan.isRange {
      RangeDotsGood(code, s1);
    }
    if EndsInDot(scan.num) {
      AppendedDotGood(code, s2);
      assert Dots(s1, scan.isRange, true) == Dots(s2, false, true);
    }
  }

  /** `1..`, for example, sets the lexer back. */
  lemma RangeSetsBack(code: string, s: State)
    requires TokensOk(code, s) && Tracks(code, s.cur) && s.cur.ptr < |code| && code[s.cur.ptr] == '1'
    requires CharAt(code, s.cur.ptr + 1) == '.' && CharAt(code, s.cur.ptr + 2) == '.'
    ensures NumberLiteral(code, s).cur.slip > s.cur.slip
  {
    NumberGood(code, s);
    var p := s.cur.ptr;
    assert ScanDecimal(code, p + 2, ['1'] + ['.'], true).isRange;
  }

  // All rounds

  /** Every round keeps the cursor and the tokens recorded right, up to the slip. */
  lemma StepGood(code: string, s: State, words: string -> Kind)
    requires WordsOnly(words)
    requires TokensOk(code, s) && Tracks(code, s.cur) && s.cur.ptr < |code|
    ensures Step(code, s, words).Ok? ==> Good(code, Step(code, s, words).value)
  {
    var p := s.cur.ptr;
    var a, b, c := code[p], CharAt(code, p + 1), CharAt(code, p + 2);
    if a == '\0' {
      ConsumeOk(code, s, EOF, 1, true);
      EatTracks(code, s.cur, 1);
    } else if a == ' ' || a == '\t' {
      EatTracks(code, s.cur, 1);
      Unchanged(code, s, s.(cur := Eat(s.cur, 1)));
    } else if a == '\n' {
      EatLineTracks(code, s.cur);
      Unchanged(code, s, s.(cur := EatLine(s.cur)));
    } else if a == '/' && (b == '/' || b == '*') {
      CommentGood(code, s, words);
    } else {
      TokenGood(code, s, words);
    }
  }

  lemma CommentGood(code: string, s: State, words: string -> Kind)
    requires WordsOnly(words)
    requires TokensOk(code, s) && Tracks(code, s.cur) && s.cur.ptr < |code|
    requires code[s.cur.ptr] == '/' && (CharAt(code, s.cur.ptr + 1) == '/' || CharAt(code, s.cur.ptr + 1) == '*')
    ensures Step(code, s, words).Ok? ==> Good(code, Step(code, s, words).value)
  {
    if CharAt(code, s.cur.ptr + 1) == '/' {
      LineCommentGood(code, s);
    } else {
      EatTracks(code, s.cur, 2);
      BlockCommentTracks(code, Eat(s.cur, 2));
      var r := BlockComment(code, Eat(s.cur, 2));
      if r.Ok? {
        Unchanged(code, s, s.(cur := r.value));
      }
    }
  }

  lemma TokenGood(code: string, s: State, words: string -> Kind)
    requires WordsOnly(words)
    requires TokensOk(code, s) && Tracks(code, s.cur) && s.cur.ptr < |code|
    requires var a, b := code[s.cur.ptr], CharAt(code, s.cur.ptr + 1);
      a != '\0' && a != ' ' && a != '\t' && a != '\n' && !(a == '/' && (b == '/' || b == '*'))
    ensures Step(code, s, words).Ok? ==> Good(code, Step(code, s, words).value)
  {
    var p := s.cur.ptr;
    var a, b, c := code[p], CharAt(code, p + 1), CharAt(code, p + 2);
    if Punctuation(a, b, c) != [] {
      PunctuationGood(code, s);
    } else if a == '\'' {
      LiteralGood(code, s, true);
    } else if a == '"' {
      LiteralGood(code, s, false);
    } else if a == '.' && IsNum(b) {
      FloatGood(code, s);
    } else if IsNum(a) {
      NumberGood(code, s);
    } else if IsText(a) {
      WordGood(code, s, words);
    } else if a == '.' {
      assert code[p..p + 1] == ".";
      ConsumeOk(code, s, Sym(SYM_DOT), 1, true);
      EatTracks(code, s.cur, 1);
    }
  }

  lemma {:induction false} RunGood(code: string, s: State, words: string -> Kind)
    requires WordsOnly(words)
    requires Good(code, s)
    ensures Run(code, s, words).Ok? ==> Good(code, Run(code, s, words).value)
    decreases |code| - s.cur.ptr
  {
    if s.cur.ptr < |code| {
      StepAdvances(code, s, words);
      StepGood(code, s, words);
      if Step(code, s, words).Ok? {
        RunGood(code, Step(code, s, words).value, words);
      }
    }
  }

  /**
   Whatever the source, every token recorded directly stands where its line and column say, up to the
   slip of its mark, with its own text there.
   */
  lemma LexedTokensStand(code: string)
    requires Lex(code).Ok?
    ensures TokensOk(code, Lex(code).value)
  {
    forall word
      ensures IsWordKind(WordKind(word))
    {
      WordKindOfWord(word);
    }
    LexedWithStand(code, WordKind);
  }

  lemma LexedWithStand(code: string, words: string -> Kind)
    requires WordsOnly(words) && LexWith(code, words).Ok?
    ensures TokensOk(code, LexWith(code, words).value)
  {
    if code != "" {
      RunGood(code, START, words);
      FinishGood(code, Run(code, START, words).value);
    }
  }

  lemma FinishGood(code: string, s: State)
    requires Good(code, s)
    ensures TokensOk(code, Finish(s))
  {
    if s.tokens == [] || s.tokens[|s.tokens| - 1].kind != EOF {
      ConsumeOk(code, s, EOF, 0, true);
    }
  }

  /** The position leads back to the text that stands at `start`. */
  predicate TextLeadsBack(code: string, position: Position, start: nat, text: string) {
    && At(code, start, text)
    && position == Pos(code, start)
    && (text != "" && !(start == 0 && |text| == |code|) ==>
          SubstringByRange(code, position, Pos(code, start + |text|)) == text)
  }

  function TextOf(t: Token): string {
    if t.kind.Sym? then SymbolText(t.kind.symbol) else t.value
  }

  predicate LeadsBack(code: string, t: Token, m: Mark) {
    m.direct && m.slip == 0 && (t.kind.Sym? || IsWordKind(t.kind)) ==>
      TextLeadsBack(code, Position(t.line, t.col), m.start, TextOf(t))
  }

  lemma TextGivenBack(code: string, position: Position, start: nat, text: string)
    requires At(code, start, text) && position == Pos(code, start)
    ensures TextLeadsBack(code, position, start, text)
  {
    if text != "" {
      RangeGivesBackIff(code, start, start + |text|);
    }
  }

  lemma TokenLeadsBack(code: string, s: State, i: nat)
    requires TokensOk(code, s) && i < |s.tokens| && i < |s.marks|
    ensures LeadsBack(code, s.tokens[i], s.marks[i])
  {
    assert TokenOk(code, s, i);
    var t, m := s.tokens[i], s.marks[i];
    if m.direct && m.slip == 0 && (t.kind.Sym? || IsWordKind(t.kind)) {
      TextGivenBack(code, Position(t.line, t.col), m.start, TextOf(t));
    }
  }

  /** With no slip on its line, the position of a symbol or word leads back to its text. */
  lemma PositionsLeadBack(code: string, i: nat)
    requires Lex(code).Ok? && i < |Lex(code).value.tokens| && i < |Lex(code).value.marks|
    ensures LeadsBack(code, Lex(code).value.tokens[i], Lex(code).value.marks[i])
  {
    LexedTokensStand(code);
    TokenLeadsBack(code, Lex(code).value, i);
  }
}
