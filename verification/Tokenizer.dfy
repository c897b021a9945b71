/**
 The lexer as it runs: `char_ptr`, `cur_line`, `cur_col` and `tokens` updated in place.
 */
module Tokenizer {
  import opened Wrappers
  import opened Tokens
  import opened Lexer

  predicate IsWordKindAt(words: string -> Kind, word: string) {
    words(word) == WordKind(word)
  }

  /** `words` is the chain of comparisons, kept folded where it is not looked into. */
  ghost predicate IsChain(words: string -> Kind) {
    forall word :: IsWordKindAt(words, word)
  }

  lemma WordKindIsChain()
    ensures IsChain(WordKind)
  {
    forall word
      ensures IsWordKindAt(WordKind, word)
    {
    }
  }

  class Tokenizer {
    const code: string
    var charPtr: nat
    var curLine: nat
    var curCol: int
    var tokens: seq<Token>
    ghost var slip: nat
    ghost var marks: seq<Mark>

    constructor (code: string)
      ensures this.code == code && StateOf() == START
    {
      this.code := code;
      charPtr, curLine, curCol, tokens, slip, marks := 0, 1, 1, [], 0, [];
    }

    ghost function Cur(): Cursor
      reads this
    {
      Cursor(charPtr, curLine, curCol, slip)
    }

    ghost function StateOf(): State
      reads this
    {
      State(Cur(), tokens, marks)
    }

    // The macros and helpers

    method EatChar(n: nat)
      modifies this`charPtr, this`curCol
      ensures Cur() == Eat(old(Cur()), n)
    {
      charPtr := charPtr + n;
      curCol := curCol + n;
    }

    method EatNewline()
      modifies this`charPtr, this`curCol, this`curLine, this`slip
      ensures Cur() == EatLine(old(Cur()))
    {
      charPtr := charPtr + 1;
      curCol := 1;
      curLine := curLine + 1;
      slip := 0;
    }

    method StepBack()
      requires charPtr > 0
      modifies this`charPtr, this`slip
      ensures Cur() == SetBack(old(Cur()))
    {
      charPtr := charPtr - 1;
      slip := slip + 1;
    }

    method ConsumeToken(kind: Kind, eatSize: nat, ghost direct: bool)
      modifies this
      ensures StateOf() == Consume(old(StateOf()), kind, eatSize, direct)
    {
      tokens := tokens + [Token(kind, curLine, curCol, "")];
      marks := marks + [Mark(charPtr, slip, direct)];
      EatChar(eatSize);
    }

    /** Eats characters as long as `run` holds and collects them. */
    method EatWhile(run: char -> bool) returns (text: string)
      requires charPtr <= |code|
      modifies this`charPtr, this`curCol
      ensures Cur() == Eat(old(Cur()), |text|)
      ensures old(charPtr) + |text| == RunEnd(code, old(charPtr), run) <= |code| && text == code[old(charPtr)..charPtr]
    {
      text := "";
      while charPtr < |code| && run(code[charPtr])
        invariant old(charPtr) <= charPtr <= |code| && text == code[old(charPtr)..charPtr]
        invariant Cur() == Eat(old(Cur()), |text|)
        invariant RunEnd(code, old(charPtr), run) == RunEnd(code, charPtr, run)
        decreases |code| - charPtr
      {
        text := text + [code[charPtr]];
        EatChar(1);
      }
    }

    // Comments

    method LexLineComment()
      requires charPtr <= |code|
      modifies this
      ensures StateOf() == LineComment(code, old(StateOf()))
    {
      var comment := EatWhile(InLine);
      if CharAt(code, charPtr) == '\n' {
        EatNewline();
      } else {
        ConsumeToken(EOF, 1, true);
      }
    }

    method LexBlockComment() returns (error: Option<LexError>)
      modifies this`charPtr, this`curCol, this`curLine, this`slip
      ensures match BlockComment(code, old(Cur()))
              case Ok(c) => error == None && Cur() == c
              case Err(e) => error == Some(e)
    {
      while true
        invariant BlockComment(code, old(Cur())) == BlockComment(code, Cur())
        decreases |code| - charPtr
      {
        if CharAt(code, charPtr) == '*' && CharAt(code, charPtr + 1) == '/' {
          EatChar(2);
          return None;
        } else if CharAt(code, charPtr) == '\0' {
          return Some(UnexpectedEof);
        } else if CharAt(code, charPtr) == '\n' {
          EatNewline();
        } else {
          EatChar(1);
        }
      }
    }

    // Quoted text

    /** The loop up to the closing quote. */
    method LexQuoted(isChar: bool) returns (r: Result<string, LexError>)
      modifies this`charPtr, this`curCol, this`curLine, this`slip
      ensures match Quoted(code, old(Cur()), "", isChar)
              case Ok(end) => r == Ok(end.1) && Cur() == end.0
              case Err(e) => r == Err(e)
    {
      var str := "";
      while CharAt(code, charPtr) != (if isChar then '\'' else '"')
        invariant Quoted(code, old(Cur()), "", isChar) == Quoted(code, Cur(), str, isChar)
        decreases |code| - charPtr
      {
        var a := CharAt(code, charPtr);
        if a == '\\' {
          var escaped := LexEscape(isChar, str);
          if escaped.Err? {
            return Err(escaped.error);
          }
          str := escaped.value;
        } else if a == '\0' {
          return Err(UnexpectedEof);
        } else if a == '\n' {
          if isChar {
            return Err(SyntaxError);
          }
          str := str + [a];
          EatNewline();
        } else {
          str := str + [a];
          EatChar(1);
        }
      }
      return Ok(str);
    }

    /** One escape added to the text. */
    method LexEscape(isChar: bool, str: string) returns (r: Result<string, LexError>)
      requires CharAt(code, charPtr) == '\\'
      modifies this`charPtr, this`curCol, this`curLine, this`slip
      ensures match r
              case Ok(text) =>
                charPtr > old(charPtr) && Quoted(code, old(Cur()), str, isChar) == Quoted(code, Cur(), text, isChar)
              case Err(e) => Quoted(code, old(Cur()), str, isChar) == Err(e)
    {
      var e := CharAt(code, charPtr + 1);
      if e == '\0' {
        return Err(UnexpectedEof);
      }
      var simple := SimpleEscape(e, isChar);
      if simple.Some? {
        EatChar(2);
        return Ok(str + [simple.value]);
      }
      if e == '\n' {
        EatChar(1);
        EatNewline();
        return Ok(str);
      }
      if e != 'x' {
        return Err(SyntaxError);
      }
      r := LexHex(isChar, str);
    }

    method LexHex(isChar: bool, str: string) returns (r: Result<string, LexError>)
      requires CharAt(code, charPtr) == '\\' && CharAt(code, charPtr + 1) == 'x'
      modifies this`charPtr, this`curCol, this`curLine, this`slip
      ensures match r
              case Ok(text) =>
                charPtr > old(charPtr) && Quoted(code, old(Cur()), str, isChar) == Quoted(code, Cur(), text, isChar)
              case Err(e) => Quoted(code, old(Cur()), str, isChar) == Err(e)
    {
      QuotedHex(code, Cur(), str, isChar, HexRun(code, charPtr + 2));
      EatChar(2);
      var hex := EatWhile(IsHex);
      assert hex == HexRun(code, old(charPtr) + 2);
      if hex == "" {
        return Err(SyntaxError);
      }
      assert Cur() == Eat(old(Cur()), 2 + |hex|);
      return Ok(str + [HexByte(hex) as char]);
    }

    method Add(token: Token, ghost start: Cursor)
      modifies this`tokens, this`marks
      ensures StateOf() == State(Cur(), old(tokens) + [token], old(marks) + [Mark(start.ptr, start.slip, true)])
    {
      tokens := tokens + [token];
      marks := marks + [Mark(start.ptr, start.slip, true)];
    }

    method LexChar() returns (error: Option<LexError>)
      modifies this
      ensures match CharLiteral(code, old(StateOf()))
              case Ok(s) => error == None && StateOf() == s
              case Err(e) => error == Some(e)
    {
      EatChar(1);
      var str := LexQuoted(true);
      if str.Err? {
        return Some(str.error);
      }
      EatChar(1);
      if |str.value| != 1 {
        return Some(SyntaxError);
      }
      Add(Token(VALUE_CHAR, curLine, curCol - (|str.value| + 2), str.value), old(Cur()));
      return None;
    }

    method LexString() returns (error: Option<LexError>)
      modifies this
      ensures match StringLiteral(code, old(StateOf()))
              case Ok(s) => error == None && StateOf() == s
              case Err(e) => error == Some(e)
    {
      EatChar(1);
      var col, line := curCol, curLine;
      var str := LexQuoted(false);
      if str.Err? {
        return Some(str.error);
      }
      EatChar(1);
      Add(Token(VALUE_STRING, line, col - 1, str.value), old(Cur()));
      return None;
    }

    // Numbers and words

    method LexFloat()
      requires charPtr < |code|
      modifies this
      ensures StateOf() == FloatLiteral(code, old(StateOf()))
    {
      EatChar(1);
      var digits := EatWhile(IsNum);
      Add(Token(VALUE_FLOAT, curLine, curCol - (1 + |digits|), ['\0']), old(Cur()));
    }

    /** The loop over digits and dots. */
    method LexDecimal(first: char) returns (num: string, isFloat: bool, isRange: bool)
      requires charPtr <= |code|
      modifies this`charPtr, this`curCol
      ensures Scan(charPtr, num, isFloat, isRange) == ScanDecimal(code, old(charPtr), [first], false)
      ensures charPtr >= old(charPtr) && Cur() == Eat(old(Cur()), charPtr - old(charPtr))
    {
      num, isFloat, isRange := [first], false, false;
      while IsNum(CharAt(code, charPtr)) || CharAt(code, charPtr) == '.'
        invariant num != [] && !isRange && old(charPtr) <= charPtr <= |code|
        invariant Cur() == Eat(old(Cur()), charPtr - old(charPtr))
        invariant ScanDecimal(code, charPtr, num, isFloat) == ScanDecimal(code, old(charPtr), [first], false)
        decreases |code| - charPtr
      {
        if CharAt(code, charPtr) == '.' && isFloat {
          isFloat := false;
          num := num[..|num| - 1];
          isRange := true;
          break;
        }
        if CharAt(code, charPtr) == '.' {
          isFloat := true;
        }
        num := num + [code[charPtr]];
        EatChar(1);
      }
    }

    method LexPrefixed(digits: char -> bool) returns (num: string)
      requires charPtr + 1 < |code|
      modifies this`charPtr, this`curCol
      ensures Scan(charPtr, num, false, false) == Prefixed(code, old(charPtr), digits)
      ensures charPtr >= old(charPtr) && Cur() == Eat(old(Cur()), charPtr - old(charPtr))
    {
      num := [code[charPtr]];
      EatChar(1);
      num := num + [code[charPtr]];
      EatChar(1);
      var more := EatWhile(digits);
      num := num + more;
    }

    method LexDigits() returns (num: string, isFloat: bool, isRange: bool)
      requires charPtr < |code|
      modifies this`charPtr, this`curCol
      ensures Scan(charPtr, num, isFloat, isRange) == ScanNumber(code, old(charPtr))
      ensures charPtr >= old(charPtr) && Cur() == Eat(old(Cur()), charPtr - old(charPtr))
    {
      var a, b := code[charPtr], CharAt(code, charPtr + 1);
      isFloat, isRange := false, false;
      if a == '0' && (b == 'b' || b == 'B') {
        num := LexPrefixed(IsBinary);
      } else if a == '0' && (b == 'x' || b == 'X') {
        num := LexPrefixed(IsHex);
      } else if a == '0' && (b == 'o' || b == 'O') {
        num := LexPrefixed(IsOctal);
      } else {
        EatChar(1);
        num, isFloat, isRange := LexDecimal(a);
      }
    }

    method LexNumber()
      requires charPtr < |code|
      modifies this
      ensures StateOf() == NumberLiteral(code, old(StateOf()))
    {
      var num, isFloat, isRange := LexDigits();
      ghost var scan := ScanNumber(code, old(charPtr));
      var appendDot := EndsInDot(num);
      if appendDot {
        num := num[..|num| - 1];
      }
      var line, col := curLine, curCol - |num|;
      var sign := Signedness(CharAt(code, charPtr));
      EatChar(|sign|);
      var long := Long(CharAt(code, charPtr));
      EatChar(|long|);
      Add(Token(if isFloat && !appendDot then VALUE_FLOAT else VALUE_NUMBER, line, col, sign + long + num), old(Cur()));
      assert StateOf() == NumberToken(code, old(StateOf()), scan);
      AddDots(isRange, appendDot);
    }

    method AddDots(isRange: bool, appendDot: bool)
      modifies this
      ensures StateOf() == Dots(old(StateOf()), isRange, appendDot)
    {
      if isRange {
        ConsumeToken(Sym(SYM_DOT), 1, false);
        ConsumeToken(Sym(SYM_DOT), 1, false);
        StepBack();
      }
      if appendDot {
        ConsumeToken(Sym(SYM_DOT), 1, false);
        StepBack();
      }
    }

    /** The chain of comparisons with the keywords. */
    method FindWord(identifier: string, ghost words: string -> Kind) returns (kind: Kind)
      requires IsChain(words)
      ensures kind == words(identifier)
    {
      assert IsWordKindAt(words, identifier);
      var i := 0;
      while i < |KEYWORDS|
        invariant i <= |KEYWORDS|
        invariant SpelledAt(identifier, KEYWORDS, KeywordText, 0) == SpelledAt(identifier, KEYWORDS, KeywordText, i)
      {
        if identifier == KeywordText(KEYWORDS[i]) {
          return Kword(KEYWORDS[i]);
        }
        i := i + 1;
      }
      return if identifier == "true" || identifier == "false" then VALUE_BOOL else IDENTIFIER;
    }

    method LexWord(ghost words: string -> Kind)
      requires charPtr < |code| && IsChain(words)
      modifies this
      ensures StateOf() == WordLiteral(code, old(StateOf()), words)
    {
      var identifier := EatWhile(IsWord);
      var kind := FindWord(identifier, words);
      Add(Token(kind, curLine, curCol - |identifier|, identifier), old(Cur()));
    }

    // The loop

    method LexPunctuation(symbols: seq<(Symbol, nat)>)
      modifies this
      ensures StateOf() == ConsumeAll(old(StateOf()), symbols)
    {
      var i := 0;
      assert symbols[0..] == symbols;
      while i < |symbols|
        invariant i <= |symbols|
        invariant ConsumeAll(StateOf(), symbols[i..]) == ConsumeAll(old(StateOf()), symbols)
      {
        assert symbols[i..][1..] == symbols[i + 1..];
        ConsumeToken(Sym(symbols[i].0), symbols[i].1, true);
        i := i + 1;
      }
    }

    /** One round of the loop. */
    method LexOne(ghost words: string -> Kind) returns (error: Option<LexError>)
      requires charPtr < |code| && IsChain(words)
      modifies this
      ensures match Step(code, old(StateOf()), words)
              case Ok(s) => error == None && StateOf() == s
              case Err(e) => error == Some(e)
    {
      error := None;
      var a, b, c := code[charPtr], CharAt(code, charPtr + 1), CharAt(code, charPtr + 2);
      if a == '\0' {
        ConsumeToken(EOF, 1, true);
      } else if a == ' ' || a == '\t' {
        EatChar(1);
      } else if a == '\n' {
        EatNewline();
      } else if a == '/' && b == '/' {
        LexLineComment();
      } else if a == '/' && b == '*' {
        EatChar(2);
        error := LexBlockComment();
      } else if Punctuation(a, b, c) != [] {
        LexPunctuation(Punctuation(a, b, c));
      } else {
        error := LexLiteral(words);
      }
    }

    method LexLiteral(ghost words: string -> Kind) returns (error: Option<LexError>)
      requires charPtr < |code| && IsChain(words)
      requires var a, b := code[charPtr], CharAt(code, charPtr + 1);
        a != '\0' && a != ' ' && a != '\t' && a != '\n' && !(a == '/' && (b == '/' || b == '*'))
        && Punctuation(a, b, CharAt(code, charPtr + 2)) == []
      modifies this
      ensures match Step(code, old(StateOf()), words)
              case Ok(s) => error == None && StateOf() == s
              case Err(e) => error == Some(e)
    {
      error := None;
      var a, b := code[charPtr], CharAt(code, charPtr + 1);
      if a == '\'' {
        error := LexChar();
      } else if a == '"' {
        error := LexString();
      } else if a == '.' && IsNum(b) {
        LexFloat();
      } else if IsNum(a) {
        LexNumber();
      } else if IsText(a) {
        LexWord(words);
      } else if a == '.' {
        ConsumeToken(Sym(SYM_DOT), 1, true);
      } else {
        error := Some(SyntaxError);
      }
    }

    /** The whole source, from the start. */
    method Tokenize() returns (error: Option<LexError>)
      requires StateOf() == START
      modifies this
      ensures match Lex(code)
              case Ok(s) => error == None && tokens == s.tokens && marks == s.marks
              case Err(e) => error == Some(e)
    {
      if |code| == 0 {
        return None;
      }
      WordKindIsChain();
      while charPtr < |code|
        invariant Run(code, START, WordKind) == Run(code, StateOf(), WordKind)
        decreases |code| - charPtr
      {
        StepAdvances(code, StateOf(), WordKind);
        error := LexOne(WordKind);
        if error.Some? {
          return;
        }
      }
      if |tokens| == 0 || tokens[|tokens| - 1].kind != EOF {
        ConsumeToken(EOF, 0, true);
      }
      return None;
    }
  }
}
