/**
 Printing tokens and lexing the text gives the tokens back.
 */
module LexerPrinting {
  import opened Wrappers
  import opened Tokens
  import opened Lexer

  predicate IsWordText(text: string) {
    text != "" && IsText(text[0]) && forall i :: 0 <= i < |text| ==> IsWord(text[i])
  }

  /** Symbols, keywords, and identifiers that are neither keywords nor `true` or `false`. */
  predicate Printable(t: Token, words: string -> Kind) {
    t.kind.Sym? || t.kind.Kword? || (t.kind.IDENTIFIER? && IsWordText(t.value) && words(t.value) == IDENTIFIER)
  }

  predicate Recognises(words: string -> Kind, k: Keyword) {
    words(KeywordText(k)) == Kword(k)
  }

  ghost predicate RecognisesKeywords(words: string -> Kind) {
    forall k :: Recognises(words, k)
  }

  /** The same but for position. */
  predicate Same(t: Token, u: Token) {
    t.kind == u.kind && (t.kind.IDENTIFIER? ==> t.value == u.value)
  }

  ghost predicate SameAll(ts: seq<Token>, us: seq<Token>) {
    |ts| == |us| && forall i :: 0 <= i < |ts| ==> Same(ts[i], us[i])
  }

  /** The texts with a blank between them. */
  function PrintAll(ts: seq<Token>): string {
    if ts == [] then ""
    else if |ts| == 1 then Text(ts[0])
    else Text(ts[0]) + (" " + PrintAll(ts[1..]))
  }

  // Words

  lemma KeywordIsWord(k: Keyword)
    ensures IsWordText(KeywordText(k))
  {
    if PlaceOf(k) < 14 {
      FirstAreWords(k);
    } else if PlaceOf(k) < 28 {
      SecondAreWords(k);
    } else {
      ThirdAreWords(k);
    }
  }

  lemma FirstAreWords(k: Keyword)
    requires PlaceOf(k) < 14
    ensures IsWordText(KeywordText(k))
  {
  }

  lemma SecondAreWords(k: Keyword)
    requires 14 <= PlaceOf(k) < 28
    ensures IsWordText(KeywordText(k))
  {
  }

  lemma ThirdAreWords(k: Keyword)
    requires 28 <= PlaceOf(k)
    ensures IsWordText(KeywordText(k))
  {
  }

  lemma {:induction false} RunEndIs(code: string, p: nat, q: nat, run: char -> bool)
    requires p <= q <= |code| && forall i :: p <= i < q ==> run(code[i])
    requires q < |code| ==> !run(code[q])
    ensures RunEnd(code, p, run) == q
    decreases q - p
  {
    if p < q {
      RunEndIs(code, p + 1, q, run);
    }
  }

  lemma NoPunctuation(a: char, b: char, c: char)
    requires IsText(a) || a == '.'
    ensures Punctuation(a, b, c) == []
  {
  }

  /** What stands at the cursor: a text and then nothing or a blank. */
  predicate Stands(code: string, p: nat, text: string) {
    && p + |text| <= |code| && code[p..p + |text|] == text
    && (p + |text| < |code| ==> code[p + |text|] == ' ')
  }

  lemma CharIn(code: string, p: nat, text: string, i: nat)
    requires Stands(code, p, text) && i < |text|
    ensures code[p + i] == text[i]
  {
    assert code[p..p + |text|][i] == text[i];
  }

  // One token

  lemma WordStep(code: string, s: State, words: string -> Kind)
    requires s.cur.ptr < |code| && IsText(code[s.cur.ptr])
    ensures Step(code, s, words) == Ok(WordLiteral(code, s, words))
  {
    var p := s.cur.ptr;
    NoPunctuation(code[p], CharAt(code, p + 1), CharAt(code, p + 2));
  }

  lemma WordEnds(code: string, p: nat, text: string)
    requires IsWordText(text) && Stands(code, p, text)
    ensures RunEnd(code, p, IsWord) == p + |text| && IsText(code[p])
  {
    forall i | p <= i < p + |text|
      ensures IsWord(code[i])
    {
      CharIn(code, p, text, i - p);
    }
    CharIn(code, p, text, 0);
    RunEndIs(code, p, p + |text|, IsWord);
  }

  lemma WordRead(code: string, s: State, words: string -> Kind, text: string)
    requires IsWordText(text) && Stands(code, s.cur.ptr, text)
    ensures Step(code, s, words) == Ok(Record(s, Eat(s.cur, |text|), Token(words(text), s.cur.line, s.cur.col, text)))
  {
    WordEnds(code, s.cur.ptr, text);
    WordStep(code, s, words);
    WordRecorded(code, s, words, text);
  }

  lemma WordRecorded(code: string, s: State, words: string -> Kind, text: string)
    requires s.cur.ptr + |text| <= |code| && s.cur.ptr < |code|
    requires code[s.cur.ptr..s.cur.ptr + |text|] == text && RunEnd(code, s.cur.ptr, IsWord) == s.cur.ptr + |text|
    ensures WordLiteral(code, s, words)
      == Record(s, Eat(s.cur, |text|), Token(words(text), s.cur.line, s.cur.col, text))
  {
  }

  lemma SymbolChars(code: string, p: nat, symbol: Symbol)
    requires Stands(code, p, SymbolText(symbol)) && symbol != SYM_DOT
    ensures Punctuation(code[p], CharAt(code, p + 1), CharAt(code, p + 2)) == [(symbol, |SymbolText(symbol)|)]
  {
    var text := SymbolText(symbol);
    CharIn(code, p, text, 0);
    if |text| > 1 {
      CharIn(code, p, text, 1);
    }
    if |text| > 2 {
      CharIn(code, p, text, 2);
    }
    SymbolRead(symbol, CharAt(code, p + 1), CharAt(code, p + 2));
  }

  /** A symbol is neither blank, end, nor the beginning of a comment. */
  lemma SymbolNoBlank(a: char, b: char, c: char)
    requires Punctuation(a, b, c) != []
    ensures a != '\0' && a != ' ' && a != '\t' && a != '\n' && !(a == '/' && (b == '/' || b == '*'))
  {
  }

  lemma SymbolStep(code: string, s: State, words: string -> Kind, symbol: Symbol)
    requires Stands(code, s.cur.ptr, SymbolText(symbol)) && symbol != SYM_DOT
    ensures Step(code, s, words) == Ok(Consume(s, Sym(symbol), |SymbolText(symbol)|, true))
  {
    var p := s.cur.ptr;
    SymbolChars(code, p, symbol);
    SymbolNoBlank(code[p], CharAt(code, p + 1), CharAt(code, p + 2));
    var one: seq<(Symbol, nat)> := [(symbol, |SymbolText(symbol)|)];
    assert |one[1..]| == 0;
    assert ConsumeAll(s, one) == Consume(s, Sym(symbol), |SymbolText(symbol)|, true);
  }

  lemma DotStep(code: string, s: State, words: string -> Kind)
    requires Stands(code, s.cur.ptr, ".")
    ensures Step(code, s, words) == Ok(Consume(s, Sym(SYM_DOT), 1, true))
  {
    CharIn(code, s.cur.ptr, ".", 0);
    NoPunctuation('.', CharAt(code, s.cur.ptr + 1), CharAt(code, s.cur.ptr + 2));
  }

  lemma TokenRead(code: string, s: State, words: string -> Kind, t: Token)
    requires RecognisesKeywords(words)
    requires Printable(t, words) && Stands(code, s.cur.ptr, Text(t))
    ensures s.cur.ptr < |code| && Step(code, s, words).Ok?
    ensures var s' := Step(code, s, words).value;
      && s'.cur.ptr == s.cur.ptr + |Text(t)|
      && |s'.tokens| == |s.tokens| + 1 && s'.tokens[..|s.tokens|] == s.tokens
      && Same(s'.tokens[|s.tokens|], t)
  {
    match t.kind
    case Sym(symbol) =>
      if symbol == SYM_DOT {
        DotStep(code, s, words);
      } else {
        SymbolStep(code, s, words, symbol);
      }
    case Kword(k) =>
      KeywordIsWord(k);
      assert Recognises(words, k);
      WordRead(code, s, words, KeywordText(k));
    case IDENTIFIER =>
      WordRead(code, s, words, t.value);
  }

  // All tokens

  lemma PrintedStands(code: string, p: nat, ts: seq<Token>)
    requires p <= |code| && ts != [] && code[p..] == PrintAll(ts)
    ensures Stands(code, p, Text(ts[0]))
    ensures |ts| > 1 ==> var q := p + |Text(ts[0])|; q < |code| && code[q] == ' ' && code[q + 1..] == PrintAll(ts[1..])
    ensures |ts| == 1 ==> p + |Text(ts[0])| == |code|
  {
    var text := Text(ts[0]);
    assert code[p..][..|text|] == text == code[p..p + |text|];
    if |ts| > 1 {
      var q := p + |text|;
      assert code[p..][|text|..] == " " + PrintAll(ts[1..]) == code[q..];
      assert code[q..][1..] == PrintAll(ts[1..]) == code[q + 1..];
    }
  }

  lemma {:induction false} RunReads(code: string, s: State, words: string -> Kind, ts: seq<Token>)
    requires RecognisesKeywords(words)
    requires s.cur.ptr <= |code| && ts != [] && code[s.cur.ptr..] == PrintAll(ts)
    requires forall i :: 0 <= i < |ts| ==> Printable(ts[i], words)
    ensures Run(code, s, words).Ok?
    ensures var out := Run(code, s, words).value.tokens;
      |out| == |s.tokens| + |ts| && out[..|s.tokens|] == s.tokens && SameAll(out[|s.tokens|..], ts)
    decreases |ts|
  {
    PrintedStands(code, s.cur.ptr, ts);
    TokenRead(code, s, words, ts[0]);
    var s1 := Step(code, s, words).value;
    StepAdvances(code, s, words);
    if |ts| == 1 {
      RunOnce(code, s, words);
      assert s1.tokens[|s.tokens|..] == [s1.tokens[|s.tokens|]];
    } else {
      var s2 := s1.(cur := Eat(s1.cur, 1));
      assert Step(code, s1, words) == Ok(s2);
      RunReads(code, s2, words, ts[1..]);
      RunOnce(code, s, words);
      RunOnce(code, s1, words);
      FirstThenRest(s.tokens, s1.tokens, Run(code, s2, words).value.tokens, ts);
    }
  }

  lemma RunOnce(code: string, s: State, words: string -> Kind)
    requires s.cur.ptr < |code| && Step(code, s, words).Ok?
    ensures Run(code, s, words) == Run(code, Step(code, s, words).value, words)
  {
    StepAdvances(code, s, words);
  }

  lemma FirstThenRest(before: seq<Token>, first: seq<Token>, out: seq<Token>, ts: seq<Token>)
    requires |ts| > 1 && |first| == |before| + 1 && first[..|before|] == before && Same(first[|before|], ts[0])
    requires |out| == |first| + |ts| - 1 && out[..|first|] == first && SameAll(out[|first|..], ts[1..])
    ensures out[..|before|] == before && SameAll(out[|before|..], ts)
  {
    assert out[|before|] == first[|before|];
    forall i | 0 <= i < |ts|
      ensures Same(out[|before|..][i], ts[i])
    {
      if i > 0 {
        assert Same(out[|first|..][i - 1], ts[1..][i - 1]);
      }
    }
  }

  lemma PrintThenLexWith(ts: seq<Token>, words: string -> Kind)
    requires RecognisesKeywords(words) && ts != []
    requires forall i :: 0 <= i < |ts| ==> Printable(ts[i], words)
    ensures LexWith(PrintAll(ts), words).Ok?
    ensures var out := LexWith(PrintAll(ts), words).value.tokens;
      |out| == |ts| + 1 && SameAll(out[..|ts|], ts) && out[|ts|].kind == EOF
  {
    var code := PrintAll(ts);
    assert code[0..] == code;
    NotEmpty(ts, words);
    RunReads(code, START, words, ts);
    var s := Run(code, START, words).value;
    assert s.tokens[|START.tokens|..] == s.tokens;
    assert Same(s.tokens[|ts| - 1], ts[|ts| - 1]) && Printable(ts[|ts| - 1], words);
    assert (s.tokens + [Token(EOF, s.cur.line, s.cur.col, "")])[..|ts|] == s.tokens;
  }

  lemma NotEmpty(ts: seq<Token>, words: string -> Kind)
    requires ts != [] && Printable(ts[0], words)
    ensures PrintAll(ts) != ""
  {
    if ts[0].kind.Kword? {
      KeywordIsWord(ts[0].kind.keyword);
    }
    assert Text(ts[0]) != "";
  }

  /** Lexing the printed tokens gives the tokens and an end token; for no tokens it gives none at all. */
  lemma PrintThenLex(ts: seq<Token>)
    requires forall i :: 0 <= i < |ts| ==> Printable(ts[i], WordKind)
    ensures Lex(PrintAll(ts)).Ok?
    ensures var out := Lex(PrintAll(ts)).value.tokens;
      if ts == [] then out == []
      else |out| == |ts| + 1 && SameAll(out[..|ts|], ts) && out[|ts|].kind == EOF
  {
    if ts != [] {
      forall k
        ensures Recognises(WordKind, k)
      {
        KeywordRecognised(k);
      }
      PrintThenLexWith(ts, WordKind);
    }
  }
}
