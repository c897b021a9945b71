/** Which sources end in an end token, and where else one is recorded. */
module LexerEnd {
  import opened Tokens
  import opened Lexer

  /** An end token is recorded at a zero character, or it is the last one and the source has been read. */
  predicate EndAllowed(code: string, s: State, i: nat)
    requires i < |s.tokens| && i < |s.marks|
  {
    s.tokens[i].kind == EOF ==>
      || (s.marks[i].start < |code| && code[s.marks[i].start] == '\0')
      || (i == |s.tokens| - 1 && s.cur.ptr > |code|)
  }

  ghost predicate EndsAllowed(code: string, s: State) {
    |s.marks| == |s.tokens| && forall i :: 0 <= i < |s.tokens| ==> EndAllowed(code, s, i)
  }

  /** `s'` has the tokens of `s` and then others, none of which is an end token. */
  ghost predicate Extends(s: State, s': State) {
    && |s.tokens| <= |s'.tokens| && |s'.marks| == |s'.tokens| && |s.marks| == |s.tokens|
    && s'.tokens[..|s.tokens|] == s.tokens && s'.marks[..|s.marks|] == s.marks
    && forall i :: |s.tokens| <= i < |s'.tokens| ==> s'.tokens[i].kind != EOF
  }

  lemma ExtensionAllowed(code: string, s: State, s': State)
    requires EndsAllowed(code, s) && s.cur.ptr <= |code| && Extends(s, s')
    ensures EndsAllowed(code, s')
  {
    forall i | 0 <= i < |s'.tokens|
      ensures EndAllowed(code, s', i)
    {
      if i < |s.tokens| {
        assert EndAllowed(code, s, i);
        assert s'.tokens[..|s.tokens|][i] == s'.tokens[i] && s'.marks[..|s.marks|][i] == s'.marks[i];
      }
    }
  }

  /** An end token recorded at a zero character or behind the source. */
  lemma EndRecorded(code: string, s: State)
    requires EndsAllowed(code, s) && s.cur.ptr <= |code| && CharAt(code, s.cur.ptr) == '\0'
    ensures EndsAllowed(code, Consume(s, EOF, 1, true))
  {
    var s' := Consume(s, EOF, 1, true);
    forall i | 0 <= i < |s'.tokens|
      ensures EndAllowed(code, s', i)
    {
      if i < |s.tokens| {
        assert EndAllowed(code, s, i);
      }
    }
  }

  lemma {:induction false} SymbolsExtend(s: State, symbols: seq<(Symbol, nat)>)
    requires |s.marks| == |s.tokens|
    ensures Extends(s, ConsumeAll(s, symbols))
    decreases |symbols|
  {
    if symbols != [] {
      var s1 := Consume(s, Sym(symbols[0].0), symbols[0].1, true);
      SymbolsExtend(s1, symbols[1..]);
      ExtendsTwice(s, s1, ConsumeAll(s, symbols));
    }
  }

  lemma ExtendsTwice(s: State, s1: State, s2: State)
    requires Extends(s, s1) && Extends(s1, s2)
    ensures Extends(s, s2)
  {
    assert s2.tokens[..|s.tokens|] == s2.tokens[..|s1.tokens|][..|s.tokens|];
    assert s2.marks[..|s.marks|] == s2.marks[..|s1.marks|][..|s.marks|];
    forall i | |s.tokens| <= i < |s2.tokens|
      ensures s2.tokens[i].kind != EOF
    {
      if i < |s1.tokens| {
        assert s2.tokens[..|s1.tokens|][i] == s1.tokens[i];
      }
    }
  }

  lemma NumberExtends(code: string, s: State)
    requires s.cur.ptr < |code| && |s.marks| == |s.tokens|
    ensures Extends(s, NumberLiteral(code, s))
  {
    var scan := ScanNumber(code, s.cur.ptr);
    var s1 := NumberToken(code, s, scan);
    assert Extends(s, s1);
    DotsExtend(s1, scan.isRange, EndsInDot(scan.num));
    ExtendsTwice(s, s1, NumberLiteral(code, s));
  }

  lemma DotsExtend(s: State, isRange: bool, appendDot: bool)
    requires |s.marks| == |s.tokens|
    ensures Extends(s, Dots(s, isRange, appendDot))
  {
  }

  lemma LineCommentAllowed(code: string, s: State)
    requires EndsAllowed(code, s) && s.cur.ptr < |code|
    ensures EndsAllowed(code, LineComment(code, s))
  {
    var q := RunEnd(code, s.cur.ptr, InLine);
    var s' := s.(cur := Eat(s.cur, q - s.cur.ptr));
    ExtensionAllowed(code, s, s');
    if CharAt(code, q) == '\n' {
      ExtensionAllowed(code, s, s'.(cur := EatLine(s'.cur)));
    } else {
      EndRecorded(code, s');
    }
  }

  ghost predicate NoEndWord(words: string -> Kind) {
    forall word :: words(word) != EOF
  }

  /** Whatever begins here, but for a zero character and a line comment. */
  lemma DispatchExtends(code: string, s: State, words: string -> Kind, symbols: seq<(Symbol, nat)>)
    requires NoEndWord(words) && |s.marks| == |s.tokens| && s.cur.ptr < |code|
    requires var a, b := code[s.cur.ptr], CharAt(code, s.cur.ptr + 1); a != '\0' && !(a == '/' && b == '/')
    ensures var r := Dispatch(code, s, words, symbols); r.Ok? ==> Extends(s, r.value)
  {
    var a, b := code[s.cur.ptr], CharAt(code, s.cur.ptr + 1);
    if a == ' ' || a == '\t' || a == '\n' || (a == '/' && b == '*') {
    } else if symbols != [] {
      SymbolsExtend(s, symbols);
    } else if !(a == '.' && IsNum(b)) && IsNum(a) {
      NumberExtends(code, s);
    }
  }

  lemma StepAllowed(code: string, s: State, words: string -> Kind)
    requires NoEndWord(words) && EndsAllowed(code, s) && s.cur.ptr < |code|
    ensures Step(code, s, words).Ok? ==> EndsAllowed(code, Step(code, s, words).value)
  {
    var p := s.cur.ptr;
    DispatchAllowed(code, s, words, Punctuation(code[p], CharAt(code, p + 1), CharAt(code, p + 2)));
  }

  lemma DispatchAllowed(code: string, s: State, words: string -> Kind, symbols: seq<(Symbol, nat)>)
    requires NoEndWord(words) && EndsAllowed(code, s) && s.cur.ptr < |code|
    ensures var r := Dispatch(code, s, words, symbols); r.Ok? ==> EndsAllowed(code, r.value)
  {
    var a, b := code[s.cur.ptr], CharAt(code, s.cur.ptr + 1);
    if a == '\0' {
      EndRecorded(code, s);
    } else if a == '/' && b == '/' {
      LineCommentAllowed(code, s);
    } else {
      DispatchExtends(code, s, words, symbols);
      var r := Dispatch(code, s, words, symbols);
      if r.Ok? {
        ExtensionAllowed(code, s, r.value);
      }
    }
  }

  lemma {:induction false} RunAllowed(code: string, s: State, words: string -> Kind)
    requires NoEndWord(words) && EndsAllowed(code, s)
    ensures Run(code, s, words).Ok? ==> EndsAllowed(code, Run(code, s, words).value)
    decreases |code| - s.cur.ptr
  {
    if s.cur.ptr < |code| {
      StepAdvances(code, s, words);
      StepAllowed(code, s, words);
      if Step(code, s, words).Ok? {
        RunAllowed(code, Step(code, s, words).value, words);
      }
    }
  }

  lemma LexedWithEnd(code: string, words: string -> Kind)
    requires NoEndWord(words) && LexWith(code, words).Ok?
    ensures var s := LexWith(code, words).value;
      && (s.tokens == [] <==> code == "")
      && (code != "" ==> s.tokens[|s.tokens| - 1].kind == EOF)
      && |s.marks| == |s.tokens|
      && forall i :: 0 <= i < |s.tokens| - 1 ==> EndAllowed(code, s, i)
  {
    if code != "" {
      RunAllowed(code, START, words);
      var s := Run(code, START, words).value;
      forall i | 0 <= i < |Finish(s).tokens| - 1
        ensures EndAllowed(code, Finish(s), i)
      {
        assert EndAllowed(code, s, i);
      }
    }
  }

  /**
   Every source that lexes and is not empty gives tokens of which the last is an end token, an empty
   one gives none. An end token elsewhere stands for a zero character.
   */
  lemma LexedEnd(code: string)
    requires Lex(code).Ok?
    ensures var s := Lex(code).value;
      && (s.tokens == [] <==> code == "")
      && (code != "" ==> s.tokens[|s.tokens| - 1].kind == EOF)
      && |s.marks| == |s.tokens|
      && forall i :: 0 <= i < |s.tokens| - 1 && s.tokens[i].kind == EOF ==>
           s.marks[i].start < |code| && code[s.marks[i].start] == '\0'
  {
    forall word
      ensures WordKind(word) != EOF
    {
      WordIsNoEnd(word);
    }
    LexedWithEnd(code, WordKind);
    var s := Lex(code).value;
    forall i | 0 <= i < |s.tokens| - 1 && s.tokens[i].kind == EOF
      ensures s.marks[i].start < |code| && code[s.marks[i].start] == '\0'
    {
      assert EndAllowed(code, s, i);
    }
  }

  lemma WordIsNoEnd(word: string)
    ensures WordKind(word) != EOF
  {
  }
}
