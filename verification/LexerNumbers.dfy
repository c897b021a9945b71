/**
 What the tokens recorded for a number spell. A second dot after a fraction is taken for a range; the
 character erased then is meant to be the first dot and is the last digit of the fraction.
 */
module LexerNumbers {
  import opened Tokens
  import opened Lexer

  // What is recorded

  /** The digits recorded, without the suffix letters that are put in front of them. */
  function Kept(scan: Scan): string {
    if EndsInDot(scan.num) then scan.num[..|scan.num| - 1] else scan.num
  }

  function DotsRecorded(scan: Scan): nat {
    (if scan.isRange then 2 else 0) + (if EndsInDot(scan.num) then 1 else 0)
  }

  function Dotted(n: nat): string {
    seq(n, _ => '.')
  }

  /** The text a number takes: up to the end of its scan, and the second dot of a range. */
  function Passed(code: string, p: nat, scan: Scan): string
    requires p <= scan.end <= |code| && (scan.isRange ==> scan.end < |code|)
  {
    code[p..scan.end + if scan.isRange then 1 else 0]
  }

  /** The letters behind a number. */
  function Suffix(code: string, q: nat): string {
    var sign := if CharAt(code, q) in "uU" then "u" else if CharAt(code, q) in "iI" then "i" else "";
    sign + if CharAt(code, q + |sign|) in "lL" then "l" else ""
  }

  lemma SuffixRead(code: string, q: nat)
    ensures var sign := Signedness(CharAt(code, q)); Suffix(code, q) == sign + Long(CharAt(code, q + |sign|))
  {
  }

  lemma DotsGiven(s: State, isRange: bool, appendDot: bool)
    ensures var s' := Dots(s, isRange, appendDot);
      && s'.cur.ptr == s.cur.ptr + (if isRange then 1 else 0)
      && |s'.tokens| == |s.tokens| + (if isRange then 2 else 0) + (if appendDot then 1 else 0)
      && s.tokens <= s'.tokens
      && forall i :: |s.tokens| <= i < |s'.tokens| ==> s'.tokens[i].kind == Sym(SYM_DOT)
  {
  }

  /** The tokens of a number: its digits behind the suffix letters, and the dots. The lexer stands behind
      the suffix, or behind the second dot of a range. */
  lemma NumberTokens(code: string, s: State, scan: Scan)
    requires s.cur.ptr < |code| && scan == ScanNumber(code, s.cur.ptr) && scan.end >= s.cur.ptr
    ensures var s' := NumberLiteral(code, s);
      && s'.cur.ptr == scan.end + |Suffix(code, scan.end)| + (if scan.isRange then 1 else 0)
      && |s'.tokens| == |s.tokens| + 1 + DotsRecorded(scan)
      && s'.tokens[|s.tokens|].value == Suffix(code, scan.end) + Kept(scan)
      && forall i :: |s.tokens| < i < |s'.tokens| ==> s'.tokens[i].kind == Sym(SYM_DOT)
  {
    var s1 := NumberToken(code, s, scan);
    SuffixRead(code, scan.end);
    assert s1.tokens[|s.tokens|].value == Suffix(code, scan.end) + Kept(scan);
    DotsGiven(s1, scan.isRange, EndsInDot(scan.num));
  }

  // What is passed

  predicate HasBase(code: string, p: nat)
    requires p < |code|
  {
    code[p] == '0' && CharAt(code, p + 1) in ['b', 'B', 'x', 'X', 'o', 'O']
  }

  /** Digits, a dot, at least one digit, and a second dot. */
  predicate FractionThenDot(code: string, p: nat)
    requires p < |code|
  {
    && !HasBase(code, p)
    && var q := RunEnd(code, p, IsNum);
       && CharAt(code, q) == '.'
       && var f := RunEnd(code, q + 1, IsNum);
          f > q + 1 && CharAt(code, f) == '.'
  }

  lemma RunText(num: string, code: string, p: nat, q: nat)
    requires p < q <= |code|
    ensures [code[p]] + code[p + 1..q] == code[p..q]
    ensures num + [code[p]] + code[p + 1..q] == num + code[p..q]
  {
    assert [code[p]] + code[p + 1..q] == code[p..q];
  }

  lemma {:induction false} FractionScan(code: string, p: nat, num: string)
    requires num != [] && p <= |code|
    ensures var f := RunEnd(code, p, IsNum);
      var text := num + code[p..f];
      ScanDecimal(code, p, num, true)
      == if CharAt(code, f) == '.' then Scan(f, text[..|text| - 1], false, true) else Scan(f, text, true, false)
    decreases |code| - p
  {
    if p < |code| && IsNum(code[p]) {
      FractionScan(code, p + 1, num + [code[p]]);
      var f := RunEnd(code, p, IsNum);
      RunText(num, code, p, f);
    } else {
      assert num + code[p..p] == num;
    }
  }

  lemma {:induction false} IntegerScan(code: string, p: nat, num: string)
    requires num != [] && p <= |code|
    ensures var q := RunEnd(code, p, IsNum);
      var text := num + code[p..q];
      ScanDecimal(code, p, num, false)
      == if CharAt(code, q) == '.' then ScanDecimal(code, q + 1, text + ['.'], true) else Scan(q, text, false, false)
    decreases |code| - p
  {
    if p < |code| && IsNum(code[p]) {
      IntegerScan(code, p + 1, num + [code[p]]);
      var q := RunEnd(code, p, IsNum);
      RunText(num, code, p, q);
    } else {
      assert num + code[p..p] == num;
    }
  }

  lemma PrefixedSpells(code: string, p: nat, digits: char -> bool)
    requires p + 1 < |code| && code[p + 1] != '.' && !digits('.')
    ensures var scan := Prefixed(code, p, digits);
      scan.end <= |code| && !scan.isRange && Kept(scan) == Passed(code, p, scan) && DotsRecorded(scan) == 0
  {
    var q := RunEnd(code, p + 2, digits);
    var num := code[p..q];
    assert num[|num| - 1] == code[q - 1];
  }

  lemma BaseSpelled(code: string, p: nat, scan: Scan)
    requires p < |code| && HasBase(code, p) && scan == ScanNumber(code, p)
    ensures p < scan.end <= |code| && !scan.isRange
    ensures Kept(scan) == Passed(code, p, scan) && DotsRecorded(scan) == 0
  {
    var b := CharAt(code, p + 1);
    PrefixedSpells(code, p, if b == 'b' || b == 'B' then IsBinary else if b == 'x' || b == 'X' then IsHex else IsOctal);
  }

  /** A decimal number by the ends of its two runs of digits. */
  lemma DecimalScan(code: string, p: nat, q: nat, f: nat)
    requires p < |code| && IsNum(code[p]) && q == RunEnd(code, p, IsNum) && f == RunEnd(code, q + 1, IsNum)
    ensures p < q <= |code|
    ensures ScanDecimal(code, p + 1, [code[p]], false) ==
      if CharAt(code, q) != '.' then Scan(q, code[p..q], false, false)
      else if CharAt(code, f) == '.' then Scan(f, code[p..f - 1], false, true)
      else Scan(f, code[p..f], true, false)
  {
    IntegerScan(code, p + 1, [code[p]]);
    RunText([], code, p, q);
    if CharAt(code, q) == '.' {
      FractionBehind(code, p, q, f);
    }
  }

  lemma FractionBehind(code: string, p: nat, q: nat, f: nat)
    requires p < q < |code| && code[q] == '.' && f == RunEnd(code, q + 1, IsNum)
    ensures ScanDecimal(code, q + 1, code[p..q] + ['.'], true)
      == if CharAt(code, f) == '.' then Scan(f, code[p..f - 1], false, true) else Scan(f, code[p..f], true, false)
  {
    FractionScan(code, q + 1, code[p..q] + ['.']);
    FractionText(code, p, q, f);
  }

  lemma FractionText(code: string, p: nat, q: nat, f: nat)
    requires p < q < f <= |code| && code[q] == '.'
    ensures code[p..q] + ['.'] + code[q + 1..f] == code[p..f] && code[p..f][..f - p - 1] == code[p..f - 1]
  {
  }

  /** Behind the last digit of a run there is no dot, and behind the dot of an empty fraction there is one. */
  lemma EndOfRun(code: string, p: nat, q: nat, f: nat)
    requires p < |code| && IsNum(code[p]) && q == RunEnd(code, p, IsNum) && f == RunEnd(code, q + 1, IsNum)
    requires CharAt(code, q) == '.'
    ensures p < q < f <= |code| && !EndsInDot(code[p..q]) && EndsInDot(code[p..q + 1])
    ensures f > q + 1 ==> IsNum(code[f - 1]) && !EndsInDot(code[p..f])
    ensures f > q + 2 ==> !EndsInDot(code[p..f - 1])
  {
    assert code[p..q][q - p - 1] == code[q - 1];
    assert code[p..q + 1][q - p] == code[q];
    assert code[p..f][f - p - 1] == code[f - 1];
    if f > q + 2 {
      assert code[p..f - 1][f - p - 2] == code[f - 2];
    }
  }

  /** What is written is what was passed, with a dot instead of the digit before the last dot if it is lost. */
  predicate Renders(written: string, passed: string, lost: bool) {
    && (written == passed <==> !lost)
    && (lost ==> |passed| >= 2 && IsNum(passed[|passed| - 2]) && written == passed[|passed| - 2 := '.'])
  }

  lemma ScanSpelledIff(code: string, p: nat, scan: Scan)
    requires p < |code| && IsNum(code[p]) && scan == ScanNumber(code, p)
    ensures p < scan.end <= |code| && (scan.isRange ==> scan.end < |code| && code[scan.end] == '.')
    ensures Renders(Kept(scan) + Dotted(DotsRecorded(scan)), Passed(code, p, scan), FractionThenDot(code, p))
  {
    if HasBase(code, p) {
      BaseSpelled(code, p, scan);
    } else {
      var q := RunEnd(code, p, IsNum);
      WithoutBase(code, p, q, RunEnd(code, q + 1, IsNum), scan);
    }
  }

  lemma WithoutBase(code: string, p: nat, q: nat, f: nat, scan: Scan)
    requires p < |code| && IsNum(code[p]) && q == RunEnd(code, p, IsNum) && f == RunEnd(code, q + 1, IsNum)
    requires scan == ScanDecimal(code, p + 1, [code[p]], false)
    ensures p < scan.end <= |code| && (scan.isRange ==> scan.end < |code| && code[scan.end] == '.')
    ensures Renders(Kept(scan) + Dotted(DotsRecorded(scan)), Passed(code, p, scan),
                    CharAt(code, q) == '.' && f > q + 1 && CharAt(code, f) == '.')
  {
    DecimalScan(code, p, q, f);
    if CharAt(code, q) != '.' {
      IntegerSpelled(code, p, q);
    } else {
      EndOfRun(code, p, q, f);
      DecimalSpelled(code, p, q, f, scan);
    }
  }

  lemma IntegerSpelled(code: string, p: nat, q: nat)
    requires p < q <= |code| && IsNum(code[q - 1])
    ensures var scan := Scan(q, code[p..q], false, false);
      Renders(Kept(scan) + Dotted(DotsRecorded(scan)), Passed(code, p, scan), false)
  {
    assert code[p..q][q - p - 1] == code[q - 1];
  }

  /** The number has a dot at `q` and digits up to `f`. */
  lemma DecimalSpelled(code: string, p: nat, q: nat, f: nat, scan: Scan)
    requires p < q < f <= |code| && code[q] == '.' && !EndsInDot(code[p..q]) && EndsInDot(code[p..q + 1])
    requires f > q + 1 ==> IsNum(code[f - 1]) && !EndsInDot(code[p..f])
    requires f > q + 2 ==> !EndsInDot(code[p..f - 1])
    requires scan
      == if CharAt(code, f) == '.' then Scan(f, code[p..f - 1], false, true) else Scan(f, code[p..f], true, false)
    ensures scan.isRange ==> f < |code| && code[f] == '.'
    ensures Renders(Kept(scan) + Dotted(DotsRecorded(scan)), Passed(code, p, scan),
                    f > q + 1 && CharAt(code, f) == '.')
  {
    if f == q + 1 {
      EmptyFraction(code, p, q, scan);
    } else if CharAt(code, f) == '.' {
      FractionLosesDigit(code, p, q, f, scan);
      DigitOverwritten(code, p, f);
    }
  }

  lemma EmptyFraction(code: string, p: nat, q: nat, scan: Scan)
    requires p < q < |code| && code[q] == '.' && !EndsInDot(code[p..q]) && EndsInDot(code[p..q + 1])
    requires scan == if CharAt(code, q + 1) == '.' then Scan(q + 1, code[p..q], false, true)
                     else Scan(q + 1, code[p..q + 1], true, false)
    ensures scan.isRange ==> q + 1 < |code|
    ensures Kept(scan) + Dotted(DotsRecorded(scan)) == Passed(code, p, scan)
  {
    assert code[p..q + 1][..q - p] == code[p..q];
  }

  lemma FractionLosesDigit(code: string, p: nat, q: nat, f: nat, scan: Scan)
    requires p < q && q + 1 < f < |code| && code[q] == '.' && EndsInDot(code[p..q + 1])
    requires f > q + 2 ==> !EndsInDot(code[p..f - 1])
    requires scan == Scan(f, code[p..f - 1], false, true)
    ensures Kept(scan) + Dotted(DotsRecorded(scan)) == code[p..f - 1] + ".."
  {
    if f == q + 2 {
      assert code[p..f - 1] == code[p..q] + ".";
    }
  }

  lemma DigitOverwritten(code: string, p: nat, f: nat)
    requires p < f - 1 && f < |code| && code[f] == '.' && IsNum(code[f - 1])
    ensures Renders(code[p..f - 1] + "..", code[p..f + 1], true)
  {
    var passed, written := code[p..f + 1], code[p..f - 1] + "..";
    assert passed[|passed| - 2] == code[f - 1];
    assert written == passed[|passed| - 2 := '.'];
    assert written[|passed| - 2] == '.';
  }

  /** `s'` has a number and dots behind the tokens of `s`; together they render the text from one cursor to
      the other, up to the suffix at `end`. */
  ghost predicate Recorded(code: string, s: State, s': State, end: nat, lost: bool) {
    var n, suffix := |s.tokens|, Suffix(code, end);
    && n < |s'.tokens| && suffix <= s'.tokens[n].value
    && (forall i :: n < i < |s'.tokens| ==> s'.tokens[i].kind == Sym(SYM_DOT))
    && s.cur.ptr <= s'.cur.ptr - |suffix| <= |code|
    && Renders(s'.tokens[n].value[|suffix|..] + Dotted(|s'.tokens| - n - 1),
               code[s.cur.ptr..s'.cur.ptr - |suffix|], lost)
  }

  lemma BehindSuffix(suffix: string, digits: string)
    ensures suffix <= suffix + digits && (suffix + digits)[|suffix|..] == digits
  {
  }

  lemma ScanRecorded(code: string, s: State, s': State, scan: Scan, lost: bool)
    requires s.cur.ptr <= scan.end <= |code| && (scan.isRange ==> scan.end < |code| && code[scan.end] == '.')
    requires Renders(Kept(scan) + Dotted(DotsRecorded(scan)), Passed(code, s.cur.ptr, scan), lost)
    requires s'.cur.ptr == scan.end + |Suffix(code, scan.end)| + (if scan.isRange then 1 else 0)
    requires |s'.tokens| == |s.tokens| + 1 + DotsRecorded(scan)
    requires s'.tokens[|s.tokens|].value == Suffix(code, scan.end) + Kept(scan)
    requires forall i :: |s.tokens| < i < |s'.tokens| ==> s'.tokens[i].kind == Sym(SYM_DOT)
    ensures Recorded(code, s, s', scan.end, lost)
  {
    var suffix := Suffix(code, scan.end);
    BehindSuffix(suffix, Kept(scan));
    assert s'.cur.ptr - |suffix| == scan.end + if scan.isRange then 1 else 0;
    assert code[s.cur.ptr..s'.cur.ptr - |suffix|] == Passed(code, s.cur.ptr, scan);
    assert |s'.tokens| - |s.tokens| - 1 == DotsRecorded(scan);
  }

  /**
   The tokens recorded for a number spell the text up to where the lexer stops, but for the suffix letters,
   if and only if no second dot follows a fraction that has digits. If one does, the last digit of the
   fraction is lost, and a dot is recorded in its place.
   */
  lemma NumberSpelledIff(code: string, s: State)
    requires s.cur.ptr < |code| && IsNum(code[s.cur.ptr])
    ensures Recorded(code, s, NumberLiteral(code, s), ScanNumber(code, s.cur.ptr).end,
                     FractionThenDot(code, s.cur.ptr))
  {
    var scan := ScanNumber(code, s.cur.ptr);
    ScanSpelledIff(code, s.cur.ptr, scan);
    NumberTokens(code, s, scan);
    ScanRecorded(code, s, NumberLiteral(code, s), scan, FractionThenDot(code, s.cur.ptr));
  }

  // The kind of a number

  /** Digits, a dot, at least one digit, and no further dot. */
  predicate ProperFraction(code: string, p: nat)
    requires p < |code|
  {
    && !HasBase(code, p)
    && var q := RunEnd(code, p, IsNum);
       && CharAt(code, q) == '.'
       && var f := RunEnd(code, q + 1, IsNum);
          f > q + 1 && CharAt(code, f) != '.'
  }

  lemma KindRecorded(code: string, s: State, scan: Scan)
    requires s.cur.ptr < |code| && scan == ScanNumber(code, s.cur.ptr) && scan.end >= s.cur.ptr
    ensures var s' := NumberLiteral(code, s);
      && |s'.tokens| > |s.tokens|
      && s'.tokens[|s.tokens|].kind == if scan.isFloat && !EndsInDot(scan.num) then VALUE_FLOAT else VALUE_NUMBER
  {
    DotsGiven(NumberToken(code, s, scan), scan.isRange, EndsInDot(scan.num));
  }

  lemma ScanKindIff(code: string, p: nat, scan: Scan)
    requires p < |code| && IsNum(code[p]) && scan == ScanNumber(code, p)
    ensures scan.isFloat && !EndsInDot(scan.num) <==> ProperFraction(code, p)
    ensures scan.end >= p
  {
    if HasBase(code, p) {
      BaseSpelled(code, p, scan);
      BaseIsInteger(code, p, scan);
    } else {
      var q := RunEnd(code, p, IsNum);
      ScanIsFloat(code, p, q, RunEnd(code, q + 1, IsNum), scan);
    }
  }

  lemma BaseIsInteger(code: string, p: nat, scan: Scan)
    requires p < |code| && HasBase(code, p) && scan == ScanNumber(code, p)
    ensures !scan.isFloat
  {
  }

  lemma ScanIsFloat(code: string, p: nat, q: nat, f: nat, scan: Scan)
    requires p < |code| && IsNum(code[p]) && q == RunEnd(code, p, IsNum) && f == RunEnd(code, q + 1, IsNum)
    requires scan == ScanDecimal(code, p + 1, [code[p]], false)
    ensures scan.isFloat && !EndsInDot(scan.num) <==> CharAt(code, q) == '.' && f > q + 1 && CharAt(code, f) != '.'
  {
    DecimalScan(code, p, q, f);
    if CharAt(code, q) == '.' {
      EndOfRun(code, p, q, f);
    }
  }

  /**
   A number is recorded as a fraction if and only if it has no base prefix, its digits end in a dot, at
   least one digit follows the dot, and no second dot follows these; otherwise as an integer. So 1.5 is a
   fraction, while `1.`, `1..2` and `1.5..` begin with an integer.
   */
  lemma NumberKindIff(code: string, s: State)
    requires s.cur.ptr < |code| && IsNum(code[s.cur.ptr])
    ensures var s' := NumberLiteral(code, s);
      && |s'.tokens| > |s.tokens|
      && s'.tokens[|s.tokens|].kind == if ProperFraction(code, s.cur.ptr) then VALUE_FLOAT else VALUE_NUMBER
  {
    var scan := ScanNumber(code, s.cur.ptr);
    ScanKindIff(code, s.cur.ptr, scan);
    KindRecorded(code, s, scan);
  }

  // Numbers with a base

  /** The digits of the base that the letter behind the zero gives. */
  predicate InBase(letter: char, c: char) {
    || (letter in "bB" && c in "01")
    || (letter in "oO" && c in "01234567")
    || (letter in "xX" && c in "0123456789abcdefABCDEF")
  }

  lemma {:induction false} DigitsEnd(code: string, p: nat, q: nat, run: char -> bool)
    requires p <= q <= |code| && (forall i :: p <= i < q ==> run(code[i])) && (q < |code| ==> !run(code[q]))
    ensures RunEnd(code, p, run) == q
    decreases q - p
  {
    if p < q {
      DigitsEnd(code, p + 1, q, run);
    }
  }

  lemma BaseScan(code: string, p: nat, q: nat)
    requires p + 2 <= q <= |code| && code[p] == '0' && code[p + 1] in "bBoOxX"
    requires (forall i :: p + 2 <= i < q ==> InBase(code[p + 1], code[i])) && !InBase(code[p + 1], CharAt(code, q))
    ensures ScanNumber(code, p) == Scan(q, code[p..q], false, false)
  {
    var b := code[p + 1];
    if b == 'b' || b == 'B' {
      assert forall c :: InBase(b, c) <==> IsBinary(c);
      DigitsEnd(code, p + 2, q, IsBinary);
    } else if b == 'x' || b == 'X' {
      assert forall c :: InBase(b, c) <==> IsHex(c);
      DigitsEnd(code, p + 2, q, IsHex);
    } else {
      assert forall c :: InBase(b, c) <==> IsOctal(c);
      DigitsEnd(code, p + 2, q, IsOctal);
    }
  }

  /** A zero, the letter of a base and all digits of this base that follow are one integer, with the suffix
      letters in front and the column where it begins. */
  lemma BaseNumber(code: string, s: State, q: nat)
    requires var p := s.cur.ptr; p + 2 <= q <= |code| && code[p] == '0' && code[p + 1] in "bBoOxX"
    requires var p := s.cur.ptr;
      (forall i :: p + 2 <= i < q ==> InBase(code[p + 1], code[i])) && !InBase(code[p + 1], CharAt(code, q))
    ensures var s' := NumberLiteral(code, s);
      && s'.cur.ptr == q + |Suffix(code, q)|
      && s'.tokens == s.tokens
        + [Token(VALUE_NUMBER, s.cur.line, s.cur.col, Suffix(code, q) + code[s.cur.ptr..q])]
  {
    var p := s.cur.ptr;
    BaseScan(code, p, q);
    NoDotLast(code, p, q);
    IntegerRecorded(code, s, q, code[p..q]);
  }

  lemma NoDotLast(code: string, p: nat, q: nat)
    requires p + 2 <= q <= |code| && code[p + 1] in "bBoOxX"
    requires forall i :: p + 2 <= i < q ==> InBase(code[p + 1], code[i])
    ensures !EndsInDot(code[p..q])
  {
    assert code[p..q][|code[p..q]| - 1] == code[q - 1];
  }

  lemma IntegerRecorded(code: string, s: State, q: nat, num: string)
    requires s.cur.ptr < |code| && ScanNumber(code, s.cur.ptr) == Scan(q, num, false, false)
    requires q == s.cur.ptr + |num| && !EndsInDot(num)
    ensures NumberLiteral(code, s).cur.ptr == q + |Suffix(code, q)|
    ensures NumberLiteral(code, s).tokens
      == s.tokens + [Token(VALUE_NUMBER, s.cur.line, s.cur.col, Suffix(code, q) + num)]
  {
    SuffixRead(code, q);
    assert Eat(s.cur, q - s.cur.ptr).ptr == q;
  }

  /**
   `1.5..`, for example, gives the number 1 and three dots, and the next token is read from the last dot:
   nothing is left of the 5.
   */
  lemma DigitIsLost(code: string, s: State)
    requires var p := s.cur.ptr; p + 5 <= |code| && code[p..p + 5] == "1.5.."
    ensures var s' := NumberLiteral(code, s);
      && |s'.tokens| == |s.tokens| + 4 && s'.tokens[|s.tokens|].value == "1"
      && (forall i :: |s.tokens| < i < |s'.tokens| ==> s'.tokens[i].kind == Sym(SYM_DOT))
      && s'.cur.ptr == s.cur.ptr + 4 && code[s'.cur.ptr] == '.'
  {
    var p := s.cur.ptr;
    HalfScan(code, p, code[p..p + 5]);
    NumberTokens(code, s, ScanNumber(code, p));
  }

  lemma HalfScan(code: string, p: nat, text: string)
    requires p + 5 <= |code| && code[p..p + 5] == text == "1.5.."
    ensures ScanNumber(code, p) == Scan(p + 3, "1.", false, true) && code[p + 3] == code[p + 4] == '.'
  {
    assert text[0] == code[p] && text[1] == code[p + 1] && text[2] == code[p + 2];
    assert text[3] == code[p + 3] && text[4] == code[p + 4];
    assert RunEnd(code, p + 2, IsNum) == p + 3;
    DecimalScan(code, p, p + 1, p + 3);
    assert code[p..p + 2] == text[..2] == "1.";
  }
}
