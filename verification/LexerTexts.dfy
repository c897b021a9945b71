/** What quoted texts and comments are: the characters of a literal, and where a comment ends. */
module LexerTexts {
  import opened Wrappers
  import opened Tokens
  import opened Lexer

  // Characters by their codes

  predicate Between(c: char, low: int, high: int) {
    low <= c as int <= high
  }

  lemma CharacterClasses(c: char)
    ensures IsNum(c) <==> Between(c, 48, 57)
    ensures IsHex(c) <==> Between(c, 48, 57) || Between(c, 65, 70) || Between(c, 97, 102)
    ensures IsText(c) <==> Between(c, 65, 90) || Between(c, 97, 122) || c as int == 95
    ensures IsWord(c) <==> IsText(c) || IsNum(c)
    ensures (IsBinary(c) <==> Between(c, 48, 49)) && (IsOctal(c) <==> Between(c, 48, 55))
  {
  }

  // Pieces of quoted text

  /** A character as it is, a backslash and a letter, a backslash with `x` and hexadecimal digits, or a
      backslash at the end of a line. */
  datatype Piece = Plain(c: char) | Letter(e: char) | Hex(digits: string) | Join

  function Spelled(piece: Piece): (s: string)
    ensures s != []
  {
    match piece
    case Plain(c) => [c]
    case Letter(e) => ['\\', e]
    case Hex(digits) => ['\\', 'x'] + digits
    case Join => ['\\', '\n']
  }

  function SpellAll(pieces: seq<Piece>): string {
    if pieces == [] then "" else Spelled(pieces[0]) + SpellAll(pieces[1..])
  }

  /** The code of the character an escape stands for; `\0` is for characters only, `\e` for strings. */
  function LetterCode(e: char, isChar: bool): Option<int> {
    if e == '\\' then Some(92)
    else if e == '\'' then Some(39)
    else if e == '"' then Some(34)
    else if e == 't' then Some(9)
    else if e == 'n' then Some(10)
    else if e == 'r' then Some(13)
    else if e == '0' && isChar then Some(0)
    else if e == 'e' && !isChar then Some(27)
    else None
  }

  function HexCode(c: char): int {
    if c as int < 58 then c as int - 48 else if c as int < 97 then c as int - 55 else c as int - 87
  }

  function HexNumber(digits: string): int {
    if digits == "" then 0 else 16 * HexNumber(digits[..|digits| - 1]) + HexCode(digits[|digits| - 1])
  }

  predicate AllHex(digits: string) {
    forall i :: 0 <= i < |digits| ==> IsHex(digits[i])
  }

  function Quote(isChar: bool): char {
    if isChar then '\'' else '"'
  }

  /** A piece that may stand here, `next` being the character behind it. */
  predicate Allowed(piece: Piece, isChar: bool, next: char) {
    match piece
    case Plain(c) => c != '\\' && c != '\0' && c != Quote(isChar) && (isChar ==> c != '\n')
    case Letter(e) => LetterCode(e, isChar).Some?
    case Hex(digits) => digits != "" && AllHex(digits) && !IsHex(next)
    case Join => true
  }

  function After(pieces: seq<Piece>, isChar: bool): char {
    if pieces == [] then Quote(isChar) else Spelled(pieces[0])[0]
  }

  predicate AllAllowed(pieces: seq<Piece>, isChar: bool) {
    pieces != [] ==> Allowed(pieces[0], isChar, After(pieces[1..], isChar)) && AllAllowed(pieces[1..], isChar)
  }

  /** What a piece puts into the text: the low eight bits of a hexadecimal number. */
  function Meaning(piece: Piece, isChar: bool): string {
    match piece
    case Plain(c) => [c]
    case Letter(e) => if LetterCode(e, isChar).Some? then [CodeChar(LetterCode(e, isChar).value)] else ""
    case Hex(digits) => [CodeChar(HexNumber(digits) % 256)]
    case Join => ""
  }

  function CodeChar(code: int): char {
    if 0 <= code < 256 then code as char else '\0'
  }

  function MeanAll(pieces: seq<Piece>, isChar: bool): string {
    if pieces == [] then "" else Meaning(pieces[0], isChar) + MeanAll(pieces[1..], isChar)
  }

  lemma LetterIsEscape(e: char, isChar: bool)
    ensures SimpleEscape(e, isChar)
      == if LetterCode(e, isChar).Some? then Some(CodeChar(LetterCode(e, isChar).value)) else None
  {
  }

  lemma KeepsLowBits(v: int, d: int)
    ensures (16 * (v % 256) + d) % 256 == (16 * v + d) % 256
  {
    var q, r := v / 256, v % 256;
    var m, k := (16 * r + d) / 256, (16 * r + d) % 256;
    assert 16 * v + d == 256 * (16 * q + m) + k;
  }

  lemma {:induction false} HexIsNumber(digits: string)
    requires AllHex(digits)
    ensures HexByte(digits) == HexNumber(digits) % 256
    decreases |digits|
  {
    if digits != "" {
      var front, last := digits[..|digits| - 1], digits[|digits| - 1];
      HexIsNumber(front);
      assert IsHex(last);
      KeepsLowBits(HexNumber(front), HexCode(last));
    }
  }

  // Reading

  /** A text stands at a position of the source. */
  predicate Stands(code: string, p: nat, text: string) {
    p + |text| <= |code| && forall i :: 0 <= i < |text| ==> code[p + i] == text[i]
  }

  lemma StandsInParts(code: string, p: nat, a: string, b: string)
    ensures Stands(code, p, a + b) <==> Stands(code, p, a) && Stands(code, p + |a|, b)
  {
    forall i | 0 <= i < |a|
      ensures (a + b)[i] == a[i]
    {
    }
    forall i | 0 <= i < |b|
      ensures (a + b)[|a| + i] == b[i]
    {
    }
    if Stands(code, p, a + b) {
      forall i | 0 <= i < |b|
        ensures code[p + |a| + i] == b[i]
      {
        assert code[p + (|a| + i)] == (a + b)[|a| + i];
      }
    }
    if Stands(code, p, a) && Stands(code, p + |a|, b) {
      forall i | 0 <= i < |a + b|
        ensures code[p + i] == (a + b)[i]
      {
        if i >= |a| {
          assert code[p + |a| + (i - |a|)] == b[i - |a|];
        }
      }
    }
  }

  lemma FirstStands(code: string, p: nat, text: string)
    requires Stands(code, p, text) && text != ""
    ensures CharAt(code, p) == text[0] && (|text| > 1 ==> CharAt(code, p + 1) == text[1])
  {
  }

  lemma RunIsHex(code: string, p: nat, digits: string)
    requires Stands(code, p, digits) && AllHex(digits) && !IsHex(CharAt(code, p + |digits|))
    ensures HexRun(code, p) == digits
  {
    forall i | p <= i < p + |digits|
      ensures IsHex(code[i])
    {
      assert code[p + (i - p)] == digits[i - p];
    }
    RunStops(code, p, p + |digits|);
    assert code[p..p + |digits|] == digits;
  }

  lemma {:induction false} RunStops(code: string, p: nat, q: nat)
    requires p <= q <= |code| && (forall i :: p <= i < q ==> IsHex(code[i])) && !IsHex(CharAt(code, q))
    ensures RunEnd(code, p, IsHex) == q
    decreases q - p
  {
    if p < q {
      RunStops(code, p + 1, q);
    }
  }

  /** The cursor behind a piece. */
  function Behind(c: Cursor, piece: Piece): (next: Cursor)
    ensures next.ptr == c.ptr + |Spelled(piece)|
  {
    match piece
    case Plain(a) => if a == '\n' then EatLine(c) else Eat(c, 1)
    case Letter(_) => Eat(c, 2)
    case Hex(digits) => Eat(c, 2 + |digits|)
    case Join => EatLine(Eat(c, 1))
  }

  /** One piece is read as it means, wherever it stands. */
  lemma PieceRead(code: string, c: Cursor, piece: Piece, text: string, isChar: bool)
    requires Stands(code, c.ptr, Spelled(piece)) && Allowed(piece, isChar, CharAt(code, c.ptr + |Spelled(piece)|))
    ensures Quoted(code, c, text, isChar) == Quoted(code, Behind(c, piece), text + Meaning(piece, isChar), isChar)
  {
    FirstStands(code, c.ptr, Spelled(piece));
    match piece
    case Plain(_) =>
    case Letter(e) => LetterIsEscape(e, isChar);
    case Hex(digits) => HexRead(code, c, digits, text, isChar);
    case Join => JoinRead(code, c, text, isChar);
  }

  lemma HexRead(code: string, c: Cursor, digits: string, text: string, isChar: bool)
    requires Stands(code, c.ptr, ['\\', 'x'] + digits) && digits != "" && AllHex(digits)
    requires !IsHex(CharAt(code, c.ptr + 2 + |digits|))
    ensures Quoted(code, c, text, isChar)
      == Quoted(code, Eat(c, 2 + |digits|), text + [CodeChar(HexNumber(digits) % 256)], isChar)
  {
    FirstStands(code, c.ptr, ['\\', 'x'] + digits);
    StandsInParts(code, c.ptr, ['\\', 'x'], digits);
    RunIsHex(code, c.ptr + 2, digits);
    QuotedHex(code, c, text, isChar, digits);
    HexIsNumber(digits);
  }

  lemma JoinRead(code: string, c: Cursor, text: string, isChar: bool)
    requires CharAt(code, c.ptr) == '\\' && CharAt(code, c.ptr + 1) == '\n'
    ensures Quoted(code, c, text, isChar) == Quoted(code, EatLine(Eat(c, 1)), text + "", isChar)
  {
    assert text + "" == text;
  }

  /** The text of some pieces and the closing quote. */
  function Closed(pieces: seq<Piece>, isChar: bool): (s: string)
    ensures s != []
  {
    SpellAll(pieces) + [Quote(isChar)]
  }

  lemma ClosedStarts(pieces: seq<Piece>, isChar: bool)
    ensures Closed(pieces, isChar)[0] == After(pieces, isChar)
  {
  }

  lemma ClosedFirst(pieces: seq<Piece>, isChar: bool)
    requires pieces != []
    ensures Closed(pieces, isChar) == Spelled(pieces[0]) + Closed(pieces[1..], isChar)
  {
  }

  lemma FirstPiece(code: string, p: nat, pieces: seq<Piece>, isChar: bool)
    requires pieces != [] && Stands(code, p, Closed(pieces, isChar))
    ensures var n := |Spelled(pieces[0])|;
      && Stands(code, p, Spelled(pieces[0])) && CharAt(code, p + n) == After(pieces[1..], isChar)
      && Stands(code, p + n, Closed(pieces[1..], isChar))
  {
    ClosedFirst(pieces, isChar);
    FrontStands(code, p, Spelled(pieces[0]), Closed(pieces[1..], isChar));
    ClosedStarts(pieces[1..], isChar);
  }

  lemma FrontStands(code: string, p: nat, front: string, behind: string)
    requires Stands(code, p, front + behind) && behind != ""
    ensures Stands(code, p, front) && Stands(code, p + |front|, behind) && CharAt(code, p + |front|) == behind[0]
  {
    StandsInParts(code, p, front, behind);
    FirstStands(code, p + |front|, behind);
  }

  /** Reading from `c` on, having gathered `text`, ends at the quote at `end` with `out`; `seal` only keeps the
      definition folded. */
  ghost predicate ReadAt(seal: int, code: string, c: Cursor, text: string, isChar: bool, end: nat, out: string) {
    var r := Quoted(code, c, text, isChar);
    r.Ok? && r.value.0.ptr == end && r.value.1 == out
  }

  ghost predicate ReadAs(code: string, c: Cursor, text: string, isChar: bool, end: nat, out: string) {
    forall seal :: ReadAt(seal, code, c, text, isChar, end, out)
  }

  lemma NoPieces(code: string, c: Cursor, text: string, isChar: bool)
    requires Stands(code, c.ptr, Closed([], isChar))
    ensures ReadAs(code, c, text, isChar, c.ptr, text)
  {
    FirstStands(code, c.ptr, Closed([], isChar));
  }

  lemma PieceThen(code: string, c: Cursor, piece: Piece, text: string, isChar: bool, end: nat, out: string)
    requires Stands(code, c.ptr, Spelled(piece)) && Allowed(piece, isChar, CharAt(code, c.ptr + |Spelled(piece)|))
    requires ReadAs(code, Behind(c, piece), text + Meaning(piece, isChar), isChar, end, out)
    ensures ReadAs(code, c, text, isChar, end, out)
  {
    PieceRead(code, c, piece, text, isChar);
    assert ReadAt(0, code, Behind(c, piece), text + Meaning(piece, isChar), isChar, end, out);
  }

  lemma Regrouped(a: string, b: string, c: string)
    ensures a + b + c == a + (b + c)
  {
  }

  lemma SpelledFirst(pieces: seq<Piece>)
    requires pieces != []
    ensures |Spelled(pieces[0])| + |SpellAll(pieces[1..])| == |SpellAll(pieces)|
  {
  }

  lemma MeantFirst(pieces: seq<Piece>, isChar: bool)
    requires pieces != []
    ensures MeanAll(pieces, isChar) == Meaning(pieces[0], isChar) + MeanAll(pieces[1..], isChar)
  {
  }

  lemma AllowedFirst(pieces: seq<Piece>, isChar: bool)
    requires pieces != [] && AllAllowed(pieces, isChar)
    ensures Allowed(pieces[0], isChar, After(pieces[1..], isChar)) && AllAllowed(pieces[1..], isChar)
  {
  }

  lemma RestThen(code: string, c: Cursor, pieces: seq<Piece>, text: string, isChar: bool, end: nat, out: string)
    requires pieces != [] && AllAllowed(pieces, isChar) && Stands(code, c.ptr, Closed(pieces, isChar))
    requires ReadAs(code, Behind(c, pieces[0]), text + Meaning(pieces[0], isChar), isChar, end, out)
    ensures ReadAs(code, c, text, isChar, end, out)
  {
    FirstPiece(code, c.ptr, pieces, isChar);
    AllowedFirst(pieces, isChar);
    PieceThen(code, c, pieces[0], text, isChar, end, out);
  }

  /** Quoted text that is spelled by pieces is read as they mean, up to the closing quote. */
  lemma {:induction false} PiecesRead(code: string, c: Cursor, pieces: seq<Piece>, text: string, isChar: bool)
    requires AllAllowed(pieces, isChar) && Stands(code, c.ptr, Closed(pieces, isChar))
    ensures ReadAs(code, c, text, isChar, c.ptr + |SpellAll(pieces)|, text + MeanAll(pieces, isChar))
    decreases |pieces|
  {
    if pieces == [] {
      assert text + "" == text;
      NoPieces(code, c, text, isChar);
    } else {
      var next, meant := Behind(c, pieces[0]), text + Meaning(pieces[0], isChar);
      RestStands(code, c, pieces, isChar);
      PiecesRead(code, next, pieces[1..], meant, isChar);
      RestThen(code, c, pieces, text, isChar, next.ptr + |SpellAll(pieces[1..])|, meant + MeanAll(pieces[1..], isChar));
      SpelledFirst(pieces);
      TextGathered(pieces, text, isChar);
    }
  }

  lemma TextGathered(pieces: seq<Piece>, text: string, isChar: bool)
    requires pieces != []
    ensures text + Meaning(pieces[0], isChar) + MeanAll(pieces[1..], isChar) == text + MeanAll(pieces, isChar)
  {
    MeantFirst(pieces, isChar);
    Regrouped(text, Meaning(pieces[0], isChar), MeanAll(pieces[1..], isChar));
  }

  lemma RestStands(code: string, c: Cursor, pieces: seq<Piece>, isChar: bool)
    requires pieces != [] && AllAllowed(pieces, isChar) && Stands(code, c.ptr, Closed(pieces, isChar))
    ensures AllAllowed(pieces[1..], isChar)
    ensures Stands(code, Behind(c, pieces[0]).ptr, Closed(pieces[1..], isChar))
  {
    FirstPiece(code, c.ptr, pieces, isChar);
    AllowedFirst(pieces, isChar);
  }

  lemma PieceInFront(code: string, c: Cursor, piece: Piece, rest: seq<Piece>, isChar: bool)
    requires Stands(code, c.ptr, Spelled(piece)) && Allowed(piece, isChar, CharAt(code, c.ptr + |Spelled(piece)|))
    requires AllAllowed(rest, isChar) && Stands(code, c.ptr + |Spelled(piece)|, Closed(rest, isChar))
    ensures AllAllowed([piece] + rest, isChar) && Stands(code, c.ptr, Closed([piece] + rest, isChar))
  {
    ClosedBehind(piece, rest, isChar);
    StandsInParts(code, c.ptr, Spelled(piece), Closed(rest, isChar));
    FirstStands(code, c.ptr + |Spelled(piece)|, Closed(rest, isChar));
    ClosedStarts(rest, isChar);
    AllowedBehind(piece, rest, isChar);
  }

  lemma ClosedBehind(piece: Piece, rest: seq<Piece>, isChar: bool)
    ensures Closed([piece] + rest, isChar) == Spelled(piece) + Closed(rest, isChar)
  {
    assert ([piece] + rest)[1..] == rest;
    ClosedFirst([piece] + rest, isChar);
  }

  lemma AllowedBehind(piece: Piece, rest: seq<Piece>, isChar: bool)
    requires Allowed(piece, isChar, After(rest, isChar)) && AllAllowed(rest, isChar)
    ensures AllAllowed([piece] + rest, isChar)
  {
    assert ([piece] + rest)[1..] == rest;
  }

  /** The piece at the cursor, if there is one and the text does not end here. */
  function PieceAt(code: string, p: nat, isChar: bool): Piece {
    var a, e := CharAt(code, p), CharAt(code, p + 1);
    if a != '\\' then Plain(a)
    else if LetterCode(e, isChar).Some? then Letter(e)
    else if e == '\n' then Join
    else Hex(HexRun(code, p + 2))
  }

  lemma PlainAccepted(code: string, c: Cursor, text: string, isChar: bool)
    requires Quoted(code, c, text, isChar).Ok? && CharAt(code, c.ptr) != Quote(isChar) && CharAt(code, c.ptr) != '\\'
    ensures Allowed(Plain(CharAt(code, c.ptr)), isChar, '\0')
  {
  }

  lemma EscapeAccepted(code: string, c: Cursor, text: string, isChar: bool)
    requires Quoted(code, c, text, isChar).Ok? && CharAt(code, c.ptr) == '\\'
    ensures CharAt(code, c.ptr + 1) != '\0'
    ensures var e := CharAt(code, c.ptr + 1);
      LetterCode(e, isChar).None? && e != '\n' ==> e == 'x' && HexRun(code, c.ptr + 2) != ""
  {
    LetterIsEscape(CharAt(code, c.ptr + 1), isChar);
  }

  lemma PieceStands(code: string, c: Cursor, text: string, isChar: bool)
    requires Quoted(code, c, text, isChar).Ok? && CharAt(code, c.ptr) != Quote(isChar)
    ensures var piece := PieceAt(code, c.ptr, isChar);
      && Stands(code, c.ptr, Spelled(piece)) && Allowed(piece, isChar, CharAt(code, c.ptr + |Spelled(piece)|))
  {
    if CharAt(code, c.ptr) != '\\' {
      PlainAccepted(code, c, text, isChar);
    } else {
      EscapeAccepted(code, c, text, isChar);
      EscapeStands(code, c.ptr, isChar);
    }
  }

  lemma EscapeStands(code: string, p: nat, isChar: bool)
    requires CharAt(code, p) == '\\' && CharAt(code, p + 1) != '\0'
    requires var e := CharAt(code, p + 1);
      LetterCode(e, isChar).None? && e != '\n' ==> e == 'x' && HexRun(code, p + 2) != ""
    ensures var piece := PieceAt(code, p, isChar);
      Stands(code, p, Spelled(piece)) && Allowed(piece, isChar, CharAt(code, p + |Spelled(piece)|))
  {
    var e := CharAt(code, p + 1);
    if LetterCode(e, isChar).Some? || e == '\n' {
      TwoStand(code, p, e);
    } else {
      HexStands(code, p, HexRun(code, p + 2), isChar);
    }
  }

  lemma TwoStand(code: string, p: nat, e: char)
    requires CharAt(code, p) == '\\' && CharAt(code, p + 1) == e && e != '\0'
    ensures Stands(code, p, ['\\', e])
  {
  }

  lemma HexStands(code: string, p: nat, digits: string, isChar: bool)
    requires CharAt(code, p) == '\\' && CharAt(code, p + 1) == 'x' && digits == HexRun(code, p + 2) != ""
    ensures Stands(code, p, Spelled(Hex(digits)))
    ensures Allowed(Hex(digits), isChar, CharAt(code, p + |Spelled(Hex(digits))|))
  {
    TwoStand(code, p, 'x');
    StandsInParts(code, p, ['\\', 'x'], digits);
  }

  ghost predicate AcceptedAt(seal: int, code: string, c: Cursor, text: string, isChar: bool) {
    Quoted(code, c, text, isChar).Ok?
  }

  ghost predicate Accepted(code: string, c: Cursor, text: string, isChar: bool) {
    forall seal :: AcceptedAt(seal, code, c, text, isChar)
  }

  lemma FirstAccepted(code: string, c: Cursor, text: string, isChar: bool)
    requires Accepted(code, c, text, isChar) && CharAt(code, c.ptr) != Quote(isChar)
    ensures var piece := PieceAt(code, c.ptr, isChar);
      && Stands(code, c.ptr, Spelled(piece)) && Allowed(piece, isChar, CharAt(code, c.ptr + |Spelled(piece)|))
      && Accepted(code, Behind(c, piece), text + Meaning(piece, isChar), isChar)
  {
    assert AcceptedAt(0, code, c, text, isChar);
    PieceStands(code, c, text, isChar);
    PieceRead(code, c, PieceAt(code, c.ptr, isChar), text, isChar);
  }

  lemma QuoteStands(code: string, p: nat, isChar: bool)
    requires CharAt(code, p) == Quote(isChar)
    ensures AllAllowed([], isChar) && Stands(code, p, Closed([], isChar))
  {
  }

  /** Whatever quoted text is accepted is spelled by pieces. */
  lemma {:induction false} AcceptedIsPieces(code: string, c: Cursor, text: string, isChar: bool)
    returns (pieces: seq<Piece>)
    requires Accepted(code, c, text, isChar)
    ensures AllAllowed(pieces, isChar) && Stands(code, c.ptr, Closed(pieces, isChar))
    decreases |code| - c.ptr
  {
    if CharAt(code, c.ptr) == Quote(isChar) {
      pieces := [];
      QuoteStands(code, c.ptr, isChar);
    } else {
      var piece := PieceAt(code, c.ptr, isChar);
      FirstAccepted(code, c, text, isChar);
      var rest := AcceptedIsPieces(code, Behind(c, piece), text + Meaning(piece, isChar), isChar);
      PieceInFront(code, c, piece, rest, isChar);
      pieces := [piece] + rest;
    }
  }

  /** A literal is accepted only if it is spelled by pieces between quotes. */
  lemma LiteralIsPieces(code: string, s: State, isChar: bool) returns (pieces: seq<Piece>)
    requires CharAt(code, s.cur.ptr) == Quote(isChar)
    requires (if isChar then CharLiteral(code, s) else StringLiteral(code, s)).Ok?
    ensures AllAllowed(pieces, isChar) && Stands(code, s.cur.ptr, [Quote(isChar)] + Closed(pieces, isChar))
  {
    pieces := AcceptedIsPieces(code, Eat(s.cur, 1), "", isChar);
    StandsInParts(code, s.cur.ptr, [Quote(isChar)], Closed(pieces, isChar));
  }

  /**
   A literal spelled by pieces between quotes: a string is recorded with the text they mean; a character
   only if that is one character.
   */
  lemma LiteralMeans(code: string, s: State, pieces: seq<Piece>, isChar: bool)
    requires AllAllowed(pieces, isChar)
    requires Stands(code, s.cur.ptr, [Quote(isChar)] + Closed(pieces, isChar))
    ensures var r := if isChar then CharLiteral(code, s) else StringLiteral(code, s);
      && (r.Ok? <==> isChar ==> |MeanAll(pieces, isChar)| == 1)
      && (r.Ok? ==>
            && |r.value.tokens| == |s.tokens| + 1 && r.value.tokens[..|s.tokens|] == s.tokens
            && r.value.tokens[|s.tokens|].kind == (if isChar then VALUE_CHAR else VALUE_STRING)
            && r.value.tokens[|s.tokens|].value == MeanAll(pieces, isChar)
            && r.value.cur.ptr == s.cur.ptr + |SpellAll(pieces)| + 2)
  {
    StandsInParts(code, s.cur.ptr, [Quote(isChar)], Closed(pieces, isChar));
    var c := Eat(s.cur, 1);
    PiecesRead(code, c, pieces, "", isChar);
    assert ReadAt(0, code, c, "", isChar, c.ptr + |SpellAll(pieces)|, "" + MeanAll(pieces, isChar));
    assert "" + MeanAll(pieces, isChar) == MeanAll(pieces, isChar);
  }

  // Comments

  /** The first end of a comment at or behind `p` is at `k`, with no zero character before it. */
  predicate EndsAt(code: string, p: nat, k: nat) {
    && p <= k && CharAt(code, k) == '*' && CharAt(code, k + 1) == '/'
    && forall j :: p <= j < k ==> !EndOrZero(code, j)
  }

  predicate EndOrZero(code: string, j: nat) {
    CharAt(code, j) == '\0' || (CharAt(code, j) == '*' && CharAt(code, j + 1) == '/')
  }

  /** A block comment goes to its first end, and needs one. */
  lemma {:induction false} BlockCommentEnds(code: string, c: Cursor)
    ensures BlockComment(code, c).Ok? <==> exists k: nat :: EndsAt(code, c.ptr, k)
    ensures BlockComment(code, c).Ok? ==>
      BlockComment(code, c).value.ptr >= 2 && EndsAt(code, c.ptr, BlockComment(code, c).value.ptr - 2)
    ensures BlockComment(code, c).Err? ==> BlockComment(code, c) == Err(UnexpectedEof)
    decreases |code| - c.ptr
  {
    if CharAt(code, c.ptr) == '*' && CharAt(code, c.ptr + 1) == '/' {
      assert EndsAt(code, c.ptr, c.ptr);
    } else if CharAt(code, c.ptr) == '\0' {
      forall k: nat
        ensures !EndsAt(code, c.ptr, k)
      {
        assert EndOrZero(code, c.ptr);
      }
    } else {
      var next := if code[c.ptr] == '\n' then EatLine(c) else Eat(c, 1);
      BlockCommentEnds(code, next);
      forall k: nat
        ensures EndsAt(code, c.ptr, k) <==> EndsAt(code, next.ptr, k)
      {
        assert !EndOrZero(code, c.ptr);
      }
    }
  }

  /** A line comment goes to the first newline or zero character and records nothing, but for the end token at
      a zero character or the end of the source. */
  lemma LineCommentEnds(code: string, s: State, q: nat)
    requires s.cur.ptr <= q <= |code| && (forall i :: s.cur.ptr <= i < q ==> code[i] != '\n' && code[i] != '\0')
    requires CharAt(code, q) == '\n' || CharAt(code, q) == '\0'
    ensures var s' := LineComment(code, s);
      && s'.cur.ptr == q + 1
      && (CharAt(code, q) == '\n' ==> s'.tokens == s.tokens && s'.cur.line == s.cur.line + 1 && s'.cur.col == 1)
      && (CharAt(code, q) == '\0' ==> |s'.tokens| == |s.tokens| + 1 && s'.tokens[|s.tokens|].kind == EOF)
  {
    LineStops(code, s.cur.ptr, q);
  }

  lemma {:induction false} LineStops(code: string, p: nat, q: nat)
    requires p <= q <= |code| && (forall i :: p <= i < q ==> InLine(code[i])) && !InLine(CharAt(code, q))
    ensures RunEnd(code, p, InLine) == q
    decreases q - p
  {
    if p < q {
      LineStops(code, p + 1, q);
    }
  }

  /** A plain character literal is recorded where it begins. */
  lemma CharStands(code: string, s: State, c: char)
    requires Allowed(Plain(c), true, '\'') && Stands(code, s.cur.ptr, ['\'', c, '\''])
    ensures var r := CharLiteral(code, s);
      && r.Ok? && |r.value.tokens| == |s.tokens| + 1
      && r.value.tokens[|s.tokens|] == Token(VALUE_CHAR, s.cur.line, s.cur.col, [c])
      && r.value.cur == Eat(s.cur, 3)
  {
    var p := s.cur.ptr;
    assert code[p + 1] == ['\'', c, '\''][1] && code[p + 2] == ['\'', c, '\''][2];
    var inner, behind := Eat(s.cur, 1), Eat(Eat(s.cur, 1), 1);
    assert Quoted(code, behind, [c], true) == Ok((behind, [c]));
    assert "" + [c] == [c];
    assert Quoted(code, inner, "", true) == Quoted(code, behind, "" + [c], true);
  }

  /** `true` and `false`, and nothing else, are boolean literals. */
  lemma BooleanWords(word: string)
    ensures WordKind(word) == VALUE_BOOL <==> word == "true" || word == "false"
  {
    var k := SpelledAt(word, KEYWORDS, KeywordText, 0);
    if k < |KEYWORDS| {
      KeywordIsNotBoolean(KEYWORDS[k]);
    }
  }

  lemma KeywordIsNotBoolean(k: Keyword)
    ensures KeywordText(k) != "true" && KeywordText(k) != "false"
  {
    var text := KeywordText(k);
    assert |text| == 4 ==> text[0] != 't' || text[1] != 'r';
    assert |text| == 5 ==> text[0] != 'f';
  }

  // Single characters

  /** A blank moves on, a newline goes to the next line, and neither is recorded; a zero character is an end
      token. */
  lemma BlanksSkipped(code: string, s: State, words: string -> Kind)
    requires s.cur.ptr < |code|
    ensures code[s.cur.ptr] in " \t" ==>
      Step(code, s, words) == Ok(State(s.cur.(ptr := s.cur.ptr + 1, col := s.cur.col + 1), s.tokens, s.marks))
    ensures code[s.cur.ptr] == '\n' ==>
      Step(code, s, words) == Ok(State(Cursor(s.cur.ptr + 1, s.cur.line + 1, 1, 0), s.tokens, s.marks))
    ensures code[s.cur.ptr] == '\0' ==> Step(code, s, words) == Ok(Consume(s, EOF, 1, true))
  {
  }

  /** A dot in front of a digit begins a fraction with all digits that follow. */
  lemma DotBeginsFraction(code: string, s: State, words: string -> Kind, q: nat)
    requires s.cur.ptr + 1 < q <= |code| && code[s.cur.ptr] == '.'
    requires (forall i :: s.cur.ptr < i < q ==> IsNum(code[i])) && !IsNum(CharAt(code, q))
    ensures var r := Step(code, s, words);
      && r.Ok? && r.value.cur == Eat(s.cur, q - s.cur.ptr)
      && r.value.tokens == s.tokens + [Token(VALUE_FLOAT, s.cur.line, s.cur.col, "\0")]
  {
    DigitsStop(code, s.cur.ptr + 1, q);
    assert Punctuation('.', CharAt(code, s.cur.ptr + 1), CharAt(code, s.cur.ptr + 2)) == [];
  }

  lemma {:induction false} DigitsStop(code: string, p: nat, q: nat)
    requires p <= q <= |code| && (forall i :: p <= i < q ==> IsNum(code[i])) && !IsNum(CharAt(code, q))
    ensures RunEnd(code, p, IsNum) == q
    decreases q - p
  {
    if p < q {
      DigitsStop(code, p + 1, q);
    }
  }
}
