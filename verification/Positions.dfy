/**
 Lines and columns of a source text, and the way back from them to offsets.
 */
module Positions {

  /** Line and column of an offset, both from 1. */
  datatype Position = Position(line: int, col: int)

  function Pos(code: string, p: nat): Position
    requires p <= |code|
  {
    if p == 0 then Position(1, 1)
    else if code[p - 1] == '\n' then Position(Pos(code, p - 1).line + 1, 1)
    else Position(Pos(code, p - 1).line, Pos(code, p - 1).col + 1)
  }

  predicate Before(a: Position, b: Position) {
    a.line < b.line || (a.line == b.line && a.col < b.col)
  }

  lemma {:induction false} PosIncreases(code: string, p: nat, q: nat)
    requires p < q <= |code|
    ensures Before(Pos(code, p), Pos(code, q)) && Pos(code, p).col >= 1
    decreases q
  {
    ColPositive(code, p);
    ColPositive(code, q - 1);
    if p < q - 1 {
      PosIncreases(code, p, q - 1);
    }
  }

  lemma {:induction false} ColPositive(code: string, p: nat)
    requires p <= |code|
    ensures Pos(code, p).col >= 1
  {
    if p > 0 {
      ColPositive(code, p - 1);
    }
  }

  /** Different offsets have different positions. */
  lemma PosInjective(code: string, p: nat, q: nat)
    requires p <= |code| && q <= |code| && Pos(code, p) == Pos(code, q)
    ensures p == q
  {
    if p < q {
      PosIncreases(code, p, q);
    } else if q < p {
      PosIncreases(code, q, p);
    }
  }

  // `getSubstringByRange`

  /** What the scan has found in the first `n` offsets. */
  function FoundStart(code: string, start: Position, n: nat): nat
    requires n <= |code|
  {
    if n == 0 then 0 else if Pos(code, n - 1) == start then n - 1 else FoundStart(code, start, n - 1)
  }

  /** First offset from `p` on with the position, the length if there is none. */
  function FoundEnd(code: string, end: Position, p: nat): (q: nat)
    requires p <= |code|
    ensures p <= q <= |code|
    ensures q < |code| ==> Pos(code, q) == end
    ensures forall i :: p <= i < q ==> Pos(code, i) != end
    decreases |code| - p
  {
    if p == |code| || Pos(code, p) == end then p else FoundEnd(code, end, p + 1)
  }

  /** `substr` with a count that wraps to a huge one when the end is before the start. */
  function Substring(code: string, startPos: nat, endPos: nat): string
    requires startPos <= |code| && endPos <= |code|
  {
    if endPos < startPos then code[startPos..] else code[startPos..endPos]
  }

  function SubstringByRange(code: string, start: Position, end: Position): string {
    var q := FoundEnd(code, end, 0);
    var startPos := if q < |code| then FoundStart(code, start, q + 1) else FoundStart(code, start, |code|);
    FoundStartBelow(code, start, |code|);
    FoundStartBelow(code, start, if q < |code| then q + 1 else |code|);
    Substring(code, startPos, if q < |code| then q else 0)
  }

  lemma {:induction false} FoundStartBelow(code: string, start: Position, n: nat)
    requires n <= |code|
    ensures FoundStart(code, start, n) <= n
  {
    if n > 0 {
      FoundStartBelow(code, start, n - 1);
    }
  }

  method GetSubstringByRange(code: string, start: Position, end: Position) returns (r: string)
    ensures r == SubstringByRange(code, start, end)
  {
    var startPos, endPos := 0, 0;
    var current := Position(1, 1);
    var i := 0;
    ghost var q := FoundEnd(code, end, 0);
    while i < |code|
      invariant i <= q <= |code| && endPos == 0
      invariant startPos == FoundStart(code, start, i) && startPos <= i
      invariant i <= |code| && current == Pos(code, i)
      invariant q == FoundEnd(code, end, i)
    {
      if current == start {
        startPos := i;
      }
      if current == end {
        endPos := i;
        break;
      }
      if code[i] == '\n' {
        current := Position(current.line + 1, 1);
      } else {
        current := Position(current.line, current.col + 1);
      }
      i := i + 1;
    }
    r := Substring(code, startPos, endPos);
  }

  lemma {:induction false} StartFound(code: string, p: nat, n: nat)
    requires p < n <= |code|
    ensures FoundStart(code, Pos(code, p), n) == p
    decreases n
  {
    if n - 1 > p {
      PosIncreases(code, p, n - 1);
      StartFound(code, p, n - 1);
    }
  }

  lemma EndFound(code: string, q: nat)
    requires q <= |code|
    ensures FoundEnd(code, Pos(code, q), 0) == q
  {
    var r := FoundEnd(code, Pos(code, q), 0);
    if r < q {
      PosIncreases(code, r, q);
    }
  }

  /** The positions of two offsets give back the text between them, except for the whole of a text. */
  lemma RangeGivesBackIff(code: string, p: nat, q: nat)
    requires p < q <= |code|
    ensures SubstringByRange(code, Pos(code, p), Pos(code, q)) == code[p..q] <==> !(p == 0 && q == |code|)
    ensures p == 0 && q == |code| ==> SubstringByRange(code, Pos(code, p), Pos(code, q)) == ""
  {
    EndFound(code, q);
    StartFound(code, p, if q < |code| then q + 1 else |code|);
  }

  /** The positions of the start and the end of `ab`, for example. */
  lemma WholeTextIsLost()
    ensures SubstringByRange("ab", Pos("ab", 0), Pos("ab", 2)) == ""
  {
    RangeGivesBackIff("ab", 0, 2);
  }
}
