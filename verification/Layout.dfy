/**
 Sizes and field positions: the layout loops of classes and interfaces.
 */
module Layout {

  /** What the loops ask of the type of a field. */
  datatype Field = Field(size: nat, alignment: nat)

  /** The source divides by the alignment of every field. */
  predicate Aligned(fields: seq<Field>) {
    forall i :: 0 <= i < |fields| ==> fields[i].alignment > 0
  }

  // Multiples

  predicate Multiple(x: nat, a: nat)
    requires a > 0
  {
    x == 0 || (x >= a && Multiple(x - a, a))
  }

  /** The first multiple of `a` at or behind `x`. */
  function Next(x: nat, a: nat): (m: nat)
    requires a > 0
    ensures x <= m < x + a
  {
    if x == 0 then 0 else if x <= a then a else a + Next(x - a, a)
  }

  lemma {:induction false} NextIsMultiple(x: nat, a: nat)
    requires a > 0
    ensures Multiple(Next(x, a), a)
    decreases x
  {
    if x > a {
      NextIsMultiple(x - a, a);
    }
  }

  lemma {:induction false} NextUnique(x: nat, a: nat, m: nat)
    requires a > 0 && Multiple(m, a) && x <= m < x + a
    ensures m == Next(x, a)
    decreases x
  {
    if x > a {
      NextUnique(x - a, a, m - a);
    }
  }

  lemma {:induction false} MultipleSum(x: nat, m: nat, a: nat)
    requires a > 0 && Multiple(m, a)
    ensures Multiple(x + m, a) <==> Multiple(x, a)
    decreases m
  {
    if m > 0 {
      MultipleSum(x, m - a, a);
    }
  }

  lemma {:induction false} MultipleOfMultiple(a: nat, b: nat, x: nat)
    requires a > 0 && b > 0 && Multiple(b, a) && Multiple(x, b)
    ensures Multiple(x, a)
    decreases x
  {
    if x > 0 {
      MultipleOfMultiple(a, b, x - b);
      MultipleSum(x - b, b, a);
    }
  }

  lemma {:induction false} MultipleDoubled(x: nat, a: nat)
    requires a > 0 && Multiple(x, a)
    ensures Multiple(2 * x, 2 * a)
    decreases x
  {
    if x > 0 {
      MultipleDoubled(x - a, a);
    }
  }

  // The remainder operator

  lemma QuotientBounds(k: int, a: int)
    requires a >= 0
    ensures k > 0 ==> k * a >= a
    ensures k < 0 ==> k * a <= -a
    decreases if k < 0 then -k else k
  {
    if k > 1 {
      QuotientBounds(k - 1, a);
      assert k * a == (k - 1) * a + a;
    } else if k < -1 {
      QuotientBounds(k + 1, a);
      assert k * a == (k + 1) * a - a;
    }
  }

  lemma RemainderIs(x: nat, a: nat, q: int, r: nat)
    requires a > 0 && x == q * a + r && r < a
    ensures x % a == r
  {
    assert (x / a - q) * a == r - x % a;
    QuotientBounds(x / a - q, a);
  }

  lemma {:induction false} MultipleQuotient(x: nat, a: nat) returns (q: nat)
    requires a > 0 && Multiple(x, a)
    ensures x == q * a
    decreases x
  {
    if x == 0 {
      q := 0;
    } else {
      var q' := MultipleQuotient(x - a, a);
      q := q' + 1;
      assert q * a == q' * a + a;
    }
  }

  lemma {:induction false} QuotientMultiple(q: nat, a: nat)
    requires a > 0
    ensures q * a >= 0 && Multiple(q * a, a)
    decreases q
  {
    if q > 0 {
      QuotientMultiple(q - 1, a);
      assert q * a == (q - 1) * a + a;
    }
  }

  /** `Multiple` is what the remainder operator says. */
  lemma MultipleIffRemainder(x: nat, a: nat)
    requires a > 0
    ensures Multiple(x, a) <==> x % a == 0
  {
    QuotientMultiple(x / a, a);
    assert x == (x / a) * a + x % a;
    if Multiple(x, a) {
      var q := MultipleQuotient(x, a);
      RemainderIs(x, a, q, 0);
    }
  }

  /** The two paddings of the source: the first one adds nothing, the second goes to the next multiple. */
  lemma PaddingIsNext(x: nat, a: nat)
    requires a > 0
    ensures (x - x % a) % a == 0
    ensures x + (a - x % a) % a == Next(x, a)
  {
    var q, r := x / a, x % a;
    assert x - r == q * a;
    QuotientMultiple(q, a);
    RemainderIs(x - r, a, q, 0);
    if r == 0 {
      RemainderIs(a, a, 1, 0);
      NextUnique(x, a, x);
    } else {
      RemainderIs(a - r, a, 0, a - r);
      assert (q + 1) * a == x + (a - r);
      QuotientMultiple(q + 1, a);
      NextUnique(x, a, x + (a - r));
    }
  }

  // The loops as functions

  /** End of the first `n` fields. */
  function EndOf(fields: seq<Field>, n: nat): nat
    requires Aligned(fields) && n <= |fields|
    decreases n, 0
  {
    if n == 0 then 0 else Offset(fields, n - 1) + fields[n - 1].size
  }

  /** Where the `i`-th field starts. */
  function Offset(fields: seq<Field>, i: nat): nat
    requires Aligned(fields) && i < |fields|
    decreases i, 1
  {
    Next(EndOf(fields, i), fields[i].alignment)
  }

  function MaxAlignment(fields: seq<Field>, n: nat): nat
    requires n <= |fields|
  {
    if n == 0 then 0
    else if fields[n - 1].alignment > MaxAlignment(fields, n - 1) then fields[n - 1].alignment
    else MaxAlignment(fields, n - 1)
  }

  function AlignmentOf(fields: seq<Field>): (a: nat)
    ensures a > 0
  {
    if MaxAlignment(fields, |fields|) == 0 then 1 else MaxAlignment(fields, |fields|)
  }

  /** The fields and the padding behind them. */
  function Padded(fields: seq<Field>): nat
    requires Aligned(fields)
  {
    Next(EndOf(fields, |fields|), AlignmentOf(fields))
  }

  function ClassSize(fields: seq<Field>, hasVtable: bool): nat
    requires Aligned(fields)
  {
    var address := Padded(fields) + if hasVtable then 8 else 0;
    if address == 0 then 1 else address
  }

  function InterfaceSize(fields: seq<Field>, hasVtable: bool): nat
    requires Aligned(fields)
  {
    (if Padded(fields) == 0 then 1 else Padded(fields)) + if hasVtable then 8 else 0
  }

  // The loops

  method ComputeAlignment(fields: seq<Field>) returns (maximumAlignment: nat)
    ensures maximumAlignment == AlignmentOf(fields)
  {
    maximumAlignment := 0;
    for i := 0 to |fields|
      invariant maximumAlignment == MaxAlignment(fields, i)
    {
      var alignment := fields[i].alignment;
      if alignment > maximumAlignment {
        maximumAlignment := alignment;
      }
    }
    if maximumAlignment == 0 {
      maximumAlignment := 1;
    }
  }

  method AddPadding(before: nat, alignment: nat) returns (address: nat)
    requires alignment > 0
    ensures address == Next(before, alignment)
  {
    PaddingIsNext(before, alignment);
    address := before + (before - before % alignment) % alignment;
    address := address + (alignment - address % alignment) % alignment;
  }

  /** The loop over the fields; `offsets` are the addresses at which they are placed. */
  method PlaceFields(fields: seq<Field>) returns (address: nat, offsets: seq<nat>)
    requires Aligned(fields)
    ensures address == EndOf(fields, |fields|)
    ensures |offsets| == |fields| && forall i :: 0 <= i < |fields| ==> offsets[i] == Offset(fields, i)
  {
    address, offsets := 0, [];
    for i := 0 to |fields|
      invariant address == EndOf(fields, i)
      invariant |offsets| == i && forall j :: 0 <= j < i ==> offsets[j] == Offset(fields, j)
    {
      address := AddPadding(address, fields[i].alignment);
      offsets := offsets + [address];
      address := address + fields[i].size;
    }
  }

  method ClassSizeOf(fields: seq<Field>, hasVtable: bool) returns (size: nat)
    requires Aligned(fields)
    ensures size == ClassSize(fields, hasVtable)
  {
    var address, _ := PlaceFields(fields);
    var alignment := ComputeAlignment(fields);
    address := AddPadding(address, alignment);
    address := address + if hasVtable then 8 else 0;
    if address == 0 {
      address := 1;
    }
    size := address;
  }

  method InterfaceSizeOf(fields: seq<Field>, hasVtable: bool) returns (size: nat)
    requires Aligned(fields)
    ensures size == InterfaceSize(fields, hasVtable)
  {
    var address, _ := PlaceFields(fields);
    var alignment := ComputeAlignment(fields);
    address := AddPadding(address, alignment);
    if address == 0 {
      address := 1;
    }
    size := address + if hasVtable then 8 else 0;
  }

  // Fields

  /** Every field starts at a multiple of its alignment, behind the field before it, with less padding
      between them than the alignment. */
  lemma FieldPlaced(fields: seq<Field>, i: nat)
    requires Aligned(fields) && i < |fields|
    ensures Multiple(Offset(fields, i), fields[i].alignment)
    ensures EndOf(fields, i) <= Offset(fields, i) < EndOf(fields, i) + fields[i].alignment
  {
    NextIsMultiple(EndOf(fields, i), fields[i].alignment);
  }

  lemma {:induction false} NoOverlap(fields: seq<Field>, i: nat, j: nat)
    requires Aligned(fields) && i < j <= |fields|
    ensures Offset(fields, i) + fields[i].size <= EndOf(fields, j)
    ensures j < |fields| ==> Offset(fields, i) + fields[i].size <= Offset(fields, j)
    decreases j
  {
    if i < j - 1 {
      NoOverlap(fields, i, j - 1);
    }
  }

  lemma {:induction false} MaxIsMax(fields: seq<Field>, n: nat)
    requires n <= |fields|
    ensures forall i :: 0 <= i < n ==> fields[i].alignment <= MaxAlignment(fields, n)
    ensures MaxAlignment(fields, n) > 0 ==> exists i :: 0 <= i < n && fields[i].alignment == MaxAlignment(fields, n)
  {
    if n > 0 {
      MaxIsMax(fields, n - 1);
    }
  }

  // Sizes

  /** A size is positive and holds all fields. */
  lemma SizeHolds(fields: seq<Field>, hasVtable: bool)
    requires Aligned(fields)
    ensures ClassSize(fields, hasVtable) > 0
    ensures forall i :: 0 <= i < |fields| ==> Offset(fields, i) + fields[i].size <= ClassSize(fields, hasVtable)
  {
    forall i | 0 <= i < |fields|
      ensures Offset(fields, i) + fields[i].size <= ClassSize(fields, hasVtable)
    {
      NoOverlap(fields, i, |fields|);
    }
  }

  /** Without a virtual table a size is a multiple of the largest alignment, unless there is nothing to
      hold and that alignment is more than 1. */
  lemma SizeIsAlignedIff(fields: seq<Field>)
    requires Aligned(fields)
    ensures Multiple(ClassSize(fields, false), AlignmentOf(fields))
      <==> EndOf(fields, |fields|) > 0 || AlignmentOf(fields) == 1
  {
    NextIsMultiple(EndOf(fields, |fields|), AlignmentOf(fields));
  }

  /** The table pointer goes behind the padding: a class with one keeps the alignment exactly when the
      pointer does. */
  lemma SizeWithVtableIsAlignedIff(fields: seq<Field>)
    requires Aligned(fields)
    ensures Multiple(ClassSize(fields, true), AlignmentOf(fields)) <==> Multiple(8, AlignmentOf(fields))
  {
    NextIsMultiple(EndOf(fields, |fields|), AlignmentOf(fields));
    MultipleSum(8, Padded(fields), AlignmentOf(fields));
  }

  /** One field of 16 bytes at 16, for example. */
  lemma VtableLosesAlignment(fields: seq<Field>)
    requires fields == [Field(16, 16)]
    ensures Aligned(fields) && AlignmentOf(fields) == 16 && !Multiple(ClassSize(fields, true), 16)
  {
    assert MaxAlignment(fields, 1) == 16 by {
      assert MaxAlignment(fields, 0) == 0;
    }
    assert !Multiple(8, 16);
    SizeWithVtableIsAlignedIff(fields);
  }

  /** Classes and interfaces agree except with a virtual table and nothing else to hold. */
  lemma LayoutsAgreeIff(fields: seq<Field>, hasVtable: bool)
    requires Aligned(fields)
    ensures ClassSize(fields, hasVtable) == InterfaceSize(fields, hasVtable)
      <==> !hasVtable || EndOf(fields, |fields|) > 0
  {
  }

  /** Nothing but a table pointer: 8 bytes in a class, 9 in an interface. */
  lemma EmptyLayoutsDiffer()
    ensures Aligned([]) && ClassSize([], true) == 8 && InterfaceSize([], true) == 9
  {
  }

  // Powers of two

  predicate PowerOfTwo(n: nat) {
    n > 0 && (n == 1 || (n % 2 == 0 && PowerOfTwo(n / 2)))
  }

  lemma {:induction false} MultipleOfOne(x: nat)
    ensures Multiple(x, 1)
    decreases x
  {
    if x > 0 {
      MultipleOfOne(x - 1);
    }
  }

  lemma {:induction false} PowersDivide(a: nat, b: nat)
    requires PowerOfTwo(a) && PowerOfTwo(b) && a <= b
    ensures Multiple(b, a)
    decreases b
  {
    if a == 1 {
      MultipleOfOne(b);
    } else {
      PowersDivide(a / 2, b / 2);
      MultipleDoubled(b / 2, a / 2);
    }
  }

  /** With powers of two, the size of a class with something to hold is a multiple of the alignment of
      every field: arrays of it keep all fields aligned. */
  lemma SizeAlignsEveryField(fields: seq<Field>, i: nat)
    requires Aligned(fields) && (forall j :: 0 <= j < |fields| ==> PowerOfTwo(fields[j].alignment))
    requires i < |fields| && EndOf(fields, |fields|) > 0
    ensures Multiple(ClassSize(fields, false), fields[i].alignment)
  {
    MaxIsMax(fields, |fields|);
    SizeIsAlignedIff(fields);
    PowersDivide(fields[i].alignment, AlignmentOf(fields));
    MultipleOfMultiple(fields[i].alignment, AlignmentOf(fields), ClassSize(fields, false));
  }

  // The least layout

  /** Where fields may start: each at a multiple of its alignment, none before an earlier one has ended. */
  ghost predicate Placement(fields: seq<Field>, starts: seq<nat>)
    requires Aligned(fields)
  {
    && |starts| == |fields|
    && (forall i :: 0 <= i < |fields| ==> Multiple(starts[i], fields[i].alignment))
    && forall i, j :: 0 <= i < j < |fields| ==> starts[i] + fields[i].size <= starts[j]
  }

  lemma {:induction false} NextIsLeast(x: nat, a: nat, m: nat)
    requires a > 0 && Multiple(m, a) && x <= m
    ensures Next(x, a) <= m
    decreases x
  {
    if x > a {
      NextIsLeast(x - a, a, m - a);
    }
  }

  lemma {:induction false} EarliestStarts(fields: seq<Field>, starts: seq<nat>, i: nat)
    requires Aligned(fields) && Placement(fields, starts) && i < |fields|
    ensures Offset(fields, i) <= starts[i]
    decreases i
  {
    if i > 0 {
      EarliestStarts(fields, starts, i - 1);
      assert starts[i - 1] + fields[i - 1].size <= starts[i];
    }
    NextIsLeast(EndOf(fields, i), fields[i].alignment, starts[i]);
  }

  /** All fields end by `total`. */
  predicate Holds(fields: seq<Field>, total: nat)
    requires Aligned(fields)
  {
    forall i :: 0 <= i < |fields| ==> Offset(fields, i) + fields[i].size <= total
  }

  /** The loops place the fields as early as any placement does, and leave no more room behind the last one
      than the largest alignment asks for. */
  lemma LeastPlacement(fields: seq<Field>, starts: seq<nat>, total: nat)
    requires Aligned(fields)
    ensures Placement(fields, seq(|fields|, i requires 0 <= i < |fields| => Offset(fields, i)))
    ensures Placement(fields, starts) ==> forall i :: 0 <= i < |fields| ==> Offset(fields, i) <= starts[i]
    ensures Multiple(total, AlignmentOf(fields)) && Holds(fields, total) ==> Padded(fields) <= total
  {
    forall i, j | 0 <= i < j < |fields|
      ensures Offset(fields, i) + fields[i].size <= Offset(fields, j)
    {
      NoOverlap(fields, i, j);
    }
    forall i | 0 <= i < |fields|
      ensures Multiple(Offset(fields, i), fields[i].alignment)
    {
      FieldPlaced(fields, i);
    }
    if Placement(fields, starts) {
      forall i | 0 <= i < |fields|
        ensures Offset(fields, i) <= starts[i]
      {
        EarliestStarts(fields, starts, i);
      }
    }
    if Multiple(total, AlignmentOf(fields)) && Holds(fields, total) {
      if fields != [] {
        assert Offset(fields, |fields| - 1) + fields[|fields| - 1].size <= total;
      }
      NextIsLeast(EndOf(fields, |fields|), AlignmentOf(fields), total);
    }
  }

  /** The size is that of the padded fields and the pointer to the virtual table, and never 0. */
  lemma SizeBy(fields: seq<Field>)
    requires Aligned(fields)
    ensures ClassSize(fields, false) == if Padded(fields) == 0 then 1 else Padded(fields)
    ensures InterfaceSize(fields, false) == ClassSize(fields, false)
    ensures ClassSize(fields, true) == Padded(fields) + 8
    ensures InterfaceSize(fields, true) == InterfaceSize(fields, false) + 8
  {
  }

  /** The alignment is that of a field, and the largest; 1 without fields. */
  lemma {:induction false} LargestAlignment(fields: seq<Field>, n: nat)
    requires n <= |fields|
    ensures forall i :: 0 <= i < n ==> fields[i].alignment <= MaxAlignment(fields, n)
    ensures MaxAlignment(fields, n) == 0 || exists i :: 0 <= i < n && fields[i].alignment == MaxAlignment(fields, n)
  {
    if n > 0 {
      LargestAlignment(fields, n - 1);
    }
  }

  lemma AlignmentIsLargest(fields: seq<Field>)
    requires Aligned(fields)
    ensures fields == [] ==> AlignmentOf(fields) == 1
    ensures forall i :: 0 <= i < |fields| ==> fields[i].alignment <= AlignmentOf(fields)
    ensures fields != [] ==> exists i :: 0 <= i < |fields| && fields[i].alignment == AlignmentOf(fields)
  {
    LargestAlignment(fields, |fields|);
  }
}
