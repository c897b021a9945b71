/**
 A decoder for mangled names: two mangled names are equal exactly when the types are.
 */
module Mangling {
  import opened Wrappers
  import opened Types

  // Decimal numbers

  predicate IsDigit(c: char) {
    '0' <= c <= '9'
  }

  /** Number of digits at the front. */
  function DigitRun(s: string): (n: nat)
    ensures n <= |s|
  {
    if s == [] || !IsDigit(s[0]) then 0 else 1 + DigitRun(s[1..])
  }

  function Value(s: string): nat
    requires forall i :: 0 <= i < |s| ==> IsDigit(s[i])
  {
    if s == [] then 0
    else
      assert IsDigit(s[|s| - 1]);
      10 * Value(s[..|s| - 1]) + (s[|s| - 1] as int - '0' as int)
  }

  lemma ValueSnoc(s: string, d: nat)
    requires d < 10 && forall i :: 0 <= i < |s| ==> IsDigit(s[i])
    ensures forall i :: 0 <= i < |s + [Digit(d)]| ==> IsDigit((s + [Digit(d)])[i])
    ensures Value(s + [Digit(d)]) == 10 * Value(s) + d
  {
    assert (s + [Digit(d)])[..|s|] == s;
  }

  lemma {:induction false} DigitsValue(n: nat)
    ensures (forall i :: 0 <= i < |Digits(n)| ==> IsDigit(Digits(n)[i])) && Value(Digits(n)) == n
  {
    if n < 10 {
      ValueSnoc([], n);
      assert [] + [Digit(n)] == [Digit(n)];
    } else {
      DigitsValue(n / 10);
      ValueSnoc(Digits(n / 10), n % 10);
    }
  }

  lemma {:induction false} DigitRunIs(digits: string, rest: string)
    requires forall i :: 0 <= i < |digits| ==> IsDigit(digits[i])
    requires rest != [] ==> !IsDigit(rest[0])
    ensures DigitRun(digits + rest) == |digits|
  {
    if digits == [] {
      assert digits + rest == rest;
    } else {
      assert (digits + rest)[1..] == digits[1..] + rest;
      DigitRunIs(digits[1..], rest);
    }
  }

  lemma {:induction false} RunIsDigits(s: string)
    ensures forall i :: 0 <= i < DigitRun(s) ==> IsDigit(s[i])
  {
    if s != [] && IsDigit(s[0]) {
      RunIsDigits(s[1..]);
    }
  }

  // Decoder

  type Decoded = Option<(Shape, string)>

  predicate Starts(s: string, prefix: string) {
    prefix <= s
  }

  /** A length in digits and as many characters. */
  function DecodeName(s: string): (r: Option<(string, string)>)
    ensures r.Some? ==> |r.value.1| <= |s|
  {
    RunIsDigits(s);
    var n := DigitRun(s);
    var length := Value(s[..n]);
    if n + length <= |s| then Some((s[n..n + length], s[n + length..])) else None
  }

  function DecodeCore(s: string): (r: Decoded)
    ensures r.Some? ==> |r.value.1| < |s|
    decreases |s|, 0
  {
    if Starts(s, "T") then
      match DecodeName(s[1..])
      case None => None
      case Some((name, rest)) => Some((Named(name), rest))
    else if Starts(s, "_FntY.") then
      match DecodeType(s[6..])
      case None => None
      case Some((ret, rest)) => if Starts(rest, "fAr") then DecodeArgs(ret, [], rest[3..]) else None
    else None
  }

  /** Arguments up to the closing mark, `args` having been read. */
  function DecodeArgs(ret: Shape, args: seq<Shape>, s: string): (r: Decoded)
    ensures r.Some? ==> |r.value.1| < |s|
    decreases |s|, 2
  {
    if Starts(s, "fAe") then Some((FunctionOf(args, ret, false), s[3..]))
    else if Starts(s, "VaGvfAe") then Some((FunctionOf(args, ret, true), s[7..]))
    else
      match DecodeType(s)
      case None => None
      case Some((arg, rest)) => DecodeArgs(ret, args + [arg], rest)
  }

  function DecodeSuffixes(shape: Shape, s: string): (r: Decoded)
    ensures r.Some? && |r.value.1| <= |s|
    decreases |s|
  {
    if Starts(s, ".p") then DecodeSuffixes(PointerTo(shape), s[2..])
    else if Starts(s, ".r") then DecodeSuffixes(ReferenceTo(shape), s[2..])
    else Some((shape, s))
  }

  function DecodeType(s: string): (r: Decoded)
    ensures r.Some? ==> |r.value.1| < |s|
    decreases |s|, 1
  {
    match DecodeCore(s)
    case None => None
    case Some((shape, rest)) => DecodeSuffixes(shape, rest)
  }

  // Decoding undoes mangling

  lemma NameDecodes(name: string, u: string)
    requires name != [] && !IsDigit(name[0])
    ensures DecodeName(Digits(|name|) + name + u) == Some((name, u))
  {
    var digits := Digits(|name|);
    var s := digits + name + u;
    DigitsValue(|name|);
    assert s == digits + (name + u);
    DigitRunIs(digits, name + u);
    assert s[..|digits|] == digits;
    assert s[|digits|..|digits| + |name|] == name && s[|digits| + |name|..] == u;
  }

  lemma NamedDecodes(s: string, name: string, u: string)
    requires s != [] && s[0] == 'T' && DecodeName(s[1..]) == Some((name, u))
    ensures DecodeCore(s) == Some((Named(name), u))
  {
  }

  lemma PrimitiveDecodes(t: Type, u: string)
    requires IsPrimitive(t)
    ensures DecodeCore(Mangled(t) + u) == Some((ShapeOf(t), u))
  {
    PrimitiveName(t);
    NameDecodes(Name(t), u);
    assert (Mangled(t) + u)[1..] == Digits(|Name(t)|) + Name(t) + u;
    NamedDecodes(Mangled(t) + u, Name(t), u);
  }

  lemma StartsWith(prefix: string, rest: string)
    ensures Starts(prefix + rest, prefix) && (prefix + rest)[|prefix|..] == rest
  {
  }

  /** Whatever follows a mangled name, decoding it and then the suffixes behind it is decoding it all. */
  lemma {:induction false} TypeDecodes(t: Type, u: string)
    ensures DecodeType(Mangled(t) + u) == DecodeSuffixes(ShapeOf(t), u)
    decreases t, 1
  {
    if t.Pointer? {
      PointerDecodes(t, u);
    } else if t.Reference? {
      ReferenceDecodes(t, u);
    } else if t.Function? {
      FunctionDecodes(t, u);
    } else {
      PrimitiveDecodes(t, u);
    }
  }

  lemma {:induction false} PointerDecodes(t: Type, u: string)
    requires t.Pointer?
    ensures DecodeType(Mangled(t) + u) == DecodeSuffixes(ShapeOf(t), u)
    decreases t, 0
  {
    assert Mangled(t) + u == Mangled(t.base) + (".p" + u);
    TypeDecodes(t.base, ".p" + u);
    StartsWith(".p", u);
  }

  lemma {:induction false} ReferenceDecodes(t: Type, u: string)
    requires t.Reference?
    ensures DecodeType(Mangled(t) + u) == DecodeSuffixes(ShapeOf(t), u)
    decreases t, 0
  {
    assert Mangled(t) + u == Mangled(t.base) + (".r" + u);
    TypeDecodes(t.base, ".r" + u);
    StartsWith(".r", u);
    assert (".r" + u)[1] == 'r';
  }

  lemma NoDotAhead(shape: Shape, s: string)
    requires s != [] ==> s[0] != '.'
    ensures DecodeSuffixes(shape, s) == Some((shape, s))
  {
  }

  lemma RegroupFunction(ret: string, args: string, closing: string, u: string)
    ensures "_FntY." + (ret + ("fAr" + (args + closing))) + u == "_FntY." + (ret + ("fAr" + (args + (closing + u))))
  {
  }

  lemma {:induction false} FunctionDecodes(t: Type, u: string)
    requires t.Function?
    ensures DecodeCore(Mangled(t) + u) == Some((ShapeOf(t), u))
    decreases t, 0
  {
    var args := MangledAll(t.args) + (Closing(t.variadic) + u);
    var s := Mangled(t.ret) + ("fAr" + args);
    assert DecodeType(s) == Some((ShapeOf(t.ret), "fAr" + args)) by {
      TypeDecodes(t.ret, "fAr" + args);
      NoDotAhead(ShapeOf(t.ret), "fAr" + args);
    }
    assert DecodeArgs(ShapeOf(t.ret), [], args) == Some((ShapeOf(t), u)) by {
      ArgsDecode(ShapeOf(t.ret), [], t.args, t.variadic, u);
      assert [] + ShapesOf(t.args) == ShapesOf(t.args);
    }
    RegroupFunction(Mangled(t.ret), MangledAll(t.args), Closing(t.variadic), u);
    FunctionCore(s, ShapeOf(t.ret), args);
  }

  lemma FunctionCore(s: string, ret: Shape, args: string)
    requires DecodeType(s) == Some((ret, "fAr" + args))
    ensures DecodeCore("_FntY." + s) == DecodeArgs(ret, [], args)
  {
    StartsWith("_FntY.", s);
    StartsWith("fAr", args);
    assert ("_FntY." + s)[0] == '_';
  }

  lemma {:induction false} ArgsDecode(ret: Shape, read: seq<Shape>, args: seq<Type>, variadic: bool, u: string)
    ensures DecodeArgs(ret, read, MangledAll(args) + (Closing(variadic) + u))
      == Some((FunctionOf(read + ShapesOf(args), ret, variadic), u))
    decreases args
  {
    if args == [] {
      assert MangledAll(args) + (Closing(variadic) + u) == Closing(variadic) + u;
      ClosingDecodes(ret, read, variadic, u);
      assert read + [] == read;
    } else {
      var rest := MangledAll(args[1..]) + (Closing(variadic) + u);
      assert MangledAll(args) + (Closing(variadic) + u) == Mangled(args[0]) + rest;
      assert DecodeType(Mangled(args[0]) + rest) == Some((ShapeOf(args[0]), rest)) by {
        TypeDecodes(args[0], rest);
        NoSuffixAhead(ShapeOf(args[0]), args[1..], variadic, u);
      }
      FirstLetter(args[0]);
      ArgDecodes(ret, read, ShapeOf(args[0]), Mangled(args[0]) + rest, rest);
      ArgsDecode(ret, read + [ShapeOf(args[0])], args[1..], variadic, u);
      assert read + [ShapeOf(args[0])] + ShapesOf(args[1..]) == read + ShapesOf(args);
    }
  }

  lemma ClosingDecodes(ret: Shape, read: seq<Shape>, variadic: bool, u: string)
    ensures DecodeArgs(ret, read, Closing(variadic) + u) == Some((FunctionOf(read, ret, variadic), u))
  {
    StartsWith(Closing(variadic), u);
    if variadic {
      assert (Closing(variadic) + u)[0] == 'V';
    }
  }

  lemma ArgDecodes(ret: Shape, read: seq<Shape>, arg: Shape, s: string, rest: string)
    requires s != [] && (s[0] == 'T' || s[0] == '_') && DecodeType(s) == Some((arg, rest))
    ensures DecodeArgs(ret, read, s) == DecodeArgs(ret, read + [arg], rest)
  {
  }

  lemma {:induction false} FirstLetter(t: Type)
    ensures Mangled(t) != [] && (Mangled(t)[0] == 'T' || Mangled(t)[0] == '_')
  {
    if t.Pointer? || t.Reference? {
      FirstLetter(t.base);
    }
  }

  lemma NoSuffixAhead(shape: Shape, args: seq<Type>, variadic: bool, u: string)
    ensures var rest := MangledAll(args) + (Closing(variadic) + u); DecodeSuffixes(shape, rest) == Some((shape, rest))
  {
    var rest := MangledAll(args) + (Closing(variadic) + u);
    if args != [] {
      FirstLetter(args[0]);
      assert rest[0] == Mangled(args[0])[0];
    } else {
      assert rest[0] == Closing(variadic)[0];
    }
    NoDotAhead(shape, rest);
  }

  /** A mangled name decodes to the shape of its type. */
  lemma MangledDecodes(t: Type)
    ensures DecodeType(Mangled(t)) == Some((ShapeOf(t), ""))
  {
    assert Mangled(t) + "" == Mangled(t);
    TypeDecodes(t, "");
  }

  /** Mangled names are equal exactly when the types are equal. */
  lemma MangledIffIs(a: Type, b: Type)
    ensures Mangled(a) == Mangled(b) <==> Is(a, b)
  {
    IsIffSameShape(a, b);
    MangledDecodes(a);
    MangledDecodes(b);
    if ShapeOf(a) == ShapeOf(b) {
      SameShapeSameName(a, b);
    }
  }

  lemma {:induction false} SameShapeSameName(a: Type, b: Type)
    requires ShapeOf(a) == ShapeOf(b)
    ensures Mangled(a) == Mangled(b)
    decreases a, 1
  {
    match a
    case Pointer(base, _) => SameShapeSameName(base, b.base);
    case Reference(base) => SameShapeSameName(base, b.base);
    case Function(args, ret, _, _) =>
      SameShapeSameName(ret, b.ret);
      SameShapesSameNames(args, b.args);
    case _ =>
  }

  lemma {:induction false} SameShapesSameNames(a: seq<Type>, b: seq<Type>)
    requires ShapesOf(a) == ShapesOf(b)
    ensures MangledAll(a) == MangledAll(b)
    decreases a, 0
  {
    if a != [] {
      assert ShapesOf(a)[0] == ShapesOf(b)[0];
      SameShapeSameName(a[0], b[0]);
      assert ShapesOf(a)[1..] == ShapesOf(b)[1..];
      SameShapesSameNames(a[1..], b[1..]);
    }
  }

  // Names of primitive types

  lemma SignShows(n: int)
    ensures ToString(n) != [] && (n < 0 <==> ToString(n)[0] == '-')
    ensures ToString(n)[if n < 0 then 1 else 0..] == Digits(if n < 0 then -n else n)
  {
    DigitsValue(if n < 0 then -n else n);
    assert IsDigit(Digits(if n < 0 then -n else n)[0]);
  }

  lemma NumberNamesDiffer(m: int, n: int)
    requires ToString(m) == ToString(n)
    ensures m == n
  {
    SignShows(m);
    SignShows(n);
    DigitsValue(if m < 0 then -m else m);
    DigitsValue(if n < 0 then -n else n);
  }

  lemma NameBegins(t: Type)
    requires IsPrimitive(t)
    ensures Name(t) != []
    ensures Name(t)[0] == match t
                          case Void => 'v'
                          case Float(_) => 'f'
                          case Int(bits, signed) => if bits == 1 then 'b' else if signed then 'i' else 'u'
    ensures t.Int? && t.bits != 1 ==> Name(t)[1..] == ToString(t.bits)
    ensures t.Float? ==> Name(t)[1..] == ToString(t.bits)
  {
    match t
    case Void => assert "void"[0] == 'v';
    case Float(bits) => assert ("f" + ToString(bits))[1..] == ToString(bits);
    case Int(bits, signed) =>
      assert "bool"[0] == 'b';
      assert ("i" + ToString(bits))[1..] == ToString(bits) && ("u" + ToString(bits))[1..] == ToString(bits);
  }

  /** Primitive types are equal if and only if they are the same, a bit being `bool` with either sign. */
  lemma PrimitivesDiffer(a: Type, b: Type)
    requires IsPrimitive(a) && IsPrimitive(b)
    ensures Is(a, b) <==> a == b || (a.Int? && b.Int? && a.bits == b.bits == 1)
  {
    NameBegins(a);
    NameBegins(b);
    if Name(a) == Name(b) && ((a.Int? && a.bits != 1) || a.Float?) {
      NumberNamesDiffer(a.bits, b.bits);
    }
  }

  lemma TwoDigits(n: nat)
    requires 10 <= n < 100
    ensures Digits(n) == [Digit(n / 10), Digit(n % 10)]
  {
    assert Digits(n / 10) == [Digit(n / 10)];
  }

  /** Some primitive types by their names. */
  lemma PrimitiveNames()
    ensures Name(Void) == "void" && Name(Int(1, true)) == "bool"
    ensures Name(Int(8, true)) == "i8" && Name(Int(16, true)) == "i16" && Name(Int(32, true)) == "i32"
    ensures Name(Int(64, true)) == "i64" && Name(Float(32)) == "f32" && Name(Float(64)) == "f64"
    ensures Name(Int(8, false)) == "u8" && Name(Int(64, false)) == "u64"
  {
    TwoDigits(16);
    TwoDigits(32);
    TwoDigits(64);
  }

  /** A pointer to nothing, and a function of a number that returns a reference to one, mangled. */
  lemma MangledNames()
    ensures Mangled(Pointer(Void, true)) == "T4void.p"
    ensures Mangled(Function([Int(32, true)], Reference(Int(8, false)), false, true)) == "_FntY.T2u8.rfArT3i32fAe"
  {
    PrimitiveNames();
    assert Mangled(Int(32, true)) == "T3i32" && Mangled(Int(8, false)) == "T2u8";
    assert MangledAll([Int(32, true)]) == "T3i32";
  }
}
