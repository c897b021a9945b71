/**
 Primitive, pointer, reference and function types: their equality and their mangled names.
 */
module Types {
  import opened Wrappers

  datatype Type =
    | Void
    | Int(bits: int, signed: bool)
    | Float(bits: int)
    | Pointer(base: Type, isMutable: bool)
    | Reference(base: Type)
    | Function(args: seq<Type>, ret: Type, variadic: bool, isMutable: bool)

  // Numbers in names

  function Digit(d: nat): char
    requires d < 10
  {
    ('0' as int + d) as char
  }

  function Digits(n: nat): (s: string)
    ensures s != []
  {
    if n < 10 then [Digit(n)] else Digits(n / 10) + [Digit(n % 10)]
  }

  /** `std::to_string` */
  function ToString(n: int): string {
    if n < 0 then "-" + Digits(-n) else Digits(n)
  }

  // Names and equality

  predicate IsPrimitive(t: Type) {
    t.Void? || t.Int? || t.Float?
  }

  /** `getName` */
  function Name(t: Type): string {
    match t
    case Void => "void"
    case Int(bits, signed) => if bits == 1 then "bool" else (if signed then "i" else "u") + ToString(bits)
    case Float(bits) => "f" + ToString(bits)
    case Pointer(_, isMutable) => if isMutable then "$mut-pointer" else "$const-pointer"
    case Reference(base) => "&" + Name(base)
    case Function(_, _, _, _) => "<fn type>"
  }

  /** `is`, dispatched on the left type. */
  predicate Is(a: Type, b: Type)
    decreases a
  {
    match a
    case Pointer(base, _) => b.Pointer? && Is(base, b.base)
    case Reference(base) => b.Reference? && Is(base, b.base)
    case Function(args, ret, variadic, _) =>
      b.Function? && |args| == |b.args| && (forall i :: 0 <= i < |args| ==> Is(args[i], b.args[i]))
      && Is(ret, b.ret) && variadic == b.variadic
    case _ => Name(a) == Name(b)
  }

  // Mangled names

  /** `getMangledName` */
  function Mangled(t: Type): string
    decreases t, 1
  {
    match t
    case Pointer(base, _) => Mangled(base) + ".p"
    case Reference(base) => Mangled(base) + ".r"
    case Function(args, ret, variadic, _) =>
      "_FntY." + (Mangled(ret) + ("fAr" + (MangledAll(args) + Closing(variadic))))
    case _ => "T" + (Digits(|Name(t)|) + Name(t))
  }

  function Closing(variadic: bool): string {
    if variadic then "VaGvfAe" else "fAe"
  }

  function MangledAll(ts: seq<Type>): string
    decreases ts, 0
  {
    if ts == [] then "" else Mangled(ts[0]) + MangledAll(ts[1..])
  }

  /** The loop of `FunctionType::getMangledName` that appends to the result. */
  method MangleFunction(t: Type) returns (result: string)
    requires t.Function?
    ensures result == Mangled(t)
  {
    result := "_FntY.";
    result := result + Mangled(t.ret);
    result := result + "fAr";
    result := MangleArgs(result, t.args);
    if t.variadic {
      result := result + "VaGv";
    }
    result := result + "fAe";
    Assembled(Mangled(t.ret), MangledAll(t.args), t.variadic);
  }

  method MangleArgs(before: string, args: seq<Type>) returns (result: string)
    ensures result == before + MangledAll(args)
  {
    result := before;
    for i := 0 to |args|
      invariant result + MangledAll(args[i..]) == before + MangledAll(args)
    {
      FirstMangled(result, args[i..]);
      assert args[i..][1..] == args[i + 1..];
      result := result + Mangled(args[i]);
    }
    assert result + [] == result;
  }

  lemma FirstMangled(before: string, args: seq<Type>)
    requires args != []
    ensures before + MangledAll(args) == before + Mangled(args[0]) + MangledAll(args[1..])
  {
  }

  lemma Assembled(ret: string, args: string, variadic: bool)
    ensures "_FntY." + ret + "fAr" + args + (if variadic then "VaGv" else "") + "fAe"
         == "_FntY." + (ret + ("fAr" + (args + Closing(variadic))))
  {
    assert "VaGv" + "fAe" == "VaGvfAe";
  }

  // What `is` can see of a type

  /** A type without the mutability of pointers and functions, primitives by their name. */
  datatype Shape = Named(name: string) | PointerTo(base: Shape) | ReferenceTo(base: Shape)
    | FunctionOf(args: seq<Shape>, ret: Shape, variadic: bool)

  function ShapeOf(t: Type): Shape
    decreases t, 1
  {
    match t
    case Pointer(base, _) => PointerTo(ShapeOf(base))
    case Reference(base) => ReferenceTo(ShapeOf(base))
    case Function(args, ret, variadic, _) => FunctionOf(ShapesOf(args), ShapeOf(ret), variadic)
    case _ => Named(Name(t))
  }

  function ShapesOf(ts: seq<Type>): (shapes: seq<Shape>)
    ensures |shapes| == |ts| && forall i :: 0 <= i < |ts| ==> shapes[i] == ShapeOf(ts[i])
    decreases ts, 0
  {
    if ts == [] then [] else [ShapeOf(ts[0])] + ShapesOf(ts[1..])
  }

  lemma PrimitiveName(t: Type)
    ensures Name(t) != []
    ensures IsPrimitive(t) <==> Name(t)[0] in "vbiuf"
  {
  }

  /** `is` is equality of shapes. */
  lemma {:induction false} IsIffSameShape(a: Type, b: Type)
    ensures Is(a, b) <==> ShapeOf(a) == ShapeOf(b)
    decreases a
  {
    PrimitiveName(a);
    PrimitiveName(b);
    match a
    case Pointer(base, _) =>
      if b.Pointer? {
        IsIffSameShape(base, b.base);
      }
    case Reference(base) =>
      if b.Reference? {
        IsIffSameShape(base, b.base);
      }
    case Function(args, ret, _, _) =>
      if b.Function? && |args| == |b.args| {
        IsIffSameShape(ret, b.ret);
        forall i | 0 <= i < |args|
          ensures Is(args[i], b.args[i]) <==> ShapesOf(args)[i] == ShapesOf(b.args)[i]
        {
          IsIffSameShape(args[i], b.args[i]);
        }
      }
    case _ =>
  }

  /** So it is an equivalence, pointers of different mutability being equal. */
  lemma IsEquivalence(a: Type, b: Type, c: Type)
    ensures Is(a, a)
    ensures Is(a, b) ==> Is(b, a)
    ensures Is(a, b) && Is(b, c) ==> Is(a, c)
    ensures Is(Pointer(a, true), Pointer(a, false))
  {
    IsIffSameShape(a, a);
    IsIffSameShape(a, b);
    IsIffSameShape(b, a);
    IsIffSameShape(b, c);
    IsIffSameShape(a, c);
  }
}
