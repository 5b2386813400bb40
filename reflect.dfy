/**
 * The part of Go's type system and of package `reflect` that the population
 * engine observes: a closed description of Go types, explicit values that
 * carry their type, zero values, `IsZero`, kinds, bit widths, method sets,
 * and the assignability and convertibility relations between types.
 */
module Reflect {
  import opened Base
  import opened GoStrings
  import Strconv

  /** `reflect.Kind`. */
  datatype Kind =
    | Bool
    | Int | Int8 | Int16 | Int32 | Int64
    | Uint | Uint8 | Uint16 | Uint32 | Uint64 | Uintptr
    | Float32 | Float64 | Complex64 | Complex128
    | String
    | Array | Chan | Func | Interface | Map | Ptr | Slice | Struct

  predicate IsBasicKind(k: Kind)
  {
    !(k.Array? || k.Chan? || k.Func? || k.Interface? || k.Map? || k.Ptr? || k.Slice? || k.Struct?)
  }

  predicate IsSignedKind(k: Kind) { k.Int? || k.Int8? || k.Int16? || k.Int32? || k.Int64? }
  predicate IsUnsignedKind(k: Kind) { k.Uint? || k.Uint8? || k.Uint16? || k.Uint32? || k.Uint64? || k.Uintptr? }
  predicate IsIntegerKind(k: Kind) { IsSignedKind(k) || IsUnsignedKind(k) }
  predicate IsFloatKind(k: Kind) { k.Float32? || k.Float64? }
  predicate IsComplexKind(k: Kind) { k.Complex64? || k.Complex128? }

  /** The name Go gives the predeclared type of a basic kind. */
  function BasicName(k: Kind): string
    requires IsBasicKind(k)
  {
    match k
    case Bool => "bool"
    case Int => "int" case Int8 => "int8" case Int16 => "int16" case Int32 => "int32" case Int64 => "int64"
    case Uint => "uint" case Uint8 => "uint8" case Uint16 => "uint16" case Uint32 => "uint32"
    case Uint64 => "uint64" case Uintptr => "uintptr"
    case Float32 => "float32" case Float64 => "float64"
    case Complex64 => "complex64" case Complex128 => "complex128"
    case String => "string"
  }

  /** `reflect.Type.Bits` on a 64-bit platform; 0 for kinds without a size in bits. */
  function KindBits(k: Kind): nat
  {
    match k
    case Int8 | Uint8 => 8
    case Int16 | Uint16 => 16
    case Int32 | Uint32 | Float32 => 32
    case Int | Int64 | Uint | Uint64 | Uintptr | Float64 | Complex64 => 64
    case Complex128 => 128
    case _ => 0
  }

  /**
   * A Go type. `name` is the declared name ("" for a type literal, the
   * predeclared name for a basic type); `methods` are the methods declared
   * with a value receiver and `ptrMethods` those declared with a pointer
   * receiver.
   */
  datatype Ty = Ty(name: string, methods: set<string>, ptrMethods: set<string>, shape: Shape)

  /** The structure of a type. */
  datatype Shape =
    | Basic(kind: Kind)
    | SliceOf(elem: Ty)
    | ArrayOf(elem: Ty, len: nat)
    | PtrTo(elem: Ty)
    | StructOf(fields: seq<Field>)
    | MapOf(key: Ty, value: Ty)
    | ChanOf(elem: Ty)
    | FuncOf
    | InterfaceOf(required: set<string>)

  /** A struct field: its name, whether it is exported, its tags (`env`, `default`, ...) and its type. */
  datatype Field = Field(name: string, exported: bool, tags: map<string, string>, ty: Ty)

  /** `reflect.StructTag.Get`: the value under `key`, or "" when the tag has none. */
  function Tag(f: Field, key: string): string
  {
    if key in f.tags then f.tags[key] else ""
  }

  /** `reflect.Type.Kind`. */
  function KindOf(t: Ty): (k: Kind)
    ensures k == Slice <==> t.shape.SliceOf?
    ensures k == Array <==> t.shape.ArrayOf?
    ensures k == Ptr <==> t.shape.PtrTo?
    ensures k == Struct <==> t.shape.StructOf?
    ensures k == Map <==> t.shape.MapOf?
    ensures k == Chan <==> t.shape.ChanOf?
    ensures k == Func <==> t.shape.FuncOf?
  {
    match t.shape
    case Basic(k) => if IsBasicKind(k) then k else Interface
    case SliceOf(_) => Slice
    case ArrayOf(_, _) => Array
    case PtrTo(_) => Ptr
    case StructOf(_) => Struct
    case MapOf(_, _) => Map
    case ChanOf(_) => Chan
    case FuncOf => Func
    case InterfaceOf(_) => Interface
  }

  /** The predeclared type of a basic kind. */
  function Predeclared(k: Kind): (t: Ty)
    requires IsBasicKind(k)
    ensures KindOf(t) == k
  {
    Ty(BasicName(k), {}, {}, Basic(k))
  }

  /** `reflect.PointerTo`. */
  function PointerTo(t: Ty): (p: Ty)
    ensures KindOf(p) == Ptr
  {
    Ty("", {}, {}, PtrTo(t))
  }

  /** The unnamed slice type `[]t`. */
  function SliceType(t: Ty): (s: Ty)
    ensures KindOf(s) == Slice
  {
    Ty("", {}, {}, SliceOf(t))
  }

  predicate HasElem(t: Ty)
  {
    t.shape.SliceOf? || t.shape.ArrayOf? || t.shape.PtrTo? || t.shape.ChanOf? || t.shape.MapOf?
  }

  /** `reflect.Type.Elem`. */
  function Elem(t: Ty): Ty
    requires HasElem(t)
  {
    match t.shape
    case SliceOf(e) => e
    case ArrayOf(e, _) => e
    case PtrTo(e) => e
    case ChanOf(e) => e
    case MapOf(_, v) => v
  }

  /** `reflect.Type.Bits`. */
  function Bits(t: Ty): nat
  {
    KindBits(KindOf(t))
  }

  /** `reflect.Type.String`: the declared name, or the type literal spelled out. */
  function TypeString(t: Ty): string
  {
    if t.name != "" then t.name
    else match t.shape
      case Basic(k) => if IsBasicKind(k) then BasicName(k) else "interface {}"
      case SliceOf(e) => "[]" + TypeString(e)
      case ArrayOf(e, n) => "[" + NatToString(n) + "]" + TypeString(e)
      case PtrTo(e) => "*" + TypeString(e)
      case StructOf(_) => "struct {...}"
      case MapOf(k, v) => "map[" + TypeString(k) + "]" + TypeString(v)
      case ChanOf(e) => "chan " + TypeString(e)
      case FuncOf => "func()"
      case InterfaceOf(m) => if m == {} then "interface {}" else "interface {...}"
  }

  /**
   * The method set of a type: a pointer type also has its base type's methods,
   * including those with a pointer receiver, except that a pointer to an
   * interface has no methods.
   */
  function MethodSet(t: Ty): set<string>
  {
    match t.shape
    case PtrTo(e) => if e.shape.InterfaceOf? then t.methods else t.methods + e.methods + e.ptrMethods
    case InterfaceOf(m) => m
    case _ => t.methods
  }

  /** `reflect.Type.Implements` for an interface requiring the methods `required`. */
  predicate Implements(t: Ty, required: set<string>)
  {
    required <= MethodSet(t)
  }

  /** The single method of `encoding.TextUnmarshaler`. */
  const UnmarshalText := "UnmarshalText"

  /** True when `t` implements `encoding.TextUnmarshaler`. */
  predicate IsTextUnmarshaler(t: Ty)
  {
    Implements(t, {UnmarshalText})
  }

  /** Which receiver, if any, gives a type the text-decoding capability. */
  datatype DecodeCap = NoDecode | ValueReceiver | PointerReceiver

  function DecodeCapOf(t: Ty): (c: DecodeCap)
    ensures c == ValueReceiver <==> IsTextUnmarshaler(t)
    ensures c == PointerReceiver <==> !IsTextUnmarshaler(t) && IsTextUnmarshaler(PointerTo(t))
  {
    if IsTextUnmarshaler(t) then ValueReceiver
    else if IsTextUnmarshaler(PointerTo(t)) then PointerReceiver
    else NoDecode
  }

  /** The underlying type: basic types are their own predeclared type, other types lose name and methods. */
  function Underlying(t: Ty): Ty
  {
    match t.shape
    case Basic(k) => if IsBasicKind(k) then Predeclared(k) else Ty("", {}, {}, t.shape)
    case _ => Ty("", {}, {}, t.shape)
  }

  predicate IsNamed(t: Ty)
  {
    t.name != ""
  }

  /** `reflect.Type.AssignableTo` (Go specification, "Assignability"), without channel directions. */
  predicate AssignableTo(v: Ty, t: Ty)
  {
    || v == t
    || (Underlying(v) == Underlying(t) && (!IsNamed(v) || !IsNamed(t)))
    || (t.shape.InterfaceOf? && Implements(v, t.shape.required))
  }

  predicate IsNumericKind(k: Kind) { IsIntegerKind(k) || IsFloatKind(k) }

  predicate IsByteOrRuneSlice(t: Ty)
  {
    t.shape.SliceOf? && (KindOf(Elem(t)) == Uint8 || KindOf(Elem(t)) == Int32)
  }

  /** `reflect.Type.ConvertibleTo` (Go specification, "Conversions"), without struct-tag erasure. */
  predicate ConvertibleTo(v: Ty, t: Ty)
  {
    || AssignableTo(v, t)
    || Underlying(v) == Underlying(t)
    || (v.shape.PtrTo? && t.shape.PtrTo? && !IsNamed(v) && !IsNamed(t)
        && Underlying(Elem(v)) == Underlying(Elem(t)))
    || (IsNumericKind(KindOf(v)) && IsNumericKind(KindOf(t)))
    || (IsComplexKind(KindOf(v)) && IsComplexKind(KindOf(t)))
    || ((IsIntegerKind(KindOf(v)) || IsByteOrRuneSlice(v)) && KindOf(t) == String)
    || (KindOf(v) == String && IsByteOrRuneSlice(t))
    || (v.shape.SliceOf? && t.shape.ArrayOf? && Elem(v) == Elem(t))
    || (v.shape.SliceOf? && t.shape.PtrTo? && Elem(t).shape.ArrayOf? && Elem(v) == Elem(Elem(t)))
  }

  /**
   * A Go value together with its type. Floating-point numbers are held as
   * the bits of their IEEE-754 binary64 encoding (as `reflect` holds every
   * float); `isNil` marks a nil slice, and `None` a nil pointer, interface,
   * map, channel or function; `RefV` is a map, channel or function, whose contents the
   * engine never inspects.
   */
  datatype Value =
    | BoolV(t: Ty, b: bool)
    | IntV(t: Ty, i: int)
    | FloatV(t: Ty, bits: nat)
    | ComplexV(t: Ty, re: nat, im: nat)
    | StringV(t: Ty, s: string)
    | SliceV(t: Ty, isNil: bool, elems: seq<Value>)
    | ArrayV(t: Ty, items: seq<Value>)
    | PtrV(t: Ty, target: Option<Value>)
    | StructV(t: Ty, fields: seq<Value>)
    | IfaceV(t: Ty, dyn: Option<Value>)
    | RefV(t: Ty, ref: Option<nat>)

  /** `reflect.Value.Type`. */
  function TypeOf(v: Value): Ty
  {
    v.t
  }

  /** `reflect.Zero`: the zero value of a type. */
  function Zero(t: Ty): (z: Value)
    ensures z.t == t
    decreases t
  {
    match t.shape
    case Basic(k) =>
      if k == Bool then BoolV(t, false)
      else if IsIntegerKind(k) then IntV(t, 0)
      else if IsFloatKind(k) then FloatV(t, 0)
      else if IsComplexKind(k) then ComplexV(t, 0, 0)
      else if k == String then StringV(t, "")
      else IfaceV(t, None)
    case SliceOf(_) => SliceV(t, true, [])
    case ArrayOf(e, n) => ArrayV(t, seq(n, _ => Zero(e)))
    case PtrTo(_) => PtrV(t, None)
    case StructOf(fs) => StructV(t, seq(|fs|, i requires 0 <= i < |fs| => Zero(fs[i].ty)))
    case MapOf(_, _) => RefV(t, None)
    case ChanOf(_) => RefV(t, None)
    case FuncOf => RefV(t, None)
    case InterfaceOf(_) => IfaceV(t, None)
  }

  /** `reflect.Value.IsZero`: false, 0, the all-zero float bits, "", nil, or all parts zero. */
  predicate IsZero(v: Value)
    decreases v
  {
    match v
    case BoolV(_, b) => !b
    case IntV(_, i) => i == 0
    case FloatV(_, bits) => bits == 0
    case ComplexV(_, re, im) => re == 0 && im == 0
    case StringV(_, s) => s == ""
    case SliceV(_, isNil, _) => isNil
    case ArrayV(_, items) => forall i :: 0 <= i < |items| ==> IsZero(items[i])
    case PtrV(_, p) => p.None?
    case StructV(_, fs) => forall i :: 0 <= i < |fs| ==> IsZero(fs[i])
    case IfaceV(_, d) => d.None?
    case RefV(_, r) => r.None?
  }

  /** Every zero value is zero. */
  lemma {:induction false} ZeroIsZero(t: Ty)
    ensures IsZero(Zero(t))
    decreases t
  {
    match t.shape
    case ArrayOf(e, n) =>
      ZeroIsZero(e);
    case StructOf(fs) =>
      forall i | 0 <= i < |fs| ensures IsZero(Zero(t).fields[i]) {
        ZeroIsZero(fs[i].ty);
      }
    case _ =>
  }

  /** The value range of an integer kind. */
  predicate InRange(k: Kind, i: int)
  {
    if IsSignedKind(k) then Strconv.MinInt(KindBits(k)) <= i <= Strconv.MaxInt(KindBits(k))
    else if IsUnsignedKind(k) then 0 <= i <= Strconv.MaxUint(KindBits(k))
    else true
  }

  /** Two's-complement wrap-around of an integer conversion to kind `k`. */
  function Wrap(i: int, k: Kind): (r: int)
    requires IsIntegerKind(k)
    ensures InRange(k, r)
    ensures InRange(k, i) ==> r == i
  {
    if IsSignedKind(k) then WrapSigned(i, KindBits(k)) else WrapUnsigned(i, KindBits(k))
  }

  /** `i` reduced modulo 2^bits into the unsigned range. */
  function WrapUnsigned(i: int, bits: nat): (r: int)
    ensures 0 <= r <= Strconv.MaxUint(bits)
    ensures 0 <= i <= Strconv.MaxUint(bits) ==> r == i
  {
    var m := Strconv.MaxUint(bits) + 1;
    if 0 <= i < m then i else i % m
  }

  /** `i` reduced modulo 2^bits into the two's-complement range. */
  function WrapSigned(i: int, bits: nat): (r: int)
    requires bits >= 1
    ensures Strconv.MinInt(bits) <= r <= Strconv.MaxInt(bits)
    ensures Strconv.MinInt(bits) <= i <= Strconv.MaxInt(bits) ==> r == i
  {
    var half := Strconv.Half(bits);
    Strconv.PowersWritten(bits);
    WrapUnsigned(i + half, bits) - half
  }

  /** A value whose shape agrees with its type all the way down, with integers in range. */
  predicate Conforms(v: Value)
    decreases v
  {
    var t := v.t;
    match v
    case BoolV(_, _) => KindOf(t) == Bool
    case IntV(_, i) => IsIntegerKind(KindOf(t)) && InRange(KindOf(t), i)
    case FloatV(_, _) => IsFloatKind(KindOf(t))
    case ComplexV(_, _, _) => IsComplexKind(KindOf(t))
    case StringV(_, _) => KindOf(t) == String
    case SliceV(_, isNil, es) =>
      t.shape.SliceOf? && (isNil ==> es == [])
      && forall i :: 0 <= i < |es| ==> Conforms(es[i]) && es[i].t == Elem(t)
    case ArrayV(_, items) =>
      t.shape.ArrayOf? && |items| == t.shape.len
      && forall i :: 0 <= i < |items| ==> Conforms(items[i]) && items[i].t == Elem(t)
    case PtrV(_, p) => t.shape.PtrTo? && (p.Some? ==> Conforms(p.value) && p.value.t == Elem(t))
    case StructV(_, fs) =>
      t.shape.StructOf? && |fs| == |t.shape.fields|
      && forall i :: 0 <= i < |fs| ==> Conforms(fs[i]) && fs[i].t == t.shape.fields[i].ty
    case IfaceV(_, d) => KindOf(t) == Interface && (d.Some? ==> Conforms(d.value) && !d.value.IfaceV?)
    case RefV(_, _) => KindOf(t) == Map || KindOf(t) == Chan || KindOf(t) == Func
  }
}
