/**
 * The byte options of the typecast package: a byte slice receives the UTF-8
 * bytes of the raw text verbatim, and a fixed-size byte array receives as
 * many of them as fit, the rest staying zero.
 */
module TypecastBytes {
  import opened Base
  import opened GoStrings
  import opened Reflect
  import opened Host
  import Strconv

  const Uint8T := Predeclared(Uint8)

  /** The unnamed type `[]byte`. */
  const ByteSliceT := SliceType(Uint8T)

  /** The integers held by a sequence of values (0 for a value that is not an integer). */
  function IntsOf(vs: seq<Value>): (r: seq<int>)
    ensures |r| == |vs|
    ensures forall i :: 0 <= i < |vs| && vs[i].IntV? ==> r[i] == vs[i].i
  {
    seq(|vs|, i requires 0 <= i < |vs| => if vs[i].IntV? then vs[i].i else 0)
  }

  /** `ByteSliceOptionType.Supports`. */
  predicate ByteSliceSupports(t: Ty)
  {
    KindOf(t) == Slice && KindOf(Elem(t)) == Uint8
  }

  /**
   * `ByteSliceOptionType.Cast`: the bytes of the raw text, untrimmed, as a
   * non-nil `[]byte`, whatever the target; it never fails.
   */
  function ByteSliceCast(raw: string): (r: Value)
    ensures r.SliceV? && r.t == ByteSliceT && !r.isNil
    ensures IntsOf(r.elems) == Utf8(raw)
    ensures forall i :: 0 <= i < |r.elems| ==> r.elems[i] == IntV(Uint8T, Utf8(raw)[i])
  {
    var bs := Utf8(raw);
    SliceV(ByteSliceT, false, seq(|bs|, i requires 0 <= i < |bs| => IntV(Uint8T, bs[i])))
  }

  /** ASCII text is copied one byte per character, white space included. */
  lemma ByteSliceOfAscii(raw: string)
    requires IsAscii(raw)
    ensures |ByteSliceCast(raw).elems| == |raw|
    ensures forall i :: 0 <= i < |raw| ==> ByteSliceCast(raw).elems[i].i == raw[i] as int
  {
    Utf8OfAscii(raw);
  }

  /** A byte converted to a type of kind `uint8` keeps its value. */
  lemma ConvertByte(rt: Runtime, b: byte, e: Ty)
    requires KindOf(e) == Uint8
    ensures Convert(rt, IntV(Uint8T, b), e) == IntV(e, b)
  {
    assert Strconv.Pow2(8) == 256;
    assert InRange(Uint8, b);
  }

  /** A byte held at the target's element type. */
  function ByteElem(rt: Runtime, b: byte, e: Ty): (v: Value)
    requires KindOf(e) == Uint8
    ensures v == IntV(e, b)
  {
    ConvertByte(rt, b, e);
    Convert(rt, IntV(Uint8T, b), e)
  }

  /** `ByteArrayOptionType.Supports`. */
  predicate ByteArraySupports(t: Ty)
  {
    KindOf(t) == Array && KindOf(Elem(t)) == Uint8
  }

  /**
   * `ByteArrayOptionType.Cast`: a zero array of the target type whose first
   * `min(len(bytes), N)` elements are set, one by one, to the raw text's
   * bytes; longer text is cut off and shorter text leaves zeros behind.
   */
  method ByteArrayCast(rt: Runtime, raw: string, t: Ty) returns (r: Value)
    requires ByteArraySupports(t)
    ensures r == ByteArrayOf(raw, t)
    ensures r.ArrayV? && r.t == t && |r.items| == t.shape.len
    ensures forall i :: 0 <= i < |r.items| && i < |Utf8(raw)| ==> r.items[i] == IntV(Elem(t), Utf8(raw)[i])
    ensures forall i :: |Utf8(raw)| <= i < |r.items| ==> r.items[i] == Zero(Elem(t))
  {
    var bytes := Utf8(raw);
    var e := Elem(t);
    var items := NewZeroArray(t.shape.len, e);
    CopyBytes(rt, items, bytes, e);
    r := ArrayV(t, items[..]);
  }

  /** The loop of `ByteArrayOptionType.Cast`: the first `min(len(bytes), len(items))` elements receive the bytes. */
  method CopyBytes(rt: Runtime, items: array<Value>, bytes: seq<byte>, e: Ty)
    requires KindOf(e) == Uint8
    modifies items
    ensures forall j :: 0 <= j < items.Length && j < |bytes| ==> items[j] == IntV(e, bytes[j])
    ensures forall j :: |bytes| <= j < items.Length ==> items[j] == old(items[j])
  {
    var n := |bytes|;
    if n > items.Length {
      n := items.Length;
    }
    for i := 0 to n
      invariant forall j :: 0 <= j < i ==> items[j] == IntV(e, bytes[j])
      invariant forall j :: i <= j < items.Length ==> items[j] == old(items[j])
    {
      items[i] := ByteElem(rt, bytes[i], e);
    }
  }

  /** The array `ByteArrayOptionType.Cast` returns: the leading bytes of the text, then zeros. */
  function ByteArrayOf(raw: string, t: Ty): Value
    requires ByteArraySupports(t)
  {
    var bs := Utf8(raw);
    var n := t.shape.len;
    ArrayV(t, seq(n, i requires 0 <= i < n => if i < |bs| then IntV(Elem(t), bs[i]) else Zero(Elem(t))))
  }

  /** `reflect.New(t).Elem()` for an array type: a fresh array of `n` zero elements. */
  method NewZeroArray(n: nat, e: Ty) returns (a: array<Value>)
    ensures fresh(a) && a.Length == n
    ensures forall j :: 0 <= j < n ==> a[j] == Zero(e)
  {
    a := new Value[n](_ => Zero(e));
  }
}
