/**
 * What the engine receives from code outside it: floating-point parsing and
 * conversion, the bodies of user `UnmarshalText` methods, user-registered
 * cast options, and the Unicode character tables beyond ASCII. They are
 * fields of a `Runtime` value that every operation needing them takes as a
 * parameter, so every property proved holds for whatever they do.
 * `reflect.Value.Convert` is defined here on top of them.
 */
module Host {
  import opened Base
  import opened Reflect
  import opened Errors

  datatype Runtime = Runtime(
    /** `strconv.ParseFloat(text, bits)`: the float64 bits of the result, or its error. */
    parseFloat: (string, int) -> Result<nat, Error>,
    /** `FloatOptionType.Cast`, whose body is not part of this model: its result, or its error. */
    floatCast: (string, Ty) -> Result<Value, Error>,
    /** `Supports` and `Cast` of the `k`-th option a caller appends when building a caster. */
    customSupports: (nat, Ty) -> bool,
    customCast: (nat, string, Ty) -> Result<Value, Error>,
    /** `reflect.Value.Convert` where floating point or string/slice re-encoding is involved. */
    convertOther: (Value, Ty) -> Value,
    /**
     * A call of `UnmarshalText(text)` on an addressable zero value of the
     * given type: the receiver's value afterwards, or the error returned.
     */
    unmarshalText: (Ty, string) -> Result<Value, Error>,
    /** `unicode.IsUpper`, `IsLower`, `IsDigit`, `ToUpper` and `ToLower` outside ASCII. */
    upperBeyondAscii: char -> bool,
    lowerBeyondAscii: char -> bool,
    digitBeyondAscii: char -> bool,
    toUpperBeyondAscii: char -> char,
    toLowerBeyondAscii: char -> char
  )

  predicate IsAsciiChar(c: char)
  {
    (c as int) < 0x80
  }

  /** `unicode.IsUpper`. */
  predicate IsUpper(rt: Runtime, c: char)
  {
    if IsAsciiChar(c) then 'A' <= c <= 'Z' else rt.upperBeyondAscii(c)
  }

  /** `unicode.IsLower`. */
  predicate IsLower(rt: Runtime, c: char)
  {
    if IsAsciiChar(c) then 'a' <= c <= 'z' else rt.lowerBeyondAscii(c)
  }

  /** `unicode.IsDigit`. */
  predicate IsDigit(rt: Runtime, c: char)
  {
    if IsAsciiChar(c) then '0' <= c <= '9' else rt.digitBeyondAscii(c)
  }

  /** `unicode.ToUpper`. */
  function ToUpper(rt: Runtime, c: char): (u: char)
    ensures IsAsciiChar(c) ==> IsAsciiChar(u)
    ensures 'a' <= c <= 'z' ==> 'A' <= u <= 'Z'
  {
    if 'a' <= c <= 'z' then (c as int - 32) as char
    else if IsAsciiChar(c) then c
    else rt.toUpperBeyondAscii(c)
  }

  /** `unicode.ToLower`. */
  function ToLower(rt: Runtime, c: char): (l: char)
    ensures IsAsciiChar(c) ==> IsAsciiChar(l)
    ensures 'A' <= c <= 'Z' ==> 'a' <= l <= 'z'
  {
    if 'A' <= c <= 'Z' then (c as int + 32) as char
    else if IsAsciiChar(c) then c
    else rt.toLowerBeyondAscii(c)
  }

  /**
   * `reflect.Value.Convert`: the value seen at type `t`. Integer conversions
   * wrap around in two's complement, conversions between types with the same
   * underlying type keep the value, and an interface type boxes it.
   */
  function Convert(rt: Runtime, v: Value, t: Ty): (r: Value)
    ensures r.t == t
    ensures v.t == t ==> r == v
    ensures v.t != t && v.IntV? && IsIntegerKind(KindOf(t)) ==> r == IntV(t, Wrap(v.i, KindOf(t)))
    ensures (v.t != t && KindOf(t) != Interface && !(v.IntV? && IsIntegerKind(KindOf(t)))
             && Underlying(v.t) == Underlying(t)) ==> r == v.(t := t)
  {
    if v.t == t then v
    else if KindOf(t) == Interface then IfaceV(t, if v.IfaceV? then v.dyn else Some(v))
    else if v.IntV? && IsIntegerKind(KindOf(t)) then IntV(t, Wrap(v.i, KindOf(t)))
    else if Underlying(v.t) == Underlying(t) then v.(t := t)
    else rt.convertOther(v, t).(t := t)
  }
}
