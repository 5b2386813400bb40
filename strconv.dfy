/**
 * The decimal parsers of Go's `strconv` package that the cast registry calls:
 * `ParseBool`, `ParseUint` and `ParseInt` with base 10, on a 64-bit platform.
 * The digit scan keeps Go's order of checks, so whether a malformed number is
 * reported as a syntax error or as a range error follows from where the first
 * offending character sits.
 */
module Strconv {
  import opened Base
  import opened GoStrings

  /** Go's `IntSize` on the 64-bit platforms the library targets. */
  const IntSize := 64

  /** The `Err` field of a `*strconv.NumError`. */
  datatype NumErrorKind = ErrSyntax | ErrRange | ErrBitSize(bitSize: int)

  /** `*strconv.NumError`: the function that failed, the text it was given, and why. */
  datatype NumError = NumError(func: string, num: string, err: NumErrorKind)

  /** `strconv.Quote` for text that holds no character needing an escape. */
  function Quote(s: string): string
  {
    "\"" + s + "\""
  }

  function KindMessage(k: NumErrorKind): string
  {
    match k
    case ErrSyntax => "invalid syntax"
    case ErrRange => "value out of range"
    case ErrBitSize(b) => "invalid bit size " + IntToString(b)
  }

  /** `(*NumError).Error`. */
  function NumErrorMessage(e: NumError): (m: string)
    ensures HasPrefix(m, "strconv." + e.func + ": parsing ")
  {
    var m := "strconv." + e.func + ": parsing " + Quote(e.num) + ": " + KindMessage(e.err);
    assert m[..|"strconv." + e.func + ": parsing "|] == "strconv." + e.func + ": parsing ";
    m
  }

  /** The spellings `ParseBool` reads as `true`. */
  const TrueTokens: set<string> := {"1", "t", "T", "TRUE", "true", "True"}
  /** The spellings `ParseBool` reads as `false`. */
  const FalseTokens: set<string> := {"0", "f", "F", "FALSE", "false", "False"}

  /** `strconv.FormatBool`. */
  function FormatBool(b: bool): string
  {
    if b then "true" else "false"
  }

  /** `strconv.ParseBool`: one of twelve exact spellings, anything else a syntax error. */
  function ParseBool(s: string): (r: Result<bool, NumError>)
    ensures r.Success? <==> s in TrueTokens + FalseTokens
    ensures r.Failure? ==> r.error == NumError("ParseBool", s, ErrSyntax)
  {
    if s in TrueTokens then Success(true)
    else if s in FalseTokens then Success(false)
    else Failure(NumError("ParseBool", s, ErrSyntax))
  }

  /** `FormatBool` and `ParseBool` are inverse on booleans, and every accepted token formats back to a canonical one. */
  lemma ParseBoolFormatBool(b: bool, s: string)
    ensures ParseBool(FormatBool(b)) == Success(b)
    ensures ParseBool(s).Success? ==> ParseBool(FormatBool(ParseBool(s).value)) == ParseBool(s)
  {
  }

  function Pow2(n: nat): (p: nat)
    ensures p >= 1
  {
    if n == 0 then 1 else 2 * Pow2(n - 1)
  }

  lemma {:induction false} Pow2Add(a: nat, b: nat)
    ensures Pow2(a + b) == Pow2(a) * Pow2(b)
    decreases b
  {
    if b > 0 {
      Pow2Add(a, b - 1);
      assert Pow2(a + b) == 2 * Pow2(a + b - 1);
    }
  }

  /**
   * The largest value of an unsigned integer of `bits` bits, `1<<bits - 1`,
   * written out for the widths of Go's integer types.
   */
  function MaxUint(bits: nat): nat
  {
    if bits == 64 then 0xFFFF_FFFF_FFFF_FFFF
    else if bits == 32 then 0xFFFF_FFFF
    else if bits == 16 then 0xFFFF
    else if bits == 8 then 0xFF
    else Pow2(bits) - 1
  }

  /** `1<<(bits-1)`, the magnitude of the smallest signed integer of `bits` bits, written out likewise. */
  function Half(bits: nat): nat
    requires bits >= 1
  {
    if bits == 64 then 0x8000_0000_0000_0000
    else if bits == 32 then 0x8000_0000
    else if bits == 16 then 0x8000
    else if bits == 8 then 0x80
    else Pow2(bits - 1)
  }

  /** The written-out bounds are the powers of two they stand for. */
  lemma PowersWritten(bits: nat)
    ensures MaxUint(bits) == Pow2(bits) - 1
    ensures bits >= 1 ==> Half(bits) == Pow2(bits - 1) && Pow2(bits) == 2 * Half(bits)
  {
    if bits == 64 {
      Pow2Of64();
    } else if bits == 32 {
      Pow2Of32();
    } else if bits == 16 {
      Pow2Of16();
    } else if bits == 8 {
      Pow2Of8();
    }
  }

  lemma Pow2Of8()
    ensures Pow2(8) == 0x100 && Pow2(7) == 0x80
  {
    assert Pow2(4) == 16;
    Pow2Add(4, 4);
    Pow2Add(4, 3);
  }

  lemma Pow2Of16()
    ensures Pow2(16) == 0x1_0000 && Pow2(15) == 0x8000
  {
    Pow2Of8();
    Pow2Add(8, 8);
    Pow2Add(8, 7);
  }

  lemma Pow2Of32()
    ensures Pow2(32) == 0x1_0000_0000 && Pow2(31) == 0x8000_0000
  {
    Pow2Of16();
    Pow2Add(16, 16);
    Pow2Add(16, 15);
  }

  lemma Pow2Of64()
    ensures Pow2(64) == 0x1_0000_0000_0000_0000 && Pow2(63) == 0x8000_0000_0000_0000
  {
    Pow2Of32();
    Pow2Add(32, 32);
    Pow2Add(32, 31);
  }

  predicate IsDigit(c: char)
  {
    '0' <= c <= '9'
  }

  predicate IsDigits(s: string)
  {
    forall i :: 0 <= i < |s| ==> IsDigit(s[i])
  }

  function DigitValue(c: char): nat
    requires IsDigit(c)
  {
    (c - '0') as nat
  }

  /** The number a string of decimal digits denotes, read after the digits already worth `n`. */
  function DecimalFrom(n: nat, s: string): (v: nat)
    requires IsDigits(s)
    ensures v >= n
    decreases |s|
  {
    if s == [] then n else DecimalFrom(n * 10 + DigitValue(s[0]), s[1..])
  }

  /** The number a string of decimal digits denotes. */
  function DecimalValue(s: string): nat
    requires IsDigits(s)
  {
    DecimalFrom(0, s)
  }

  /**
   * The loop of `ParseUint` for base 10: characters are taken left to right, a
   * non-digit stops the scan with a syntax error, an accumulated value above
   * `maxVal` stops it with a range error.
   */
  function ScanDecimal(s: string, n: nat, maxVal: nat): (r: Result<nat, NumErrorKind>)
    requires n <= maxVal
    ensures r.Success? <==> IsDigits(s) && DecimalFrom(n, s) <= maxVal
    ensures r.Success? ==> r.value == DecimalFrom(n, s)
    ensures r.Failure? ==> r.error == ErrSyntax || r.error == ErrRange
    ensures r.Failure? && IsDigits(s) ==> r.error == ErrRange
  {
    if s == [] then Success(n)
    else if !IsDigit(s[0]) then Failure(ErrSyntax)
    else
      var n1 := n * 10 + DigitValue(s[0]);
      if n1 > maxVal then
        assert IsDigits(s) ==> DecimalFrom(n1, s[1..]) >= n1;
        Failure(ErrRange)
      else ScanDecimal(s[1..], n1, maxVal)
  }

  /** The width `bitSize` selects: 0 means `IntSize`. */
  function EffectiveBits(bitSize: int): int
  {
    if bitSize == 0 then IntSize else bitSize
  }

  /** `strconv.ParseUint(s, 10, bitSize)`. */
  function ParseUint(s: string, bitSize: int): (r: Result<nat, NumError>)
    ensures r.Failure? ==> r.error.func == "ParseUint" && r.error.num == s
  {
    if s == [] then Failure(NumError("ParseUint", s, ErrSyntax))
    else if bitSize < 0 || bitSize > 64 then Failure(NumError("ParseUint", s, ErrBitSize(bitSize)))
    else
      match ScanDecimal(s, 0, MaxUint(EffectiveBits(bitSize)))
      case Success(n) => Success(n)
      case Failure(k) => Failure(NumError("ParseUint", s, k))
  }

  /** The text `ParseInt` hands to `ParseUint`: `s` without one leading sign. */
  function Unsigned(s: string): string
    requires s != []
  {
    if s[0] == '+' || s[0] == '-' then s[1..] else s
  }

  /**
   * `strconv.ParseInt(s, 10, bitSize)`: one leading sign is taken off and the
   * rest handed to `ParseUint`; its errors are reported under the name
   * `ParseInt` with the original text, and a range failure there is seen as
   * the largest unsigned value, which the signed bound then rejects.
   */
  function ParseInt(s: string, bitSize: int): (r: Result<int, NumError>)
    ensures r.Failure? ==> r.error.func == "ParseInt" && r.error.num == s
  {
    if s == [] then Failure(NumError("ParseInt", s, ErrSyntax))
    else SignedOutcome(s, bitSize, ParseUint(Unsigned(s), bitSize))
  }

  /** The second half of `ParseInt`: the sign and the signed bound applied to what `ParseUint` returned. */
  function SignedOutcome(s: string, bitSize: int, u: Result<nat, NumError>): (r: Result<int, NumError>)
    requires s != []
    ensures r.Failure? ==> r.error.func == "ParseInt" && r.error.num == s
  {
    var neg := s[0] == '-';
    if u.Failure? && u.error.err != ErrRange then Failure(NumError("ParseInt", s, u.error.err))
    else
      var bits := EffectiveBits(bitSize);
      var un := if u.Success? then u.value else if bits >= 0 then MaxUint(bits) else 0;
      var cutoff := if bits >= 1 then Half(bits) else 0;
      if !neg && un >= cutoff then Failure(NumError("ParseInt", s, ErrRange))
      else if neg && un > cutoff then Failure(NumError("ParseInt", s, ErrRange))
      else Success(if neg then -(un as int) else un)
  }

  /** `ParseUint` accepts exactly the non-empty digit strings whose value fits in the width, and returns that value. */
  lemma ParseUintAccepts(s: string, bitSize: int)
    requires 0 <= bitSize <= 64
    ensures ParseUint(s, bitSize).Success? <==>
      s != [] && IsDigits(s) && DecimalValue(s) <= MaxUint(EffectiveBits(bitSize))
    ensures ParseUint(s, bitSize).Success? ==> ParseUint(s, bitSize).value == DecimalValue(s)
    ensures ParseUint(s, bitSize).Failure? && s != [] && IsDigits(s) ==> ParseUint(s, bitSize).error.err == ErrRange
  {
  }

  /** An optional sign followed by at least one decimal digit. */
  predicate IsSignedDecimal(s: string)
  {
    if |s| > 0 && (s[0] == '+' || s[0] == '-') then |s| > 1 && IsDigits(s[1..])
    else |s| > 0 && IsDigits(s)
  }

  /** The integer a signed decimal string denotes. */
  function SignedValue(s: string): int
    requires IsSignedDecimal(s)
  {
    if s[0] == '-' then -(DecimalValue(s[1..]) as int)
    else if s[0] == '+' then DecimalValue(s[1..])
    else DecimalValue(s)
  }

  /** The smallest and the largest value of a signed integer of `bits` bits. */
  function MinInt(bits: nat): int requires bits >= 1 { -(Half(bits) as int) }
  function MaxInt(bits: nat): int requires bits >= 1 { Half(bits) - 1 }

  /**
   * For every width of at least two bits, `ParseInt` accepts exactly the signed
   * decimal strings whose value lies in the width's two's-complement range,
   * and returns that value.
   */
  lemma ParseIntAccepts(s: string, bitSize: int)
    requires bitSize == 0 || 2 <= bitSize <= 64
    ensures ParseInt(s, bitSize).Success? <==>
      IsSignedDecimal(s) && MinInt(EffectiveBits(bitSize)) <= SignedValue(s) <= MaxInt(EffectiveBits(bitSize))
    ensures ParseInt(s, bitSize).Success? ==> ParseInt(s, bitSize).value == SignedValue(s)
  {
    if s != [] {
      var b := EffectiveBits(bitSize);
      ParseUintAccepts(Unsigned(s), b);
      SignedOutcomeAccepts(s, b, ParseUint(Unsigned(s), b));
      if bitSize == 0 {
        ZeroWidthIsIntSize(s);
      }
    }
  }

  /** Width 0 stands for `IntSize`, in `ParseUint` and in `ParseInt` alike. */
  lemma ZeroWidthIsIntSize(s: string)
    ensures ParseUint(s, 0) == ParseUint(s, IntSize)
    ensures ParseInt(s, 0) == ParseInt(s, IntSize)
  {
  }

  /** `SignedOutcome` given what `ParseUintAccepts` says of the unsigned part. */
  lemma SignedOutcomeAccepts(s: string, bitSize: int, u: Result<nat, NumError>)
    requires s != [] && 2 <= bitSize <= 64
    requires u.Success? <==> Unsigned(s) != [] && IsDigits(Unsigned(s)) && DecimalValue(Unsigned(s)) <= MaxUint(EffectiveBits(bitSize))
    requires u.Success? ==> u.value == DecimalValue(Unsigned(s))
    requires u.Failure? && Unsigned(s) != [] && IsDigits(Unsigned(s)) ==> u.error.err == ErrRange
    ensures SignedOutcome(s, bitSize, u).Success? <==>
      IsSignedDecimal(s) && MinInt(EffectiveBits(bitSize)) <= SignedValue(s) <= MaxInt(EffectiveBits(bitSize))
    ensures SignedOutcome(s, bitSize, u).Success? ==> SignedOutcome(s, bitSize, u).value == SignedValue(s)
  {
    var bits := EffectiveBits(bitSize);
    Pow2AtLeastTwo(bits - 1);
    PowersWritten(bits);
    var cutoff := Half(bits);
    assert MaxUint(bits) == 2 * cutoff - 1;
    assert MinInt(bits) == -(cutoff as int) && MaxInt(bits) == cutoff - 1;
    var digits := Unsigned(s);
    var ok := digits != [] && IsDigits(digits);
    assert ok <==> IsSignedDecimal(s);
    if ok {
      var v := DecimalValue(digits);
      assert SignedValue(s) == if s[0] == '-' then -(v as int) else v;
    }
  }

  lemma {:induction false} Pow2AtLeastTwo(n: nat)
    requires n >= 1
    ensures Pow2(n) >= 2
  {
    if n > 1 { Pow2AtLeastTwo(n - 1); }
  }

  /** Reading digits after a prefix: the prefix's value is shifted one decimal place per appended digit. */
  lemma {:induction false} DecimalFromAppend(n: nat, s: string, c: char)
    requires IsDigits(s) && IsDigit(c)
    ensures IsDigits(s + [c])
    ensures DecimalFrom(n, s + [c]) == DecimalFrom(n, s) * 10 + DigitValue(c)
    decreases |s|
  {
    assert forall i :: 0 <= i < |s + [c]| ==> (s + [c])[i] == if i < |s| then s[i] else c;
    if s != [] {
      assert (s + [c])[1..] == s[1..] + [c];
      DecimalFromAppend(n * 10 + DigitValue(s[0]), s[1..], c);
    }
  }

  /** The digits `strconv.Itoa` writes denote the number written. */
  lemma {:induction false} DecimalOfNatToString(n: nat)
    ensures IsDigits(NatToString(n))
    ensures DecimalValue(NatToString(n)) == n
    decreases n
  {
    var d := '0' + (n % 10) as char;
    assert DigitValue(d) == n % 10;
    if n >= 10 {
      DecimalOfNatToString(n / 10);
      DecimalFromAppend(0, NatToString(n / 10), d);
    } else {
      assert NatToString(n) == [d];
      assert DecimalFrom(0, [d]) == DecimalFrom(DigitValue(d), []);
    }
  }

  /** Formatting a number and parsing it back with `ParseUint` gives the number, whenever it fits in the width. */
  lemma ParseUintRoundTrip(n: nat, bitSize: int)
    requires 0 <= bitSize <= 64 && n <= MaxUint(EffectiveBits(bitSize))
    ensures ParseUint(NatToString(n), bitSize) == Success(n)
  {
    DecimalOfNatToString(n);
    ParseUintAccepts(NatToString(n), bitSize);
  }

  /** Formatting an integer and parsing it back with `ParseInt` gives the integer, whenever it fits in the width. */
  lemma ParseIntRoundTrip(i: int, bitSize: int)
    requires bitSize == 0 || 2 <= bitSize <= 64
    requires MinInt(EffectiveBits(bitSize)) <= i <= MaxInt(EffectiveBits(bitSize))
    ensures ParseInt(IntToString(i), bitSize) == Success(i)
  {
    SignedDecimalOfIntToString(i);
    ParseIntAccepts(IntToString(i), bitSize);
  }

  /** The text `strconv.Itoa` writes for an integer is a signed decimal denoting it. */
  lemma SignedDecimalOfIntToString(i: int)
    ensures IsSignedDecimal(IntToString(i)) && SignedValue(IntToString(i)) == i
  {
    var s := IntToString(i);
    if i < 0 {
      DecimalOfNatToString(-i);
      assert s[1..] == NatToString(-i);
    } else {
      DecimalOfNatToString(i);
      assert s[0] != '-' && s[0] != '+';
    }
  }

  /** The scan reports the first offence it meets: "300x" overflows a byte before the 'x' is read, "3x00" does not. */
  lemma ScanOrderExamples()
    ensures ParseUint("300x", 8) == Failure(NumError("ParseUint", "300x", ErrRange))
    ensures ParseUint("3x00", 8) == Failure(NumError("ParseUint", "3x00", ErrSyntax))
  {
    assert ScanDecimal("0x", 30, 255) == Failure(ErrRange);
    assert ScanDecimal("300x", 0, 255) == ScanDecimal("0x", 30, 255);
  }

  /** The sign is read before the digits, and the signed bound of 8 bits is [-128, 127]. */
  lemma SignedScanExamples()
    ensures ParseInt("-129", 8) == Failure(NumError("ParseInt", "-129", ErrRange))
    ensures ParseInt("-128", 8) == Success(-128)
  {
    assert ScanDecimal("129", 0, 255) == Success(129);
    assert ScanDecimal("128", 0, 255) == Success(128);
  }

  /** A sign alone, or a blank before the digits, is a syntax error. */
  lemma SyntaxScanExamples()
    ensures ParseInt("+", 8) == Failure(NumError("ParseInt", "+", ErrSyntax))
    ensures ParseInt(" 1", 8) == Failure(NumError("ParseInt", " 1", ErrSyntax))
  {
  }
}
