/**
 * The single-value cast options of the typecast package: strings, booleans,
 * signed and unsigned integers, and the kinds the float option accepts.
 * Each option trims the raw text, parses it, and reports a failure as
 * `ErrParseFailed` carrying the target type and the raw, untrimmed text.
 */
module TypecastScalars {
  import opened Base
  import opened GoStrings
  import opened Strconv
  import opened Reflect
  import opened Errors
  import opened Host

  const BoolT := Predeclared(Bool)
  const Int64T := Predeclared(Int64)
  const Uint64T := Predeclared(Uint64)

  /** `StringOptionType.Supports`. */
  predicate StringSupports(t: Ty)
  {
    KindOf(t) == String
  }

  /** `StringOptionType.Cast`: the trimmed text, at the target type; it never fails. */
  function StringCast(rt: Runtime, raw: string, t: Ty): (r: Value)
    requires StringSupports(t)
    ensures r == StringV(t, TrimSpace(raw))
  {
    Convert(rt, StringV(Predeclared(String), TrimSpace(raw)), t)
  }

  /** Surrounding white space is dropped, interior white space kept, and trimmed text passes unchanged. */
  lemma StringCastExamples(rt: Runtime)
    ensures StringCast(rt, " a b ", Predeclared(String)).s == "a b"
    ensures StringCast(rt, "abc", Predeclared(String)).s == "abc"
    ensures StringCast(rt, "", Predeclared(String)).s == ""
  {
    TrimSpacePadded(" ", "a b", " ");
    assert " " + "a b" + " " == " a b ";
    TrimSpaceOfTrimmed("abc");
  }

  /** `BoolOptionType.Supports`. */
  predicate BoolSupports(t: Ty)
  {
    KindOf(t) == Bool
  }

  /**
   * `BoolOptionType.Cast`: `strconv.ParseBool` of the trimmed text. The
   * result is always of the predeclared type `bool`, whatever the target.
   */
  function BoolCast(raw: string, t: Ty): (r: Result<Value, Error>)
    ensures r.Success? <==> TrimSpace(raw) in TrueTokens + FalseTokens
    ensures r.Success? ==> r.value == BoolV(BoolT, TrimSpace(raw) in TrueTokens)
    ensures r.Failure? ==>
      r.error == ParseFailed(t, raw, NumErr(NumError("ParseBool", TrimSpace(raw), ErrSyntax)))
  {
    match ParseBool(TrimSpace(raw))
    case Success(b) => Success(BoolV(BoolT, b))
    case Failure(e) => Failure(ParseFailed(t, raw, NumErr(e)))
  }

  /** Surrounding white space is ignored. */
  lemma BoolCastPadded(t: Ty)
    ensures BoolCast("  false\n", t) == Success(BoolV(BoolT, false))
  {
    TrimSpacePadded("  ", "false", "\n");
    assert "  " + "false" + "\n" == "  false\n";
  }

  /** Only Go's fixed spellings are accepted: all upper case is one, mixed case is not. */
  lemma BoolCastSpellings(t: Ty)
    ensures BoolCast("TRUE", t) == Success(BoolV(BoolT, true))
    ensures BoolCast("tRuE", t).Failure?
  {
    TrimSpaceOfTrimmed("TRUE");
    TrimSpaceOfTrimmed("tRuE");
  }

  /** A rejected word is reported as a syntax error of `ParseBool` on the trimmed text. */
  lemma BoolCastRejects(t: Ty)
    ensures BoolCast("yes", t) == Failure(ParseFailed(t, "yes", NumErr(NumError("ParseBool", "yes", ErrSyntax))))
  {
    TrimSpaceOfTrimmed("yes");
  }

  /** `IntOptionType.Supports`. */
  predicate IntSupports(t: Ty)
  {
    IsSignedKind(KindOf(t))
  }

  /**
   * `IntOptionType.Cast`: `strconv.ParseInt` of the trimmed text at the
   * target's bit width, converted to the target type.
   */
  function IntCast(rt: Runtime, raw: string, t: Ty): (r: Result<Value, Error>)
    requires IntSupports(t)
    ensures r.Success? <==>
      IsSignedDecimal(TrimSpace(raw)) && MinInt(Bits(t)) <= SignedValue(TrimSpace(raw)) <= MaxInt(Bits(t))
    ensures r.Success? ==> r.value == IntV(t, SignedValue(TrimSpace(raw)))
    ensures r.Failure? ==>
      r.error.ParseFailed? && r.error.ty == t && r.error.value == raw && r.error.cause.NumErr?
      && r.error.cause.ne.func == "ParseInt" && r.error.cause.ne.num == TrimSpace(raw)
  {
    ParseIntAccepts(TrimSpace(raw), Bits(t));
    match ParseInt(TrimSpace(raw), Bits(t))
    case Success(n) => Success(Convert(rt, IntV(Int64T, n), t))
    case Failure(e) => Failure(ParseFailed(t, raw, NumErr(e)))
  }

  /** `UintOptionType.Supports`. */
  predicate UintSupports(t: Ty)
  {
    IsUnsignedKind(KindOf(t))
  }

  /**
   * `UintOptionType.Cast`: `strconv.ParseUint` of the trimmed text at the
   * target's bit width, converted to the target type.
   */
  function UintCast(rt: Runtime, raw: string, t: Ty): (r: Result<Value, Error>)
    requires UintSupports(t)
    ensures r.Success? <==>
      TrimSpace(raw) != [] && IsDigits(TrimSpace(raw)) && DecimalValue(TrimSpace(raw)) <= MaxUint(Bits(t))
    ensures r.Success? ==> r.value == IntV(t, DecimalValue(TrimSpace(raw)))
    ensures r.Failure? ==>
      r.error.ParseFailed? && r.error.ty == t && r.error.value == raw && r.error.cause.NumErr?
      && r.error.cause.ne.func == "ParseUint" && r.error.cause.ne.num == TrimSpace(raw)
  {
    ParseUintAccepts(TrimSpace(raw), Bits(t));
    match ParseUint(TrimSpace(raw), Bits(t))
    case Success(n) => Success(Convert(rt, IntV(Uint64T, n), t))
    case Failure(e) => Failure(ParseFailed(t, raw, NumErr(e)))
  }

  /** The decimal text of an integer that fits the target, padded with white space, casts back to it. */
  lemma IntCastRoundTrip(rt: Runtime, pre: string, i: int, post: string, t: Ty)
    requires AllSpaces(pre) && AllSpaces(post)
    requires IntSupports(t) && MinInt(Bits(t)) <= i <= MaxInt(Bits(t))
    ensures IntCast(rt, pre + IntToString(i) + post, t) == Success(IntV(t, i))
  {
    var s := IntToString(i);
    assert TrimSpace(pre + s + post) == s by {
      assert !IsSpace(s[0]) && !IsSpace(s[|s| - 1]);
      TrimSpacePadded(pre, s, post);
    }
    SignedDecimalOfIntToString(i);
  }

  /** The decimal text of a natural number that fits the target, padded with white space, casts back to it. */
  lemma UintCastRoundTrip(rt: Runtime, pre: string, n: nat, post: string, t: Ty)
    requires AllSpaces(pre) && AllSpaces(post)
    requires UintSupports(t) && n <= MaxUint(Bits(t))
    ensures UintCast(rt, pre + NatToString(n) + post, t) == Success(IntV(t, n))
  {
    var s := NatToString(n);
    assert TrimSpace(pre + s + post) == s by {
      assert !IsSpace(s[0]) && !IsSpace(s[|s| - 1]);
      TrimSpacePadded(pre, s, post);
    }
    DecimalOfNatToString(n);
  }

  /** The bounds of 64-bit integers, written out. */
  lemma Extremes64()
    ensures MaxInt(64) == 9223372036854775807
    ensures MaxUint(64) == 18446744073709551615
  {
    Pow2Of64();
  }

  /** The decimal text of an integer that fits the target casts back to it. */
  lemma IntCastOfDecimal(rt: Runtime, i: int, t: Ty)
    requires IntSupports(t) && MinInt(Bits(t)) <= i <= MaxInt(Bits(t))
    ensures IntCast(rt, IntToString(i), t) == Success(IntV(t, i))
  {
    var s := IntToString(i);
    assert "" + s + "" == s;
    IntCastRoundTrip(rt, "", i, "", t);
  }

  /** The largest and smallest value of every signed target cast from their decimal text. */
  lemma SignedExtremeCasts(rt: Runtime, t: Ty)
    requires IntSupports(t)
    ensures IntCast(rt, IntToString(MaxInt(Bits(t))), t) == Success(IntV(t, MaxInt(Bits(t))))
    ensures IntCast(rt, IntToString(MinInt(Bits(t))), t) == Success(IntV(t, MinInt(Bits(t))))
  {
    IntCastOfDecimal(rt, MaxInt(Bits(t)), t);
    IntCastOfDecimal(rt, MinInt(Bits(t)), t);
  }

  /** The largest value of every unsigned target cast from its decimal text. */
  lemma UnsignedExtremeCast(rt: Runtime, t: Ty)
    requires UintSupports(t)
    ensures UintCast(rt, NatToString(MaxUint(Bits(t))), t) == Success(IntV(t, MaxUint(Bits(t))))
  {
    var m := MaxUint(Bits(t));
    var s := NatToString(m);
    assert TrimSpace(s) == s by {
      assert !IsSpace(s[0]) && !IsSpace(s[|s| - 1]);
      TrimSpaceOfTrimmed(s);
    }
    DecimalOfNatToString(m);
  }

  lemma Int8Range(t: Ty)
    requires KindOf(t) == Int8
    ensures MinInt(Bits(t)) == -128 && MaxInt(Bits(t)) == 127
  {
    assert Bits(t) == 8;
    assert Pow2(7) == 128;
  }

  lemma DecimalExamples()
    ensures IsSignedDecimal("127") && SignedValue("127") == 127
    ensures IsSignedDecimal("128") && SignedValue("128") == 128
    ensures IsSignedDecimal("-128") && SignedValue("-128") == -128
  {
    assert DecimalValue("127") == 127;
    assert "-128"[1..] == "128";
    assert DecimalValue("128") == 128;
  }

  lemma TrimmedExamples()
    ensures TrimSpace("127") == "127" && TrimSpace("128") == "128"
    ensures TrimSpace(" -128 ") == "-128"
  {
    TrimSpaceOfTrimmed("127");
    TrimSpaceOfTrimmed("128");
    TrimSpacePadded(" ", "-128", " ");
    assert " " + "-128" + " " == " -128 ";
  }

  /** The bounds of every type of kind `int8` are accepted, blanks around them ignored, and one past them refused. */
  lemma Int8Bounds(rt: Runtime, t: Ty)
    requires KindOf(t) == Int8
    ensures IntCast(rt, "127", t) == Success(IntV(t, 127))
    ensures IntCast(rt, "128", t).Failure?
    ensures IntCast(rt, " -128 ", t) == Success(IntV(t, -128))
  {
    Int8Range(t);
    DecimalExamples();
    TrimmedExamples();
  }

  /** A sign is a syntax error for an unsigned target. */
  lemma UnsignedRejectsSign(rt: Runtime)
    ensures UintCast(rt, "-1", Uint64T).Failure?
  {
    TrimSpaceOfTrimmed("-1");
    assert !IsDigits("-1");
  }

  /** `FloatOptionType.Supports`; the option's `Cast` is `Runtime.floatCast`. */
  predicate FloatSupports(t: Ty)
  {
    IsFloatKind(KindOf(t))
  }
}
