/**
 * The complex-number option of the typecast package. The text is trimmed,
 * one enclosing pair of parentheses is dropped, and a text with an `i` is
 * split at the last sign that is not an exponent's sign into a real and an
 * imaginary part; each part goes to `strconv.ParseFloat`, which stays
 * abstract (`Runtime.parseFloat`).
 *
 * Go indexes these strings by byte. Every character the splitter compares
 * with (`(`, `)`, `i`, `I`, `+`, `-`, `e`, `E`) is ASCII, and no byte of a
 * multi-byte UTF-8 sequence equals an ASCII byte, so indexing by character
 * finds the same split points.
 */
module TypecastComplex {
  import opened Base
  import opened GoStrings
  import opened Reflect
  import opened Errors
  import opened Host

  const Complex128T := Predeclared(Complex128)

  /** `ComplexOptionType.Supports`. */
  predicate ComplexSupports(t: Ty)
  {
    IsComplexKind(KindOf(t))
  }

  /** The text without one enclosing pair of parentheses, when it has one. */
  function StripParens(s: string): (r: string)
    requires s != []
    ensures s[0] == '(' && s[|s| - 1] == ')' ==> |s| >= 2 && r == s[1..|s| - 1]
    ensures !(s[0] == '(' && s[|s| - 1] == ')') ==> r == s
  {
    if s[0] == '(' && s[|s| - 1] == ')' then s[1..|s| - 1] else s
  }

  /** The text without its imaginary unit: a final `i`/`I` is dropped, else everything from the last one on. */
  function DropUnit(s: string): (r: string)
    requires ContainsAny(s, "iI")
    ensures |r| < |s| && r == s[..|r|]
    ensures s[|s| - 1] in "iI" ==> r == s[..|s| - 1]
  {
    if s[|s| - 1] == 'i' || s[|s| - 1] == 'I' then s[..|s| - 1]
    else
      var idx := LastIndexAny(s, "iI");
      if idx >= 0 then s[..idx] else s
  }

  /** A sign at position `i` that can start the imaginary part: not first, and not an exponent's sign. */
  predicate IsSplitAt(s: string, i: int)
  {
    1 <= i < |s| && (s[i] == '+' || s[i] == '-') && s[i - 1] != 'e' && s[i - 1] != 'E'
  }

  /** The largest split position at or below `i`, or -1. */
  function SplitAtOrBelow(s: string, i: int): (k: int)
    requires i < |s|
    ensures k == -1 || (IsSplitAt(s, k) && k <= i)
    ensures forall j :: k < j <= i ==> !IsSplitAt(s, j)
    decreases i
  {
    if i < 1 then -1
    else if IsSplitAt(s, i) then i
    else SplitAtOrBelow(s, i - 1)
  }

  /** The position of the last split sign of `s`, or -1. */
  function SplitPoint(s: string): (k: int)
    ensures k == -1 || IsSplitAt(s, k)
    ensures forall j :: k < j < |s| ==> !IsSplitAt(s, j)
  {
    SplitAtOrBelow(s, |s| - 1)
  }

  /** The texts handed to the float parser. */
  datatype ComplexTexts =
    | Whole(text: string)
    | Parts(re: string, im: string)

  /** How `parseComplex` cuts a non-empty, parenthesis-free text. */
  function Texts(s: string): (r: ComplexTexts)
    ensures !ContainsAny(s, "iI") <==> r == Whole(s)
  {
    if !ContainsAny(s, "iI") then Whole(s)
    else
      var last := DropUnit(s);
      var split := SplitPoint(last);
      if split == -1 then Parts("0", last) else Parts(last[..split], last[split..])
  }

  /**
   * Read back: for a text ending in its unit, the two parts followed by the
   * unit are the text, the imaginary part starts at a sign, and no later
   * sign in the imaginary part could have been the split.
   */
  lemma TextsReassemble(s: string)
    requires ContainsAny(s, "iI") && s[|s| - 1] in "iI"
    ensures Texts(s).Parts?
    ensures SplitPoint(s[..|s| - 1]) >= 0 ==>
      Texts(s).re + Texts(s).im + [s[|s| - 1]] == s
      && Texts(s).im[0] in "+-"
      && forall j :: 1 <= j < |Texts(s).im| ==> !IsSplitAt(Texts(s).im, j)
    ensures SplitPoint(s[..|s| - 1]) == -1 ==> Texts(s) == Parts("0", s[..|s| - 1])
  {
    var last := s[..|s| - 1];
    var k := SplitPoint(last);
    if k >= 0 {
      var im := last[k..];
      assert last[..k] + im == last;
      assert s == last + [s[|s| - 1]];
      forall j | 1 <= j < |im| ensures !IsSplitAt(im, j) {
        assert im[j] == last[k + j] && im[j - 1] == last[k + j - 1];
        assert !IsSplitAt(last, k + j);
      }
    }
  }

  /** `parseComplex`: the two float parses, or the first error. */
  function ParseComplex(rt: Runtime, s: string, bits: int): (r: Result<(nat, nat), Error>)
    ensures s == [] ==> r == Failure(EmptyValue)
  {
    if s == [] then Failure(EmptyValue)
    else
      match Texts(StripParens(s))
      case Whole(text) =>
        (match rt.parseFloat(text, bits)
         case Failure(e) => Failure(e)
         case Success(re) => Success((re, 0)))
      case Parts(reText, imText) =>
        match rt.parseFloat(TrimSpace(reText), bits)
        case Failure(e) => Failure(e)
        case Success(re) =>
          match rt.parseFloat(TrimSpace(imText), bits)
          case Failure(e) => Failure(e)
          case Success(im) => Success((re, im))
  }

  /** The backward scan of `parseComplex` for the split sign. */
  method FindSplit(last: string) returns (split: int)
    ensures split == SplitPoint(last)
  {
    split := -1;
    var i := |last| - 1;
    while i >= 1
      invariant i < |last|
      invariant SplitAtOrBelow(last, i) == SplitPoint(last)
    {
      var c := last[i];
      if c == '+' || c == '-' {
        var p := last[i - 1];
        if p != 'e' && p != 'E' {
          split := i;
          break;
        }
      }
      i := i - 1;
    }
  }

  /** `parseComplex`, step by step: it cuts `s` and `last` in place and looks for the split from the right. */
  method ParseComplexSteps(rt: Runtime, s: string, bits: int) returns (r: Result<(nat, nat), Error>)
    ensures r == ParseComplex(rt, s, bits)
  {
    if s == "" {
      return Failure(EmptyValue);
    }
    var text := s;
    if text[0] == '(' && text[|text| - 1] == ')' {
      text := text[1..|text| - 1];
    }
    assert text == StripParens(s);
    var texts := CutTexts(text);
    match texts
    case Whole(whole) =>
      var re :- rt.parseFloat(whole, bits);
      return Success((re, 0));
    case Parts(reText, imText) =>
      var re :- rt.parseFloat(TrimSpace(reText), bits);
      var im :- rt.parseFloat(TrimSpace(imText), bits);
      return Success((re, im));
  }

  /** The cutting steps of `parseComplex`: drop the unit, look for the split, cut there. */
  method CutTexts(text: string) returns (r: ComplexTexts)
    ensures r == Texts(text)
  {
    if !ContainsAny(text, "iI") {
      return Whole(text);
    }
    var last := CutUnit(text);
    var split := FindSplit(last);
    if split == -1 {
      return Parts("0", last);
    }
    return Parts(last[..split], last[split..]);
  }

  /** `last` loses its imaginary unit: a final one, or else everything from the last one on. */
  method CutUnit(text: string) returns (last: string)
    requires ContainsAny(text, "iI")
    ensures last == DropUnit(text)
  {
    last := text;
    if last[|last| - 1] == 'i' || last[|last| - 1] == 'I' {
      last := last[..|last| - 1];
    } else {
      var idx := LastIndexAny(last, "iI");
      if idx >= 0 {
        last := last[..idx];
      }
    }
  }

  /**
   * `ComplexOptionType.Cast`: `parseComplex` of the trimmed text at the
   * target's width, converted to the target type; a failure carries the
   * target type and the untrimmed text.
   */
  function ComplexCast(rt: Runtime, raw: string, t: Ty): (r: Result<Value, Error>)
    ensures r.Success? ==> r.value.t == t
    ensures r.Failure? ==> r.error.ParseFailed? && r.error.ty == t && r.error.value == raw
    ensures TrimSpace(raw) == [] ==> r == Failure(ParseFailed(t, raw, EmptyValue))
  {
    match ParseComplex(rt, TrimSpace(raw), Bits(t))
    case Failure(e) => Failure(ParseFailed(t, raw, e))
    case Success(c) => Success(Convert(rt, ComplexV(Complex128T, c.0, c.1), t))
  }

  /** `ComplexOptionType.Cast`, running the step-by-step parser. */
  method ComplexCastSteps(rt: Runtime, raw: string, t: Ty) returns (r: Result<Value, Error>)
    ensures r == ComplexCast(rt, raw, t)
  {
    var c := ParseComplexSteps(rt, TrimSpace(raw), Bits(t));
    match c
    case Failure(e) => r := Failure(ParseFailed(t, raw, e));
    case Success(p) => r := Success(Convert(rt, ComplexV(Complex128T, p.0, p.1), t));
  }

  /** A sign after an exponent marker stays in the real part: "1e2+3.5i" is split into "1e2" and "+3.5". */
  lemma ExponentSignIsNotASplit()
    ensures Texts("1e2+3.5i") == Parts("1e2", "+3.5")
  {
    var s := "1e2+3.5i";
    assert ContainsAny(s, "iI") by { assert s[7] in "iI"; }
    var last := "1e2+3.5";
    assert DropUnit(s) == last;
    assert IsSplitAt(last, 3);
    assert SplitAtOrBelow(last, 6) == 3;
  }

  /** Without a split sign the real part is "0" and a leading sign stays with the imaginary part. */
  lemma LeadingSignIsImaginary()
    ensures Texts("-3i") == Parts("0", "-3")
  {
    var s := "-3i";
    assert ContainsAny(s, "iI") by { assert s[2] in "iI"; }
    assert DropUnit(s) == "-3";
    assert SplitAtOrBelow("-3", 1) == -1;
  }

  /** Text without an imaginary unit is parsed whole as the real part: "1+2" goes to the float parser as it is. */
  lemma NoUnitIsParsedWhole(rt: Runtime, bits: int)
    ensures ParseComplex(rt, "1+2", bits) ==
      match rt.parseFloat("1+2", bits)
      case Failure(e) => Failure(e)
      case Success(re) => Success((re, 0))
  {
    var s := "1+2";
    assert s[0] !in "iI" && s[1] !in "iI" && s[2] !in "iI";
    assert StripParens(s) == s && Texts(s) == Whole(s);
  }

  /** One pair of enclosing parentheses is dropped before splitting. */
  lemma ParenthesesAreDropped()
    ensures Texts(StripParens("(1+2i)")) == Parts("1", "+2")
  {
    assert StripParens("(1+2i)") == "1+2i";
    var s := "1+2i";
    assert ContainsAny(s, "iI") by { assert s[3] in "iI"; }
    assert DropUnit(s) == "1+2";
    assert IsSplitAt("1+2", 1);
    assert SplitAtOrBelow("1+2", 2) == 1;
  }
}
