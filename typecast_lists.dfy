/**
 * The comma-separated list options of the typecast package: `[]int`-like
 * slices, `[N]int`-like arrays and `[]string`-like slices. The trimmed text
 * is split at every comma and each token is trimmed; integer tokens go to
 * `strconv.ParseInt` with base 10 and bit size 0 (the platform's `int`).
 * These options are not in the built-in list: a caller appends them when
 * building a caster.
 */
module TypecastLists {
  import opened Base
  import opened GoStrings
  import opened Strconv
  import opened Reflect
  import opened Errors
  import opened Host

  const IntT := Predeclared(Int)

  /** The comma-separated tokens of a text, untrimmed. */
  function Tokens(s: string): (r: seq<string>)
    ensures |r| >= 1
  {
    Split(s, ",")
  }

  /** A token `strconv.ParseInt(strings.TrimSpace(token), 10, 0)` accepts: a signed decimal in the range of `int`. */
  predicate IsIntToken(token: string)
  {
    IsSignedDecimal(TrimSpace(token)) && InRange(Int, SignedValue(TrimSpace(token)))
  }

  /** The value of an integer token. */
  function TokenValue(token: string): (v: int)
    requires IsIntToken(token)
    ensures InRange(Int, v)
  {
    SignedValue(TrimSpace(token))
  }

  /**
   * `strconv.ParseInt` with bit size 0 on a trimmed token succeeds exactly on
   * the integer tokens, with their value, and names itself and the trimmed
   * token when it fails.
   */
  lemma IntTokens(token: string)
    ensures ParseInt(TrimSpace(token), 0).Success? <==> IsIntToken(token)
    ensures ParseInt(TrimSpace(token), 0).Success? ==> ParseInt(TrimSpace(token), 0).value == TokenValue(token)
    ensures ParseInt(TrimSpace(token), 0).Failure? ==>
      ParseInt(TrimSpace(token), 0).error.func == "ParseInt" && ParseInt(TrimSpace(token), 0).error.num == TrimSpace(token)
  {
    ParseIntAccepts(TrimSpace(token), 0);
  }

  /** The error `strconv.ParseInt` returns for a token that is not an integer token. */
  function TokenError(token: string): (e: NumError)
    requires !IsIntToken(token)
    ensures e.func == "ParseInt" && e.num == TrimSpace(token)
  {
    IntTokens(token);
    ParseInt(TrimSpace(token), 0).error
  }

  /** `strconv.ParseInt(strings.TrimSpace(token), 10, 0)`, as each loop over the tokens calls it. */
  method ParseToken(token: string) returns (r: Result<int, NumError>)
    ensures r.Success? <==> IsIntToken(token)
    ensures r.Success? ==> r.value == TokenValue(token)
    ensures r.Failure? ==> r.error == TokenError(token)
  {
    r := ParseInt(TrimSpace(token), 0);
    IntTokens(token);
  }

  /** The position of the first token that is not an integer token, or the number of tokens when there is none. */
  function FirstBad(tokens: seq<string>): (k: nat)
    ensures k <= |tokens|
    ensures forall j :: 0 <= j < k ==> IsIntToken(tokens[j])
    ensures k < |tokens| ==> !IsIntToken(tokens[k])
    decreases |tokens|
  {
    if tokens == [] then 0
    else if !IsIntToken(tokens[0]) then 0
    else 1 + FirstBad(tokens[1..])
  }

  /** The values of tokens that are all integer tokens. */
  function TokenValues(tokens: seq<string>): (vs: seq<int>)
    requires forall i :: 0 <= i < |tokens| ==> IsIntToken(tokens[i])
    ensures |vs| == |tokens|
    ensures forall i :: 0 <= i < |tokens| ==> vs[i] == TokenValue(tokens[i])
  {
    seq(|tokens|, i requires 0 <= i < |tokens| => TokenValue(tokens[i]))
  }

  /** A parsed value held at the target's element type: a value in the range of `int` keeps its value. */
  function IntElem(rt: Runtime, x: int, e: Ty): (v: Value)
    requires KindOf(e) == Int
    ensures InRange(Int, x) ==> v == IntV(e, x)
  {
    Convert(rt, IntV(IntT, x), e)
  }

  /** Parsed values at the target's element type, one by one. */
  function IntElems(ints: seq<int>, e: Ty): (vs: seq<Value>)
    ensures |vs| == |ints|
    ensures forall i :: 0 <= i < |ints| ==> vs[i] == IntV(e, ints[i])
  {
    seq(|ints|, i requires 0 <= i < |ints| => IntV(e, ints[i]))
  }

  /** `IntSliceOptionType.Supports`. */
  predicate IntSliceSupports(t: Ty)
  {
    KindOf(t) == Slice && KindOf(Elem(t)) == Int
  }

  /**
   * What `IntSliceOptionType.Cast` returns: blank text gives an empty,
   * non-nil slice; otherwise the values of the tokens when all of them are
   * integer tokens, or `ParseInt`'s error for the first one that is not,
   * together with the whole raw text.
   */
  function IntSliceCast(rt: Runtime, raw: string, t: Ty): (r: Result<Value, Error>)
    requires IntSliceSupports(t)
    ensures TrimSpace(raw) == [] ==> r == Success(SliceV(t, false, []))
    ensures r.Success? ==> r.value.SliceV? && r.value.t == t && !r.value.isNil
    ensures r.Failure? ==> r.error.ParseFailed? && r.error.ty == t && r.error.value == raw
  {
    var s := TrimSpace(raw);
    if s == [] then Success(SliceV(t, false, []))
    else
      var tokens := Tokens(s);
      var k := FirstBad(tokens);
      if k < |tokens| then Failure(ParseFailed(t, raw, NumErr(TokenError(tokens[k]))))
      else Success(SliceV(t, false, IntElems(TokenValues(tokens), Elem(t))))
  }

  /**
   * A non-blank text casts exactly when every comma-separated token is an
   * integer token, and the slice then holds their values in order.
   */
  lemma IntSliceCastAccepts(rt: Runtime, raw: string, t: Ty)
    requires IntSliceSupports(t) && TrimSpace(raw) != []
    ensures var tokens := Tokens(TrimSpace(raw));
      && (IntSliceCast(rt, raw, t).Success? <==> forall i :: 0 <= i < |tokens| ==> IsIntToken(tokens[i]))
      && (IntSliceCast(rt, raw, t).Success? ==>
            |IntSliceCast(rt, raw, t).value.elems| == |tokens|
            && forall i :: 0 <= i < |tokens| ==>
                 IntSliceCast(rt, raw, t).value.elems[i] == IntV(Elem(t), SignedValue(TrimSpace(tokens[i]))))
  {
  }

  /** A non-blank text that does not cast fails with `ParseInt`'s error for the first token that is not an integer token. */
  lemma IntSliceCastRejects(rt: Runtime, raw: string, t: Ty)
    requires IntSliceSupports(t) && TrimSpace(raw) != []
    requires IntSliceCast(rt, raw, t).Failure?
    ensures FirstBad(Tokens(TrimSpace(raw))) < |Tokens(TrimSpace(raw))|
    ensures IntSliceCast(rt, raw, t).error.cause
      == NumErr(TokenError(Tokens(TrimSpace(raw))[FirstBad(Tokens(TrimSpace(raw)))]))
  {
  }

  /**
   * The first loop of `IntSliceOptionType.Cast`: each token is trimmed and
   * handed to `strconv.ParseInt` in turn, the values are stored in the
   * `ints` buffer, and the first failure ends the loop with its error.
   */
  method ParseEach(tokens: seq<string>) returns (r: Result<seq<int>, NumError>)
    ensures r.Success? <==> FirstBad(tokens) == |tokens|
    ensures r.Success? ==> r.value == TokenValues(tokens)
    ensures r.Failure? ==> FirstBad(tokens) < |tokens| && r.error == TokenError(tokens[FirstBad(tokens)])
  {
    var ints: seq<int> := seq(|tokens|, _ => 0);
    for i := 0 to |tokens|
      invariant |ints| == |tokens|
      invariant forall j :: 0 <= j < i ==> IsIntToken(tokens[j]) && ints[j] == TokenValue(tokens[j])
    {
      var v := ParseToken(tokens[i]);
      if v.Failure? {
        assert FirstBad(tokens) == i;
        return Failure(v.error);
      }
      ints := ints[i := v.value];
    }
    assert FirstBad(tokens) == |tokens|;
    assert ints == TokenValues(tokens);
    return Success(ints);
  }

  /** The second loop of `IntSliceOptionType.Cast`: each value is converted to the element type and stored in a new slice. */
  method ConvertEach(rt: Runtime, ints: seq<int>, e: Ty) returns (slice: seq<Value>)
    requires KindOf(e) == Int && forall i :: 0 <= i < |ints| ==> InRange(Int, ints[i])
    ensures slice == IntElems(ints, e)
  {
    slice := seq(|ints|, _ => Zero(e));
    for i := 0 to |ints|
      invariant |slice| == |ints|
      invariant forall j :: 0 <= j < i ==> slice[j] == IntV(e, ints[j])
    {
      slice := slice[i := IntElem(rt, ints[i], e)];
    }
  }

  /** `IntSliceOptionType.Cast` as the library runs it: the two loops over the tokens. */
  method IntSliceCastSteps(rt: Runtime, raw: string, t: Ty) returns (r: Result<Value, Error>)
    requires IntSliceSupports(t)
    ensures r == IntSliceCast(rt, raw, t)
  {
    var s := TrimSpace(raw);
    if s == [] {
      return Success(SliceV(t, false, []));
    }
    var tokens := Tokens(s);
    var ints := ParseEach(tokens);
    if ints.Failure? {
      return Failure(ParseFailed(t, raw, NumErr(ints.error)));
    }
    var slice := ConvertEach(rt, ints.value, Elem(t));
    return Success(SliceV(t, false, slice));
  }

  /** The decimal text of an `int` is a blank-free, comma-free integer token of that value. */
  lemma DecimalIsIntToken(x: int)
    requires InRange(Int, x)
    ensures var p := IntToString(x);
      && p != [] && ',' !in p && TrimSpace(p) == p
      && IsIntToken(p) && TokenValue(p) == x
  {
    var p := IntToString(x);
    assert forall j :: 0 <= j < |p| ==> p[j] == '-' || '0' <= p[j] <= '9';
    TrimSpaceOfTrimmed(p);
    SignedDecimalOfIntToString(x);
  }

  /** Decimal texts joined with commas split back into the same texts, and each of them is an integer token. */
  lemma JoinedIntTokens(xs: seq<int>)
    requires |xs| >= 1 && forall i :: 0 <= i < |xs| ==> InRange(Int, xs[i])
    ensures var parts := seq(|xs|, i requires 0 <= i < |xs| => IntToString(xs[i]));
      && TrimSpace(GoStrings.Join(parts, ",")) != []
      && Tokens(TrimSpace(GoStrings.Join(parts, ","))) == parts
      && forall i :: 0 <= i < |xs| ==> IsIntToken(parts[i]) && TokenValue(parts[i]) == xs[i]
  {
    var parts := seq(|xs|, i requires 0 <= i < |xs| => IntToString(xs[i]));
    forall i | 0 <= i < |parts|
      ensures parts[i] != [] && ',' !in parts[i] && TrimSpace(parts[i]) == parts[i]
      ensures IsIntToken(parts[i]) && TokenValue(parts[i]) == xs[i]
    {
      DecimalIsIntToken(xs[i]);
    }
    JoinEnds(parts, ",");
    TrimSpaceOfTrimmed(GoStrings.Join(parts, ","));
    SplitJoin(parts, ',');
  }

  /** Integers written in decimal and joined with commas cast back to the same integers, in order. */
  lemma IntSliceRoundTrip(rt: Runtime, xs: seq<int>, t: Ty)
    requires IntSliceSupports(t) && |xs| >= 1
    requires forall i :: 0 <= i < |xs| ==> InRange(Int, xs[i])
    ensures IntSliceCast(rt, GoStrings.Join(seq(|xs|, i requires 0 <= i < |xs| => IntToString(xs[i])), ","), t)
      == Success(SliceV(t, false, seq(|xs|, i requires 0 <= i < |xs| => IntV(Elem(t), xs[i]))))
  {
    var parts := seq(|xs|, i requires 0 <= i < |xs| => IntToString(xs[i]));
    JoinedIntTokens(xs);
    assert FirstBad(parts) == |parts|;
    assert TokenValues(parts) == xs;
  }

  /** `IntArrayOptionType.Supports`. */
  predicate IntArraySupports(t: Ty)
  {
    KindOf(t) == Array && KindOf(Elem(t)) == Int
  }

  /** The array holding the parsed values first and zeros after them. */
  function IntItems(ints: seq<int>, e: Ty, n: nat): (vs: seq<Value>)
    requires |ints| <= n
    ensures |vs| == n
    ensures forall i :: 0 <= i < |ints| ==> vs[i] == IntV(e, ints[i])
    ensures forall i :: |ints| <= i < n ==> vs[i] == Zero(e)
  {
    seq(n, i requires 0 <= i < n => if i < |ints| then IntV(e, ints[i]) else Zero(e))
  }

  /**
   * What `IntArrayOptionType.Cast` returns: blank text gives the zero array;
   * otherwise only the first `min(N, tokens)` tokens count: their values in
   * the first positions and zeros after them, or `ParseInt`'s error for the
   * first of them that is not an integer token.
   */
  function IntArrayCast(rt: Runtime, raw: string, t: Ty): (r: Result<Value, Error>)
    requires IntArraySupports(t)
    ensures TrimSpace(raw) == [] ==> r == Success(Zero(t))
    ensures r.Success? ==> r.value.ArrayV? && r.value.t == t && |r.value.items| == t.shape.len
    ensures r.Failure? ==> r.error.ParseFailed? && r.error.ty == t && r.error.value == raw
  {
    var s := TrimSpace(raw);
    if s == [] then Success(Zero(t))
    else
      var tokens := Tokens(s);
      var lead := tokens[..Min(t.shape.len, |tokens|)];
      var k := FirstBad(lead);
      if k < |lead| then Failure(ParseFailed(t, raw, NumErr(TokenError(lead[k]))))
      else Success(ArrayV(t, IntItems(TokenValues(lead), Elem(t), t.shape.len)))
  }

  /**
   * For non-blank text, the array casts exactly when its first `min(N, tokens)`
   * tokens are integer tokens, whatever follows them; their values fill the
   * first positions, the others are zero, and otherwise the error is
   * `ParseInt`'s for the first bad token among them.
   */
  lemma IntArrayCastMeaning(rt: Runtime, raw: string, t: Ty)
    requires IntArraySupports(t) && TrimSpace(raw) != []
    ensures var tokens := Tokens(TrimSpace(raw));
      var m := Min(t.shape.len, |tokens|);
      var r := IntArrayCast(rt, raw, t);
      && (r.Success? <==> forall i :: 0 <= i < m ==> IsIntToken(tokens[i]))
      && (r.Success? ==>
            (forall i :: 0 <= i < m ==> r.value.items[i] == IntV(Elem(t), SignedValue(TrimSpace(tokens[i]))))
            && (forall i :: m <= i < t.shape.len ==> r.value.items[i] == Zero(Elem(t))))
      && (r.Failure? ==>
            FirstBad(tokens[..m]) < m
            && r.error.cause == NumErr(TokenError(tokens[FirstBad(tokens[..m])])))
  {
    var tokens := Tokens(TrimSpace(raw));
    var m := Min(t.shape.len, |tokens|);
    var lead := tokens[..m];
    assert forall i :: 0 <= i < m ==> lead[i] == tokens[i];
    var k := FirstBad(lead);
    if k < m {
      assert IntArrayCast(rt, raw, t) == Failure(ParseFailed(t, raw, NumErr(TokenError(lead[k]))));
    } else {
      assert IntArrayCast(rt, raw, t) == Success(ArrayV(t, IntItems(TokenValues(lead), Elem(t), t.shape.len)));
    }
  }

  /**
   * The array after the first loop of `IntArrayOptionType.Cast` over the
   * leading tokens `lead`: their values, then the array's own elements; or
   * the error for the first of them that is not an integer token.
   */
  function LeadingSet(lead: seq<string>, e: Ty, arr: seq<Value>): Result<seq<Value>, NumError>
    requires |lead| <= |arr|
  {
    var k := FirstBad(lead);
    if k < |lead| then Failure(TokenError(lead[k]))
    else Success(IntElems(TokenValues(lead), e) + arr[|lead|..])
  }

  /** The leading tokens all parse exactly when the loop succeeds; it then keeps the array's length and its tail. */
  lemma LeadingSetMeaning(lead: seq<string>, e: Ty, arr: seq<Value>)
    requires |lead| <= |arr|
    ensures LeadingSet(lead, e, arr).Success? <==> forall j :: 0 <= j < |lead| ==> IsIntToken(lead[j])
    ensures LeadingSet(lead, e, arr).Success? ==> (|LeadingSet(lead, e, arr).value| == |arr|
      && (forall j :: 0 <= j < |lead| ==> LeadingSet(lead, e, arr).value[j] == IntV(e, TokenValue(lead[j])))
      && (forall j :: |lead| <= j < |arr| ==> LeadingSet(lead, e, arr).value[j] == arr[j]))
  {
  }

  /**
   * The first loop of `IntArrayOptionType.Cast`: while both the array and
   * the tokens last, a token is trimmed, parsed and its value stored at its
   * position; the first failure ends the loop with its error.
   */
  method SetLeading(rt: Runtime, tokens: seq<string>, e: Ty, arr: seq<Value>) returns (r: Result<seq<Value>, NumError>)
    requires KindOf(e) == Int
    ensures r == LeadingSet(tokens[..Min(|arr|, |tokens|)], e, arr)
  {
    var a := arr;
    var n := |a|;
    var i := 0;
    LeadingSetEmpty(tokens, e, arr);
    while i < n && i < |tokens|
      invariant 0 <= i <= Min(n, |tokens|) && |a| == n
      invariant LeadingSet(tokens[..i], e, arr) == Success(a)
    {
      var next := SetToken(rt, tokens[i], e, a, i);
      if next.Failure? {
        LeadingSetStop(tokens, Min(n, |tokens|), i, e, arr, a);
        return Failure(next.error);
      }
      LeadingSetStep(tokens, i, e, arr, a);
      a := next.value;
      i := i + 1;
    }
    return Success(a);
  }

  /** Before the loop nothing is set. */
  lemma LeadingSetEmpty(tokens: seq<string>, e: Ty, arr: seq<Value>)
    ensures LeadingSet(tokens[..0], e, arr) == Success(arr)
  {
    assert IntElems(TokenValues(tokens[..0]), e) + arr[0..] == arr;
  }

  /** A round that parses its token stores the value at its position and keeps the rest. */
  lemma LeadingSetStep(tokens: seq<string>, i: nat, e: Ty, arr: seq<Value>, a: seq<Value>)
    requires i < |tokens| && i < |arr|
    requires LeadingSet(tokens[..i], e, arr) == Success(a)
    requires IsIntToken(tokens[i])
    ensures LeadingSet(tokens[..i + 1], e, arr) == Success(a[i := IntV(e, TokenValue(tokens[i]))])
  {
    var lead, lead' := tokens[..i], tokens[..i + 1];
    LeadingSetMeaning(lead, e, arr);
    assert forall j :: 0 <= j < i ==> lead[j] == tokens[j];
    FirstBadOfPrefix(tokens, i + 1, i + 1);
    LeadingSetMeaning(lead', e, arr);
    var b := LeadingSet(lead', e, arr).value;
    var want := a[i := IntV(e, TokenValue(tokens[i]))];
    assert |b| == |want|;
    forall j | 0 <= j < |b| ensures b[j] == want[j] {
      if j < i {
        assert lead'[j] == lead[j];
      } else if j == i {
        assert lead'[j] == tokens[i];
      }
    }
    assert b == want;
  }

  /** A round whose token does not parse ends the loop with that token's error. */
  lemma LeadingSetStop(tokens: seq<string>, m: nat, i: nat, e: Ty, arr: seq<Value>, a: seq<Value>)
    requires i < m <= |tokens| && m <= |arr|
    requires LeadingSet(tokens[..i], e, arr) == Success(a)
    requires !IsIntToken(tokens[i])
    ensures LeadingSet(tokens[..m], e, arr) == Failure(TokenError(tokens[i]))
  {
    var lead := tokens[..i];
    LeadingSetMeaning(lead, e, arr);
    assert forall j :: 0 <= j < i ==> lead[j] == tokens[j];
    FirstBadOfPrefix(tokens, m, i);
  }

  /** One round of that loop: the token at position `i` is parsed and its value stored there. */
  method SetToken(rt: Runtime, token: string, e: Ty, a: seq<Value>, i: nat) returns (r: Result<seq<Value>, NumError>)
    requires KindOf(e) == Int && i < |a|
    ensures r.Success? <==> IsIntToken(token)
    ensures r.Success? ==> r.value == a[i := IntV(e, TokenValue(token))]
    ensures r.Failure? ==> r.error == TokenError(token)
  {
    var v := ParseToken(token);
    if v.Failure? {
      return Failure(v.error);
    }
    return Success(a[i := IntElem(rt, v.value, e)]);
  }

  /** The first bad token of a prefix is the first bad token of the whole, when it lies inside the prefix. */
  lemma FirstBadOfPrefix(tokens: seq<string>, m: nat, i: nat)
    requires i <= m <= |tokens|
    requires forall j :: 0 <= j < i ==> IsIntToken(tokens[j])
    requires i == m || !IsIntToken(tokens[i])
    ensures FirstBad(tokens[..m]) == i
    ensures i < m ==> tokens[..m][i] == tokens[i]
  {
    var lead := tokens[..m];
    assert forall j :: 0 <= j < m ==> lead[j] == tokens[j];
  }

  /** `IntArrayOptionType.Cast` as the library runs it: a zero array, the loop over the leading tokens, and the zeroing loop. */
  method IntArrayCastSteps(rt: Runtime, raw: string, t: Ty) returns (r: Result<Value, Error>)
    requires IntArraySupports(t)
    ensures r == IntArrayCast(rt, raw, t)
  {
    var s := TrimSpace(raw);
    if s == [] {
      return Success(Zero(t));
    }
    var tokens := Tokens(s);
    var e := Elem(t);
    ZeroArrayItems(t);
    IntArrayCastByLeading(rt, raw, t);
    var lead := SetLeading(rt, tokens, e, Zero(t).items);
    if lead.Failure? {
      return Failure(ParseFailed(t, raw, NumErr(lead.error)));
    }
    var arr := ZeroFrom(lead.value, |tokens|, e);
    LeadingThenZeros(tokens[..Min(t.shape.len, |tokens|)], e, Zero(t).items, arr, |tokens|);
    return Success(ArrayV(t, arr));
  }

  /** The zero array of type `t` holds `N` zero elements. */
  lemma ZeroArrayItems(t: Ty)
    requires KindOf(t) == Array
    ensures Zero(t).ArrayV? && |Zero(t).items| == t.shape.len
    ensures forall j :: 0 <= j < |Zero(t).items| ==> Zero(t).items[j] == Zero(Elem(t))
  {
  }

  /** `IntArrayCast` of non-blank text is the first loop's verdict on the zero array's items. */
  lemma IntArrayCastByLeading(rt: Runtime, raw: string, t: Ty)
    requires IntArraySupports(t) && TrimSpace(raw) != []
    ensures var tokens := Tokens(TrimSpace(raw));
      var lead := tokens[..Min(t.shape.len, |tokens|)];
      var verdict := LeadingSet(lead, Elem(t), Zero(t).items);
      && (verdict.Failure? ==> IntArrayCast(rt, raw, t) == Failure(ParseFailed(t, raw, NumErr(verdict.error))))
      && (verdict.Success? ==> IntArrayCast(rt, raw, t) == Success(ArrayV(t, IntItems(TokenValues(lead), Elem(t), t.shape.len))))
  {
    ZeroArrayItems(t);
  }

  /** After both loops the array holds the leading tokens' values, then zeros. */
  lemma LeadingThenZeros(lead: seq<string>, e: Ty, zeros: seq<Value>, b: seq<Value>, from: nat)
    requires |lead| <= |zeros| == |b| && |lead| <= from
    requires LeadingSet(lead, e, zeros).Success?
    requires forall j :: 0 <= j < |zeros| ==> zeros[j] == Zero(e)
    requires forall j :: 0 <= j < |b| && j < from ==> b[j] == LeadingSet(lead, e, zeros).value[j]
    requires forall j :: from <= j < |b| ==> b[j] == Zero(e)
    ensures b == IntItems(TokenValues(lead), e, |zeros|)
  {
    LeadingSetMeaning(lead, e, zeros);
    var want := IntItems(TokenValues(lead), e, |zeros|);
    forall j | 0 <= j < |b| ensures b[j] == want[j] {
    }
  }

  /** The second loop of `IntArrayOptionType.Cast`: every position from `from` on is set to zero. */
  method ZeroFrom(a: seq<Value>, from: nat, e: Ty) returns (b: seq<Value>)
    ensures |b| == |a|
    ensures forall j :: 0 <= j < |a| && j < from ==> b[j] == a[j]
    ensures forall j :: from <= j < |a| ==> b[j] == Zero(e)
  {
    b := a;
    var i := from;
    while i < |b|
      invariant |b| == |a|
      invariant forall j :: 0 <= j < |a| && (j < from || j >= i) ==> b[j] == a[j]
      invariant forall j :: from <= j < i && j < |a| ==> b[j] == Zero(e)
      decreases |b| - i
    {
      b := b[i := Zero(e)];
      i := i + 1;
    }
  }

  /** A token held at the target's element type: the conversion keeps the text. */
  function StringElem(rt: Runtime, token: string, e: Ty): (v: Value)
    requires KindOf(e) == String
    ensures v == StringV(e, token)
  {
    Convert(rt, StringV(Predeclared(String), token), e)
  }

  /** `StringSliceOptionType.Supports`. */
  predicate StringSliceSupports(t: Ty)
  {
    KindOf(t) == Slice && KindOf(Elem(t)) == String
  }

  /** Tokens held at the target's element type, one by one. */
  function StringElems(tokens: seq<string>, e: Ty): (vs: seq<Value>)
    ensures |vs| == |tokens|
    ensures forall i :: 0 <= i < |tokens| ==> vs[i] == StringV(e, tokens[i])
  {
    seq(|tokens|, i requires 0 <= i < |tokens| => StringV(e, tokens[i]))
  }

  /** The tokens, each trimmed. */
  function TrimAll(tokens: seq<string>): (r: seq<string>)
    ensures |r| == |tokens|
    ensures forall i :: 0 <= i < |tokens| ==> r[i] == TrimSpace(tokens[i])
  {
    seq(|tokens|, i requires 0 <= i < |tokens| => TrimSpace(tokens[i]))
  }

  /**
   * `StringSliceOptionType.Cast`: blank text gives an empty, non-nil slice;
   * otherwise one element per token, trimmed, empty tokens included. It
   * never fails.
   */
  function StringSliceCast(rt: Runtime, raw: string, t: Ty): (r: Value)
    requires StringSliceSupports(t)
    ensures r.SliceV? && r.t == t && !r.isNil
    ensures TrimSpace(raw) == [] ==> r.elems == []
    ensures TrimSpace(raw) != [] ==> |r.elems| == |Tokens(TrimSpace(raw))|
    ensures TrimSpace(raw) != [] ==> forall i :: 0 <= i < |r.elems| ==>
      r.elems[i] == StringV(Elem(t), TrimSpace(Tokens(TrimSpace(raw))[i]))
  {
    var s := TrimSpace(raw);
    if s == [] then SliceV(t, false, [])
    else SliceV(t, false, StringElems(TrimAll(Tokens(s)), Elem(t)))
  }

  /** The strings held by a sequence of values ("" for a value that is not a string). */
  function StringsOf(vs: seq<Value>): (r: seq<string>)
    ensures |r| == |vs|
    ensures forall i :: 0 <= i < |vs| && vs[i].StringV? ==> r[i] == vs[i].s
  {
    seq(|vs|, i requires 0 <= i < |vs| => if vs[i].StringV? then vs[i].s else "")
  }

  /** The first loop of `StringSliceOptionType.Cast`: every token is trimmed where it is. */
  method TrimEach(split: seq<string>) returns (tokens: seq<string>)
    ensures tokens == TrimAll(split)
  {
    tokens := split;
    for i := 0 to |tokens|
      invariant |tokens| == |split|
      invariant forall j :: 0 <= j < i ==> tokens[j] == TrimSpace(split[j])
      invariant forall j :: i <= j < |tokens| ==> tokens[j] == split[j]
    {
      tokens := tokens[i := TrimSpace(tokens[i])];
    }
  }

  /** The second loop of `StringSliceOptionType.Cast`: each token is stored, converted, in a new slice. */
  method FillStrings(rt: Runtime, tokens: seq<string>, e: Ty) returns (slice: seq<Value>)
    requires KindOf(e) == String
    ensures slice == StringElems(tokens, e)
  {
    slice := seq(|tokens|, _ => Zero(e));
    for i := 0 to |tokens|
      invariant |slice| == |tokens|
      invariant forall j :: 0 <= j < i ==> slice[j] == StringV(e, tokens[j])
    {
      slice := slice[i := StringElem(rt, tokens[i], e)];
    }
  }

  /** `StringSliceOptionType.Cast` as the library runs it: the two loops over the tokens. */
  method StringSliceCastSteps(rt: Runtime, raw: string, t: Ty) returns (r: Value)
    requires StringSliceSupports(t)
    ensures r == StringSliceCast(rt, raw, t)
  {
    var s := TrimSpace(raw);
    if s == [] {
      return SliceV(t, false, []);
    }
    var tokens := TrimEach(Tokens(s));
    var slice := FillStrings(rt, tokens, Elem(t));
    r := SliceV(t, false, slice);
  }

  /** Re-joining the elements with commas gives the trimmed text back when no token is padded with white space. */
  lemma StringSliceJoin(rt: Runtime, raw: string, t: Ty)
    requires StringSliceSupports(t) && TrimSpace(raw) != []
    requires forall i :: 0 <= i < |Tokens(TrimSpace(raw))| ==>
      TrimSpace(Tokens(TrimSpace(raw))[i]) == Tokens(TrimSpace(raw))[i]
    ensures GoStrings.Join(StringsOf(StringSliceCast(rt, raw, t).elems), ",") == TrimSpace(raw)
  {
    var tokens := Tokens(TrimSpace(raw));
    assert StringsOf(StringSliceCast(rt, raw, t).elems) == tokens;
    JoinSplit(TrimSpace(raw), ",");
  }

  /**
   * Pieces without commas and without white space around them, joined with
   * commas, come back as the elements, empty pieces included.
   */
  lemma StringSliceRoundTrip(rt: Runtime, parts: seq<string>, t: Ty)
    requires StringSliceSupports(t) && |parts| >= 1
    requires forall i :: 0 <= i < |parts| ==> ',' !in parts[i] && TrimSpace(parts[i]) == parts[i]
    requires TrimSpace(GoStrings.Join(parts, ",")) == GoStrings.Join(parts, ",") != []
    ensures StringsOf(StringSliceCast(rt, GoStrings.Join(parts, ","), t).elems) == parts
  {
    SplitJoin(parts, ',');
  }
}
