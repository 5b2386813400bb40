/**
 * The cast registry of the typecast package: an ordered list of options,
 * the built-in ones first, and a cache from a target type to the option
 * chosen for it. A pointer target is served by the option of its element
 * type and wrapped in a fresh pointer.
 */
module TypecastCaster {
  import opened Base
  import GoStrings
  import opened Reflect
  import opened Errors
  import opened Host
  import opened TypecastScalars
  import opened TypecastBytes
  import opened TypecastComplex
  import opened TypecastLists
  import opened TypecastText

  /**
   * The options a caster can hold: the nine built-in ones, the three list
   * options a caller may append, and the `k`-th option of the caller's own
   * (its `Supports` and `Cast` are `Runtime.customSupports` and `customCast`).
   */
  datatype OptionId =
    | TextUnmarshalerOption | ByteArrayOption | StringOption | ByteSliceOption
    | BoolOption | IntOption | UintOption | FloatOption | ComplexOption
    | IntSliceOption | IntArrayOption | StringSliceOption
    | CustomOption(k: nat)

  /** The built-in options of `NewCaster`, in priority order. */
  const Builtins: seq<OptionId> :=
    [TextUnmarshalerOption, ByteArrayOption, StringOption, ByteSliceOption,
     BoolOption, IntOption, UintOption, FloatOption, ComplexOption]

  /** `OptionType.Supports` of each option. */
  predicate Supports(rt: Runtime, o: OptionId, t: Ty)
  {
    match o
    case TextUnmarshalerOption => TextSupports(t)
    case ByteArrayOption => ByteArraySupports(t)
    case StringOption => StringSupports(t)
    case ByteSliceOption => ByteSliceSupports(t)
    case BoolOption => BoolSupports(t)
    case IntOption => IntSupports(t)
    case UintOption => UintSupports(t)
    case FloatOption => FloatSupports(t)
    case ComplexOption => ComplexSupports(t)
    case IntSliceOption => IntSliceSupports(t)
    case IntArrayOption => IntArraySupports(t)
    case StringSliceOption => StringSliceSupports(t)
    case CustomOption(k) => rt.customSupports(k, t)
  }

  /** `OptionType.Cast` of each option, on a type the option supports. */
  function OptionCast(rt: Runtime, o: OptionId, raw: string, t: Ty): Result<Value, Error>
    requires Supports(rt, o, t)
  {
    match o
    case TextUnmarshalerOption => TextCast(rt, raw, t)
    case ByteArrayOption => Success(ByteArrayOf(raw, t))
    case StringOption => Success(StringCast(rt, raw, t))
    case ByteSliceOption => Success(ByteSliceCast(raw))
    case BoolOption => BoolCast(raw, t)
    case IntOption => IntCast(rt, raw, t)
    case UintOption => UintCast(rt, raw, t)
    case FloatOption => rt.floatCast(raw, t)
    case ComplexOption => ComplexCast(rt, raw, t)
    case IntSliceOption => IntSliceCast(rt, raw, t)
    case IntArrayOption => IntArrayCast(rt, raw, t)
    case StringSliceOption => Success(StringSliceCast(rt, raw, t))
    case CustomOption(k) => rt.customCast(k, raw, t)
  }

  /** The call `optionType.Cast(value, t)`, running each option's own steps. */
  method RunOption(rt: Runtime, o: OptionId, raw: string, t: Ty) returns (r: Result<Value, Error>)
    requires Supports(rt, o, t)
    ensures r == OptionCast(rt, o, raw, t)
  {
    match o
    case ByteArrayOption =>
      var v := ByteArrayCast(rt, raw, t);
      r := Success(v);
    case ComplexOption =>
      r := ComplexCastSteps(rt, raw, t);
    case IntSliceOption =>
      r := IntSliceCastSteps(rt, raw, t);
    case IntArrayOption =>
      r := IntArrayCastSteps(rt, raw, t);
    case StringSliceOption =>
      var v := StringSliceCastSteps(rt, raw, t);
      r := Success(v);
    case _ =>
      r := OptionCast(rt, o, raw, t);
  }

  /** The position of the first option supporting `t`, or `|options|` when there is none. */
  function FirstSupporting(rt: Runtime, options: seq<OptionId>, t: Ty): (k: nat)
    ensures k <= |options|
    ensures k < |options| ==> Supports(rt, options[k], t)
    ensures forall j :: 0 <= j < k ==> !Supports(rt, options[j], t)
  {
    if options == [] then 0
    else if Supports(rt, options[0], t) then 0
    else
      var k := FirstSupporting(rt, options[1..], t);
      assert forall j :: 1 <= j <= k && j < |options| ==> options[j] == options[1..][j - 1];
      1 + k
  }

  /** The option the caster chooses for `t`: the first in the list that supports it. */
  function Select(rt: Runtime, options: seq<OptionId>, t: Ty): (r: Option<OptionId>)
    ensures r.Some? ==> Supports(rt, r.value, t)
  {
    var k := FirstSupporting(rt, options, t);
    if k < |options| then Some(options[k]) else None
  }

  /** Every cached entry is the option `Select` chooses for its type. */
  predicate CacheValid(rt: Runtime, options: seq<OptionId>, cache: map<Ty, OptionId>)
  {
    forall t :: t in cache ==> Select(rt, options, t) == Some(cache[t])
  }

  /** The conversion applied to an option's result on first resolution. */
  function Adjust(rt: Runtime, v: Value, t: Ty): (r: Value)
    ensures AssignableTo(v.t, t) || !ConvertibleTo(v.t, t) ==> r == v
    ensures !AssignableTo(v.t, t) && ConvertibleTo(v.t, t) ==> r.t == t
  {
    if !AssignableTo(v.t, t) && ConvertibleTo(v.t, t) then Convert(rt, v, t) else v
  }

  /** True when `t` is a pointer type whose element type some option supports. */
  predicate TakesPointerPath(rt: Runtime, options: seq<OptionId>, t: Ty)
  {
    KindOf(t) == Ptr && Select(rt, options, Elem(t)).Some?
  }

  /**
   * What the pointer path relies on: the element's cast result can be
   * stored in a variable of the element type, directly or after conversion
   * (otherwise `reflect.Value.Set` panics).
   */
  predicate PointerPathSafe(rt: Runtime, options: seq<OptionId>, raw: string, t: Ty)
  {
    TakesPointerPath(rt, options, t) ==>
      var e := Elem(t);
      var c := OptionCast(rt, Select(rt, options, e).value, raw, e);
      c.Success? ==> AssignableTo(c.value.t, e) || ConvertibleTo(c.value.t, e)
  }

  /** The result of `Caster.Cast(raw, t)` with the cache `cache` in place beforehand. */
  function CastResult(rt: Runtime, options: seq<OptionId>, cache: map<Ty, OptionId>, raw: string, t: Ty): Result<Value, Error>
    requires CacheValid(rt, options, cache)
  {
    if TakesPointerPath(rt, options, t) then PointerResult(rt, Select(rt, options, Elem(t)).value, raw, Elem(t))
    else if t in cache then OptionCast(rt, cache[t], raw, t)
    else match Select(rt, options, t)
      case None => Failure(UnsupportedType(t))
      case Some(o) =>
        match OptionCast(rt, o, raw, t)
        case Failure(err) => Failure(err)
        case Success(v) => Success(Adjust(rt, v, t))
  }

  /** The pointer path: the element's cast result, adjusted, in a fresh pointer to the element type. */
  function PointerResult(rt: Runtime, o: OptionId, raw: string, e: Ty): Result<Value, Error>
    requires Supports(rt, o, e)
  {
    match OptionCast(rt, o, raw, e)
    case Failure(err) => Failure(err)
    case Success(v) => Success(PtrV(PointerTo(e), Some(Adjust(rt, v, e).(t := e))))
  }

  /** The cache after `Caster.Cast(raw, t)`: it records the option resolved for the type it looked up. */
  function CacheAfter(rt: Runtime, options: seq<OptionId>, cache: map<Ty, OptionId>, t: Ty): map<Ty, OptionId>
  {
    if TakesPointerPath(rt, options, t) then
      if Elem(t) in cache then cache else cache[Elem(t) := Select(rt, options, Elem(t)).value]
    else if t in cache then cache
    else match Select(rt, options, t)
      case None => cache
      case Some(o) => cache[t := o]
  }

  /** `NewCaster` and its `Cast` method. */
  class Caster {
    /** The cache of resolved options (`byType`). */
    var byType: map<Ty, OptionId>
    /** The options in priority order. */
    const options: seq<OptionId>
    /** Everything the options call outside the model. */
    const rt: Runtime

    predicate Valid()
      reads this
    {
      CacheValid(rt, options, byType)
    }

    /** `NewCaster(extra...)`: the built-in options followed by the caller's, and an empty cache. */
    constructor (rt: Runtime, extra: seq<OptionId>)
      ensures this.rt == rt && options == Builtins + extra && byType == map[]
      ensures Valid()
    {
      this.rt := rt;
      options := Builtins + extra;
      byType := map[];
    }

    /** The loop over `c.options` that stops at the first option supporting `t`. */
    method FindOption(t: Ty) returns (r: Option<OptionId>)
      ensures r == Select(rt, options, t)
    {
      r := None;
      var i := 0;
      while i < |options|
        invariant 0 <= i <= |options|
        invariant FirstSupporting(rt, options[i..], t) + i == FirstSupporting(rt, options, t)
      {
        assert options[i..][1..] == options[i + 1..];
        if Supports(rt, options[i], t) {
          r := Some(options[i]);
          return;
        }
        i := i + 1;
      }
    }

    /** The option for `t`: the cached one, or else the selected one, which is then cached. */
    method Resolve(t: Ty) returns (r: Option<OptionId>)
      requires Valid()
      modifies this
      ensures Valid()
      ensures r == Select(rt, options, t)
      ensures byType == if t in old(byType) || r.None? then old(byType) else old(byType)[t := r.value]
    {
      if t in byType {
        return Some(byType[t]);
      }
      r := FindOption(t);
      if r.Some? {
        byType := byType[t := r.value];
      }
    }

    /** `Caster.Cast`. */
    method Cast(raw: string, t: Ty) returns (r: Result<Value, Error>)
      requires Valid()
      requires PointerPathSafe(rt, options, raw, t)
      modifies this
      ensures Valid()
      ensures byType == CacheAfter(rt, options, old(byType), t)
      ensures r == CastResult(rt, options, old(byType), raw, t)
    {
      if KindOf(t) == Ptr {
        var e := Elem(t);
        var elemOption := Resolve(e);
        if elemOption.Some? {
          r := CastIntoPointer(raw, e, elemOption.value);
          return;
        }
      }
      if t in byType {
        r := RunOption(rt, byType[t], raw, t);
        return;
      }
      var selected := FindOption(t);
      if selected.Some? {
        byType := byType[t := selected.value];
        var v :- RunOption(rt, selected.value, raw, t);
        if !AssignableTo(v.t, t) && ConvertibleTo(v.t, t) {
          v := Convert(rt, v, t);
        }
        return Success(v);
      }
      return Failure(UnsupportedType(t));
    }

    /** The pointer path of `Caster.Cast`: cast at the element type, adjust, store in a fresh pointer. */
    method CastIntoPointer(raw: string, e: Ty, o: OptionId) returns (r: Result<Value, Error>)
      requires Supports(rt, o, e)
      requires var c := OptionCast(rt, o, raw, e); c.Success? ==> AssignableTo(c.value.t, e) || ConvertibleTo(c.value.t, e)
      ensures r == match OptionCast(rt, o, raw, e)
        case Failure(err) => Failure(err)
        case Success(v) => Success(PtrV(PointerTo(e), Some(Adjust(rt, v, e).(t := e))))
    {
      var c := RunOption(rt, o, raw, e);
      match c
      case Failure(err) =>
        r := Failure(err);
      case Success(casted) =>
        var v := casted;
        if !AssignableTo(v.t, e) && ConvertibleTo(v.t, e) {
          v := Convert(rt, v, e);
        }
        assert v == Adjust(rt, casted, e);
        assert AssignableTo(v.t, e);
        r := Success(PtrV(PointerTo(e), Some(v.(t := e))));
    }
  }

  /** The option at position `k` is the one chosen when it supports `t` and none before it does. */
  lemma {:induction false} FirstSupportingIsUnique(rt: Runtime, options: seq<OptionId>, t: Ty, k: nat)
    requires k < |options| && Supports(rt, options[k], t)
    requires forall j :: 0 <= j < k ==> !Supports(rt, options[j], t)
    ensures FirstSupporting(rt, options, t) == k
    decreases k
  {
    if k > 0 {
      FirstSupportingIsUnique(rt, options[1..], t, k - 1);
    }
  }

  /** The option chosen for a type is the first one in the list that supports it, and none means no option does. */
  lemma SelectIsFirst(rt: Runtime, options: seq<OptionId>, t: Ty, o: OptionId)
    ensures Select(rt, options, t) == Some(o) <==>
      exists k :: 0 <= k < |options| && options[k] == o && Supports(rt, o, t)
        && forall j :: 0 <= j < k ==> !Supports(rt, options[j], t)
    ensures Select(rt, options, t).None? <==> forall j :: 0 <= j < |options| ==> !Supports(rt, options[j], t)
  {
    var f := FirstSupporting(rt, options, t);
    if exists k :: 0 <= k < |options| && options[k] == o && Supports(rt, o, t)
        && forall j :: 0 <= j < k ==> !Supports(rt, options[j], t) {
      var k :| 0 <= k < |options| && options[k] == o && Supports(rt, o, t)
        && forall j :: 0 <= j < k ==> !Supports(rt, options[j], t);
      FirstSupportingIsUnique(rt, options, t, k);
    }
    if f < |options| {
      assert !forall j :: 0 <= j < |options| ==> !Supports(rt, options[j], t);
    }
  }

  /** Options appended after the list are consulted only when no option of the list supports the type. */
  lemma {:induction false} AppendedComeLast(rt: Runtime, front: seq<OptionId>, extra: seq<OptionId>, t: Ty)
    ensures Select(rt, front, t).Some? ==> Select(rt, front + extra, t) == Select(rt, front, t)
    ensures Select(rt, front, t).None? ==> Select(rt, front + extra, t) == Select(rt, extra, t)
    decreases |front|
  {
    if front != [] {
      assert (front + extra)[1..] == front[1..] + extra;
      AppendedComeLast(rt, front[1..], extra, t);
    } else {
      assert front + extra == extra;
    }
  }

  /** The cache only gains entries, never changes one, and stays valid. */
  lemma CacheOnlyGrows(rt: Runtime, options: seq<OptionId>, cache: map<Ty, OptionId>, t: Ty)
    requires CacheValid(rt, options, cache)
    ensures cache.Keys <= CacheAfter(rt, options, cache, t).Keys
    ensures forall u :: u in cache ==> CacheAfter(rt, options, cache, t)[u] == cache[u]
    ensures CacheValid(rt, options, CacheAfter(rt, options, cache, t))
  {
    var k := if TakesPointerPath(rt, options, t) then Elem(t) else t;
    if k !in cache && Select(rt, options, k).Some? {
      RecordKeepsValid(rt, options, cache, k);
    }
  }

  /** Recording the option `Select` chooses keeps the cache valid. */
  lemma RecordKeepsValid(rt: Runtime, options: seq<OptionId>, cache: map<Ty, OptionId>, k: Ty)
    requires CacheValid(rt, options, cache) && Select(rt, options, k).Some?
    ensures CacheValid(rt, options, cache[k := Select(rt, options, k).value])
  {
  }

  /**
   * A type is cached before its option runs: once an option supports a
   * non-pointer target, the mapping is recorded even when the cast fails.
   */
  lemma CachedEvenOnFailure(rt: Runtime, options: seq<OptionId>, cache: map<Ty, OptionId>, raw: string, t: Ty)
    requires CacheValid(rt, options, cache)
    requires !TakesPointerPath(rt, options, t) && Select(rt, options, t).Some?
    ensures t in CacheAfter(rt, options, cache, t)
    ensures CacheAfter(rt, options, cache, t)[t] == Select(rt, options, t).value
    ensures OptionCast(rt, Select(rt, options, t).value, raw, t).Failure? ==>
      CastResult(rt, options, cache, raw, t) == OptionCast(rt, Select(rt, options, t).value, raw, t)
  {
  }

  /** With no supporting option the result is `ErrUnsupportedType` of the target, and the cache is unchanged. */
  lemma UnsupportedLeavesCache(rt: Runtime, options: seq<OptionId>, cache: map<Ty, OptionId>, raw: string, t: Ty)
    requires CacheValid(rt, options, cache)
    requires !TakesPointerPath(rt, options, t) && Select(rt, options, t).None?
    ensures CastResult(rt, options, cache, raw, t) == Failure(UnsupportedType(t))
    ensures CacheAfter(rt, options, cache, t) == cache
  {
    assert t !in cache;
  }

  /**
   * The pointer path yields a new pointer to the element's cast result,
   * seen at the element type, or the option's error unchanged.
   */
  lemma PointerResultWraps(rt: Runtime, o: OptionId, raw: string, e: Ty)
    requires Supports(rt, o, e)
    ensures var c := OptionCast(rt, o, raw, e);
      var r := PointerResult(rt, o, raw, e);
      && (r.Success? <==> c.Success?)
      && (r.Failure? ==> r.error == c.error)
      && (r.Success? ==> r.value.PtrV? && r.value.t == PointerTo(e) && r.value.target.Some?
                         && r.value.target.value.t == e)
  {
    var c := OptionCast(rt, o, raw, e);
    if c.Success? {
      var w := Adjust(rt, c.value, e).(t := e);
      assert PointerResult(rt, o, raw, e) == Success(PtrV(PointerTo(e), Some(w)));
    }
  }

  /**
   * A pointer target whose element type some option supports is served by
   * that option, whatever the cache holds.
   */
  lemma PointerPathIgnoresCache(rt: Runtime, options: seq<OptionId>, cache: map<Ty, OptionId>, raw: string, t: Ty)
    requires CacheValid(rt, options, cache)
    requires TakesPointerPath(rt, options, t)
    ensures CastResult(rt, options, cache, raw, t) == PointerResult(rt, Select(rt, options, Elem(t)).value, raw, Elem(t))
    ensures CastResult(rt, options, cache, raw, t) == CastResult(rt, options, map[], raw, t)
  {
  }

  /**
   * A cached type differs from a fresh resolution only in the conversion:
   * both run the same option, and the results agree whenever the option's
   * result needs no conversion.
   */
  lemma CacheHitSkipsAdjust(rt: Runtime, options: seq<OptionId>, cache: map<Ty, OptionId>, raw: string, t: Ty)
    requires CacheValid(rt, options, cache)
    requires !TakesPointerPath(rt, options, t) && t in cache
    ensures CastResult(rt, options, cache, raw, t) == OptionCast(rt, cache[t], raw, t)
    ensures var c := OptionCast(rt, cache[t], raw, t);
      CastResult(rt, options, map[], raw, t) == if c.Success? then Success(Adjust(rt, c.value, t)) else c
  {
  }

  /** A named boolean type without methods, `type Flag bool`. */
  const FlagT := Ty("Flag", {}, {}, Basic(Bool))

  /** The built-in option chosen for `Flag` is the boolean one. */
  lemma FlagUsesBoolOption(rt: Runtime)
    ensures Select(rt, Builtins, FlagT) == Some(BoolOption)
  {
    assert !TextSupports(FlagT) by {
      assert MethodSet(FlagT) == {} && MethodSet(PointerTo(FlagT)) == {};
    }
    FirstSupportingIsUnique(rt, Builtins, FlagT, 4);
  }

  /** `BoolOptionType.Cast` of "true" yields the plain `bool` true, whatever the target. */
  lemma FlagBoolCast()
    ensures BoolCast("true", FlagT) == Success(BoolV(BoolT, true))
  {
    GoStrings.TrimSpaceOfTrimmed("true");
  }

  /** The first cast to `Flag` resolves the boolean option, caches it, and converts its plain `bool` to `Flag`. */
  lemma FlagFirstCast(rt: Runtime)
    ensures CastResult(rt, Builtins, map[], "true", FlagT) == Success(BoolV(FlagT, true))
    ensures CacheAfter(rt, Builtins, map[], FlagT) == map[FlagT := BoolOption]
  {
    FlagUsesBoolOption(rt);
    assert !TakesPointerPath(rt, Builtins, FlagT);
    FlagBoolCast();
    var v := BoolV(BoolT, true);
    assert OptionCast(rt, BoolOption, "true", FlagT) == Success(v);
    FlagAdjust(rt, true);
    assert CastResult(rt, Builtins, map[], "true", FlagT) == Success(Adjust(rt, v, FlagT));
  }

  /** A plain `bool` is not assignable to `Flag` but converts to it, keeping its value. */
  lemma FlagAdjust(rt: Runtime, b: bool)
    ensures !AssignableTo(BoolT, FlagT) && ConvertibleTo(BoolT, FlagT)
    ensures Adjust(rt, BoolV(BoolT, b), FlagT) == BoolV(FlagT, b)
  {
    assert Underlying(BoolT) == Underlying(FlagT);
  }

  /**
   * The cache-hit quirk: once `Flag` is cached, a cast to it returns the
   * option's plain `bool`, without the conversion the first cast applied.
   */
  lemma FlagCachedCast(rt: Runtime)
    ensures CacheValid(rt, Builtins, map[FlagT := BoolOption])
      && CastResult(rt, Builtins, map[FlagT := BoolOption], "true", FlagT) == Success(BoolV(BoolT, true))
  {
    var cache := map[FlagT := BoolOption];
    FlagUsesBoolOption(rt);
    assert CacheValid(rt, Builtins, cache);
    assert !TakesPointerPath(rt, Builtins, FlagT);
    FlagBoolCast();
    assert OptionCast(rt, BoolOption, "true", FlagT) == Success(BoolV(BoolT, true));
  }

  /** The type `[]int`. */
  const IntSliceT := SliceType(Predeclared(Int))

  /** No built-in option supports `[]int`, so a caster without extra options refuses it. */
  lemma IntSliceUnsupportedByBuiltins(rt: Runtime, raw: string)
    ensures CastResult(rt, Builtins, map[], raw, IntSliceT) == Failure(UnsupportedType(IntSliceT))
  {
    NoBuiltinForIntSlice(rt);
    SelectIsFirst(rt, Builtins, IntSliceT, IntOption);
  }

  lemma NoBuiltinForIntSlice(rt: Runtime)
    ensures forall j :: 0 <= j < |Builtins| ==> !Supports(rt, Builtins[j], IntSliceT)
  {
    UnnamedSliceNotText(Predeclared(Int));
    assert KindOf(Elem(IntSliceT)) == Int;
  }

  /** An unnamed slice type has no methods, and neither has a pointer to it. */
  lemma UnnamedSliceNotText(e: Ty)
    ensures !TextSupports(SliceType(e))
  {
    assert MethodSet(SliceType(e)) == {} && MethodSet(PointerTo(SliceType(e))) == {};
  }

  /** With the list option appended, the same caster accepts `[]int`. */
  lemma IntSliceSupportedWhenAppended(rt: Runtime)
    ensures Select(rt, Builtins + [IntSliceOption], IntSliceT) == Some(IntSliceOption)
  {
    NoBuiltinForIntSlice(rt);
    SelectIsFirst(rt, Builtins, IntSliceT, IntOption);
    AppendedComeLast(rt, Builtins, [IntSliceOption], IntSliceT);
    assert Select(rt, [IntSliceOption], IntSliceT) == Some(IntSliceOption);
  }
}
