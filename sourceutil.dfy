/**
 * `pkg/source/sourceutil`: the helpers every source shares — the load-mode
 * default, the target check, the assignment policy, the assignment ladders
 * that store a cast or supplied value into a struct field, dotted field
 * paths, delimiter normalisation and the two name conversions.
 *
 * A field is modelled by its type: an assignment returns the value the field
 * holds afterwards, or the error, in which case the field keeps its value.
 */
module Sourceutil {
  import opened Base
  import opened GoStrings
  import opened Reflect
  import opened Errors
  import opened Host
  import opened Naming
  import Loader
  import opened TypecastCaster

  /** `DefaultMode`: 0 stands for `ModeOverride`, exactly as the loader reads it. */
  function DefaultMode(mode: Loader.LoadMode): (m: Loader.LoadMode)
    ensures m == Loader.EffectiveMode(mode)
    ensures m != 0
  {
    if mode == 0 then Loader.ModeOverride else mode
  }

  /** Defaulting twice is defaulting once, so a source may default a mode the loader already defaulted. */
  lemma DefaultModeIdempotent(mode: Loader.LoadMode)
    ensures DefaultMode(DefaultMode(mode)) == DefaultMode(mode)
    ensures DefaultMode(Loader.EffectiveMode(mode)) == Loader.EffectiveMode(mode)
  {
  }

  const NilTargetReason := "target must be a non-nil pointer to struct"
  const NonStructTargetReason := "target must be pointer to struct"

  /** A non-nil pointer: what `reflect.ValueOf(cfg)` must be for a source to load into it. */
  predicate IsNonNilPointer(cfg: Option<Value>)
  {
    cfg.Some? && cfg.value.PtrV? && cfg.value.target.Some?
  }

  /**
   * `EnsureTargetStruct`: the struct a non-nil pointer points to; `None`
   * is the untyped nil.
   */
  function EnsureTargetStruct(cfg: Option<Value>): (r: Result<Value, Error>)
    ensures r.Success? <==> IsNonNilPointer(cfg) && KindOf(cfg.value.target.value.t) == Struct
    ensures r.Success? ==> r.value == cfg.value.target.value
    ensures !IsNonNilPointer(cfg) ==> r == Failure(NewInvalidTargetError(NilTargetReason))
    ensures IsNonNilPointer(cfg) && r.Failure? ==> r == Failure(NewInvalidTargetError(NonStructTargetReason))
  {
    if !IsNonNilPointer(cfg) then Failure(NewInvalidTargetError(NilTargetReason))
    else
      var elem := cfg.value.target.value;
      if KindOf(elem.t) != Struct then Failure(NewInvalidTargetError(NonStructTargetReason))
      else Success(elem)
  }

  /** The target's error: the invalid-target sentinel, the typed error with the reason, and its text. */
  predicate ReadsAsInvalidTarget(e: Error, reason: string)
  {
    && Is(e, SentinelErr(InvalidTargetS))
    && As(e, InvalidTargetK) == Some(InvalidTarget(reason))
    && Message(e) == "invalid target: invalid target: " + reason
  }

  lemma InvalidTargetReads(reason: string)
    ensures ReadsAsInvalidTarget(NewInvalidTargetError(reason), reason)
  {
    InvalidTargetErrorWraps(reason);
  }

  /** Both target errors carry the invalid-target sentinel and read "invalid target: invalid target: <reason>". */
  lemma TargetErrorsReadAsInvalidTarget(cfg: Option<Value>)
    requires EnsureTargetStruct(cfg).Failure?
    ensures ReadsAsInvalidTarget(EnsureTargetStruct(cfg).error,
      if IsNonNilPointer(cfg) then NonStructTargetReason else NilTargetReason)
  {
    var reason := if IsNonNilPointer(cfg) then NonStructTargetReason else NilTargetReason;
    InvalidTargetReads(reason);
  }

  /**
   * `ShouldAssign`: whether a field is written, given whether the source has
   * a value for it, the mode and its default.
   */
  function ShouldAssign(field: Value, present: bool, mode: Loader.LoadMode, defaultValue: string): (b: bool)
    // Only the two known modes ever assign.
    ensures b ==> mode == Loader.ModeOverride || mode == Loader.ModeFillMissing
    // Override: a present value always wins; a default only fills a zero field.
    ensures mode == Loader.ModeOverride ==> (b <==> present || (defaultValue != "" && IsZero(field)))
    // FillMissing never touches a non-zero field; a zero field takes whatever there is.
    ensures mode == Loader.ModeFillMissing ==> (b <==> IsZero(field) && (present || defaultValue != ""))
  {
    if mode == Loader.ModeOverride then
      if present then true
      else if defaultValue != "" && IsZero(field) then true
      else false
    else if mode == Loader.ModeFillMissing then
      if !IsZero(field) then false
      else if present || defaultValue != "" then true
      else false
    else false
  }

  /** With nothing to assign (no value, no default) no mode writes the field; a non-zero field keeps its value unless Override has one. */
  lemma NothingToAssign(field: Value, present: bool, mode: Loader.LoadMode, defaultValue: string)
    ensures !present && defaultValue == "" ==> !ShouldAssign(field, present, mode, defaultValue)
    ensures !IsZero(field) && ShouldAssign(field, present, mode, defaultValue) ==> mode == Loader.ModeOverride && present
  {
  }

  /** `isNilAssignableKind`: the kinds whose zero value is nil. */
  predicate NilAssignable(k: Kind)
  {
    k == Ptr || k == Slice || k == Map || k == Func || k == Interface || k == Chan
  }

  /** A nil-assignable kind's zero value is the nil of its type. */
  lemma NilAssignableZeroIsNil(t: Ty)
    requires NilAssignable(KindOf(t))
    ensures var z := Zero(t);
      (z.PtrV? && z.target.None?) || (z.SliceV? && z.isNil) || (z.RefV? && z.ref.None?) || (z.IfaceV? && z.dyn.None?)
  {
  }

  /** `field.Set(v)`: the field holds `v`, seen at the field's type. */
  function Store(t: Ty, v: Value): (r: Value)
    ensures r.t == t
  {
    v.(t := t)
  }

  /** `v.Elem()` of a pointer; a nil pointer stands for the zero value of its element type. */
  function Pointee(v: Value): Value
    requires KindOf(v.t) == Ptr
  {
    if v.PtrV? && v.target.Some? then v.target.value else Zero(Elem(v.t))
  }

  /** The type a field's cast is made at: the element type for a pointer field. */
  function CastTarget(t: Ty): Ty
  {
    if KindOf(t) == Ptr then Elem(t) else t
  }

  /** Every text cast for a field of type `t` keeps clear of the pointer path's panic. */
  ghost predicate CastsSafe(rt: Runtime, options: seq<OptionId>, t: Ty)
  {
    forall raw :: PointerPathSafe(rt, options, raw, CastTarget(t))
  }

  /**
   * `CastsSafe` for every field reachable from the struct type `t` through
   * nested structs and pointers to structs: what a source's traversal needs
   * of the caster.
   */
  ghost predicate DeepCastsSafe(rt: Runtime, options: seq<OptionId>, t: Ty)
    decreases t
  {
    t.shape.StructOf? ==>
      forall f :: f in t.shape.fields ==>
        && CastsSafe(rt, options, f.ty)
        && (KindOf(f.ty) == Struct ==> DeepCastsSafe(rt, options, f.ty))
        && (KindOf(f.ty) == Ptr && KindOf(Elem(f.ty)) == Struct ==> DeepCastsSafe(rt, options, Elem(f.ty)))
  }

  /** A field's value after a source's step on it, the errors the step added, and the caster's cache afterwards. */
  datatype Stepped = Stepped(value: Value, errs: seq<Error>, cache: map<Ty, OptionId>)

  /** The fields of a struct part-way through a source's walk over it, the errors so far, and the cache. */
  datatype Walk = Walk(fields: seq<Value>, errs: seq<Error>, cache: map<Ty, OptionId>)

  /** `assignConvertible`. */
  function Convertible(rt: Runtime, t: Ty, v: Value): Option<Value>
  {
    if ConvertibleTo(v.t, t) then Some(Convert(rt, v, t)) else None
  }

  /** `wrapPointer`: a fresh pointer holding `v`, converted to the element type when it has to be. */
  function WrapPointer(rt: Runtime, t: Ty, v: Value): Option<Value>
  {
    if KindOf(t) != Ptr then None
    else if v.t == Elem(t) then Some(PtrV(t, Some(v)))
    else if ConvertibleTo(v.t, Elem(t)) then Some(PtrV(t, Some(Convert(rt, v, Elem(t)))))
    else None
  }

  /** Which pointer-unwrapping helper a ladder uses. */
  datatype UnwrapRule =
      /** `unwrapPointerExact`: only a pointer to exactly the field's type. */
    | UnwrapExact
      /** `unwrapPointer`: also a pointer whose element converts to the field's type. */
    | UnwrapOrConvert

  function Unwrap(rt: Runtime, t: Ty, v: Value, rule: UnwrapRule): Option<Value>
  {
    if KindOf(v.t) != Ptr then None
    else if Elem(v.t) == t then Some(Store(t, Pointee(v)))
    else if rule == UnwrapOrConvert && ConvertibleTo(Elem(v.t), t) then Some(Convert(rt, Pointee(v), t))
    else None
  }

  /**
   * The ladder for a pointer field: the same type; a pointer to the same
   * element; a fresh pointer around the value; otherwise unsupported.
   */
  function PointerLadder(rt: Runtime, t: Ty, v: Value): Result<Value, Error>
    requires KindOf(t) == Ptr
  {
    if v.t == t then Success(v)
    else if KindOf(v.t) == Ptr && Elem(v.t) == Elem(t) then Success(Store(t, v))
    else match WrapPointer(rt, t, v)
      case Some(p) => Success(p)
      case None => Failure(UnsupportedType(t))
  }

  /**
   * The ladder for any other field: the same type; the pointee of a pointer;
   * a conversion, when `convert` is set; otherwise unsupported.
   */
  function ValueLadder(rt: Runtime, t: Ty, v: Value, rule: UnwrapRule, convert: bool): Result<Value, Error>
  {
    if v.t == t then Success(v)
    else match Unwrap(rt, t, v, rule)
      case Some(u) => Success(u)
      case None =>
        if convert && ConvertibleTo(v.t, t) then Success(Convert(rt, v, t))
        else Failure(UnsupportedType(t))
  }

  /** A cast result taken through the ladder of the field's kind; a cast error is passed on as it is. */
  function AfterCast(rt: Runtime, t: Ty, c: Result<Value, Error>, rule: UnwrapRule, convert: bool): Result<Value, Error>
  {
    match c
    case Failure(e) => Failure(e)
    case Success(v) => if KindOf(t) == Ptr then PointerLadder(rt, t, v) else ValueLadder(rt, t, v, rule, convert)
  }

  /** The nil rule: a nil-assignable field becomes nil, any other is unsupported. */
  function NilInto(t: Ty): (r: Result<Value, Error>)
    ensures r.Success? <==> NilAssignable(KindOf(t))
  {
    if NilAssignable(KindOf(t)) then Success(Zero(t)) else Failure(UnsupportedType(t))
  }

  /** The ladder of `AssignFromAny` for a value that is not a string, into a field that is not a pointer. */
  function RawLadder(rt: Runtime, t: Ty, rv: Value): Result<Value, Error>
  {
    if rv.t == t then Success(rv)
    else if KindOf(rv.t) == Ptr && rv.PtrV? && rv.target.None? then NilInto(t)
    else match Unwrap(rt, t, rv, UnwrapOrConvert)
      case Some(u) => Success(u)
      case None =>
        // The second `assignExactType` never applies: the types were compared first.
        match Convertible(rt, t, rv)
        case Some(u) => Success(u)
        case None => Failure(UnsupportedType(t))
  }

  /** A raw value that takes the string path: `reflect.ValueOf(raw).Kind() == reflect.String`. */
  predicate IsStringRaw(raw: Option<Value>)
  {
    raw.Some? && raw.value.StringV?
  }

  /** The text cast on the string path (unused otherwise). */
  function RawText(raw: Option<Value>): string
  {
    if IsStringRaw(raw) then raw.value.s else ""
  }

  /**
   * `AssignFromAny` once the cast `c` of the string path has been made: nil
   * follows the nil rule, a string is cast and laddered, and any other value
   * goes through the ladder of the field's kind.
   */
  function FromAny(rt: Runtime, t: Ty, raw: Option<Value>, c: Result<Value, Error>): Result<Value, Error>
  {
    if raw.None? then NilInto(t)
    else if IsStringRaw(raw) then AfterCast(rt, t, c, UnwrapOrConvert, true)
    else if KindOf(t) == Ptr then PointerLadder(rt, t, raw.value)
    else RawLadder(rt, t, raw.value)
  }

  /** `AssignFromString`: cast the text at the field's cast target, then apply the field's ladder. */
  method AssignFromString(caster: Caster, t: Ty, raw: string) returns (r: Result<Value, Error>)
    requires caster.Valid()
    requires PointerPathSafe(caster.rt, caster.options, raw, CastTarget(t))
    modifies caster
    ensures caster.Valid()
    ensures caster.byType == CacheAfter(caster.rt, caster.options, old(caster.byType), CastTarget(t))
    ensures r == AfterCast(caster.rt, t, CastResult(caster.rt, caster.options, old(caster.byType), raw, CastTarget(t)), UnwrapExact, true)
  {
    var c := caster.Cast(raw, CastTarget(t));
    if c.Failure? {
      return c;
    }
    var v := c.value;
    if KindOf(t) == Ptr {
      if v.t == t {
        return Success(v);
      }
      if KindOf(v.t) == Ptr && Elem(v.t) == Elem(t) {
        return Success(Store(t, v));
      }
      var wrapped := WrapPointer(caster.rt, t, v);
      if wrapped.Some? {
        return Success(wrapped.value);
      }
      return Failure(UnsupportedType(t));
    }
    if v.t == t {
      return Success(v);
    }
    var unwrapped := Unwrap(caster.rt, t, v, UnwrapExact);
    if unwrapped.Some? {
      return Success(unwrapped.value);
    }
    var converted := Convertible(caster.rt, t, v);
    if converted.Some? {
      return Success(converted.value);
    }
    return Failure(UnsupportedType(t));
  }

  /** `AssignFromAny`: nil, a string cast through the caster, or a typed value laddered into the field. */
  method AssignFromAny(caster: Caster, t: Ty, raw: Option<Value>) returns (r: Result<Value, Error>)
    requires caster.Valid()
    requires IsStringRaw(raw) ==> PointerPathSafe(caster.rt, caster.options, RawText(raw), CastTarget(t))
    modifies caster
    ensures caster.Valid()
    ensures caster.byType ==
      if IsStringRaw(raw) then CacheAfter(caster.rt, caster.options, old(caster.byType), CastTarget(t)) else old(caster.byType)
    ensures r == FromAny(caster.rt, t, raw, CastResult(caster.rt, caster.options, old(caster.byType), RawText(raw), CastTarget(t)))
  {
    if raw.None? {
      if NilAssignable(KindOf(t)) {
        return Success(Zero(t));
      }
      return Failure(UnsupportedType(t));
    }
    var rv := raw.value;
    if rv.StringV? {
      r := AssignFromStringPath(caster, t, rv.s);
      return;
    }
    if KindOf(t) == Ptr {
      r := PointerLadder(caster.rt, t, rv);
      return;
    }
    if rv.t == t {
      return Success(rv);
    }
    if KindOf(rv.t) == Ptr {
      if rv.PtrV? && rv.target.None? {
        if NilAssignable(KindOf(t)) {
          return Success(Zero(t));
        }
        return Failure(UnsupportedType(t));
      }
      var unwrapped := Unwrap(caster.rt, t, rv, UnwrapOrConvert);
      if unwrapped.Some? {
        return Success(unwrapped.value);
      }
    }
    var converted := Convertible(caster.rt, t, rv);
    if converted.Some? {
      return Success(converted.value);
    }
    return Failure(UnsupportedType(t));
  }

  /** The string path of `AssignFromAny`: like `AssignFromString`, but unwrapping with `unwrapPointer`. */
  method AssignFromStringPath(caster: Caster, t: Ty, text: string) returns (r: Result<Value, Error>)
    requires caster.Valid()
    requires PointerPathSafe(caster.rt, caster.options, text, CastTarget(t))
    modifies caster
    ensures caster.Valid()
    ensures caster.byType == CacheAfter(caster.rt, caster.options, old(caster.byType), CastTarget(t))
    ensures r == AfterCast(caster.rt, t, CastResult(caster.rt, caster.options, old(caster.byType), text, CastTarget(t)), UnwrapOrConvert, true)
  {
    var c := caster.Cast(text, CastTarget(t));
    if c.Failure? {
      return c;
    }
    if KindOf(t) == Ptr {
      r := PointerLadder(caster.rt, t, c.value);
    } else {
      r := ValueLadder(caster.rt, t, c.value, UnwrapOrConvert, true);
    }
  }

  /** Every value a ladder stores has the field's type, and every failure it makes itself names the field's type. */
  lemma CastLaddersKeepFieldType(rt: Runtime, t: Ty, c: Result<Value, Error>, rule: UnwrapRule, convert: bool)
    ensures var r := AfterCast(rt, t, c, rule, convert);
      (r.Success? ==> r.value.t == t) && (r.Failure? && c.Success? ==> r.error == UnsupportedType(t))
  {
  }

  /** Whatever `AssignFromAny` stores has the field's type; its own failures name the field's type. */
  lemma AnyLaddersKeepFieldType(rt: Runtime, t: Ty, raw: Option<Value>, c: Result<Value, Error>)
    ensures var r := FromAny(rt, t, raw, c);
      (r.Success? ==> r.value.t == t) && (r.Failure? && !IsStringRaw(raw) ==> r.error == UnsupportedType(t))
  {
    if IsStringRaw(raw) {
      CastLaddersKeepFieldType(rt, t, c, UnwrapOrConvert, true);
    } else if raw.Some? && KindOf(t) != Ptr {
      var rv := raw.value;
      if rv.t != t && KindOf(rv.t) == Ptr && rv.PtrV? && rv.target.None? {
        assert FromAny(rt, t, raw, c) == NilInto(t);
      }
    }
  }

  /** A cast error reaches the caller unchanged, and the field keeps its value. */
  lemma CastErrorPassesThrough(rt: Runtime, t: Ty, e: Error, rule: UnwrapRule, convert: bool, text: string)
    ensures AfterCast(rt, t, Failure(e), rule, convert) == Failure(e)
    ensures FromAny(rt, t, Some(StringV(Predeclared(String), text)), Failure(e)) == Failure(e)
  {
  }

  /**
   * Nil and typed nil pointers: a nil-assignable field becomes its nil, any
   * other field is left alone with an unsupported-type error.
   */
  lemma NilZeroesNilAssignable(rt: Runtime, t: Ty, p: Ty, c: Result<Value, Error>)
    requires KindOf(p) == Ptr && (KindOf(t) == Ptr ==> p == t)
    ensures FromAny(rt, t, None, c) == FromAny(rt, t, Some(PtrV(p, None)), c)
    ensures FromAny(rt, t, None, c) == if NilAssignable(KindOf(t)) then Success(Zero(t)) else Failure(UnsupportedType(t))
    ensures FromAny(rt, t, None, c).Success? ==> IsZero(FromAny(rt, t, None, c).value)
  {
    if NilAssignable(KindOf(t)) {
      ZeroIsZero(t);
    }
    if KindOf(t) == Ptr {
      assert Zero(t) == PtrV(t, None);
    } else {
      assert p != t;
    }
  }

  /** A value of exactly the field's type is stored as it is, whatever the field's kind. */
  lemma ExactTypeIsStored(rt: Runtime, t: Ty, v: Value, rule: UnwrapRule, convert: bool, c: Result<Value, Error>)
    requires v.t == t && !v.StringV?
    ensures AfterCast(rt, t, Success(v), rule, convert) == Success(v)
    ensures FromAny(rt, t, Some(v), c) == Success(v)
  {
  }

  /** A pointer field given a value of its element type gets a fresh pointer to that value. */
  lemma ElementIsWrapped(rt: Runtime, t: Ty, v: Value, c: Result<Value, Error>)
    requires KindOf(t) == Ptr && v.t == Elem(t) && !v.StringV? && KindOf(v.t) != Ptr
    ensures FromAny(rt, t, Some(v), c) == Success(PtrV(t, Some(v)))
  {
    assert v.t != t;
  }

  /** A field that is not a pointer, given a non-nil pointer to its type, gets the pointee. */
  lemma PointerIsUnwrapped(rt: Runtime, t: Ty, p: Ty, x: Value, c: Result<Value, Error>)
    requires KindOf(t) != Ptr && KindOf(p) == Ptr && Elem(p) == t
    ensures FromAny(rt, t, Some(PtrV(p, Some(x))), c) == Success(x.(t := t))
  {
    assert p != t;
  }

  /** An integer of another integer type is converted, wrapping around to the field's width as Go's conversion does. */
  lemma IntegerIsConverted(rt: Runtime, t: Ty, v: Value, c: Result<Value, Error>)
    requires v.IntV? && IsIntegerKind(KindOf(v.t)) && IsIntegerKind(KindOf(t)) && v.t != t
    ensures FromAny(rt, t, Some(v), c) == Success(IntV(t, Wrap(v.i, KindOf(t))))
  {
    assert KindOf(v.t) != Ptr && !v.StringV? && KindOf(t) != Ptr;
    assert Unwrap(rt, t, v, UnwrapOrConvert).None?;
    assert ConvertibleTo(v.t, t);
    assert FromAny(rt, t, Some(v), c) == RawLadder(rt, t, v);
  }

  /** `MakePath`: a dotted path from the path of the enclosing struct and a field name. */
  function MakePath(prefix: string, name: string): (r: string)
    ensures prefix == "" ==> r == name
    ensures prefix != "" ==> |r| == |prefix| + 1 + |name| && r[..|prefix|] == prefix && r[|prefix|] == '.'
  {
    if prefix == "" then name else prefix + "." + name
  }

  /** The path of a field reached through the field names `names`, outermost first. */
  function PathOf(names: seq<string>): string
  {
    if names == [] then "" else MakePath(PathOf(names[..|names| - 1]), names[|names| - 1])
  }

  /** Joining with one element more adds the separator and the element. */
  lemma {:induction false} JoinSnoc(parts: seq<string>, last: string, sep: string)
    requires |parts| >= 1
    ensures GoStrings.Join(parts + [last], sep) == GoStrings.Join(parts, sep) + sep + last
    decreases |parts|
  {
    if |parts| == 1 {
      assert (parts + [last])[1..] == [last];
    } else {
      assert (parts + [last])[1..] == parts[1..] + [last];
      JoinSnoc(parts[1..], last, sep);
    }
  }

  /** Nested paths are the field names joined by dots. */
  lemma {:induction false} PathIsDotted(names: seq<string>)
    requires forall i :: 0 <= i < |names| ==> names[i] != ""
    ensures PathOf(names) == GoStrings.Join(names, ".")
    decreases |names|
  {
    if |names| > 1 {
      var init := names[..|names| - 1];
      PathIsDotted(init);
      assert PathOf(init) != "" by { JoinEnds(init, "."); }
      JoinSnoc(init, names[|names| - 1], ".");
      assert init + [names[|names| - 1]] == names;
    } else if |names| == 1 {
      assert names[..0] == [];
    }
  }

  /** A path splits back into the field names it was made from. */
  lemma PathSplitsBack(names: seq<string>)
    requires |names| >= 1
    requires forall i :: 0 <= i < |names| ==> names[i] != "" && '.' !in names[i]
    ensures Split(PathOf(names), ".") == names
  {
    PathIsDotted(names);
    SplitJoin(names, '.');
  }

  /** The tokens of `input` between occurrences of `delim`, each trimmed. */
  function TrimmedTokens(input: string, delim: string): (tokens: seq<string>)
    requires delim != ""
    ensures |tokens| == |Split(input, delim)|
    ensures forall i :: 0 <= i < |tokens| ==> tokens[i] == TrimSpace(Split(input, delim)[i])
  {
    var parts := Split(input, delim);
    seq(|parts|, i requires 0 <= i < |parts| => TrimSpace(parts[i]))
  }

  /** What `NormalizeDelimited` returns: the trimmed tokens joined by commas, or the input when there is nothing to split. */
  function Normalized(input: string, delim: string): string
  {
    if delim == "" || !Contains(input, delim) then input
    else GoStrings.Join(TrimmedTokens(input, delim), ",")
  }

  /** `NormalizeDelimited`: split at the delimiter, trim each token in place, join with commas. */
  method NormalizeDelimited(input: string, delim: string) returns (r: string)
    ensures r == Normalized(input, delim)
  {
    if delim == "" {
      return input;
    }
    if !Contains(input, delim) {
      return input;
    }
    var tokens := Split(input, delim);
    for i := 0 to |tokens|
      invariant |tokens| == |Split(input, delim)|
      invariant forall j :: 0 <= j < i ==> tokens[j] == TrimSpace(Split(input, delim)[j])
      invariant forall j :: i <= j < |tokens| ==> tokens[j] == Split(input, delim)[j]
    {
      tokens := tokens[i := TrimSpace(tokens[i])];
    }
    assert tokens == TrimmedTokens(input, delim);
    r := GoStrings.Join(tokens, ",");
  }

  /** Trimming keeps a slice of the text, so it adds no character. */
  lemma TrimSpaceAdds(s: string, c: char)
    requires c !in s
    ensures c !in TrimSpace(s)
  {
    var rest := s[LeadingSpaces(s)..];
    var r := TrimSpace(s);
    forall j | 0 <= j < |r| ensures r[j] != c {
      assert r[j] == rest[j] == s[LeadingSpaces(s) + j];
    }
  }

  /** Normalising a comma list twice is normalising it once. */
  lemma NormalizeCommasIdempotent(input: string)
    ensures Normalized(Normalized(input, ","), ",") == Normalized(input, ",")
  {
    if Contains(input, ",") {
      var tokens := TrimmedTokens(input, ",");
      SplitPiecesAvoidSeparator(input, ',');
      forall i | 0 <= i < |tokens| ensures ',' !in tokens[i] {
        assert Split(input, ",")[i] in Split(input, ",");
        TrimSpaceAdds(Split(input, ",")[i], ',');
      }
      var once := GoStrings.Join(tokens, ",");
      SplitJoin(tokens, ',');
      assert Split(once, ",") == tokens;
      if Contains(once, ",") {
        forall i | 0 <= i < |tokens| ensures TrimmedTokens(once, ",")[i] == tokens[i] {
          TrimSpaceIdempotent(Split(input, ",")[i]);
        }
        assert TrimmedTokens(once, ",") == tokens;
      }
    }
  }

  /** `ResolveDelimiter`: a field's own delimiter, or else the source's. */
  function ResolveDelimiter(tagDelimiter: string, defaultDelimiter: string): (d: string)
    ensures tagDelimiter != "" ==> d == tagDelimiter
    ensures tagDelimiter == "" ==> d == defaultDelimiter
  {
    if tagDelimiter != "" then tagDelimiter else defaultDelimiter
  }

  /**
   * `ConvertToUpperSnake`: upper-case ASCII letters and digits with single
   * `_` between words, never at either end.
   */
  method ConvertToUpperSnake(name: string) returns (r: string)
    ensures r == SnakeName(SourceutilUpperSnake, name)
    ensures AllKeyChars(r) && NoDoubleUnderscore(r)
    ensures r != [] ==> r[0] != '_' && r[|r| - 1] != '_'
  {
    r := ConvertName(SourceutilUpperSnake, name);
    SnakeNameShape(SourceutilUpperSnake, name);
    AsciiSnakeChars(SourceutilUpperSnake, name);
  }

  /**
   * `ConvertToEnvVar`: the same conversion by Unicode letter classes, with
   * `_` not a separator; on ASCII names it agrees with the environment
   * source's own conversion.
   */
  method ConvertToEnvVar(rt: Runtime, name: string) returns (r: string)
    ensures r == SnakeName(SourceutilEnvVar(rt), name)
    ensures WritesNoUnderscore(SourceutilEnvVar(rt)) ==>
      NoDoubleUnderscore(r) && (r != [] ==> r[0] != '_' && r[|r| - 1] != '_')
    ensures IsAscii(name) ==> r == SnakeName(EnvSourceEnvVar, name)
  {
    r := ConvertName(SourceutilEnvVar(rt), name);
    if WritesNoUnderscore(SourceutilEnvVar(rt)) {
      SnakeNameShape(SourceutilEnvVar(rt), name);
    }
    if IsAscii(name) {
      AsciiNamesAgree(SourceutilEnvVar(rt), name);
    }
  }
}
