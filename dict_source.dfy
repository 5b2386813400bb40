/**
 * `pkg/source/dict`: fills a configuration struct from a `map[string]any`.
 * Each exported field is looked up by its name, its lower snake name, then
 * its upper snake name; a nested map walks into a struct field (or a pointer
 * to one), any other value goes through the dictionary's own assignment
 * ladder, and every failure is wrapped with the field's dotted path and type.
 */
module DictSource {
  import opened Base
  import opened GoStrings
  import opened Reflect
  import opened Errors
  import opened Host
  import opened Naming
  import Loader
  import opened TypecastCaster
  import opened Sourceutil

  /** A value stored in the dictionary: nil, a nested `map[string]any`, or any other value. */
  datatype Raw =
    | RawNil
    | RawDict(entries: map<string, Raw>)
    | RawValue(v: Value)

  /** `strings.ToLower`, rune by rune. */
  function LowerString(rt: Runtime, s: string): (r: string)
    ensures |r| == |s| && forall i :: 0 <= i < |s| ==> r[i] == ToLower(rt, s[i])
  {
    seq(|s|, i requires 0 <= i < |s| => ToLower(rt, s[i]))
  }

  /** `convertToUpperSnake` of this package: `unicode` classes, with `-`, white space and `_` as separators. */
  function UpperSnake(rt: Runtime, name: string): string
  {
    SnakeName(DictUpperSnake(rt), name)
  }

  /** The lower snake name `lookupValue` tries second. */
  function LowerSnake(rt: Runtime, name: string): string
  {
    LowerString(rt, UpperSnake(rt, name))
  }

  /** `lookupValue`: the exact field name, then the lower snake name, then the upper snake name. */
  function LookupValue(rt: Runtime, dict: map<string, Raw>, name: string): (r: Option<Raw>)
    ensures name in dict ==> r == Some(dict[name])
    ensures name !in dict && LowerSnake(rt, name) in dict ==> r == Some(dict[LowerSnake(rt, name)])
    ensures name !in dict && LowerSnake(rt, name) !in dict && UpperSnake(rt, name) in dict ==>
      r == Some(dict[UpperSnake(rt, name)])
    ensures r.None? <==> name !in dict && LowerSnake(rt, name) !in dict && UpperSnake(rt, name) !in dict
  {
    if name in dict then Some(dict[name])
    else
      var upper := UpperSnake(rt, name);
      var lower := LowerString(rt, upper);
      if lower in dict then Some(dict[lower])
      else if upper in dict then Some(dict[upper])
      else None
  }

  /** `lookupValue` never finds a key the dictionary does not hold: its result is one of the three names' entries. */
  lemma LookupFindsOneOfThree(rt: Runtime, dict: map<string, Raw>, name: string)
    ensures var r := LookupValue(rt, dict, name);
      r.Some? ==> exists key :: key in dict && (key == name || key == LowerSnake(rt, name) || key == UpperSnake(rt, name)) && r.value == dict[key]
  {
    var r := LookupValue(rt, dict, name);
    if r.Some? {
      if name in dict {
        assert name in dict && r.value == dict[name];
      } else if LowerSnake(rt, name) in dict {
        assert LowerSnake(rt, name) in dict && r.value == dict[LowerSnake(rt, name)];
      } else {
        assert UpperSnake(rt, name) in dict && r.value == dict[UpperSnake(rt, name)];
      }
    }
  }

  /** When both snake names are keys and the field name is not, the lower snake entry is the one found. */
  lemma LowerSnakeBeatsUpperSnake(rt: Runtime, dict: map<string, Raw>, name: string, a: Raw, b: Raw)
    requires name !in dict && name != UpperSnake(rt, name)
    requires LowerSnake(rt, name) != UpperSnake(rt, name)
    ensures LookupValue(rt, dict[LowerSnake(rt, name) := a][UpperSnake(rt, name) := b], name) == Some(a)
  {
  }

  /** `shouldSetField` of this package. */
  predicate DictShouldSet(fv: Value, mode: Loader.LoadMode)
  {
    if mode == Loader.ModeOverride then true
    else if mode == Loader.ModeFillMissing then IsZero(fv)
    else false
  }

  /** The dictionary's policy is the shared one for a value that is present: Override always writes, FillMissing only zero fields. */
  lemma DictPolicyIsPresentPolicy(fv: Value, mode: Loader.LoadMode)
    ensures DictShouldSet(fv, mode) == ShouldAssign(fv, true, mode, "")
    ensures DictShouldSet(fv, mode) <==> mode == Loader.ModeOverride || (mode == Loader.ModeFillMissing && IsZero(fv))
  {
  }

  /** The value `setFieldValue` receives: nil for `RawNil`. */
  function RawOf(raw: Raw): Option<Value>
    requires !raw.RawDict?
  {
    if raw.RawNil? then None else Some(raw.v)
  }

  /**
   * `setFieldValue` for a non-string value into a non-pointer field: a
   * pointer is looked through first (nil, same element, convertible
   * element), then the exact type, then a conversion.
   */
  function DictValueLadder(rt: Runtime, t: Ty, rv: Value): Result<Value, Error>
  {
    if KindOf(rv.t) == Ptr && rv.PtrV? && rv.target.None? then NilInto(t)
    else if KindOf(rv.t) == Ptr && Elem(rv.t) == t then Success(Store(t, Pointee(rv)))
    else if KindOf(rv.t) == Ptr && ConvertibleTo(Elem(rv.t), t) then Success(Convert(rt, Pointee(rv), t))
    else if rv.t == t then Success(rv)
    else if ConvertibleTo(rv.t, t) then Success(Convert(rt, rv, t))
    else Failure(UnsupportedType(t))
  }

  /** Looking through pointers first gives the same result as the shared ladder, which tries the exact type first. */
  lemma DictLadderIsShared(rt: Runtime, t: Ty, rv: Value)
    requires KindOf(t) != Ptr
    ensures DictValueLadder(rt, t, rv) == RawLadder(rt, t, rv)
  {
    if rv.t == t {
      assert KindOf(rv.t) != Ptr;
    }
  }

  /**
   * `setFieldValue`: nil by the nil rule; a string through the cast and
   * the ladder of the field's kind (no pointer-to-convertible unwrapping);
   * any other value into a pointer field by the pointer ladder, into any
   * other field by `DictValueLadder`. `c` is the cast of the string.
   */
  function DictSetResult(rt: Runtime, t: Ty, raw: Option<Value>, c: Result<Value, Error>): Result<Value, Error>
  {
    if raw.None? then NilInto(t)
    else if raw.value.StringV? then AfterCast(rt, t, c, UnwrapExact, true)
    else if KindOf(t) == Ptr then PointerLadder(rt, t, raw.value)
    else DictValueLadder(rt, t, raw.value)
  }

  /** The dictionary agrees with `AssignFromAny` except for a string into a non-pointer field. */
  lemma DictAgreesWithAssignFromAny(rt: Runtime, t: Ty, raw: Option<Value>, c: Result<Value, Error>)
    requires !IsStringRaw(raw) || KindOf(t) == Ptr
    ensures DictSetResult(rt, t, raw, c) == FromAny(rt, t, raw, c)
  {
    if raw.Some? && !raw.value.StringV? && KindOf(t) != Ptr {
      DictLadderIsShared(rt, t, raw.value);
    }
  }

  /** Every success leaves a value of the field's type; a failure is the cast error or the field's unsupported type. */
  lemma DictSetKeepsFieldType(rt: Runtime, t: Ty, raw: Option<Value>, c: Result<Value, Error>)
    ensures var r := DictSetResult(rt, t, raw, c);
      && (r.Success? ==> r.value.t == t)
      && (r.Failure? ==> r.error == UnsupportedType(t) || (IsStringRaw(raw) && c == Failure(r.error)))
  {
    var r := DictSetResult(rt, t, raw, c);
    if raw.Some? && raw.value.StringV? {
      CastLaddersKeepFieldType(rt, t, c, UnwrapExact, true);
    } else if raw.Some? && KindOf(t) != Ptr {
      DictLadderIsShared(rt, t, raw.value);
      AnyLaddersKeepFieldType(rt, t, raw, c);
    } else if raw.Some? {
      AnyLaddersKeepFieldType(rt, t, raw, c);
    }
  }

  /** A numeric value given for a field of another numeric type is converted, not refused. */
  lemma NumbersAreConverted(rt: Runtime, t: Ty, v: Value, c: Result<Value, Error>)
    requires !v.StringV? && KindOf(v.t) != Ptr && KindOf(t) != Ptr
    requires v.t != t && ConvertibleTo(v.t, t)
    ensures DictSetResult(rt, t, Some(v), c) == Success(Convert(rt, v, t))
  {
  }

  /** `fmt.Errorf("field %s (type %v): %w", path, type, err)`. */
  function FieldError(path: string, t: Ty, e: Error): (r: Error)
    ensures Unwraps(r) == [e] && UnwrapOne(r) == Some(e)
  {
    WrapOne("field " + path + " (type " + TypeString(t) + ")", e)
  }

  /** A field error reads "field P (type T): cause". */
  lemma FieldErrorReads(path: string, t: Ty, e: Error)
    ensures Message(FieldError(path, t, e)) == "field " + path + " (type " + TypeString(t) + ")" + ": " + Message(e)
  {
  }

  /** A field error matches everything its cause matches. */
  lemma FieldErrorIsCause(path: string, t: Ty, e: Error, target: Error)
    requires Is(e, target)
    ensures Is(FieldError(path, t, e), target)
  {
  }

  /** What a traversal reads: the caster's runtime and options, and the mode. */
  datatype Ctx = Ctx(rt: Runtime, options: seq<OptionId>, mode: Loader.LoadMode)

  /** The write `loadStruct` makes for a looked-up value that is not a map. */
  function AssignStep(ctx: Ctx, f: Field, fv: Value, raw: Option<Value>, path: string, cache: map<Ty, OptionId>): (s: Stepped)
    requires CacheValid(ctx.rt, ctx.options, cache)
    ensures CacheValid(ctx.rt, ctx.options, s.cache)
  {
    CacheOnlyGrows(ctx.rt, ctx.options, cache, CastTarget(f.ty));
    var after := if IsStringRaw(raw) then CacheAfter(ctx.rt, ctx.options, cache, CastTarget(f.ty)) else cache;
    match DictSetResult(ctx.rt, f.ty, raw, CastResult(ctx.rt, ctx.options, cache, RawText(raw), CastTarget(f.ty)))
    case Success(v) => Stepped(v, [], after)
    case Failure(e) => Stepped(fv, [FieldError(path, f.ty, e)], after)
  }

  /** One iteration of `loadStruct`'s loop over the struct whose path is `prefix`. */
  function FieldStep(ctx: Ctx, f: Field, fv: Value, dict: map<string, Raw>, prefix: string, cache: map<Ty, OptionId>): (s: Stepped)
    requires CacheValid(ctx.rt, ctx.options, cache)
    ensures CacheValid(ctx.rt, ctx.options, s.cache)
    decreases f.ty, 2, 0
  {
    if !f.exported then Stepped(fv, [], cache)
    else match LookupValue(ctx.rt, dict, f.name)
      case None => Stepped(fv, [], cache)
      case Some(RawDict(m)) => NestedStep(ctx, f, fv, m, MakePath(prefix, f.name), cache)
      case Some(raw) =>
        if !DictShouldSet(fv, ctx.mode) then Stepped(fv, [], cache)
        else AssignStep(ctx, f, fv, RawOf(raw), MakePath(prefix, f.name), cache)
  }

  /** A nested map: walked into a struct field or a pointer to one (allocated when nil), ignored for any other field. */
  function NestedStep(ctx: Ctx, f: Field, fv: Value, m: map<string, Raw>, path: string, cache: map<Ty, OptionId>): (s: Stepped)
    requires CacheValid(ctx.rt, ctx.options, cache)
    ensures CacheValid(ctx.rt, ctx.options, s.cache)
    decreases f.ty, 1, 1
  {
    if KindOf(f.ty) == Struct then
      LoadStructValue(ctx, f.ty, fv, m, path, cache)
    else if KindOf(f.ty) == Ptr && KindOf(Elem(f.ty)) == Struct then
      var target := if fv.PtrV? && fv.target.Some? then fv.target.value else Zero(Elem(f.ty));
      var s := LoadStructValue(ctx, Elem(f.ty), target, m, path, cache);
      Stepped(PtrV(f.ty, Some(s.value)), s.errs, s.cache)
    else Stepped(fv, [], cache)
  }

  /** `loadStruct` on the struct value `v` of type `t`, reading `dict`. */
  function LoadStructValue(ctx: Ctx, t: Ty, v: Value, dict: map<string, Raw>, prefix: string, cache: map<Ty, OptionId>): (s: Stepped)
    requires CacheValid(ctx.rt, ctx.options, cache)
    ensures CacheValid(ctx.rt, ctx.options, s.cache)
    decreases t, 1, 0
  {
    if !(t.shape.StructOf? && v.StructV? && |v.fields| == |t.shape.fields|) then Stepped(v, [], cache)
    else
      var w := LoadFields(ctx, t, dict, prefix, 0, Walk(v.fields, [], cache));
      Stepped(v.(fields := w.fields), w.errs, w.cache)
  }

  /** The fields of `t` from index `i` on, each stepped in turn. */
  function LoadFields(ctx: Ctx, t: Ty, dict: map<string, Raw>, prefix: string, i: nat, w: Walk): (r: Walk)
    requires t.shape.StructOf? && |w.fields| == |t.shape.fields| && i <= |w.fields|
    requires CacheValid(ctx.rt, ctx.options, w.cache)
    ensures |r.fields| == |w.fields| && CacheValid(ctx.rt, ctx.options, r.cache)
    decreases t, 0, |w.fields| - i
  {
    if i == |w.fields| then w
    else
      var f := t.shape.fields[i];
      assert f in t.shape.fields;
      var s := FieldStep(ctx, f, w.fields[i], dict, prefix, w.cache);
      LoadFields(ctx, t, dict, prefix, i + 1, Walk(w.fields[i := s.value], w.errs + s.errs, s.cache))
  }

  /** A field the dictionary does not reach: unexported, or none of its three names is a key. */
  predicate Unreached(rt: Runtime, dict: map<string, Raw>, f: Field)
  {
    !f.exported || LookupValue(rt, dict, f.name).None?
  }

  /** A field with a nested map whose type is neither a struct nor a pointer to one is ignored. */
  predicate MapIgnored(rt: Runtime, dict: map<string, Raw>, f: Field)
  {
    f.exported && LookupValue(rt, dict, f.name).Some? && LookupValue(rt, dict, f.name).value.RawDict? &&
    KindOf(f.ty) != Struct && !(KindOf(f.ty) == Ptr && KindOf(Elem(f.ty)) == Struct)
  }

  /** Unreached fields and fields with an ignored nested map keep their value through their step. */
  lemma UntouchedStep(ctx: Ctx, f: Field, fv: Value, dict: map<string, Raw>, prefix: string, cache: map<Ty, OptionId>)
    requires CacheValid(ctx.rt, ctx.options, cache)
    requires Unreached(ctx.rt, dict, f) || MapIgnored(ctx.rt, dict, f)
    ensures var s := FieldStep(ctx, f, fv, dict, prefix, cache);
      s.value == fv && s.errs == [] && s.cache == cache
  {
  }

  /** The walk from `i` on keeps the fields before `i`, unreached fields and fields with an ignored map. */
  lemma {:induction false} WalkKeepsField(ctx: Ctx, t: Ty, dict: map<string, Raw>, prefix: string, i: nat, w: Walk, j: nat)
    requires t.shape.StructOf? && |w.fields| == |t.shape.fields| && i <= |w.fields|
    requires CacheValid(ctx.rt, ctx.options, w.cache)
    requires j < i || (j < |w.fields| && (Unreached(ctx.rt, dict, t.shape.fields[j]) || MapIgnored(ctx.rt, dict, t.shape.fields[j])))
    ensures LoadFields(ctx, t, dict, prefix, i, w).fields[j] == w.fields[j]
    decreases |w.fields| - i
  {
    if i < |w.fields| {
      var s := FieldStep(ctx, t.shape.fields[i], w.fields[i], dict, prefix, w.cache);
      if j == i {
        UntouchedStep(ctx, t.shape.fields[i], w.fields[i], dict, prefix, w.cache);
      }
      WalkKeepsField(ctx, t, dict, prefix, i + 1, Walk(w.fields[i := s.value], w.errs + s.errs, s.cache), j);
    }
  }

  /** A field whose key is missing, an unexported field, and a field with an ignored map come out of `loadStruct` unchanged. */
  lemma MissingKeysLeaveFields(ctx: Ctx, t: Ty, v: Value, dict: map<string, Raw>, prefix: string, cache: map<Ty, OptionId>, j: nat)
    requires CacheValid(ctx.rt, ctx.options, cache)
    requires t.shape.StructOf? && v.StructV? && |v.fields| == |t.shape.fields|
    requires j < |v.fields| && (Unreached(ctx.rt, dict, t.shape.fields[j]) || MapIgnored(ctx.rt, dict, t.shape.fields[j]))
    ensures var s := LoadStructValue(ctx, t, v, dict, prefix, cache);
      s.value.StructV? && |s.value.fields| == |v.fields| && s.value.fields[j] == v.fields[j]
  {
    WalkKeepsField(ctx, t, dict, prefix, 0, Walk(v.fields, [], cache), j);
  }

  /** The walk only appends to the errors collected so far. */
  lemma {:induction false} WalkAppendsErrors(ctx: Ctx, t: Ty, dict: map<string, Raw>, prefix: string, i: nat, w: Walk)
    requires t.shape.StructOf? && |w.fields| == |t.shape.fields| && i <= |w.fields|
    requires CacheValid(ctx.rt, ctx.options, w.cache)
    ensures var r := LoadFields(ctx, t, dict, prefix, i, w);
      |w.errs| <= |r.errs| && r.errs[..|w.errs|] == w.errs
    decreases |w.fields| - i
  {
    if i < |w.fields| {
      var s := FieldStep(ctx, t.shape.fields[i], w.fields[i], dict, prefix, w.cache);
      var next := Walk(w.fields[i := s.value], w.errs + s.errs, s.cache);
      WalkAppendsErrors(ctx, t, dict, prefix, i + 1, next);
      var r := LoadFields(ctx, t, dict, prefix, i + 1, next);
      assert r.errs[..|w.errs|] == next.errs[..|w.errs|];
    }
  }

  /** A failed write adds exactly one error: the cause wrapped with the field's dotted path and type. */
  lemma FailedWriteIsWrapped(ctx: Ctx, f: Field, fv: Value, raw: Option<Value>, path: string, cache: map<Ty, OptionId>)
    requires CacheValid(ctx.rt, ctx.options, cache)
    requires DictSetResult(ctx.rt, f.ty, raw, CastResult(ctx.rt, ctx.options, cache, RawText(raw), CastTarget(f.ty))).Failure?
    ensures var s := AssignStep(ctx, f, fv, raw, path, cache);
      var e := DictSetResult(ctx.rt, f.ty, raw, CastResult(ctx.rt, ctx.options, cache, RawText(raw), CastTarget(f.ty))).error;
      s.value == fv && s.errs == [FieldError(path, f.ty, e)]
  {
  }

  /** A nested map found for an exported field is handled by the nested branch, whatever the mode. */
  lemma MapGoesNested(ctx: Ctx, f: Field, fv: Value, dict: map<string, Raw>, m: map<string, Raw>, prefix: string, cache: map<Ty, OptionId>)
    requires CacheValid(ctx.rt, ctx.options, cache)
    requires f.exported && LookupValue(ctx.rt, dict, f.name) == Some(RawDict(m))
    ensures FieldStep(ctx, f, fv, dict, prefix, cache) == NestedStep(ctx, f, fv, m, MakePath(prefix, f.name), cache)
  {
  }

  /** A nil pointer to a struct is allocated and walked into, as the zero struct. */
  lemma NilStructPointerAllocated(ctx: Ctx, f: Field, m: map<string, Raw>, path: string, cache: map<Ty, OptionId>)
    requires CacheValid(ctx.rt, ctx.options, cache)
    requires KindOf(f.ty) == Ptr && KindOf(Elem(f.ty)) == Struct
    ensures var inner := LoadStructValue(ctx, Elem(f.ty), Zero(Elem(f.ty)), m, path, cache);
      NestedStep(ctx, f, PtrV(f.ty, None), m, path, cache) == Stepped(PtrV(f.ty, Some(inner.value)), inner.errs, inner.cache)
  {
    assert KindOf(f.ty) != Struct;
  }

  /** What `Load` leaves: the configuration, the error, and the caster's cache. */
  datatype Outcome = Outcome(cfg: Option<Value>, err: Option<Error>, cache: map<Ty, OptionId>)

  /** `DictSource.Load`. */
  function LoadOutcome(rt: Runtime, options: seq<OptionId>, cache: map<Ty, OptionId>, dict: map<string, Raw>,
                       cfg: Option<Value>, mode: Loader.LoadMode): (o: Outcome)
    requires CacheValid(rt, options, cache)
    ensures CacheValid(rt, options, o.cache)
  {
    if !IsNonNilPointer(cfg) then Outcome(cfg, Some(Plain(NilTargetReason)), cache)
    else
      var elem := cfg.value.target.value;
      if KindOf(elem.t) != Struct then Outcome(cfg, Some(Plain(NonStructTargetReason)), cache)
      else
        var s := LoadStructValue(Ctx(rt, options, DefaultMode(mode)), elem.t, elem, dict, "", cache);
        Outcome(Some(cfg.value.(target := Some(s.value))), Errors.Join(s.errs), s.cache)
  }

  /** `Load` fails on a bad target, or exactly when some field failed, and then reports every field error in order. */
  lemma LoadErrIffFieldErrors(rt: Runtime, options: seq<OptionId>, cache: map<Ty, OptionId>, dict: map<string, Raw>,
                              cfg: Option<Value>, mode: Loader.LoadMode)
    requires CacheValid(rt, options, cache)
    ensures EnsureTargetStruct(cfg).Failure? ==> LoadOutcome(rt, options, cache, dict, cfg, mode).err.Some?
    ensures EnsureTargetStruct(cfg).Success? ==>
      var elem := cfg.value.target.value;
      var s := LoadStructValue(Ctx(rt, options, DefaultMode(mode)), elem.t, elem, dict, "", cache);
      var o := LoadOutcome(rt, options, cache, dict, cfg, mode);
      && (o.err.None? <==> s.errs == [])
      && (o.err.Some? ==> Unwraps(o.err.value) == s.errs)
  {
  }

  class Source {
    const dict: map<string, Raw>
    const caster: Caster

    /** `NewDictSource`: a nil map reads as an empty one. */
    constructor (rt: Runtime, dict: Option<map<string, Raw>>)
      ensures this.dict == (if dict.None? then map[] else dict.value)
      ensures fresh(caster) && caster.Valid() && caster.rt == rt && caster.options == Builtins && caster.byType == map[]
    {
      this.dict := if dict.None? then map[] else dict.value;
      var c := new Caster(rt, []);
      assert Builtins + [] == Builtins;
      caster := c;
    }

    /** `setFieldValue`: only a string is cast, so only a string can change the cache. */
    method SetFieldValue(t: Ty, raw: Option<Value>) returns (r: Result<Value, Error>)
      requires caster.Valid() && CastsSafe(caster.rt, caster.options, t)
      modifies caster
      ensures caster.Valid()
      ensures caster.byType == if IsStringRaw(raw) then CacheAfter(caster.rt, caster.options, old(caster.byType), CastTarget(t)) else old(caster.byType)
      ensures r == DictSetResult(caster.rt, t, raw, CastResult(caster.rt, caster.options, old(caster.byType), RawText(raw), CastTarget(t)))
    {
      if raw.None? {
        if NilAssignable(KindOf(t)) {
          return Success(Zero(t));
        }
        return Failure(UnsupportedType(t));
      }
      var rv := raw.value;
      if rv.StringV? {
        r := SetFromString(t, rv.s);
        return;
      }
      if KindOf(t) == Ptr {
        var elem := Elem(t);
        if rv.t == t {
          return Success(rv);
        }
        if KindOf(rv.t) == Ptr && Elem(rv.t) == elem {
          return Success(Store(t, rv));
        }
        if rv.t == elem {
          return Success(PtrV(t, Some(rv)));
        }
        if ConvertibleTo(rv.t, elem) {
          return Success(PtrV(t, Some(Convert(caster.rt, rv, elem))));
        }
        return Failure(UnsupportedType(t));
      }
      if KindOf(rv.t) == Ptr {
        if rv.PtrV? && rv.target.None? {
          if NilAssignable(KindOf(t)) {
            return Success(Zero(t));
          }
          return Failure(UnsupportedType(t));
        }
        if Elem(rv.t) == t {
          return Success(Store(t, Pointee(rv)));
        }
        if ConvertibleTo(Elem(rv.t), t) {
          return Success(Convert(caster.rt, Pointee(rv), t));
        }
      }
      if rv.t == t {
        return Success(rv);
      }
      if ConvertibleTo(rv.t, t) {
        return Success(Convert(caster.rt, rv, t));
      }
      return Failure(UnsupportedType(t));
    }

    /** The string branch of `setFieldValue`. */
    method SetFromString(t: Ty, text: string) returns (r: Result<Value, Error>)
      requires caster.Valid() && CastsSafe(caster.rt, caster.options, t)
      modifies caster
      ensures caster.Valid()
      ensures caster.byType == CacheAfter(caster.rt, caster.options, old(caster.byType), CastTarget(t))
      ensures r == AfterCast(caster.rt, t, CastResult(caster.rt, caster.options, old(caster.byType), text, CastTarget(t)), UnwrapExact, true)
    {
      var c := caster.Cast(text, CastTarget(t));
      if c.Failure? {
        return c;
      }
      var v := c.value;
      if KindOf(t) == Ptr {
        r := PointerLadder(caster.rt, t, v);
        return;
      }
      if v.t == t {
        return Success(v);
      }
      if KindOf(v.t) == Ptr && Elem(v.t) == t {
        return Success(Store(t, Pointee(v)));
      }
      if ConvertibleTo(v.t, t) {
        return Success(Convert(caster.rt, v, t));
      }
      return Failure(UnsupportedType(t));
    }

    /** The write for a looked-up value that is not a map; a failure is wrapped with the field's path and type. */
    method AssignField(f: Field, fv: Value, raw: Option<Value>, path: string, ghost mode: Loader.LoadMode)
      returns (nv: Value, errs: seq<Error>)
      requires caster.Valid() && CastsSafe(caster.rt, caster.options, f.ty)
      modifies caster
      ensures caster.Valid()
      ensures var s := AssignStep(Ctx(caster.rt, caster.options, mode), f, fv, raw, path, old(caster.byType));
        nv == s.value && errs == s.errs && caster.byType == s.cache
    {
      var r := SetFieldValue(f.ty, raw);
      if r.Failure? {
        return fv, [FieldError(path, f.ty, r.error)];
      }
      return r.value, [];
    }

    /** One iteration of `loadStruct`'s loop. */
    method LoadField(f: Field, fv: Value, m: map<string, Raw>, prefix: string, mode: Loader.LoadMode)
      returns (nv: Value, errs: seq<Error>)
      requires caster.Valid() && CastsSafe(caster.rt, caster.options, f.ty)
      requires KindOf(f.ty) == Struct ==> DeepCastsSafe(caster.rt, caster.options, f.ty)
      requires KindOf(f.ty) == Ptr && KindOf(Elem(f.ty)) == Struct ==> DeepCastsSafe(caster.rt, caster.options, Elem(f.ty))
      modifies caster
      ensures caster.Valid()
      ensures var s := FieldStep(Ctx(caster.rt, caster.options, mode), f, fv, m, prefix, old(caster.byType));
        nv == s.value && errs == s.errs && caster.byType == s.cache
      decreases f.ty, 2, 0
    {
      if !f.exported {
        return fv, [];
      }
      var found := LookupValue(caster.rt, m, f.name);
      if found.None? {
        return fv, [];
      }
      var raw := found.value;
      if raw.RawDict? {
        nv, errs := LoadNested(f, fv, raw.entries, MakePath(prefix, f.name), mode);
        return;
      }
      if !DictShouldSet(fv, mode) {
        return fv, [];
      }
      nv, errs := AssignField(f, fv, RawOf(raw), MakePath(prefix, f.name), mode);
    }

    /** The nested-map branch of `loadStruct`'s loop. */
    method LoadNested(f: Field, fv: Value, m: map<string, Raw>, path: string, mode: Loader.LoadMode)
      returns (nv: Value, errs: seq<Error>)
      requires caster.Valid()
      requires KindOf(f.ty) == Struct ==> DeepCastsSafe(caster.rt, caster.options, f.ty)
      requires KindOf(f.ty) == Ptr && KindOf(Elem(f.ty)) == Struct ==> DeepCastsSafe(caster.rt, caster.options, Elem(f.ty))
      modifies caster
      ensures caster.Valid()
      ensures var s := NestedStep(Ctx(caster.rt, caster.options, mode), f, fv, m, path, old(caster.byType));
        nv == s.value && errs == s.errs && caster.byType == s.cache
      decreases f.ty, 1, 1
    {
      if KindOf(f.ty) == Struct {
        nv, errs := LoadStruct(f.ty, fv, m, path, mode);
        return;
      }
      if KindOf(f.ty) == Ptr && KindOf(Elem(f.ty)) == Struct {
        var target := if fv.PtrV? && fv.target.Some? then fv.target.value else Zero(Elem(f.ty));
        var inner;
        inner, errs := LoadStruct(Elem(f.ty), target, m, path, mode);
        nv := PtrV(f.ty, Some(inner));
        return;
      }
      return fv, [];
    }

    /** `loadStruct`: every field of the struct value `v` of type `t`, in order, reading `m`. */
    method LoadStruct(t: Ty, v: Value, m: map<string, Raw>, prefix: string, mode: Loader.LoadMode)
      returns (out: Value, errs: seq<Error>)
      requires caster.Valid() && DeepCastsSafe(caster.rt, caster.options, t)
      modifies caster
      ensures caster.Valid()
      ensures var s := LoadStructValue(Ctx(caster.rt, caster.options, mode), t, v, m, prefix, old(caster.byType));
        out == s.value && errs == s.errs && caster.byType == s.cache
      decreases t, 1, 0
    {
      if !(t.shape.StructOf? && v.StructV? && |v.fields| == |t.shape.fields|) {
        return v, [];
      }
      ghost var ctx := Ctx(caster.rt, caster.options, mode);
      var fields := v.fields;
      errs := [];
      for i := 0 to |fields|
        invariant caster.Valid() && |fields| == |v.fields|
        invariant LoadFields(ctx, t, m, prefix, i, Walk(fields, errs, caster.byType))
          == LoadFields(ctx, t, m, prefix, 0, Walk(v.fields, [], old(caster.byType)))
      {
        var f := t.shape.fields[i];
        assert f in t.shape.fields;
        ghost var before := Walk(fields, errs, caster.byType);
        var nv, ferrs := LoadField(f, fields[i], m, prefix, mode);
        fields := fields[i := nv];
        errs := errs + ferrs;
        assert Walk(fields, errs, caster.byType) ==
          (var s := FieldStep(ctx, f, before.fields[i], m, prefix, before.cache);
           Walk(before.fields[i := s.value], before.errs + s.errs, s.cache));
      }
      out := v.(fields := fields);
    }

    /** `DictSource.Load`. */
    method Load(cfg: Option<Value>, mode: Loader.LoadMode) returns (out: Option<Value>, err: Option<Error>)
      requires caster.Valid()
      requires IsNonNilPointer(cfg) ==> DeepCastsSafe(caster.rt, caster.options, cfg.value.target.value.t)
      modifies caster
      ensures caster.Valid()
      ensures var o := LoadOutcome(caster.rt, caster.options, old(caster.byType), dict, cfg, mode);
        out == o.cfg && err == o.err && caster.byType == o.cache
    {
      var m := mode;
      if m == 0 {
        m := Loader.ModeOverride;
      }
      assert m == DefaultMode(mode);
      if !IsNonNilPointer(cfg) {
        return cfg, Some(Plain(NilTargetReason));
      }
      var e := cfg.value.target.value;
      if KindOf(e.t) != Struct {
        return cfg, Some(Plain(NonStructTargetReason));
      }
      var loaded, collected := LoadStruct(e.t, e, dict, "", m);
      out := Some(cfg.value.(target := Some(loaded)));
      if |collected| > 0 {
        err := Some(Joined(collected));
      } else {
        err := None;
      }
    }
  }
}
