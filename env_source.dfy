/**
 * `pkg/source/env`: fills a configuration struct from environment variables.
 * A field tagged `env:"NAME"` reads the variable whose key is the prefix and
 * the segments of its enclosing structs, and then NAME, all joined by `_`;
 * `envDefault` supplies a value when the variable is absent. Untagged struct
 * fields (and pointers to structs) are walked into, adding a segment.
 *
 * `os.Environ()` is a parameter of `Load`; the struct is passed by value and
 * `Load` hands back the configuration it leaves behind.
 */
module EnvSource {
  import opened Base
  import opened GoStrings
  import opened Reflect
  import opened Errors
  import opened Host
  import opened Naming
  import Loader
  import opened TypecastCaster
  import opened Sourceutil

  /** `convertToEnvVar` of this package: ASCII letters and digits only. */
  function EnvVar(name: string): string
  {
    SnakeName(EnvSourceEnvVar, name)
  }

  /** An environment key as this source writes them: upper-case ASCII letters, digits and single inner `_`. */
  predicate EnvName(s: string)
  {
    AllKeyChars(s) && NoDoubleUnderscore(s) && (s != [] ==> s[0] != '_' && s[|s| - 1] != '_')
  }

  /** Every converted name is a well-formed key. */
  lemma EnvVarIsEnvName(name: string)
    ensures EnvName(EnvVar(name))
  {
    SnakeNameShape(EnvSourceEnvVar, name);
    AsciiSnakeChars(EnvSourceEnvVar, name);
  }

  /** `convertToEnvVar` of this package (the one in `sourceutil` keeps non-ASCII letters). */
  method ConvertEnvVar(name: string) returns (r: string)
    ensures r == EnvVar(name) && EnvName(r)
  {
    r := ConvertName(EnvSourceEnvVar, name);
    EnvVarIsEnvName(name);
  }

  /** An `os.Environ` entry split at its first `=`; none when there is no `=` or it comes first. */
  function SplitPair(pair: string): Option<(string, string)>
  {
    var index := IndexByte(pair, '=');
    if index <= 0 then None else Some((pair[..index], pair[index + 1..]))
  }

  /** A split entry reassembles into the entry, around a non-empty key free of `=`. */
  lemma SplitPairParts(pair: string)
    ensures var kv := SplitPair(pair);
      && (kv.Some? ==> pair == kv.value.0 + "=" + kv.value.1 && kv.value.0 != "" && '=' !in kv.value.0)
      && (kv.None? <==> ('=' !in pair || pair[0] == '='))
  {
    var index := IndexByte(pair, '=');
    if index > 0 {
      assert pair == pair[..index] + "=" + pair[index + 1..];
      assert forall j :: 0 <= j < index ==> pair[..index][j] == pair[j];
    }
  }

  /** One entry of `getEnv`'s loop: a well-formed pair sets its key, any other entry is ignored. */
  function Absorb(m: map<string, string>, pair: string): map<string, string>
  {
    var index := IndexByte(pair, '=');
    if index <= 0 then m else m[pair[..index] := pair[index + 1..]]
  }

  /** The map `getEnv` builds from the entries at index `i` on, starting from `m`. */
  function EnvFrom(environ: seq<string>, i: nat, m: map<string, string>): map<string, string>
    requires i <= |environ|
    decreases |environ| - i
  {
    if i == |environ| then m else EnvFrom(environ, i + 1, Absorb(m, environ[i]))
  }

  function EnvMap(environ: seq<string>): map<string, string>
  {
    EnvFrom(environ, 0, map[])
  }

  /** `getEnv`, with `os.Environ()` as its parameter. */
  method GetEnv(environ: seq<string>) returns (result: map<string, string>)
    ensures result == EnvMap(environ)
  {
    result := map[];
    for k := 0 to |environ|
      invariant EnvFrom(environ, k, result) == EnvMap(environ)
    {
      var pair := environ[k];
      var index := IndexByte(pair, '=');
      if index <= 0 {
        continue;
      }
      var key := pair[..index];
      var value := pair[index + 1..];
      result := result[key := value];
    }
  }

  /** True when entry `j` has a key and that key is `key`. */
  predicate NamesKey(environ: seq<string>, j: nat, key: string)
    requires j < |environ|
  {
    SplitPair(environ[j]).Some? && SplitPair(environ[j]).value.0 == key
  }

  /** A key is in the map exactly when it was there already or a later entry names it. */
  lemma {:induction false} EnvFromKeys(environ: seq<string>, i: nat, m: map<string, string>, key: string)
    requires i <= |environ|
    ensures key in EnvFrom(environ, i, m) <==> key in m || exists j :: i <= j < |environ| && NamesKey(environ, j, key)
    decreases |environ| - i
  {
    if i < |environ| {
      var next := Absorb(m, environ[i]);
      assert key in next <==> key in m || NamesKey(environ, i, key);
      EnvFromKeys(environ, i + 1, next, key);
      assert (exists j :: i <= j < |environ| && NamesKey(environ, j, key))
        <==> NamesKey(environ, i, key) || exists j :: i + 1 <= j < |environ| && NamesKey(environ, j, key);
    }
  }

  /** A key no entry from `i` on names keeps the value it has in `m`. */
  lemma {:induction false} UnnamedKeyKept(environ: seq<string>, i: nat, m: map<string, string>, key: string)
    requires i <= |environ| && key in m
    requires forall j :: i <= j < |environ| ==> !NamesKey(environ, j, key)
    ensures key in EnvFrom(environ, i, m) && EnvFrom(environ, i, m)[key] == m[key]
    decreases |environ| - i
  {
    if i < |environ| {
      var next := Absorb(m, environ[i]);
      assert !NamesKey(environ, i, key);
      UnnamedKeyKept(environ, i + 1, next, key);
    }
  }

  /** The last entry naming a key gives its value: later entries overwrite earlier ones. */
  lemma {:induction false} LastEntryWins(environ: seq<string>, i: nat, m: map<string, string>, j: nat, key: string, value: string)
    requires i <= j < |environ| && SplitPair(environ[j]) == Some((key, value))
    requires forall j' :: j < j' < |environ| ==> !NamesKey(environ, j', key)
    ensures key in EnvFrom(environ, i, m) && EnvFrom(environ, i, m)[key] == value
    decreases j - i
  {
    var next := Absorb(m, environ[i]);
    if i == j {
      assert key in next && next[key] == value;
      UnnamedKeyKept(environ, i + 1, next, key);
    } else {
      LastEntryWins(environ, i + 1, next, j, key, value);
    }
  }

  /**
   * `buildKey`: the leaf alone without segments, the segments alone without
   * a leaf, otherwise segments and leaf, joined by `_`.
   */
  function BuildKey(segments: seq<string>, leaf: string): (key: string)
    ensures segments == [] ==> key == leaf
    ensures segments != [] && leaf == "" ==> key == GoStrings.Join(segments, "_")
    ensures segments != [] && leaf != "" ==> key == GoStrings.Join(segments + [leaf], "_")
  {
    if |segments| == 0 then leaf
    else if leaf == "" then GoStrings.Join(segments, "_")
    else GoStrings.Join(segments + [leaf], "_")
  }

  /** Two well-formed non-empty keys joined by `_` make a well-formed key. */
  lemma JoinTwoEnvNames(a: string, b: string)
    requires a != [] && b != [] && EnvName(a) && EnvName(b)
    ensures EnvName(a + "_" + b)
  {
    var s := a + "_" + b;
    forall i | 0 <= i < |s| - 1 ensures s[i] != '_' || s[i + 1] != '_' {
      if i < |a| - 1 {
        assert s[i] == a[i] && s[i + 1] == a[i + 1];
      } else if i == |a| - 1 {
        assert s[i] == a[|a| - 1];
      } else if i == |a| {
        assert s[i + 1] == b[0];
      } else {
        assert s[i] == b[i - |a| - 1] && s[i + 1] == b[i - |a|];
      }
    }
    forall i | 0 <= i < |s| ensures IsKeyChar(s[i]) {
      if i < |a| {
        assert s[i] == a[i];
      } else if i > |a| {
        assert s[i] == b[i - |a| - 1];
      }
    }
  }

  /** Well-formed non-empty keys joined by `_` make a well-formed key. */
  lemma {:induction false} JoinEnvNames(parts: seq<string>)
    requires |parts| >= 1
    requires forall i :: 0 <= i < |parts| ==> parts[i] != [] && EnvName(parts[i])
    ensures GoStrings.Join(parts, "_") != [] && EnvName(GoStrings.Join(parts, "_"))
    decreases |parts|
  {
    if |parts| > 1 {
      JoinEnvNames(parts[1..]);
      JoinTwoEnvNames(parts[0], GoStrings.Join(parts[1..], "_"));
    }
  }

  /** With well-formed segments and leaf, `buildKey` makes a well-formed key. */
  lemma BuildKeyIsEnvName(segments: seq<string>, leaf: string)
    requires forall i :: 0 <= i < |segments| ==> segments[i] != [] && EnvName(segments[i])
    requires EnvName(leaf)
    ensures EnvName(BuildKey(segments, leaf))
  {
    if |segments| > 0 {
      if leaf == "" {
        JoinEnvNames(segments);
      } else {
        JoinEnvNames(segments + [leaf]);
      }
    }
  }

  /** A leaf names the key its enclosing segments and its converted tag make. */
  lemma LeafKeyIsEnvName(segments: seq<string>, tag: string)
    requires forall i :: 0 <= i < |segments| ==> segments[i] != [] && EnvName(segments[i])
    ensures EnvName(BuildKey(segments, EnvVar(tag)))
  {
    EnvVarIsEnvName(tag);
    BuildKeyIsEnvName(segments, EnvVar(tag));
  }

  /** `splitIntoTokens`: the whole value when there is no delimiter, otherwise its pieces. */
  function SplitIntoTokens(value: string, delimiter: string): seq<string>
  {
    if delimiter == "" then [value] else Split(value, delimiter)
  }

  /** The tokens are never empty as a list and join back into the value. */
  lemma TokensJoinBack(value: string, delimiter: string)
    ensures |SplitIntoTokens(value, delimiter)| >= 1
    ensures GoStrings.Join(SplitIntoTokens(value, delimiter), delimiter) == value
  {
    if delimiter != "" {
      JoinSplit(value, delimiter);
    }
  }

  /** `appendIfNotEmpty`. */
  function AppendIfNotEmpty(segments: seq<string>, name: string): (r: seq<string>)
    ensures r == if name == "" then segments else segments + [name]
  {
    if name == "" then segments else segments + [name]
  }

  /** `segmentForField`: the `envSegment` tag, or else the field name, converted. */
  function SegmentFor(f: Field): string
  {
    EnvVar(if Tag(f, "envSegment") == "" then f.name else Tag(f, "envSegment"))
  }

  /** Segments as `loadStruct` extends them: non-empty well-formed keys, so every key it builds is one. */
  lemma SegmentsStayEnvNames(segments: seq<string>, f: Field)
    requires forall i :: 0 <= i < |segments| ==> segments[i] != [] && EnvName(segments[i])
    ensures var next := AppendIfNotEmpty(segments, SegmentFor(f));
      forall i :: 0 <= i < |next| ==> next[i] != [] && EnvName(next[i])
  {
    EnvVarIsEnvName(if Tag(f, "envSegment") == "" then f.name else Tag(f, "envSegment"));
  }

  /** The decision `processLeafField` takes for a tagged field. */
  datatype Plan = Skip | Assign(raw: string)

  /**
   * `processLeafField` once the key is looked up: skip unless the mode
   * allows the write, then take the variable's value (even when empty) if it
   * is set, else the non-empty default.
   */
  function LeafPlan(fv: Value, present: bool, val: string, mode: Loader.LoadMode, defaultValue: string): (p: Plan)
    ensures p.Assign? <==> ShouldAssign(fv, present, mode, defaultValue)
    ensures p.Assign? && present ==> p.raw == val
    ensures p.Assign? && !present ==> p.raw == defaultValue && defaultValue != ""
  {
    if !ShouldAssign(fv, present, mode, defaultValue) then Skip
    else if present then Assign(val)
    else if defaultValue == "" then Skip
    else Assign(defaultValue)
  }

  /** A set variable beats the default even when it is empty, in either mode that writes; the default counts only when the variable is absent. */
  lemma PresentBeatsDefault(fv: Value, val: string, mode: Loader.LoadMode, defaultValue: string)
    ensures mode == Loader.ModeOverride ==> LeafPlan(fv, true, val, mode, defaultValue) == Assign(val)
    ensures mode == Loader.ModeFillMissing && IsZero(fv) ==> LeafPlan(fv, true, val, mode, defaultValue) == Assign(val)
    ensures LeafPlan(fv, false, val, mode, defaultValue).Assign? ==>
      LeafPlan(fv, false, val, mode, defaultValue) == Assign(defaultValue) && IsZero(fv)
  {
  }

  /** `setFieldValue`'s ladders: for a non-pointer field only the exact type or a pointer to it, no conversion. */
  function SetResult(rt: Runtime, t: Ty, c: Result<Value, Error>): Result<Value, Error>
  {
    AfterCast(rt, t, c, UnwrapExact, false)
  }

  /** A non-pointer field whose cast yields another type is never converted: it fails with the field's type. */
  lemma NoConversionForValues(rt: Runtime, t: Ty, v: Value)
    requires KindOf(t) != Ptr && v.t != t && KindOf(v.t) != Ptr
    ensures SetResult(rt, t, Success(v)) == Failure(UnsupportedType(t))
  {
  }

  /** What a traversal reads: the caster's runtime and options, the environment, the mode. */
  datatype Ctx = Ctx(rt: Runtime, options: seq<OptionId>, env: map<string, string>, mode: Loader.LoadMode)

  /** Unexported fields and fields tagged `env:"-"`. */
  predicate Skipped(f: Field)
  {
    !f.exported || Tag(f, "env") == "-"
  }

  /** A struct or a pointer to one: what `resolveNestedStruct` walks into. */
  predicate IsNested(t: Ty)
  {
    KindOf(t) == Struct || (KindOf(t) == Ptr && KindOf(Elem(t)) == Struct)
  }

  /** A struct value whose fields match those of the struct type `t`. */
  predicate Walkable(t: Ty, v: Value)
  {
    t.shape.StructOf? && v.StructV? && |v.fields| == |t.shape.fields|
  }

  /** `setFieldValue` on a leaf: the new value, or the field as it was and the error. */
  function AssignStep(ctx: Ctx, f: Field, fv: Value, raw: string, cache: map<Ty, OptionId>): (s: Stepped)
    requires CacheValid(ctx.rt, ctx.options, cache)
    ensures CacheValid(ctx.rt, ctx.options, s.cache)
  {
    CacheOnlyGrows(ctx.rt, ctx.options, cache, CastTarget(f.ty));
    var after := CacheAfter(ctx.rt, ctx.options, cache, CastTarget(f.ty));
    match SetResult(ctx.rt, f.ty, CastResult(ctx.rt, ctx.options, cache, raw, CastTarget(f.ty)))
    case Success(v) => Stepped(v, [], after)
    case Failure(e) => Stepped(fv, [e], after)
  }

  /** The key a leaf field reads: its segments and its converted `env` tag. */
  function LeafKey(f: Field, segments: seq<string>): string
  {
    BuildKey(segments, EnvVar(Tag(f, "env")))
  }

  /** `processLeafField` for a field with an `env` tag. */
  function LeafStep(ctx: Ctx, f: Field, fv: Value, segments: seq<string>, cache: map<Ty, OptionId>): (s: Stepped)
    requires CacheValid(ctx.rt, ctx.options, cache)
    ensures CacheValid(ctx.rt, ctx.options, s.cache)
  {
    var key := LeafKey(f, segments);
    var present := key in ctx.env;
    match LeafPlan(fv, present, if present then ctx.env[key] else "", ctx.mode, Tag(f, "envDefault"))
    case Skip => Stepped(fv, [], cache)
    case Assign(raw) => AssignStep(ctx, f, fv, raw, cache)
  }

  /** One iteration of `loadStruct`'s loop: skip, a leaf, or a nested struct. */
  function FieldStep(ctx: Ctx, f: Field, fv: Value, segments: seq<string>, cache: map<Ty, OptionId>): (s: Stepped)
    requires CacheValid(ctx.rt, ctx.options, cache)
    ensures CacheValid(ctx.rt, ctx.options, s.cache)
    decreases f.ty, 2, 0
  {
    if Skipped(f) then Stepped(fv, [], cache)
    else if Tag(f, "env") != "" then LeafStep(ctx, f, fv, segments, cache)
    else if KindOf(f.ty) == Struct then
      LoadStructValue(ctx, f.ty, fv, AppendIfNotEmpty(segments, SegmentFor(f)), cache)
    else if KindOf(f.ty) == Ptr && KindOf(Elem(f.ty)) == Struct then
      var target := if fv.PtrV? && fv.target.Some? then fv.target.value else Zero(Elem(f.ty));
      var s := LoadStructValue(ctx, Elem(f.ty), target, AppendIfNotEmpty(segments, SegmentFor(f)), cache);
      Stepped(PtrV(f.ty, Some(s.value)), s.errs, s.cache)
    else Stepped(fv, [], cache)
  }

  /** `loadStruct` on the struct value `v` of type `t`. */
  function LoadStructValue(ctx: Ctx, t: Ty, v: Value, segments: seq<string>, cache: map<Ty, OptionId>): (s: Stepped)
    requires CacheValid(ctx.rt, ctx.options, cache)
    ensures CacheValid(ctx.rt, ctx.options, s.cache)
    decreases t, 1, 0
  {
    if !Walkable(t, v) then Stepped(v, [], cache)
    else
      var w := LoadFields(ctx, t, segments, 0, Walk(v.fields, [], cache));
      Stepped(v.(fields := w.fields), w.errs, w.cache)
  }

  /** The fields of `t` from index `i` on, each stepped in turn. */
  function LoadFields(ctx: Ctx, t: Ty, segments: seq<string>, i: nat, w: Walk): (r: Walk)
    requires t.shape.StructOf? && |w.fields| == |t.shape.fields| && i <= |w.fields|
    requires CacheValid(ctx.rt, ctx.options, w.cache)
    ensures |r.fields| == |w.fields| && CacheValid(ctx.rt, ctx.options, r.cache)
    decreases t, 0, |w.fields| - i
  {
    if i == |w.fields| then w
    else
      var f := t.shape.fields[i];
      assert f in t.shape.fields;
      var s := FieldStep(ctx, f, w.fields[i], segments, w.cache);
      LoadFields(ctx, t, segments, i + 1, Walk(w.fields[i := s.value], w.errs + s.errs, s.cache))
  }

  /** A field `loadStruct` never writes: skipped, or untagged and not a struct to walk into. */
  predicate NeverWritten(f: Field)
  {
    Skipped(f) || (Tag(f, "env") == "" && !IsNested(f.ty))
  }

  /** A field `loadStruct` never writes keeps its value through its step. */
  lemma UnwrittenStep(ctx: Ctx, f: Field, fv: Value, segments: seq<string>, cache: map<Ty, OptionId>)
    requires CacheValid(ctx.rt, ctx.options, cache) && NeverWritten(f)
    ensures FieldStep(ctx, f, fv, segments, cache).value == fv
  {
  }

  /** The walk from `i` on keeps the fields before `i` and every never-written field. */
  lemma {:induction false} WalkKeepsField(ctx: Ctx, t: Ty, segments: seq<string>, i: nat, w: Walk, j: nat)
    requires t.shape.StructOf? && |w.fields| == |t.shape.fields| && i <= |w.fields|
    requires CacheValid(ctx.rt, ctx.options, w.cache)
    requires j < i || (j < |w.fields| && NeverWritten(t.shape.fields[j]))
    ensures LoadFields(ctx, t, segments, i, w).fields[j] == w.fields[j]
    decreases |w.fields| - i
  {
    if i < |w.fields| {
      var s := FieldStep(ctx, t.shape.fields[i], w.fields[i], segments, w.cache);
      if j == i {
        UnwrittenStep(ctx, t.shape.fields[i], w.fields[i], segments, w.cache);
      }
      WalkKeepsField(ctx, t, segments, i + 1, Walk(w.fields[i := s.value], w.errs + s.errs, s.cache), j);
    }
  }

  /** The walk only appends to the errors collected so far. */
  lemma {:induction false} WalkAppendsErrors(ctx: Ctx, t: Ty, segments: seq<string>, i: nat, w: Walk)
    requires t.shape.StructOf? && |w.fields| == |t.shape.fields| && i <= |w.fields|
    requires CacheValid(ctx.rt, ctx.options, w.cache)
    ensures var r := LoadFields(ctx, t, segments, i, w);
      |w.errs| <= |r.errs| && r.errs[..|w.errs|] == w.errs
    decreases |w.fields| - i
  {
    if i < |w.fields| {
      var s := FieldStep(ctx, t.shape.fields[i], w.fields[i], segments, w.cache);
      var next := Walk(w.fields[i := s.value], w.errs + s.errs, s.cache);
      WalkAppendsErrors(ctx, t, segments, i + 1, next);
      var r := LoadFields(ctx, t, segments, i + 1, next);
      assert r.errs[..|w.errs|] == next.errs[..|w.errs|];
    }
  }

  /** Unexported fields, fields tagged `env:"-"` and untagged non-struct fields come out of `loadStruct` as they went in. */
  lemma UnwrittenFieldsKept(ctx: Ctx, t: Ty, v: Value, segments: seq<string>, cache: map<Ty, OptionId>, j: nat)
    requires CacheValid(ctx.rt, ctx.options, cache) && Walkable(t, v)
    requires j < |v.fields| && NeverWritten(t.shape.fields[j])
    ensures var s := LoadStructValue(ctx, t, v, segments, cache);
      s.value.StructV? && |s.value.fields| == |v.fields| && s.value.fields[j] == v.fields[j]
  {
    WalkKeepsField(ctx, t, segments, 0, Walk(v.fields, [], cache), j);
  }

  /** A nil pointer to a struct is allocated and walked into, as the zero struct. */
  lemma NilStructPointerAllocated(ctx: Ctx, f: Field, segments: seq<string>, cache: map<Ty, OptionId>)
    requires CacheValid(ctx.rt, ctx.options, cache)
    requires !Skipped(f) && Tag(f, "env") == "" && KindOf(f.ty) == Ptr && KindOf(Elem(f.ty)) == Struct
    ensures var s := FieldStep(ctx, f, PtrV(f.ty, None), segments, cache);
      s == (var inner := LoadStructValue(ctx, Elem(f.ty), Zero(Elem(f.ty)), AppendIfNotEmpty(segments, SegmentFor(f)), cache);
            Stepped(PtrV(f.ty, Some(inner.value)), inner.errs, inner.cache))
  {
    assert KindOf(f.ty) != Struct;
  }

  /** What `Load` leaves: the configuration, the error, and the caster's cache. */
  datatype Outcome = Outcome(cfg: Option<Value>, err: Option<Error>, cache: map<Ty, OptionId>)

  /** The segments `Load` starts with: the normalised prefix, if there is one. */
  function PrefixSegments(prefix: string): seq<string>
  {
    if prefix != "" then [prefix] else []
  }

  /** `Source.Load` with `os.Environ()` given as `environ`. */
  function LoadOutcome(rt: Runtime, options: seq<OptionId>, cache: map<Ty, OptionId>, prefix: string,
                       cfg: Option<Value>, environ: seq<string>, mode: Loader.LoadMode): (o: Outcome)
    requires CacheValid(rt, options, cache)
    ensures CacheValid(rt, options, o.cache)
  {
    if !IsNonNilPointer(cfg) then Outcome(cfg, Some(Plain(NilTargetReason)), cache)
    else
      var elem := cfg.value.target.value;
      if KindOf(elem.t) != Struct then Outcome(cfg, Some(Plain(NonStructTargetReason)), cache)
      else
        var s := LoadStructValue(Ctx(rt, options, EnvMap(environ), DefaultMode(mode)), elem.t, elem, PrefixSegments(prefix), cache);
        Outcome(Some(cfg.value.(target := Some(s.value))), Errors.Join(s.errs), s.cache)
  }

  /** `Load` fails exactly on a bad target or when some field failed, and then reports every field error. */
  lemma LoadErrIffFieldErrors(rt: Runtime, options: seq<OptionId>, cache: map<Ty, OptionId>, prefix: string,
                              cfg: Option<Value>, environ: seq<string>, mode: Loader.LoadMode)
    requires CacheValid(rt, options, cache)
    requires EnsureTargetStruct(cfg).Success?
    ensures var elem := cfg.value.target.value;
      var s := LoadStructValue(Ctx(rt, options, EnvMap(environ), DefaultMode(mode)), elem.t, elem, PrefixSegments(prefix), cache);
      var o := LoadOutcome(rt, options, cache, prefix, cfg, environ, mode);
      && (o.err.None? <==> s.errs == [])
      && (o.err.Some? ==> Unwraps(o.err.value) == s.errs)
      && o.cfg == Some(cfg.value.(target := Some(s.value)))
  {
  }

  class Source {
    const caster: Caster
    const prefix: string
    const delimiter: string

    /** `NewSource`: the prefix is normalised as a key and the delimiter defaults to ",". */
    constructor (rt: Runtime, prefix: string, delimiter: string)
      ensures this.prefix == (if prefix == "" then "" else EnvVar(prefix)) && EnvName(this.prefix)
      ensures this.delimiter == (if delimiter == "" then "," else delimiter)
      ensures fresh(caster) && caster.Valid() && caster.rt == rt && caster.options == Builtins && caster.byType == map[]
    {
      var normalized := "";
      if prefix != "" {
        normalized := ConvertEnvVar(prefix);
      }
      this.prefix := normalized;
      this.delimiter := if delimiter == "" then "," else delimiter;
      var c := new Caster(rt, []);
      assert Builtins + [] == Builtins;
      caster := c;
    }

    /** `setFieldValue`. */
    method SetFieldValue(t: Ty, raw: string) returns (r: Result<Value, Error>)
      requires caster.Valid() && CastsSafe(caster.rt, caster.options, t)
      modifies caster
      ensures caster.Valid()
      ensures caster.byType == CacheAfter(caster.rt, caster.options, old(caster.byType), CastTarget(t))
      ensures r == SetResult(caster.rt, t, CastResult(caster.rt, caster.options, old(caster.byType), raw, CastTarget(t)))
    {
      var c := caster.Cast(raw, CastTarget(t));
      if c.Failure? {
        return c;
      }
      var v := c.value;
      if KindOf(t) == Ptr {
        if v.t == t {
          return Success(v);
        }
        if KindOf(v.t) == Ptr && Elem(v.t) == Elem(t) {
          return Success(Store(t, v));
        }
        if v.t == Elem(t) {
          return Success(PtrV(t, Some(v)));
        }
        if ConvertibleTo(v.t, Elem(t)) {
          return Success(PtrV(t, Some(Convert(caster.rt, v, Elem(t)))));
        }
        return Failure(UnsupportedType(t));
      }
      if v.t == t {
        return Success(v);
      }
      if KindOf(v.t) == Ptr && Elem(v.t) == t {
        return Success(Store(t, Pointee(v)));
      }
      return Failure(UnsupportedType(t));
    }

    /** `processLeafField` for a field with an `env` tag. */
    method ProcessLeafField(f: Field, fv: Value, segments: seq<string>, env: map<string, string>, mode: Loader.LoadMode)
      returns (nv: Value, errs: seq<Error>)
      requires caster.Valid() && CastsSafe(caster.rt, caster.options, f.ty)
      modifies caster
      ensures caster.Valid()
      ensures var s := LeafStep(Ctx(caster.rt, caster.options, env, mode), f, fv, segments, old(caster.byType));
        nv == s.value && errs == s.errs && caster.byType == s.cache
    {
      var leaf := ConvertEnvVar(Tag(f, "env"));
      var key := BuildKey(segments, leaf);
      var ok := key in env;
      var val := if ok then env[key] else "";
      var defaultValue := Tag(f, "envDefault");
      ghost var plan := LeafPlan(fv, ok, val, mode, defaultValue);
      assert key == LeafKey(f, segments);
      nv, errs := fv, [];
      if !ShouldAssign(fv, ok, mode, defaultValue) {
        return;
      }
      var setValue := "";
      if ok {
        setValue := val;
      } else {
        if defaultValue == "" {
          return;
        }
        setValue := defaultValue;
      }
      assert plan == Assign(setValue);
      nv, errs := AssignLeaf(f, fv, setValue, env, mode);
    }

    /** The write at the end of `processLeafField`: a failed `setFieldValue` leaves the field and adds its error. */
    method AssignLeaf(f: Field, fv: Value, raw: string, ghost env: map<string, string>, ghost mode: Loader.LoadMode)
      returns (nv: Value, errs: seq<Error>)
      requires caster.Valid() && CastsSafe(caster.rt, caster.options, f.ty)
      modifies caster
      ensures caster.Valid()
      ensures var s := AssignStep(Ctx(caster.rt, caster.options, env, mode), f, fv, raw, old(caster.byType));
        nv == s.value && errs == s.errs && caster.byType == s.cache
    {
      var r := SetFieldValue(f.ty, raw);
      if r.Failure? {
        return fv, [r.error];
      }
      return r.value, [];
    }

    /** One iteration of `loadStruct`'s loop, with `resolveNestedStruct` for untagged fields. */
    method LoadField(f: Field, fv: Value, segments: seq<string>, env: map<string, string>, mode: Loader.LoadMode)
      returns (nv: Value, errs: seq<Error>)
      requires caster.Valid() && CastsSafe(caster.rt, caster.options, f.ty)
      requires KindOf(f.ty) == Struct ==> DeepCastsSafe(caster.rt, caster.options, f.ty)
      requires KindOf(f.ty) == Ptr && KindOf(Elem(f.ty)) == Struct ==> DeepCastsSafe(caster.rt, caster.options, Elem(f.ty))
      modifies caster
      ensures caster.Valid()
      ensures var s := FieldStep(Ctx(caster.rt, caster.options, env, mode), f, fv, segments, old(caster.byType));
        nv == s.value && errs == s.errs && caster.byType == s.cache
      decreases f.ty, 2, 0
    {
      if Skipped(f) {
        return fv, [];
      }
      if Tag(f, "env") != "" {
        nv, errs := ProcessLeafField(f, fv, segments, env, mode);
        return;
      }
      if KindOf(f.ty) == Struct {
        var segment := SegmentFor(f);
        nv, errs := LoadStruct(f.ty, fv, AppendIfNotEmpty(segments, segment), env, mode);
        return;
      }
      if KindOf(f.ty) == Ptr && KindOf(Elem(f.ty)) == Struct {
        var segment := SegmentFor(f);
        var target := if fv.PtrV? && fv.target.Some? then fv.target.value else Zero(Elem(f.ty));
        var inner;
        inner, errs := LoadStruct(Elem(f.ty), target, AppendIfNotEmpty(segments, segment), env, mode);
        nv := PtrV(f.ty, Some(inner));
        return;
      }
      return fv, [];
    }

    /** `loadStruct`: every field of the struct value `v` of type `t`, in order. */
    method LoadStruct(t: Ty, v: Value, segments: seq<string>, env: map<string, string>, mode: Loader.LoadMode)
      returns (out: Value, errs: seq<Error>)
      requires caster.Valid() && DeepCastsSafe(caster.rt, caster.options, t)
      modifies caster
      ensures caster.Valid()
      ensures var s := LoadStructValue(Ctx(caster.rt, caster.options, env, mode), t, v, segments, old(caster.byType));
        out == s.value && errs == s.errs && caster.byType == s.cache
      decreases t, 1, 0
    {
      if !Walkable(t, v) {
        return v, [];
      }
      ghost var ctx := Ctx(caster.rt, caster.options, env, mode);
      var fields := v.fields;
      errs := [];
      for i := 0 to |fields|
        invariant caster.Valid() && |fields| == |v.fields|
        invariant LoadFields(ctx, t, segments, i, Walk(fields, errs, caster.byType))
          == LoadFields(ctx, t, segments, 0, Walk(v.fields, [], old(caster.byType)))
      {
        var f := t.shape.fields[i];
        assert f in t.shape.fields;
        ghost var before := Walk(fields, errs, caster.byType);
        var nv, ferrs := LoadField(f, fields[i], segments, env, mode);
        fields := fields[i := nv];
        errs := errs + ferrs;
        assert Walk(fields, errs, caster.byType) ==
          (var s := FieldStep(ctx, f, before.fields[i], segments, before.cache);
           Walk(before.fields[i := s.value], before.errs + s.errs, s.cache));
      }
      out := v.(fields := fields);
    }

    /** `Source.Load`, with `os.Environ()` given as `environ`. */
    method Load(cfg: Option<Value>, environ: seq<string>, mode: Loader.LoadMode) returns (out: Option<Value>, err: Option<Error>)
      requires caster.Valid()
      requires IsNonNilPointer(cfg) ==> DeepCastsSafe(caster.rt, caster.options, cfg.value.target.value.t)
      modifies caster
      ensures caster.Valid()
      ensures var o := LoadOutcome(caster.rt, caster.options, old(caster.byType), prefix, cfg, environ, mode);
        out == o.cfg && err == o.err && caster.byType == o.cache
    {
      var m := mode;
      if m == 0 {
        m := Loader.ModeOverride;
      }
      if !IsNonNilPointer(cfg) {
        return cfg, Some(Plain(NilTargetReason));
      }
      var elem := cfg.value.target.value;
      if KindOf(elem.t) != Struct {
        return cfg, Some(Plain(NonStructTargetReason));
      }
      var environment := GetEnv(environ);
      var segments: seq<string> := [];
      if prefix != "" {
        segments := [prefix];
      }
      assert m == DefaultMode(mode) && segments == PrefixSegments(prefix);
      var loaded, collected := LoadStruct(elem.t, elem, segments, environment, m);
      out := Some(cfg.value.(target := Some(loaded)));
      if |collected| > 0 {
        err := Some(Joined(collected));
      } else {
        err := None;
      }
    }
  }
}
