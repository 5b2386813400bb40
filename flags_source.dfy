/**
 * `pkg/source/flags`: fills a configuration struct from command-line
 * arguments. The arguments are first tokenised into a map from flag name to
 * value; a field tagged `flag:"NAME"` then reads NAME (or its
 * `flagShort` name when NAME is absent), `flagDefault` supplying a value
 * when neither is given. Nested structs share one flat name space.
 *
 * `os.Args[1:]` is a parameter of `Load`; the struct is passed by value and
 * `Load` hands back the configuration it leaves behind.
 */
module FlagsSource {
  import opened Base
  import opened GoStrings
  import opened Reflect
  import opened Errors
  import opened Host
  import Loader
  import opened TypecastCaster
  import opened Sourceutil

  /** Where one step of `parseArguments` leaves the map and the index. */
  datatype Parsed = Parsed(m: map<string, string>, next: nat)

  /** A flag without `=`: the next argument is its value unless it looks like a flag itself. */
  function TakeValue(args: seq<string>, i: nat, name: string, m: map<string, string>): (p: Parsed)
    requires i < |args|
    ensures i < p.next <= |args|
    ensures name in p.m && forall k :: k in p.m <==> k in m || k == name
  {
    if i + 1 < |args| && !HasPrefix(args[i + 1], "-") then Parsed(m[name := args[i + 1]], i + 2)
    else Parsed(m[name := ""], i + 1)
  }

  /** A token after "--": `name=value`, a negated `no-name` with or without a value, or a name taking the next argument. */
  function LongFlag(args: seq<string>, i: nat, name: string, m: map<string, string>): (p: Parsed)
    requires i < |args|
    ensures i < p.next <= |args|
  {
    var eq := IndexByte(name, '=');
    if eq >= 0 then
      var key := name[..eq];
      if HasPrefix(key, "no-") then Parsed(m[key[3..] := "false"], i + 1)
      else Parsed(m[key := name[eq + 1..]], i + 1)
    else if HasPrefix(name, "no-") then Parsed(m[name[3..] := "false"], i + 1)
    else TakeValue(args, i, name, m)
  }

  /** A token after a single "-": `name=value` or a name taking the next argument, never negated. */
  function ShortFlag(args: seq<string>, i: nat, name: string, m: map<string, string>): (p: Parsed)
    requires i < |args|
    ensures i < p.next <= |args|
  {
    var eq := IndexByte(name, '=');
    if eq >= 0 then Parsed(m[name[..eq] := name[eq + 1..]], i + 1)
    else TakeValue(args, i, name, m)
  }

  /** One iteration of `parseArguments`' loop, on the token at index `i`. */
  function ParseStep(args: seq<string>, i: nat, m: map<string, string>): (p: Parsed)
    requires i < |args|
    ensures i < p.next <= |args|
  {
    var token := args[i];
    if HasPrefix(token, "--") then
      if token[2..] == "" then Parsed(m, i + 1) else LongFlag(args, i, token[2..], m)
    // The name after a single dash is never empty here.
    else if HasPrefix(token, "-") && |token| >= 2 then ShortFlag(args, i, token[1..], m)
    else Parsed(m, i + 1)
  }

  /** The map `parseArguments` builds from index `i` on, starting from `m`. */
  function ParseFrom(args: seq<string>, i: nat, m: map<string, string>): map<string, string>
    requires i <= |args|
    decreases |args| - i
  {
    if i == |args| then m
    else
      var p := ParseStep(args, i, m);
      ParseFrom(args, p.next, p.m)
  }

  function Parse(args: seq<string>): map<string, string>
  {
    ParseFrom(args, 0, map[])
  }

  /** `parseArguments`. */
  method ParseArguments(args: seq<string>) returns (result: map<string, string>)
    ensures result == Parse(args)
  {
    result := map[];
    var i := 0;
    while i < |args|
      invariant i <= |args|
      invariant ParseFrom(args, i, result) == Parse(args)
      decreases |args| - i
    {
      var token := args[i];
      if HasPrefix(token, "--") {
        var name := token[2..];
        if name == "" {
          i := i + 1;
          continue;
        }
        result, i := ParseLongFlag(args, i, name, result);
        continue;
      }
      if HasPrefix(token, "-") && |token| >= 2 {
        var name := token[1..];
        result, i := ParseShortFlag(args, i, name, result);
        continue;
      }
      i := i + 1;
    }
  }

  /** The body of `parseArguments`' loop for a token after "--". */
  method ParseLongFlag(args: seq<string>, i: nat, name: string, result: map<string, string>)
    returns (updated: map<string, string>, next: nat)
    requires i < |args|
    ensures Parsed(updated, next) == LongFlag(args, i, name, result)
  {
    var eq := IndexByte(name, '=');
    if eq >= 0 {
      var key := name[..eq];
      var value := name[eq + 1..];
      if HasPrefix(key, "no-") {
        var k := key[3..];
        return result[k := "false"], i + 1;
      }
      return result[key := value], i + 1;
    }
    if HasPrefix(name, "no-") {
      var k := name[3..];
      return result[k := "false"], i + 1;
    }
    if i + 1 < |args| && !HasPrefix(args[i + 1], "-") {
      return result[name := args[i + 1]], i + 2;
    }
    return result[name := ""], i + 1;
  }

  /** The body of `parseArguments`' loop for a token after a single "-". */
  method ParseShortFlag(args: seq<string>, i: nat, name: string, result: map<string, string>)
    returns (updated: map<string, string>, next: nat)
    requires i < |args|
    ensures Parsed(updated, next) == ShortFlag(args, i, name, result)
  {
    var eq := IndexByte(name, '=');
    if eq >= 0 {
      var key := name[..eq];
      var value := name[eq + 1..];
      return result[key := value], i + 1;
    }
    if i + 1 < |args| && !HasPrefix(args[i + 1], "-") {
      return result[name := args[i + 1]], i + 2;
    }
    return result[name := ""], i + 1;
  }

  /** In `k + "=" + v` with no `=` in `k`, the first `=` follows `k`. */
  lemma FirstEquals(k: string, v: string)
    requires '=' !in k
    ensures var s := k + "=" + v;
      IndexByte(s, '=') == |k| && s[..|k|] == k && s[|k| + 1..] == v
  {
    var s := k + "=" + v;
    assert s[|k|] == '=';
    assert forall j :: 0 <= j < |k| ==> s[j] == k[j];
  }

  /** "--k=v" sets k to v, unless k starts with "no-". */
  lemma LongFlagWithValue(args: seq<string>, i: nat, m: map<string, string>, k: string, v: string)
    requires i < |args| && args[i] == "--" + k + "=" + v
    requires '=' !in k && !HasPrefix(k, "no-")
    ensures ParseStep(args, i, m) == Parsed(m[k := v], i + 1)
  {
    assert args[i][2..] == k + "=" + v;
    FirstEquals(k, v);
  }

  /** "--no-k" and "--no-k=anything" both set k to "false". */
  lemma NegatedFlag(args: seq<string>, i: nat, m: map<string, string>, k: string, v: string)
    requires i < |args| && '=' !in k
    requires args[i] == "--no-" + k || args[i] == "--no-" + k + "=" + v
    ensures ParseStep(args, i, m) == Parsed(m[k := "false"], i + 1)
  {
    if args[i] == "--no-" + k {
      assert args[i][2..] == "no-" + k;
      assert ("no-" + k)[3..] == k;
      assert IndexByte("no-" + k, '=') == -1;
    } else {
      assert args[i][2..] == ("no-" + k) + "=" + v;
      FirstEquals("no-" + k, v);
      assert ("no-" + k)[3..] == k;
    }
  }

  /**
   * "--k" and "-k" without `=` take the next argument as their value when
   * there is one that does not start with "-"; otherwise k maps to "".
   */
  lemma FlagTakesNextArgument(args: seq<string>, i: nat, m: map<string, string>, dashes: string, k: string)
    requires i < |args| && args[i] == dashes + k
    requires dashes == "--" || dashes == "-"
    requires k != "" && '=' !in k && !HasPrefix(k, "-") && (dashes == "--" ==> !HasPrefix(k, "no-"))
    ensures i + 1 < |args| && !HasPrefix(args[i + 1], "-") ==> ParseStep(args, i, m) == Parsed(m[k := args[i + 1]], i + 2)
    ensures !(i + 1 < |args| && !HasPrefix(args[i + 1], "-")) ==> ParseStep(args, i, m) == Parsed(m[k := ""], i + 1)
  {
    assert args[i][|dashes|..] == k;
    assert IndexByte(k, '=') == -1;
    if dashes == "-" {
      assert !HasPrefix(args[i], "--") by {
        assert args[i][1] == k[0];
      }
    }
  }

  /** "-k=v" sets k to v: a single dash has no "no-" handling. */
  lemma ShortFlagWithValue(args: seq<string>, i: nat, m: map<string, string>, k: string, v: string)
    requires i < |args| && args[i] == "-" + k + "=" + v
    requires '=' !in k && !HasPrefix(k, "-")
    ensures ParseStep(args, i, m) == Parsed(m[k := v], i + 1)
  {
    assert args[i][1..] == k + "=" + v;
    FirstEquals(k, v);
    assert !HasPrefix(args[i], "--") by {
      assert args[i][1] == (k + "=" + v)[0];
    }
  }

  /** "--", "-" and tokens without a leading dash leave the map as it is. */
  lemma IgnoredTokens(args: seq<string>, i: nat, m: map<string, string>)
    requires i < |args| && (args[i] == "--" || args[i] == "-" || !HasPrefix(args[i], "-"))
    ensures ParseStep(args, i, m) == Parsed(m, i + 1)
  {
    if args[i] == "--" {
      assert args[i][2..] == "";
    }
  }

  /** A step never reads past the next argument, and never takes a token starting with "-" as a value. */
  lemma StepIgnoresLater(args: seq<string>, tok: string, i: nat, m: map<string, string>)
    requires i < |args| && HasPrefix(tok, "-")
    ensures ParseStep(args + [tok], i, m) == ParseStep(args, i, m)
  {
    var ext := args + [tok];
    assert ext[i] == args[i];
    if i + 1 < |args| {
      assert ext[i + 1] == args[i + 1];
    } else {
      assert ext[i + 1] == tok;
    }
  }

  /** Parsing `args` and then one token starting with "-" continues from where `args` ends. */
  lemma {:induction false} ParseExtends(args: seq<string>, tok: string, i: nat, m: map<string, string>)
    requires i <= |args| && HasPrefix(tok, "-")
    ensures ParseFrom(args + [tok], i, m) == ParseFrom(args + [tok], |args|, ParseFrom(args, i, m))
    decreases |args| - i
  {
    if i < |args| {
      StepIgnoresLater(args, tok, i, m);
      var p := ParseStep(args, i, m);
      ParseExtends(args, tok, p.next, p.m);
    }
  }

  /** A trailing "--k=v" overrides whatever the earlier arguments gave k. */
  lemma LastFlagWins(args: seq<string>, k: string, v: string)
    requires '=' !in k && !HasPrefix(k, "no-")
    ensures k in Parse(args + ["--" + k + "=" + v]) && Parse(args + ["--" + k + "=" + v])[k] == v
  {
    var tok := "--" + k + "=" + v;
    assert HasPrefix(tok, "-") by {
      assert tok[..1] == "-";
    }
    ParseExtends(args, tok, 0, map[]);
    var ext := args + [tok];
    var before := ParseFrom(args, 0, map[]);
    LongFlagWithValue(ext, |args|, before, k, v);
  }

  /** The value a field finds and the flag name it was found under (the long name when nothing was found). */
  datatype Found = Found(value: Option<string>, name: string)

  /** `processLeafField`'s lookup: the long name first, the short name only when the long one is absent. */
  function LookupFlag(args: map<string, string>, long: string, short: string): (r: Found)
    ensures r.value.Some? ==> r.name in args && args[r.name] == r.value.value
    ensures r.value.None? <==> long !in args && (short == "" || short !in args)
    ensures r.name == long || (r.name == short && short != "" && long !in args)
  {
    if long in args then Found(Some(args[long]), long)
    else if short != "" && short in args then Found(Some(args[short]), short)
    else Found(None, long)
  }

  /** With both names given, the long one wins; the short one is used only in its absence. */
  lemma LongBeatsShort(args: map<string, string>, long: string, short: string)
    ensures long in args ==> LookupFlag(args, long, short) == Found(Some(args[long]), long)
    ensures long !in args && short != "" && short in args ==> LookupFlag(args, long, short) == Found(Some(args[short]), short)
  {
  }

  /** `fmt.Errorf("%s=%s: %w", name, "", ErrParseFailed{...ErrEmptyValue})` for an empty flag value. */
  function EmptyValueError(name: string, t: Ty): (e: Error)
    ensures Unwraps(e) == [ParseFailed(CastTarget(t), "", EmptyValue)]
  {
    WrapOne(name + "=" + "", ParseFailed(CastTarget(t), "", EmptyValue))
  }

  /** The decision `processLeafField` takes for a flag-tagged field. */
  datatype Plan = Skip | Reject(err: Error) | Assign(raw: string)

  /**
   * `processLeafField` once the names are looked up: skip unless the mode
   * allows the write; an empty value means "true" for a bool or *bool and
   * is an error for anything else; without a value, the non-empty default.
   */
  function LeafPlan(t: Ty, fv: Value, found: Found, mode: Loader.LoadMode, defaultValue: string): (p: Plan)
    ensures p.Skip? <==> !ShouldAssign(fv, found.value.Some?, mode, defaultValue)
    ensures p.Reject? <==> ShouldAssign(fv, true, mode, defaultValue) && found.value == Some("") && KindOf(CastTarget(t)) != Bool
    ensures p.Assign? && found.value.Some? ==> p.raw == (if found.value.value == "" then "true" else found.value.value)
    ensures p.Assign? && found.value.None? ==> p.raw == defaultValue && defaultValue != ""
  {
    if !ShouldAssign(fv, found.value.Some?, mode, defaultValue) then Skip
    else if found.value.Some? then
      if found.value.value != "" then Assign(found.value.value)
      else if KindOf(CastTarget(t)) == Bool then Assign("true")
      else Reject(EmptyValueError(found.name, t))
    else if defaultValue == "" then Skip
    else Assign(defaultValue)
  }

  /**
   * A flag given without a value sets a bool or *bool field to "true"; for
   * any other type it is an `ErrParseFailed` wrapping `ErrEmptyValue`,
   * reported under the name that was used.
   */
  lemma EmptyValueRule(t: Ty, fv: Value, name: string, mode: Loader.LoadMode, defaultValue: string)
    requires ShouldAssign(fv, true, mode, defaultValue)
    ensures var p := LeafPlan(t, fv, Found(Some(""), name), mode, defaultValue);
      && (KindOf(CastTarget(t)) == Bool ==> p == Assign("true"))
      && (KindOf(CastTarget(t)) != Bool ==>
            && p.Reject? && Is(p.err, EmptyValue)
            && As(p.err, ParseFailedK) == Some(ParseFailed(CastTarget(t), "", EmptyValue))
            && Message(p.err) == name + "=" + ": " + Message(ParseFailed(CastTarget(t), "", EmptyValue)))
  {
    if KindOf(CastTarget(t)) != Bool {
      assert LeafPlan(t, fv, Found(Some(""), name), mode, defaultValue) == Reject(EmptyValueError(name, t));
      assert name + "=" + "" == name + "=";
    }
  }

  /** What a traversal reads: the caster's runtime and options, the parsed arguments, the mode. */
  datatype Ctx = Ctx(rt: Runtime, options: seq<OptionId>, args: map<string, string>, mode: Loader.LoadMode)

  /** A field `processLeafField` handles: a `flag` tag other than "" and "-". */
  predicate IsLeaf(f: Field)
  {
    Tag(f, "flag") != "" && Tag(f, "flag") != "-"
  }

  /** A struct or a pointer to one. */
  predicate IsNested(t: Ty)
  {
    KindOf(t) == Struct || (KindOf(t) == Ptr && KindOf(Elem(t)) == Struct)
  }

  /** A struct value whose fields match those of the struct type `t`. */
  predicate Walkable(t: Ty, v: Value)
  {
    t.shape.StructOf? && v.StructV? && |v.fields| == |t.shape.fields|
  }

  /** `AssignFromString` on a leaf: the new value, or the field as it was and the flags field error. */
  function AssignStep(ctx: Ctx, f: Field, fv: Value, raw: string, name: string, cache: map<Ty, OptionId>): (s: Stepped)
    requires CacheValid(ctx.rt, ctx.options, cache)
    ensures CacheValid(ctx.rt, ctx.options, s.cache)
  {
    CacheOnlyGrows(ctx.rt, ctx.options, cache, CastTarget(f.ty));
    var after := CacheAfter(ctx.rt, ctx.options, cache, CastTarget(f.ty));
    match AfterCast(ctx.rt, f.ty, CastResult(ctx.rt, ctx.options, cache, raw, CastTarget(f.ty)), UnwrapExact, true)
    case Success(v) => Stepped(v, [], after)
    case Failure(e) => Stepped(fv, [NewFlagsFieldFailedError(name, raw, f.name, e)], after)
  }

  /** `processLeafField` for a leaf field. */
  function LeafStep(ctx: Ctx, f: Field, fv: Value, cache: map<Ty, OptionId>): (s: Stepped)
    requires CacheValid(ctx.rt, ctx.options, cache)
    ensures CacheValid(ctx.rt, ctx.options, s.cache)
  {
    var found := LookupFlag(ctx.args, Tag(f, "flag"), Tag(f, "flagShort"));
    match LeafPlan(f.ty, fv, found, ctx.mode, Tag(f, "flagDefault"))
    case Skip => Stepped(fv, [], cache)
    case Reject(e) => Stepped(fv, [e], cache)
    case Assign(raw) => AssignStep(ctx, f, fv, raw, found.name, cache)
  }

  /** A rejected empty value leaves the field and the caster's cache as they were. */
  lemma RejectLeavesField(ctx: Ctx, f: Field, fv: Value, cache: map<Ty, OptionId>)
    requires CacheValid(ctx.rt, ctx.options, cache)
    requires LeafPlan(f.ty, fv, LookupFlag(ctx.args, Tag(f, "flag"), Tag(f, "flagShort")), ctx.mode, Tag(f, "flagDefault")).Reject?
    ensures var s := LeafStep(ctx, f, fv, cache);
      s.value == fv && s.cache == cache && |s.errs| == 1 && Is(s.errs[0], EmptyValue)
  {
  }

  /** One iteration of `loadStruct`'s loop: skip, a leaf, or a nested struct in the same name space. */
  function FieldStep(ctx: Ctx, f: Field, fv: Value, cache: map<Ty, OptionId>): (s: Stepped)
    requires CacheValid(ctx.rt, ctx.options, cache)
    ensures CacheValid(ctx.rt, ctx.options, s.cache)
    decreases f.ty, 2, 0
  {
    if !f.exported then Stepped(fv, [], cache)
    else if IsLeaf(f) then LeafStep(ctx, f, fv, cache)
    else if KindOf(f.ty) == Struct then LoadStructValue(ctx, f.ty, fv, cache)
    else if KindOf(f.ty) == Ptr && KindOf(Elem(f.ty)) == Struct then
      var target := if fv.PtrV? && fv.target.Some? then fv.target.value else Zero(Elem(f.ty));
      var s := LoadStructValue(ctx, Elem(f.ty), target, cache);
      Stepped(PtrV(f.ty, Some(s.value)), s.errs, s.cache)
    else Stepped(fv, [], cache)
  }

  /** `loadStruct` on the struct value `v` of type `t`. */
  function LoadStructValue(ctx: Ctx, t: Ty, v: Value, cache: map<Ty, OptionId>): (s: Stepped)
    requires CacheValid(ctx.rt, ctx.options, cache)
    ensures CacheValid(ctx.rt, ctx.options, s.cache)
    decreases t, 1, 0
  {
    if !Walkable(t, v) then Stepped(v, [], cache)
    else
      var w := LoadFields(ctx, t, 0, Walk(v.fields, [], cache));
      Stepped(v.(fields := w.fields), w.errs, w.cache)
  }

  /** The fields of `t` from index `i` on, each stepped in turn. */
  function LoadFields(ctx: Ctx, t: Ty, i: nat, w: Walk): (r: Walk)
    requires t.shape.StructOf? && |w.fields| == |t.shape.fields| && i <= |w.fields|
    requires CacheValid(ctx.rt, ctx.options, w.cache)
    ensures |r.fields| == |w.fields| && CacheValid(ctx.rt, ctx.options, r.cache)
    decreases t, 0, |w.fields| - i
  {
    if i == |w.fields| then w
    else
      var f := t.shape.fields[i];
      assert f in t.shape.fields;
      var s := FieldStep(ctx, f, w.fields[i], w.cache);
      LoadFields(ctx, t, i + 1, Walk(w.fields[i := s.value], w.errs + s.errs, s.cache))
  }

  /** A field `loadStruct` never writes: unexported, or neither a leaf nor a struct to walk into. */
  predicate NeverWritten(f: Field)
  {
    !f.exported || (!IsLeaf(f) && !IsNested(f.ty))
  }

  /** A field `loadStruct` never writes keeps its value through its step. */
  lemma UnwrittenStep(ctx: Ctx, f: Field, fv: Value, cache: map<Ty, OptionId>)
    requires CacheValid(ctx.rt, ctx.options, cache) && NeverWritten(f)
    ensures FieldStep(ctx, f, fv, cache).value == fv
  {
  }

  /** The walk from `i` on keeps the fields before `i` and every never-written field. */
  lemma {:induction false} WalkKeepsField(ctx: Ctx, t: Ty, i: nat, w: Walk, j: nat)
    requires t.shape.StructOf? && |w.fields| == |t.shape.fields| && i <= |w.fields|
    requires CacheValid(ctx.rt, ctx.options, w.cache)
    requires j < i || (j < |w.fields| && NeverWritten(t.shape.fields[j]))
    ensures LoadFields(ctx, t, i, w).fields[j] == w.fields[j]
    decreases |w.fields| - i
  {
    if i < |w.fields| {
      var s := FieldStep(ctx, t.shape.fields[i], w.fields[i], w.cache);
      if j == i {
        UnwrittenStep(ctx, t.shape.fields[i], w.fields[i], w.cache);
      }
      WalkKeepsField(ctx, t, i + 1, Walk(w.fields[i := s.value], w.errs + s.errs, s.cache), j);
    }
  }

  /** The walk only appends to the errors collected so far. */
  lemma {:induction false} WalkAppendsErrors(ctx: Ctx, t: Ty, i: nat, w: Walk)
    requires t.shape.StructOf? && |w.fields| == |t.shape.fields| && i <= |w.fields|
    requires CacheValid(ctx.rt, ctx.options, w.cache)
    ensures var r := LoadFields(ctx, t, i, w);
      |w.errs| <= |r.errs| && r.errs[..|w.errs|] == w.errs
    decreases |w.fields| - i
  {
    if i < |w.fields| {
      var s := FieldStep(ctx, t.shape.fields[i], w.fields[i], w.cache);
      var next := Walk(w.fields[i := s.value], w.errs + s.errs, s.cache);
      WalkAppendsErrors(ctx, t, i + 1, next);
      var r := LoadFields(ctx, t, i + 1, next);
      assert r.errs[..|w.errs|] == next.errs[..|w.errs|];
    }
  }

  /** Unexported fields and fields that are neither leaves nor structs come out of `loadStruct` as they went in. */
  lemma UnwrittenFieldsKept(ctx: Ctx, t: Ty, v: Value, cache: map<Ty, OptionId>, j: nat)
    requires CacheValid(ctx.rt, ctx.options, cache) && Walkable(t, v)
    requires j < |v.fields| && NeverWritten(t.shape.fields[j])
    ensures var s := LoadStructValue(ctx, t, v, cache);
      s.value.StructV? && |s.value.fields| == |v.fields| && s.value.fields[j] == v.fields[j]
  {
    WalkKeepsField(ctx, t, 0, Walk(v.fields, [], cache), j);
  }

  /** A nil pointer to a struct is allocated and walked into, as the zero struct, with the same arguments. */
  lemma NilStructPointerAllocated(ctx: Ctx, f: Field, cache: map<Ty, OptionId>)
    requires CacheValid(ctx.rt, ctx.options, cache)
    requires f.exported && !IsLeaf(f) && KindOf(f.ty) == Ptr && KindOf(Elem(f.ty)) == Struct
    ensures var s := FieldStep(ctx, f, PtrV(f.ty, None), cache);
      s == (var inner := LoadStructValue(ctx, Elem(f.ty), Zero(Elem(f.ty)), cache);
            Stepped(PtrV(f.ty, Some(inner.value)), inner.errs, inner.cache))
  {
    assert KindOf(f.ty) != Struct;
  }

  /** A struct field tagged `flag:"-"` is not a leaf, so it is still walked into. */
  lemma DashTaggedStructIsWalked(ctx: Ctx, f: Field, fv: Value, cache: map<Ty, OptionId>)
    requires CacheValid(ctx.rt, ctx.options, cache)
    requires f.exported && Tag(f, "flag") == "-" && KindOf(f.ty) == Struct
    ensures FieldStep(ctx, f, fv, cache) == LoadStructValue(ctx, f.ty, fv, cache)
  {
  }

  /** What `Load` leaves: the configuration, the error, and the caster's cache. */
  datatype Outcome = Outcome(cfg: Option<Value>, err: Option<Error>, cache: map<Ty, OptionId>)

  /** The error `Load` reports for the errors collected: none, or all of them joined and aggregated. */
  function LoadError(collected: seq<Error>): (e: Option<Error>)
    ensures e.None? <==> collected == []
  {
    if |collected| > 0 then Some(NewAggregatedLoadFailedError(Joined(collected))) else None
  }

  /** `Source.Load` with `os.Args[1:]` given as `args`. */
  function LoadOutcome(rt: Runtime, options: seq<OptionId>, cache: map<Ty, OptionId>,
                       cfg: Option<Value>, args: seq<string>, mode: Loader.LoadMode): (o: Outcome)
    requires CacheValid(rt, options, cache)
    ensures CacheValid(rt, options, o.cache)
  {
    match EnsureTargetStruct(cfg)
    case Failure(e) => Outcome(cfg, Some(e), cache)
    case Success(elem) =>
      var s := LoadStructValue(Ctx(rt, options, Parse(args), DefaultMode(mode)), elem.t, elem, cache);
      Outcome(Some(cfg.value.(target := Some(s.value))), LoadError(s.errs), s.cache)
  }

  /**
   * `Load` fails on a bad target with the target error, and otherwise exactly
   * when some field failed; the aggregated error then matches the aggregate
   * sentinel and every field error.
   */
  lemma LoadErrIffFieldErrors(rt: Runtime, options: seq<OptionId>, cache: map<Ty, OptionId>,
                              cfg: Option<Value>, args: seq<string>, mode: Loader.LoadMode)
    requires CacheValid(rt, options, cache)
    ensures var o := LoadOutcome(rt, options, cache, cfg, args, mode);
      && (EnsureTargetStruct(cfg).Failure? ==> o == Outcome(cfg, Some(EnsureTargetStruct(cfg).error), cache))
      && (EnsureTargetStruct(cfg).Success? ==>
            var elem := cfg.value.target.value;
            var s := LoadStructValue(Ctx(rt, options, Parse(args), DefaultMode(mode)), elem.t, elem, cache);
            && o.cfg == Some(cfg.value.(target := Some(s.value)))
            && (o.err.None? <==> s.errs == [])
            && (o.err.Some? ==>
                  && Is(o.err.value, SentinelErr(LoadAggregatedFailedS))
                  && forall i :: 0 <= i < |s.errs| ==> Is(o.err.value, s.errs[i])))
  {
    if EnsureTargetStruct(cfg).Success? {
      var elem := cfg.value.target.value;
      var s := LoadStructValue(Ctx(rt, options, Parse(args), DefaultMode(mode)), elem.t, elem, cache);
      if s.errs != [] {
        AggregateMatchesEach(s.errs);
      }
    }
  }

  /** The aggregated error matches its sentinel and each error it collects. */
  lemma AggregateMatchesEach(collected: seq<Error>)
    requires collected != []
    ensures var e := LoadError(collected).value;
      && Is(e, SentinelErr(LoadAggregatedFailedS))
      && forall i :: 0 <= i < |collected| ==> Is(e, collected[i])
  {
    var e := LoadError(collected).value;
    AggregatedLoadFailedErrorWraps(Joined(collected));
    forall i | 0 <= i < |collected| ensures Is(e, collected[i]) {
      assert Is(collected[i], collected[i]);
      IsTransitive(e, Joined(collected), collected[i]);
    }
  }

  class Source {
    const caster: Caster

    /** `NewSource`: a source with a fresh caster. */
    constructor (rt: Runtime)
      ensures fresh(caster) && caster.Valid() && caster.rt == rt && caster.options == Builtins && caster.byType == map[]
    {
      var c := new Caster(rt, []);
      assert Builtins + [] == Builtins;
      caster := c;
    }

    /** `processLeafField`: `leaf` is false, and nothing happens, for a field that is not a flag. */
    method ProcessLeafField(f: Field, fv: Value, args: map<string, string>, mode: Loader.LoadMode)
      returns (leaf: bool, nv: Value, errs: seq<Error>)
      requires caster.Valid() && CastsSafe(caster.rt, caster.options, f.ty)
      modifies caster
      ensures caster.Valid() && leaf == IsLeaf(f)
      ensures !leaf ==> nv == fv && errs == [] && caster.byType == old(caster.byType)
      ensures leaf ==> var s := LeafStep(Ctx(caster.rt, caster.options, args, mode), f, fv, old(caster.byType));
        nv == s.value && errs == s.errs && caster.byType == s.cache
    {
      var tagFlag := Tag(f, "flag");
      if tagFlag == "" || tagFlag == "-" {
        return false, fv, [];
      }
      var plan, name := DecideLeaf(f, fv, args, mode);
      match plan
      case Skip =>
        return true, fv, [];
      case Reject(e) =>
        return true, fv, [e];
      case Assign(raw) =>
        nv, errs := AssignLeaf(f, fv, raw, name, args, mode);
        return true, nv, errs;
    }

    /**
     * `processLeafField` up to the write: the lookup, the mode's verdict, the
     * empty-value rule and the default, with the flag name errors report.
     */
    method DecideLeaf(f: Field, fv: Value, args: map<string, string>, mode: Loader.LoadMode)
      returns (plan: Plan, name: string)
      ensures var found := LookupFlag(args, Tag(f, "flag"), Tag(f, "flagShort"));
        plan == LeafPlan(f.ty, fv, found, mode, Tag(f, "flagDefault")) && name == found.name
    {
      var tagFlag := Tag(f, "flag");
      var tagShort := Tag(f, "flagShort");
      var tagDefault := Tag(f, "flagDefault");
      var ok := tagFlag in args;
      var v := if ok then args[tagFlag] else "";
      var usedShort := false;
      if !ok && tagShort != "" {
        ok := tagShort in args;
        v := if ok then args[tagShort] else "";
        usedShort := ok;
      }
      name := if usedShort then tagShort else tagFlag;
      assert LookupFlag(args, tagFlag, tagShort) == Found(if ok then Some(v) else None, name);
      if !ShouldAssign(fv, ok, mode, tagDefault) {
        return Skip, name;
      }
      var raw := "";
      if ok {
        raw := v;
        if raw == "" {
          var t := f.ty;
          if KindOf(t) == Ptr {
            t := Elem(t);
          }
          if KindOf(t) == Bool {
            raw := "true";
          } else {
            var parseErr := ParseFailed(t, raw, EmptyValue);
            return Reject(WrapOne(name + "=" + raw, parseErr)), name;
          }
        }
      } else {
        if tagDefault == "" {
          return Skip, name;
        }
        raw := tagDefault;
      }
      return Assign(raw), name;
    }

    /** The write at the end of `processLeafField`: a failed `AssignFromString` leaves the field and adds its error. */
    method AssignLeaf(f: Field, fv: Value, raw: string, name: string, ghost args: map<string, string>, ghost mode: Loader.LoadMode)
      returns (nv: Value, errs: seq<Error>)
      requires caster.Valid() && CastsSafe(caster.rt, caster.options, f.ty)
      modifies caster
      ensures caster.Valid()
      ensures var s := AssignStep(Ctx(caster.rt, caster.options, args, mode), f, fv, raw, name, old(caster.byType));
        nv == s.value && errs == s.errs && caster.byType == s.cache
    {
      var r := AssignFromString(caster, f.ty, raw);
      if r.Failure? {
        return fv, [NewFlagsFieldFailedError(name, raw, f.name, r.error)];
      }
      return r.value, [];
    }

    /** One iteration of `loadStruct`'s loop. */
    method LoadField(f: Field, fv: Value, args: map<string, string>, mode: Loader.LoadMode)
      returns (nv: Value, errs: seq<Error>)
      requires caster.Valid() && CastsSafe(caster.rt, caster.options, f.ty)
      requires KindOf(f.ty) == Struct ==> DeepCastsSafe(caster.rt, caster.options, f.ty)
      requires KindOf(f.ty) == Ptr && KindOf(Elem(f.ty)) == Struct ==> DeepCastsSafe(caster.rt, caster.options, Elem(f.ty))
      modifies caster
      ensures caster.Valid()
      ensures var s := FieldStep(Ctx(caster.rt, caster.options, args, mode), f, fv, old(caster.byType));
        nv == s.value && errs == s.errs && caster.byType == s.cache
      decreases f.ty, 2, 0
    {
      if !f.exported {
        return fv, [];
      }
      var leaf;
      leaf, nv, errs := ProcessLeafField(f, fv, args, mode);
      if leaf {
        return;
      }
      if KindOf(f.ty) == Struct {
        nv, errs := LoadStruct(f.ty, fv, args, mode);
        return;
      }
      if KindOf(f.ty) == Ptr && KindOf(Elem(f.ty)) == Struct {
        var target := if fv.PtrV? && fv.target.Some? then fv.target.value else Zero(Elem(f.ty));
        var inner;
        inner, errs := LoadStruct(Elem(f.ty), target, args, mode);
        nv := PtrV(f.ty, Some(inner));
        return;
      }
    }

    /** `loadStruct`: every field of the struct value `v` of type `t`, in order. */
    method LoadStruct(t: Ty, v: Value, args: map<string, string>, mode: Loader.LoadMode)
      returns (out: Value, errs: seq<Error>)
      requires caster.Valid() && DeepCastsSafe(caster.rt, caster.options, t)
      modifies caster
      ensures caster.Valid()
      ensures var s := LoadStructValue(Ctx(caster.rt, caster.options, args, mode), t, v, old(caster.byType));
        out == s.value && errs == s.errs && caster.byType == s.cache
      decreases t, 1, 0
    {
      if !Walkable(t, v) {
        return v, [];
      }
      ghost var ctx := Ctx(caster.rt, caster.options, args, mode);
      var fields := v.fields;
      errs := [];
      for i := 0 to |fields|
        invariant caster.Valid() && |fields| == |v.fields|
        invariant LoadFields(ctx, t, i, Walk(fields, errs, caster.byType))
          == LoadFields(ctx, t, 0, Walk(v.fields, [], old(caster.byType)))
      {
        var f := t.shape.fields[i];
        assert f in t.shape.fields;
        ghost var before := Walk(fields, errs, caster.byType);
        var nv, ferrs := LoadField(f, fields[i], args, mode);
        fields := fields[i := nv];
        errs := errs + ferrs;
        assert Walk(fields, errs, caster.byType) ==
          (var s := FieldStep(ctx, f, before.fields[i], before.cache);
           Walk(before.fields[i := s.value], before.errs + s.errs, s.cache));
      }
      out := v.(fields := fields);
    }

    /** `Source.Load`, with `os.Args[1:]` given as `args`. */
    method Load(cfg: Option<Value>, args: seq<string>, mode: Loader.LoadMode) returns (out: Option<Value>, err: Option<Error>)
      requires caster.Valid()
      requires IsNonNilPointer(cfg) ==> DeepCastsSafe(caster.rt, caster.options, cfg.value.target.value.t)
      modifies caster
      ensures caster.Valid()
      ensures var o := LoadOutcome(caster.rt, caster.options, old(caster.byType), cfg, args, mode);
        out == o.cfg && err == o.err && caster.byType == o.cache
    {
      var m := DefaultMode(mode);
      var target := EnsureTargetStruct(cfg);
      if target.Failure? {
        return cfg, Some(target.error);
      }
      var elem := target.value;
      var argsMap := ParseArguments(args);
      var loaded, collected := LoadStruct(elem.t, elem, argsMap, m);
      out := Some(cfg.value.(target := Some(loaded)));
      if |collected| > 0 {
        err := Some(NewAggregatedLoadFailedError(Joined(collected)));
      } else {
        err := None;
      }
    }
  }
}
