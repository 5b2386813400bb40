/**
 * `setup/source/json-file`: fills a configuration struct from a JSON file.
 * The file is decoded twice: once into the raw members of its top-level
 * object, which tell which keys are present, and once into a fresh "shadow"
 * struct of the target's type. `copyStructValues` then copies each present
 * leaf of the shadow into the target, as the mode allows.
 *
 * Reading the file and decoding JSON are not modelled: `Load` is given
 * what they produced. The struct is passed by value and `Load` hands back
 * the configuration it leaves behind.
 */
module JsonFileSource {
  import opened Base
  import opened GoStrings
  import opened Reflect
  import opened Errors
  import Loader
  import opened Sourceutil

  /**
   * A member of a JSON object as `copyStructValues` sees it: an object,
   * whose members it can look into, or any other value (`null` included,
   * which decodes to a nil map).
   */
  datatype RawMember = Object(members: map<string, RawMember>) | Other

  /** The raw members of one JSON object level; `None` is a nil map. */
  type RawObject = Option<map<string, RawMember>>

  /**
   * `parseJSONTagName`: the name part of a `json` tag, up to its first
   * comma; "-" and "" give no name.
   */
  function ParseJSONTagName(tag: string): string
  {
    if tag == "" || tag == "-" then ""
    else
      var idx := IndexByte(tag, ',');
      if idx >= 0 then tag[..idx] else tag
  }

  /** The name is the tag up to its first comma: empty exactly for "", "-" and a tag starting with a comma. */
  lemma TagNameIsPrefix(tag: string)
    ensures var name := ParseJSONTagName(tag);
      && HasPrefix(tag, name) && ',' !in name
      && (name == "" <==> tag == "" || tag == "-" || tag[0] == ',')
      && (name != "" && name != tag ==> tag[|name|] == ',')
  {
  }

  /** Options after the name do not change it; a lone comma gives no name, and "-," names the key "-". */
  lemma TagNameExamples()
    ensures ParseJSONTagName("port,omitempty") == "port"
    ensures ParseJSONTagName(",omitempty") == ""
    ensures ParseJSONTagName("-,") == "-"
    ensures ParseJSONTagName("-") == ""
  {
    assert IndexByte("port,omitempty", ',') == 4;
    assert IndexByte("-,", ',') == 1;
  }

  /** A key is present when the object is not nil and has it. */
  predicate Present(raw: RawObject, name: string)
  {
    raw.Some? && name in raw.value
  }

  /** The members of the object under `name`, when there is one. */
  function ChildOf(raw: RawObject, name: string): RawObject
  {
    if Present(raw, name) && raw.value[name].Object? then Some(raw.value[name].members) else None
  }

  /** The struct a pointer field leads to: its target, or a new zero struct of type `t` for nil. */
  function Deref(v: Value, t: Ty): Value
  {
    if v.PtrV? && v.target.Some? then v.target.value else Zero(t)
  }

  /**
   * The copy ladder for a leaf of type `t`: the shadow value itself when
   * it has type `t`, a new pointer to it when `t` points to its type, what
   * it points to (zero for nil) when it points to a `t`; nothing otherwise.
   */
  function CopyLeaf(t: Ty, sv: Value): Option<Value>
  {
    if sv.t == t then Some(sv)
    else if KindOf(t) == Ptr && sv.t == Elem(t) then Some(PtrV(t, Some(sv)))
    else if KindOf(sv.t) == Ptr && Elem(sv.t) == t then Some(Deref(sv, t))
    else None
  }

  /**
   * A shadow of the field's own type is copied as it is; a shadow of its
   * element type is wrapped in a new pointer of the field's type; a nil
   * shadow pointer to the field's type gives the zero value; a shadow of any
   * other type is skipped.
   */
  lemma CopyLeafRungs(t: Ty, sv: Value)
    ensures sv.t == t ==> CopyLeaf(t, sv) == Some(sv)
    ensures KindOf(t) == Ptr && sv.t == Elem(t) && sv.t != t ==> CopyLeaf(t, sv) == Some(PtrV(t, Some(sv))) && CopyLeaf(t, sv).value.t == t
    ensures sv == PtrV(sv.t, None) && KindOf(sv.t) == Ptr && Elem(sv.t) == t && !(KindOf(t) == Ptr && sv.t == Elem(t)) && sv.t != t ==>
      CopyLeaf(t, sv) == Some(Zero(t)) && CopyLeaf(t, sv).value.t == t
    ensures CopyLeaf(t, sv).None? <==> sv.t != t && !(KindOf(t) == Ptr && sv.t == Elem(t)) && !(KindOf(sv.t) == Ptr && Elem(sv.t) == t)
  {
  }

  /** A struct value whose fields match those of the struct type `t`. */
  predicate Walkable(t: Ty, v: Value)
  {
    t.shape.StructOf? && v.StructV? && |v.fields| == |t.shape.fields|
  }

  /** A struct or a pointer to one. */
  predicate IsNested(t: Ty)
  {
    KindOf(t) == Struct || (KindOf(t) == Ptr && KindOf(Elem(t)) == Struct)
  }

  /** One iteration of `copyStructValues`' loop: the new value of the target field `dv`, given its shadow `sv`. */
  function FieldCopy(mode: Loader.LoadMode, f: Field, dv: Value, sv: Value, raw: RawObject): Value
    decreases f.ty, 4
  {
    if !f.exported then dv
    else
      var name := ParseJSONTagName(Tag(f, "json"));
      if name == "" then dv else NamedCopy(mode, f.ty, name, dv, sv, raw)
  }

  /** The rest of the iteration for a field of type `t` named `name`: its key looked up, then `KindCopy`. */
  function NamedCopy(mode: Loader.LoadMode, t: Ty, name: string, dv: Value, sv: Value, raw: RawObject): Value
    decreases t, 3
  {
    KindCopy(mode, t, dv, sv, Present(raw, name), ChildOf(raw, name))
  }

  /**
   * A named field of type `t`, given whether its key is present and the
   * members under it: walk into a nested struct, or copy a leaf.
   */
  function KindCopy(mode: Loader.LoadMode, t: Ty, dv: Value, sv: Value, present: bool, childRaw: RawObject): Value
    decreases t, 2
  {
    if KindOf(t) == Struct then CopyStructValue(mode, t, dv, sv, childRaw)
    else if KindOf(t) == Ptr && KindOf(Elem(t)) == Struct then
      PtrV(t, Some(CopyStructValue(mode, Elem(t), Deref(dv, Elem(t)), Deref(sv, Elem(t)), childRaw)))
    else LeafCopy(mode, t, dv, sv, present)
  }

  /** The end of `copyStructValues`' loop for a leaf of type `t`: the mode's verdict, then the copy ladder. */
  function LeafCopy(mode: Loader.LoadMode, t: Ty, dv: Value, sv: Value, present: bool): Value
  {
    if !ShouldAssign(dv, present, mode, "") then dv
    else match CopyLeaf(t, sv)
      case Some(v) => v
      case None => dv
  }

  /** `copyStructValues` on the target struct `dest` and its shadow, both of type `t`. */
  function CopyStructValue(mode: Loader.LoadMode, t: Ty, dest: Value, shadow: Value, raw: RawObject): Value
    decreases t, 1
  {
    if !Walkable(t, dest) || !Walkable(t, shadow) then dest
    else dest.(fields := CopyFields(mode, t, 0, dest.fields, shadow.fields, raw))
  }

  /** The fields of `t` from index `i` on, each copied in turn. */
  function CopyFields(mode: Loader.LoadMode, t: Ty, i: nat, fields: seq<Value>, shadows: seq<Value>, raw: RawObject): (r: seq<Value>)
    requires t.shape.StructOf? && |fields| == |t.shape.fields| == |shadows| && i <= |fields|
    ensures |r| == |fields|
    decreases t, 0, |fields| - i
  {
    if i == |fields| then fields
    else
      var f := t.shape.fields[i];
      assert f in t.shape.fields;
      CopyFields(mode, t, i + 1, fields[i := FieldCopy(mode, f, fields[i], shadows[i], raw)], shadows, raw)
  }

  /** A field `copyStructValues` leaves alone: unexported, without a JSON name, or a leaf whose key is absent. */
  predicate Untouched(f: Field, raw: RawObject)
  {
    !f.exported || ParseJSONTagName(Tag(f, "json")) == ""
    || (!IsNested(f.ty) && !Present(raw, ParseJSONTagName(Tag(f, "json"))))
  }

  /** A named leaf field goes straight to `LeafCopy` with its key's presence. */
  lemma NamedLeafCopy(mode: Loader.LoadMode, f: Field, dv: Value, sv: Value, raw: RawObject)
    requires f.exported && ParseJSONTagName(Tag(f, "json")) != "" && !IsNested(f.ty)
    ensures FieldCopy(mode, f, dv, sv, raw) == LeafCopy(mode, f.ty, dv, sv, Present(raw, ParseJSONTagName(Tag(f, "json"))))
  {
    var name := ParseJSONTagName(Tag(f, "json"));
    assert FieldCopy(mode, f, dv, sv, raw) == NamedCopy(mode, f.ty, name, dv, sv, raw);
    assert NamedCopy(mode, f.ty, name, dv, sv, raw) == KindCopy(mode, f.ty, dv, sv, Present(raw, name), ChildOf(raw, name));
  }

  /** An untouched field keeps its value, whatever the mode: an absent key never changes a leaf. */
  lemma UntouchedFieldCopy(mode: Loader.LoadMode, f: Field, dv: Value, sv: Value, raw: RawObject)
    requires Untouched(f, raw)
    ensures FieldCopy(mode, f, dv, sv, raw) == dv
  {
    var name := ParseJSONTagName(Tag(f, "json"));
    if f.exported && name != "" {
      assert NamedCopy(mode, f.ty, name, dv, sv, raw) == KindCopy(mode, f.ty, dv, sv, Present(raw, name), ChildOf(raw, name));
      NothingToAssign(dv, false, mode, "");
    }
  }

  /** The copy from `i` on keeps the fields before `i` and every untouched field. */
  lemma {:induction false} CopyKeepsField(mode: Loader.LoadMode, t: Ty, i: nat, fields: seq<Value>, shadows: seq<Value>, raw: RawObject, j: nat)
    requires t.shape.StructOf? && |fields| == |t.shape.fields| == |shadows| && i <= |fields|
    requires j < i || (j < |fields| && Untouched(t.shape.fields[j], raw))
    ensures CopyFields(mode, t, i, fields, shadows, raw)[j] == fields[j]
    decreases |fields| - i
  {
    if i < |fields| {
      var f := t.shape.fields[i];
      if j == i {
        UntouchedFieldCopy(mode, f, fields[i], shadows[i], raw);
      }
      CopyKeepsField(mode, t, i + 1, fields[i := FieldCopy(mode, f, fields[i], shadows[i], raw)], shadows, raw, j);
    }
  }

  /** Unexported fields, unnamed fields and leaves whose key is absent come out of `copyStructValues` as they went in. */
  lemma UntouchedFieldsKept(mode: Loader.LoadMode, t: Ty, dest: Value, shadow: Value, raw: RawObject, j: nat)
    requires Walkable(t, dest) && Walkable(t, shadow)
    requires j < |dest.fields| && Untouched(t.shape.fields[j], raw)
    ensures var r := CopyStructValue(mode, t, dest, shadow, raw);
      r.StructV? && |r.fields| == |dest.fields| && r.fields[j] == dest.fields[j]
  {
    CopyKeepsField(mode, t, 0, dest.fields, shadow.fields, raw, j);
  }

  /** The copy at index `i` is the field's own copy, whatever the other fields do. */
  lemma {:induction false} CopyWritesField(mode: Loader.LoadMode, t: Ty, i: nat, fields: seq<Value>, shadows: seq<Value>, raw: RawObject, j: nat)
    requires t.shape.StructOf? && |fields| == |t.shape.fields| == |shadows| && i <= j < |fields|
    ensures CopyFields(mode, t, i, fields, shadows, raw)[j] == FieldCopy(mode, t.shape.fields[j], fields[j], shadows[j], raw)
    decreases |fields| - i
  {
    var f := t.shape.fields[i];
    var next := fields[i := FieldCopy(mode, f, fields[i], shadows[i], raw)];
    if i == j {
      CopyKeepsField(mode, t, i + 1, next, shadows, raw, j);
    } else {
      CopyWritesField(mode, t, i + 1, next, shadows, raw, j);
    }
  }

  /** Each field of the copied struct is that field's `FieldCopy` from the target and the shadow. */
  lemma CopyIsFieldwise(mode: Loader.LoadMode, t: Ty, dest: Value, shadow: Value, raw: RawObject, j: nat)
    requires Walkable(t, dest) && Walkable(t, shadow) && j < |dest.fields|
    ensures var r := CopyStructValue(mode, t, dest, shadow, raw);
      r.StructV? && |r.fields| == |dest.fields|
      && r.fields[j] == FieldCopy(mode, t.shape.fields[j], dest.fields[j], shadow.fields[j], raw)
  {
    CopyWritesField(mode, t, 0, dest.fields, shadow.fields, raw, j);
  }

  /**
   * In Override mode a named leaf whose shadow has the field's type takes
   * the shadow's value exactly when its key is present.
   */
  lemma OverrideCopiesPresentLeaves(f: Field, dv: Value, sv: Value, raw: RawObject)
    requires f.exported && ParseJSONTagName(Tag(f, "json")) != "" && !IsNested(f.ty) && sv.t == f.ty
    ensures FieldCopy(Loader.ModeOverride, f, dv, sv, raw) == if Present(raw, ParseJSONTagName(Tag(f, "json"))) then sv else dv
  {
    NamedLeafCopy(Loader.ModeOverride, f, dv, sv, raw);
  }

  /** In FillMissing mode a leaf that already holds a non-zero value keeps it. */
  lemma FillMissingKeepsSetLeaves(f: Field, dv: Value, sv: Value, raw: RawObject)
    requires !IsNested(f.ty) && !IsZero(dv)
    ensures FieldCopy(Loader.ModeFillMissing, f, dv, sv, raw) == dv
  {
    if f.exported && ParseJSONTagName(Tag(f, "json")) != "" {
      NamedLeafCopy(Loader.ModeFillMissing, f, dv, sv, raw);
    }
  }

  /** A nested struct is always walked into, present or not, with the members of its own object. */
  lemma NestedStructAlwaysWalked(mode: Loader.LoadMode, f: Field, dv: Value, sv: Value, raw: RawObject)
    requires f.exported && ParseJSONTagName(Tag(f, "json")) != "" && KindOf(f.ty) == Struct
    ensures var name := ParseJSONTagName(Tag(f, "json"));
      FieldCopy(mode, f, dv, sv, raw) == CopyStructValue(mode, f.ty, dv, sv, ChildOf(raw, name))
      && (!Present(raw, name) ==> ChildOf(raw, name) == None)
  {
    var name := ParseJSONTagName(Tag(f, "json"));
    assert NamedCopy(mode, f.ty, name, dv, sv, raw) == KindCopy(mode, f.ty, dv, sv, Present(raw, name), ChildOf(raw, name));
  }

  /** A nil pointer to a struct is allocated even when its key is absent, and filled from the shadow's struct. */
  lemma NilStructPointerAllocated(mode: Loader.LoadMode, f: Field, sv: Value, raw: RawObject)
    requires f.exported && ParseJSONTagName(Tag(f, "json")) != "" && KindOf(f.ty) == Ptr && KindOf(Elem(f.ty)) == Struct
    ensures var name := ParseJSONTagName(Tag(f, "json"));
      FieldCopy(mode, f, PtrV(f.ty, None), sv, raw)
        == PtrV(f.ty, Some(CopyStructValue(mode, Elem(f.ty), Zero(Elem(f.ty)), Deref(sv, Elem(f.ty)), ChildOf(raw, name))))
  {
    var name := ParseJSONTagName(Tag(f, "json"));
    assert NamedCopy(mode, f.ty, name, PtrV(f.ty, None), sv, raw) == KindCopy(mode, f.ty, PtrV(f.ty, None), sv, Present(raw, name), ChildOf(raw, name));
    assert KindOf(f.ty) != Struct;
  }

  /** Below an absent key nothing is present: every leaf of a struct walked with a nil object keeps its value. */
  lemma AbsentObjectKeepsLeaves(mode: Loader.LoadMode, t: Ty, dest: Value, shadow: Value, j: nat)
    requires Walkable(t, dest) && Walkable(t, shadow)
    requires j < |dest.fields| && !IsNested(t.shape.fields[j].ty)
    ensures CopyStructValue(mode, t, dest, shadow, None).fields[j] == dest.fields[j]
  {
    UntouchedFieldsKept(mode, t, dest, shadow, None, j);
  }

  /** What reading and decoding the file gave: the first failure, or the top-level members and the decoded shadow struct. */
  datatype Decoding =
    | ReadFailed(err: Error)
    | RootDecodeFailed(err: Error)
    | ShadowDecodeFailed(err: Error)
    | Decoded(root: RawObject, shadow: Value)

  /** What `Load` leaves: the configuration and the error. */
  datatype Outcome = Outcome(cfg: Option<Value>, err: Option<Error>)

  /** `Source.Load`, given what reading and decoding the file produced. */
  function LoadOutcome(mode: Loader.LoadMode, cfg: Option<Value>, input: Decoding): Outcome
  {
    match EnsureTargetStruct(cfg)
    case Failure(e) => Outcome(cfg, Some(e))
    case Success(elem) =>
      if !input.Decoded? then Outcome(cfg, Some(NewAggregatedLoadFailedError(input.err)))
      else Outcome(Some(cfg.value.(target := Some(CopyStructValue(mode, elem.t, elem, input.shadow, input.root)))), None)
  }

  /**
   * `Load` fails on a bad target with the target error and on a read or
   * decode failure with that failure aggregated, leaving the configuration
   * alone; once the file is decoded it always succeeds.
   */
  lemma LoadResultRules(mode: Loader.LoadMode, cfg: Option<Value>, input: Decoding)
    ensures var o := LoadOutcome(mode, cfg, input);
      && (o.err.None? <==> EnsureTargetStruct(cfg).Success? && input.Decoded?)
      && (EnsureTargetStruct(cfg).Failure? ==> o == Outcome(cfg, Some(EnsureTargetStruct(cfg).error)))
      && (EnsureTargetStruct(cfg).Success? && !input.Decoded? ==>
            && o.cfg == cfg
            && Is(o.err.value, SentinelErr(LoadAggregatedFailedS)) && Is(o.err.value, input.err)
            && As(o.err.value, AggregatedLoadFailedK) == Some(AggregatedLoadFailed(input.err)))
  {
    if EnsureTargetStruct(cfg).Success? && !input.Decoded? {
      AggregatedLoadFailedErrorWraps(input.err);
    }
  }

  class Source {
    const path: string
    const mode: Loader.LoadMode

    /** `NewSource`: the mode is fixed here, 0 standing for Override. */
    constructor (path: string, mode: Loader.LoadMode)
      ensures this.path == path && this.mode == DefaultMode(mode) && this.mode != 0
    {
      this.path := path;
      this.mode := DefaultMode(mode);
    }

    /** One iteration of `copyStructValues`' loop. */
    static method CopyField(mode: Loader.LoadMode, f: Field, dv: Value, sv: Value, raw: RawObject) returns (r: Value)
      ensures r == FieldCopy(mode, f, dv, sv, raw)
      decreases f.ty, 4
    {
      if !f.exported {
        return dv;
      }
      var name := ParseJSONTagName(Tag(f, "json"));
      if name == "" {
        return dv;
      }
      r := CopyNamedField(mode, f.ty, name, dv, sv, raw);
    }

    /** The rest of the iteration for a field with a JSON name. */
    static method CopyNamedField(mode: Loader.LoadMode, t: Ty, name: string, dv: Value, sv: Value, raw: RawObject) returns (r: Value)
      ensures r == NamedCopy(mode, t, name, dv, sv, raw)
      decreases t, 3
    {
      var present, childRaw := LookupMember(raw, name);
      r := CopyByKind(mode, t, dv, sv, present, childRaw);
    }

    /** A nested struct is walked into, a pointer to one allocated and walked into, anything else copied as a leaf. */
    static method CopyByKind(mode: Loader.LoadMode, t: Ty, dv: Value, sv: Value, present: bool, childRaw: RawObject) returns (r: Value)
      ensures r == KindCopy(mode, t, dv, sv, present, childRaw)
      decreases t, 2
    {
      if KindOf(t) == Struct {
        r := CopyStructValues(mode, t, dv, sv, childRaw);
      } else if KindOf(t) == Ptr && KindOf(Elem(t)) == Struct {
        r := CopyStructPointer(mode, t, dv, sv, childRaw);
      } else {
        r := CopyLeafField(mode, t, dv, sv, present);
      }
    }

    /** A pointer to a struct: allocated when nil, then walked into alongside the shadow's struct (a zero one when nil). */
    static method CopyStructPointer(mode: Loader.LoadMode, t: Ty, dv: Value, sv: Value, childRaw: RawObject) returns (r: Value)
      requires KindOf(t) == Ptr && KindOf(Elem(t)) == Struct
      ensures r == PtrV(t, Some(CopyStructValue(mode, Elem(t), Deref(dv, Elem(t)), Deref(sv, Elem(t)), childRaw)))
      decreases t, 1
    {
      var target := if dv.PtrV? && dv.target.Some? then dv.target.value else Zero(Elem(t));
      var shadowStruct := if sv.PtrV? && sv.target.Some? then sv.target.value else Zero(Elem(t));
      var inner := CopyStructValues(mode, Elem(t), target, shadowStruct, childRaw);
      return PtrV(t, Some(inner));
    }

    /** Whether the key is present, and the members of the object under it when it decodes as one. */
    static method LookupMember(raw: RawObject, name: string) returns (present: bool, childRaw: RawObject)
      ensures present == Present(raw, name) && childRaw == ChildOf(raw, name)
    {
      present := raw.Some?;
      childRaw := None;
      if present {
        var ok := name in raw.value;
        present := ok;
        if ok && raw.value[name].Object? {
          childRaw := Some(raw.value[name].members);
        }
      }
    }

    /** The end of `copyStructValues`' loop for a leaf: skipped unless the mode allows, then the copy ladder. */
    static method CopyLeafField(mode: Loader.LoadMode, t: Ty, dv: Value, sv: Value, present: bool) returns (r: Value)
      ensures r == LeafCopy(mode, t, dv, sv, present)
    {
      if !ShouldAssign(dv, present, mode, "") {
        return dv;
      }
      if t == sv.t {
        return sv;
      }
      if KindOf(t) == Ptr && sv.t == Elem(t) {
        return PtrV(t, Some(sv));
      }
      if KindOf(sv.t) == Ptr && Elem(sv.t) == t {
        if !(sv.PtrV? && sv.target.Some?) {
          return Zero(t);
        }
        return sv.target.value;
      }
      return dv;
    }

    /** `copyStructValues`: every field of `dest`, copied from `shadow` as the keys present in `raw` and the mode allow. */
    static method CopyStructValues(mode: Loader.LoadMode, t: Ty, dest: Value, shadow: Value, raw: RawObject) returns (out: Value)
      ensures out == CopyStructValue(mode, t, dest, shadow, raw)
      decreases t, 1
    {
      if !Walkable(t, dest) || !Walkable(t, shadow) {
        return dest;
      }
      var fields := dest.fields;
      for i := 0 to |fields|
        invariant |fields| == |dest.fields|
        invariant CopyFields(mode, t, i, fields, shadow.fields, raw) == CopyFields(mode, t, 0, dest.fields, shadow.fields, raw)
      {
        var f := t.shape.fields[i];
        assert f in t.shape.fields;
        var v := CopyField(mode, f, fields[i], shadow.fields[i], raw);
        fields := fields[i := v];
      }
      out := dest.(fields := fields);
    }

    /** `Source.Load`, with the file read and decoded into `input`. */
    method Load(cfg: Option<Value>, input: Decoding) returns (out: Option<Value>, err: Option<Error>)
      ensures Outcome(out, err) == LoadOutcome(mode, cfg, input)
    {
      var target := EnsureTargetStruct(cfg);
      if target.Failure? {
        return cfg, Some(target.error);
      }
      var elem := target.value;
      match input
      case ReadFailed(readErr) =>
        return cfg, Some(NewAggregatedLoadFailedError(readErr));
      case RootDecodeFailed(unmarshalErr) =>
        return cfg, Some(NewAggregatedLoadFailedError(unmarshalErr));
      case ShadowDecodeFailed(decodeErr) =>
        return cfg, Some(NewAggregatedLoadFailedError(decodeErr));
      case Decoded(root, shadow) =>
        var copied := CopyStructValues(mode, elem.t, elem, shadow, root);
        return Some(cfg.value.(target := Some(copied))), None;
    }
  }
}
