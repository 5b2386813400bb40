/**
 * Every error value the population engine creates or passes on, with Go's
 * `Error()` text, the `Unwrap` structure, and `errors.Is` / `errors.As` /
 * `errors.Unwrap` / `errors.Join` over that structure. It covers the cast
 * errors of the typecast package and the sentinel-wrapped typed errors of
 * the loader package.
 */
module Errors {
  import opened Base
  import opened GoStrings
  import Strconv
  import opened Reflect

  /** The four sentinels of the loader package, each an `errors.New` value. */
  datatype Sentinel = LoaderSourceFailedS | LoadAggregatedFailedS | InvalidTargetS | SourceFieldFailedS

  function SentinelMessage(s: Sentinel): string
  {
    match s
    case LoaderSourceFailedS => "loader source failed"
    case LoadAggregatedFailedS => "aggregated load failed"
    case InvalidTargetS => "invalid target"
    case SourceFieldFailedS => "source field failed"
  }

  datatype Error =
      /** `typecast.ErrEmptyValue`. */
    | EmptyValue
      /** A `*strconv.NumError`. */
    | NumErr(ne: Strconv.NumError)
      /** The `Err` a `*strconv.NumError` wraps (`strconv.ErrSyntax`, `strconv.ErrRange`, a bit-size error). */
    | NumCause(kind: Strconv.NumErrorKind)
      /** `typecast.ErrUnsupportedType`. */
    | UnsupportedType(ty: Ty)
      /** `typecast.ErrParseFailed`: target type, raw value, cause. */
    | ParseFailed(ty: Ty, value: string, cause: Error)
      /** An `errors.New` value, or an error made outside the engine, known by its message. */
    | Plain(msg: string)
      /** One of the loader package's sentinels. */
    | SentinelErr(sentinel: Sentinel)
      /** `*pkg.LoaderSourceFailedError`. */
    | LoaderSourceFailed(index: int, sourceName: string, original: Error)
      /** `*pkg.AggregatedLoadFailedError`. */
    | AggregatedLoadFailed(aggregated: Error)
      /** `*pkg.InvalidTargetError`. */
    | InvalidTarget(reason: string)
      /** `*pkg.SourceFieldFailedError`. */
    | SourceFieldFailed(sourceName: string, key: string, value: string, path: string, original: Error)
      /** `fmt.Errorf("%w: %w", first, second)`. */
    | WrapTwo(first: Error, second: Error)
      /** `fmt.Errorf(prefix + ": %w", inner)`. */
    | WrapOne(prefix: string, inner: Error)
      /** `errors.Join` of at least one error. */
    | Joined(errs: seq<Error>)

  /** `error.Error()`. */
  function Message(e: Error): string
    decreases e
  {
    match e
    case EmptyValue => "empty value"
    case NumErr(ne) => Strconv.NumErrorMessage(ne)
    case NumCause(k) => Strconv.KindMessage(k)
    case UnsupportedType(t) => "unsupported type " + TypeString(t)
    case ParseFailed(t, v, c) => "parse failed for type " + TypeString(t) + " with value \"" + v + "\": " + Message(c)
    case Plain(m) => m
    case SentinelErr(s) => SentinelMessage(s)
    case LoaderSourceFailed(i, n, o) => "source at index " + IntToString(i) + " named " + n + " failed: " + Message(o)
    case AggregatedLoadFailed(a) => "aggregated load failed: " + Message(a)
    case InvalidTarget(r) => "invalid target: " + r
    case SourceFieldFailed(src, k, v, p, o) =>
      if src == "env" then "env " + k + "=" + v + " field " + p + ": " + Message(o)
      else if src == "flags" then
        if p != "" then "flags " + k + "=" + v + " field " + p + ": " + Message(o)
        else "flags " + k + "=" + v + ": " + Message(o)
      else if src == "dict" then "dict field " + p + ": " + Message(o)
      else "json field " + p + ": " + Message(o)
    case WrapTwo(a, b) => Message(a) + ": " + Message(b)
    case WrapOne(p, i) => p + ": " + Message(i)
    case Joined(es) => JoinedMessage(es)
  }

  /** The text of `errors.Join`: the messages one per line. */
  function JoinedMessage(es: seq<Error>): string
    decreases es, 0
  {
    if |es| == 0 then ""
    else if |es| == 1 then Message(es[0])
    else Message(es[0]) + "\n" + JoinedMessage(es[1..])
  }

  /** `errors.Join` over a list of non-nil errors: nil for an empty list. */
  function Join(errs: seq<Error>): (r: Option<Error>)
    ensures r.None? <==> errs == []
    ensures r.Some? ==> Unwraps(r.value) == errs
  {
    if errs == [] then None else Some(Joined(errs))
  }

  /** Every error `e` wraps, whether through `Unwrap() error` or `Unwrap() []error`, in order. */
  function Unwraps(e: Error): seq<Error>
  {
    match e
    case NumErr(ne) => [NumCause(ne.err)]
    case ParseFailed(_, _, c) => [c]
    case LoaderSourceFailed(_, _, o) => [o]
    case AggregatedLoadFailed(a) => [a]
    case SourceFieldFailed(_, _, _, _, o) => [o]
    case WrapTwo(a, b) => [a, b]
    case WrapOne(_, i) => [i]
    case Joined(es) => es
    case _ => []
  }

  /** `errors.Unwrap`: only a single-error `Unwrap` counts; a multi-error wrapper gives nil. */
  function UnwrapOne(e: Error): (r: Option<Error>)
    ensures r.Some? ==> Unwraps(e) == [r.value]
  {
    match e
    case NumErr(ne) => Some(NumCause(ne.err))
    case ParseFailed(_, _, c) => Some(c)
    case LoaderSourceFailed(_, _, o) => Some(o)
    case AggregatedLoadFailed(a) => Some(a)
    case SourceFieldFailed(_, _, _, _, o) => Some(o)
    case WrapOne(_, i) => Some(i)
    case _ => None
  }

  /** `errors.Is`: `target` is `e` itself or is reachable from it through the unwrap tree. */
  predicate Is(e: Error, target: Error)
    decreases e
  {
    e == target ||
    match e
    case NumErr(ne) => NumCause(ne.err) == target
    case ParseFailed(_, _, c) => Is(c, target)
    case LoaderSourceFailed(_, _, o) => Is(o, target)
    case AggregatedLoadFailed(a) => Is(a, target)
    case SourceFieldFailed(_, _, _, _, o) => Is(o, target)
    case WrapTwo(a, b) => Is(a, target) || Is(b, target)
    case WrapOne(_, i) => Is(i, target)
    case Joined(es) => exists i :: 0 <= i < |es| && Is(es[i], target)
    case _ => false
  }

  /** `errors.Is` holds of every error that `e` wraps directly. */
  lemma IsThroughUnwraps(e: Error, target: Error)
    ensures (exists i :: 0 <= i < |Unwraps(e)| && Is(Unwraps(e)[i], target)) ==> Is(e, target)
  {
    if e.Joined? {
    } else if e.NumErr? {
      if exists i :: 0 <= i < |Unwraps(e)| && Is(Unwraps(e)[i], target) {
        assert Is(NumCause(e.ne.err), target);
      }
    }
  }

  /** The kinds of typed error that `errors.As` is asked for in the library and its callers. */
  datatype ErrorKind =
    | ParseFailedK | UnsupportedTypeK | LoaderSourceFailedK | AggregatedLoadFailedK
    | InvalidTargetK | SourceFieldFailedK | NumErrorK

  predicate OfKind(e: Error, k: ErrorKind)
  {
    match k
    case ParseFailedK => e.ParseFailed?
    case UnsupportedTypeK => e.UnsupportedType?
    case LoaderSourceFailedK => e.LoaderSourceFailed?
    case AggregatedLoadFailedK => e.AggregatedLoadFailed?
    case InvalidTargetK => e.InvalidTarget?
    case SourceFieldFailedK => e.SourceFieldFailed?
    case NumErrorK => e.NumErr?
  }

  /** `errors.As`: the first error of kind `k` in a depth-first, left-to-right walk of the unwrap tree. */
  function As(e: Error, k: ErrorKind): (r: Option<Error>)
    ensures r.Some? ==> OfKind(r.value, k) && Is(e, r.value)
    ensures OfKind(e, k) ==> r == Some(e)
    decreases e, 1
  {
    if OfKind(e, k) then Some(e)
    else match e
      case NumErr(ne) => if OfKind(NumCause(ne.err), k) then Some(NumCause(ne.err)) else None
      case ParseFailed(_, _, c) => As(c, k)
      case LoaderSourceFailed(_, _, o) => As(o, k)
      case AggregatedLoadFailed(a) => As(a, k)
      case SourceFieldFailed(_, _, _, _, o) => As(o, k)
      case WrapTwo(a, b) => if As(a, k).Some? then As(a, k) else As(b, k)
      case WrapOne(_, i) => As(i, k)
      case Joined(es) => AsFirst(es, k)
      case _ => None
  }

  /** `errors.As` over the branches of a multi-error wrapper, tried in order. */
  function AsFirst(es: seq<Error>, k: ErrorKind): (r: Option<Error>)
    ensures r.Some? ==> OfKind(r.value, k) && exists i :: 0 <= i < |es| && Is(es[i], r.value)
    decreases es, 0
  {
    if es == [] then None
    else if As(es[0], k).Some? then As(es[0], k)
    else
      var r := AsFirst(es[1..], k);
      assert r.Some? ==> exists i :: 1 <= i < |es| && Is(es[i], r.value);
      r
  }

  /** The typecast errors' messages, as the library states them. */
  lemma TypecastMessages(t: Ty, value: string, cause: Error)
    ensures Message(EmptyValue) == "empty value"
    ensures Message(UnsupportedType(t)) == "unsupported type " + TypeString(t)
    ensures Message(ParseFailed(t, value, cause)) ==
      "parse failed for type " + TypeString(t) + " with value \"" + value + "\": " + Message(cause)
    ensures UnwrapOne(ParseFailed(t, value, cause)) == Some(cause)
    ensures Is(ParseFailed(t, value, cause), cause)
  {
  }

  /** `NewLoaderSourceFailedError`: the sentinel and the typed error, joined by `%w: %w`. */
  function NewLoaderSourceFailedError(index: int, name: string, original: Error): Error
  {
    WrapTwo(SentinelErr(LoaderSourceFailedS), LoaderSourceFailed(index, name, original))
  }

  lemma LoaderSourceFailedErrorWraps(index: int, name: string, original: Error)
    ensures var r := NewLoaderSourceFailedError(index, name, original);
      && Is(r, SentinelErr(LoaderSourceFailedS)) && Is(r, original)
      && As(r, LoaderSourceFailedK) == Some(LoaderSourceFailed(index, name, original))
      && Message(r) ==
        "loader source failed" + ": " + ("source at index " + IntToString(index) + " named " + name + " failed: " + Message(original))
  {
  }

  /** `NewAggregatedLoadFailedError`. */
  function NewAggregatedLoadFailedError(aggregated: Error): Error
  {
    WrapTwo(SentinelErr(LoadAggregatedFailedS), AggregatedLoadFailed(aggregated))
  }

  lemma AggregatedLoadFailedErrorWraps(aggregated: Error)
    ensures var r := NewAggregatedLoadFailedError(aggregated);
      && Is(r, SentinelErr(LoadAggregatedFailedS)) && Is(r, aggregated)
      && As(r, AggregatedLoadFailedK) == Some(AggregatedLoadFailed(aggregated))
      && Message(r) == "aggregated load failed" + ": " + ("aggregated load failed: " + Message(aggregated))
  {
  }

  /** `NewInvalidTargetError`. */
  function NewInvalidTargetError(reason: string): Error
  {
    WrapTwo(SentinelErr(InvalidTargetS), InvalidTarget(reason))
  }

  lemma InvalidTargetErrorWraps(reason: string)
    ensures var r := NewInvalidTargetError(reason);
      && Is(r, SentinelErr(InvalidTargetS))
      && As(r, InvalidTargetK) == Some(InvalidTarget(reason))
      && Message(r) == "invalid target" + ": " + ("invalid target: " + reason)
  {
  }

  /** `NewEnvFieldFailedError`. */
  function NewEnvFieldFailedError(key: string, value: string, path: string, original: Error): Error
  {
    WrapTwo(SentinelErr(SourceFieldFailedS), SourceFieldFailed("env", key, value, path, original))
  }

  lemma EnvFieldFailedErrorWraps(key: string, value: string, path: string, original: Error)
    ensures var r := NewEnvFieldFailedError(key, value, path, original);
      && Is(r, SentinelErr(SourceFieldFailedS)) && Is(r, original)
      && As(r, SourceFieldFailedK) == Some(SourceFieldFailed("env", key, value, path, original))
      && Message(r) == "source field failed" + ": " + ("env " + key + "=" + value + " field " + path + ": " + Message(original))
  {
  }

  /** `NewDictFieldFailedError`. */
  function NewDictFieldFailedError(path: string, original: Error): Error
  {
    WrapTwo(SentinelErr(SourceFieldFailedS), SourceFieldFailed("dict", "", "", path, original))
  }

  lemma DictFieldFailedErrorWraps(path: string, original: Error)
    ensures var r := NewDictFieldFailedError(path, original);
      && Is(r, SentinelErr(SourceFieldFailedS)) && Is(r, original)
      && As(r, SourceFieldFailedK) == Some(SourceFieldFailed("dict", "", "", path, original))
      && Message(r) == "source field failed" + ": " + ("dict field " + path + ": " + Message(original))
  {
  }

  /** `NewFlagsFieldFailedError`. */
  function NewFlagsFieldFailedError(name: string, value: string, path: string, original: Error): Error
  {
    WrapTwo(SentinelErr(SourceFieldFailedS), SourceFieldFailed("flags", name, value, path, original))
  }

  /** The "field" part of the flags message is dropped when the path is empty. */
  lemma FlagsFieldFailedErrorWraps(name: string, value: string, path: string, original: Error)
    ensures var r := NewFlagsFieldFailedError(name, value, path, original);
      && Is(r, SentinelErr(SourceFieldFailedS)) && Is(r, original)
      && As(r, SourceFieldFailedK) == Some(SourceFieldFailed("flags", name, value, path, original))
      && (path != "" ==>
        Message(r) == "source field failed" + ": " + ("flags " + name + "=" + value + " field " + path + ": " + Message(original)))
      && (path == "" ==>
        Message(r) == "source field failed" + ": " + ("flags " + name + "=" + value + ": " + Message(original)))
  {
  }

  /** `NewJSONFieldFailedError`. */
  function NewJSONFieldFailedError(path: string, original: Error): Error
  {
    WrapTwo(SentinelErr(SourceFieldFailedS), SourceFieldFailed("json", "", "", path, original))
  }

  lemma JSONFieldFailedErrorWraps(path: string, original: Error)
    ensures var r := NewJSONFieldFailedError(path, original);
      && Is(r, SentinelErr(SourceFieldFailedS)) && Is(r, original)
      && As(r, SourceFieldFailedK) == Some(SourceFieldFailed("json", "", "", path, original))
      && Message(r) == "source field failed" + ": " + ("json field " + path + ": " + Message(original))
  {
  }

  /** Any source name other than env, flags and dict is rendered in the json format. */
  lemma SourceFieldFailedFallback(src: string, key: string, value: string, path: string, original: Error)
    requires src != "env" && src != "flags" && src != "dict"
    ensures Message(SourceFieldFailed(src, key, value, path, original)) == "json field " + path + ": " + Message(original)
  {
  }

  /** Every typed error of the loader package unwraps (single-error `Unwrap`) to the error it carries. */
  lemma TypedErrorsUnwrap(index: int, name: string, original: Error, src: string, key: string, value: string, path: string)
    ensures UnwrapOne(LoaderSourceFailed(index, name, original)) == Some(original)
    ensures UnwrapOne(AggregatedLoadFailed(original)) == Some(original)
    ensures UnwrapOne(SourceFieldFailed(src, key, value, path, original)) == Some(original)
    ensures UnwrapOne(NewLoaderSourceFailedError(index, name, original)) == None
  {
  }

  /** Wrapping in a sentinel's constructor never hides an error: anything `Is` of the original is `Is` of the wrapper. */
  lemma {:induction false} IsTransitive(e: Error, mid: Error, target: Error)
    requires Is(e, mid) && Is(mid, target)
    ensures Is(e, target)
    decreases e
  {
    if e != mid {
      match e
      case NumErr(ne) =>
        assert mid == NumCause(ne.err);
      case ParseFailed(_, _, c) => IsTransitive(c, mid, target);
      case LoaderSourceFailed(_, _, o) => IsTransitive(o, mid, target);
      case AggregatedLoadFailed(a) => IsTransitive(a, mid, target);
      case SourceFieldFailed(_, _, _, _, o) => IsTransitive(o, mid, target);
      case WrapTwo(a, b) =>
        if Is(a, mid) { IsTransitive(a, mid, target); } else { IsTransitive(b, mid, target); }
      case WrapOne(_, i) => IsTransitive(i, mid, target);
      case Joined(es) =>
        var i :| 0 <= i < |es| && Is(es[i], mid);
        IsTransitive(es[i], mid, target);
    }
  }
}
