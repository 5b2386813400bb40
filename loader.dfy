/**
 * `pkg.Loader`: runs its sources in order against one configuration target,
 * never stopping at a failure, and reports every failure, tagged with the
 * index and type name of its source, in one aggregated error.
 *
 * The target is passed by value: a source receives the configuration left
 * by the sources before it and hands back the one it leaves behind.
 */
module Loader {
  import opened Base
  import opened Reflect
  import opened Errors

  /** `pkg.LoadMode`, an `int`. */
  type LoadMode = int

  const ModeOverride: LoadMode := 1
  const ModeFillMissing: LoadMode := 2

  /** What a source's `Load` leaves: the configuration afterwards and its error, if any. */
  datatype Loaded = Loaded(cfg: Value, err: Option<Error>)

  /**
   * A `pkg.Source`: `name` is what `fmt.Sprintf("%T", source)` prints for it
   * and `load` is its `Load` method.
   */
  datatype Source = Source(name: string, load: (Value, LoadMode) -> Loaded)

  /** The configuration and the wrapped failures collected so far. */
  datatype Progress = Progress(cfg: Value, failures: seq<Error>)

  /** The `i`-th source run on what the ones before it left. */
  function Advance(sources: seq<Source>, mode: LoadMode, i: nat, p: Progress): Progress
    requires i < |sources|
  {
    var out := sources[i].load(p.cfg, mode);
    Progress(out.cfg, p.failures + FailureOf(i, sources[i].name, out.err))
  }

  /** The sources from index `i` on, run in order from `p`. */
  function RunFrom(sources: seq<Source>, mode: LoadMode, i: nat, p: Progress): Progress
    requires i <= |sources|
    decreases |sources| - i
  {
    if i == |sources| then p else RunFrom(sources, mode, i + 1, Advance(sources, mode, i, p))
  }

  /** The failure a source at index `i` contributes: its error wrapped with the index and name. */
  function FailureOf(i: nat, name: string, err: Option<Error>): (r: seq<Error>)
    ensures err.None? <==> r == []
    ensures err.Some? ==> r == [NewLoaderSourceFailedError(i, name, err.value)]
  {
    if err.Some? then [NewLoaderSourceFailedError(i, name, err.value)] else []
  }

  /** The error `Loader.Load` returns for the collected failures. */
  function Outcome(failures: seq<Error>): (r: Option<Error>)
    ensures r.None? <==> failures == []
    ensures r.Some? ==> r.value == NewAggregatedLoadFailedError(Joined(failures))
  {
    if failures == [] then None else Some(NewAggregatedLoadFailedError(Joined(failures)))
  }

  /** The mode the sources see: 0 stands for `ModeOverride`. */
  function EffectiveMode(mode: LoadMode): (m: LoadMode)
    ensures m != 0
    ensures mode == 0 ==> m == ModeOverride
    ensures mode != 0 ==> m == mode
  {
    if mode == 0 then ModeOverride else mode
  }

  /** The whole run of `Loader.Load`. */
  function Run(sources: seq<Source>, cfg: Value, mode: LoadMode): Progress
  {
    RunFrom(sources, EffectiveMode(mode), 0, Progress(cfg, []))
  }

  class Loader {
    const sources: seq<Source>

    /** `NewLoader`. */
    constructor (sources: seq<Source>)
      ensures this.sources == sources
    {
      this.sources := sources;
    }

    /** `Loader.Load`: every source once, in order, then the aggregated failures. */
    method Load(cfg: Value, mode: LoadMode) returns (result: Value, err: Option<Error>)
      ensures result == Run(sources, cfg, mode).cfg
      ensures err == Outcome(Run(sources, cfg, mode).failures)
    {
      var m := mode;
      if m == 0 {
        m := ModeOverride;
      }
      var current := cfg;
      var collected: seq<Error> := [];
      for index := 0 to |sources|
        invariant m == EffectiveMode(mode)
        invariant RunFrom(sources, m, index, Progress(current, collected)) == Run(sources, cfg, mode)
      {
        var source := sources[index];
        var out := source.load(current, m);
        ghost var next := Advance(sources, m, index, Progress(current, collected));
        current := out.cfg;
        if out.err.Some? {
          collected := collected + [NewLoaderSourceFailedError(index, source.name, out.err.value)];
        }
        assert Progress(current, collected) == next;
      }
      result := current;
      if |collected| > 0 {
        err := Some(NewAggregatedLoadFailedError(Joined(collected)));
      } else {
        err := None;
      }
    }
  }

  /** Every failure in `failures` is a wrapped source failure naming an index in `[lo, hi)`, in increasing order. */
  predicate InSourceOrder(failures: seq<Error>, lo: nat, hi: nat)
  {
    && (forall j :: 0 <= j < |failures| ==>
          failures[j].WrapTwo? && failures[j].second.LoaderSourceFailed? && lo <= failures[j].second.index < hi)
    && (forall j, j' :: 0 <= j < j' < |failures| ==>
          failures[j].second.index < failures[j'].second.index)
  }

  /** The sources from `i` on add at most one failure each, after the ones collected before, in source order. */
  lemma {:induction false} FailuresInOrder(sources: seq<Source>, mode: LoadMode, i: nat, p: Progress)
    requires i <= |sources|
    ensures var r := RunFrom(sources, mode, i, p).failures;
      && |p.failures| <= |r| <= |p.failures| + (|sources| - i)
      && r[..|p.failures|] == p.failures
      && InSourceOrder(r[|p.failures|..], i, |sources|)
    decreases |sources| - i
  {
    if i < |sources| {
      var q := Advance(sources, mode, i, p);
      FailuresInOrder(sources, mode, i + 1, q);
      var r := RunFrom(sources, mode, i, p).failures;
      var added := q.failures[|p.failures|..];
      assert r[..|q.failures|] == q.failures;
      assert r[..|p.failures|] == q.failures[..|p.failures|];
      assert r[|p.failures|..] == added + r[|q.failures|..];
    }
  }

  /** Every source from index `i` on succeeds, each given what the one before it left. */
  predicate AllSucceedFrom(sources: seq<Source>, mode: LoadMode, i: nat, cfg: Value)
    requires i <= |sources|
    decreases |sources| - i
  {
    i == |sources| ||
    (var out := sources[i].load(cfg, mode); out.err.None? && AllSucceedFrom(sources, mode, i + 1, out.cfg))
  }

  /** Nothing is collected exactly when every source succeeds: a failure anywhere reaches the final list. */
  lemma {:induction false} NoFailuresIffAllSucceed(sources: seq<Source>, mode: LoadMode, i: nat, p: Progress)
    requires i <= |sources|
    ensures RunFrom(sources, mode, i, p).failures == p.failures <==> AllSucceedFrom(sources, mode, i, p.cfg)
    decreases |sources| - i
  {
    if i < |sources| {
      var q := Advance(sources, mode, i, p);
      NoFailuresIffAllSucceed(sources, mode, i + 1, q);
      FailuresInOrder(sources, mode, i + 1, q);
      var r := RunFrom(sources, mode, i + 1, q).failures;
      assert |q.failures| <= |r|;
      if sources[i].load(p.cfg, mode).err.Some? {
        assert |r| > |p.failures|;
      }
    }
  }

  /** `Load` returns nil exactly when every source succeeds. */
  lemma NilIffAllSucceed(sources: seq<Source>, cfg: Value, mode: LoadMode)
    ensures Outcome(Run(sources, cfg, mode).failures).None? <==> AllSucceedFrom(sources, EffectiveMode(mode), 0, cfg)
  {
    NoFailuresIffAllSucceed(sources, EffectiveMode(mode), 0, Progress(cfg, []));
  }

  /** A source that fails has its error, tagged with its index and name, in the final list, and every later source still runs. */
  lemma {:induction false} FailureReported(sources: seq<Source>, mode: LoadMode, i: nat, p: Progress)
    requires i < |sources| && sources[i].load(p.cfg, mode).err.Some?
    ensures var e := sources[i].load(p.cfg, mode).err.value;
      var f := NewLoaderSourceFailedError(i, sources[i].name, e);
      && f in RunFrom(sources, mode, i, p).failures
      && Is(f, e) && Is(f, SentinelErr(LoaderSourceFailedS))
  {
    var e := sources[i].load(p.cfg, mode).err.value;
    var f := NewLoaderSourceFailedError(i, sources[i].name, e);
    LoaderSourceFailedErrorWraps(i, sources[i].name, e);
    var q := Advance(sources, mode, i, p);
    assert q.failures[|q.failures| - 1] == f;
    FailuresInOrder(sources, mode, i + 1, q);
    var r := RunFrom(sources, mode, i + 1, q).failures;
    assert r[..|q.failures|] == q.failures;
    assert r[|q.failures| - 1] == f;
  }

  /** With mode 0 every source runs in `ModeOverride`, exactly as when that mode is asked for. */
  lemma ZeroModeIsOverride(sources: seq<Source>, cfg: Value)
    ensures Run(sources, cfg, 0) == Run(sources, cfg, ModeOverride)
    ensures Run(sources, cfg, 0) == RunFrom(sources, ModeOverride, 0, Progress(cfg, []))
  {
  }

  /** The aggregated error is the loader sentinel's, and unwraps to the joined list of failures. */
  lemma AggregateUnwraps(failures: seq<Error>)
    requires failures != []
    ensures var r := Outcome(failures).value;
      Is(r, SentinelErr(LoadAggregatedFailedS))
      && As(r, AggregatedLoadFailedK) == Some(AggregatedLoadFailed(Joined(failures)))
      && Unwraps(Joined(failures)) == failures
  {
    AggregatedLoadFailedErrorWraps(Joined(failures));
  }
}
