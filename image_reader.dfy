/**
 * `reader/image-reader.js`: decide whether the request needs a transformed
 * variant, and if so materialise it into the cache store and make the cache
 * handle the one to serve.
 *
 * The bypass chain is `Decide`. The materialisation is a strictly ordered
 * series of nine steps that stops at the first error; the outcome of every
 * fallible step is an input (`StepOutcomes`), and the trace records the
 * effect each step asks for.
 */
module ImageReader {
  import opened Wrappers
  import opened Effects
  import opened FileHandle
  import opened Context

  /** The types the reader agrees to transform. */
  const AcceptedTypes: seq<string> :=
    ["image/jpeg", "image/png", "image/gif", "image/bmp", "image/tiff", "image/x-jg"]

  predicate IsAcceptedType(t: Option<string>)
  {
    t.Some? && t.value in AcceptedTypes
  }

  /** Which way the reader goes; all but `Materialize` end with `next()` at once. */
  datatype Decision = OriginMissing | NoOptions | CacheHit | NotAnImage | NoFilters | Materialize

  /** The bypass checks, in the order the reader makes them. */
  function Decide(originExists: bool, options: seq<string>, cacheExists: bool,
                  fileType: Option<string>, hasFilters: bool): Decision
  {
    if !originExists then OriginMissing
    else if |options| == 0 then NoOptions
    else if cacheExists then CacheHit
    else if !IsAcceptedType(fileType) then NotAnImage
    else if !hasFilters then NoFilters
    else Materialize
  }

  /** The decision for the current request state. */
  function DecisionFor(amaging: Amaging, collab: Collaborators): Decision
    reads amaging, amaging.file, amaging.cacheFile
  {
    Decide(amaging.file.Exists(), amaging.file.options, amaging.cacheFile.Exists(),
           FileType(amaging.file, collab), collab.hasFilters(amaging.file.options))
  }

  /** The steps of `async.series`, in order. */
  datatype Step =
    | CreateTmp          // tmp.file
    | CopyOriginToTmp    // origin requestReadStream, piped into the tmp file
    | ApplyFilters       // gmFilter.runOn(tmpFile)
    | StatTmp            // fs.stat(tmpFile)
    | OpenCacheWrite     // cacheFile.requestWriteStream({ContentLength, ContentType})
    | CopyTmpToCache     // tmp file piped into the write stream, until it closes
    | UnlinkTmp          // fs.unlink(tmpFile)
    | RefreshCacheInfo   // cacheFile.readInfo()
    | PromoteCache       // amaging.file = amaging.cacheFile

  const Series: seq<Step> :=
    [CreateTmp, CopyOriginToTmp, ApplyFilters, StatTmp, OpenCacheWrite,
     CopyTmpToCache, UnlinkTmp, RefreshCacheInfo, PromoteCache]

  /**
   * What the outside world answers to each fallible step. `originRead` is
   * the answer to the origin's stream request: its rejection, or `None` for
   * a stream that is copied to its end (a stream that fails mid-copy has
   * no value here).
   */
  datatype StepOutcomes = StepOutcomes(
    tmpFile: Option<Error>,
    originRead: Option<Error>,
    filters: Option<Error>,
    stat: Result<nat, Error>,
    cacheWrite: Option<Error>,
    unlink: Option<Error>,
    cacheInfo: Result<InfoValue, Error>)

  /** The error a step hands to `done`, if any. Piping into the cache and the promotion never fail. */
  function StepError(o: StepOutcomes, s: Step): Option<Error>
  {
    match s
    case CreateTmp => o.tmpFile
    case CopyOriginToTmp => o.originRead
    case ApplyFilters => o.filters
    case StatTmp => if o.stat.Err? then Some(o.stat.error) else None
    case OpenCacheWrite => o.cacheWrite
    case CopyTmpToCache => None
    case UnlinkTmp => o.unlink
    case RefreshCacheInfo => if o.cacheInfo.Err? then Some(o.cacheInfo.error) else None
    case PromoteCache => None
  }

  /** The index of the first failing step at or after `from`, or |Series| when none fails. */
  function FirstFailure(o: StepOutcomes, from: nat): (k: nat)
    requires from <= |Series|
    ensures from <= k <= |Series|
    ensures forall j :: from <= j < k ==> StepError(o, Series[j]).None?
    ensures k < |Series| ==> StepError(o, Series[k]).Some?
    decreases |Series| - from
  {
    if from == |Series| then from
    else if StepError(o, Series[from]).Some? then from
    else FirstFailure(o, from + 1)
  }

  function FailingStep(o: StepOutcomes): nat
  {
    FirstFailure(o, 0)
  }

  /** How many steps run: up to and including the first failing one. */
  function StepsRun(o: StepOutcomes): (n: nat)
    ensures n <= |Series|
  {
    if FailingStep(o) < |Series| then FailingStep(o) + 1 else |Series|
  }

  /** The steps that run. */
  function Ran(o: StepOutcomes): seq<Step>
  {
    Series[..StepsRun(o)]
  }

  /** What the final callback passes to `next`: the first error, or nothing. */
  function SeriesError(o: StepOutcomes): Option<Error>
  {
    if FailingStep(o) < |Series| then StepError(o, Series[FailingStep(o)]) else None
  }

  /** The handles and values the steps address. */
  datatype Plan = Plan(
    origin: Storage, originKey: string, options: seq<string>,
    cache: Storage, cacheKey: string, contentType: Option<string>)

  function PlanFor(amaging: Amaging, collab: Collaborators): Plan
    reads amaging, amaging.file, amaging.cacheFile
  {
    Plan(amaging.file.storage, amaging.file.filename, amaging.file.options,
         amaging.cacheFile.storage, amaging.cacheFile.filename,
         amaging.file.ContentType(collab.mimeType))
  }

  /** The size `fs.stat` reported (only read once the stat step has succeeded). */
  function TmpSize(o: StepOutcomes): nat
  {
    if o.stat.Ok? then o.stat.value else 0
  }

  /** The effects one step asks for. */
  function StepEvents(p: Plan, o: StepOutcomes, s: Step): seq<Event>
  {
    match s
    case CreateTmp => [TmpCreated]
    case CopyOriginToTmp =>
      [StoreCall(p.origin, ReadStreamOp, p.originKey)] + (if o.originRead.None? then [TmpFilled] else [])
    case ApplyFilters => [FiltersRun(p.options)]
    case StatTmp => [TmpStated]
    case OpenCacheWrite => [StoreCall(p.cache, WriteStreamOp(WriteInfo(TmpSize(o), p.contentType)), p.cacheKey)]
    case CopyTmpToCache => [CacheFilled]
    case UnlinkTmp => [TmpUnlinked]
    case RefreshCacheInfo => [StoreCall(p.cache, ReadInfoOp, p.cacheKey)]
    case PromoteCache => []
  }

  /** The effects of the first n steps, in order. */
  function SeriesEvents(p: Plan, o: StepOutcomes, n: nat): seq<Event>
    requires n <= |Series|
  {
    if n == 0 then [] else SeriesEvents(p, o, n - 1) + StepEvents(p, o, Series[n - 1])
  }

  /** The transform is reached exactly when every bypass check lets the request through. */
  lemma DecideMaterializeIff(originExists: bool, options: seq<string>, cacheExists: bool,
                             fileType: Option<string>, hasFilters: bool)
    ensures Decide(originExists, options, cacheExists, fileType, hasFilters) == Materialize
        <==> originExists && options != [] && !cacheExists && IsAcceptedType(fileType) && hasFilters
  {
  }

  /** A cache hit is taken before the type gate and the filter check are consulted. */
  lemma CacheHitPrecedesTypeGate(options: seq<string>, fileType: Option<string>, hasFilters: bool)
    requires options != []
    ensures Decide(true, options, true, fileType, hasFilters) == CacheHit
  {
  }

  /** A failing series reports the error of its last step, and every step before it succeeded. */
  lemma SeriesStopsAtFirstError(o: StepOutcomes)
    ensures SeriesError(o).Some? ==>
      |Ran(o)| >= 1 && SeriesError(o) == StepError(o, Ran(o)[|Ran(o)| - 1])
      && forall j :: 0 <= j < |Ran(o)| - 1 ==> StepError(o, Ran(o)[j]).None?
    ensures SeriesError(o).None? <==> Ran(o) == Series
    ensures SeriesError(o).None? <==> forall j :: 0 <= j < |Series| ==> StepError(o, Series[j]).None?
  {
    var k := FailingStep(o);
    if k < |Series| {
      assert Ran(o) == Series[..k + 1];
      assert Ran(o) != Series by { assert |Ran(o)| == k + 1; }
    }
  }

  /**
   * The cache handle is promoted, and its metadata re-read, only after every
   * earlier step succeeded; the re-read comes after a successful unlink.
   */
  lemma PromotionNeedsEverything(o: StepOutcomes)
    ensures PromoteCache in Ran(o) <==> SeriesError(o).None?
    ensures RefreshCacheInfo in Ran(o) ==> UnlinkTmp in Ran(o) && o.unlink.None?
  {
    SeriesStopsAtFirstError(o);
    var k := FailingStep(o);
    if k < |Series| {
      assert Ran(o) == Series[..k + 1];
      assert forall j :: 0 <= j <= k ==> Ran(o)[j] == Series[j];
      assert StepError(o, PromoteCache).None?;
      assert PromoteCache !in Ran(o) by {
        forall j | 0 <= j < |Ran(o)| ensures Ran(o)[j] != PromoteCache {
          assert Ran(o)[j] == Series[j];
        }
      }
      if RefreshCacheInfo in Ran(o) {
        var j :| 0 <= j < |Ran(o)| && Ran(o)[j] == RefreshCacheInfo;
        assert Series[j] == RefreshCacheInfo;
        assert j == 7;
        assert Ran(o)[6] == UnlinkTmp;
        assert StepError(o, Series[6]).None?;
      }
    } else {
      assert Ran(o)[6] == UnlinkTmp && Ran(o)[8] == PromoteCache;
    }
  }

  /** The tmp file is removed exactly when every step up to the close of the cache write succeeded. */
  lemma UnlinkRunsIffCacheWritten(o: StepOutcomes)
    ensures UnlinkTmp in Ran(o) <==> forall j :: 0 <= j < 6 ==> StepError(o, Series[j]).None?
  {
    var k := FailingStep(o);
    var r := Ran(o);
    if k >= 6 {
      assert r[6] == UnlinkTmp;
    } else {
      assert |r| == k + 1 && k + 1 <= 6;
      forall j | 0 <= j < |r| ensures r[j] != UnlinkTmp {
        assert r[j] == Series[j];
      }
    }
  }

  /**
   * Once the tmp file exists, a failure before the cache write has closed
   * leaves it behind: the unlink step never runs.
   */
  lemma TmpLeaksOnEarlyFailure(o: StepOutcomes)
    requires 1 <= FailingStep(o) < 6
    ensures CreateTmp in Ran(o) && UnlinkTmp !in Ran(o)
  {
    UnlinkRunsIffCacheWritten(o);
    assert Ran(o)[0] == CreateTmp;
  }

  lemma SeriesEventsPrefix(p: Plan, o: StepOutcomes, m: nat, n: nat)
    requires m <= n <= |Series|
    ensures SeriesEvents(p, o, m) <= SeriesEvents(p, o, n)
    decreases n - m
  {
    if m < n {
      SeriesEventsPrefix(p, o, m, n - 1);
    }
  }

  /** The number of write-stream requests in a trace. */
  function WriteCount(es: seq<Event>): nat
  {
    if |es| == 0 then 0
    else WriteCount(es[..|es| - 1]) + (if es[|es| - 1].StoreCall? && es[|es| - 1].op.WriteStreamOp? then 1 else 0)
  }

  lemma {:induction false} WriteCountAppend(a: seq<Event>, b: seq<Event>)
    ensures WriteCount(a + b) == WriteCount(a) + WriteCount(b)
    decreases |b|
  {
    if |b| == 0 {
      assert a + b == a;
    } else {
      assert (a + b)[..|a + b| - 1] == a + b[..|b| - 1];
      WriteCountAppend(a, b[..|b| - 1]);
    }
  }

  /** What one step contributes: a write request only from the cache-write step, addressed to the cache key. */
  lemma StepEventsStoreCalls(p: Plan, o: StepOutcomes, step: Step)
    ensures WriteCount(StepEvents(p, o, step)) == (if step == OpenCacheWrite then 1 else 0)
    ensures forall e :: e in StepEvents(p, o, step) && e.StoreCall? ==>
      (e.store == p.origin && e.path == p.originKey && e.op == ReadStreamOp)
      || (e.store == p.cache && e.path == p.cacheKey && (e.op.WriteStreamOp? ==> step == OpenCacheWrite))
  {
    var es := StepEvents(p, o, step);
    if step == CopyOriginToTmp {
      var tail := if o.originRead.None? then [TmpFilled] else [];
      var head := [StoreCall(p.origin, ReadStreamOp, p.originKey)];
      assert es == head + tail;
      WriteCountAppend(head, tail);
      assert head[..0] == [];
      if o.originRead.None? { assert tail[..0] == []; }
    } else if |es| == 1 {
      assert es[..0] == [];
    }
  }

  /**
   * At most one materialisation per request: the series asks for at most
   * one write stream, and every store request it makes addresses the bare
   * key of the origin (reads) or of the cache handle (the write and the
   * metadata re-read).
   */
  lemma {:induction false} SeriesWritesOnce(p: Plan, o: StepOutcomes, n: nat)
    requires n <= |Series|
    ensures WriteCount(SeriesEvents(p, o, n)) == (if n >= 5 then 1 else 0)
    ensures forall e :: e in SeriesEvents(p, o, n) && e.StoreCall? ==>
      (e.store == p.origin && e.path == p.originKey && e.op == ReadStreamOp)
      || (e.store == p.cache && e.path == p.cacheKey)
  {
    if n > 0 {
      SeriesWritesOnce(p, o, n - 1);
      var step := Series[n - 1];
      var before, added := SeriesEvents(p, o, n - 1), StepEvents(p, o, step);
      assert SeriesEvents(p, o, n) == before + added;
      WriteCountAppend(before, added);
      StepEventsStoreCalls(p, o, step);
      SeriesPositions(n - 1);
    }
  }

  /**
   * The cache write declares the size `fs.stat` reported for the transformed
   * tmp file and the origin's content type.
   */
  lemma WriteDeclaresStatSize(p: Plan, o: StepOutcomes)
    requires OpenCacheWrite in Ran(o)
    ensures o.stat.Ok?
    ensures StoreCall(p.cache, WriteStreamOp(WriteInfo(o.stat.value, p.contentType)), p.cacheKey)
            in SeriesEvents(p, o, StepsRun(o))
  {
    var k := FailingStep(o);
    var r := Ran(o);
    var j :| 0 <= j < |r| && r[j] == OpenCacheWrite;
    assert r[j] == Series[j];
    assert j == 4;
    assert StepError(o, Series[3]).None?;
    SeriesEventsPrefix(p, o, 5, StepsRun(o));
    var before := SeriesEvents(p, o, 4);
    assert SeriesEvents(p, o, 5) == before + StepEvents(p, o, OpenCacheWrite);
    assert TmpSize(o) == o.stat.value;
    assert SeriesEvents(p, o, StepsRun(o))[|before|] == SeriesEvents(p, o, 5)[|before|];
  }

  /**
   * The unlink comes after the copy into the cache has closed and before the
   * cache metadata is re-read.
   */
  lemma UnlinkBetweenCloseAndRefresh(p: Plan, o: StepOutcomes)
    requires RefreshCacheInfo in Ran(o)
    ensures exists a, b, c ::
              && 0 <= a < b < c < |SeriesEvents(p, o, StepsRun(o))|
              && SeriesEvents(p, o, StepsRun(o))[a] == CacheFilled
              && SeriesEvents(p, o, StepsRun(o))[b] == TmpUnlinked
              && SeriesEvents(p, o, StepsRun(o))[c] == StoreCall(p.cache, ReadInfoOp, p.cacheKey)
  {
    var r := Ran(o);
    var j :| 0 <= j < |r| && r[j] == RefreshCacheInfo;
    assert r[j] == Series[j];
    assert j == 7;
    var base := SeriesEvents(p, o, 5);
    assert SeriesEvents(p, o, 6) == base + [CacheFilled];
    assert SeriesEvents(p, o, 7) == base + [CacheFilled] + [TmpUnlinked];
    var eight := SeriesEvents(p, o, 8);
    assert eight == base + [CacheFilled] + [TmpUnlinked] + [StoreCall(p.cache, ReadInfoOp, p.cacheKey)];
    SeriesEventsPrefix(p, o, 8, StepsRun(o));
    var es := SeriesEvents(p, o, StepsRun(o));
    assert es[|base|] == eight[|base|] == CacheFilled;
    assert es[|base| + 1] == eight[|base| + 1] == TmpUnlinked;
    assert es[|base| + 2] == eight[|base| + 2] == StoreCall(p.cache, ReadInfoOp, p.cacheKey);
  }

  /**
   * The middleware. `o` holds the answers of the outside world to the
   * series' fallible steps; they are consulted only when the series runs.
   */
  method Read(amaging: Amaging, collab: Collaborators, o: StepOutcomes, trace: Trace)
    returns (k: Continuation, ran: seq<Step>)
    modifies amaging, amaging.cacheFile, trace
    ensures amaging.cacheFile == old(amaging.cacheFile)
    ensures old(DecisionFor(amaging, collab)) != Materialize ==>
      k == Next(None) && ran == [] && trace.events == old(trace.events)
      && amaging.cacheFile.info == old(amaging.cacheFile.info)
    ensures old(DecisionFor(amaging, collab)) == CacheHit ==> amaging.file == old(amaging.cacheFile)
    ensures old(DecisionFor(amaging, collab)) !in {Materialize, CacheHit} ==> amaging.file == old(amaging.file)
    ensures old(DecisionFor(amaging, collab)) == Materialize ==>
      k == Next(SeriesError(o)) && ran == Ran(o)
      && trace.events == old(trace.events) + SeriesEvents(old(PlanFor(amaging, collab)), o, StepsRun(o))
      && amaging.file == (if SeriesError(o).None? then old(amaging.cacheFile) else old(amaging.file))
      && amaging.cacheFile.info == (if SeriesError(o).None? then o.cacheInfo.value else old(amaging.cacheFile.info))
      && old(amaging.file).info == old(amaging.file.info)
  {
    var origin := amaging.file;
    var cache := amaging.cacheFile;
    var options := origin.options;
    ran := [];

    if !origin.Exists() {
      return Next(None), ran;
    }
    if |options| == 0 {
      return Next(None), ran;
    }
    if cache.Exists() {
      amaging.file := cache;
      return Next(None), ran;
    }
    var fileType := FileType(origin, collab);
    if !IsAcceptedType(fileType) {
      return Next(None), ran;
    }
    if !collab.hasFilters(options) {
      return Next(None), ran;
    }

    k, ran := RunSeries(amaging, collab, o, trace);
  }

  /** `async.series` over the nine steps, ending with `next(err)`. */
  method RunSeries(amaging: Amaging, collab: Collaborators, o: StepOutcomes, trace: Trace)
    returns (k: Continuation, ran: seq<Step>)
    requires amaging.file != amaging.cacheFile
    modifies amaging, amaging.cacheFile, trace
    ensures amaging.cacheFile == old(amaging.cacheFile)
    ensures k == Next(SeriesError(o)) && ran == Ran(o)
    ensures trace.events == old(trace.events) + SeriesEvents(old(PlanFor(amaging, collab)), o, StepsRun(o))
    ensures amaging.file == if SeriesError(o).None? then old(amaging.cacheFile) else old(amaging.file)
    ensures amaging.cacheFile.info == if SeriesError(o).None? then o.cacheInfo.value else old(amaging.cacheFile.info)
    ensures old(amaging.file).info == old(amaging.file.info)
  {
    var origin := amaging.file;
    var cache := amaging.cacheFile;
    ghost var plan := PlanFor(amaging, collab);
    ghost var originInfo := origin.info;
    ghost var cacheInfo := cache.info;
    var tmpSize: nat := 0;
    var failure: Option<Error> := None;
    var i := 0;
    while i < |Series| && failure.None?
      invariant 0 <= i <= |Series|
      invariant failure.None? ==> i <= FailingStep(o)
      invariant failure.Some? ==> 1 <= i && i == FailingStep(o) + 1 && failure == StepError(o, Series[i - 1])
      invariant 4 <= i && failure.None? ==> o.stat.Ok? && tmpSize == o.stat.value
      invariant trace.events == old(trace.events) + SeriesEvents(plan, o, i)
      invariant amaging.cacheFile == cache
      invariant amaging.file == if i == |Series| && failure.None? then cache else origin
      invariant cache.info == if 8 <= i && failure.None? then o.cacheInfo.value else cacheInfo
    {
      var step := Series[i];
      SeriesPositions(i);
      failure, tmpSize := RunStep(amaging, origin, cache, collab, o, step, tmpSize, plan, trace);
      FailingStepAdvance(o, i);
      i := i + 1;
    }
    SeriesExit(o, i, failure);
    k, ran := Next(failure), Series[..i];
  }

  /** Where the steps that touch loop state sit in the series. */
  lemma SeriesPositions(i: nat)
    requires i < |Series|
    ensures Series[i] == StatTmp <==> i == 3
    ensures Series[i] == OpenCacheWrite <==> i == 4
    ensures Series[i] == RefreshCacheInfo <==> i == 7
    ensures Series[i] == PromoteCache <==> i == 8
  {
  }

  /** One more step either keeps the series going or is its first failure. */
  lemma FailingStepAdvance(o: StepOutcomes, i: nat)
    requires i < |Series| && i <= FailingStep(o)
    ensures StepError(o, Series[i]).None? ==> i + 1 <= FailingStep(o)
    ensures StepError(o, Series[i]).Some? ==> i == FailingStep(o)
  {
  }

  /** Where the loop stops is where the specification says the series stops. */
  lemma SeriesExit(o: StepOutcomes, i: nat, failure: Option<Error>)
    requires i <= |Series|
    requires failure.None? ==> i <= FailingStep(o)
    requires failure.Some? ==> 1 <= i && i == FailingStep(o) + 1 && failure == StepError(o, Series[i - 1])
    requires !(i < |Series| && failure.None?)
    ensures i == StepsRun(o) && failure == SeriesError(o)
  {
  }

  /** One step of the series, on the request state before any promotion. */
  method RunStep(amaging: Amaging, origin: File, cache: File, collab: Collaborators, o: StepOutcomes,
                 step: Step, tmpSize: nat, ghost plan: Plan, trace: Trace)
    returns (err: Option<Error>, tmpSize': nat)
    requires amaging.file == origin && amaging.cacheFile == cache && origin != cache
    requires plan == Plan(origin.storage, origin.filename, origin.options, cache.storage, cache.filename,
                          origin.ContentType(collab.mimeType))
    requires step == OpenCacheWrite ==> o.stat.Ok? && tmpSize == o.stat.value
    modifies amaging, cache, trace
    ensures err == StepError(o, step)
    ensures trace.events == old(trace.events) + StepEvents(plan, o, step)
    ensures amaging.cacheFile == cache && origin.info == old(origin.info)
    ensures amaging.file == if step == PromoteCache then cache else origin
    ensures cache.info == if step == RefreshCacheInfo && o.cacheInfo.Ok? then o.cacheInfo.value else old(cache.info)
    ensures tmpSize' == if step == StatTmp && o.stat.Ok? then o.stat.value else tmpSize
  {
    err, tmpSize' := None, tmpSize;
    match step {
      case CreateTmp =>
        trace.Emit(TmpCreated);
        err := o.tmpFile;
      case CopyOriginToTmp =>
        var answer := if o.originRead.Some? then Err(o.originRead.value) else Ok(Stream(None));
        var read := origin.RequestReadStream(answer, trace);
        if read.Err? {
          err := Some(read.error);
        } else {
          trace.Emit(TmpFilled);
        }
      case ApplyFilters =>
        trace.Emit(FiltersRun(origin.options));
        err := o.filters;
      case StatTmp =>
        trace.Emit(TmpStated);
        if o.stat.Err? {
          err := Some(o.stat.error);
        } else {
          tmpSize' := o.stat.value;
        }
      case OpenCacheWrite =>
        var declared := WriteInfo(tmpSize, amaging.file.ContentType(collab.mimeType));
        err := cache.RequestWriteStream(declared, o.cacheWrite, trace);
      case CopyTmpToCache =>
        trace.Emit(CacheFilled);
      case UnlinkTmp =>
        trace.Emit(TmpUnlinked);
        err := o.unlink;
      case RefreshCacheInfo =>
        var got := cache.ReadInfo(o.cacheInfo, trace);
        if got.Err? {
          err := Some(got.error);
        }
      case PromoteCache =>
        amaging.file := cache;
    }
  }
}
