/** What the Windows and the Touch `ImageLoaderTask` share: the result enums,
    the environment a task runs in, the task's state, the effects it has on
    the world, the memory-cache probe and the transformation loop.

    The source's async methods are modelled as synchronous pure functions.
    Everything a method learns from outside is a field of `Env`: the host
    flags, the target's validity, the helpers of the base class (`GetKey`,
    `CanUseMemoryCache`, `IsLocalOrCachedResult`, the mapping to a
    `GenerateResult`), and what each transformation does. Every read of
    `IsCancelled` is a checkpoint: the n-th read of a run answers
    `env.cancelled(n)`, so a re-check inside a posted lambda can see a
    different answer from the check just before it. The target's validity is
    read the same way, indexed by the checkpoints made before the read, so a
    target can become invalid while the task runs. The state `St` counts
    the checkpoints read so far and holds the task's `Completed` flag, the
    memory cache, and the trace of effects. */
module LoaderTask {
  import opened Common
  import TP = TaskParameters

  /** `LoadingResult`: the members the tasks name, and any other member by
      its integer value. The named error members are negative. */
  datatype LoadingResult = Failed | Canceled | InvalidTarget | NotFound | MemoryCache | Stream | Other(code: int)

  /** A result is an error exactly when its integer value is below zero. */
  predicate IsError(r: LoadingResult) {
    match r
    case Failed | Canceled | InvalidTarget | NotFound => true
    case MemoryCache | Stream => false
    case Other(code) => code < 0
  }

  /** The outcome of generating the image of a task. */
  datatype GenerateResult = Success | Failed | Canceled | InvalidTarget

  /** The outcome of the memory-cache probe. */
  datatype CacheResult = Found | NotFound | ErrorOccured

  /** A decoded native image, by identity. */
  datatype Image = Image(id: nat)

  /** `ImageInformation`, reduced to the two keys `SetKey` records. */
  datatype ImageInformation = ImageInformation(key: Option<string>, customKey: Option<string>)

  /** A stream, by identity, with the two properties the Windows task tests. */
  datatype StreamHandle = StreamHandle(id: nat, atStart: bool, canSeek: bool)

  /** A memory-cache entry: the image and its information. */
  datatype Entry = Entry(image: Option<Image>, info: Option<ImageInformation>)

  /** `WithLoadingResult<T>` for an image: the item (null when the load
      failed), the loading result and the image information. */
  datatype Loaded = Loaded(image: Option<Image>, result: LoadingResult, info: Option<ImageInformation>)

  /** `new WithLoadingResult<T>(result)`: no item, no information. */
  function WithResult(r: LoadingResult): (l: Loaded)
    ensures l.image.None? && l.info.None? && l.result == r
  {
    Loaded(None, r, None)
  }

  /** `HasError`: the result is an error. */
  predicate HasError(l: Loaded) {
    IsError(l.result)
  }

  /** `new ImageInformation()` followed by `SetKey(key, customKey)`, or
      `SetKey` on the information the source handed over. */
  function WithKey(info: Option<ImageInformation>, key: string, customKey: Option<string>): (r: ImageInformation)
    ensures r.key == Some(key) && r.customKey == customKey
  {
    var i := if info.Some? then info.value else ImageInformation(None, None);
    i.(key := Some(key), customKey := customKey)
  }

  /** What a task does to the world, in order. */
  datatype Effect =
    | CacheAdded(key: string, cached: Option<Image>, info: Option<ImageInformation>)
    | TargetSet(image: Image, isLocalOrFromCache: bool, isLoadingPlaceholder: bool)
    | SuccessCalled(info: Option<ImageInformation>, result: LoadingResult)
    | ErrorCalled(error: Error)
    | StreamDisposed(stream: StreamHandle)

  /** The world as a task sees it. */
  datatype Env = Env(
    params: TP.TaskParameter,
    cancelled: nat -> bool,                          // the n-th read of IsCancelled
    exitTasksEarly: bool,                            // ImageService.Instance.ExitTasksEarly
    targetValid: nat -> bool,                        // _target.IsValid, read after n checkpoints
    taskValid: nat -> bool,                          // _target.IsTaskValid(this), read after n checkpoints
    canUseMemoryCache: bool,                         // CanUseMemoryCache()
    setRaises: bool,                                 // _target.Set raises inside a posted lambda
    ownKey: string,                                  // GetKey()
    keyOf: Option<string> -> string,                 // GetKey(path)
    isLocalOrCached: LoadingResult -> bool,          // IsLocalOrCachedResult()
    generateOf: LoadingResult -> GenerateResult,     // WithLoadingResult.GenerateResult
    transformPlaceholdersDefault: bool,              // ImageService.Instance.Config.TransformPlaceholders
    apply: (TP.Transformation, Image) -> Option<Image>) // Transform + ToNative; None when it raises

  /** The task's state: checkpoints read, `Completed`, the memory cache, and
      the effects so far. */
  datatype St = St(tick: nat, completed: bool, cache: map<string, Entry>, trace: seq<Effect>)

  /** A value computed by a step, with the state after it. */
  datatype Out<+T> = Out(value: T, st: St)

  /** A later state of the same run: more checkpoints read, effects only
      appended, cache keys only added, and `Completed` never reset. */
  predicate Extends(st: St, st': St) {
    && st.tick <= st'.tick
    && st.trace <= st'.trace
    && st.cache.Keys <= st'.cache.Keys
    && (st.completed ==> st'.completed)
  }

  /** From index `from` on, no effect sets an image on the target or calls
      `OnSuccess`: the work in between only cached, disposed or reported
      errors. */
  predicate Quiet(from: nat, trace: seq<Effect>) {
    forall i :: from <= i < |trace| ==> !trace[i].TargetSet? && !trace[i].SuccessCalled?
  }

  /** Every `OnSuccess` call comes right after the image it reports was set
      on the target. */
  predicate SuccessAfterSet(trace: seq<Effect>) {
    forall i :: 0 <= i < |trace| && trace[i].SuccessCalled? ==> 0 < i && trace[i - 1].TargetSet?
  }

  /** Quiet work keeps every `OnSuccess` right after its `Set`. */
  lemma QuietKeepsSuccessAfterSet(trace: seq<Effect>, trace': seq<Effect>)
    requires trace <= trace' && Quiet(|trace|, trace')
    ensures SuccessAfterSet(trace) ==> SuccessAfterSet(trace')
  {
    if SuccessAfterSet(trace) {
      forall i | 0 <= i < |trace'| && trace'[i].SuccessCalled?
        ensures 0 < i && trace'[i - 1].TargetSet?
      {
        assert i < |trace|;
        assert trace'[i] == trace[i] && trace'[i - 1] == trace[i - 1];
      }
    }
  }

  /** Reading `IsCancelled`: the answer at this checkpoint, and one more
      checkpoint read. */
  function Check(env: Env, st: St): (r: Out<bool>)
    ensures r.value == env.cancelled(st.tick)
    ensures r.st == st.(tick := st.tick + 1)
  {
    Out(env.cancelled(st.tick), st.(tick := st.tick + 1))
  }

  /** Appends an effect. */
  function Emit(st: St, e: Effect): (r: St)
    ensures r == st.(trace := st.trace + [e])
  {
    st.(trace := st.trace + [e])
  }

  /** `ImageCache.Instance.Add(key, info, image)`. */
  function CacheAdd(st: St, key: string, info: Option<ImageInformation>, image: Option<Image>): (r: St)
    ensures r.cache == st.cache[key := Entry(image, info)]
    ensures r.trace == st.trace + [CacheAdded(key, image, info)]
    ensures r.tick == st.tick && r.completed == st.completed
  {
    Emit(st.(cache := st.cache[key := Entry(image, info)]), CacheAdded(key, image, info))
  }

  /** The image `ImageCache.Instance.Get(key)` holds, null when there is no
      entry or the entry holds none. */
  function CachedImage(st: St, key: string): Option<Image> {
    if key in st.cache then st.cache[key].image else None
  }

  // ---------------------------------------------------------------------------
  // The memory-cache probe, identical on both platforms

  /** `TryLoadingFromCacheAsync`: looks the task's own key up; on a hit that
      is not cancelled, posts a lambda that re-checks cancellation, sets the
      image on the target, marks the task completed and calls `OnSuccess`
      with `MemoryCache`. If the target's `Set` raises, `OnError` is called
      and the probe answers `ErrorOccured`. */
  function TryLoadingFromCache(env: Env, st: St): (r: Out<CacheResult>)
    ensures Extends(st, r.st) && r.st.cache == st.cache
    ensures r.value == CacheResult.NotFound ==> r.st.trace == st.trace && r.st.completed == st.completed
    ensures r.value == ErrorOccured ==> r.st.trace == st.trace + [ErrorCalled(TargetSetRaised)]
    ensures r.value == Found && !st.completed ==>
      && r.st.completed
      && env.ownKey in st.cache && st.cache[env.ownKey].image.Some?
      && r.st.trace == st.trace + [TargetSet(st.cache[env.ownKey].image.value, true, false),
                                   SuccessCalled(st.cache[env.ownKey].info, MemoryCache)]
    ensures SuccessAfterSet(st.trace) ==> SuccessAfterSet(r.st.trace)
  {
    if !env.targetValid(st.tick) then Out(CacheResult.NotFound, st)
    else if env.ownKey !in st.cache then Out(CacheResult.NotFound, st)
    else
      var entry := st.cache[env.ownKey];
      if entry.image.None? then Out(CacheResult.NotFound, st)
      else
        var c1 := Check(env, st);
        if c1.value then Out(CacheResult.NotFound, c1.st)
        else
          var c2 := Check(env, c1.st);
          if c2.value then
            // the lambda returned early; `Completed` is whatever it was
            Out(if c2.st.completed then Found else CacheResult.NotFound, c2.st)
          else if env.setRaises then
            Out(ErrorOccured, Emit(c2.st, ErrorCalled(TargetSetRaised)))
          else
            var s1 := Emit(c2.st, TargetSet(entry.image.value, true, false));
            var s2 := Emit(s1.(completed := true), SuccessCalled(entry.info, MemoryCache));
            Out(Found, s2)
  }

  /** On a task that has not completed yet, the probe answers `Found` exactly
      when the target is valid, the cache holds an image under the task's
      key, neither cancellation check fires and setting the image does not
      raise; it answers `ErrorOccured` exactly when all of that holds except
      that setting the image raises. */
  lemma TryLoadingFromCacheOutcomes(env: Env, st: St)
    requires !st.completed
    ensures var hit := env.targetValid(st.tick) && CachedImage(st, env.ownKey).Some?
                       && !env.cancelled(st.tick) && !env.cancelled(st.tick + 1);
      && (TryLoadingFromCache(env, st).value == Found <==> hit && !env.setRaises)
      && (TryLoadingFromCache(env, st).value == ErrorOccured <==> hit && env.setRaises)
  {
  }

  // ---------------------------------------------------------------------------
  // Transformations

  /** Whether placeholders get transformed: the parameter's setting if it
      has one, otherwise the service-wide default. */
  function PlaceholderTransformsEnabled(p: TP.TaskParameter, default: bool): bool {
    if p.transformPlaceholdersEnabled.Some? then p.transformPlaceholdersEnabled.value else default
  }

  /** The gate before the transformation loop: a non-null, non-empty list,
      and either not a placeholder or placeholder transforms enabled. */
  predicate RunsTransformations(p: TP.TaskParameter, default: bool, isPlaceholder: bool) {
    && p.transformations.Some? && |p.transformations.value| > 0
    && (!isPlaceholder || PlaceholderTransformsEnabled(p, default))
  }

  /** A placeholder is transformed only when transforms are explicitly
      enabled on the parameter, or left unset while the default enables
      them; a disposed parameter, having no list, never runs any. */
  lemma RunsTransformationsGate(p: TP.TaskParameter, default: bool, isPlaceholder: bool)
    ensures RunsTransformations(p, default, true) ==>
      p.transformPlaceholdersEnabled == Some(true) || (p.transformPlaceholdersEnabled.None? && default)
    ensures RunsTransformations(p, default, true) ==> RunsTransformations(p, default, false)
    ensures !p.disposed ==> !RunsTransformations(TP.Dispose(p), default, isPlaceholder)
  {
  }

  /** One step of the loop: the transformed image, or the image unchanged
      when the transformation raises. A null image stays null. */
  function ApplyStep(apply: (TP.Transformation, Image) -> Option<Image>, t: TP.Transformation, img: Option<Image>): Option<Image> {
    if img.None? then None
    else
      var out := apply(t, img.value);
      if out.Some? then out else img
  }

  /** The reference fold: every transformation in list order, each raising
      one skipped. */
  function ApplyAll(apply: (TP.Transformation, Image) -> Option<Image>, ts: seq<TP.Transformation>, img: Option<Image>): Option<Image>
    decreases |ts|
  {
    if ts == [] then img else ApplyAll(apply, ts[1..], ApplyStep(apply, ts[0], img))
  }

  /** Applying a list and then another is applying their concatenation. */
  lemma {:induction false} ApplyAllAppend(apply: (TP.Transformation, Image) -> Option<Image>, ts1: seq<TP.Transformation>,
                                          ts2: seq<TP.Transformation>, img: Option<Image>)
    ensures ApplyAll(apply, ts1 + ts2, img) == ApplyAll(apply, ts2, ApplyAll(apply, ts1, img))
    decreases |ts1|
  {
    if ts1 == [] {
      assert ts1 + ts2 == ts2;
    } else {
      assert (ts1 + ts2)[1..] == ts1[1..] + ts2;
      ApplyAllAppend(apply, ts1[1..], ts2, ApplyStep(apply, ts1[0], img));
    }
  }

  /** A transformation that raises on the current image is skipped: the
      rest of the list runs on the image as it was. */
  lemma ApplyAllSkipsRaising(apply: (TP.Transformation, Image) -> Option<Image>, t: TP.Transformation,
                             ts: seq<TP.Transformation>, img: Image)
    requires apply(t, img).None?
    ensures ApplyAll(apply, [t] + ts, Some(img)) == ApplyAll(apply, ts, Some(img))
  {
    assert ([t] + ts)[1..] == ts;
  }

  /** No checkpoint in `[from, from + n)` reports cancellation. */
  predicate NoCancel(env: Env, from: nat, n: nat) {
    forall k :: from <= k < from + n ==> !env.cancelled(k)
  }

  /** What the transformation loop ends with. */
  datatype LoopOutcome = Done(image: Option<Image>) | Stopped

  /** The `foreach` over the transformation list: each iteration first reads
      `IsCancelled` and stops the loop with `Canceled` if it fires, then
      applies the transformation, keeping the old image when it raises. */
  function TransformLoop(env: Env, st: St, ts: seq<TP.Transformation>, img: Option<Image>): (r: Out<LoopOutcome>)
    ensures r.st == st.(tick := r.st.tick) && st.tick <= r.st.tick <= st.tick + |ts|
    ensures r.value.Stopped? <==> !NoCancel(env, st.tick, |ts|)
    ensures r.value.Done? ==> r.value.image == ApplyAll(env.apply, ts, img) && r.st.tick == st.tick + |ts|
    decreases |ts|
  {
    if ts == [] then Out(Done(img), st)
    else
      var c := Check(env, st);
      if c.value then Out(Stopped, c.st)
      else TransformLoop(env, c.st, ts[1..], ApplyStep(env.apply, ts[0], img))
  }
}
