/** The decision ladder both `ImageLoaderTask` variants run: the memory-cache
    probe before the task starts (`PrepareAndTryLoadingFromCacheAsync`), the
    placeholder loader (`LoadPlaceHolderAsync`), generating and delivering
    the image (`TryGeneratingImageAsync`) and loading from a caller's
    stream (`LoadFromStreamAsync`).

    The two variants differ in how an image is fetched (`WindowsTask`,
    `TouchTask`) and in one flag: the Touch task marks its error placeholder
    as a loading placeholder. A `Platform` carries the fetching oracles of
    one variant. */
module TaskLadder {
  import opened Common
  import TP = TaskParameters
  import opened LoaderTask
  import W = WindowsTask
  import T = TouchTask

  datatype Platform = Windows(w: W.Oracles) | Touch(t: T.Oracles)

  /** `RetrieveImageAsync` of the platform. The Windows variant never
      raises; the Touch one passes on what its `GetImageAsync` raises. */
  function Retrieve(plat: Platform, env: Env, st: St, path: Option<string>, source: TP.ImageSource,
                    isPlaceholder: bool): (r: Out<Result<Loaded>>)
    ensures Extends(st, r.st) && r.st.completed == st.completed && Quiet(|st.trace|, r.st.trace)
    ensures plat.Windows? ==> r.value.Ok?
    ensures env.cancelled(st.tick) || env.exitTasksEarly ==>
      r.value == Ok(WithResult(if plat.Windows? && IsNullOrWhiteSpace(path) then LoadingResult.Failed else LoadingResult.Canceled))
    ensures r.value.Raised? || HasError(r.value.value) ==> r.st.cache == st.cache
    ensures r.value.Ok? && !HasError(r.value.value) ==>
      r.st.cache == st.cache[env.keyOf(path) := Entry(r.value.value.image, r.value.value.info)]
  {
    match plat
    case Windows(o) =>
      var g := W.RetrieveImage(env, o, st, path, source, isPlaceholder);
      Out(Ok(g.value), g.st)
    case Touch(o) => T.RetrieveImage(env, o, st, path, source, isPlaceholder)
  }

  /** `GetImageAsync("Stream", ImageSource.Stream, false, stream)` of the
      platform. */
  function GetImageFromStream(plat: Platform, env: Env, st: St, s: StreamHandle): (r: Out<Result<Loaded>>)
    ensures Extends(st, r.st) && r.st.completed == st.completed && r.st.cache == st.cache
    ensures Quiet(|st.trace|, r.st.trace)
    ensures plat.Windows? ==> r.value.Ok?
    ensures env.cancelled(st.tick) ==> r.value == Ok(WithResult(LoadingResult.Canceled))
  {
    match plat
    case Windows(o) =>
      var g := W.GetImage(env, o, st, "Stream", TP.Stream, false, Some(s));
      Out(Ok(g.value), g.st)
    case Touch(o) => T.GetImage(env, o, st, Some("Stream"), TP.Stream, false, Some(s))
  }

  /** `LoadPlaceHolderAsync(path, source, isLoadingPlaceholder)`: nothing for a
      blank path; the image cached under the path's key, or else one
      retrieved as a placeholder (an exception there gives up); then, with an
      image, a valid target and no cancellation, the image is posted to the
      target, marked with the flag given. The post is not awaited, so the
      target's `Set` is recorded whether it raises or not. */
  function LoadPlaceHolder(plat: Platform, env: Env, st: St, path: Option<string>, source: TP.ImageSource,
                           isLoadingPlaceholder: bool): (r: Out<bool>)
    ensures Extends(st, r.st) && r.st.completed == st.completed
    ensures IsNullOrWhiteSpace(path) ==> r == Out(false, st)
    ensures !r.value ==> Quiet(|st.trace|, r.st.trace)
    ensures r.value ==>
      && |r.st.trace| > |st.trace|
      && r.st.trace[|r.st.trace| - 1].TargetSet?
      && r.st.trace[|r.st.trace| - 1].isLoadingPlaceholder == isLoadingPlaceholder
      && Quiet(|st.trace|, r.st.trace[..|r.st.trace| - 1])
    ensures !isLoadingPlaceholder ==> NoLoadingSetFrom(|st.trace|, r.st.trace)
    ensures !IsNullOrWhiteSpace(path) && CachedImage(st, env.keyOf(path)).Some? ==>
      && r.st.cache == st.cache
      && (r.value <==> env.targetValid(st.tick) && !env.cancelled(st.tick))
      && (r.value ==> r.st.trace == st.trace + [TargetSet(CachedImage(st, env.keyOf(path)).value, true, isLoadingPlaceholder)])
    ensures !IsNullOrWhiteSpace(path) && CachedImage(st, env.keyOf(path)).None? ==>
      var rr := Retrieve(plat, env, st, path, source, true);
      && (rr.value.Raised? || rr.value.value.image.None? ==> r == Out(false, rr.st))
      && (rr.value.Ok? && rr.value.value.image.Some? ==>
            && r.st.cache == rr.st.cache
            && (r.value <==> env.targetValid(rr.st.tick) && !env.cancelled(rr.st.tick))
            && (!r.value ==> r.st.trace == rr.st.trace)
            && (r.value ==> r.st.trace == rr.st.trace + [TargetSet(rr.value.value.image.value,
                                                                   env.isLocalOrCached(rr.value.value.result),
                                                                   isLoadingPlaceholder)]))
  {
    if IsNullOrWhiteSpace(path) then Out(false, st)
    else
      var cached := CachedImage(st, env.keyOf(path));
      var fetched: Out<Result<(Option<Image>, bool)>> :=
        if cached.Some? then Out(Ok((cached, true)), st)
        else
          var rr := Retrieve(plat, env, st, path, source, true);
          if rr.value.Raised? then Out(Raised(rr.value.error), rr.st)
          else Out(Ok((rr.value.value.image, env.isLocalOrCached(rr.value.value.result))), rr.st);
      if fetched.value.Raised? then Out(false, fetched.st)
      else
        var (image, isLocal) := fetched.value.value;
        if image.None? || !env.targetValid(fetched.st.tick) then Out(false, fetched.st)
        else
          var c := Check(env, fetched.st);
          if c.value then Out(false, c.st)
          else Out(true, Emit(c.st, TargetSet(image.value, isLocal, isLoadingPlaceholder)))
  }

  /** What the placeholder loader promises of the effects it appends
      (quiet work, then possibly one `Set`) keeps every `OnSuccess` right
      after its `Set`. */
  lemma PlaceholderKeepsSuccessAfterSet(st: St, ph: Out<bool>)
    requires st.trace <= ph.st.trace
    requires !ph.value ==> Quiet(|st.trace|, ph.st.trace)
    requires ph.value ==>
      && |ph.st.trace| > |st.trace|
      && ph.st.trace[|ph.st.trace| - 1].TargetSet?
      && Quiet(|st.trace|, ph.st.trace[..|ph.st.trace| - 1])
    ensures SuccessAfterSet(st.trace) ==> SuccessAfterSet(ph.st.trace)
  {
    if ph.value {
      var t := ph.st.trace[..|ph.st.trace| - 1];
      assert st.trace <= t;
      QuietKeepsSuccessAfterSet(st.trace, t);
      assert ph.st.trace == t + [ph.st.trace[|ph.st.trace| - 1]];
      AppendSetKeepsSuccessAfterSet(t, ph.st.trace[|ph.st.trace| - 1]);
    } else {
      QuietKeepsSuccessAfterSet(st.trace, ph.st.trace);
    }
  }

  /** Appending a `Set` keeps every `OnSuccess` right after its `Set`. */
  lemma AppendSetKeepsSuccessAfterSet(t: seq<Effect>, e: Effect)
    requires e.TargetSet?
    ensures SuccessAfterSet(t) ==> SuccessAfterSet(t + [e])
  {
    if SuccessAfterSet(t) {
      forall i | 0 <= i < |t + [e]| && (t + [e])[i].SuccessCalled?
        ensures 0 < i && (t + [e])[i - 1].TargetSet?
      {
        assert i < |t|;
      }
    }
  }

  /** `PrepareAndTryLoadingFromCacheAsync`: when the memory cache may be
      used, the probe runs, and `Found` or `ErrorOccured` stops the task
      (`true`); otherwise the loading placeholder is attempted and the task
      goes on (`false`). */
  function PrepareAndTryLoadingFromCache(plat: Platform, env: Env, st: St): (r: Out<bool>)
    ensures Extends(st, r.st)
    ensures r.value <==>
      env.canUseMemoryCache && TryLoadingFromCache(env, st).value in {CacheResult.Found, CacheResult.ErrorOccured}
    ensures r.value ==> r.st == TryLoadingFromCache(env, st).st
    ensures !env.canUseMemoryCache ==>
      r.st == LoadPlaceHolder(plat, env, st, env.params.loadingPlaceholderPath, env.params.loadingPlaceholderSource, true).st
    ensures env.canUseMemoryCache && TryLoadingFromCache(env, st).value == CacheResult.NotFound ==>
      r.st == LoadPlaceHolder(plat, env, TryLoadingFromCache(env, st).st, env.params.loadingPlaceholderPath,
                              env.params.loadingPlaceholderSource, true).st
    ensures SuccessAfterSet(st.trace) ==> SuccessAfterSet(r.st.trace)
  {
    var probe := if env.canUseMemoryCache then TryLoadingFromCache(env, st) else Out(CacheResult.NotFound, st);
    if probe.value == CacheResult.Found || probe.value == CacheResult.ErrorOccured then Out(true, probe.st)
    else
      var ph := LoadPlaceHolder(plat, env, probe.st, env.params.loadingPlaceholderPath, env.params.loadingPlaceholderSource, true);
      PlaceholderKeepsSuccessAfterSet(probe.st, ph);
      Out(false, ph.st)
  }

  /** When the task stops at the probe, no loading placeholder is set: the
      only image set on the target is the cached one, marked as coming from
      the cache and not as a placeholder. When it goes on without a usable
      memory cache, the probe is never consulted. */
  lemma PrepareStopsWithoutPlaceholder(plat: Platform, env: Env, st: St)
    requires !st.completed
    ensures var r := PrepareAndTryLoadingFromCache(plat, env, st);
      r.value ==> forall i :: |st.trace| <= i < |r.st.trace| && r.st.trace[i].TargetSet? ==>
        r.st.trace[i] == TargetSet(st.cache[env.ownKey].image.value, true, false)
  {
  }

  /** The end of `TryGeneratingImageAsync` and `LoadFromStreamAsync` once an
      image is in hand: a cancellation check, the target's task check, then
      the posted lambda, which re-checks cancellation, sets the image,
      marks the task completed and calls `OnSuccess`. A lambda that saw
      cancellation leaves `Completed` as it was, and an unfinished task
      answers `Failed`. When `Set` raises, the error placeholder is loaded
      and the exception passes on. */
  function Deliver(plat: Platform, env: Env, st: St, image: Image, isLocal: bool, loaded: Loaded): (r: Out<Result<GenerateResult>>)
    ensures Extends(st, r.st)
    ensures env.cancelled(st.tick) ==> r == Out(Ok(GenerateResult.Canceled), st.(tick := st.tick + 1))
    ensures !env.cancelled(st.tick) && !env.taskValid(st.tick + 1) ==> r == Out(Ok(GenerateResult.InvalidTarget), st.(tick := st.tick + 1))
    ensures r.value.Raised? ==> r.value.error == TargetSetRaised && env.setRaises
    ensures !env.cancelled(st.tick) && env.taskValid(st.tick + 1) && env.cancelled(st.tick + 1) ==>
      r == Out(Ok(if st.completed then GenerateResult.Success else GenerateResult.Failed), st.(tick := st.tick + 2))
    ensures !env.cancelled(st.tick) && env.taskValid(st.tick + 1) && !env.cancelled(st.tick + 1) && env.setRaises ==>
      && r.value == Raised(TargetSetRaised)
      && r.st == LoadPlaceHolder(plat, env, st.(tick := st.tick + 2), env.params.errorPlaceholderPath,
                                 env.params.errorPlaceholderSource, false).st
    ensures !env.cancelled(st.tick) && env.taskValid(st.tick + 1) && !env.cancelled(st.tick + 1) && !env.setRaises ==>
      && r.value == Ok(GenerateResult.Success) && r.st.completed
    ensures r.value == Ok(GenerateResult.Failed) ==> r.st.trace == st.trace && !st.completed
    ensures r.value.Ok? ==> r.st.cache == st.cache
    ensures !st.completed && r.st.completed ==> r.value == Ok(GenerateResult.Success)
    ensures r.value == Ok(GenerateResult.Success) && !st.completed ==>
      && r.st.completed && r.st.cache == st.cache
      && r.st.trace == st.trace + [TargetSet(image, isLocal, false), SuccessCalled(loaded.info, loaded.result)]
    ensures NoLoadingSetFrom(|st.trace|, r.st.trace)
    ensures SuccessAfterSet(st.trace) ==> SuccessAfterSet(r.st.trace)
  {
    var c1 := Check(env, st);
    if c1.value then Out(Ok(GenerateResult.Canceled), c1.st)
    else if !env.taskValid(c1.st.tick) then Out(Ok(GenerateResult.InvalidTarget), c1.st)
    else
      var c2 := Check(env, c1.st);
      if c2.value then Out(Ok(if c2.st.completed then GenerateResult.Success else GenerateResult.Failed), c2.st)
      else if env.setRaises then
        var ph := LoadPlaceHolder(plat, env, c2.st, env.params.errorPlaceholderPath, env.params.errorPlaceholderSource, false);
        PlaceholderKeepsSuccessAfterSet(c2.st, ph);
        Out(Raised(TargetSetRaised), ph.st)
      else
        var s1 := Emit(c2.st, TargetSet(image, isLocal, false));
        var s2 := Emit(s1.(completed := true), SuccessCalled(loaded.info, loaded.result));
        Out(Ok(GenerateResult.Success), s2)
  }

  /** The `isLoadingPlaceholder` flag the variant passes when it loads the
      error placeholder after a retrieval without image: `false` on Windows,
      `true` on Touch. */
  function ErrorPlaceholderFlag(plat: Platform): bool {
    plat.Touch?
  }

  /** `TryGeneratingImageAsync` once `RetrieveImageAsync` has answered
      (`rr`; an exception counts as `Failed`): without an image, load the
      error placeholder marked with `errorFlag` and answer the result's
      `GenerateResult`; with one, deliver it. */
  function AfterRetrieve(plat: Platform, env: Env, st: St, rr: Out<Result<Loaded>>, errorFlag: bool): (r: Out<Result<GenerateResult>>)
    requires Extends(st, rr.st) && rr.st.completed == st.completed && Quiet(|st.trace|, rr.st.trace)
    ensures Extends(st, r.st)
    ensures r.value.Raised? ==> r.value.error == TargetSetRaised
    ensures rr.value.Raised? ==> r.value == Ok(env.generateOf(LoadingResult.Failed))
    ensures rr.value.Ok? && rr.value.value.image.None? ==> r.value == Ok(env.generateOf(rr.value.value.result))
    ensures rr.value.Raised? || rr.value.value.image.None? ==>
      r.st == LoadPlaceHolder(plat, env, rr.st, env.params.errorPlaceholderPath, env.params.errorPlaceholderSource, errorFlag).st
    ensures rr.value.Ok? && rr.value.value.image.Some? ==>
      r == Deliver(plat, env, rr.st, rr.value.value.image.value, env.isLocalOrCached(rr.value.value.result), rr.value.value)
    ensures !st.completed && r.st.completed ==>
      && r.value == Ok(GenerateResult.Success)
      && rr.value.Ok? && rr.value.value.image.Some?
      && |r.st.trace| >= 2 + |st.trace|
      && r.st.trace[|r.st.trace| - 2]
         == TargetSet(rr.value.value.image.value, env.isLocalOrCached(rr.value.value.result), false)
      && r.st.trace[|r.st.trace| - 1] == SuccessCalled(rr.value.value.info, rr.value.value.result)
    ensures SuccessAfterSet(st.trace) ==> SuccessAfterSet(r.st.trace)
    ensures !errorFlag ==> NoLoadingSetFrom(|st.trace|, r.st.trace)
  {
    var loaded := if rr.value.Raised? then WithResult(LoadingResult.Failed) else rr.value.value;
    if loaded.image.None? then
      var ph := ErrorPlaceholderAfterQuiet(plat, env, st, rr.st, errorFlag);
      Out(Ok(env.generateOf(loaded.result)), ph.st)
    else
      DeliverAfterQuiet(plat, env, st, rr.st, loaded.image.value, env.isLocalOrCached(loaded.result), loaded)
  }

  /** Loading the error placeholder after quiet work since `st`: the task
      stays as it was, and with the flag `false` no loading placeholder is
      set from `st` on. */
  function ErrorPlaceholderAfterQuiet(plat: Platform, env: Env, st: St, mid: St, flag: bool): (r: Out<bool>)
    requires Extends(st, mid) && mid.completed == st.completed && Quiet(|st.trace|, mid.trace)
    ensures r == LoadPlaceHolder(plat, env, mid, env.params.errorPlaceholderPath, env.params.errorPlaceholderSource, flag)
    ensures Extends(st, r.st) && r.st.completed == st.completed
    ensures SuccessAfterSet(st.trace) ==> SuccessAfterSet(r.st.trace)
    ensures !flag ==> NoLoadingSetFrom(|st.trace|, r.st.trace)
  {
    QuietKeepsSuccessAfterSet(st.trace, mid.trace);
    var ph := LoadPlaceHolder(plat, env, mid, env.params.errorPlaceholderPath, env.params.errorPlaceholderSource, flag);
    PlaceholderKeepsSuccessAfterSet(mid, ph);
    NoLoadingSetAfterQuiet(st.trace, mid.trace, ph.st.trace);
    ph
  }

  /** Delivering an image after quiet work since `st`: the task completes
      only with `Success`, by setting the image (not as a placeholder) and
      then calling `OnSuccess`. */
  function DeliverAfterQuiet(plat: Platform, env: Env, st: St, mid: St, image: Image, isLocal: bool, loaded: Loaded): (r: Out<Result<GenerateResult>>)
    requires Extends(st, mid) && mid.completed == st.completed && Quiet(|st.trace|, mid.trace)
    ensures r == Deliver(plat, env, mid, image, isLocal, loaded)
    ensures Extends(st, r.st)
    ensures r.value.Raised? ==> r.value.error == TargetSetRaised
    ensures !st.completed && r.st.completed ==>
      && r.value == Ok(GenerateResult.Success)
      && r.st.cache == mid.cache
      && |r.st.trace| >= 2 + |st.trace|
      && r.st.trace[|r.st.trace| - 2] == TargetSet(image, isLocal, false)
      && r.st.trace[|r.st.trace| - 1] == SuccessCalled(loaded.info, loaded.result)
    ensures r.value.Ok? ==> r.st.cache == mid.cache
    ensures SuccessAfterSet(st.trace) ==> SuccessAfterSet(r.st.trace)
    ensures NoLoadingSetFrom(|st.trace|, r.st.trace)
  {
    QuietKeepsSuccessAfterSet(st.trace, mid.trace);
    var d := Deliver(plat, env, mid, image, isLocal, loaded);
    NoLoadingSetAfterQuiet(st.trace, mid.trace, d.st.trace);
    d
  }

  /** `TryGeneratingImageAsync`, as each variant is written: the image
      retrieved for the task's path, and the error placeholder marked with
      the variant's flag. The task completes only by setting the image,
      not as a placeholder, and then calling `OnSuccess`; on Windows no
      loading placeholder is ever set. */
  function TryGeneratingImage(plat: Platform, env: Env, st: St): (r: Out<Result<GenerateResult>>)
    ensures Extends(st, r.st)
    ensures r.value.Raised? ==> r.value.error == TargetSetRaised
    ensures !st.completed && r.st.completed ==>
      var rr := Retrieve(plat, env, st, env.params.path, env.params.source, false);
      && r.value == Ok(GenerateResult.Success)
      && rr.value.Ok? && rr.value.value.image.Some?
      && |r.st.trace| >= 2 + |st.trace|
      && r.st.trace[|r.st.trace| - 2]
         == TargetSet(rr.value.value.image.value, env.isLocalOrCached(rr.value.value.result), false)
      && r.st.trace[|r.st.trace| - 1] == SuccessCalled(rr.value.value.info, rr.value.value.result)
    ensures var rr := Retrieve(plat, env, st, env.params.path, env.params.source, false);
      && (rr.value.Raised? || rr.value.value.image.None? ==>
            && r.value == Ok(env.generateOf(if rr.value.Raised? then LoadingResult.Failed else rr.value.value.result))
            && r.st == LoadPlaceHolder(plat, env, rr.st, env.params.errorPlaceholderPath,
                                       env.params.errorPlaceholderSource, ErrorPlaceholderFlag(plat)).st)
      && (rr.value.Ok? && rr.value.value.image.Some? ==>
            && r == Deliver(plat, env, rr.st, rr.value.value.image.value, env.isLocalOrCached(rr.value.value.result), rr.value.value)
            && (r.value == Ok(GenerateResult.Success) && !st.completed ==> r.st.completed)
            && (!env.cancelled(rr.st.tick) && env.taskValid(rr.st.tick + 1) && env.cancelled(rr.st.tick + 1) ==>
                  r.value == Ok(if st.completed then GenerateResult.Success else GenerateResult.Failed)))
    ensures SuccessAfterSet(st.trace) ==> SuccessAfterSet(r.st.trace)
    ensures plat.Windows? ==> NoLoadingSetFrom(|st.trace|, r.st.trace)
  {
    AfterRetrieve(plat, env, st, Retrieve(plat, env, st, env.params.path, env.params.source, false), ErrorPlaceholderFlag(plat))
  }

  /** As written, a Touch task whose retrieval yields no image sets its error
      placeholder on the target marked as a loading placeholder, where the
      Windows task marks the same image as not one. Shown here when the task
      exits early and the placeholder is already in the memory cache. */
  lemma TouchMarksErrorPlaceholderAsLoading(o: T.Oracles, w: W.Oracles, env: Env, st: St, img: Image)
    requires env.exitTasksEarly && env.targetValid(st.tick + 1) && !env.cancelled(st.tick + 1)
    requires !IsNullOrWhiteSpace(env.params.path)
    requires !IsNullOrWhiteSpace(env.params.errorPlaceholderPath)
    requires CachedImage(st, env.keyOf(env.params.errorPlaceholderPath)) == Some(img)
    ensures TryGeneratingImage(Touch(o), env, st).st.trace == st.trace + [TargetSet(img, true, true)]
    ensures TryGeneratingImage(Windows(w), env, st).st.trace == st.trace + [TargetSet(img, true, false)]
  {
    var st1 := st.(tick := st.tick + 1);
    var rt := Retrieve(Touch(o), env, st, env.params.path, env.params.source, false);
    assert rt == Out(Ok(WithResult(LoadingResult.Canceled)), st1);
    var rw := Retrieve(Windows(w), env, st, env.params.path, env.params.source, false);
    assert rw == Out(Ok(WithResult(LoadingResult.Canceled)), st1);
    var path := env.params.errorPlaceholderPath;
    assert LoadPlaceHolder(Touch(o), env, st1, path, env.params.errorPlaceholderSource, true).st.trace
      == st.trace + [TargetSet(img, true, true)];
    assert LoadPlaceHolder(Windows(w), env, st1, path, env.params.errorPlaceholderSource, false).st.trace
      == st.trace + [TargetSet(img, true, false)];
  }

  /** `TryGeneratingImageAsync` with the error placeholder marked as not a
      loading placeholder on both variants, as on Windows and at every other
      call of the placeholder loader on Touch. It never sets a loading
      placeholder, and on Windows it is the task as written. */
  function TryGeneratingImageIntended(plat: Platform, env: Env, st: St): (r: Out<Result<GenerateResult>>)
    ensures Extends(st, r.st)
    ensures r.value.Raised? ==> r.value.error == TargetSetRaised
    ensures !st.completed && r.st.completed ==>
      var rr := Retrieve(plat, env, st, env.params.path, env.params.source, false);
      && r.value == Ok(GenerateResult.Success)
      && rr.value.Ok? && rr.value.value.image.Some?
      && |r.st.trace| >= 2 + |st.trace|
      && r.st.trace[|r.st.trace| - 2]
         == TargetSet(rr.value.value.image.value, env.isLocalOrCached(rr.value.value.result), false)
      && r.st.trace[|r.st.trace| - 1] == SuccessCalled(rr.value.value.info, rr.value.value.result)
    ensures var rr := Retrieve(plat, env, st, env.params.path, env.params.source, false);
      && (rr.value.Raised? || rr.value.value.image.None? ==>
            && r.value == Ok(env.generateOf(if rr.value.Raised? then LoadingResult.Failed else rr.value.value.result))
            && r.st == LoadPlaceHolder(plat, env, rr.st, env.params.errorPlaceholderPath,
                                       env.params.errorPlaceholderSource, false).st)
      && (rr.value.Ok? && rr.value.value.image.Some? ==>
            && r == Deliver(plat, env, rr.st, rr.value.value.image.value, env.isLocalOrCached(rr.value.value.result), rr.value.value)
            && (r.value == Ok(GenerateResult.Success) && !st.completed ==> r.st.completed)
            && (!env.cancelled(rr.st.tick) && env.taskValid(rr.st.tick + 1) && env.cancelled(rr.st.tick + 1) ==>
                  r.value == Ok(if st.completed then GenerateResult.Success else GenerateResult.Failed)))
    ensures NoLoadingSetFrom(|st.trace|, r.st.trace)
    ensures plat.Windows? ==> r == TryGeneratingImage(plat, env, st)
  {
    AfterRetrieve(plat, env, st, Retrieve(plat, env, st, env.params.path, env.params.source, false), false)
  }

  /** From index `from` on, every image set on the target is marked as not a
      loading placeholder. */
  predicate NoLoadingSetFrom(from: nat, trace: seq<Effect>) {
    forall i :: from <= i < |trace| && trace[i].TargetSet? ==> !trace[i].isLoadingPlaceholder
  }

  /** Quiet work followed by work that sets no loading placeholder sets
      none. */
  lemma NoLoadingSetAfterQuiet(trace: seq<Effect>, mid: seq<Effect>, trace': seq<Effect>)
    requires trace <= mid <= trace' && Quiet(|trace|, mid)
    ensures NoLoadingSetFrom(|mid|, trace') ==> NoLoadingSetFrom(|trace|, trace')
  {
  }

  /** `LoadFromStreamAsync(stream)`: a null stream fails and a cancelled task
      is `Canceled`, both before the stream is read; an exception while
      reading counts as `Failed`; without an image the error placeholder is
      loaded and the result's `GenerateResult` answered; with one, the image
      goes into the memory cache under the task's own key, when that cache
      may be used, and is delivered as local. */
  function LoadFromStream(plat: Platform, env: Env, st: St, stream: Option<StreamHandle>): (r: Out<Result<GenerateResult>>)
    ensures Extends(st, r.st)
    ensures stream.None? ==> r == Out(Ok(GenerateResult.Failed), st)
    ensures stream.Some? && env.cancelled(st.tick) ==> r == Out(Ok(GenerateResult.Canceled), st.(tick := st.tick + 1))
    ensures r.value.Raised? ==> r.value.error == TargetSetRaised
    ensures !st.completed && r.st.completed ==>
      && r.value == Ok(GenerateResult.Success)
      && |r.st.trace| >= 2 + |st.trace|
      && r.st.trace[|r.st.trace| - 2].TargetSet?
      && r.st.trace[|r.st.trace| - 2].isLocalOrFromCache && !r.st.trace[|r.st.trace| - 2].isLoadingPlaceholder
      && r.st.trace[|r.st.trace| - 1].SuccessCalled?
      && (env.canUseMemoryCache ==> env.ownKey in r.st.cache && r.st.cache[env.ownKey].image.Some?)
      && (!env.canUseMemoryCache ==> r.st.cache == st.cache)
    ensures stream.Some? && !env.cancelled(st.tick) ==>
      var g := GetImageFromStream(plat, env, st.(tick := st.tick + 1), stream.value);
      && (!st.completed && r.st.completed ==>
            && g.value.Ok? && g.value.value.image.Some?
            && r.st.trace[|r.st.trace| - 2] == TargetSet(g.value.value.image.value, true, false)
            && r.st.trace[|r.st.trace| - 1] == SuccessCalled(g.value.value.info, g.value.value.result))
      && (g.value.Ok? && g.value.value.image.Some? && r.value.Ok? ==>
            r.st.cache == (if env.canUseMemoryCache
                           then st.cache[env.ownKey := Entry(g.value.value.image, g.value.value.info)]
                           else st.cache))
    ensures stream.Some? && !env.cancelled(st.tick) ==>
      var g := GetImageFromStream(plat, env, st.(tick := st.tick + 1), stream.value);
      && (g.value.Raised? || g.value.value.image.None? ==>
            && r.value == Ok(env.generateOf(if g.value.Raised? then LoadingResult.Failed else g.value.value.result))
            && r.st == LoadPlaceHolder(plat, env, g.st, env.params.errorPlaceholderPath,
                                       env.params.errorPlaceholderSource, false).st)
      && (g.value.Ok? && g.value.value.image.Some? ==>
            var mid := StreamCached(env, g.st, g.value.value);
            && r == Deliver(plat, env, mid, g.value.value.image.value, true, g.value.value)
            && (r.value == Ok(GenerateResult.Success) && !st.completed ==> r.st.completed)
            && (!env.cancelled(mid.tick) && env.taskValid(mid.tick + 1) && env.cancelled(mid.tick + 1) ==>
                  r.value == Ok(if st.completed then GenerateResult.Success else GenerateResult.Failed)))
    ensures NoLoadingSetFrom(|st.trace|, r.st.trace)
    ensures SuccessAfterSet(st.trace) ==> SuccessAfterSet(r.st.trace)
  {
    if stream.None? then Out(Ok(GenerateResult.Failed), st)
    else
      var c := Check(env, st);
      if c.value then Out(Ok(GenerateResult.Canceled), c.st)
      else
        AfterStream(plat, env, st, GetImageFromStream(plat, env, c.st, stream.value))
  }

  /** `LoadFromStreamAsync` once the stream has been read (`g`; an exception
      counts as `Failed`): without an image, load the error placeholder and
      answer the result's `GenerateResult`; with one, cache it and deliver it
      as local. */
  function AfterStream(plat: Platform, env: Env, st: St, g: Out<Result<Loaded>>): (r: Out<Result<GenerateResult>>)
    requires Extends(st, g.st) && g.st.completed == st.completed && Quiet(|st.trace|, g.st.trace)
    ensures Extends(st, r.st)
    ensures r.value.Raised? ==> r.value.error == TargetSetRaised
    ensures g.value.Raised? || g.value.value.image.None? ==>
      && r.value == Ok(env.generateOf(if g.value.Raised? then LoadingResult.Failed else g.value.value.result))
      && r.st == LoadPlaceHolder(plat, env, g.st, env.params.errorPlaceholderPath, env.params.errorPlaceholderSource, false).st
    ensures g.value.Ok? && g.value.value.image.Some? ==>
      var mid := StreamCached(env, g.st, g.value.value);
      && r == Deliver(plat, env, mid, g.value.value.image.value, true, g.value.value)
      && (r.value.Ok? ==> r.st.cache == mid.cache)
      && (r.value == Ok(GenerateResult.Success) && !st.completed ==> r.st.completed)
      && (!env.cancelled(mid.tick) && env.taskValid(mid.tick + 1) && env.cancelled(mid.tick + 1) ==>
            r.value == Ok(if st.completed then GenerateResult.Success else GenerateResult.Failed))
    ensures !st.completed && r.st.completed ==>
      && r.value == Ok(GenerateResult.Success)
      && g.value.Ok? && g.value.value.image.Some?
      && |r.st.trace| >= 2 + |st.trace|
      && r.st.trace[|r.st.trace| - 2] == TargetSet(g.value.value.image.value, true, false)
      && r.st.trace[|r.st.trace| - 1] == SuccessCalled(g.value.value.info, g.value.value.result)
      && r.st.cache == StreamCached(env, g.st, g.value.value).cache
    ensures NoLoadingSetFrom(|st.trace|, r.st.trace)
    ensures SuccessAfterSet(st.trace) ==> SuccessAfterSet(r.st.trace)
  {
    var loaded := if g.value.Raised? then WithResult(LoadingResult.Failed) else g.value.value;
    if loaded.image.None? then
      var ph := ErrorPlaceholderAfterQuiet(plat, env, st, g.st, false);
      Out(Ok(env.generateOf(loaded.result)), ph.st)
    else CacheAndDeliver(plat, env, st, g.st, loaded)
  }

  /** The state after `LoadFromStreamAsync` caches an image read from a
      stream: the entry under the task's own key when the memory cache may
      be used, the state unchanged otherwise. */
  function StreamCached(env: Env, mid: St, loaded: Loaded): (r: St)
    ensures r.tick == mid.tick && r.completed == mid.completed
    ensures mid.trace <= r.trace && Quiet(|mid.trace|, r.trace)
    ensures r.cache == (if env.canUseMemoryCache then mid.cache[env.ownKey := Entry(loaded.image, loaded.info)] else mid.cache)
  {
    if env.canUseMemoryCache then CacheAdd(mid, env.ownKey, loaded.info, loaded.image) else mid
  }

  /** The end of `LoadFromStreamAsync` once the stream gave an image: the
      image goes into the memory cache under the task's own key when that
      cache may be used, and is then delivered as local. */
  function CacheAndDeliver(plat: Platform, env: Env, st: St, mid: St, loaded: Loaded): (r: Out<Result<GenerateResult>>)
    requires loaded.image.Some?
    requires Extends(st, mid) && mid.completed == st.completed && Quiet(|st.trace|, mid.trace)
    ensures Extends(st, r.st)
    ensures r.value.Raised? ==> r.value.error == TargetSetRaised
    ensures !st.completed && r.st.completed ==>
      && r.value == Ok(GenerateResult.Success)
      && |r.st.trace| >= 2 + |st.trace|
      && r.st.trace[|r.st.trace| - 2] == TargetSet(loaded.image.value, true, false)
      && r.st.trace[|r.st.trace| - 1] == SuccessCalled(loaded.info, loaded.result)
      && (env.canUseMemoryCache ==> env.ownKey in r.st.cache && r.st.cache[env.ownKey] == Entry(loaded.image, loaded.info))
      && (!env.canUseMemoryCache ==> r.st.cache == mid.cache)
    ensures r.value.Ok? ==>
      r.st.cache == (if env.canUseMemoryCache then mid.cache[env.ownKey := Entry(loaded.image, loaded.info)] else mid.cache)
    ensures r == Deliver(plat, env, StreamCached(env, mid, loaded), loaded.image.value, true, loaded)
    ensures NoLoadingSetFrom(|st.trace|, r.st.trace)
    ensures SuccessAfterSet(st.trace) ==> SuccessAfterSet(r.st.trace)
  {
    var st1 := StreamCached(env, mid, loaded);
    assert Quiet(|st.trace|, st1.trace);
    DeliverAfterQuiet(plat, env, st, st1, loaded.image.value, true, loaded)
  }
}
