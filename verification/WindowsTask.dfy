/** The Windows `ImageLoaderTask`: opening the stream, turning it into an
    image (`GetImageAsync`), and fetching an image for a path
    (`RetrieveImageAsync`). The decision ladder that calls these lives in
    `TaskLadder`.

    The resolver and the decoders are outside the model; what they answer is
    given by `Oracles`. A decoder that raises answers `Raised`. */
module WindowsTask {
  import opened Common
  import TP = TaskParameters
  import opened LoaderTask

  /** `WithLoadingResult<Stream>`: the stream (null on failure), the loading
      result and the image information. */
  datatype StreamResult = StreamResult(stream: Option<StreamHandle>, result: LoadingResult, info: Option<ImageInformation>)

  /** What `resolver.GetStream` does: returns, or raises cancellation, or
      raises anything else. */
  datatype StreamOutcome = Resolved(sr: StreamResult) | ResolveCanceled | ResolveRaised

  datatype Oracles = Oracles(
    resolve: (string, TP.ImageSource, nat) -> StreamOutcome,  // the resolver, on the first (0) or second (1) opening
    decodeHolder: StreamHandle -> Result<Image>,              // stream.ToBitmapHolderAsync(...)
    toBitmap: Image -> Image,                                 // holder.ToBitmapImageAsync()
    decodeDirect: StreamHandle -> Result<Option<Image>>)      // stream.ToBitmapImageAsync(...)

  /** `GetStreamAsync(path, source)`: a blank path fails without asking the
      resolver; a cancelled resolution gives `Canceled`, any other exception
      `Failed`. `attempt` tells the first opening from the re-opening. */
  function GetStream(o: Oracles, path: string, source: TP.ImageSource, attempt: nat): (r: StreamResult)
    ensures IsNullOrWhiteSpace(Some(path)) ==> r == StreamResult(None, LoadingResult.Failed, None)
    ensures !IsNullOrWhiteSpace(Some(path)) ==>
      match o.resolve(path, source, attempt)
      case Resolved(sr) => r == sr
      case ResolveCanceled => r == StreamResult(None, LoadingResult.Canceled, None)
      case ResolveRaised => r == StreamResult(None, LoadingResult.Failed, None)
  {
    if IsNullOrWhiteSpace(Some(path)) then StreamResult(None, LoadingResult.Failed, None)
    else
      match o.resolve(path, source, attempt)
      case Resolved(sr) => sr
      case ResolveCanceled => StreamResult(None, LoadingResult.Canceled, None)
      case ResolveRaised => StreamResult(None, LoadingResult.Failed, None)
  }

  /** The result of the `try` block of `GetImageAsync`, and the stream the
      `finally` block disposes. */
  datatype Attempt = Attempt(loaded: Loaded, open: Option<StreamHandle>)

  /** The key `SetKey` records: the task's own key for the stream overload,
      the key of the path otherwise. */
  function InfoKey(env: Env, path: string): string {
    if path == "Stream" then env.ownKey else env.keyOf(Some(path))
  }

  /** From the position check to the end of the `try` block: rewind or
      re-open the stream, check cancellation, refuse WebP, then decode,
      through the transformations when they run. */
  function DecodeStream(env: Env, o: Oracles, st: St, path: string, source: TP.ImageSource, isPlaceholder: bool,
                        original: Option<StreamHandle>, sw: StreamResult): (r: Out<Attempt>)
    requires !IsError(sw.result)
    ensures Extends(st, r.st) && r.st.cache == st.cache && r.st.completed == st.completed
    ensures Quiet(|st.trace|, r.st.trace)
    ensures r.value.loaded.image.Some? ==> !IsError(r.value.loaded.result)
    ensures IsWebPPath(path) ==> r.value.loaded.image.None? && IsError(r.value.loaded.result)
    ensures r.value.loaded.image.Some? ==> r.value.loaded.info.Some? && r.value.loaded.info.value.key == Some(InfoKey(env, path))
    ensures sw.stream.None? ==> r == Out(Attempt(WithResult(LoadingResult.Failed), None), st)
    ensures sw.stream.Some? && (sw.stream.value.atStart || sw.stream.value.canSeek) ==>
      r == DecodeRewound(env, o, st, path, isPlaceholder, sw)
    ensures sw.stream.Some? && !sw.stream.value.atStart && !sw.stream.value.canSeek ==>
      var s := sw.stream.value;
      var sw2 := GetStream(o, path, source, 1);
      if original.Some? then r == Out(Attempt(WithResult(LoadingResult.Failed), Some(s)), st)
      else if IsError(sw2.result) then r == Out(Attempt(WithResult(sw2.result), Some(s)), Emit(st, StreamDisposed(s)))
      else r == DecodeRewound(env, o, Emit(st, StreamDisposed(s)), path, isPlaceholder, sw2)
  {
    if sw.stream.None? then
      // reading `Position` of a null stream raises, and the inner catch answers Failed
      Out(Attempt(WithResult(LoadingResult.Failed), None), st)
    else
      var s := sw.stream.value;
      if !s.atStart && !s.canSeek then
        if original.Some? then Out(Attempt(WithResult(LoadingResult.Failed), Some(s)), st)
        else
          var st1 := Emit(st, StreamDisposed(s));
          var sw2 := GetStream(o, path, source, 1);
          if IsError(sw2.result) then Out(Attempt(WithResult(sw2.result), Some(s)), st1)
          else DecodeRewound(env, o, st1, path, isPlaceholder, sw2)
      else DecodeRewound(env, o, st, path, isPlaceholder, sw)
  }

  /** The rest of the `try` block once the stream is at its start. */
  function DecodeRewound(env: Env, o: Oracles, st: St, path: string, isPlaceholder: bool, sw: StreamResult): (r: Out<Attempt>)
    requires !IsError(sw.result)
    ensures Extends(st, r.st) && r.st.cache == st.cache && r.st.completed == st.completed && r.st.trace == st.trace
    ensures r.value.open == sw.stream
    ensures r.value.loaded.image.Some? ==> r.value.loaded.result == sw.result
    ensures env.cancelled(st.tick) ==> r == Out(Attempt(WithResult(LoadingResult.Canceled), sw.stream), st.(tick := st.tick + 1))
    ensures IsWebPPath(path) ==>
      r.value.loaded == WithResult(if env.cancelled(st.tick) then LoadingResult.Canceled else LoadingResult.Failed)
    ensures r.value.loaded.image.Some? ==> r.value.loaded.info.Some? && r.value.loaded.info.value.key == Some(InfoKey(env, path))
    ensures !env.cancelled(st.tick) && !IsWebPPath(path) && sw.stream.Some? ==>
      var info := Some(WithKey(sw.info, InfoKey(env, path), env.params.customCacheKey));
      if RunsTransformations(env.params, env.transformPlaceholdersDefault, isPlaceholder) then
        var ts := env.params.transformations.value;
        match o.decodeHolder(sw.stream.value)
        case Raised(_) => r.value.loaded == WithResult(LoadingResult.Failed)
        case Ok(h) =>
          && (NoCancel(env, st.tick + 1, |ts|) ==>
                r.value.loaded == Loaded(Some(o.toBitmap(Transformed(env.apply, ts, h))), sw.result, info))
          && (!NoCancel(env, st.tick + 1, |ts|) ==> r.value.loaded == WithResult(LoadingResult.Canceled))
      else
        match o.decodeDirect(sw.stream.value)
        case Raised(_) => r.value.loaded == WithResult(LoadingResult.Failed)
        case Ok(d) => r.value.loaded == Loaded(d, sw.result, info)
  {
    var c := Check(env, st);
    if c.value then Out(Attempt(WithResult(LoadingResult.Canceled), sw.stream), c.st)
    else if IsWebPPath(path) then Out(Attempt(WithResult(LoadingResult.Failed), sw.stream), c.st)
    else
      var info := WithKey(sw.info, InfoKey(env, path), env.params.customCacheKey);
      if RunsTransformations(env.params, env.transformPlaceholdersDefault, isPlaceholder) then
        var holder := if sw.stream.None? then Raised(NullReference) else o.decodeHolder(sw.stream.value);
        if holder.Raised? then Out(Attempt(WithResult(LoadingResult.Failed), sw.stream), c.st)
        else
          var loop := TransformLoop(env, c.st, env.params.transformations.value, Some(holder.value));
          if loop.value.Stopped? then Out(Attempt(WithResult(LoadingResult.Canceled), sw.stream), loop.st)
          else
            ApplyAllKeepsImage(env.apply, env.params.transformations.value, Some(holder.value));
            var img := loop.value.image.value;
            Out(Attempt(Loaded(Some(o.toBitmap(img)), sw.result, Some(info)), sw.stream), loop.st)
      else
        var direct := if sw.stream.None? then Raised(NullReference) else o.decodeDirect(sw.stream.value);
        if direct.Raised? then Out(Attempt(WithResult(LoadingResult.Failed), sw.stream), c.st)
        else Out(Attempt(Loaded(direct.value, sw.result, Some(info)), sw.stream), c.st)
  }

  /** The image the transformation fold ends with, starting from a present
      one. */
  function Transformed(apply: (TP.Transformation, Image) -> Option<Image>, ts: seq<TP.Transformation>, img: Image): (r: Image)
    ensures ApplyAll(apply, ts, Some(img)) == Some(r)
  {
    ApplyAllKeepsImage(apply, ts, Some(img));
    ApplyAll(apply, ts, Some(img)).value
  }

  /** The fold never loses an image it started with. */
  lemma {:induction false} ApplyAllKeepsImage(apply: (TP.Transformation, Image) -> Option<Image>, ts: seq<TP.Transformation>, img: Option<Image>)
    requires img.Some?
    ensures ApplyAll(apply, ts, img).Some?
    decreases |ts|
  {
    if ts != [] {
      ApplyAllKeepsImage(apply, ts[1..], ApplyStep(apply, ts[0], img));
    }
  }

  /** `GetImageAsync(path, source, isPlaceholder, originalStream)`: two
      cancellation checks, then the stream (the one given, tagged `Stream`,
      or one from the resolver), a third check, and the `try` block, after
      which the stream the method holds is disposed. */
  function GetImage(env: Env, o: Oracles, st: St, path: string, source: TP.ImageSource, isPlaceholder: bool,
                    original: Option<StreamHandle>): (r: Out<Loaded>)
    ensures Extends(st, r.st) && r.st.cache == st.cache && r.st.completed == st.completed
    ensures Quiet(|st.trace|, r.st.trace)
    ensures env.cancelled(st.tick) ==> r == Out(WithResult(LoadingResult.Canceled), st.(tick := st.tick + 1))
    ensures r.value.image.Some? ==> !HasError(r.value)
    ensures r.value.image.Some? ==> r.value.info.Some? && r.value.info.value.key == Some(InfoKey(env, path))
    ensures IsWebPPath(path) ==> r.value.image.None? && HasError(r.value)
    ensures !env.cancelled(st.tick) && env.cancelled(st.tick + 1) ==>
      r == Out(WithResult(LoadingResult.Canceled), st.(tick := st.tick + 2))
    ensures NoCancel(env, st.tick, 2) ==>
      var sw := if original.Some? then StreamResult(original, LoadingResult.Stream, None)
                else GetStream(o, path, source, 0);
      && (IsError(sw.result) ==> r == Out(WithResult(sw.result), st.(tick := st.tick + 2)))
      && (!IsError(sw.result) && env.cancelled(st.tick + 2) ==>
            r == Out(WithResult(LoadingResult.Canceled), st.(tick := st.tick + 3)))
      && (!IsError(sw.result) && !env.cancelled(st.tick + 2) ==>
            var a := DecodeStream(env, o, st.(tick := st.tick + 3), path, source, isPlaceholder, original, sw);
            && r.value == a.value.loaded
            && r.st == (if a.value.open.Some? then Emit(a.st, StreamDisposed(a.value.open.value)) else a.st))
    ensures NoCancel(env, st.tick, 3) ==>
      var sw := if original.Some? then StreamResult(original, LoadingResult.Stream, None)
                else GetStream(o, path, source, 0);
      !IsError(sw.result) && sw.stream.Some? && (sw.stream.value.atStart || sw.stream.value.canSeek) ==>
        r.value == DecodeRewound(env, o, st.(tick := st.tick + 3), path, isPlaceholder, sw).value.loaded
  {
    var c1 := Check(env, st);
    if c1.value then Out(WithResult(LoadingResult.Canceled), c1.st)
    else
      var c2 := Check(env, c1.st);
      if c2.value then Out(WithResult(LoadingResult.Canceled), c2.st)
      else
        var sw := if original.Some? then StreamResult(original, LoadingResult.Stream, None)
                  else GetStream(o, path, source, 0);
        if IsError(sw.result) then Out(WithResult(sw.result), c2.st)
        else
          var c3 := Check(env, c2.st);
          // this return comes before the `try`, so its `finally` does not run
          if c3.value then Out(WithResult(LoadingResult.Canceled), c3.st)
          else
            var a := DecodeStream(env, o, c3.st, path, source, isPlaceholder, original, sw);
            var st' := if a.value.open.Some? then Emit(a.st, StreamDisposed(a.value.open.value)) else a.st;
            Out(a.value.loaded, st')
  }

  /** The stream the resolver opens is disposed when the method reaches its
      `try` block, but a cancellation read between opening the stream and
      entering the block returns with the stream still open. */
  lemma GetImageDisposesStream(env: Env, o: Oracles, st: St, path: string, source: TP.ImageSource, isPlaceholder: bool,
                               s: StreamHandle, info: Option<ImageInformation>, result: LoadingResult)
    requires !IsNullOrWhiteSpace(Some(path)) && !IsError(result)
    requires o.resolve(path, source, 0) == Resolved(StreamResult(Some(s), result, info))
    requires s.atStart || s.canSeek
    requires !env.cancelled(st.tick) && !env.cancelled(st.tick + 1)
    ensures env.cancelled(st.tick + 2) ==>
      GetImage(env, o, st, path, source, isPlaceholder, None).st.trace == st.trace
    ensures !env.cancelled(st.tick + 2) ==>
      GetImage(env, o, st, path, source, isPlaceholder, None).st.trace == st.trace + [StreamDisposed(s)]
  {
  }

  /** `RetrieveImageAsync(sourcePath, source, isPlaceholder)`: a blank path
      fails; then cancellation or the exit-early flag gives `Canceled` and an
      invalid target `InvalidTarget`, all before any retrieval. A result
      without error is added to the memory cache under the path's key, with
      its image even when that is null; an error result never is. */
  function RetrieveImage(env: Env, o: Oracles, st: St, path: Option<string>, source: TP.ImageSource, isPlaceholder: bool): (r: Out<Loaded>)
    ensures Extends(st, r.st) && r.st.completed == st.completed
    ensures Quiet(|st.trace|, r.st.trace)
    ensures IsNullOrWhiteSpace(path) ==> r == Out(WithResult(LoadingResult.Failed), st)
    ensures !IsNullOrWhiteSpace(path) && (env.cancelled(st.tick) || env.exitTasksEarly) ==>
      r == Out(WithResult(LoadingResult.Canceled), st.(tick := st.tick + 1))
    ensures !IsNullOrWhiteSpace(path) && !env.cancelled(st.tick) && !env.exitTasksEarly && !env.taskValid(st.tick + 1) ==>
      r == Out(WithResult(LoadingResult.InvalidTarget), st.(tick := st.tick + 1))
    ensures HasError(r.value) ==> r.st.cache == st.cache
    ensures !HasError(r.value) ==>
      && r.st.cache == st.cache[env.keyOf(path) := Entry(r.value.image, r.value.info)]
      && |r.st.trace| > 0 && r.st.trace[|r.st.trace| - 1] == CacheAdded(env.keyOf(path), r.value.image, r.value.info)
    ensures r.value.image.Some? ==> !HasError(r.value)
    ensures !IsNullOrWhiteSpace(path) && !env.cancelled(st.tick) && !env.exitTasksEarly && env.taskValid(st.tick + 1) ==>
      var g := GetImage(env, o, st.(tick := st.tick + 1), path.value, source, isPlaceholder, None);
      && r.value == g.value
      && (HasError(g.value) ==> r.st == g.st)
  {
    if IsNullOrWhiteSpace(path) then Out(WithResult(LoadingResult.Failed), st)
    else
      var c := Check(env, st);
      if c.value || env.exitTasksEarly then Out(WithResult(LoadingResult.Canceled), c.st)
      else if !env.taskValid(c.st.tick) then Out(WithResult(LoadingResult.InvalidTarget), c.st)
      else
        var g := GetImage(env, o, c.st, path.value, source, isPlaceholder, None);
        if HasError(g.value) then g
        else Out(g.value, CacheAdd(g.st, env.keyOf(path), g.value.info, g.value.image))
  }

  /** A WebP path never yields an image on Windows: retrieval ends in an
      error result and caches nothing. */
  lemma RetrieveWebPFails(env: Env, o: Oracles, st: St, path: string, source: TP.ImageSource, isPlaceholder: bool)
    requires IsWebPPath(path)
    ensures RetrieveImage(env, o, st, Some(path), source, isPlaceholder).value.image.None?
    ensures HasError(RetrieveImage(env, o, st, Some(path), source, isPlaceholder).value)
    ensures RetrieveImage(env, o, st, Some(path), source, isPlaceholder).st.cache == st.cache
  {
    WebPPathIgnoresCase(path);
    assert !IsWhiteSpace(path[|path| - 5]);
  }
}
