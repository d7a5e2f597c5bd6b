/** The Touch (iOS) `ImageLoaderTask`: fetching the bytes or the image for a
    path or a stream and decoding them (`GetImageAsync`), and fetching an
    image for a path (`RetrieveImageAsync`). The decision ladder that calls
    these lives in `TaskLadder`.

    Unlike the Windows task, the Touch `GetImageAsync` lets three exceptions
    escape: a null source path reaching the WebP test, and a raising WebP or
    ImageIO decoder. They surface as `Raised`. Byte arrays are known by
    identity only; what the resolver, the stream read and the decoders
    answer is given by `Oracles`. */
module TouchTask {
  import opened Common
  import TP = TaskParameters
  import opened LoaderTask

  /** What a data resolver hands back: the image (for asset-catalog
      sources), the bytes, the result identifier, the loading result and the
      image information. */
  datatype ResolvedData = ResolvedData(
    image: Option<Image>,
    bytes: Option<nat>,
    identifier: Option<string>,
    result: LoadingResult,
    info: Option<ImageInformation>)

  /** What `resolver.GetData` does: returns data, returns null, raises
      cancellation, or raises anything else. */
  datatype DataOutcome = Data(data: ResolvedData) | NoData | DataCanceled | DataRaised

  /** Reading the whole of the given stream: the bytes, or cancellation of
      the read, or any other exception. */
  datatype ReadOutcome = ReadDone(bytes: nat) | ReadCanceled | ReadRaised

  datatype Oracles = Oracles(
    resolve: (Option<string>, TP.ImageSource) -> DataOutcome,  // resolver.GetData(path, token)
    read: StreamHandle -> ReadOutcome,                         // ToArray, ReadAsync or CopyToAsync
    webpDecode: nat -> Result<Option<Image>>,                  // WebPCodec.Decode(bytes)
    nsdataNull: nat -> bool,                                   // NSData.FromArray(bytes) == null
    pointsToPixels: int -> int,                                // the PointsToPixels extension
    imageIO: (nat, int, int) -> Result<Option<Image>>)         // nsdata.ToImage(size, ...)

  /** The size handed to the ImageIO decoder: the down-sample size, 0 x 0
      when there is none, converted from points to pixels when the size is
      in device-independent units. */
  function RequestedSize(p: TP.TaskParameter, toPixels: int -> int): (r: (int, int))
    ensures !p.downSampleUseDipUnits ==> r == (if p.downSampleSize.Some? then p.downSampleSize.value else (0, 0))
    ensures p.downSampleUseDipUnits ==>
      r == (if p.downSampleSize.Some? then (toPixels(p.downSampleSize.value.0), toPixels(p.downSampleSize.value.1))
            else (toPixels(0), toPixels(0)))
  {
    var w := if p.downSampleSize.Some? then p.downSampleSize.value.0 else 0;
    var h := if p.downSampleSize.Some? then p.downSampleSize.value.1 else 0;
    if p.downSampleUseDipUnits then (toPixels(w), toPixels(h)) else (w, h)
  }

  /** The size a `DownSample` or `DownSampleInDip` setter asks for is the
      size ImageIO gets, in pixels for the second. */
  lemma RequestedSizeFollowsSetters(p: TP.TaskParameter, toPixels: int -> int, w: int, h: int)
    ensures RequestedSize(TP.DownSample(p, w, h), toPixels) == (w, h)
    ensures RequestedSize(TP.DownSampleInDip(p, w, h), toPixels) == (toPixels(w), toPixels(h))
    ensures RequestedSize(TP.NewParameter(), toPixels) == (0, 0)
  {
  }

  /** Where acquisition ended: with data to decode, or with a loading result
      to return. */
  datatype Acquired = Got(data: ResolvedData) | Stop(loaded: Loaded)

  /** The outer `try` of `GetImageAsync`: read the given stream, which the
      inner `finally` disposes before any handler runs, or ask the resolver.
      Cancellation gives `Canceled`; any other exception calls `OnError` and
      gives `Failed`; null data gives `Failed`. */
  function Acquire(o: Oracles, st: St, sourcePath: Option<string>, source: TP.ImageSource,
                   original: Option<StreamHandle>): (r: Out<Acquired>)
    ensures Extends(st, r.st) && r.st.tick == st.tick && r.st.cache == st.cache && r.st.completed == st.completed
    ensures Quiet(|st.trace|, r.st.trace)
    ensures r.value.Stop? ==> r.value.loaded.image.None? && r.value.loaded.info.None? && IsError(r.value.loaded.result)
    ensures original.Some? ==> |r.st.trace| > |st.trace| && r.st.trace[|st.trace|] == StreamDisposed(original.value)
    ensures original.Some? && o.read(original.value).ReadDone? ==>
      r.value == Got(ResolvedData(None, Some(o.read(original.value).bytes), sourcePath, LoadingResult.Stream, None))
    ensures original.Some? && !o.read(original.value).ReadDone? ==> r.value.Stop?
    ensures original.Some? && o.read(original.value).ReadCanceled? ==>
      r == Out(Stop(WithResult(LoadingResult.Canceled)), Emit(st, StreamDisposed(original.value)))
    ensures original.Some? && o.read(original.value).ReadRaised? ==>
      r == Out(Stop(WithResult(LoadingResult.Failed)),
               Emit(Emit(st, StreamDisposed(original.value)), ErrorCalled(ResolverRaised)))
    ensures original.None? ==>
      match o.resolve(sourcePath, source)
      case Data(d) => r == Out(Got(d), st)
      case NoData => r == Out(Stop(WithResult(LoadingResult.Failed)), st)
      case DataCanceled => r == Out(Stop(WithResult(LoadingResult.Canceled)), st)
      case DataRaised => r == Out(Stop(WithResult(LoadingResult.Failed)), Emit(st, ErrorCalled(ResolverRaised)))
  {
    if original.Some? then
      var st1 := Emit(st, StreamDisposed(original.value));
      match o.read(original.value)
      case ReadDone(b) => Out(Got(ResolvedData(None, Some(b), sourcePath, LoadingResult.Stream, None)), st1)
      case ReadCanceled => Out(Stop(WithResult(LoadingResult.Canceled)), st1)
      case ReadRaised => Out(Stop(WithResult(LoadingResult.Failed)), Emit(st1, ErrorCalled(ResolverRaised)))
    else
      match o.resolve(sourcePath, source)
      case Data(d) => Out(Got(d), st)
      case NoData => Out(Stop(WithResult(LoadingResult.Failed)), st)
      case DataCanceled => Out(Stop(WithResult(LoadingResult.Canceled)), st)
      case DataRaised => Out(Stop(WithResult(LoadingResult.Failed)), Emit(st, ErrorCalled(ResolverRaised)))
  }

  /** The key `SetKey` records: the task's own key when the identifier is
      `"Stream"`, the key of the source path otherwise. */
  function InfoKey(env: Env, identifier: Option<string>, sourcePath: Option<string>): string {
    if identifier == Some("Stream") then env.ownKey else env.keyOf(sourcePath)
  }

  /** The ImageIO decoding of NSData, at the size the parameter asks for. */
  function ImageIODecode(p: TP.TaskParameter, o: Oracles, bytes: nat): Result<Option<Image>> {
    var size := RequestedSize(p, o.pointsToPixels);
    o.imageIO(bytes, size.0, size.1)
  }

  /** The transformations a decoded image goes through: the parameter's list
      when they run, none otherwise. */
  function RunList(env: Env, isPlaceholder: bool): seq<TP.Transformation> {
    if RunsTransformations(env.params, env.transformPlaceholdersDefault, isPlaceholder)
    then env.params.transformations.value else []
  }

  /** What decoding answers once a decoder has produced `img`, with the first
      step check at checkpoint `tick`: the fold of the transformations that
      run over it, with the data's result and keyed information, or
      `Canceled` when a check between steps fires. */
  predicate TransformedAs(env: Env, tick: nat, sourcePath: Option<string>, isPlaceholder: bool,
                          d: ResolvedData, img: Option<Image>, r: Result<Loaded>) {
    var ts := RunList(env, isPlaceholder);
    if NoCancel(env, tick, |ts|) then
      r == Ok(Loaded(ApplyAll(env.apply, ts, img), d.result,
                     Some(WithKey(d.info, InfoKey(env, d.identifier, sourcePath), env.params.customCacheKey))))
    else r == Ok(WithResult(LoadingResult.Canceled))
  }

  /** From the decoder choice to the end: decode what there is, record the
      key, run the transformations when they run, and wrap up the result
      the data came with. */
  function Decode(env: Env, o: Oracles, st: St, sourcePath: Option<string>, isPlaceholder: bool,
                  d: ResolvedData): (r: Out<Result<Loaded>>)
    requires d.bytes.Some? || d.image.Some?
    ensures r.st == st.(tick := r.st.tick) && st.tick <= r.st.tick
    ensures r.value.Raised? ==> r.value.error == NullReference || r.value.error == DecoderRaised
    ensures r.value.Raised? ==> d.image.None?
    ensures r.value.Ok? && r.value.value.info.Some? ==>
      r.value.value.result == d.result
      && r.value.value.info.value == WithKey(d.info, InfoKey(env, d.identifier, sourcePath), env.params.customCacheKey)
    ensures r.value.Ok? && r.value.value.info.None? ==>
      r.value.value.image.None? && r.value.value.result in {LoadingResult.Failed, LoadingResult.Canceled}
    ensures d.image.Some? && !RunsTransformations(env.params, env.transformPlaceholdersDefault, isPlaceholder) ==>
      r.value == Ok(Loaded(d.image, d.result, Some(WithKey(d.info, InfoKey(env, d.identifier, sourcePath), env.params.customCacheKey))))
    ensures d.image.Some? ==> TransformedAs(env, st.tick, sourcePath, isPlaceholder, d, d.image, r.value)
    ensures d.image.None? && sourcePath.None? ==> r.value == Raised(NullReference)
    ensures d.image.None? && sourcePath.Some? && IsWebPPath(sourcePath.value) ==>
      match o.webpDecode(d.bytes.value)
      case Raised(_) => r.value == Raised(DecoderRaised)
      case Ok(img) => TransformedAs(env, st.tick, sourcePath, isPlaceholder, d, img, r.value)
    ensures d.image.None? && sourcePath.Some? && !IsWebPPath(sourcePath.value) ==>
      if o.nsdataNull(d.bytes.value) then r.value == Ok(WithResult(LoadingResult.Failed))
      else match ImageIODecode(env.params, o, d.bytes.value)
           case Raised(_) => r.value == Raised(DecoderRaised)
           case Ok(img) => TransformedAs(env, st.tick, sourcePath, isPlaceholder, d, img, r.value)
  {
    if d.image.None? then
      if sourcePath.None? then Out(Raised(NullReference), st)
      else if IsWebPPath(sourcePath.value) then
        match o.webpDecode(d.bytes.value)
        case Raised(_) => Out(Raised(DecoderRaised), st)
        case Ok(img) => Finish(env, o, st, sourcePath, isPlaceholder, d, img, None)
      else if o.nsdataNull(d.bytes.value) then Out(Ok(WithResult(LoadingResult.Failed)), st)
      else Finish(env, o, st, sourcePath, isPlaceholder, d, None, d.bytes)
    else Finish(env, o, st, sourcePath, isPlaceholder, d, d.image, None)
  }

  /** `SetKey`, the ImageIO decoding when there is NSData, and the
      transformation loop. */
  function Finish(env: Env, o: Oracles, st: St, sourcePath: Option<string>, isPlaceholder: bool,
                  d: ResolvedData, imageIn: Option<Image>, nsdata: Option<nat>): (r: Out<Result<Loaded>>)
    ensures r.st == st.(tick := r.st.tick) && st.tick <= r.st.tick
    ensures r.value.Raised? ==> r.value.error == DecoderRaised && nsdata.Some?
    ensures r.value.Ok? && r.value.value.info.Some? ==>
      r.value.value.result == d.result
      && r.value.value.info.value == WithKey(d.info, InfoKey(env, d.identifier, sourcePath), env.params.customCacheKey)
    ensures r.value.Ok? && r.value.value.info.None? ==> r.value.value == WithResult(LoadingResult.Canceled)
    ensures nsdata.None? && !RunsTransformations(env.params, env.transformPlaceholdersDefault, isPlaceholder) ==>
      r.value == Ok(Loaded(imageIn, d.result, Some(WithKey(d.info, InfoKey(env, d.identifier, sourcePath), env.params.customCacheKey))))
    ensures r.value.Ok? && r.value.value.info.Some? && nsdata.None? ==>
      r.value.value.image == ApplyAll(env.apply, if RunsTransformations(env.params, env.transformPlaceholdersDefault, isPlaceholder)
                                                  then env.params.transformations.value else [], imageIn)
    ensures var decoded := if nsdata.Some? then ImageIODecode(env.params, o, nsdata.value) else Ok(imageIn);
      match decoded
      case Raised(_) => r.value == Raised(DecoderRaised)
      case Ok(img) => TransformedAs(env, st.tick, sourcePath, isPlaceholder, d, img, r.value)
  {
    var info := WithKey(d.info, InfoKey(env, d.identifier, sourcePath), env.params.customCacheKey);
    var decoded := if nsdata.Some? then ImageIODecode(env.params, o, nsdata.value) else Ok(imageIn);
    if decoded.Raised? then Out(Raised(DecoderRaised), st)
    else if RunsTransformations(env.params, env.transformPlaceholdersDefault, isPlaceholder) then
      var loop := TransformLoop(env, st, env.params.transformations.value, decoded.value);
      if loop.value.Stopped? then Out(Ok(WithResult(LoadingResult.Canceled)), loop.st)
      else Out(Ok(Loaded(loop.value.image, d.result, Some(info))), loop.st)
    else Out(Ok(Loaded(decoded.value, d.result, Some(info))), st)
  }

  /** `GetImageAsync(sourcePath, source, isPlaceholder, originalStream)`: a
      cancellation check, acquisition, the test for data that holds neither
      bytes nor an image, a second check, and decoding. */
  function GetImage(env: Env, o: Oracles, st: St, sourcePath: Option<string>, source: TP.ImageSource, isPlaceholder: bool,
                    original: Option<StreamHandle>): (r: Out<Result<Loaded>>)
    ensures Extends(st, r.st) && r.st.cache == st.cache && r.st.completed == st.completed
    ensures Quiet(|st.trace|, r.st.trace)
    ensures env.cancelled(st.tick) ==> r == Out(Ok(WithResult(LoadingResult.Canceled)), st.(tick := st.tick + 1))
    ensures r.value.Raised? ==> r.value.error == NullReference || r.value.error == DecoderRaised
    ensures r.value.Ok? && !HasError(r.value.value) ==>
      r.value.value.info.Some? && r.value.value.info.value.key.Some?
      && r.value.value.info.value.customKey == env.params.customCacheKey
    ensures !env.cancelled(st.tick) ==>
      var a := Acquire(o, st.(tick := st.tick + 1), sourcePath, source, original);
      && (a.value.Stop? ==> r == Out(Ok(a.value.loaded), a.st))
      && (a.value.Got? && (a.value.data.bytes.Some? || a.value.data.image.Some?) && env.cancelled(st.tick + 1) ==>
            r == Out(Ok(WithResult(LoadingResult.Canceled)), a.st.(tick := st.tick + 2)))
      && (a.value.Got? && (a.value.data.bytes.Some? || a.value.data.image.Some?) && !env.cancelled(st.tick + 1) ==>
            r == Decode(env, o, a.st.(tick := st.tick + 2), sourcePath, isPlaceholder, a.value.data))
  {
    var c1 := Check(env, st);
    if c1.value then Out(Ok(WithResult(LoadingResult.Canceled)), c1.st)
    else
      var a := Acquire(o, c1.st, sourcePath, source, original);
      if a.value.Stop? then Out(Ok(a.value.loaded), a.st)
      else
        var d := a.value.data;
        if d.bytes.None? && d.image.None? then
          Out(Ok(WithResult(if IsError(d.result) then d.result else LoadingResult.Failed)), a.st)
        else
          var c2 := Check(env, a.st);
          if c2.value then Out(Ok(WithResult(LoadingResult.Canceled)), c2.st)
          else Decode(env, o, c2.st, sourcePath, isPlaceholder, d)
  }

  /** Once past the first cancellation check, the stream handed in is
      disposed, and before anything else happens; the stream overload
      records the task's own key and is tagged `Stream`. */
  lemma GetImageDisposesStream(env: Env, o: Oracles, st: St, sourcePath: Option<string>, source: TP.ImageSource,
                               isPlaceholder: bool, s: StreamHandle)
    requires !env.cancelled(st.tick)
    ensures var r := GetImage(env, o, st, sourcePath, source, isPlaceholder, Some(s));
      && |r.st.trace| > |st.trace| && r.st.trace[|st.trace|] == StreamDisposed(s)
      && (r.value.Ok? && r.value.value.info.Some? ==> r.value.value.result == LoadingResult.Stream)
      && (r.value.Ok? && r.value.value.info.Some? && sourcePath == Some("Stream") ==>
            r.value.value.info.value.key == Some(env.ownKey))
  {
    var c1 := Check(env, st);
    var a := Acquire(o, c1.st, sourcePath, source, Some(s));
    if a.value.Got? {
      var d := a.value.data;
      assert d.identifier == sourcePath && d.result == LoadingResult.Stream && d.bytes.Some?;
      var c2 := Check(env, a.st);
      if !c2.value {
        var dec := Decode(env, o, c2.st, sourcePath, isPlaceholder, d);
        assert dec.st.trace == a.st.trace;
      }
    }
  }

  /** How the resolver's answer is classified: null data fails quietly, a
      cancelled request is `Canceled`, any other exception calls `OnError` and
      fails, and data with neither bytes nor an image passes an error result
      on unchanged and turns any other into `Failed`. */
  lemma GetImageClassifiesResolver(env: Env, o: Oracles, st: St, sourcePath: Option<string>, source: TP.ImageSource,
                                   isPlaceholder: bool)
    requires !env.cancelled(st.tick)
    ensures var r := GetImage(env, o, st, sourcePath, source, isPlaceholder, None);
      var st1 := st.(tick := st.tick + 1);
      match o.resolve(sourcePath, source)
      case NoData => r == Out(Ok(WithResult(LoadingResult.Failed)), st1)
      case DataCanceled => r == Out(Ok(WithResult(LoadingResult.Canceled)), st1)
      case DataRaised => r == Out(Ok(WithResult(LoadingResult.Failed)), Emit(st1, ErrorCalled(ResolverRaised)))
      case Data(d) =>
        d.bytes.None? && d.image.None? ==>
          && r == Out(Ok(WithResult(if IsError(d.result) then d.result else LoadingResult.Failed)), st1)
          && HasError(r.value.value)
  {
  }

  /** An asset-catalog image (data that carries the image itself) comes back
      with the resolver's own result, transformed when the transformations
      run; with no cancellation along the way it is the fold of every
      transformation over it. */
  lemma GetImageKeepsResolvedImage(env: Env, o: Oracles, st: St, sourcePath: Option<string>, source: TP.ImageSource,
                                   isPlaceholder: bool, d: ResolvedData)
    requires o.resolve(sourcePath, source) == Data(d) && d.image.Some?
    requires !env.cancelled(st.tick) && !env.cancelled(st.tick + 1)
    ensures var r := GetImage(env, o, st, sourcePath, source, isPlaceholder, None);
      var ts := if RunsTransformations(env.params, env.transformPlaceholdersDefault, isPlaceholder)
                then env.params.transformations.value else [];
      && r.value.Ok? && r.st.trace == st.trace
      && (NoCancel(env, st.tick + 2, |ts|) ==>
            r.value.value == Loaded(ApplyAll(env.apply, ts, d.image), d.result,
                                    Some(WithKey(d.info, InfoKey(env, d.identifier, sourcePath), env.params.customCacheKey))))
      && (!NoCancel(env, st.tick + 2, |ts|) ==> r.value.value == WithResult(LoadingResult.Canceled))
  {
  }

  /** `RetrieveImageAsync(sourcePath, source, isPlaceholder)`: there is no
      blank-path test; cancellation or the exit-early flag gives `Canceled`
      and an invalid target `InvalidTarget`, both before any retrieval. A
      result without error is added to the memory cache under the path's
      key; an error result never is; an exception passes through. */
  function RetrieveImage(env: Env, o: Oracles, st: St, sourcePath: Option<string>, source: TP.ImageSource,
                         isPlaceholder: bool): (r: Out<Result<Loaded>>)
    ensures Extends(st, r.st) && r.st.completed == st.completed
    ensures Quiet(|st.trace|, r.st.trace)
    ensures env.cancelled(st.tick) || env.exitTasksEarly ==>
      r == Out(Ok(WithResult(LoadingResult.Canceled)), st.(tick := st.tick + 1))
    ensures !env.cancelled(st.tick) && !env.exitTasksEarly && !env.taskValid(st.tick + 1) ==>
      r == Out(Ok(WithResult(LoadingResult.InvalidTarget)), st.(tick := st.tick + 1))
    ensures r.value.Raised? || HasError(r.value.value) ==> r.st.cache == st.cache
    ensures r.value.Ok? && !HasError(r.value.value) ==>
      && r.st.cache == st.cache[env.keyOf(sourcePath) := Entry(r.value.value.image, r.value.value.info)]
      && |r.st.trace| > 0 && r.st.trace[|r.st.trace| - 1] == CacheAdded(env.keyOf(sourcePath), r.value.value.image, r.value.value.info)
    ensures !env.cancelled(st.tick) && !env.exitTasksEarly && env.taskValid(st.tick + 1) ==>
      var g := GetImage(env, o, st.(tick := st.tick + 1), sourcePath, source, isPlaceholder, None);
      && r.value == g.value
      && (g.value.Raised? || HasError(g.value.value) ==> r.st == g.st)
  {
    var c := Check(env, st);
    if c.value || env.exitTasksEarly then Out(Ok(WithResult(LoadingResult.Canceled)), c.st)
    else if !env.taskValid(c.st.tick) then Out(Ok(WithResult(LoadingResult.InvalidTarget)), c.st)
    else
      var g := GetImage(env, o, c.st, sourcePath, source, isPlaceholder, None);
      if g.value.Raised? || HasError(g.value.value) then g
      else Out(g.value, CacheAdd(g.st, env.keyOf(sourcePath), g.value.value.info, g.value.value.image))
  }

  /** Touch, unlike Windows, caches the outcome of a blank path when the
      resolver answers it without error. */
  lemma RetrieveBlankPathMayBeCached(env: Env, o: Oracles, st: St, source: TP.ImageSource, d: ResolvedData)
    requires !env.cancelled(st.tick) && !env.exitTasksEarly && env.taskValid(st.tick + 1) && !env.cancelled(st.tick + 1)
    requires !env.cancelled(st.tick + 2)
    requires o.resolve(Some(""), source) == Data(d) && d.image.Some? && !IsError(d.result)
    requires !RunsTransformations(env.params, env.transformPlaceholdersDefault, false)
    ensures env.keyOf(Some("")) in RetrieveImage(env, o, st, Some(""), source, false).st.cache
  {
    GetImageKeepsResolvedImage(env, o, st.(tick := st.tick + 1), Some(""), source, false, d);
  }
}
