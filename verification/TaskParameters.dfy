/** The `TaskParameter` request builder: a record of optional settings built by
    one of five factories and refined by fluent setters.

    The source's setters update the object in place and return it; here each
    one is a pure function from the old record to the new one, and a setter
    that can throw returns a `Result`. Every setter is stated with a frame,
    `SameExcept`, naming the only fields it may change. */
module TaskParameters {
  import opened Common

  /** Where an image comes from. The enum's zero value, which a fresh
      parameter holds before a factory sets it, is taken to be `Filepath`. */
  datatype ImageSource = Filepath | Url | ApplicationBundle | CompiledResource | Stream

  /** Which cache tiers a request may use. */
  datatype CacheType = NoCache | Memory | Disk | All

  /** A downsampling interpolation mode, by its enum value; 0 is the default. */
  datatype InterpolationMode = InterpolationMode(ordinal: int)

  /** A `LoadingPriority` enum member, by its integer value. */
  datatype LoadingPriority = LoadingPriority(ordinal: int)

  /** `LoadingPriority.Normal`, whose value is 0. */
  const Normal: LoadingPriority := LoadingPriority(0)

  /** A caller's delegate, by identity. */
  datatype Delegate = Delegate(id: nat)

  /** What a callback property holds: the do-nothing lambda the constructor
      and `Dispose` install, a caller's delegate invoked with the callback's
      arguments, or a caller's argument-less delegate wrapped to drop them. */
  datatype Callback = NoOp | Calls(d: Delegate) | CallsIgnoringArgs(d: Delegate)

  /** A transformation, known by its cache key. */
  datatype Transformation = Transformation(key: string)

  /** A stream factory `Func<CancellationToken, Task<Stream>>`, by identity. */
  datatype StreamFactory = StreamFactory(id: nat)

  /** The parameter record; `None` is a null reference or an unset nullable. */
  datatype TaskParameter = TaskParameter(
    source: ImageSource,
    path: Option<string>,
    stream: Option<StreamFactory>,
    cacheDuration: Option<int>,
    downSampleSize: Option<(int, int)>,
    downSampleUseDipUnits: bool,
    downSampleInterpolationMode: InterpolationMode,
    loadingPlaceholderSource: ImageSource,
    loadingPlaceholderPath: Option<string>,
    errorPlaceholderSource: ImageSource,
    errorPlaceholderPath: Option<string>,
    retryCount: int,
    retryDelayInMs: int,
    onSuccess: Callback,
    onError: Callback,
    onFinish: Callback,
    transformations: Option<seq<Transformation>>,
    loadTransparencyChannel: Option<bool>,
    fadeAnimationEnabled: Option<bool>,
    fadeAnimationForCachedImages: Option<bool>,
    fadeAnimationDuration: Option<int>,
    transformPlaceholdersEnabled: Option<bool>,
    customCacheKey: Option<string>,
    priority: Option<int>,
    cacheType: Option<CacheType>,
    delayInMs: Option<int>,
    preload: bool,
    disposed: bool)

  /** The names of the record's fields, for frame conditions. */
  datatype Field =
    | FSource | FPath | FStream | FCacheDuration
    | FDownSampleSize | FDownSampleUseDipUnits | FDownSampleInterpolationMode
    | FLoadingPlaceholderSource | FLoadingPlaceholderPath
    | FErrorPlaceholderSource | FErrorPlaceholderPath
    | FRetryCount | FRetryDelayInMs
    | FOnSuccess | FOnError | FOnFinish | FTransformations
    | FLoadTransparencyChannel | FFadeAnimationEnabled | FFadeAnimationForCachedImages
    | FFadeAnimationDuration | FTransformPlaceholdersEnabled
    | FCustomCacheKey | FPriority | FCacheType | FDelayInMs | FPreload | FDisposed

  /** `p` and `q` agree on every field outside `touched`. */
  predicate SameExcept(p: TaskParameter, q: TaskParameter, touched: set<Field>) {
    && (FSource !in touched ==> p.source == q.source)
    && (FPath !in touched ==> p.path == q.path)
    && (FStream !in touched ==> p.stream == q.stream)
    && (FCacheDuration !in touched ==> p.cacheDuration == q.cacheDuration)
    && (FDownSampleSize !in touched ==> p.downSampleSize == q.downSampleSize)
    && (FDownSampleUseDipUnits !in touched ==> p.downSampleUseDipUnits == q.downSampleUseDipUnits)
    && (FDownSampleInterpolationMode !in touched ==> p.downSampleInterpolationMode == q.downSampleInterpolationMode)
    && (FLoadingPlaceholderSource !in touched ==> p.loadingPlaceholderSource == q.loadingPlaceholderSource)
    && (FLoadingPlaceholderPath !in touched ==> p.loadingPlaceholderPath == q.loadingPlaceholderPath)
    && (FErrorPlaceholderSource !in touched ==> p.errorPlaceholderSource == q.errorPlaceholderSource)
    && (FErrorPlaceholderPath !in touched ==> p.errorPlaceholderPath == q.errorPlaceholderPath)
    && (FRetryCount !in touched ==> p.retryCount == q.retryCount)
    && (FRetryDelayInMs !in touched ==> p.retryDelayInMs == q.retryDelayInMs)
    && (FOnSuccess !in touched ==> p.onSuccess == q.onSuccess)
    && (FOnError !in touched ==> p.onError == q.onError)
    && (FOnFinish !in touched ==> p.onFinish == q.onFinish)
    && (FTransformations !in touched ==> p.transformations == q.transformations)
    && (FLoadTransparencyChannel !in touched ==> p.loadTransparencyChannel == q.loadTransparencyChannel)
    && (FFadeAnimationEnabled !in touched ==> p.fadeAnimationEnabled == q.fadeAnimationEnabled)
    && (FFadeAnimationForCachedImages !in touched ==> p.fadeAnimationForCachedImages == q.fadeAnimationForCachedImages)
    && (FFadeAnimationDuration !in touched ==> p.fadeAnimationDuration == q.fadeAnimationDuration)
    && (FTransformPlaceholdersEnabled !in touched ==> p.transformPlaceholdersEnabled == q.transformPlaceholdersEnabled)
    && (FCustomCacheKey !in touched ==> p.customCacheKey == q.customCacheKey)
    && (FPriority !in touched ==> p.priority == q.priority)
    && (FCacheType !in touched ==> p.cacheType == q.cacheType)
    && (FDelayInMs !in touched ==> p.delayInMs == q.delayInMs)
    && (FPreload !in touched ==> p.preload == q.preload)
    && (FDisposed !in touched ==> p.disposed == q.disposed)
  }

  /** The frame names every field: records that agree outside no field at all
      are the same record. */
  lemma SameExceptNothingIsEquality(p: TaskParameter, q: TaskParameter)
    ensures SameExcept(p, q, {}) <==> p == q
  {
  }

  /** The private constructor: an empty transformation list, do-nothing
      callbacks, and every other field at its type's default. */
  function NewParameter(): (p: TaskParameter)
    ensures p.transformations == Some([])
    ensures p.onSuccess == NoOp && p.onError == NoOp && p.onFinish == NoOp
    ensures p.source == Filepath && p.path.None? && p.stream.None? && p.cacheDuration.None?
    ensures p.priority.None? && p.retryCount == 0 && p.retryDelayInMs == 0
    ensures !p.disposed && !p.preload
  {
    TaskParameter(
      Filepath, None, None, None,
      None, false, InterpolationMode(0),
      Filepath, None, Filepath, None,
      0, 0,
      NoOp, NoOp, NoOp, Some([]),
      None, None, None, None, None,
      None, None, None, None, false, false)
  }

  // ---------------------------------------------------------------------------
  // Factories

  /** `FromFile(filepath)`. */
  function FromFile(filepath: Option<string>): (p: TaskParameter)
    ensures p.source == Filepath && p.path == filepath
    ensures SameExcept(NewParameter(), p, {FSource, FPath})
  {
    NewParameter().(source := Filepath, path := filepath)
  }

  /** `FromUrl(url, cacheDuration)`; the duration defaults to null. */
  function FromUrl(url: Option<string>, cacheDuration: Option<int>): (p: TaskParameter)
    ensures p.source == Url && p.path == url && p.cacheDuration == cacheDuration
    ensures SameExcept(NewParameter(), p, {FSource, FPath, FCacheDuration})
  {
    NewParameter().(source := Url, path := url, cacheDuration := cacheDuration)
  }

  /** Gives an unset priority the value one above `Normal`, as the bundle and
      compiled-resource factories do. */
  function DefaultPriorityAboveNormal(p: TaskParameter): (q: TaskParameter)
    ensures q.priority.Some?
    ensures p.priority.Some? ==> q == p
    ensures p.priority.None? ==> q.priority == Some(Normal.ordinal + 1)
    ensures SameExcept(p, q, {FPriority})
  {
    if p.priority.None? then p.(priority := Some(Normal.ordinal + 1)) else p
  }

  /** `FromApplicationBundle(filepath)`. */
  function FromApplicationBundle(filepath: Option<string>): (p: TaskParameter)
    ensures p.source == ApplicationBundle && p.path == filepath
    ensures p.priority == Some(Normal.ordinal + 1)
    ensures SameExcept(NewParameter(), p, {FSource, FPath, FPriority})
  {
    DefaultPriorityAboveNormal(NewParameter().(source := ApplicationBundle, path := filepath))
  }

  /** `FromCompiledResource(resourceName)`. */
  function FromCompiledResource(resourceName: Option<string>): (p: TaskParameter)
    ensures p.source == CompiledResource && p.path == resourceName
    ensures p.priority == Some(Normal.ordinal + 1)
    ensures SameExcept(NewParameter(), p, {FSource, FPath, FPriority})
  {
    DefaultPriorityAboveNormal(NewParameter().(source := CompiledResource, path := resourceName))
  }

  /** `FromStream(stream)`. */
  function FromStream(stream: Option<StreamFactory>): (p: TaskParameter)
    ensures p.source == Stream && p.stream == stream
    ensures SameExcept(NewParameter(), p, {FSource, FStream})
  {
    NewParameter().(source := Stream, stream := stream)
  }

  /** Every factory starts from an empty transformation list and leaves the
      callbacks at their no-ops; only the bundle and compiled-resource
      factories set a priority. */
  lemma FactoriesStartEmpty(path: Option<string>, d: Option<int>, s: Option<StreamFactory>)
    ensures forall p :: p in [FromFile(path), FromUrl(path, d), FromApplicationBundle(path),
                              FromCompiledResource(path), FromStream(s)] ==>
      p.transformations == Some([]) && p.onSuccess == NoOp && p.onError == NoOp
      && p.onFinish == NoOp && !p.disposed
    ensures FromFile(path).priority.None? && FromUrl(path, d).priority.None?
    ensures FromStream(s).priority.None?
  {
  }

  // ---------------------------------------------------------------------------
  // Disposal

  /** `Dispose`: the first call drops the caller's callbacks, the
      transformation list and the stream; later calls do nothing. */
  function Dispose(p: TaskParameter): (q: TaskParameter)
    ensures q.disposed
    ensures p.disposed ==> q == p
    ensures !p.disposed ==> q.transformations.None? && q.stream.None?
    ensures !p.disposed ==> q.onSuccess == NoOp && q.onError == NoOp && q.onFinish == NoOp
    ensures SameExcept(p, q, {FOnSuccess, FOnError, FOnFinish, FTransformations, FStream, FDisposed})
  {
    if !p.disposed then
      p.(onSuccess := NoOp, onError := NoOp, onFinish := NoOp,
         transformations := None, stream := None, disposed := true)
    else p
  }

  /** Disposing twice is the same as disposing once. */
  lemma DisposeIdempotent(p: TaskParameter)
    ensures Dispose(Dispose(p)) == Dispose(p)
  {
  }

  // ---------------------------------------------------------------------------
  // Transformations

  /** `Transform(transformation)`: a null argument throws before anything
      changes; after `Dispose` the list itself is null and adding to it throws;
      otherwise the transformation goes after all existing ones. */
  function Transform(p: TaskParameter, t: Option<Transformation>): (r: Result<TaskParameter>)
    ensures t.None? ==> r == Raised(NullReference)
    ensures t.Some? && p.transformations.None? ==> r == Raised(NullReference)
    ensures r.Ok? <==> t.Some? && p.transformations.Some?
    ensures r.Ok? ==> r.value.transformations == Some(p.transformations.value + [t.value])
    ensures r.Ok? ==> SameExcept(p, r.value, {FTransformations})
  {
    if t.None? then Raised(NullReference)
    else if p.transformations.None? then Raised(NullReference)
    else Ok(p.(transformations := Some(p.transformations.value + [t.value])))
  }

  /** `Transform(transformations)`: a null argument throws
      `ArgumentNullException`; after `Dispose` adding throws; otherwise the
      whole list is appended in its own order. */
  function TransformAll(p: TaskParameter, ts: Option<seq<Transformation>>): (r: Result<TaskParameter>)
    ensures ts.None? ==> r == Raised(ArgumentNull)
    ensures ts.Some? && p.transformations.None? ==> r == Raised(NullReference)
    ensures r.Ok? <==> ts.Some? && p.transformations.Some?
    ensures r.Ok? ==> r.value.transformations == Some(p.transformations.value + ts.value)
    ensures r.Ok? ==> SameExcept(p, r.value, {FTransformations})
  {
    if ts.None? then Raised(ArgumentNull)
    else if p.transformations.None? then Raised(NullReference)
    else Ok(p.(transformations := Some(p.transformations.value + ts.value)))
  }

  /** Adding the transformations one at a time with the single overload,
      stopping at the first throw. */
  function TransformEach(p: TaskParameter, ts: seq<Transformation>): Result<TaskParameter>
    decreases |ts|
  {
    if ts == [] then Ok(p)
    else
      match Transform(p, Some(ts[0]))
      case Raised(e) => Raised(e)
      case Ok(q) => TransformEach(q, ts[1..])
  }

  /** On a parameter that still has its list, appending a list at once is the
      same as appending its members one by one in order. */
  lemma {:induction false} TransformAllIsTransformEach(p: TaskParameter, ts: seq<Transformation>)
    requires p.transformations.Some?
    ensures TransformAll(p, Some(ts)) == TransformEach(p, ts)
    decreases |ts|
  {
    if ts != [] {
      var q := Transform(p, Some(ts[0])).value;
      assert TransformEach(p, ts) == TransformEach(q, ts[1..]);
      TransformAllIsTransformEach(q, ts[1..]);
      assert q.transformations.value + ts[1..] == p.transformations.value + ts;
    } else {
      assert p.transformations.value + ts == p.transformations.value;
    }
  }

  // ---------------------------------------------------------------------------
  // Setters that cannot throw

  /** `LoadingPlaceholder(path, source)`; the source defaults to `Filepath`. */
  function LoadingPlaceholder(p: TaskParameter, path: Option<string>, source: ImageSource): (q: TaskParameter)
    ensures q.loadingPlaceholderPath == path && q.loadingPlaceholderSource == source
    ensures SameExcept(p, q, {FLoadingPlaceholderPath, FLoadingPlaceholderSource})
  {
    p.(loadingPlaceholderPath := path, loadingPlaceholderSource := source)
  }

  /** `ErrorPlaceholder(filepath, source)`; the source defaults to `Filepath`. */
  function ErrorPlaceholder(p: TaskParameter, filepath: Option<string>, source: ImageSource): (q: TaskParameter)
    ensures q.errorPlaceholderPath == filepath && q.errorPlaceholderSource == source
    ensures SameExcept(p, q, {FErrorPlaceholderPath, FErrorPlaceholderSource})
  {
    p.(errorPlaceholderPath := filepath, errorPlaceholderSource := source)
  }

  /** `DownSample(width, height)`: pixel units. */
  function DownSample(p: TaskParameter, width: int, height: int): (q: TaskParameter)
    ensures !q.downSampleUseDipUnits && q.downSampleSize == Some((width, height))
    ensures SameExcept(p, q, {FDownSampleUseDipUnits, FDownSampleSize})
  {
    p.(downSampleUseDipUnits := false, downSampleSize := Some((width, height)))
  }

  /** `DownSampleInDip(width, height)`: device-independent units. */
  function DownSampleInDip(p: TaskParameter, width: int, height: int): (q: TaskParameter)
    ensures q.downSampleUseDipUnits && q.downSampleSize == Some((width, height))
    ensures SameExcept(p, q, {FDownSampleUseDipUnits, FDownSampleSize})
  {
    p.(downSampleUseDipUnits := true, downSampleSize := Some((width, height)))
  }

  /** The two downsampling setters write the same two fields, so whichever
      runs last decides both the size and the unit. */
  lemma LastDownSampleWins(p: TaskParameter, w1: int, h1: int, w2: int, h2: int)
    ensures DownSample(DownSampleInDip(p, w1, h1), w2, h2) == DownSample(p, w2, h2)
    ensures DownSampleInDip(DownSample(p, w1, h1), w2, h2) == DownSampleInDip(p, w2, h2)
  {
  }

  /** `DownSampleMode(mode)`. */
  function DownSampleMode(p: TaskParameter, mode: InterpolationMode): (q: TaskParameter)
    ensures q.downSampleInterpolationMode == mode
    ensures SameExcept(p, q, {FDownSampleInterpolationMode})
  {
    p.(downSampleInterpolationMode := mode)
  }

  /** `WithPriority(LoadingPriority)`: stores the member's integer value. */
  function WithPriorityLevel(p: TaskParameter, priority: LoadingPriority): (q: TaskParameter)
    ensures q.priority == Some(priority.ordinal)
    ensures SameExcept(p, q, {FPriority})
  {
    WithPriority(p, priority.ordinal)
  }

  /** `WithPriority(int)`. */
  function WithPriority(p: TaskParameter, priority: int): (q: TaskParameter)
    ensures q.priority == Some(priority)
    ensures SameExcept(p, q, {FPriority})
  {
    p.(priority := Some(priority))
  }

  /** `WithCache(cacheType)`. */
  function WithCache(p: TaskParameter, cacheType: CacheType): (q: TaskParameter)
    ensures q.cacheType == Some(cacheType)
    ensures SameExcept(p, q, {FCacheType})
  {
    p.(cacheType := Some(cacheType))
  }

  /** `TransparencyChannel(load)`. */
  function TransparencyChannel(p: TaskParameter, loadTransparencyChannel: bool): (q: TaskParameter)
    ensures q.loadTransparencyChannel == Some(loadTransparencyChannel)
    ensures SameExcept(p, q, {FLoadTransparencyChannel})
  {
    p.(loadTransparencyChannel := Some(loadTransparencyChannel))
  }

  /** `FadeAnimation(enabled, enabledForCachedImages, duration)`: the last two
      default to null and are stored as given, null included. */
  function FadeAnimation(p: TaskParameter, enabled: bool, enabledForCachedImages: Option<bool>, duration: Option<int>): (q: TaskParameter)
    ensures q.fadeAnimationEnabled == Some(enabled)
    ensures q.fadeAnimationForCachedImages == enabledForCachedImages
    ensures q.fadeAnimationDuration == duration
    ensures SameExcept(p, q, {FFadeAnimationEnabled, FFadeAnimationForCachedImages, FFadeAnimationDuration})
  {
    p.(fadeAnimationEnabled := Some(enabled),
       fadeAnimationForCachedImages := enabledForCachedImages,
       fadeAnimationDuration := duration)
  }

  /** `TransformPlaceholders(enabled)`. */
  function TransformPlaceholders(p: TaskParameter, enabled: bool): (q: TaskParameter)
    ensures q.transformPlaceholdersEnabled == Some(enabled)
    ensures SameExcept(p, q, {FTransformPlaceholdersEnabled})
  {
    p.(transformPlaceholdersEnabled := Some(enabled))
  }

  /** `Retry(retryCount, millisecondDelay)`. */
  function Retry(p: TaskParameter, retryCount: int, millisecondDelay: int): (q: TaskParameter)
    ensures q.retryCount == retryCount && q.retryDelayInMs == millisecondDelay
    ensures SameExcept(p, q, {FRetryCount, FRetryDelayInMs})
  {
    p.(retryCount := retryCount, retryDelayInMs := millisecondDelay)
  }

  /** `Retry()` with both arguments left at their defaults: no retries, no delay. */
  function RetryWithDefaults(p: TaskParameter): (q: TaskParameter)
    ensures q.retryCount == 0 && q.retryDelayInMs == 0
    ensures SameExcept(p, q, {FRetryCount, FRetryDelayInMs})
  {
    Retry(p, 0, 0)
  }

  /** `CacheKey(customCacheKey)`. */
  function CacheKey(p: TaskParameter, customCacheKey: Option<string>): (q: TaskParameter)
    ensures q.customCacheKey == customCacheKey
    ensures SameExcept(p, q, {FCustomCacheKey})
  {
    p.(customCacheKey := customCacheKey)
  }

  /** `Delay(milliseconds)`. */
  function Delay(p: TaskParameter, milliseconds: int): (q: TaskParameter)
    ensures q.delayInMs == Some(milliseconds)
    ensures SameExcept(p, q, {FDelayInMs})
  {
    p.(delayInMs := Some(milliseconds))
  }

  // ---------------------------------------------------------------------------
  // Callback setters, which reject null

  /** `Success(Action)`: the argument-less delegate is wrapped so that it
      ignores the image information and the result. */
  function Success(p: TaskParameter, action: Option<Delegate>): (r: Result<TaskParameter>)
    ensures action.None? <==> r == Raised(GenericException)
    ensures r.Ok? ==> r.value.onSuccess == CallsIgnoringArgs(action.value)
    ensures r.Ok? ==> SameExcept(p, r.value, {FOnSuccess})
  {
    if action.None? then Raised(GenericException)
    else Ok(p.(onSuccess := CallsIgnoringArgs(action.value)))
  }

  /** `Success(Action<ImageInformation, LoadingResult>)`. */
  function SuccessWithInfo(p: TaskParameter, action: Option<Delegate>): (r: Result<TaskParameter>)
    ensures action.None? <==> r == Raised(GenericException)
    ensures r.Ok? ==> r.value.onSuccess == Calls(action.value)
    ensures r.Ok? ==> SameExcept(p, r.value, {FOnSuccess})
  {
    if action.None? then Raised(GenericException)
    else Ok(p.(onSuccess := Calls(action.value)))
  }

  /** `Error(Action<Exception>)`. */
  function ErrorAction(p: TaskParameter, action: Option<Delegate>): (r: Result<TaskParameter>)
    ensures action.None? <==> r == Raised(GenericException)
    ensures r.Ok? ==> r.value.onError == Calls(action.value)
    ensures r.Ok? ==> SameExcept(p, r.value, {FOnError})
  {
    if action.None? then Raised(GenericException)
    else Ok(p.(onError := Calls(action.value)))
  }

  /** `Finish(Action<IScheduledWork>)`. */
  function Finish(p: TaskParameter, action: Option<Delegate>): (r: Result<TaskParameter>)
    ensures action.None? <==> r == Raised(GenericException)
    ensures r.Ok? ==> r.value.onFinish == Calls(action.value)
    ensures r.Ok? ==> SameExcept(p, r.value, {FOnFinish})
  {
    if action.None? then Raised(GenericException)
    else Ok(p.(onFinish := Calls(action.value)))
  }

  /** After `Dispose`, a new callback can still be set, but no transformation
      can be added any more. */
  lemma DisposedRejectsTransforms(p: TaskParameter, t: Transformation, ts: seq<Transformation>)
    ensures Transform(Dispose(p), Some(t)).Raised? <==> !p.disposed || p.transformations.None?
    ensures TransformAll(Dispose(p), Some(ts)).Raised? <==> !p.disposed || p.transformations.None?
  {
  }
}
