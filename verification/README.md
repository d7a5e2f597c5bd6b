# FFImageLoading core, modelled in Dafny

This project models the core of the FFImageLoading image-loading library in
Dafny. It covers two halves:

- **The pixel code of the Windows port.**
  - `FlipTransformation` mirrors a row-major bitmap.
  - `TransformationExtensions.ToInt` packs a colour into a premultiplied
    ARGB word.
  - `BitmapHolder` is the pixel store those two work on.
- **The request side.**
  - `TaskParameter` is the fluent request builder.
  - The per-task decision ladder of `ImageLoaderTask`, in both its Windows
    and its Touch (iOS) variant. A task probes the memory cache, shows a
    loading placeholder, retrieves and decodes the image, runs the
    transformations, delivers the result to its target or shows the error
    placeholder, and fills the memory cache.

Modules, one per source component:

| module | models |
|---|---|
| `Common` | null references (`Option`), raised exceptions (`Result`), and the .NET string helpers the tasks call |
| `ColorPacking` | `TransformationExtensions`: `ToInt` and the byte-array stubs |
| `Bitmaps` | `BitmapHolder`: its constructors, accessors, `SetPixel` and `FreePixels` |
| `Flip` | `FlipTransformation`: constructor, `Key`, and `ToFlipped` with its two nested loops |
| `TaskParameters` | `TaskParameter`: factories, constructor defaults, setters, `Transform`, `Dispose` |
| `LoaderTask` | what both task variants share: the result enums, the environment, the task state and its effect trace, the memory-cache probe and the transformation loop |
| `WindowsTask` | the Windows `GetStreamAsync`, `GetImageAsync` and `RetrieveImageAsync` |
| `TouchTask` | the Touch `GetImageAsync` and `RetrieveImageAsync` |
| `TaskLadder` | `PrepareAndTryLoadingFromCacheAsync`, `LoadPlaceHolderAsync`, `TryGeneratingImageAsync` and `LoadFromStreamAsync` for both variants |

How the task code is modelled:

- **Async methods.** Each one is a pure function over an environment `Env`
  and a state `St`.
  - `Env` holds the task's parameter, the host flags, the target's validity
    and the helpers the base class provides. Validity, like cancellation, is
    indexed by the number of cancellation checks made before it is read, so
    it can change while the task runs. Those helpers are `GetKey`,
    `CanUseMemoryCache`, `IsLocalOrCachedResult`, the mapping to a
    `GenerateResult`, and what each transformation does.
  - `St` holds the number of `IsCancelled` reads so far, the task's
    `Completed` flag, the memory cache, and the trace of effects.
- **Cancellation.** The n-th read of `IsCancelled` answers
  `env.cancelled(n)`. So the re-check inside a posted lambda can see a
  different answer from the check just before it.
- **Effects.** A task's effects are recorded in order:
  - cache additions;
  - `Set` calls on the target, with their `isLocalOrFromCache` and
    `isLoadingPlaceholder` flags;
  - `OnSuccess` and `OnError` calls;
  - stream disposals.
- **Resolvers and decoders.** What they answer is given by oracle records,
  one per platform. A resolver or decoder that raises is modelled as one
  that answers `Raised`.
- **Pixels.** A pixel is a 32-bit pattern (`bv32`). A byte is a `bv8`.

The two variants treat a resolver exception differently, and each is
modelled as written. On Windows, `GetStreamAsync` catches the exception, logs
it and answers `Failed`, and nothing calls `OnError`. The Touch code calls
`OnError` for any resolver exception other than cancellation.

## Model

| member | source | states |
|---|---|---|
| `Common.WebPPathIgnoresCase` | source/FFImageLoading.Windows/Work/ImageLoaderTask.cs:327 | under a character-wise `EndsWith`, the WebP test on the lower-cased path holds exactly when the path ends in '.', then w, e, b, p in either case |
| `ColorPacking.ToInt` | source/FFImageLoading.Windows/Transformations/TransformationExtensions.cs:14-16 | a colour with alpha 0 packs to 0, whatever its R, G, B |
| `ColorPacking.ToIntChannels` | source/FFImageLoading.Windows/Transformations/TransformationExtensions.cs:18-22 | for non-zero alpha, the top byte is A and each lower byte is `(C * (A + 1)) >> 8` for its channel, which never exceeds A |
| `ColorPacking.PremultiplyBoundedByAlpha` | source/FFImageLoading.Windows/Transformations/TransformationExtensions.cs:20-22 | the `(byte)` cast keeps the whole shifted product, because that product is at most A |
| `ColorPacking.PremultiplyOpaque` | source/FFImageLoading.Windows/Transformations/TransformationExtensions.cs:18-22 | with alpha 255 the premultiplied channel equals the channel |
| `ColorPacking.ToIntOpaque` | source/FFImageLoading.Windows/Transformations/TransformationExtensions.cs:18-22 | an opaque colour packs with its R, G and B bytes unchanged |
| `ColorPacking.ToIntSign` | source/FFImageLoading.Windows/Transformations/TransformationExtensions.cs:19 | read as a signed int, the packed word is negative exactly when A >= 128 |
| `ColorPacking.SetPixelBytes` | source/FFImageLoading.Windows/Transformations/TransformationExtensions.cs:28-31 | the byte-array `SetPixel` leaves the array as it was |
| `ColorPacking.SetPixelBytesColor` | source/FFImageLoading.Windows/Transformations/TransformationExtensions.cs:33-36 | the colour overload leaves the array as it was too |
| `ColorPacking.ToBytePixelArray` | source/FFImageLoading.Windows/Transformations/TransformationExtensions.cs:38-42 | the int-to-byte conversion returns null |
| `ColorPacking.ToIntPixelArray` | source/FFImageLoading.Windows/Transformations/TransformationExtensions.cs:44-48 | the byte-to-int conversion returns null |
| `Bitmaps.FromPixels` | source/FFImageLoading.Windows/Work/BitmapHolder.cs:12-18 | the int[] constructor stores the array, width and height as given, and no byte array |
| `Bitmaps.FromPixelData` | source/FFImageLoading.Windows/Work/BitmapHolder.cs:20-27 | the byte[] constructor marks the holder optimized and stores the bytes, width and height as given |
| `Bitmaps.Pixels` | source/FFImageLoading.Windows/Work/BitmapHolder.cs:42-51 | on the int[] holder the getter returns the stored array itself; on the byte[] holder it returns null |
| `Bitmaps.PixelData` | source/FFImageLoading.Windows/Work/BitmapHolder.cs:55-64 | on the byte[] holder the getter returns the stored bytes; on the int[] holder it returns null |
| `Bitmaps.CellIndexInGrid` | source/FFImageLoading.Windows/Work/BitmapHolder.cs:76 | inside the grid, `y * Width + x` lies in `[0, Width * Height)` |
| `Bitmaps.SetPixel` | source/FFImageLoading.Windows/Work/BitmapHolder.cs:73-77 | a call with x >= Width or y >= Height changes nothing; inside the guard a null array raises; width, height and the byte store never change |
| `Bitmaps.SetPixelInGrid` | source/FFImageLoading.Windows/Work/BitmapHolder.cs:73-77 | on a well-formed holder with 0 <= x < Width and 0 <= y < Height, the colour lands at index `y * Width + x` and no other pixel changes |
| `Bitmaps.SetPixelColor` | source/FFImageLoading.Windows/Work/BitmapHolder.cs:80-83 | the colour overload changes nothing outside the guard, and writing a fully transparent colour is writing 0 |
| `Bitmaps.SetPixelColorInGrid` | source/FFImageLoading.Windows/Work/BitmapHolder.cs:80-83 | inside the grid of a well-formed holder, the colour overload writes the packed colour into cell (x, y) and leaves every other pixel alone |
| `Bitmaps.FreePixels` | source/FFImageLoading.Windows/Work/BitmapHolder.cs:85-89 | both backing arrays become null; width, height and the holder kind stay |
| `Bitmaps.FreePixelsIdempotent` | source/FFImageLoading.Windows/Work/BitmapHolder.cs:85-89 | freeing twice is freeing once, and both getters then return null |
| `Bitmaps.SetPixelNegativeColumnWrapsToPreviousRow` | source/FFImageLoading.Windows/Work/BitmapHolder.cs:75-76 | as written, `SetPixel(-1, 1, c)` on a 2 x 2 bitmap overwrites cell (1, 0), exactly as `SetPixel(1, 0, c)` does |
| `Bitmaps.SetPixelGuarded` | source/FFImageLoading.Windows/Work/BitmapHolder.cs:73-77 | with the full guard, any call outside the grid changes nothing, and on a well-formed holder a call never raises and changes at most the pixel of cell (x, y) |
| `Bitmaps.SetPixelGuardedIgnoresNegativeColumn` | source/FFImageLoading.Windows/Work/BitmapHolder.cs:75-76 | the full guard turns away the negative column the source lets through |
| `Flip.NewFlipTransformation` | source/FFImageLoading.Transformations.Windows/FlipTransformation.cs:7-9 | the parameterless constructor flips horizontally |
| `Flip.Key` | source/FFImageLoading.Transformations.Windows/FlipTransformation.cs:16-19 | the key is "FlipTransformation,Type=" followed by the mode's name |
| `Flip.KeyIdentifiesMode` | source/FFImageLoading.Transformations.Windows/FlipTransformation.cs:16-19 | two flips share a key exactly when they flip the same way |
| `Flip.ToFlipped` | source/FFImageLoading.Transformations.Windows/FlipTransformation.cs:28-65 | the result is a new holder with the same width and height and as many pixels as the input; and the pixels are the reference flip of the input (rows reversed for vertical, each row reversed otherwise) |
| `Flip.FillVertical` | source/FFImageLoading.Transformations.Windows/FlipTransformation.cs:37-49 | the vertical loops, rows from the bottom up and each row left to right, produce the rows in reverse order |
| `Flip.FillHorizontal` | source/FFImageLoading.Transformations.Windows/FlipTransformation.cs:50-62 | the horizontal loops, rows from the top down and each row right to left, produce every row reversed |
| `Flip.CopyRow` | source/FFImageLoading.Transformations.Windows/FlipTransformation.cs:42-47 | the inner vertical loop appends row `y` of the source unchanged |
| `Flip.CopyRowReversed` | source/FFImageLoading.Transformations.Windows/FlipTransformation.cs:55-60 | the inner horizontal loop appends row `y` of the source reversed |
| `Flip.FlippedVerticalCell` | source/FFImageLoading.Transformations.Windows/FlipTransformation.cs:37-49 | after a vertical flip, `result[r*w+x] == p[(h-1-r)*w+x]` for every cell |
| `Flip.FlippedHorizontalCell` | source/FFImageLoading.Transformations.Windows/FlipTransformation.cs:50-62 | after a horizontal flip, `result[y*w+k] == p[y*w+(w-1-k)]` for every cell |
| `Flip.FlippedIsPermutation` | source/FFImageLoading.Transformations.Windows/FlipTransformation.cs:37-62 | a flip in either mode keeps the multiset of pixels |
| `Flip.FlippedTwiceIsIdentity` | source/FFImageLoading.Transformations.Windows/FlipTransformation.cs:37-62 | flipping twice with the same mode gives back the original pixels |
| `TaskParameters.SameExceptNothingIsEquality` | source/FFImageLoading.Common/Work/TaskParameter.cs:109-164 | the frame names every property of the parameter: agreeing outside no property at all is equality |
| `TaskParameters.NewParameter` | source/FFImageLoading.Common/Work/TaskParameter.cs:75-91 | a new parameter has an empty transformation list, do-nothing callbacks, no path, stream, priority or cache duration, and zero retries |
| `TaskParameters.FromFile` | source/FFImageLoading.Common/Work/TaskParameter.cs:19-22 | sets Source = Filepath and Path; every other property keeps its default |
| `TaskParameters.FromUrl` | source/FFImageLoading.Common/Work/TaskParameter.cs:30-33 | sets Source = Url, Path and CacheDuration; every other property keeps its default |
| `TaskParameters.DefaultPriorityAboveNormal` | source/FFImageLoading.Common/Work/TaskParameter.cs:44-45 | an unset priority becomes Normal + 1; a set one, and everything else, is left alone |
| `TaskParameters.FromApplicationBundle` | source/FFImageLoading.Common/Work/TaskParameter.cs:40-48 | sets Source = ApplicationBundle and Path, and always ends with Priority = Normal + 1 |
| `TaskParameters.FromCompiledResource` | source/FFImageLoading.Common/Work/TaskParameter.cs:55-63 | sets Source = CompiledResource and Path, and always ends with Priority = Normal + 1 |
| `TaskParameters.FromStream` | source/FFImageLoading.Common/Work/TaskParameter.cs:70-73 | sets Source = Stream and Stream; every other property keeps its default |
| `TaskParameters.FactoriesStartEmpty` | source/FFImageLoading.Common/Work/TaskParameter.cs:19-91 | every factory starts with an empty list and no-op callbacks; only the bundle and resource factories set a priority |
| `TaskParameters.Dispose` | source/FFImageLoading.Common/Work/TaskParameter.cs:93-107 | the first call nulls the transformations and the stream and resets the callbacks to no-ops; a disposed parameter is returned unchanged; nothing else changes |
| `TaskParameters.DisposeIdempotent` | source/FFImageLoading.Common/Work/TaskParameter.cs:93-107 | disposing twice is disposing once |
| `TaskParameters.Transform` | source/FFImageLoading.Common/Work/TaskParameter.cs:166-173 | a null transformation raises and changes nothing; otherwise the transformation is appended after all existing ones and nothing else changes; a null list (after Dispose) raises |
| `TaskParameters.TransformAll` | source/FFImageLoading.Common/Work/TaskParameter.cs:175-182 | a null list argument raises `ArgumentNullException`; otherwise the whole list is appended in order and nothing else changes |
| `TaskParameters.TransformAllIsTransformEach` | source/FFImageLoading.Common/Work/TaskParameter.cs:166-182 | appending a list at once equals appending its members one by one with the single overload |
| `TaskParameters.DisposedRejectsTransforms` | source/FFImageLoading.Common/Work/TaskParameter.cs:93-182 | after Dispose, both Transform overloads raise, exactly when the first Dispose call is what nulled the list or the list was already null |
| `TaskParameters.LoadingPlaceholder` | source/FFImageLoading.Common/Work/TaskParameter.cs:189-194 | sets exactly the loading placeholder's path and source |
| `TaskParameters.ErrorPlaceholder` | source/FFImageLoading.Common/Work/TaskParameter.cs:201-206 | sets exactly the error placeholder's path and source |
| `TaskParameters.DownSample` | source/FFImageLoading.Common/Work/TaskParameter.cs:215-221 | sets DownSampleSize = (width, height) and DownSampleUseDipUnits = false, nothing else |
| `TaskParameters.DownSampleInDip` | source/FFImageLoading.Common/Work/TaskParameter.cs:230-236 | sets DownSampleSize = (width, height) and DownSampleUseDipUnits = true, nothing else |
| `TaskParameters.LastDownSampleWins` | source/FFImageLoading.Common/Work/TaskParameter.cs:215-236 | of two down-sample calls, in either unit, only the last one is visible |
| `TaskParameters.DownSampleMode` | source/FFImageLoading.Common/Work/TaskParameter.cs:245-249 | sets exactly the interpolation mode |
| `TaskParameters.WithPriorityLevel` | source/FFImageLoading.Common/Work/TaskParameter.cs:256-260 | sets exactly the priority, to the level's integer value |
| `TaskParameters.WithPriority` | source/FFImageLoading.Common/Work/TaskParameter.cs:267-271 | sets exactly the priority |
| `TaskParameters.WithCache` | source/FFImageLoading.Common/Work/TaskParameter.cs:273-277 | sets exactly the cache type |
| `TaskParameters.TransparencyChannel` | source/FFImageLoading.Common/Work/TaskParameter.cs:284-288 | sets exactly LoadTransparencyChannel |
| `TaskParameters.FadeAnimation` | source/FFImageLoading.Common/Work/TaskParameter.cs:297-304 | sets exactly the three fade-animation properties |
| `TaskParameters.TransformPlaceholders` | source/FFImageLoading.Common/Work/TaskParameter.cs:311-315 | sets exactly TransformPlaceholdersEnabled |
| `TaskParameters.Retry` | source/FFImageLoading.Common/Work/TaskParameter.cs:323-328 | sets exactly RetryCount and RetryDelayInMs |
| `TaskParameters.RetryWithDefaults` | source/FFImageLoading.Common/Work/TaskParameter.cs:323 | `Retry()` with its defaults sets both counts to 0 |
| `TaskParameters.CacheKey` | source/FFImageLoading.Common/Work/TaskParameter.cs:335-339 | sets exactly the custom cache key |
| `TaskParameters.Delay` | source/FFImageLoading.Common/Work/TaskParameter.cs:345-349 | sets exactly the delay |
| `TaskParameters.Success` | source/FFImageLoading.Common/Work/TaskParameter.cs:356-363 | raises exactly when the action is null; otherwise only OnSuccess changes, to a call that ignores its arguments |
| `TaskParameters.SuccessWithInfo` | source/FFImageLoading.Common/Work/TaskParameter.cs:370-377 | raises exactly when the action is null; otherwise only OnSuccess changes, to the action |
| `TaskParameters.ErrorAction` | source/FFImageLoading.Common/Work/TaskParameter.cs:384-391 | raises exactly when the action is null; otherwise only OnError changes |
| `TaskParameters.Finish` | source/FFImageLoading.Common/Work/TaskParameter.cs:398-405 | raises exactly when the action is null; otherwise only OnFinish changes |
| `LoaderTask.WithKey` | source/FFImageLoading.Windows/Work/ImageLoaderTask.cs:335-336 | the image information records the key and the custom cache key it was given |
| `LoaderTask.TryLoadingFromCache` | source/FFImageLoading.Windows/Work/ImageLoaderTask.cs:110-155 | the probe never changes the cache. NotFound means no effect. ErrorOccured means exactly one `OnError`. Found on an unfinished task means the cached image was set as from-cache and not a placeholder, `Completed` was set, and then `OnSuccess(info, MemoryCache)` was called |
| `LoaderTask.TryLoadingFromCacheOutcomes` | source/FFImageLoading.Touch/Work/ImageLoaderTask.cs:125-164 | on an unfinished task, Found holds exactly when the target is valid, an image is cached under the task's key, neither cancellation check fires and `Set` does not raise; ErrorOccured holds exactly when all of that holds but `Set` raises |
| `LoaderTask.QuietKeepsSuccessAfterSet` | source/FFImageLoading.Windows/Work/ImageLoaderTask.cs:88-96 | work that neither sets an image nor calls `OnSuccess` keeps every `OnSuccess` right after its `Set` |
| `LoaderTask.RunsTransformationsGate` | source/FFImageLoading.Windows/Work/ImageLoaderTask.cs:338-342 | a placeholder is transformed only when the parameter enables it, or leaves it unset and the default enables it; a disposed parameter runs no transformations |
| `LoaderTask.ApplyAllAppend` | source/FFImageLoading.Windows/Work/ImageLoaderTask.cs:356-378 | the transformation fold over two lists in a row is the fold over their concatenation |
| `LoaderTask.ApplyAllSkipsRaising` | source/FFImageLoading.Touch/Work/ImageLoaderTask.cs:380-393 | a transformation that raises is skipped, and the rest run on the image as it was |
| `LoaderTask.TransformLoop` | source/FFImageLoading.Windows/Work/ImageLoaderTask.cs:356-378 | the loop stops with Canceled exactly when one of its per-step checks fires; otherwise it reads one check per transformation and ends with the in-order fold of every transformation, raising ones skipped |
| `WindowsTask.GetStream` | source/FFImageLoading.Windows/Work/ImageLoaderTask.cs:226-248 | a blank path fails without asking the resolver; a cancelled resolution gives Canceled, any other exception Failed |
| `WindowsTask.DecodeStream` | source/FFImageLoading.Windows/Work/ImageLoaderTask.cs:285-322 | the rewind-and-decode block sets nothing on the target and leaves the cache alone; an image comes with a non-error result and the key of its path; a WebP path yields an error result and no image. A null stream gives Failed. A stream at its start or seekable goes to `DecodeRewound`. Otherwise a caller's stream gives Failed, and a resolved one is disposed and re-opened on the second attempt: an error result from that passes through, and any other goes to `DecodeRewound` |
| `WindowsTask.DecodeRewound` | source/FFImageLoading.Windows/Work/ImageLoaderTask.cs:315-398 | the check firing gives Canceled on any path, and a WebP path otherwise gives Failed. With the transformations running, a holder decoded from the stream is folded through every transformation and converted to a bitmap, unless a per-step check fires (Canceled); without them the image is the direct decode. A raising decoder gives Failed. An image carries the stream's result and the key `SetKey` records; the trace is untouched |
| `WindowsTask.ApplyAllKeepsImage` | source/FFImageLoading.Windows/Work/ImageLoaderTask.cs:356-380 | the fold never loses the decoded bitmap it starts with |
| `WindowsTask.GetImage` | source/FFImageLoading.Windows/Work/ImageLoaderTask.cs:250-405 | the first and the second check each give Canceled. Past them, an error result of the stream lookup is answered as it is; then the third check gives Canceled, before the stream is disposed; past it, the answer is `DecodeStream`'s, and the stream it leaves open is disposed. An image never comes with an error result and carries the key of its path (the task's own key for "Stream"); a WebP path yields an error and no image; the cache is untouched |
| `WindowsTask.GetImageDisposesStream` | source/FFImageLoading.Windows/Work/ImageLoaderTask.cs:280-283 | a resolved stream is disposed once the `try` block is entered, but a cancellation read between opening and the `try` returns with it still open |
| `WindowsTask.RetrieveImage` | source/FFImageLoading.Windows/Work/ImageLoaderTask.cs:447-471 | a blank path fails. Then cancellation or exit-early gives Canceled, and an invalid target gives InvalidTarget, all before retrieval. An error result is never cached. Any other result is cached under `GetKey(path)`, image and all, as the last effect. Past the gate, the answer is exactly what `GetImageAsync` returns for the path, and an error answer leaves the state `GetImageAsync` left |
| `WindowsTask.RetrieveWebPFails` | source/FFImageLoading.Windows/Work/ImageLoaderTask.cs:327-332 | retrieving a ".webp" path, in any case, gives an error, no image, and an unchanged cache |
| `TouchTask.RequestedSize` | source/FFImageLoading.Touch/Work/ImageLoaderTask.cs:352-359 | ImageIO gets the down-sample size, 0 x 0 when unset, converted to pixels when in dip |
| `TouchTask.RequestedSizeFollowsSetters` | source/FFImageLoading.Touch/Work/ImageLoaderTask.cs:352-361 | after `DownSample(w, h)` ImageIO gets (w, h); after `DownSampleInDip(w, h)` it gets the pixel conversion of both; a fresh parameter asks for 0 x 0 |
| `TouchTask.Acquire` | source/FFImageLoading.Touch/Work/ImageLoaderTask.cs:247-308 | a stream input is disposed first and tagged Stream; a cancelled read then gives Canceled, and any other read exception calls `OnError` and gives Failed. For the resolver: null data fails quietly; cancellation gives Canceled; any other exception calls `OnError` and fails |
| `TouchTask.Decode` | source/FFImageLoading.Touch/Work/ImageLoaderTask.cs:321-397 | the only exceptions are NullReference (the WebP test on a null path) and a decoder's, and none when the resolver handed over a ready image. An answer with information carries the data's own result and the key `GetKey(sourcePath)`, or the task's own key when the identifier is "Stream". An answer without information is Failed or Canceled and has no image. Ready-made image data, with no transformations to run, comes back as it is. In every branch the image is stated: a ready image, the WebP decode or the ImageIO decode at the requested size goes through the fold of the transformations that run (or Canceled if a step check fires). A raising decoder gives DecoderRaised, a null path NullReference, null NSData Failed |
| `TouchTask.Finish` | source/FFImageLoading.Touch/Work/ImageLoaderTask.cs:343-397 | only ImageIO can raise here. The image in hand, or with NSData the ImageIO decode at the requested size, is folded through the transformations that run, with the data's result and keyed information, or Canceled if a step check fires |
| `TouchTask.GetImage` | source/FFImageLoading.Touch/Work/ImageLoaderTask.cs:235-398 | a first-check cancellation gives Canceled; only NullReference or a decoder can raise; any non-error answer carries image information with a key and the custom cache key; the cache is untouched. Past the first check, an acquisition that stops is answered as it is; data with bytes or an image then gives Canceled if the second check fires, and otherwise is decoded as `Decode` states |
| `TouchTask.GetImageDisposesStream` | source/FFImageLoading.Touch/Work/ImageLoaderTask.cs:249-279 | past the first check, the caller's stream is disposed before anything else happens; a decoded stream is tagged Stream and, for "Stream", keyed with the task's own key |
| `TouchTask.GetImageClassifiesResolver` | source/FFImageLoading.Touch/Work/ImageLoaderTask.cs:283-316 | null data gives Failed; cancellation gives Canceled; any other exception gives `OnError` then Failed. Data with neither bytes nor image passes an error result on unchanged and turns any other into Failed |
| `TouchTask.GetImageKeepsResolvedImage` | source/FFImageLoading.Touch/Work/ImageLoaderTask.cs:321-397 | an image handed over by the resolver comes back with the resolver's result, as the fold of the transformations that run, or Canceled if a step check fires |
| `TouchTask.RetrieveImage` | source/FFImageLoading.Touch/Work/ImageLoaderTask.cs:446-468 | cancellation or exit-early gives Canceled, and an invalid target gives InvalidTarget, before retrieval. Exceptions pass through and error results are never cached. Any other result is cached under `GetKey(sourcePath)` as the last effect. Past the gate, the answer is exactly what `GetImageAsync` returns, and an exception or error answer leaves the state `GetImageAsync` left |
| `TouchTask.RetrieveBlankPathMayBeCached` | source/FFImageLoading.Touch/Work/ImageLoaderTask.cs:452-465 | with no blank-path test, a blank path the resolver answers with a ready image and no error ends up in the cache |
| `TaskLadder.Retrieve` | source/FFImageLoading.Touch/Work/ImageLoaderTask.cs:446-468 | either variant's retrieval sets nothing on the target, leaves `Completed` alone, and caches exactly the non-error results under the path's key; only Touch raises |
| `TaskLadder.GetImageFromStream` | source/FFImageLoading.Windows/Work/ImageLoaderTask.cs:168 | the stream overload sets nothing on the target and leaves the cache alone |
| `TaskLadder.LoadPlaceHolder` | source/FFImageLoading.Windows/Work/ImageLoaderTask.cs:407-445 | a blank path, a missing image, an invalid target, cancellation or a swallowed exception gives false with nothing set; true means the last effect is the one `Set`, with the flag given; a cache hit skips retrieval and sets the cached image as local. On a miss, a raising or image-less retrieval gives false with the retrieval's state; otherwise the placeholder is set exactly when the target is valid and the task not cancelled after the retrieval, with the retrieved image and `IsLocalOrCachedResult` of its result |
| `TaskLadder.PlaceholderKeepsSuccessAfterSet` | source/FFImageLoading.Windows/Work/ImageLoaderTask.cs:441-442 | the placeholder's `Set` does not break the rule that every `OnSuccess` follows its `Set` |
| `TaskLadder.PrepareAndTryLoadingFromCache` | source/FFImageLoading.Windows/Work/ImageLoaderTask.cs:43-54 | the task stops exactly when the memory cache may be used and the probe answers Found or ErrorOccured. Then no loading placeholder is attempted. On NotFound, the loading placeholder is attempted on the state the probe left. Without memory cache, only the loading placeholder is attempted |
| `TaskLadder.PrepareStopsWithoutPlaceholder` | source/FFImageLoading.Touch/Work/ImageLoaderTask.cs:52-63 | when the task stops at the probe, the only image set is the cached one, as from-cache and not a placeholder |
| `TaskLadder.Deliver` | source/FFImageLoading.Windows/Work/ImageLoaderTask.cs:79-107 | cancellation gives Canceled, then an invalid target InvalidTarget. A cancellation seen inside the posted lambda gives Success on a completed task and Failed otherwise, with nothing set. Failed comes only from an unfinished task and sets nothing. The task completes only with Success, and Success on an unfinished task means Set (not a placeholder) then `OnSuccess`. A raising `Set` makes it raise, after the error placeholder; otherwise it answers Success and the task is completed. No loading placeholder is set, and the cache is untouched |
| `TaskLadder.AfterRetrieve` | source/FFImageLoading.Windows/Work/ImageLoaderTask.cs:66-107 | a failed or image-less retrieval answers its `GenerateResult`, and the state is that of the placeholder loader run on the error placeholder after the retrieval; a retrieved image is handed to `Deliver` with `IsLocalOrCachedResult` of its result, so every outcome `Deliver` states holds. The task completes only through `Set` of the retrieved image, marked with `IsLocalOrCachedResult` of its result and not as a placeholder, then `OnSuccess` with the retrieved information and result |
| `TaskLadder.ErrorPlaceholderAfterQuiet` | source/FFImageLoading.Windows/Work/ImageLoaderTask.cs:73-77 | it is the placeholder loader run on the error placeholder path and source, with the flag given, on the state the retrieval left; it leaves `Completed` alone and keeps every `OnSuccess` after its `Set`; with the flag false, no loading placeholder is set |
| `TaskLadder.DeliverAfterQuiet` | source/FFImageLoading.Windows/Work/ImageLoaderTask.cs:79-107 | it is `Deliver` run on the state the retrieval left; the task completes only with Success, and then the last two effects are the image's `Set` (not a placeholder) and its `OnSuccess` |
| `TaskLadder.TryGeneratingImage` | source/FFImageLoading.Windows/Work/ImageLoaderTask.cs:56-108 | without a retrieved image, it answers the retrieval's `GenerateResult` (Failed for an exception) after the placeholder loader has run on the error placeholder with the variant's flag. With one, it is `Deliver` of that image: a Success on an unfinished task completes it, and a cancellation seen inside the posted lambda gives Failed on an unfinished task. The task completes only by setting the retrieved image (marked with `IsLocalOrCachedResult` of its result, not as a placeholder) and then calling `OnSuccess` with the retrieved information and result; every `OnSuccess` follows its `Set`; on Windows no loading placeholder is set |
| `TaskLadder.TouchMarksErrorPlaceholderAsLoading` | source/FFImageLoading.Touch/Work/ImageLoaderTask.cs:84-87 | as written, when retrieval yields no image, Touch sets its error placeholder flagged as a loading placeholder where Windows does not |
| `TaskLadder.TryGeneratingImageIntended` | source/FFImageLoading.Touch/Work/ImageLoaderTask.cs:68-119 | with the flag corrected, generation never sets a loading placeholder on either variant, and on Windows it is the task as written; its other outcomes are those of `TryGeneratingImage`, with the error placeholder loaded with the flag false |
| `TaskLadder.NoLoadingSetAfterQuiet` | source/FFImageLoading.Windows/Work/ImageLoaderTask.cs:73-76 | quiet retrieval followed by a placeholder marked false sets no loading placeholder |
| `TaskLadder.AfterStream` | source/FFImageLoading.Windows/Work/ImageLoaderTask.cs:165-223 | a failed or image-less read answers its `GenerateResult` after the error placeholder, loaded with the flag false; an image is cached under the task's own key when the memory cache may be used and handed to `Deliver` as local; the task completes only through that image's `Set` then `OnSuccess` |
| `TaskLadder.CacheAndDeliver` | source/FFImageLoading.Windows/Work/ImageLoaderTask.cs:185-223 | it is `Deliver`, as local, on the state after caching; on every run that does not raise, an image read from a stream is cached under the task's own key, with its information, if the memory cache may be used, and the cache is untouched otherwise; a completed task then ends with the image's local `Set` and its `OnSuccess` |
| `TaskLadder.LoadFromStream` | source/FFImageLoading.Windows/Work/ImageLoaderTask.cs:157-224 | a null stream gives Failed, and cancellation gives Canceled, before any read. Without a decoded image, it answers the read's `GenerateResult` (Failed for an exception) after the placeholder loader has run on the error placeholder with the flag false. With one, it is `Deliver`, as local, after caching: a Success on an unfinished task completes it, and a cancellation seen inside the posted lambda gives Failed on an unfinished task. The task completes only by setting the decoded image as local, not a placeholder, then `OnSuccess` with its information and result. Once an image is decoded, every run that does not raise puts it in the cache under the task's own key if the memory cache may be used, and leaves the cache untouched otherwise |

## Left out

- `Flip.ToFlipped` requires a holder on the int[] path whose array has exactly `Width * Height` pixels. The source raises on a null or short array, and pads a longer one with zeros; none of that is modelled.
- `Bitmaps.SetPixel` requires the int[] holder. On the byte-array holder the source calls a two-argument `SetPixel(pos, color)` extension that is not part of this model.
- `Bitmaps.SetPixel`, `Bitmaps.CellIndex`: `y * Width + x` is computed on unbounded integers. The source's 32-bit wrap-around on huge dimensions is not modelled.
- `Bitmaps` has no `ToNative`. The cast from `IBitmap` to `BitmapHolder` is the identity in a model with one holder type.
- `TaskParameters.TransformAll` appends a list of non-null transformations. A list that contains nulls, which `AddRange` would accept, is not modelled.
- `TaskParameters.NewParameter` takes the zero value of `ImageSource`, which a fresh parameter holds, to be `Filepath`. The enum's declaration is not part of this model.
- `TaskParameters` has no `Preload`. It is an auto-property with no logic.
- `LoaderTask.Env`: the target's validity is read per cancellation check, so it can change between two checks but not between two validity reads with no check between them.
- `Common.EndsWith` compares character by character. The source's `EndsWith` calls are culture-sensitive (the current culture on Windows, the invariant culture on Touch), and can ignore zero-weight characters, so "a.webp" followed by a soft hyphen is a WebP path there and not here. `Common.WebPPathIgnoresCase` holds of this character-wise test only.
- `LoaderTask.Env`: `GetKey()`, `GetKey(path)`, `CanUseMemoryCache()`, `IsLocalOrCachedResult()` and `WithLoadingResult.GenerateResult` are uninterpreted. They live in the base class and in `WithLoadingResult`, which are not part of this model.
- The retry loop, the scheduler, the work queue and `onFinish` are not modelled. They live in the base class and the image service, which are not part of this model.
- Async and dispatch are not modelled. `await` is sequential. An awaited `PostAsync` runs its lambda at once, and a fire-and-forget `Post` is recorded as its `Set`.
- `WindowsTask` and `TouchTask` leave out the decoders (`ToBitmapHolderAsync`, `ToBitmapImageAsync`, `WebPCodec`, `NSData`, ImageIO) and the data resolvers. They are oracles: a call answers an image, null, or an exception.
- `WindowsTask.DecodeRewound` takes `ToBitmapHolderAsync` to return a holder and `ToBitmapImageAsync` on that holder not to raise. The source does not catch an exception from the latter.
- `LoaderTask.TryLoadingFromCache`, `TaskLadder.Deliver`: `OnSuccess` and `OnError` callbacks are assumed not to raise, and `ImageCache.Add` is assumed not to raise.
- `WindowsTask.DecodeStream` models a stream only by whether it is at its start and whether it can seek. `Seek` and `Position` are taken not to raise on a non-null stream.
- `TouchTask.Acquire` folds the three ways of reading a caller's stream (`MemoryStream.ToArray`, `ReadAsync`, `CopyToAsync`) into one read oracle.
- The string helpers lower-case ASCII letters only. `ToLowerInvariant` on other letters is not modelled, and no other letter can lower-case into the ASCII ".webp".
- `FreePixels` calls on the intermediate holders of the Windows transformation loop, and `Dispose` calls on the intermediate `UIImage`s of the Touch one, are memory management and are not recorded.
- `CornersTransformation` and the other transformations are not modelled. The loop treats a transformation as a function that answers an image or raises.

## Findings

| source | as written | input that shows it | evidently intended | confidence | as-written member | corrected member |
|---|---|---|---|---|---|---|
| source/FFImageLoading.Windows/Work/BitmapHolder.cs:75-76 | the guard tests only `x < Width && y < Height`, so a negative column passes and `y * Width + x` lands in the previous row | a 2 x 2 bitmap, `SetPixel(-1, 1, c)`: writes index 1, cell (1, 0) | `0 <= x && x < Width && 0 <= y && y < Height`, so that a call outside the grid does nothing | medium; not executed | `Bitmaps.SetPixelNegativeColumnWrapsToPreviousRow` | `Bitmaps.SetPixelGuarded` |
| source/FFImageLoading.Touch/Work/ImageLoaderTask.cs:86 | the error placeholder is loaded with `isLoadingPlaceholder = true` | a Touch task whose retrieval yields no image (e.g. exit-early), with a cached error placeholder: `Set(img, true, true)` | `false`, as at lines 114, 195 and 228 of the same file and at line 75 of the Windows variant | medium; not executed | `TaskLadder.TouchMarksErrorPlaceholderAsLoading` | `TaskLadder.TryGeneratingImageIntended` |
