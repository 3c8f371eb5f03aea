# SplashImage / SplashImageView: a verified model of the animated splash image

SplashAd.Swift shows a launch-screen advertisement that can be an animated GIF. Two
classes do the work, and this project models both:

- **`SplashImage`** is the frame store of one decoded asset. Construction opens the
  data as an image source and decides whether it is an animated GIF: the type conforms
  to GIF and there is more than one frame. For a GIF it records:
  - every frame's duration, raised to a global floor;
  - the raw total duration;
  - the frames decoded up front, the first `prefetchNumber` of them.

  Frame 0 also becomes the representative still image. Otherwise it keeps only the
  still image.

  `getFrame(index:)` serves the cached frame, or the representative image when the
  frame is not cached. When the animation has more frames than the prefetch window, it
  also:
  - evicts the served frame, unless it is frame 0;
  - walks the next `prefetchNumber` indices, wrapping with Swift's truncating `%`;
  - gives each missing slot frame 0's image as a placeholder;
  - queues a background decode for that slot on a serial queue.
- **`SplashImageView`** drives playback. A display link calls `changeKeyFrame` once
  per tick. It adds the tick, capped at one second, to an accumulator. Then, while the
  accumulator covers the current frame's required time, it pays that time, moves to
  the next frame (wrapping to 0) and shows what the store serves. The `gifImage`
  setter installs an asset and starts the display link. The `image`, `isHighlighted`,
  `isAnimating` and `start/stopAnimating` overrides route between the asset and the
  plain image view.

The model has five modules:

| module | contents |
|---|---|
| `ImageSource` | The image source, as a record standing in for ImageIO's `CGImageSource`. The two global settings. The pure decisions made from metadata. |
| `Prefetch` | `getFrame` as a function on the cache (`GetFrameSpec`), with its window arithmetic and its properties. |
| `FrameStore` | `SplashImage` as a class. Its fields are updated in place. Its loops are proved against the functions above. |
| `Playback` | One display tick as a function on a `Playhead` value (accumulator, index, displayed frame, cache, decode queue, redraw count), with its properties. |
| `ImageView` | `SplashImageView` as a class. `ChangeKeyFrame` is proved equal to `Playback.Tick`. |

Where the code and its documentation disagree, the model follows the code:

- `init?(data:scale:)` is documented as failable. When the data cannot be opened,
  though, it leaves with a plain `return`, which produces an empty `SplashImage`
  instead of `nil`. The constructor models exactly that: an empty store.
- `stopAnimating()` with no asset installed stops the plain image view's own
  animation. It does not pause the display link.
- A still image (zero frames) installed through `gifImage` still starts the display
  link. Every later `changeKeyFrame` returns at the frame-count guard and never pauses
  it (the out-of-range clause of `TickFacts`).

Two properties of the placeholder scheme are proved:
- `GetFrameRepeatQueuesNothing`: with frame 0 cached, asking again for the same frame
  queues nothing new.
- `GetFrameRepeatRequeues`: when frame 0 is not cached, the placeholder marks nothing,
  so every repeated request queues the same decodes again.

## Model

| member | source | states |
|---|---|---|
| `ImageSource.Source.DecodeAt` | Sources/Classes/SplashImage.swift:107-108 | A frame decodes only at an index inside the source. |
| `ImageSource.IsAnimatedGIF` | Sources/Classes/SplashImage.swift:72-77 | A source is animated exactly when its type conforms to GIF and it has at least two frames. |
| `ImageSource.DefaultSettingValid` | Sources/Classes/SplashImage.swift:29-33 | The shipped settings (a window of 10 frames, a 0.01 s floor) satisfy what the store needs: a window of at least one frame and a positive floor. |
| `ImageSource.FrameDelay` | Sources/Classes/SplashImage.swift:80-94 | The delay is 0 without a property dictionary, a GIF dictionary or an unclamped delay. Otherwise it is the unclamped delay when that is positive, and the clamped delay (if present) when it is not. |
| `ImageSource.StoredDuration` | Sources/Classes/SplashImage.swift:103 | The stored duration is at least the floor and at least the raw delay, and it is one of the two. |
| `ImageSource.DurationTable` | Sources/Classes/SplashImage.swift:100-103 | Every key of the duration table is a frame index below n, and every stored duration is at least the floor. |
| `ImageSource.EagerFrames` | Sources/Classes/SplashImage.swift:106-112 | Only frames below n and below the prefetch size are decoded at construction. |
| `ImageSource.DurationTableFacts` | Sources/Classes/SplashImage.swift:98-103 | After n frames the duration table has exactly the keys 0..n-1, each holding that frame's floored delay. |
| `ImageSource.EagerFramesFacts` | Sources/Classes/SplashImage.swift:106-113 | Frames decoded at construction are exactly those below both n and the prefetch size that decode, each holding its decoded image. |
| `ImageSource.StoredTotalCoversRaw` | Sources/Classes/SplashImage.swift:103-104 | The floored durations add up to at least the raw total that `totalDuration` records. |
| `ImageSource.StoredTotalCoversFloor` | Sources/Classes/SplashImage.swift:103 | The floored durations of n frames add up to at least n times the floor. |
| `ImageSource.StoredTotalIsRaw` | Sources/Classes/SplashImage.swift:103-104 | Floored and raw totals are equal exactly when no frame's delay is below the floor (both directions). |
| `ImageSource.ZeroDelayExample` | Sources/Classes/SplashImage.swift:86-104 | Three frames with delay 0 give a raw total of 0 and store the 0.01 floor for each frame. |
| `Prefetch.Rem` | Sources/Classes/SplashImage.swift:131 | Swift's `%`: the dividend is quotient times divisor plus the remainder; the remainder is below the divisor in magnitude and takes the dividend's sign. |
| `Prefetch.Window` | Sources/Classes/SplashImage.swift:130-131 | The window has `prefetchNumber` slots, and for a non-negative index every slot is a frame index in [0, count), so getFrame never marks or queues an index outside the animation. |
| `Prefetch.MarkPending` | Sources/Classes/SplashImage.swift:132-134 | Visiting one slot never drops or changes an existing entry and adds at most that slot. |
| `Prefetch.Prefill` | Sources/Classes/SplashImage.swift:130-141 | Walking the window never drops a cached key. |
| `Prefetch.Requests` | Sources/Classes/SplashImage.swift:132-139 | Walking the window queues at most one decode per slot. |
| `Prefetch.GetFrameSpec` | Sources/Classes/SplashImage.swift:119-144 | One getFrame queues at most `prefetchNumber` decodes and drops no cached key other than the served index. |
| `Prefetch.WindowAvoidsIndex` | Sources/Classes/SplashImage.swift:124-131 | With more frames than the window, no slot is the index being served. |
| `Prefetch.WindowDistinct` | Sources/Classes/SplashImage.swift:130-131 | With more frames than the window, the slots are pairwise different. |
| `Prefetch.PrefillAt` | Sources/Classes/SplashImage.swift:132-134 | After the slots, a key is cached iff it was cached before or it is a slot while frame 0 is cached. Existing entries keep their image; new ones hold frame 0's. |
| `Prefetch.RequestsOnce` | Sources/Classes/SplashImage.swift:132-139 | Over distinct slots, every slot missing beforehand is queued exactly once, and nothing else is. |
| `Prefetch.GetFrameServes` | Sources/Classes/SplashImage.swift:119-124 | getFrame serves the cached frame, else the representative image. Out of range, or with no more frames than the window, it changes nothing and queues nothing. |
| `Prefetch.GetFrameWindow` | Sources/Classes/SplashImage.swift:124-141 | The served frame is evicted unless it is frame 0. Missing slots get frame 0's image (or stay missing without frame 0) and each is queued once. Slots already cached keep their image, and every key outside the window other than the served one keeps its entry. |
| `Prefetch.GetFrameKeepsFrameZero` | Sources/Classes/SplashImage.swift:126-128 | A cached frame 0 is never evicted or changed. |
| `Prefetch.PrefillCovered` | Sources/Classes/SplashImage.swift:132 | Visiting slots that are all cached changes nothing and queues nothing. |
| `Prefetch.PrefillWithoutZero` | Sources/Classes/SplashImage.swift:134 | Without frame 0 cached, writing the placeholder leaves the cache unchanged. |
| `Prefetch.GetFrameRepeatQueuesNothing` | Sources/Classes/SplashImage.swift:132-134 | With frame 0 cached, a second getFrame for the same index leaves the cache as it is and queues nothing. |
| `Prefetch.GetFrameRepeatRequeues` | Sources/Classes/SplashImage.swift:132-139 | Without frame 0 cached, a second getFrame for the same index leaves the cache as it is and queues the same decodes again, including every slot that was missing. |
| `Prefetch.StillImageServesImage` | Sources/Classes/SplashImage.swift:120 | A still image, with no frames and an empty cache, serves its image for every index and changes nothing. |
| `FrameStore.SplashImage.constructor` | Sources/Classes/SplashImage.swift:61-69 | Data that cannot be opened gives an empty store. A non-GIF keeps only its still image. A GIF gets its frame count, the duration table, the raw total, the eager frames and frame 0 as its image. |
| `FrameStore.SplashImage.InitGIFSource` | Sources/Classes/SplashImage.swift:97-116 | The loop adds exactly the duration table, the raw total and the eager frames, sets the frame count, and takes frame 0 as the representative image when it decodes. |
| `FrameStore.SplashImage.GetFrame` | Sources/Classes/SplashImage.swift:119-144 | The result, the new cache and the appended decodes are those of `GetFrameSpec`, and a cached frame 0 survives. |
| `FrameStore.SplashImage.FillWindow` | Sources/Classes/SplashImage.swift:130-141 | The prefetch loop leaves the cache and the queue that visiting the window slots in order gives. |
| `FrameStore.SplashImage.RunNextDecode` | Sources/Classes/SplashImage.swift:135-139 | The oldest queued decode runs. A decoded frame replaces the slot's entry, a failed decode leaves it, and no key disappears. |
| `Playback.NextIndex` | Sources/Classes/SplashImageView.swift:155-158 | Moving on from a frame index in range gives a frame index in range: the next one, or 0 after the last. |
| `Playback.Advance` | Sources/Classes/SplashImageView.swift:154-162 | One pass of the loop keeps the index in range, only appends to the decode queue, and requests exactly one redraw. |
| `Playback.CatchUpSettles` | Sources/Classes/SplashImageView.swift:153-166 | The loop ends with 0 <= accumulator < the required time and never raises the accumulator. The final required time is the initial one or at most the tick. |
| `Playback.CatchUpIndex` | Sources/Classes/SplashImageView.swift:153-166 | The index stays in [0, count) and ends one advance per redraw further on. |
| `Playback.ForwardWraps` | Sources/Classes/SplashImageView.swift:155-158 | Advancing k times with wrap-to-0 from an index in range lands on (index + k) % count. |
| `Playback.CatchUpKeeps` | Sources/Classes/SplashImageView.swift:159-161 | Catching up never clears the displayed frame, never evicts a cached frame 0, and only appends to the decode queue. |
| `Playback.CatchUpBounded` | Sources/Classes/SplashImageView.swift:153-166 | The number of advances is at most the accumulator divided by min(tick, floor), so the loop ends. |
| `Playback.TickFacts` | Sources/Classes/SplashImageView.swift:148-166 | Out of range, a tick changes nothing. Otherwise the accumulator ends in [0, start + min(1, tick)], the index in range at (start + redraws) % count, and a shown frame stays shown. |
| `Playback.TickExample` | Sources/Classes/SplashImageView.swift:151-164 | With durations 0.1/0.1/0.2, a tick of 0.15 advances once to frame 1, shows it, and leaves 0.05. |
| `ImageView.SplashImageView.constructor` | Sources/Classes/SplashImageView.swift:141-145 | A new view holds its image, has no asset, and its display link is paused. |
| `ImageView.SplashImageView.GetImage` | Sources/Classes/SplashImageView.swift:49-55 | With an asset, the getter is getFrame(0), including its cache and queue effects; the asset's durations, count, image and total are unchanged. Without one, it returns the view's own image. |
| `ImageView.SplashImageView.SetImage` | Sources/Classes/SplashImageView.swift:56-62 | The comparison runs the getter, so an installed asset always receives getFrame(0)'s cache and queue effects. When the getter already yields the new image, the view's state is otherwise unchanged. Otherwise the own image is replaced and any asset is removed, stopping and resetting playback. |
| `ImageView.SplashImageView.SetGifImage` | Sources/Classes/SplashImageView.swift:70-88 | Setting the same asset changes neither the view nor the asset. Otherwise playback stops and resets and the asset is installed. For a new asset, frame 0 is fetched (with getFrame's cache and queue effects, the rest of the asset unchanged) and shown when present and playback resumes; for nil, playback stays stopped. One redraw is requested. |
| `ImageView.SplashImageView.SetHighlighted` | Sources/Classes/SplashImageView.swift:93-102 | The highlighted flag, which the getter reads back, changes only while no asset is installed. |
| `ImageView.SplashImageView.StartAnimating` | Sources/Classes/SplashImageView.swift:105-120 | Afterwards isAnimating holds: the display link resumes with an asset, the view's own animation starts without one. |
| `ImageView.SplashImageView.StopAnimating` | Sources/Classes/SplashImageView.swift:123-129 | Afterwards isAnimating is false: the display link pauses with an asset, the view's own animation stops without one. |
| `ImageView.SplashImageView.ChangeKeyFrame` | Sources/Classes/SplashImageView.swift:148-170 | Without an asset it stops animating. With one, the new playback state is exactly `Playback.Tick` of the old one, and the asset's durations, count, image and total are unchanged. |
| `ImageView.SplashImageView.CatchUpFrames` | Sources/Classes/SplashImageView.swift:153-166 | The while loop ends in the state `Playback.CatchUp` describes. |
| `ImageView.SplashImageView.AdvanceFrame` | Sources/Classes/SplashImageView.swift:154-165 | One pass is `Playback.Advance`, and the next required time is the new frame's duration capped to the tick (unchanged without an entry). |

## Left out

- Decoding and ImageIO: `CGImageSourceCreateWithData`, the type check, the frame count, the property dictionaries and the frame decoder are replaced by the `Source` record, whose fields say what each call yields.
- `UIImage(data:scale:)` and the `scale` parameter: the still image is a field of the source. `init?(data:)` only passes scale 1.
- `init?(named:postfix:)` and `showLocalImageOrGif`: bundle and file lookup and the ad configuration's duration are I/O and outside the frame store.
- The commented-out network GIF loading and `downloadImageQueue` are not active code.
- Concurrency: the serial background decode queue is a FIFO of frame indices, and `RunNextDecode` runs the oldest one. The weak self capture, thread interleaving and data races on `frameImages` are not modelled.
- Floating point: `TimeInterval` is modelled as an exact `real`. Rounding in the accumulator is not modelled.
- Image identity: `===` on `UIImage` becomes equality of `Image` values.
- UIKit rendering: `display(_:)` and the layer's contents are not modelled. `setNeedsDisplay` is a redraw counter. The inherited image, highlighted flag and animation are plain fields.
- The display link: registering it on the run loop is not modelled. Its `duration` is the `tick` parameter, required to be positive (with a non-positive tick the catch-up loop need not end). Its `isPaused` is the `paused` field.
- The other initializers of the view (`init(coder:)`, `init(frame:)`, `init(image:highlightedImage:)`) do what the modelled `init(image:)` does about the display link.
- `GlobalSetting` is a value given to the constructor, not a mutable static. Changing it after a store exists is not modelled. A `prefetchNumber` below 1 is excluded because the range `1...prefetchNumber` traps.
- `FrameStore.SplashImage.FillWindow`, `ImageView.SplashImageView.CatchUpFrames` and `ImageView.SplashImageView.AdvanceFrame` are the inline loops of `getFrame` and `changeKeyFrame`, written as methods of their own.
