/**
 * The decoder side of SplashImage: the image source it reads (an abstract record
 * in place of ImageIO's CGImageSource), the two process-wide tunables, and the
 * pure decisions SplashImage makes from the source's metadata: whether the data
 * is an animated GIF, each frame's delay, and the duration table and eagerly
 * decoded frames that construction produces.
 */
module ImageSource {
  import opened Wrappers

  /** A decoded bitmap (a UIImage). Two images are the same when their ids are. */
  datatype Image = Image(id: nat)

  /** The GIF dictionary of one frame: its unclamped and clamped delay keys, each absent or a number. */
  datatype GifProperties = GifProperties(unclampedDelay: Option<real>, delay: Option<real>)

  /** One frame's property dictionary, which may be missing or lack the GIF dictionary. */
  datatype FrameProperties = NoProperties | Properties(gif: Option<GifProperties>)

  /**
   * An opened image source. `properties` has one entry per frame, so its length is
   * the frame count; `frames[i]` is what decoding frame `i` yields; `stillImage` is
   * what decoding the whole data as one image yields.
   */
  datatype Source = Source(
    conformsToGIF: bool,
    properties: seq<FrameProperties>,
    frames: seq<Option<Image>>,
    stillImage: Option<Image>)
  {
    function Count(): nat { |properties| }

    /** Decoding frame `index`; indices outside the source decode to nothing. */
    function DecodeAt(index: int): (r: Option<Image>)
      ensures r.Some? ==> 0 <= index < Count()
    {
      if 0 <= index < Count() && index < |frames| then frames[index] else None
    }
  }

  /** The two process-wide tunables: prefetch window size and minimum frame duration. */
  datatype GlobalSetting = GlobalSetting(prefetchNumber: int, minFrameDuration: real)
  {
    /** `1...prefetchNumber` traps below 1, and a non-positive floor would stall playback. */
    predicate Valid() { prefetchNumber >= 1 && minFrameDuration > 0.0 }
  }

  const DefaultSetting := GlobalSetting(10, 0.01)

  /** The shipped tunables, a window of 10 frames and a 0.01 s floor, are usable ones. */
  lemma DefaultSettingValid()
    ensures DefaultSetting.Valid()
    ensures DefaultSetting.prefetchNumber == 10 && DefaultSetting.minFrameDuration == 0.01
  {
  }

  function Max(a: real, b: real): real { if a >= b then a else b }

  /** A source is animated when its type conforms to GIF and it has more than one frame. */
  function IsAnimatedGIF(src: Source): (r: bool)
    ensures r <==> src.conformsToGIF && src.Count() >= 2
  {
    src.conformsToGIF && src.Count() > 1
  }

  /**
   * The delay of one frame: the unclamped delay, replaced by the clamped delay when
   * the unclamped one is not positive and a clamped one exists; 0 when there is no
   * property dictionary, no GIF dictionary or no unclamped delay.
   */
  function FrameDelay(p: FrameProperties): (d: real)
    ensures (p.NoProperties? || p.gif.None? || p.gif.value.unclampedDelay.None?) ==> d == 0.0
    ensures p.Properties? && p.gif.Some? && p.gif.value.unclampedDelay.Some? ==>
      var u := p.gif.value.unclampedDelay.value;
      (u > 0.0 ==> d == u) &&
      (u <= 0.0 ==> d == if p.gif.value.delay.Some? then p.gif.value.delay.value else u)
  {
    match p
    case NoProperties => 0.0
    case Properties(None) => 0.0
    case Properties(Some(GifProperties(None, _))) => 0.0
    case Properties(Some(GifProperties(Some(u), clamped))) =>
      if u <= 0.0 && clamped.Some? then clamped.value else u
  }

  /** The duration stored for a frame: its delay, raised to the floor. */
  function StoredDuration(p: FrameProperties, floor: real): (d: real)
    ensures d >= floor && d >= FrameDelay(p)
    ensures d == floor || d == FrameDelay(p)
  {
    Max(floor, FrameDelay(p))
  }

  /** The duration table of the first `n` frames: one floored entry per frame index. */
  function DurationTable(props: seq<FrameProperties>, n: nat, floor: real): (t: map<int, real>)
    requires n <= |props|
    ensures forall k :: k in t ==> 0 <= k < n && t[k] >= floor
  {
    if n == 0 then map[]
    else DurationTable(props, n - 1, floor)[n - 1 := Max(floor, FrameDelay(props[n - 1]))]
  }

  /** The table has exactly the keys `0..n-1`, and every entry is at least the floor and the raw delay. */
  lemma {:induction false} DurationTableFacts(props: seq<FrameProperties>, n: nat, floor: real)
    requires n <= |props|
    ensures var t := DurationTable(props, n, floor);
      && (forall i :: i in t <==> 0 <= i < n)
      && (forall i :: 0 <= i < n ==> t[i] == StoredDuration(props[i], floor))
  {
    if n > 0 {
      DurationTableFacts(props, n - 1, floor);
    }
  }

  /** The sum of the raw (unfloored) delays of the first `n` frames. */
  function RawTotal(props: seq<FrameProperties>, n: nat): real
    requires n <= |props|
  {
    if n == 0 then 0.0 else RawTotal(props, n - 1) + FrameDelay(props[n - 1])
  }

  /** The sum of the stored (floored) durations of the first `n` frames. */
  function StoredTotal(props: seq<FrameProperties>, n: nat, floor: real): real
    requires n <= |props|
  {
    if n == 0 then 0.0 else StoredTotal(props, n - 1, floor) + StoredDuration(props[n - 1], floor)
  }

  /** Frames decoded during construction, over the first `n` frames: each one within the prefetch size that decodes. */
  function EagerFrames(src: Source, prefetch: int, n: nat): (m: map<int, Image>)
    ensures forall k :: k in m ==> 0 <= k < n && k < prefetch
  {
    if n == 0 then map[]
    else
      var m := EagerFrames(src, prefetch, n - 1);
      var decoded := src.DecodeAt(n - 1);
      if n - 1 < prefetch && decoded.Some? then m[n - 1 := decoded.value] else m
  }

  /** The eager frames are exactly the indices below `n` and the prefetch size that decode, with their images. */
  lemma {:induction false} EagerFramesFacts(src: Source, prefetch: int, n: nat)
    ensures var m := EagerFrames(src, prefetch, n);
      && (forall i :: i in m <==> 0 <= i < n && i < prefetch && src.DecodeAt(i).Some?)
      && (forall i :: i in m ==> Some(m[i]) == src.DecodeAt(i))
  {
    if n > 0 {
      EagerFramesFacts(src, prefetch, n - 1);
    }
  }

  /** One more frame extends a table laid over `base` by that frame's floored duration. */
  lemma DurationTableStep(base: map<int, real>, props: seq<FrameProperties>, n: nat, floor: real)
    requires n < |props|
    ensures (base + DurationTable(props, n, floor))[n := Max(floor, FrameDelay(props[n]))]
      == base + DurationTable(props, n + 1, floor)
  {
  }

  /** One more frame extends the eager frames laid over `base` by that frame, when it is decoded. */
  lemma EagerFramesStep(base: map<int, Image>, src: Source, prefetch: int, n: nat)
    requires n < prefetch && src.DecodeAt(n).Some?
    ensures (base + EagerFrames(src, prefetch, n))[n := src.DecodeAt(n).value]
      == base + EagerFrames(src, prefetch, n + 1)
  {
  }

  /** Flooring never lowers the total: the stored durations add up to at least the raw total. */
  lemma {:induction false} StoredTotalCoversRaw(props: seq<FrameProperties>, n: nat, floor: real)
    requires n <= |props|
    ensures StoredTotal(props, n, floor) >= RawTotal(props, n)
  {
    if n > 0 {
      StoredTotalCoversRaw(props, n - 1, floor);
    }
  }

  /** Every stored duration is at least the floor, so the stored total is at least one floor per frame. */
  lemma {:induction false} StoredTotalCoversFloor(props: seq<FrameProperties>, n: nat, floor: real)
    requires n <= |props|
    ensures StoredTotal(props, n, floor) >= n as real * floor
  {
    if n > 0 {
      StoredTotalCoversFloor(props, n - 1, floor);
      assert n as real * floor == (n - 1) as real * floor + floor;
    }
  }

  /** The stored durations add up to the raw total exactly when no frame's delay is below the floor. */
  lemma {:induction false} StoredTotalIsRaw(props: seq<FrameProperties>, n: nat, floor: real)
    requires n <= |props|
    ensures StoredTotal(props, n, floor) == RawTotal(props, n) <==>
      forall i :: 0 <= i < n ==> FrameDelay(props[i]) >= floor
  {
    if n > 0 {
      var last := props[n - 1];
      StoredTotalIsRaw(props, n - 1, floor);
      StoredTotalCoversRaw(props, n - 1, floor);
      if StoredTotal(props, n, floor) == RawTotal(props, n) {
        assert StoredDuration(last, floor) == FrameDelay(last);
      } else if FrameDelay(last) >= floor {
        var i :| 0 <= i < n - 1 && FrameDelay(props[i]) < floor;
      }
    }
  }

  /** A frame whose delay is 0 adds 0 to the raw total while the floor is stored for it. */
  lemma ZeroDelayExample()
    ensures var zero := Properties(Some(GifProperties(Some(0.0), None)));
      var props := [zero, zero, zero];
      RawTotal(props, 3) == 0.0 &&
      DurationTable(props, 3, DefaultSetting.minFrameDuration) == map[0 := 0.01, 1 := 0.01, 2 := 0.01]
  {
    var zero := Properties(Some(GifProperties(Some(0.0), None)));
    var props := [zero, zero, zero];
    assert FrameDelay(zero) == 0.0;
    assert RawTotal(props, 1) == 0.0 && RawTotal(props, 2) == 0.0;
    assert DurationTable(props, 1, 0.01) == map[0 := 0.01];
    assert DurationTable(props, 2, 0.01) == map[0 := 0.01, 1 := 0.01];
  }
}
