/**
 * SplashImage: the frame store of one decoded asset. Construction sorts the data into
 * an animated GIF or a still image; for a GIF it builds the duration table and
 * decodes the first frames. getFrame serves frames from a bounded cache and keeps a
 * sliding prefetch window filled. Background decodes are a FIFO queue of frame
 * indices (the serial decode queue); RunNextDecode performs the oldest one.
 */
module FrameStore {
  import opened Wrappers
  import opened ImageSource
  import opened Prefetch

  /** What decoding frame `index` of the store's source yields (nothing without a source). */
  function DecodeFrom(source: Option<Source>, index: int): Option<Image>
  {
    if source.Some? then source.value.DecodeAt(index) else None
  }

  class SplashImage {
    const setting: GlobalSetting
    /** The opened image source; None when the data could not be opened. */
    const source: Option<Source>
    var totalDuration: real
    var frameDurations: map<int, real>
    var frameImages: map<int, Image>
    /** Number of frames of an animated GIF; 0 for a still image. */
    var frameTotalCount: int
    /** The representative still image (frame 0 of a GIF). */
    var image: Option<Image>
    /** Frame indices whose background decode is queued, oldest first. */
    var pendingDecodes: seq<int>

    ghost predicate Valid()
      reads this
    {
      && setting.Valid()
      && frameTotalCount >= 0
      && (forall k :: k in frameDurations ==> frameDurations[k] >= setting.minFrameDuration)
    }

    /** What getFrame(index:) would serve and leave behind in the current state. */
    ghost function Outcome(index: int): Fetch
      reads this
      requires Valid()
    {
      GetFrameSpec(frameImages, image, frameTotalCount, setting.prefetchNumber, index)
    }

    /**
     * init?(data:scale:). When the data cannot be opened the store stays empty (the
     * initializer still succeeds). An animated GIF gets its duration table, raw total
     * and eagerly decoded frames; anything else only gets its still image.
     */
    constructor (setting: GlobalSetting, data: Option<Source>)
      requires setting.Valid()
      ensures Valid()
      ensures this.setting == setting && source == data && pendingDecodes == []
      ensures data.None? ==>
        frameTotalCount == 0 && image == None && frameImages == map[] &&
        frameDurations == map[] && totalDuration == 0.0
      ensures data.Some? && !IsAnimatedGIF(data.value) ==>
        frameTotalCount == 0 && image == data.value.stillImage && frameImages == map[] &&
        frameDurations == map[] && totalDuration == 0.0
      ensures data.Some? && IsAnimatedGIF(data.value) ==>
        var src := data.value;
        && frameTotalCount == src.Count()
        && frameDurations == DurationTable(src.properties, src.Count(), setting.minFrameDuration)
        && totalDuration == RawTotal(src.properties, src.Count())
        && frameImages == EagerFrames(src, setting.prefetchNumber, src.Count())
        && image == src.DecodeAt(0)
    {
      this.setting := setting;
      source := data;
      totalDuration := 0.0;
      frameDurations := map[];
      frameImages := map[];
      frameTotalCount := 0;
      image := None;
      pendingDecodes := [];
      new;
      if data.Some? {
        if IsAnimatedGIF(data.value) {
          InitGIFSource(data.value);
        } else {
          image := data.value.stillImage;
        }
      }
    }

    /**
     * initGIFSource: for every frame, store its floored duration, add its raw delay to
     * the total, and decode it when it lies within the prefetch size; frame 0's image
     * also becomes the representative image.
     */
    method InitGIFSource(src: Source)
      requires Valid()
      modifies this`frameTotalCount, this`frameDurations, this`totalDuration, this`frameImages, this`image
      ensures Valid()
      ensures frameTotalCount == src.Count()
      ensures frameDurations == old(frameDurations) + DurationTable(src.properties, src.Count(), setting.minFrameDuration)
      ensures totalDuration == old(totalDuration) + RawTotal(src.properties, src.Count())
      ensures frameImages == old(frameImages) + EagerFrames(src, setting.prefetchNumber, src.Count())
      ensures image == if src.DecodeAt(0).Some? then src.DecodeAt(0) else old(image)
    {
      var numOfFrames := src.Count();
      frameTotalCount := numOfFrames;
      var floor := setting.minFrameDuration;
      var index := 0;
      while index < numOfFrames
        invariant 0 <= index <= numOfFrames
        invariant frameTotalCount == numOfFrames
        invariant frameDurations == old(frameDurations) + DurationTable(src.properties, index, floor)
        invariant totalDuration == old(totalDuration) + RawTotal(src.properties, index)
        invariant frameImages == old(frameImages) + EagerFrames(src, setting.prefetchNumber, index)
        invariant image == if index > 0 && src.DecodeAt(0).Some? then src.DecodeAt(0) else old(image)
      {
        var frameDuration := FrameDelay(src.properties[index]);
        assert RawTotal(src.properties, index + 1) == RawTotal(src.properties, index) + frameDuration;
        DurationTableStep(old(frameDurations), src.properties, index, floor);
        frameDurations := frameDurations[index := Max(floor, frameDuration)];
        totalDuration := totalDuration + frameDuration;
        if index < setting.prefetchNumber {
          var decoded := src.DecodeAt(index);
          if decoded.Some? {
            if index == 0 {
              image := decoded;
            }
            EagerFramesStep(old(frameImages), src, setting.prefetchNumber, index);
            frameImages := frameImages[index := decoded.value];
          }
        }
        index := index + 1;
      }
    }

    /**
     * getFrame(index:): serves the requested frame (the representative image when it is
     * out of range or not cached); with more frames than the prefetch size it also
     * evicts the served frame, except frame 0, and fills the prefetch window.
     */
    method GetFrame(index: int) returns (r: Option<Image>)
      requires Valid()
      modifies this`frameImages, this`pendingDecodes
      ensures Valid()
      ensures var f := old(Outcome(index));
        r == f.frame && frameImages == f.images && pendingDecodes == old(pendingDecodes) + f.requests
      ensures 0 in old(frameImages) ==> 0 in frameImages && frameImages[0] == old(frameImages[0])
    {
      if index >= frameTotalCount {
        return image;
      }
      r := if index in frameImages then Some(frameImages[index]) else image;
      if frameTotalCount > setting.prefetchNumber {
        if index != 0 {
          frameImages := frameImages - {index};
        }
        FillWindow(index);
        PrefillAt(old(if index != 0 then frameImages - {index} else frameImages),
                  Window(index, frameTotalCount, setting.prefetchNumber), 0);
      }
    }

    /**
     * The prefetch loop of getFrame: each window slot that is missing gets frame 0's
     * image as its sentinel and a queued decode.
     */
    method FillWindow(index: int)
      requires setting.prefetchNumber >= 1 && frameTotalCount > setting.prefetchNumber
      modifies this`frameImages, this`pendingDecodes
      ensures var w := Window(index, frameTotalCount, setting.prefetchNumber);
        && frameImages == Prefill(old(frameImages), w)
        && pendingDecodes == old(pendingDecodes) + Requests(old(frameImages), w)
    {
      ghost var m := frameImages;
      ghost var w := Window(index, frameTotalCount, setting.prefetchNumber);
      var i := 1;
      while i <= setting.prefetchNumber
        invariant 1 <= i <= setting.prefetchNumber + 1
        invariant frameImages == Prefill(m, w[..i - 1])
        invariant pendingDecodes == old(pendingDecodes) + Requests(m, w[..i - 1])
      {
        var idx := Rem(i + index, frameTotalCount);
        assert idx == w[i - 1];
        PrefillSnoc(m, w, i - 1);
        if idx !in frameImages {
          // Writing an absent frame 0 into the slot leaves it absent.
          if 0 in frameImages {
            frameImages := frameImages[idx := frameImages[0]];
          }
          pendingDecodes := pendingDecodes + [idx];
        }
        i := i + 1;
      }
      assert w[..setting.prefetchNumber] == w;
    }

    /**
     * The oldest queued background decode runs: the frame it decodes replaces the
     * slot's sentinel; when decoding fails the sentinel stays.
     */
    method RunNextDecode()
      requires Valid() && pendingDecodes != []
      modifies this`frameImages, this`pendingDecodes
      ensures Valid()
      ensures pendingDecodes == old(pendingDecodes[1..])
      ensures var d := DecodeFrom(source, old(pendingDecodes[0]));
        frameImages == if d.Some? then old(frameImages)[old(pendingDecodes[0]) := d.value] else old(frameImages)
      ensures old(frameImages).Keys <= frameImages.Keys
    {
      var idx := pendingDecodes[0];
      pendingDecodes := pendingDecodes[1..];
      var decoded := DecodeFrom(source, idx);
      if decoded.Some? {
        frameImages := frameImages[idx := decoded.value];
      }
    }
  }
}
