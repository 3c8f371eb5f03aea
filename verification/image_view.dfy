/**
 * SplashImageView: the playback driver. It holds the installed SplashImage, the
 * frame index, the time accumulator and the frame on display, and a display link
 * whose paused flag starts and stops the ticks. Properties it inherits from the
 * image view (its own image, highlighted flag and animation) are plain fields; the
 * layer's "needs display" requests are counted.
 */
module ImageView {
  import opened Wrappers
  import opened ImageSource
  import opened Prefetch
  import opened FrameStore
  import opened Playback

  /** The parts of a SplashImage that playback reads. */
  ghost function AssetOf(g: SplashImage): Asset
    reads g
  {
    Asset(g.frameDurations, g.frameTotalCount, g.image, g.setting)
  }

  class SplashImageView {
    var accumulator: real
    var currentFrameIndex: int
    var currentFrame: Option<Image>
    var animatedImage: SplashImage?
    /** The display link's isPaused. */
    var paused: bool
    /** The inherited image, isHighlighted and isAnimating of the image view itself. */
    var baseImage: Option<Image>
    var baseHighlighted: bool
    var baseAnimating: bool
    /** Number of setNeedsDisplay requests made on the layer. */
    var redraws: nat

    ghost predicate Valid()
      reads this, animatedImage
    {
      && accumulator >= 0.0
      && currentFrameIndex >= 0
      && (animatedImage != null ==>
            && animatedImage.Valid()
            && (animatedImage.frameTotalCount > 0 ==> currentFrameIndex < animatedImage.frameTotalCount))
    }

    /** The playback state one tick changes. */
    ghost function State(): Playhead
      reads this, animatedImage
      requires animatedImage != null
    {
      Playhead(accumulator, currentFrameIndex, currentFrame,
               animatedImage.frameImages, animatedImage.pendingDecodes, redraws)
    }

    /** init(image:) followed by setupDisplayLink: the display link starts paused. */
    constructor (image: Option<Image>)
      ensures Valid()
      ensures baseImage == image && animatedImage == null && paused
      ensures accumulator == 0.0 && currentFrameIndex == 0 && currentFrame == None && redraws == 0
      ensures !baseHighlighted && !baseAnimating
    {
      accumulator := 0.0;
      currentFrameIndex := 0;
      currentFrame := None;
      animatedImage := null;
      baseImage := image;
      baseHighlighted := false;
      baseAnimating := false;
      redraws := 0;
      paused := true;
    }

    /** The image getter: frame 0 of the installed asset, else the view's own image. */
    method GetImage() returns (r: Option<Image>)
      requires Valid()
      modifies animatedImage
      ensures Valid()
      ensures animatedImage == null ==> r == baseImage
      ensures animatedImage != null ==>
        var f := old(animatedImage.Outcome(0));
        && r == f.frame
        && animatedImage.frameImages == f.images
        && animatedImage.pendingDecodes == old(animatedImage.pendingDecodes) + f.requests
        && AssetOf(animatedImage) == old(AssetOf(animatedImage))
        && animatedImage.totalDuration == old(animatedImage.totalDuration)
    {
      if animatedImage != null {
        r := animatedImage.GetFrame(0);
      } else {
        r := baseImage;
      }
    }

    /**
     * The image setter: when the getter already yields the new image nothing else
     * happens; otherwise the view's own image is replaced and the asset uninstalled.
     */
    method SetImage(newValue: Option<Image>)
      requires Valid()
      modifies this, animatedImage
      ensures Valid()
      ensures var shown := if old(animatedImage) == null then old(baseImage) else old(animatedImage.Outcome(0)).frame;
        if shown == newValue then
          && animatedImage == old(animatedImage) && baseImage == old(baseImage)
          && paused == old(paused) && accumulator == old(accumulator)
          && currentFrameIndex == old(currentFrameIndex) && redraws == old(redraws)
        else
          && baseImage == newValue && animatedImage == null
          && (old(animatedImage) != null ==>
                paused && accumulator == 0.0 && currentFrameIndex == 0 && redraws == old(redraws) + 1)
          && (old(animatedImage) == null ==>
                paused == old(paused) && accumulator == old(accumulator)
                && currentFrameIndex == old(currentFrameIndex) && redraws == old(redraws))
      ensures old(animatedImage) != null ==>
        var g := old(animatedImage);
        var f := old(g.Outcome(0));
        && g.frameImages == f.images
        && g.pendingDecodes == old(g.pendingDecodes) + f.requests
        && AssetOf(g) == old(AssetOf(g))
        && g.totalDuration == old(g.totalDuration)
      ensures currentFrame == old(currentFrame) && baseHighlighted == old(baseHighlighted)
      ensures baseAnimating == old(baseAnimating)
    {
      var shown := GetImage();
      if shown == newValue {
        return;
      }
      baseImage := newValue;
      SetGifImage(null);
    }

    /**
     * The gifImage setter. Installing the same asset again does nothing. Otherwise
     * playback stops, index and accumulator reset, and either the new asset is
     * installed, its frame 0 shown when it has one, and playback resumed, or (for nil)
     * the asset is removed and playback stays stopped. The layer is marked dirty.
     */
    method SetGifImage(newValue: SplashImage?)
      requires Valid() && (newValue != null ==> newValue.Valid())
      modifies this, newValue
      ensures Valid()
      ensures newValue == old(animatedImage) ==>
        && accumulator == old(accumulator) && currentFrameIndex == old(currentFrameIndex)
        && currentFrame == old(currentFrame) && paused == old(paused) && baseImage == old(baseImage)
        && baseAnimating == old(baseAnimating) && redraws == old(redraws)
      ensures newValue == old(animatedImage) && newValue != null ==> unchanged(newValue)
      ensures newValue != old(animatedImage) ==>
        && animatedImage == newValue
        && accumulator == 0.0 && currentFrameIndex == 0
        && redraws == old(redraws) + 1
        && baseAnimating == (old(animatedImage) != null && old(baseAnimating))
        && paused == (if newValue != null then false else old(animatedImage) != null || old(paused))
      ensures newValue != old(animatedImage) && newValue != null ==>
        var f := old(newValue.Outcome(0));
        && newValue.frameImages == f.images
        && newValue.pendingDecodes == old(newValue.pendingDecodes) + f.requests
        && AssetOf(newValue) == old(AssetOf(newValue))
        && newValue.totalDuration == old(newValue.totalDuration)
        && currentFrame == (if f.frame.Some? then f.frame else old(currentFrame))
        && baseImage == (if f.frame.Some? then f.frame else old(baseImage))
      ensures newValue == null ==> currentFrame == old(currentFrame) && baseImage == old(baseImage)
      ensures animatedImage == newValue
      ensures baseHighlighted == old(baseHighlighted)
    {
      if animatedImage == newValue {
        return;
      }
      StopAnimating();
      currentFrameIndex := 0;
      accumulator := 0.0;
      if newValue != null {
        animatedImage := newValue;
        var currentImage := newValue.GetFrame(0);
        if currentImage.Some? {
          baseImage := currentImage;
          currentFrame := currentImage;
        }
        StartAnimating();
      } else {
        animatedImage := null;
      }
      redraws := redraws + 1;
    }

    /** isHighlighted: writes are ignored while an asset is installed. */
    function IsHighlighted(): bool
      reads this
    {
      baseHighlighted
    }

    method SetHighlighted(newValue: bool)
      modifies this`baseHighlighted
      ensures baseHighlighted == if animatedImage == null then newValue else old(baseHighlighted)
    {
      if animatedImage == null {
        baseHighlighted := newValue;
      }
    }

    /** isAnimating: with an asset installed, whether the display link is running. */
    function IsAnimating(): bool
      reads this
    {
      if animatedImage != null then !paused else baseAnimating
    }

    /** startAnimating: resumes the display link, or the view's own animation without an asset. */
    method StartAnimating()
      modifies this`paused, this`baseAnimating
      ensures IsAnimating()
      ensures animatedImage != null ==> !paused && baseAnimating == old(baseAnimating)
      ensures animatedImage == null ==> baseAnimating && paused == old(paused)
    {
      if animatedImage != null {
        paused := false;
      } else {
        baseAnimating := true;
      }
    }

    /** stopAnimating: pauses the display link, or the view's own animation without an asset. */
    method StopAnimating()
      modifies this`paused, this`baseAnimating
      ensures !IsAnimating()
      ensures animatedImage != null ==> paused && baseAnimating == old(baseAnimating)
      ensures animatedImage == null ==> !baseAnimating && paused == old(paused)
    {
      if animatedImage != null {
        paused := true;
      } else {
        baseAnimating := false;
      }
    }

    /**
     * changeKeyFrame, run by the display link once per tick of length `tick`. Without
     * an asset it stops animating. With one it does what Tick describes: add the tick,
     * capped at one second, and run the catch-up loop over the asset's durations,
     * fetching each new frame from the asset.
     */
    method ChangeKeyFrame(tick: real)
      requires Valid() && tick > 0.0
      modifies this, animatedImage
      ensures Valid() && animatedImage == old(animatedImage)
      ensures old(animatedImage) == null ==>
        && !baseAnimating && accumulator == old(accumulator)
        && currentFrameIndex == old(currentFrameIndex) && currentFrame == old(currentFrame)
        && redraws == old(redraws)
      ensures old(animatedImage) != null ==>
        && AssetOf(animatedImage) == old(AssetOf(animatedImage))
        && animatedImage.totalDuration == old(animatedImage.totalDuration)
        && State() == Tick(old(AssetOf(animatedImage)), tick, old(State()))
        && baseAnimating == old(baseAnimating)
      ensures paused == old(paused) && baseImage == old(baseImage) && baseHighlighted == old(baseHighlighted)
    {
      var animated := animatedImage;
      if animated == null {
        StopAnimating();
        return;
      }
      if currentFrameIndex >= animated.frameTotalCount {
        return;
      }
      accumulator := accumulator + Min(1.0, tick);
      var frameDuration := if currentFrameIndex in animated.frameDurations
        then animated.frameDurations[currentFrameIndex] else tick;
      CatchUpFrames(tick, frameDuration);
    }

    /**
     * The catch-up loop of changeKeyFrame: while the accumulator covers the required
     * time, advance one frame.
     */
    method CatchUpFrames(tick: real, required: real)
      requires Valid() && animatedImage != null && tick > 0.0
      requires 0 <= currentFrameIndex < animatedImage.frameTotalCount
      requires required >= Step(AssetOf(animatedImage), tick)
      modifies this`accumulator, this`currentFrameIndex, this`currentFrame, this`redraws
      modifies animatedImage`frameImages, animatedImage`pendingDecodes
      ensures Valid()
      ensures State() == CatchUp(AssetOf(animatedImage), tick, old(State()), required).0
    {
      ghost var asset := AssetOf(animatedImage);
      ghost var goal := CatchUp(asset, tick, State(), required);
      var frameDuration := required;
      while accumulator >= frameDuration
        invariant Valid() && AssetOf(animatedImage) == asset
        invariant 0 <= currentFrameIndex < animatedImage.frameTotalCount
        invariant frameDuration >= Step(asset, tick)
        invariant CatchUp(asset, tick, State(), frameDuration) == goal
        decreases (accumulator / Step(asset, tick)).Floor
      {
        FloorDrops(accumulator, frameDuration, Step(asset, tick));
        frameDuration := AdvanceFrame(tick, frameDuration);
      }
    }

    /**
     * One pass of changeKeyFrame's catch-up loop: pay the required time, move to the
     * next frame (wrapping to 0), show the frame the asset serves for it if any, mark
     * the layer dirty, and cap the next required time to the tick length when the new
     * frame has a duration.
     */
    method AdvanceFrame(tick: real, required: real) returns (next: real)
      requires Valid() && animatedImage != null && tick > 0.0
      requires 0 <= currentFrameIndex < animatedImage.frameTotalCount
      requires accumulator >= required >= Step(AssetOf(animatedImage), tick)
      modifies this`accumulator, this`currentFrameIndex, this`currentFrame, this`redraws
      modifies animatedImage`frameImages, animatedImage`pendingDecodes
      ensures Valid()
      ensures State() == Advance(AssetOf(animatedImage), old(State()), required)
      ensures next == NextRequired(AssetOf(animatedImage), tick, currentFrameIndex, required)
    {
      var animated := animatedImage;
      accumulator := accumulator - required;
      currentFrameIndex := currentFrameIndex + 1;
      if currentFrameIndex >= animated.frameTotalCount {
        currentFrameIndex := 0;
      }
      assert currentFrameIndex == NextIndex(old(currentFrameIndex), animated.frameTotalCount);
      ghost var f := animated.Outcome(currentFrameIndex);
      var currentImage := animated.GetFrame(currentFrameIndex);
      if currentImage.Some? {
        currentFrame := currentImage;
      }
      redraws := redraws + 1;
      assert currentImage == f.frame && animated.frameImages == f.images;
      next := required;
      if currentFrameIndex in animated.frameDurations {
        next := Min(tick, animated.frameDurations[currentFrameIndex]);
      }
    }
  }
}
