/**
 * What one display tick does to the playback state of SplashImageView, as values:
 * the tick (capped at one second) is added to the accumulator, then the catch-up
 * loop pays for frames while the accumulator covers the required time, moving to
 * the next frame (wrapping to 0), showing it when the store has an image for it,
 * and, after the first advance, capping the required time to the tick length.
 */
module Playback {
  import opened Wrappers
  import opened ImageSource
  import opened Prefetch
  import opened Arithmetic

  /** What playback reads from the installed SplashImage; none of it changes after construction. */
  datatype Asset = Asset(durations: map<int, real>, count: int, image: Option<Image>, setting: GlobalSetting)
  {
    predicate Valid()
    {
      setting.Valid() && forall k :: k in durations ==> durations[k] >= setting.minFrameDuration
    }
  }

  /**
   * The state a tick changes: the view's accumulator, frame index, displayed frame and
   * redraw count, and the asset's frame cache and decode queue.
   */
  datatype Playhead = Playhead(
    accumulator: real,
    index: int,
    current: Option<Image>,
    images: map<int, Image>,
    pending: seq<int>,
    redraws: nat)

  function Min(a: real, b: real): real { if a <= b then a else b }

  /** No pass of the catch-up loop can require less than this. */
  function Step(a: Asset, tick: real): real { Min(tick, a.setting.minFrameDuration) }

  /** The frame after `index`, wrapping to 0 at the frame count. */
  function NextIndex(index: int, count: int): (r: int)
    ensures 0 <= index < count ==> 0 <= r < count
    ensures r == 0 || r == index + 1
  {
    if index + 1 >= count then 0 else index + 1
  }

  /** The required time before the first advance: the frame's duration, else the tick length. */
  function FirstRequired(a: Asset, tick: real, index: int): real
  {
    if index in a.durations then a.durations[index] else tick
  }

  /** The required time after an advance to `index`: capped to the tick length, or unchanged without an entry. */
  function NextRequired(a: Asset, tick: real, index: int, required: real): real
  {
    if index in a.durations then Min(tick, a.durations[index]) else required
  }

  /** One pass of the loop: pay `required`, advance, show the frame the store serves if any, redraw. */
  function Advance(a: Asset, p: Playhead, required: real): (q: Playhead)
    requires a.setting.Valid()
    ensures 0 <= p.index < a.count ==> 0 <= q.index < a.count
    ensures p.pending <= q.pending && q.redraws == p.redraws + 1
  {
    var next := NextIndex(p.index, a.count);
    var f := GetFrameSpec(p.images, a.image, a.count, a.setting.prefetchNumber, next);
    Playhead(p.accumulator - required, next, if f.frame.Some? then f.frame else p.current,
             f.images, p.pending + f.requests, p.redraws + 1)
  }

  lemma FloorDrops(acc: real, required: real, step: real)
    requires 0.0 < step <= required <= acc
    ensures 0 <= ((acc - required) / step).Floor < (acc / step).Floor
  {
    assert required / step >= 1.0;
    assert (acc - required) / step == acc / step - required / step;
  }

  /** The catch-up loop from state `p` with required time `required`: the final state and required time. */
  function CatchUp(a: Asset, tick: real, p: Playhead, required: real): (Playhead, real)
    requires a.Valid() && tick > 0.0 && required >= Step(a, tick)
    decreases (p.accumulator / Step(a, tick)).Floor
  {
    if p.accumulator < required then (p, required)
    else
      FloorDrops(p.accumulator, required, Step(a, tick));
      var q := Advance(a, p, required);
      CatchUp(a, tick, q, NextRequired(a, tick, q.index, required))
  }

  /** changeKeyFrame with an asset installed: nothing when the index is out of range, else add the capped tick and catch up. */
  function Tick(a: Asset, tick: real, p: Playhead): Playhead
    requires a.Valid() && tick > 0.0
  {
    if p.index >= a.count then p
    else
      var started := p.(accumulator := p.accumulator + Min(1.0, tick));
      CatchUp(a, tick, started, FirstRequired(a, tick, p.index)).0
  }

  /**
   * The loop stops with the accumulator below the required time and not negative; it
   * only ever subtracts; and the required time it ends with is the one it started
   * with or at most the tick length.
   */
  lemma {:induction false} CatchUpSettles(a: Asset, tick: real, p: Playhead, required: real)
    requires a.Valid() && tick > 0.0 && required >= Step(a, tick)
    requires p.accumulator >= 0.0
    ensures var (q, last) := CatchUp(a, tick, p, required);
      && 0.0 <= q.accumulator < last
      && q.accumulator <= p.accumulator
      && (last == required || last <= tick)
    decreases (p.accumulator / Step(a, tick)).Floor
  {
    if p.accumulator >= required {
      FloorDrops(p.accumulator, required, Step(a, tick));
      var q := Advance(a, p, required);
      var next := NextRequired(a, tick, q.index, required);
      CatchUpSettles(a, tick, q, next);
    }
  }

  /** The index after `k` advances from `index`. */
  function Forward(index: int, k: nat, count: int): int
    decreases k
  {
    if k == 0 then index else Forward(NextIndex(index, count), k - 1, count)
  }

  /**
   * The index stays within `[0, count)` and ends where advancing once per redraw from the
   * starting index puts it.
   */
  lemma {:induction false} CatchUpIndex(a: Asset, tick: real, p: Playhead, required: real)
    requires a.Valid() && tick > 0.0 && required >= Step(a, tick)
    requires 0 <= p.index < a.count
    ensures var q := CatchUp(a, tick, p, required).0;
      && 0 <= q.index < a.count
      && q.redraws >= p.redraws
      && q.index == Forward(p.index, q.redraws - p.redraws, a.count)
    decreases (p.accumulator / Step(a, tick)).Floor
  {
    if p.accumulator >= required {
      FloorDrops(p.accumulator, required, Step(a, tick));
      var q := Advance(a, p, required);
      CatchUpIndex(a, tick, q, NextRequired(a, tick, q.index, required));
    }
  }

  /** Advancing `k` times from an index in range lands on `(index + k) % count`: the index wraps from the last frame to 0. */
  lemma {:induction false} ForwardWraps(index: int, k: nat, count: int)
    requires 0 <= index < count
    ensures Forward(index, k, count) == (index + k) % count
    decreases k
  {
    if k > 0 {
      ForwardWraps(NextIndex(index, count), k - 1, count);
      if index + 1 >= count {
        // Wrapping to frame 0 is a shift by one whole lap.
        ModShift(k - 1, 1, count);
        assert index + k == k - 1 + 1 * count;
      }
    }
  }

  /**
   * Catching up never clears the displayed frame, never evicts a cached frame 0, and only
   * appends to the decode queue.
   */
  lemma {:induction false} CatchUpKeeps(a: Asset, tick: real, p: Playhead, required: real)
    requires a.Valid() && tick > 0.0 && required >= Step(a, tick)
    ensures var q := CatchUp(a, tick, p, required).0;
      && (p.current.Some? ==> q.current.Some?)
      && (0 in p.images ==> 0 in q.images && q.images[0] == p.images[0])
      && p.pending <= q.pending
    decreases (p.accumulator / Step(a, tick)).Floor
  {
    if p.accumulator >= required {
      FloorDrops(p.accumulator, required, Step(a, tick));
      var q := Advance(a, p, required);
      var next := NextIndex(p.index, a.count);
      GetFrameKeepsFrameZero(p.images, a.image, a.count, a.setting.prefetchNumber, next);
      CatchUpKeeps(a, tick, q, NextRequired(a, tick, q.index, required));
    }
  }

  /** Catching up makes at most one advance per `Step` of accumulated time: a large backlog cannot run away. */
  lemma {:induction false} CatchUpBounded(a: Asset, tick: real, p: Playhead, required: real)
    requires a.Valid() && tick > 0.0 && required >= Step(a, tick)
    requires p.accumulator >= 0.0
    ensures CatchUp(a, tick, p, required).0.redraws - p.redraws <= (p.accumulator / Step(a, tick)).Floor
    decreases (p.accumulator / Step(a, tick)).Floor
  {
    if p.accumulator >= required {
      FloorDrops(p.accumulator, required, Step(a, tick));
      var q := Advance(a, p, required);
      CatchUpBounded(a, tick, q, NextRequired(a, tick, q.index, required));
    } else {
      assert p.accumulator / Step(a, tick) >= 0.0;
    }
  }

  /**
   * One tick: with the index out of range nothing changes; otherwise the accumulator
   * grows by at most min(1, tick) and ends not negative, the index stays in range and
   * has moved on by one frame per redraw, wrapping at the frame count, and the displayed
   * frame is never cleared.
   */
  lemma TickFacts(a: Asset, tick: real, p: Playhead)
    requires a.Valid() && tick > 0.0
    requires p.accumulator >= 0.0 && 0 <= p.index
    ensures var q := Tick(a, tick, p);
      && (p.index >= a.count ==> q == p)
      && (p.index < a.count ==>
            && 0.0 <= q.accumulator <= p.accumulator + Min(1.0, tick)
            && 0 <= q.index < a.count
            && q.redraws >= p.redraws
            && q.index == (p.index + (q.redraws - p.redraws)) % a.count
            && (p.current.Some? ==> q.current.Some?))
  {
    if p.index < a.count {
      var started := p.(accumulator := p.accumulator + Min(1.0, tick));
      var first := FirstRequired(a, tick, p.index);
      CatchUpSettles(a, tick, started, first);
      CatchUpIndex(a, tick, started, first);
      CatchUpKeeps(a, tick, started, first);
      var q := CatchUp(a, tick, started, first).0;
      ForwardWraps(p.index, q.redraws - p.redraws, a.count);
    }
  }

  /**
   * Durations 0.1, 0.1 and 0.2, every frame cached, index 0, accumulator 0: a tick of
   * 0.15 advances to frame 1 and leaves 0.05 in the accumulator.
   */
  lemma TickExample(f0: Image, f1: Image, f2: Image)
    ensures var a := Asset(map[0 := 0.1, 1 := 0.1, 2 := 0.2], 3, Some(f0), DefaultSetting);
      var images := map[0 := f0, 1 := f1, 2 := f2];
      var q := Tick(a, 0.15, Playhead(0.0, 0, Some(f0), images, [], 0));
      q.index == 1 && q.accumulator == 0.05 && q.current == Some(f1)
  {
    var a := Asset(map[0 := 0.1, 1 := 0.1, 2 := 0.2], 3, Some(f0), DefaultSetting);
    var images := map[0 := f0, 1 := f1, 2 := f2];
    var p := Playhead(0.15, 0, Some(f0), images, [], 0);
    var q := Advance(a, p, 0.1);
    assert q == Playhead(0.05, 1, Some(f1), images, [], 1);
    assert CatchUp(a, 0.15, q, 0.1) == (q, 0.1);
  }
}
