/**
 * What SplashImage.getFrame(index:) does to the frame cache, as values: the frame it
 * serves, the eviction of the frame just served, and the sliding prefetch window
 * that marks missing frames with frame 0 as a "decode in progress" sentinel and
 * queues one background decode per missing frame.
 */
module Prefetch {
  import opened Wrappers
  import opened ImageSource
  import opened Arithmetic

  /** Swift's `/` on Int: the quotient is truncated toward zero. */
  function Quot(a: int, n: int): int
    requires n > 0
  {
    if a >= 0 then a / n else -((-a) / n)
  }

  /** Swift's `%` on Int: the remainder that goes with `Quot`, so it takes the sign of the dividend. */
  function Rem(a: int, n: int): (r: int)
    requires n > 0
    ensures a == Quot(a, n) * n + r
    ensures -n < r < n
    ensures a >= 0 ==> r >= 0
    ensures a <= 0 ==> r <= 0
  {
    if a >= 0 then a % n else -((-a) % n)
  }

  /** The prefetch window of `index`: `(i + index) % count` for `i` in `1...prefetch`, in that order. */
  function Window(index: int, count: int, prefetch: nat): (w: seq<int>)
    requires count > 0
    ensures |w| == prefetch
    ensures forall i :: 0 <= i < prefetch ==> w[i] == Rem(i + 1 + index, count)
    ensures 0 <= index ==> forall x :: x in w ==> 0 <= x < count
  {
    seq(prefetch, i requires 0 <= i < prefetch => Rem(i + 1 + index, count))
  }

  /** One window slot: a missing index gets frame 0's image, if frame 0 is cached, as its sentinel. */
  function MarkPending(m: map<int, Image>, idx: int): (r: map<int, Image>)
    ensures m.Keys <= r.Keys <= m.Keys + {idx}
    ensures forall k :: k in m ==> r[k] == m[k]
  {
    if idx in m then m else if 0 in m then m[idx := m[0]] else m
  }

  /** The cache after the window slots `w` have been visited in order. */
  function Prefill(m: map<int, Image>, w: seq<int>): (r: map<int, Image>)
    ensures m.Keys <= r.Keys
  {
    if w == [] then m else MarkPending(Prefill(m, w[..|w| - 1]), w[|w| - 1])
  }

  /** The decodes queued while visiting `w`: each slot found missing when it is visited. */
  function Requests(m: map<int, Image>, w: seq<int>): (r: seq<int>)
    ensures |r| <= |w|
  {
    if w == [] then []
    else
      var init := w[..|w| - 1];
      Requests(m, init) + if w[|w| - 1] in Prefill(m, init) then [] else [w[|w| - 1]]
  }

  /** Visiting one more slot extends the cache and the queue by that slot's step. */
  lemma PrefillSnoc(m: map<int, Image>, w: seq<int>, i: nat)
    requires i < |w|
    ensures Prefill(m, w[..i + 1]) == MarkPending(Prefill(m, w[..i]), w[i])
    ensures Requests(m, w[..i + 1]) ==
      Requests(m, w[..i]) + if w[i] in Prefill(m, w[..i]) then [] else [w[i]]
  {
    assert w[..i + 1][..i] == w[..i];
  }

  predicate Distinct(w: seq<int>)
  {
    forall i, j :: 0 <= i < j < |w| ==> w[i] != w[j]
  }

  /** The outcome of one getFrame call: the frame served, the new cache, the decodes queued. */
  datatype Fetch = Fetch(frame: Option<Image>, images: map<int, Image>, requests: seq<int>)

  /**
   * getFrame(index:) on cache `images`, representative image `image`, `count` frames and
   * window size `prefetch`.
   */
  function GetFrameSpec(images: map<int, Image>, image: Option<Image>, count: int, prefetch: int, index: int): (f: Fetch)
    requires prefetch >= 1
    ensures |f.requests| <= prefetch
    ensures images.Keys - {index} <= f.images.Keys
  {
    if index >= count then Fetch(image, images, [])
    else
      var current := if index in images then Some(images[index]) else image;
      if count > prefetch then
        var evicted := if index != 0 then images - {index} else images;
        var w := Window(index, count, prefetch);
        Fetch(current, Prefill(evicted, w), Requests(evicted, w))
      else
        Fetch(current, images, [])
  }

  /** No window slot is the index being served, provided the window is shorter than the animation. */
  lemma WindowAvoidsIndex(index: int, count: int, prefetch: nat)
    requires 0 < prefetch < count
    ensures index !in Window(index, count, prefetch)
  {
    var w := Window(index, count, prefetch);
    forall i | 0 <= i < prefetch ensures w[i] != index {
      if w[i] == index {
        var a := i + 1 + index;
        assert a - w[i] == Quot(a, count) * count;
        MultipleOutside(Quot(a, count), count);
      }
    }
  }

  /** The window slots are pairwise different, provided the window is shorter than the animation. */
  lemma WindowDistinct(index: int, count: int, prefetch: nat)
    requires 0 < prefetch < count
    ensures Distinct(Window(index, count, prefetch))
  {
    var w := Window(index, count, prefetch);
    forall i, j | 0 <= i < j < prefetch ensures w[i] != w[j] {
      if w[i] == w[j] {
        var a, b := j + 1 + index, i + 1 + index;
        var q := Quot(a, count) - Quot(b, count);
        assert a - b == q * count;
        MultipleOutside(q, count);
      }
    }
  }

  /**
   * After the slots `w`: a key is cached exactly when it was cached before, or it is a
   * slot and frame 0 is cached; cached entries keep their image and new ones hold frame 0's.
   */
  lemma {:induction false} PrefillAt(m: map<int, Image>, w: seq<int>, x: int)
    ensures x in Prefill(m, w) <==> x in m || (x in w && 0 in m)
    ensures x in m ==> Prefill(m, w)[x] == m[x]
    ensures x !in m && x in w && 0 in m ==> Prefill(m, w)[x] == m[0]
  {
    if w != [] {
      var init := w[..|w| - 1];
      assert w == init + [w[|w| - 1]];
      PrefillAt(m, init, x);
      PrefillAt(m, init, 0);
    }
  }

  /** Over pairwise different slots, each slot missing beforehand is queued exactly once and nothing else is. */
  lemma {:induction false} RequestsOnce(m: map<int, Image>, w: seq<int>)
    requires Distinct(w)
    ensures forall x :: multiset(Requests(m, w))[x] == if x in w && x !in m then 1 else 0
  {
    if w != [] {
      var init := w[..|w| - 1];
      var last := w[|w| - 1];
      assert w == init + [last];
      assert Distinct(init);
      RequestsOnce(m, init);
      assert last !in init;
      PrefillAt(m, init, last);
      forall x ensures multiset(Requests(m, w))[x] == if x in w && x !in m then 1 else 0 {
        assert x in w <==> x in init || x == last;
      }
    }
  }

  /**
   * getFrame(index:) serves the cached frame, else the representative image; out of
   * range, or with no more frames than the window, it changes nothing.
   */
  lemma GetFrameServes(images: map<int, Image>, image: Option<Image>, count: int, prefetch: int, index: int)
    requires prefetch >= 1
    ensures var f := GetFrameSpec(images, image, count, prefetch, index);
      && f.frame == (if index < count && index in images then Some(images[index]) else image)
      && (index >= count || count <= prefetch ==> f.images == images && f.requests == [])
  {
  }

  /**
   * With more frames than the window, getFrame(index:) evicts the served frame unless it
   * is frame 0, marks every missing window slot with frame 0's image and queues exactly
   * one decode for it, and leaves every other key as it was.
   */
  lemma GetFrameWindow(images: map<int, Image>, image: Option<Image>, count: int, prefetch: int, index: int)
    requires 1 <= prefetch < count && 0 <= index < count
    ensures var f := GetFrameSpec(images, image, count, prefetch, index);
      var w := Window(index, count, prefetch);
      && index !in w
      && (index != 0 ==> index !in f.images)
      && (forall x :: x in w && x !in images && 0 in images ==> x in f.images && f.images[x] == images[0])
      && (forall x :: x in w && x !in images && 0 !in images ==> x !in f.images)
      && (forall x :: x in w && x in images ==> x in f.images && f.images[x] == images[x])
      && (forall x :: x !in w && x != index ==>
            (x in f.images <==> x in images) && (x in images ==> f.images[x] == images[x]))
      && (forall x :: multiset(f.requests)[x] == if x in w && x !in images then 1 else 0)
  {
    var evicted := if index != 0 then images - {index} else images;
    var w := Window(index, count, prefetch);
    assert GetFrameSpec(images, image, count, prefetch, index).images == Prefill(evicted, w);
    WindowAvoidsIndex(index, count, prefetch);
    WindowDistinct(index, count, prefetch);
    RequestsOnce(evicted, w);
    forall x
      ensures && (x in Prefill(evicted, w) <==> x in evicted || (x in w && 0 in evicted))
              && (x in evicted ==> Prefill(evicted, w)[x] == evicted[x])
              && (x !in evicted && x in w && 0 in evicted ==> Prefill(evicted, w)[x] == evicted[0])
    {
      PrefillAt(evicted, w, x);
    }
    assert forall x :: x in w ==> (x in evicted <==> x in images);
  }

  /** getFrame never evicts a cached frame 0 and never changes its image. */
  lemma GetFrameKeepsFrameZero(images: map<int, Image>, image: Option<Image>, count: int, prefetch: int, index: int)
    requires prefetch >= 1
    ensures var f := GetFrameSpec(images, image, count, prefetch, index);
      0 in images ==> 0 in f.images && f.images[0] == images[0]
  {
    if index < count && count > prefetch {
      var evicted := if index != 0 then images - {index} else images;
      PrefillAt(evicted, Window(index, count, prefetch), 0);
    }
  }

  /** Visiting slots that are all cached changes nothing and queues nothing. */
  lemma {:induction false} PrefillCovered(m: map<int, Image>, w: seq<int>)
    requires forall x :: x in w ==> x in m
    ensures Prefill(m, w) == m && Requests(m, w) == []
  {
    if w != [] {
      var init := w[..|w| - 1];
      assert forall x :: x in init ==> x in w;
      PrefillCovered(m, init);
    }
  }

  /** Without frame 0 in the cache there is no sentinel to write, so visiting slots leaves the cache as it was. */
  lemma {:induction false} PrefillWithoutZero(m: map<int, Image>, w: seq<int>)
    requires 0 !in m
    ensures Prefill(m, w) == m
  {
    if w != [] {
      PrefillWithoutZero(m, w[..|w| - 1]);
    }
  }

  /**
   * With frame 0 cached, asking again for the same frame before any decode finishes
   * finds every window slot marked: the cache stays as it is and nothing more is queued.
   */
  lemma GetFrameRepeatQueuesNothing(images: map<int, Image>, image: Option<Image>, count: int, prefetch: int, index: int)
    requires 1 <= prefetch < count && 0 <= index < count && 0 in images
    ensures var f1 := GetFrameSpec(images, image, count, prefetch, index);
      var f2 := GetFrameSpec(f1.images, image, count, prefetch, index);
      f2.images == f1.images && f2.requests == []
  {
    var w := Window(index, count, prefetch);
    var evicted := if index != 0 then images - {index} else images;
    var filled := Prefill(evicted, w);
    assert GetFrameSpec(images, image, count, prefetch, index).images == filled;
    WindowAvoidsIndex(index, count, prefetch);
    forall x | x in w ensures x in filled {
      PrefillAt(evicted, w, x);
    }
    PrefillAt(evicted, w, index);
    assert (if index != 0 then filled - {index} else filled) == filled;
    PrefillCovered(filled, w);
  }

  /**
   * Without frame 0 in the cache the sentinel marks nothing, so asking again for the
   * same frame queues the very same decodes a second time.
   */
  lemma GetFrameRepeatRequeues(images: map<int, Image>, image: Option<Image>, count: int, prefetch: int, index: int)
    requires 1 <= prefetch < count && 0 <= index < count && 0 !in images
    ensures var f1 := GetFrameSpec(images, image, count, prefetch, index);
      var f2 := GetFrameSpec(f1.images, image, count, prefetch, index);
      f2.images == f1.images && f2.requests == f1.requests
      && (forall x :: x in Window(index, count, prefetch) && x !in images ==> x in f2.requests)
  {
    var w := Window(index, count, prefetch);
    var evicted := if index != 0 then images - {index} else images;
    PrefillWithoutZero(evicted, w);
    var f1 := GetFrameSpec(images, image, count, prefetch, index);
    assert f1.images == evicted;
    assert (if index != 0 then evicted - {index} else evicted) == evicted;
    GetFrameWindow(images, image, count, prefetch, index);
    forall x | x in w && x !in images ensures x in f1.requests {
      assert multiset(f1.requests)[x] == 1;
    }
  }

  /** A still image (no frames, empty cache) serves its image for every index and changes nothing. */
  lemma StillImageServesImage(image: Option<Image>, prefetch: int, index: int)
    requires prefetch >= 1
    ensures GetFrameSpec(map[], image, 0, prefetch, index) == Fetch(image, map[], [])
  {
  }
}
