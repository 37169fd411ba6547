/** The toggle spikes: `ThornToggle` (two sprites, switched at once) and
    `ThornToggleAnimator` (a strip of frames played by a coroutine, with
    toggles ignored while it plays).  A spike's state is `isUp` and the Unity
    tag the grid reads (`ThornUp` / `ThornDown`). */
module Thorns {
  import opened GridModel

  /** A sprite asset, by its index among the project's assets. */
  type Sprite = nat

  /** The tag a spike carries in state `up`. */
  function SpikeTag(up: bool): (t: Tag)
    ensures t == ThornUp <==> up
    ensures t == ThornDown <==> !up
  {
    if up then ThornUp else ThornDown
  }

  /** Tag and state agree, as after `Start` on a spike tagged `ThornUp` or `ThornDown`. */
  predicate InStep(tag: Tag, isUp: bool)
  {
    tag == SpikeTag(isUp)
  }

  // ------------------------------------------------------------------ ThornToggle

  /** A `ThornToggle` as a value: tag, `isUp` and the renderer's sprite. */
  datatype Spike = Spike(tag: Tag, isUp: bool, sprite: Sprite)

  /** `UpdateVisual`: the sprite for the state. */
  function Visual(isUp: bool, spriteUp: Sprite, spriteDown: Sprite): Sprite
  {
    if isUp then spriteUp else spriteDown
  }

  /** `ThornToggle.Start` on an object tagged `tag`. */
  function SpikeStart(tag: Tag, spriteUp: Sprite, spriteDown: Sprite): Spike
  {
    var up := tag == ThornUp;
    Spike(tag, up, Visual(up, spriteUp, spriteDown))
  }

  /** `ThornToggle.Toggle`. */
  function SpikeToggle(s: Spike, spriteUp: Sprite, spriteDown: Sprite): Spike
  {
    var up := !s.isUp;
    Spike(SpikeTag(up), up, Visual(up, spriteUp, spriteDown))
  }

  /** `Start` reads the state from the tag (up iff `ThornUp`) and shows the
      matching sprite; on a spike tagged `ThornUp` or `ThornDown` tag and state agree. */
  lemma SpikeStartState(tag: Tag, spriteUp: Sprite, spriteDown: Sprite)
    requires spriteUp != spriteDown
    ensures var s := SpikeStart(tag, spriteUp, spriteDown);
      && (s.isUp <==> tag == ThornUp)
      && (s.sprite == spriteUp <==> s.isUp)
      && s.tag == tag
      && (tag in {ThornUp, ThornDown} ==> InStep(s.tag, s.isUp))
  {
  }

  /** `Toggle` negates the state, retags the object to match it and shows the
      matching sprite, whatever the tag was before. */
  lemma SpikeToggleFlips(s: Spike, spriteUp: Sprite, spriteDown: Sprite)
    requires spriteUp != spriteDown
    ensures var s' := SpikeToggle(s, spriteUp, spriteDown);
      && s'.isUp == !s.isUp
      && (s'.tag == ThornUp <==> s'.isUp) && (s'.tag == ThornDown <==> !s'.isUp)
      && (s'.sprite == spriteUp <==> s'.isUp)
  {
  }

  /** Toggling twice restores the state, the tag and the sprite of a spike
      whose tag and sprite agreed with its state. */
  lemma SpikeToggleTwice(s: Spike, spriteUp: Sprite, spriteDown: Sprite)
    requires InStep(s.tag, s.isUp) && s.sprite == Visual(s.isUp, spriteUp, spriteDown)
    ensures SpikeToggle(SpikeToggle(s, spriteUp, spriteDown), spriteUp, spriteDown) == s
  {
  }

  class ThornToggle
  {
    const spriteUp: Sprite
    const spriteDown: Sprite
    /** `gameObject.tag`. */
    var tag: Tag
    var isUp: bool
    /** `spriteRenderer.sprite`. */
    var sprite: Sprite

    function Current(): Spike
      reads this
    {
      Spike(tag, isUp, sprite)
    }

    /** `Start` on an object tagged `tag`. */
    constructor (tag: Tag, spriteUp: Sprite, spriteDown: Sprite)
      ensures this.spriteUp == spriteUp && this.spriteDown == spriteDown
      ensures Current() == SpikeStart(tag, spriteUp, spriteDown)
    {
      this.spriteUp := spriteUp;
      this.spriteDown := spriteDown;
      this.tag := tag;
      isUp := tag == ThornUp;
      new;
      UpdateVisual();
    }

    method Toggle()
      modifies this
      ensures Current() == SpikeToggle(old(Current()), spriteUp, spriteDown)
    {
      isUp := !isUp;
      tag := if isUp then ThornUp else ThornDown;
      UpdateVisual();
    }

    method UpdateVisual()
      modifies this`sprite
      ensures sprite == Visual(isUp, spriteUp, spriteDown)
    {
      sprite := if isUp then spriteUp else spriteDown;
    }
  }

  // ------------------------------------------------------------------ ThornToggleAnimator

  /** A `ThornToggleAnimator` as a value.  `ascending` and `frame` are the
      suspended `PlayAnimation` coroutine's branch and loop index, meaningful
      while `animating`. */
  datatype Anim = Anim(tag: Tag, isUp: bool, animating: bool, sprite: Sprite, ascending: bool, frame: int)

  /** A running coroutine stands on a frame of the strip. */
  predicate AnimValid(frames: seq<Sprite>, a: Anim)
  {
    a.animating ==> 0 <= a.frame < |frames| && a.sprite == frames[a.frame]
  }

  function Reverse<T>(s: seq<T>): (r: seq<T>)
    ensures |r| == |s|
  {
    if s == [] then [] else Reverse(s[1..]) + [s[0]]
  }

  /** The frames a playback shows, in order: the strip from raised to lowered
      when lowering, backwards when raising. */
  function FrameOrder(frames: seq<Sprite>, lowering: bool): seq<Sprite>
  {
    if lowering then frames else Reverse(frames)
  }

  /** The frame `Start` shows for a state: the first (raised) or the last (lowered). */
  function RestingFrame(frames: seq<Sprite>, isUp: bool): (i: int)
    requires |frames| > 0
    ensures 0 <= i < |frames|
  {
    if isUp then 0 else |frames| - 1
  }

  /** `ThornToggleAnimator.Start`: the state from the tag, and the resting frame if there are frames. */
  function AnimStart(frames: seq<Sprite>, tag: Tag, sprite: Sprite): Anim
  {
    var up := tag == ThornUp;
    Anim(tag, up, false, if |frames| > 0 then frames[RestingFrame(frames, up)] else sprite, false, 0)
  }

  /** `PlayAnimation` up to its first wait: nothing to play with no frames;
      otherwise the first frame of the order for the current state is shown. */
  function PlayStart(frames: seq<Sprite>, a: Anim): Anim
  {
    if |frames| == 0 then a.(animating := false)
    else
      var lowering := !a.isUp;
      var i := if lowering then 0 else |frames| - 1;
      a.(animating := true, ascending := lowering, frame := i, sprite := frames[i])
  }

  /** `ThornToggleAnimator.Toggle`: ignored while a playback runs. */
  function AnimToggle(frames: seq<Sprite>, a: Anim): Anim
  {
    if a.animating then a
    else
      var up := !a.isUp;
      PlayStart(frames, a.(isUp := up, tag := SpikeTag(up)))
  }

  /** One `WaitForSeconds(frameInterval)` elapsing: the coroutine's loop
      advances to the next frame, or leaves the loop and clears `isAnimating`. */
  function AnimResume(frames: seq<Sprite>, a: Anim): Anim
  {
    if !a.animating then a
    else
      var i := if a.ascending then a.frame + 1 else a.frame - 1;
      if 0 <= i < |frames| then a.(frame := i, sprite := frames[i]) else a.(frame := i, animating := false)
  }

  /** The state after `k` waits have elapsed. */
  function Resumed(frames: seq<Sprite>, a: Anim, k: nat): Anim
  {
    if k == 0 then a else AnimResume(frames, Resumed(frames, a, k - 1))
  }

  lemma {:induction false} ReverseAt<T>(s: seq<T>, k: int)
    requires 0 <= k < |s|
    ensures Reverse(s)[k] == s[|s| - 1 - k]
  {
    if k < |s| - 1 {
      ReverseAt(s[1..], k);
    }
  }

  lemma {:induction false} ReverseMultiset<T>(s: seq<T>)
    ensures multiset(Reverse(s)) == multiset(s)
  {
    if s != [] {
      ReverseMultiset(s[1..]);
      assert s == [s[0]] + s[1..];
    }
  }

  /** Every playback shows each frame of the strip exactly once. */
  lemma FrameOrderIsPermutation(frames: seq<Sprite>, lowering: bool)
    ensures |FrameOrder(frames, lowering)| == |frames|
    ensures multiset(FrameOrder(frames, lowering)) == multiset(frames)
  {
    if !lowering {
      ReverseMultiset(frames);
    }
  }

  /** `Start` reads the state from the tag and shows frame 0 when raised and
      the last frame when lowered; an empty strip leaves the sprite alone. */
  lemma AnimStartState(frames: seq<Sprite>, tag: Tag, sprite: Sprite)
    ensures var a := AnimStart(frames, tag, sprite);
      && (a.isUp <==> tag == ThornUp) && !a.animating && a.tag == tag
      && (|frames| > 0 ==> a.sprite == (if a.isUp then frames[0] else frames[|frames| - 1]))
      && (|frames| == 0 ==> a.sprite == sprite)
      && AnimValid(frames, a)
  {
  }

  /** While a playback runs, `Toggle` changes nothing: not the state, not the tag. */
  lemma ToggleIgnoredWhileAnimating(frames: seq<Sprite>, a: Anim)
    requires a.animating
    ensures AnimToggle(frames, a) == a
  {
  }

  /** Otherwise `Toggle` flips the state and retags to match it; the
      playback runs exactly when there are frames. */
  lemma AnimToggleFlips(frames: seq<Sprite>, a: Anim)
    requires !a.animating
    ensures var a' := AnimToggle(frames, a);
      && a'.isUp == !a.isUp && InStep(a'.tag, a'.isUp)
      && (a'.animating <==> |frames| > 0)
      && AnimValid(frames, a')
  {
  }

  /** Playback after a toggle: the `k`-th frame of the order is on screen
      after `k` waits, with `isAnimating` set, for every frame of the strip;
      after one more wait `isAnimating` is cleared and the last frame of the
      order, the new state's resting frame, stays on screen. */
  lemma {:induction false} Playback(frames: seq<Sprite>, a: Anim, k: nat)
    requires !a.animating && |frames| > 0 && k <= |frames|
    ensures var b := AnimToggle(frames, a);
      var order := FrameOrder(frames, !b.isUp);
      var r := Resumed(frames, b, k);
      && (k < |frames| ==> r.animating && r.sprite == order[k])
      && (k == |frames| ==> !r.animating && r.sprite == order[|frames| - 1]
                              && r.sprite == frames[RestingFrame(frames, b.isUp)])
      && r.isUp == b.isUp && r.tag == b.tag
      && AnimValid(frames, r)
  {
    var b := AnimToggle(frames, a);
    var n := |frames|;
    var r := Resumed(frames, b, k);
    PlaybackIndex(frames, a, k);
    if b.isUp {
      if k < n {
        ReverseAt(frames, k);
      } else {
        ReverseAt(frames, n - 1);
      }
    }
  }

  /** The coroutine's loop index after `k` waits. */
  lemma {:induction false} PlaybackIndex(frames: seq<Sprite>, a: Anim, k: nat)
    requires !a.animating && |frames| > 0 && k <= |frames|
    ensures var b := AnimToggle(frames, a);
      var r := Resumed(frames, b, k);
      && r.isUp == b.isUp && r.tag == b.tag && r.ascending == !b.isUp
      && (k < |frames| ==> r.animating && r.frame == (if r.ascending then k else |frames| - 1 - k)
                           && r.sprite == frames[r.frame])
      && (k == |frames| ==> !r.animating && r.frame == (if r.ascending then k else -1)
                            && r.sprite == frames[if r.ascending then k - 1 else 0])
  {
    if k > 0 {
      PlaybackIndex(frames, a, k - 1);
    }
  }

  /** A strip with no frames never leaves `isAnimating` set. */
  lemma EmptyStripNeverAnimates(a: Anim)
    requires !a.animating
    ensures !AnimToggle([], a).animating && AnimToggle([], a).isUp == !a.isUp
  {
  }

  /** Two toggles in a row reach a plain spike and an animated spike that
      started in the same state; with frames to play, the animated one
      ignores the second and ends opposite the plain one. */
  lemma FallsOutOfStep(frames: seq<Sprite>, a: Anim, s: Spike, spriteUp: Sprite, spriteDown: Sprite)
    requires |frames| > 0 && !a.animating && s.isUp == a.isUp
    ensures var s2 := SpikeToggle(SpikeToggle(s, spriteUp, spriteDown), spriteUp, spriteDown);
      var a2 := AnimToggle(frames, AnimToggle(frames, a));
      s2.isUp == s.isUp && a2.isUp == !a.isUp && a2.isUp != s2.isUp
  {
  }

  class ThornToggleAnimator
  {
    const thornFrames: seq<Sprite>
    var tag: Tag
    var isUp: bool
    var isAnimating: bool
    var sprite: Sprite
    /** The running `PlayAnimation`'s branch (`!isUp` when it started). */
    var ascending: bool
    /** The running `PlayAnimation`'s loop index `i`. */
    var frame: int

    function Current(): Anim
      reads this
    {
      Anim(tag, isUp, isAnimating, sprite, ascending, frame)
    }

    /** `Start` on an object tagged `tag` whose renderer shows `sprite`. */
    constructor (thornFrames: seq<Sprite>, tag: Tag, sprite: Sprite)
      ensures this.thornFrames == thornFrames
      ensures Current() == AnimStart(thornFrames, tag, sprite)
    {
      this.thornFrames := thornFrames;
      this.tag := tag;
      var up := tag == ThornUp;
      isUp := up;
      isAnimating := false;
      ascending := false;
      frame := 0;
      if |thornFrames| > 0 {
        this.sprite := thornFrames[if up then 0 else |thornFrames| - 1];
      } else {
        this.sprite := sprite;
      }
    }

    method Toggle()
      modifies this
      ensures Current() == AnimToggle(thornFrames, old(Current()))
    {
      if isAnimating {
        return;
      }
      isUp := !isUp;
      tag := if isUp then ThornUp else ThornDown;
      PlayAnimation();
    }

    /** `StartCoroutine(PlayAnimation())`: runs to the first wait. */
    method PlayAnimation()
      modifies this
      ensures Current() == PlayStart(thornFrames, old(Current()))
    {
      isAnimating := true;
      if |thornFrames| == 0 {
        isAnimating := false;
        return;
      }
      ascending := !isUp;
      frame := if ascending then 0 else |thornFrames| - 1;
      sprite := thornFrames[frame];
    }

    /** The coroutine's current wait has elapsed: the next pass of its loop. */
    method Resume()
      modifies this
      ensures Current() == AnimResume(thornFrames, old(Current()))
    {
      if !isAnimating {
        return;
      }
      frame := if ascending then frame + 1 else frame - 1;
      if 0 <= frame < |thornFrames| {
        sprite := thornFrames[frame];
      } else {
        isAnimating := false;
      }
    }
  }
}
