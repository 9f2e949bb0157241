/**
 * `Animator`: named lists of sprite frames and the animation currently
 * played back, stepped one frame further each time a frame is drawn and
 * the playback interval has passed.
 *
 * `Time.timestamp` is the parameter `now`. An animation name that is
 * absent from `frames` while it is being played makes the source throw a
 * `TypeError`; the model requires the name to be present.
 */
module Animation {
  import opened Wrappers

  /** A frame cut from an image atlas. */
  datatype Sprite = Sprite(imageName: string, positionInAtlasX: real, positionInAtlasY: real, spriteWidth: real, spriteHeight: real)

  datatype PlaybackMode = Loop | Once | RandomSingle

  /** The `currentPlaying` record; a `name` of null or "" means nothing is played. */
  datatype Playback = Playback(name: Option<string>, frame: int, startTime: real, playbackSpeed: real, playbackMode: PlaybackMode)

  predicate Playing(p: Playback)
  {
    p.name.Some? && p.name.value != ""
  }

  /**
   * `incrementFrameNumber` on an animation of `length` frames: once the
   * interval has passed since `startTime`, the start time becomes `now`
   * and the frame moves on; the last frame wraps to 0 in loop mode and
   * stays in the other modes. Before the interval has passed nothing
   * changes.
   */
  function Step(p: Playback, length: nat, now: real): (r: Playback)
    ensures r.name == p.name && r.playbackSpeed == p.playbackSpeed && r.playbackMode == p.playbackMode
    ensures !Playing(p) || now < p.startTime + p.playbackSpeed ==> r == p
    ensures Playing(p) && now >= p.startTime + p.playbackSpeed ==> r.startTime == now
    ensures Playing(p) && now >= p.startTime + p.playbackSpeed && p.frame < length - 1 ==> r.frame == p.frame + 1
    ensures Playing(p) && now >= p.startTime + p.playbackSpeed && p.frame >= length - 1 ==>
      r.frame == (if p.playbackMode == Loop then 0 else p.frame)
  {
    if !Playing(p) then p
    else if now >= p.startTime + p.playbackSpeed then
      var q := p.(startTime := now);
      if q.frame < length - 1 then q.(frame := q.frame + 1)
      else if q.playbackMode == Loop then q.(frame := 0)
      else q
    else p
  }

  /** Stepping never leaves a non-empty animation's frame range. */
  lemma StepKeepsFrameInRange(p: Playback, length: nat, now: real)
    requires 0 <= p.frame < length
    ensures 0 <= Step(p, length, now).frame < length
  {
  }

  /** `n` draws, each at a time when the interval has passed. */
  function StepTimes(p: Playback, length: nat, now: real, n: nat): Playback
    decreases n
  {
    if n == 0 then p else StepTimes(Step(p, length, now + p.playbackSpeed), length, now + p.playbackSpeed, n - 1)
  }

  lemma ModAddPeriod(a: nat, length: nat)
    requires 0 < length
    ensures (a + length) % length == a % length
  {
    var q, r := a / length, a % length;
    assert a == q * length + r;
    assert a + length == (q + 1) * length + r;
    ModUnique(a + length, q + 1, r, length);
  }

  /** The remainder is the only `r` in [0, length) with `x == k * length + r`. */
  lemma ModUnique(x: int, k: int, r: int, length: int)
    requires 0 < length && 0 <= r < length && x == k * length + r
    ensures x % length == r
  {
    var q, m := x / length, x % length;
    assert x == q * length + m;
    assert (k - q) * length == m - r;
    if k - q >= 1 {
      MultipleAtLeast(k - q, length);
    } else if k - q <= -1 {
      assert (q - k) * length == r - m;
      MultipleAtLeast(q - k, length);
    }
  }

  lemma MultipleAtLeast(d: int, length: int)
    requires 1 <= d && 0 < length
    ensures d * length >= length
  {
    assert d * length == (d - 1) * length + length;
    assert (d - 1) * length >= 0;
  }

  /** A looping animation advances one frame per due step, modulo its length. */
  lemma {:induction false} LoopSteps(p: Playback, length: nat, now: real, n: nat)
    requires Playing(p) && p.playbackMode == Loop && 0 <= p.frame < length && p.startTime <= now
    ensures StepTimes(p, length, now, n).frame == (p.frame + n) % length
    decreases n
  {
    if n > 0 {
      var q := Step(p, length, now + p.playbackSpeed);
      LoopSteps(q, length, now + p.playbackSpeed, n - 1);
      if p.frame == length - 1 {
        ModAddPeriod(n - 1, length);
        assert p.frame + n == (n - 1) + length;
      }
    }
  }

  /** A once animation advances one frame per due step and then stays on its last frame. */
  lemma {:induction false} OnceSteps(p: Playback, length: nat, now: real, n: nat)
    requires Playing(p) && p.playbackMode == Once && 0 <= p.frame < length && p.startTime <= now
    ensures StepTimes(p, length, now, n).frame == if p.frame + n < length then p.frame + n else length - 1
    decreases n
  {
    if n > 0 {
      var q := Step(p, length, now + p.playbackSpeed);
      OnceSteps(q, length, now + p.playbackSpeed, n - 1);
    }
  }

  /** A looping animation is back on its first frame after one full round. */
  lemma LoopReturnsToStart(p: Playback, length: nat, now: real)
    requires Playing(p) && p.frame == 0 && 0 < length && p.playbackMode == Loop && p.startTime <= now
    ensures StepTimes(p, length, now, length).frame == 0
  {
    LoopSteps(p, length, now, length);
  }

  class Animator {
    var frames: map<string, seq<Sprite>>
    var currentPlaying: Playback

    /**
     * Frame lists are never empty, and a played animation has its frame in
     * range (frame 0 while it has no frames yet).
     */
    predicate Valid()
      reads this
    {
      (forall n :: n in frames ==> |frames[n]| > 0) &&
      (Playing(currentPlaying) && currentPlaying.name.value in frames ==>
        0 <= currentPlaying.frame < |frames[currentPlaying.name.value]|) &&
      (Playing(currentPlaying) && currentPlaying.name.value !in frames ==> currentPlaying.frame == 0)
    }

    constructor ()
      ensures Valid() && frames == map[] && currentPlaying == Playback(None, 0, 0.0, 0.0, Loop)
    {
      frames := map[];
      currentPlaying := Playback(None, 0, 0.0, 0.0, Loop);
    }

    /** `addFrame`: appends the sprite, creating the list on first use. */
    method AddFrame(animationName: string, sprite: Sprite)
      requires Valid()
      modifies this
      ensures Valid()
      ensures frames == old(frames)[animationName := (if animationName in old(frames) then old(frames)[animationName] else []) + [sprite]]
      ensures currentPlaying == old(currentPlaying)
    {
      if animationName !in frames {
        frames := frames[animationName := []];
      }
      frames := frames[animationName := frames[animationName] + [sprite]];
    }

    /** `playLoop` and `playOnce`: restart from frame 0 at `now` with the given interval. */
    method Play(animationName: string, playbackSpeed: real, now: real, once: bool)
      requires Valid()
      modifies this
      ensures Valid() && frames == old(frames)
      ensures currentPlaying == Playback(Some(animationName), 0, now, playbackSpeed, if once then Once else Loop)
    {
      currentPlaying := Playback(Some(animationName), 0, now, playbackSpeed, if once then Once else Loop);
    }

    method IncrementFrameNumber(now: real)
      requires Valid()
      requires Playing(currentPlaying) ==> currentPlaying.name.value in frames
      modifies this
      ensures Valid() && frames == old(frames)
      ensures Playing(old(currentPlaying)) ==>
        currentPlaying == Step(old(currentPlaying), |frames[old(currentPlaying).name.value]|, now)
      ensures !Playing(old(currentPlaying)) ==> currentPlaying == old(currentPlaying)
    {
      if !Playing(currentPlaying) {
        return;
      }
      var length := |frames[currentPlaying.name.value]|;
      StepKeepsFrameInRange(currentPlaying, length, now);
      if now >= currentPlaying.startTime + currentPlaying.playbackSpeed {
        currentPlaying := currentPlaying.(startTime := now);
        if currentPlaying.frame < length - 1 {
          currentPlaying := currentPlaying.(frame := currentPlaying.frame + 1);
          return;
        }
        if currentPlaying.playbackMode == Loop {
          currentPlaying := currentPlaying.(frame := 0);
        }
      }
    }

    /**
     * `getSpriteForDrawing`: null when nothing is played; otherwise the
     * frame current before the call, after which the playback steps.
     */
    method GetSpriteForDrawing(now: real) returns (r: Option<Sprite>)
      requires Valid()
      requires Playing(currentPlaying) ==> currentPlaying.name.value in frames
      modifies this
      ensures Valid() && frames == old(frames)
      ensures !Playing(old(currentPlaying)) ==> r.None? && currentPlaying == old(currentPlaying)
      ensures Playing(old(currentPlaying)) ==>
        r == Some(frames[old(currentPlaying).name.value][old(currentPlaying).frame]) &&
        currentPlaying == Step(old(currentPlaying), |frames[old(currentPlaying).name.value]|, now)
    {
      if !Playing(currentPlaying) {
        return None;
      }
      var resultingSprite := frames[currentPlaying.name.value][currentPlaying.frame];
      IncrementFrameNumber(now);
      return Some(resultingSprite);
    }
  }
}
