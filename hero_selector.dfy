/**
 * The hero area: the pointer's horizontal position picks one of the twelve
 * hero frames, and the pointer's speed sets the crossfade duration.
 */
module HeroSelector {
  import opened Wrappers
  import opened JsMath
  import opened MediaFiles

  /** Bands per frame across the viewport width. */
  const BandsPerFile: nat := 3

  /** `mediaFiles.length * 3`: thirty-six equal bands across the viewport. */
  const Sections: nat := MediaCount * BandsPerFile

  /** Slowest and fastest speed (pixels per millisecond) the duration distinguishes. */
  const MinSpeed: real := 0.1
  const MaxSpeed: real := 2.0

  /** Duration (ms) at zero speed, the ms taken off per unit of speed, and the floor. */
  const BaseDuration: real := 200.0
  const DurationPerSpeed: real := 75.0
  const MinDuration: real := 50.0

  /**
   * JavaScript's `a % mediaFiles.length`: the remainder truncated toward
   * zero, so it takes the sign of the dividend.
   */
  function JsRemainder(a: int): (r: int)
    ensures a >= 0 ==> 0 <= r < MediaCount
    ensures a < 0 ==> -(MediaCount as int) < r <= 0
    ensures (a - r) % MediaCount == 0
  {
    if a >= 0 then a % MediaCount else -((-a) % MediaCount)
  }

  /**
   * `Math.floor(x / viewportWidth * sections) % mediaFiles.length`: for a
   * positive width, the floor of `x * sections / width` is the Euclidean
   * quotient.
   */
  function RawIndex(x: int, viewportWidth: int): (r: int)
    requires viewportWidth > 0
    ensures x >= 0 ==> 0 <= r < MediaCount
    ensures x < 0 ==> -(MediaCount as int) < r <= 0
  {
    JsRemainder((x * Sections) / viewportWidth)
  }

  /** The index the hero shows: the raw index clamped into `[0, 11]`. */
  function SelectIndex(x: int, viewportWidth: int): (k: int)
    requires viewportWidth > 0
    ensures 0 <= k < MediaCount
    ensures x < 0 ==> k == 0
    ensures x >= 0 ==> k == RawIndex(x, viewportWidth)
  {
    MaxInt(0, MinInt(MediaCount - 1, RawIndex(x, viewportWidth)))
  }

  /** A nonzero multiple of a positive number is at least that number away from 0. */
  lemma MultipleBound(k: int, b: int)
    requires b > 0
    ensures k >= 1 ==> k * b >= b
    ensures k <= -1 ==> k * b <= -b
  {
  }

  /** Euclidean division is determined by the bracket its dividend lies in. */
  lemma DivisionByBracket(a: int, b: int, q: int)
    requires b > 0 && q * b <= a < (q + 1) * b
    ensures a / b == q
  {
    var d := a / b;
    assert (d - q) * b == (a - a % b) - q * b;
    MultipleBound(d - q, b);
  }

  /** A pointer inside the viewport lies in one of the thirty-six bands. */
  lemma SectionInViewport(x: int, viewportWidth: int)
    requires 0 <= x < viewportWidth
    ensures 0 <= (x * Sections) / viewportWidth < Sections
  {
    var q := (x * Sections) / viewportWidth;
    assert q * viewportWidth == x * Sections - (x * Sections) % viewportWidth;
    MultipleBound(q, viewportWidth);
    MultipleBound(q - Sections, viewportWidth);
  }

  /**
   * Inside the viewport the raw index is already in `[0, 11]`, so the clamp
   * changes nothing.
   */
  lemma ClampIsIdentityInViewport(x: int, viewportWidth: int)
    requires 0 <= x < viewportWidth
    ensures 0 <= RawIndex(x, viewportWidth) < MediaCount
    ensures SelectIndex(x, viewportWidth) == RawIndex(x, viewportWidth)
  {
    SectionInViewport(x, viewportWidth);
  }

  /** A pointer in band `s` (of width `viewportWidth / 36`) selects frame `s mod 12`. */
  lemma IndexOfSection(x: int, viewportWidth: int, s: nat)
    requires viewportWidth > 0
    requires s * viewportWidth <= x * Sections < (s + 1) * viewportWidth
    ensures SelectIndex(x, viewportWidth) == s % MediaCount
  {
    DivisionByBracket(x * Sections, viewportWidth, s);
  }

  /** The speed clamp `Math.max(0.1, Math.min(2, velocity))`. */
  function NormalizedSpeed(velocity: real): (v: real)
    ensures MinSpeed <= v <= MaxSpeed
    ensures MinSpeed <= velocity <= MaxSpeed ==> v == velocity
    ensures velocity < MinSpeed ==> v == MinSpeed
    ensures velocity > MaxSpeed ==> v == MaxSpeed
  {
    Max(MinSpeed, Min(MaxSpeed, velocity))
  }

  /**
   * `Math.max(50, 200 - normalizedVelocity * 75)`: faster pointers get
   * shorter crossfades, from 192.5 ms down to 50 ms.
   */
  function TransitionDuration(velocity: real): (ms: real)
    ensures MinDuration <= ms <= 192.5
    ensures MinSpeed <= velocity <= MaxSpeed ==> ms == BaseDuration - DurationPerSpeed * velocity
    ensures velocity <= MinSpeed ==> ms == 192.5
    ensures velocity >= MaxSpeed ==> ms == MinDuration
  {
    Max(MinDuration, BaseDuration - NormalizedSpeed(velocity) * DurationPerSpeed)
  }

  /** A faster pointer never gets a longer crossfade. */
  lemma DurationNonIncreasing(slower: real, faster: real)
    requires slower <= faster
    ensures TransitionDuration(faster) <= TransitionDuration(slower)
  {
  }

  /**
   * The last pointer sample and the speed derived from it. A zero `lastX`
   * or `lastY` is the "unset" sentinel written when the pointer leaves.
   */
  datatype Tracking = Tracking(lastX: int, lastY: int, lastTime: int, velocity: real)

  /** Whether a move at time `now` measures a new speed from `t`. */
  predicate Measures(t: Tracking, now: int) {
    now - t.lastTime > 0 && t.lastX != 0 && t.lastY != 0
  }

  /**
   * The tracking after a move to `(x, y)` at `now`; `speed` stands for the
   * distance over elapsed time the handler computes.
   */
  function Moved(t: Tracking, x: int, y: int, now: int, speed: real): (r: Tracking)
    ensures r.lastX == x && r.lastY == y && r.lastTime == now
    ensures Measures(t, now) ==> r.velocity == speed
    ensures r.velocity != t.velocity ==> Measures(t, now) && r.velocity == speed
  {
    Tracking(x, y, now, if Measures(t, now) then speed else t.velocity)
  }

  /** The tracking after the pointer leaves the document: `lastTime` is kept. */
  function Left(t: Tracking): (r: Tracking)
    ensures r.velocity == 0.0 && r.lastX == 0 && r.lastY == 0 && r.lastTime == t.lastTime
    ensures forall now :: !Measures(r, now)
  {
    t.(velocity := 0.0, lastX := 0, lastY := 0)
  }

  /**
   * A measuring move forgets the earlier speed entirely: from any sample it
   * leaves exactly the new sample and the measured speed. A move that does
   * not measure keeps the earlier speed.
   */
  lemma MoveRecordsSample(t: Tracking, x: int, y: int, now: int, speed: real)
    ensures Measures(t, now) ==> Moved(t, x, y, now, speed) == Tracking(x, y, now, speed)
    ensures !Measures(t, now) ==> Moved(t, x, y, now, speed) == Tracking(x, y, now, t.velocity)
  {
  }

  /** The first move after leaving keeps speed 0, so the slowest crossfade. */
  lemma FirstMoveAfterLeave(t: Tracking, x: int, y: int, now: int, speed: real)
    ensures Moved(Left(t), x, y, now, speed).velocity == 0.0
    ensures TransitionDuration(Moved(Left(t), x, y, now, speed).velocity) == 192.5
  {
  }

  /** The second move after leaving measures again, once the first was off the edges. */
  lemma SecondMoveAfterLeave(t: Tracking, x1: int, y1: int, t1: int, s1: real,
                             x2: int, y2: int, t2: int, s2: real)
    requires x1 != 0 && y1 != 0 && t2 > t1
    ensures Moved(Moved(Left(t), x1, y1, t1, s1), x2, y2, t2, s2).velocity == s2
  {
  }

  /**
   * A genuine sample on the left or top edge (coordinate 0) reads as the
   * sentinel, so the next move keeps the old speed.
   */
  lemma EdgeSampleLooksUnset(t: Tracking, y1: int, t1: int, s1: real,
                             x2: int, y2: int, t2: int, s2: real)
    ensures var t' := Moved(t, 0, y1, t1, s1);
      Moved(t', x2, y2, t2, s2).velocity == t'.velocity
  {
  }

  /**
   * The closure state of the hero handlers and the two hero media elements
   * (`animation-image`, `animation-video`).
   */
  class HeroState {
    var lastX: int
    var lastY: int
    var lastTime: int
    var velocity: real
    var currentMediaIndex: int
    var imageActive: bool
    var videoActive: bool
    var imageSrc: string
    var videoSrc: string
    /** Whether `play()` was the last call on the video (its rejection is not seen). */
    var videoPlayRequested: bool
    /** Transition duration (ms) last written to each element's style. */
    var imageTransition: Option<real>
    var videoTransition: Option<real>

    function Tracked(): Tracking
      reads this
    {
      Tracking(lastX, lastY, lastTime, velocity)
    }

    /** The source of whichever element is active. */
    function Shown(): string
      reads this
    {
      if imageActive then imageSrc else videoSrc
    }

    /**
     * The image is the active element and shows the frame at
     * `currentMediaIndex`: no hero frame is a video, so `updateMedia` never
     * activates the video.
     */
    ghost predicate Valid()
      reads this
    {
      0 <= currentMediaIndex < MediaCount &&
      imageActive && !videoActive &&
      imageSrc == HeroMediaFiles()[currentMediaIndex]
    }

    /** Page load: no sample yet, the clock read once, frame 1 shown. */
    constructor (now: int)
      ensures Valid()
      ensures Tracked() == Tracking(0, 0, now, 0.0)
      ensures currentMediaIndex == 0 && imageActive && imageSrc == HeroMediaFiles()[0]
      ensures !videoActive && !videoPlayRequested
      ensures imageTransition == None && videoTransition == None
    {
      lastX, lastY, lastTime, velocity := 0, 0, now, 0.0;
      currentMediaIndex := 0;
      imageActive, videoActive := false, false;
      imageSrc, videoSrc := "", "";
      videoPlayRequested := false;
      imageTransition, videoTransition := None, None;
      new;
      UpdateMedia(HeroMediaFiles()[0]);
      HeroMediaNotVideo(0);
    }

    /**
     * `updateMedia`: activate exactly one element, the one matching the
     * file's kind, and point it at the file.
     */
    method UpdateMedia(filePath: string)
      modifies this`imageActive, this`videoActive, this`imageSrc, this`videoSrc,
               this`videoPlayRequested
      ensures Shown() == filePath && imageActive != videoActive
      ensures IsVideoFile(filePath) ==>
        videoActive && videoSrc == filePath && videoPlayRequested && imageSrc == old(imageSrc)
      ensures !IsVideoFile(filePath) ==>
        imageActive && imageSrc == filePath && !videoPlayRequested && videoSrc == old(videoSrc)
    {
      if IsVideoFile(filePath) {
        imageActive := false;
        videoSrc := filePath;
        videoActive := true;
        videoPlayRequested := true;
      } else {
        videoActive := false;
        videoPlayRequested := false;
        imageSrc := filePath;
        imageActive := true;
      }
    }

    /**
     * The index change inside the `mousemove` handler: record frame `k` and
     * hand its path to `updateMedia`, which activates the image.
     */
    method ShowFrame(k: int)
      requires Valid() && 0 <= k < MediaCount
      modifies this`currentMediaIndex, this`imageActive, this`videoActive, this`imageSrc,
               this`videoSrc, this`videoPlayRequested
      ensures Valid() && currentMediaIndex == k
      ensures imageSrc == HeroMediaFiles()[k] && videoSrc == old(videoSrc) && !videoPlayRequested
    {
      currentMediaIndex := k;
      HeroMediaNotVideo(k);
      UpdateMedia(HeroMediaFiles()[k]);
    }

    /**
     * The document `mousemove` handler. `speed` is the distance over elapsed
     * time it computes; `duration` is the crossfade it writes to the active
     * element.
     */
    method MouseMove(x: int, y: int, now: int, viewportWidth: int, speed: real)
      returns (duration: real)
      requires Valid() && viewportWidth > 0
      modifies this
      ensures Valid()
      ensures Tracked() == Moved(old(Tracked()), x, y, now, speed)
      ensures var k := SelectIndex(x, viewportWidth);
        if k != old(currentMediaIndex) then
          currentMediaIndex == k && imageActive && !videoActive &&
          imageSrc == HeroMediaFiles()[k] && videoSrc == old(videoSrc) && !videoPlayRequested
        else
          currentMediaIndex == old(currentMediaIndex) &&
          imageActive == old(imageActive) && videoActive == old(videoActive) &&
          imageSrc == old(imageSrc) && videoSrc == old(videoSrc) &&
          videoPlayRequested == old(videoPlayRequested)
      ensures duration == TransitionDuration(velocity)
      ensures imageActive ==> imageTransition == Some(duration) && videoTransition == old(videoTransition)
      ensures videoActive ==> videoTransition == Some(duration) && imageTransition == old(imageTransition)
    {
      if now - lastTime > 0 && lastX != 0 && lastY != 0 {
        velocity := speed;
      }
      var clampedIndex := SelectIndex(x, viewportWidth);
      if clampedIndex != currentMediaIndex {
        ShowFrame(clampedIndex);
      }
      duration := TransitionDuration(velocity);
      // The transition goes to whichever element is active.
      imageTransition, videoTransition :=
        if imageActive then Some(duration) else imageTransition,
        if imageActive then videoTransition else Some(duration);
      lastX, lastY, lastTime := x, y, now;
    }

    /** The document `mouseleave` handler: reset the sample to the sentinel. */
    method MouseLeave()
      requires Valid()
      modifies this`velocity, this`lastX, this`lastY
      ensures Valid()
      ensures Tracked() == Left(old(Tracked()))
    {
      velocity := 0.0;
      lastX := 0;
      lastY := 0;
    }
  }

  /**
   * After any history: leave, then move twice. The first move after leaving
   * gets the slowest crossfade; the next one uses its own speed.
   */
  method LeaveThenMove(hero: HeroState, viewportWidth: int,
                       x1: int, y1: int, t1: int, s1: real,
                       x2: int, y2: int, t2: int, s2: real)
    returns (d1: real, d2: real)
    requires hero.Valid() && viewportWidth > 0
    requires x1 != 0 && y1 != 0 && t2 > t1
    modifies hero
    ensures hero.Valid()
    ensures d1 == 192.5
    ensures d2 == TransitionDuration(s2)
    ensures hero.Tracked() == Tracking(x2, y2, t2, s2)
  {
    hero.MouseLeave();
    d1 := hero.MouseMove(x1, y1, t1, viewportWidth, s1);
    d2 := hero.MouseMove(x2, y2, t2, viewportWidth, s2);
  }
}
