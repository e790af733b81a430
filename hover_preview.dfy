/**
 * The project list's hover preview: a floating media element that follows
 * the cursor, revealed shortly after the cursor enters a row and hidden at
 * once when it leaves.
 */
module HoverPreview {
  import opened Wrappers
  import opened JsMath

  /** Delay (ms) between entering a row and revealing its media. */
  const RevealDelay: int := 100

  /** The overlay's width and height as fractions of the viewport, and their caps (px). */
  const ViewportFraction: real := 0.6
  const MaxMediaWidth: real := 600.0
  const MaxMediaHeight: real := 400.0

  /** A project row's `data-media` path and `data-type` (null when absent). */
  datatype Row = Row(media: string, kind: Option<string>)

  /** The reveal `showMedia` has scheduled: the row it captured and when it is due. */
  datatype PendingReveal = PendingReveal(row: Row, due: int)

  /** Half the overlay width: `Math.min(viewportWidth * 0.6, 600) / 2`. */
  function OverlayHalfWidth(viewportWidth: int): (half: real)
    ensures half <= MaxMediaWidth / 2.0
    ensures viewportWidth >= 0 ==> 0.0 <= half <= 0.3 * viewportWidth as real
    ensures viewportWidth >= 1000 ==> half == MaxMediaWidth / 2.0
    ensures viewportWidth <= 1000 ==> half == 0.3 * viewportWidth as real
  {
    Min(viewportWidth as real * ViewportFraction, MaxMediaWidth) / 2.0
  }

  /** Half the overlay height: `Math.min(viewportHeight * 0.6, 400) / 2`. */
  function OverlayHalfHeight(viewportHeight: int): (half: real)
    ensures half <= MaxMediaHeight / 2.0
    ensures viewportHeight >= 0 ==> 0.0 <= half <= 0.3 * viewportHeight as real
    ensures viewportHeight >= 667 ==> half == MaxMediaHeight / 2.0
    ensures viewportHeight <= 666 ==> half == 0.3 * viewportHeight as real
  {
    Min(viewportHeight as real * ViewportFraction, MaxMediaHeight) / 2.0
  }

  /**
   * `Math.max(half, Math.min(c, extent - half))`: the centre of an overlay
   * of half-size `half` kept inside `[0, extent]`.
   */
  function Constrain(c: real, extent: real, half: real): (p: real)
    ensures 0.0 <= half && 2.0 * half <= extent ==> half <= p <= extent - half
    ensures half <= c <= extent - half ==> p == c
    ensures 2.0 * half <= extent && c < half ==> p == half
    ensures 2.0 * half <= extent && c > extent - half ==> p == extent - half
  {
    Max(half, Min(c, extent - half))
  }

  /** Constraining an already constrained centre changes nothing. */
  lemma ConstrainIdempotent(c: real, extent: real, half: real)
    requires 2.0 * half <= extent
    ensures Constrain(Constrain(c, extent, half), extent, half) == Constrain(c, extent, half)
  {
  }

  /** The overlay's horizontal centre for a cursor at `x`. */
  function OverlayLeft(x: int, viewportWidth: int): (left: real)
    ensures viewportWidth >= 0 ==>
      OverlayHalfWidth(viewportWidth) <= left <= viewportWidth as real - OverlayHalfWidth(viewportWidth)
    ensures OverlayHalfWidth(viewportWidth) <= x as real <= viewportWidth as real - OverlayHalfWidth(viewportWidth) ==>
      left == x as real
    ensures viewportWidth >= 0 && (x as real) < OverlayHalfWidth(viewportWidth) ==>
      left == OverlayHalfWidth(viewportWidth)
    ensures viewportWidth >= 0 && (x as real) > viewportWidth as real - OverlayHalfWidth(viewportWidth) ==>
      left == viewportWidth as real - OverlayHalfWidth(viewportWidth)
  {
    Constrain(x as real, viewportWidth as real, OverlayHalfWidth(viewportWidth))
  }

  /** The overlay's vertical centre for a cursor at `y`. */
  function OverlayTop(y: int, viewportHeight: int): (top: real)
    ensures viewportHeight >= 0 ==>
      OverlayHalfHeight(viewportHeight) <= top <= viewportHeight as real - OverlayHalfHeight(viewportHeight)
    ensures OverlayHalfHeight(viewportHeight) <= y as real <= viewportHeight as real - OverlayHalfHeight(viewportHeight) ==>
      top == y as real
    ensures viewportHeight >= 0 && (y as real) < OverlayHalfHeight(viewportHeight) ==>
      top == OverlayHalfHeight(viewportHeight)
    ensures viewportHeight >= 0 && (y as real) > viewportHeight as real - OverlayHalfHeight(viewportHeight) ==>
      top == viewportHeight as real - OverlayHalfHeight(viewportHeight)
  {
    Constrain(y as real, viewportHeight as real, OverlayHalfHeight(viewportHeight))
  }

  /**
   * The overlay never crosses the viewport edge: its left and right edges
   * stay within `[0, viewportWidth]`, and likewise vertically.
   */
  lemma OverlayInsideViewport(x: int, y: int, viewportWidth: int, viewportHeight: int)
    requires viewportWidth >= 0 && viewportHeight >= 0
    ensures 0.0 <= OverlayLeft(x, viewportWidth) - OverlayHalfWidth(viewportWidth)
    ensures OverlayLeft(x, viewportWidth) + OverlayHalfWidth(viewportWidth) <= viewportWidth as real
    ensures 0.0 <= OverlayTop(y, viewportHeight) - OverlayHalfHeight(viewportHeight)
    ensures OverlayTop(y, viewportHeight) + OverlayHalfHeight(viewportHeight) <= viewportHeight as real
  {
  }

  /**
   * The preview's global state (`isHovering`, `showMediaTimeout`,
   * `currentMediaType`) and the elements it drives
   * (`projects-media-image`, `projects-media-video`, `projects-cursor-media`).
   */
  class HoverState {
    var isHovering: bool
    /** The reveal scheduled and not yet run or cancelled. */
    var pending: Option<PendingReveal>
    var currentMediaType: Option<string>
    var imageActive: bool
    var videoActive: bool
    var imageSrc: string
    var videoSrc: string
    /** Whether `play()` was the last call on the video (its rejection is not seen). */
    var videoPlayRequested: bool
    /** The overlay's `left` and `top` style, unset until first positioned. */
    var left: Option<real>
    var top: Option<real>

    /**
     * At most one media element is active; a reveal is pending only while
     * hovering; away from the rows nothing is shown and no type is current.
     */
    ghost predicate Valid()
      reads this
    {
      !(imageActive && videoActive) &&
      (pending.Some? ==> isHovering) &&
      (!isHovering ==> !imageActive && !videoActive && currentMediaType == None)
    }

    /** Page load: nothing hovered, pending or shown. */
    constructor ()
      ensures Valid()
      ensures !isHovering && pending == None && currentMediaType == None
      ensures !imageActive && !videoActive && !videoPlayRequested
      ensures left == None && top == None
    {
      isHovering := false;
      pending := None;
      currentMediaType := None;
      imageActive, videoActive := false, false;
      imageSrc, videoSrc := "", "";
      videoPlayRequested := false;
      left, top := None, None;
    }

    /**
     * `updateMediaPosition`: centre the overlay on the cursor, kept inside
     * the viewport; nothing happens unless hovering.
     */
    method UpdateMediaPosition(x: int, y: int, viewportWidth: int, viewportHeight: int)
      modifies this`left, this`top
      ensures isHovering ==>
        left == Some(OverlayLeft(x, viewportWidth)) && top == Some(OverlayTop(y, viewportHeight))
      ensures !isHovering ==> left == old(left) && top == old(top)
    {
      if !isHovering {
        return;
      }
      left := Some(OverlayLeft(x, viewportWidth));
      top := Some(OverlayTop(y, viewportHeight));
    }

    /**
     * `showMedia`: cancel any pending reveal and schedule one for `row`,
     * due `RevealDelay` ms after `now`.
     */
    method ShowMedia(row: Row, now: int)
      modifies this`pending
      ensures pending == Some(PendingReveal(row, now + RevealDelay))
    {
      pending := Some(PendingReveal(row, now + RevealDelay));
    }

    /**
     * The body of the reveal timer: record the row's type, and show the
     * video or the image for the types 'video' and 'image'.
     */
    method RevealRow(row: Row)
      modifies this`currentMediaType, this`imageActive, this`videoActive,
               this`imageSrc, this`videoSrc, this`videoPlayRequested
      ensures currentMediaType == row.kind
      ensures row.kind == Some("video") ==>
        videoActive && !imageActive && videoSrc == row.media && videoPlayRequested &&
        imageSrc == old(imageSrc)
      ensures row.kind == Some("image") ==>
        imageActive && !videoActive && imageSrc == row.media && !videoPlayRequested &&
        videoSrc == old(videoSrc)
      ensures row.kind != Some("video") && row.kind != Some("image") ==>
        imageActive == old(imageActive) && videoActive == old(videoActive) &&
        imageSrc == old(imageSrc) && videoSrc == old(videoSrc) &&
        videoPlayRequested == old(videoPlayRequested)
    {
      currentMediaType := row.kind;
      if row.kind == Some("video") {
        imageActive := false;
        videoSrc := row.media;
        videoActive := true;
        videoPlayRequested := true;
      } else if row.kind == Some("image") {
        videoActive := false;
        videoPlayRequested := false;
        imageSrc := row.media;
        imageActive := true;
      }
    }

    /**
     * The clock reaches `now`: a pending reveal that is due runs and leaves
     * the slot; otherwise nothing changes.
     */
    method Tick(now: int) returns (fired: bool)
      requires Valid()
      modifies this`pending, this`currentMediaType, this`imageActive, this`videoActive,
               this`imageSrc, this`videoSrc, this`videoPlayRequested
      ensures Valid()
      ensures fired <==> old(pending).Some? && now >= old(pending).value.due
      ensures fired ==> pending == None && currentMediaType == old(pending).value.row.kind
      ensures fired && old(pending).value.row.kind == Some("video") ==>
        videoActive && !imageActive && videoSrc == old(pending).value.row.media &&
        videoPlayRequested && imageSrc == old(imageSrc)
      ensures fired && old(pending).value.row.kind == Some("image") ==>
        imageActive && !videoActive && imageSrc == old(pending).value.row.media &&
        !videoPlayRequested && videoSrc == old(videoSrc)
      ensures fired && old(pending).value.row.kind != Some("video") &&
              old(pending).value.row.kind != Some("image") ==>
        imageActive == old(imageActive) && videoActive == old(videoActive) &&
        imageSrc == old(imageSrc) && videoSrc == old(videoSrc) &&
        videoPlayRequested == old(videoPlayRequested)
      ensures !fired ==>
        pending == old(pending) && currentMediaType == old(currentMediaType) &&
        imageActive == old(imageActive) && videoActive == old(videoActive) &&
        imageSrc == old(imageSrc) && videoSrc == old(videoSrc) &&
        videoPlayRequested == old(videoPlayRequested)
    {
      fired := pending.Some? && now >= pending.value.due;
      if fired {
        var row := pending.value.row;
        pending := None;
        RevealRow(row);
      }
    }

    /**
     * `hideMedia`: cancel any pending reveal and hide both elements at once.
     */
    method HideMedia()
      modifies this`pending, this`currentMediaType, this`imageActive, this`videoActive,
               this`videoPlayRequested
      ensures pending == None && currentMediaType == None
      ensures !imageActive && !videoActive && !videoPlayRequested
    {
      pending := None;
      imageActive := false;
      videoActive := false;
      videoPlayRequested := false;
      currentMediaType := None;
    }

    /**
     * A row's `mouseenter` handler: start hovering, place the overlay at the
     * cursor, and schedule the row's reveal in place of any earlier one.
     */
    method MouseEnter(row: Row, x: int, y: int, now: int, viewportWidth: int, viewportHeight: int)
      requires Valid()
      modifies this`isHovering, this`left, this`top, this`pending
      ensures Valid()
      ensures isHovering
      ensures pending == Some(PendingReveal(row, now + RevealDelay))
      ensures left == Some(OverlayLeft(x, viewportWidth)) && top == Some(OverlayTop(y, viewportHeight))
    {
      isHovering := true;
      UpdateMediaPosition(x, y, viewportWidth, viewportHeight);
      ShowMedia(row, now);
    }

    /**
     * The row's and the document's `mousemove` handlers (they do the same):
     * follow the cursor while hovering.
     */
    method PointerMove(x: int, y: int, viewportWidth: int, viewportHeight: int)
      requires Valid()
      modifies this`left, this`top
      ensures Valid()
      ensures isHovering ==>
        left == Some(OverlayLeft(x, viewportWidth)) && top == Some(OverlayTop(y, viewportHeight))
      ensures !isHovering ==> left == old(left) && top == old(top)
    {
      if isHovering {
        UpdateMediaPosition(x, y, viewportWidth, viewportHeight);
      }
    }

    /**
     * A row's `mouseleave` handler: stop hovering, cancel the pending
     * reveal and hide the media with no delay.
     */
    method MouseLeave()
      requires Valid()
      modifies this`isHovering, this`pending, this`currentMediaType, this`imageActive,
               this`videoActive, this`videoPlayRequested
      ensures Valid()
      ensures !isHovering && pending == None && currentMediaType == None
      ensures !imageActive && !videoActive && !videoPlayRequested
    {
      isHovering := false;
      HideMedia();
    }
  }

  /**
   * Whatever the preview showed before, entering a row and leaving it before
   * the delay elapses never reveals anything, however late the clock runs
   * afterwards.
   */
  method EnterThenLeave(preview: HoverState, row: Row, x: int, y: int,
                        viewportWidth: int, viewportHeight: int,
                        entered: int, early: int, late: int)
    returns (firedEarly: bool, firedLate: bool, shown: bool, mediaType: Option<string>)
    requires preview.Valid()
    requires early < entered + RevealDelay
    modifies preview
    ensures preview.Valid()
    ensures !firedEarly && !firedLate && !shown && mediaType == None
  {
    preview.MouseEnter(row, x, y, entered, viewportWidth, viewportHeight);
    firedEarly := preview.Tick(early);
    preview.MouseLeave();
    firedLate := preview.Tick(late);
    shown := preview.imageActive || preview.videoActive;
    mediaType := preview.currentMediaType;
  }

  /**
   * Entering row `a` and then row `b` supersedes `a`'s reveal: only `b`'s
   * media is ever shown, and only once; a row of another type leaves the
   * elements as they were.
   */
  method LaterRowWins(preview: HoverState, a: Row, b: Row, x: int, y: int,
                      viewportWidth: int, viewportHeight: int,
                      enteredA: int, enteredB: int, fireAt: int, later: int)
    returns (fired: bool, firedAgain: bool, mediaType: Option<string>, shown: Option<string>)
    requires preview.Valid()
    requires fireAt >= enteredB + RevealDelay
    modifies preview
    ensures preview.Valid()
    ensures fired && !firedAgain
    ensures mediaType == b.kind
    ensures b.kind == Some("video") || b.kind == Some("image") ==> shown == Some(b.media)
    ensures b.kind != Some("video") && b.kind != Some("image") ==>
      preview.imageActive == old(preview.imageActive) &&
      preview.videoActive == old(preview.videoActive) &&
      preview.imageSrc == old(preview.imageSrc) && preview.videoSrc == old(preview.videoSrc)
  {
    preview.MouseEnter(a, x, y, enteredA, viewportWidth, viewportHeight);
    preview.MouseEnter(b, x, y, enteredB, viewportWidth, viewportHeight);
    fired := preview.Tick(fireAt);
    firedAgain := preview.Tick(later);
    mediaType := preview.currentMediaType;
    shown := if preview.imageActive then Some(preview.imageSrc)
             else if preview.videoActive then Some(preview.videoSrc)
             else None;
  }
}
