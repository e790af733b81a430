# Portfolio page pointer effects, modelled in Dafny

This project models the pointer-driven part of the portfolio page's
`script.js`:

- **Media classification** (module `MediaFiles`): `getFileExtension` (the
  lower-cased text after the last dot), `isVideoFile` (extension mp4, webm or
  ogg) and the twelve generated hero frame paths `hero-anim/1.png` …
  `hero-anim/12.png`.
- **Hero cursor-media selector** (module `HeroSelector`): the document
  `mousemove` handler maps the cursor's x coordinate to one of thirty-six
  equal bands (`mediaFiles.length * 3`), takes the band number modulo 12 with
  JavaScript's truncating `%`, clamps it into `[0, 11]`, and swaps the frame
  (`updateMedia`) only when the index changes. It keeps the last pointer
  sample (`lastX`, `lastY`, `lastTime`) and a speed that is recomputed only
  when time has advanced and neither `lastX` nor `lastY` is the 0 sentinel.
  The speed, clamped to `[0.1, 2]`, gives the crossfade duration
  `max(50, 200 − 75·speed)`. The document `mouseleave` handler resets the
  speed, `lastX` and `lastY` to 0 and keeps `lastTime`. The closure variables
  and the two hero elements form the class `HeroState`.
- **Project hover preview** (module `HoverPreview`): the globals
  `isHovering`, `showMediaTimeout` and `currentMediaType` and the preview
  elements form the class `HoverState`. Entering a row sets `isHovering`,
  centres the overlay on the cursor and schedules a reveal 100 ms later,
  replacing any earlier one. The reveal shows the video or the image
  according to the row's `data-type`. Leaving a row cancels the reveal and
  hides both elements at once. The overlay's centre is kept in
  `[half, W − half]` horizontally (`half = min(0.6·W, 600)/2`) and likewise
  vertically (cap 400). Moves position it only while hovering.

Inputs from the browser become parameters. `Date.now()` becomes `now`,
`window.innerWidth` and `innerHeight` become `viewportWidth` and
`viewportHeight`, and the cursor position becomes `x` and `y`, all integers.
The speed the hero handler computes (distance over elapsed time) is the
real parameter `speed`. The `setTimeout` slot is the field
`pending: Option<PendingReveal>` (row and due time). A separate `Tick(now)`
event runs the reveal once it is due.

The comment at script.js:95 speaks of "9 sections (3 files × 3 cycles)",
but the code computes `mediaFiles.length * 3 = 36` sections. The model
follows the code (`HeroSelector.Sections`).

The hero's frames are all PNG files, so its invariant
(`HeroState.Valid`) says the image is the active element and shows frame
`currentMediaIndex`. `UpdateMedia` itself is modelled with both branches.

## Model

| member | source | states |
|---|---|---|
| `MediaFiles.ToLower` | script.js:46 | the lowered string has the same length and each character is the ASCII-lowered original: A-Z move up by 32 code points to a-z, every other character is kept |
| `MediaFiles.ToLowerIdempotent` | script.js:46 | lowering twice equals lowering once |
| `MediaFiles.ToLowerKeepsNoDot` | script.js:46 | lowering never introduces a dot |
| `MediaFiles.ToLowerSuffix` | script.js:46 | lowering commutes with taking a suffix |
| `MediaFiles.LastDot` | script.js:46 | the index found is a dot (or -1), and no dot follows it before `end` |
| `MediaFiles.LastSegment` | script.js:46 | `split('.').pop()` is no longer than the name; `LastSegmentIsDotFreeSuffix` and `LastSegmentUnique` characterise it fully |
| `MediaFiles.LastSegmentIsDotFreeSuffix` | script.js:46 | `split('.').pop()` yields a dot-free suffix that is the whole name or is preceded by a dot |
| `MediaFiles.LastSegmentUnique` | script.js:46 | any dot-free suffix reaching back to a dot or to the start is the last segment |
| `MediaFiles.LastSegmentOfDotted` | script.js:46 | the last segment of `stem.ext` is `ext` when `ext` has no dot, whatever the stem |
| `MediaFiles.LastSegmentWithoutDot` | script.js:46 | a name with no dot is its own last segment |
| `MediaFiles.LastDotOfLower` | script.js:46 | lowering leaves the position of the last dot unchanged |
| `MediaFiles.LastSegmentOfLower` | script.js:46 | splitting at the last dot commutes with lowering |
| `MediaFiles.GetFileExtension` | script.js:45-47 | the extension is no longer than the name and holds no upper-case letter; `ExtensionIsLoweredLastSegment` characterises it fully |
| `MediaFiles.ExtensionIsLoweredLastSegment` | script.js:45-47 | `getFileExtension` returns the lowered text after the last dot (the whole lowered name if none), and it contains no dot |
| `MediaFiles.ExtensionOfDotted` | script.js:45-47 | the extension of `stem.ext` is `ext` lowered |
| `MediaFiles.IsVideoFile` | script.js:50-53 | the extension is mp4, webm or ogg; `IsVideoFileOfDotted`, `IsVideoFileIgnoresCase` and `PngIsNeverVideo` state what that means for a path |
| `MediaFiles.IsVideoFileOfDotted` | script.js:50-53 | `stem.ext` is a video exactly when `ext`, in any letter case, is mp4, webm or ogg |
| `MediaFiles.IsVideoFileIgnoresCase` | script.js:50-53 | lowering a whole path never changes whether it is a video |
| `MediaFiles.UpperCaseVideoExample` | script.js:50-53 | any path ending in `.MP4` is a video |
| `MediaFiles.PngIsNeverVideo` | script.js:45-53 | any path ending in `.png` (even `x.mp4.png`) has extension png and is not a video |
| `MediaFiles.Decimal` | script.js:37 | the numeral of `i + 1` in the template literal is a non-empty digit string with no dot and, for a positive number, no leading zero |
| `MediaFiles.DecimalRoundTrip` | script.js:37 | reading the numeral back gives the number |
| `MediaFiles.MediaPath` | script.js:37 | the path starts with `hero-anim/`, ends with `.png`, and the numeral between starts with a non-zero digit; `HeroMediaFileNumbered` reads the number back |
| `MediaFiles.HeroMediaFiles` | script.js:37 | `mediaFiles` has twelve entries |
| `MediaFiles.HeroMediaFileNumbered` | script.js:37 | entry `i` is `hero-anim/` + the numeral of `i + 1` (no leading zero) + `.png`, so the frames are 1..12 in order |
| `MediaFiles.HeroMediaFilesDistinct` | script.js:37 | the twelve paths are pairwise different |
| `MediaFiles.HeroMediaNotVideo` | script.js:37 | every hero frame has extension png and is not a video |
| `HeroSelector.JsRemainder` | script.js:97 | JavaScript `% 12` is in `[0, 11]` for non-negative dividends, in `(-12, 0]` for negative ones, and differs from the dividend by a multiple of 12 |
| `HeroSelector.RawIndex` | script.js:94-97 | the unclamped index is in `[0, 11]` for x ≥ 0 and in `(-12, 0]` for x < 0; `DivisionByBracket` and `IndexOfSection` tie it to the cursor's band |
| `HeroSelector.SelectIndex` | script.js:93-98 | the clamped index is in `[0, 11]`; it is 0 for a negative x and the unclamped index for x ≥ 0 |
| `HeroSelector.DivisionByBracket` | script.js:97 | the floor of `36x / W` is the band number `s` with `s·W ≤ 36x < (s+1)·W` |
| `HeroSelector.SectionInViewport` | script.js:93-97 | for `0 ≤ x < W` the band number is in `[0, 35]` |
| `HeroSelector.ClampIsIdentityInViewport` | script.js:98 | for `0 ≤ x < W` the unclamped index is already in `[0, 11]`, so the clamp changes nothing |
| `HeroSelector.IndexOfSection` | script.js:93-98 | a cursor in band `s` selects frame `s mod 12` |
| `HeroSelector.NormalizedSpeed` | script.js:109 | the clamped speed lies in `[0.1, 2]` and equals the speed inside that range; it saturates at 0.1 below the range and at 2 above it |
| `HeroSelector.TransitionDuration` | script.js:109-111 | the duration lies in `[50, 192.5]`; it is `200 − 75·v` inside the speed range, 192.5 below it and 50 above it |
| `HeroSelector.DurationNonIncreasing` | script.js:109-111 | a faster pointer never gets a longer crossfade |
| `HeroSelector.Moved` | script.js:85-117 | a move records x, y and time as the new sample; when time advanced and both last coordinates are non-zero the speed becomes the measured one, and otherwise it never changes; `MoveRecordsSample` and `SecondMoveAfterLeave` use it |
| `HeroSelector.Left` | script.js:121-125 | leaving sets the speed, lastX and lastY to 0 and keeps lastTime, and no move right after it measures a speed; `FirstMoveAfterLeave` draws the consequence |
| `HeroSelector.MoveRecordsSample` | script.js:85-117 | from any earlier sample, a measuring move leaves exactly the new sample and the measured speed, and a non-measuring move leaves the new sample with the earlier speed |
| `HeroSelector.FirstMoveAfterLeave` | script.js:121-125 | after `mouseleave` the next move keeps speed 0 and gets the 192.5 ms crossfade |
| `HeroSelector.SecondMoveAfterLeave` | script.js:85-90 | the move after that measures speed again once the first was off the edges and time advanced |
| `HeroSelector.EdgeSampleLooksUnset` | script.js:85 | a real sample at x = 0 reads as the sentinel, so the next move keeps the old speed |
| `HeroSelector.HeroState.constructor` | script.js:37-75 | start with the 0 sentinel, speed 0, the clock read once, index 0, and frame 1 shown in the image |
| `HeroSelector.HeroState.UpdateMedia` | script.js:56-72 | exactly one element becomes active: the video with src = path (play requested, image src kept) for a video path, otherwise the image with src = path and the video paused |
| `HeroSelector.HeroState.ShowFrame` | script.js:101-104 | the index becomes k and the image shows frame k, the video keeps its source and is paused, and the hero invariant holds |
| `HeroSelector.HeroState.MouseMove` | script.js:78-118 | the sample follows `Moved`; frame and index change exactly when the selected index differs, otherwise the index and both elements are unchanged; the returned duration is that of the new speed and is written to the active element only |
| `HeroSelector.HeroState.MouseLeave` | script.js:121-125 | speed, lastX and lastY become 0 and lastTime is kept |
| `HeroSelector.LeaveThenMove` | script.js:78-125 | after any history, a leave makes the next move get 192.5 ms and the following one the duration of its own speed, which it records with its sample |
| `HoverPreview.OverlayHalfWidth` | script.js:150-154 | half the overlay width is at most 300 and at most `0.3·W`, is exactly `0.3·W` up to `W = 1000` and 300 from there on |
| `HoverPreview.OverlayHalfHeight` | script.js:151-155 | half the overlay height is at most 200 and at most `0.3·H`, is exactly `0.3·H` up to `H = 666` and 200 from `H = 667` on |
| `HoverPreview.Constrain` | script.js:158-159 | the centre lies in `[half, extent − half]`; it equals the cursor inside that band and the nearer bound outside it |
| `HoverPreview.ConstrainIdempotent` | script.js:158-159 | constraining a constrained centre changes nothing |
| `HoverPreview.OverlayLeft` | script.js:158 | the horizontal centre lies in `[halfWidth, W − halfWidth]` equals x when x is inside that band, and the nearer edge of the band when x is outside it |
| `HoverPreview.OverlayTop` | script.js:159 | the vertical centre lies in `[halfHeight, H − halfHeight]` equals y when y is inside that band, and the nearer edge of the band when y is outside it |
| `HoverPreview.OverlayInsideViewport` | script.js:149-159 | the overlay's edges never cross the viewport's |
| `HoverPreview.HoverState.constructor` | script.js:134-136 | not hovering, no pending reveal, no current type, nothing shown |
| `HoverPreview.HoverState.UpdateMediaPosition` | script.js:139-164 | while hovering the overlay moves to the constrained cursor position; otherwise nothing changes |
| `HoverPreview.HoverState.ShowMedia` | script.js:167-194 | the slot holds exactly one reveal, for this row, due 100 ms later, replacing any earlier one |
| `HoverPreview.HoverState.RevealRow` | script.js:173-193 | the current type becomes the row's; 'video' activates only the video with the row's path, 'image' only the image; any other type changes no element |
| `HoverPreview.HoverState.Tick` | script.js:173-193 | a due reveal runs once and empties the slot, showing the video (played, image source kept) or the image (video paused, video source kept) by the row's type and changing no element for another type; before it is due nothing changes |
| `HoverPreview.HoverState.HideMedia` | script.js:197-207 | the slot is emptied, both elements are inactive, the video paused and the type null |
| `HoverPreview.HoverState.MouseEnter` | script.js:210-214 | hovering starts, the overlay is placed at the constrained cursor and exactly one reveal, for this row, is pending |
| `HoverPreview.HoverState.PointerMove` | script.js:216-233 | the row and document moves reposition the overlay only while hovering |
| `HoverPreview.HoverState.MouseLeave` | script.js:222-225 | hovering stops, the slot is emptied, both elements are hidden at once and the type is null |
| `HoverPreview.EnterThenLeave` | script.js:167-225 | from any consistent state, entering and leaving before the delay never reveals anything, however late the clock runs |
| `HoverPreview.LaterRowWins` | script.js:167-214 | from any consistent state, entering row a then row b reveals only b's media, exactly once; a row of another type leaves both elements as they were |

## Left out

- The scroll fade-in (IntersectionObserver) and the forced-visible hero
  section (script.js:1-29): style writes wired to a platform primitive, no
  logic.
- DOM lookups, the existence guards around them and listener registration:
  the handlers are methods called with the event's inputs.
- `play()` and `pause()`: recorded only as the flag `videoPlayRequested`.
  A rejected `play()` promise is swallowed by the source and not modelled.
- The Euclidean distance and its division by elapsed time
  (script.js:86-89): floating-point numerics. The result is the input
  `speed`.
- `Date.now()`, `window.innerWidth`/`innerHeight` and `setTimeout`/
  `clearTimeout`: integer inputs, the `pending` slot and the `Tick` event.
- CSS string formatting of the transition and the overlay position
  (script.js:113, script.js:161-163): the numbers are kept, the strings are
  not.
- Floating point: index, duration and overlay position are computed exactly
  (integers and reals). `Math.floor(x / W * 36)` is the integer quotient of
  `36x` by `W`, which can differ from the rounded float result exactly at a
  band boundary. Cursor coordinates are integers.
- `toLowerCase` lowers only the ASCII letters A-Z. No other character
  lowers to a letter of mp4, webm, ogg or png, so classification is
  unaffected.
- HeroSelector.SelectIndex: requires a positive viewport width. With width 0
  the source computes NaN, indexes `mediaFiles` out of range and throws in
  `getFileExtension`; that path is not modelled.
- HeroSelector.RawIndex: requires a positive viewport width. With width 0
  the source divides by zero and the index is NaN; that path is not modelled.
- HeroSelector.HeroState.MouseMove: requires a positive viewport width, for the same reason.
- A row without `data-media` (the source would assign `null` to `src`): a
  row's media path is a string.
- The reveal reads the row's `data-media` and `data-type` when the timer
  fires (script.js:174-175); the model captures the row when the reveal is
  scheduled (`PendingReveal(row, due)`). The two agree as long as the page
  does not change those attributes in the meantime, and the page never does.
- After a reveal runs, the source leaves the stale timer handle in
  `showMediaTimeout`, and clearing it later does nothing. The model empties
  the slot instead, which behaves the same.
- The preview and hero elements' initial classes and sources come from the
  page markup, which is not part of this model: they start inactive with
  an empty source.
