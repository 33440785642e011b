# Infinite carousel and scroll reveal grid, modelled in Dafny

This project models the logic inside the two widgets of the `animation_study`
pages:

- **The infinite carousel** (`pages/infinite-carousel.tsx`). Seven coloured
  segments are rendered. At mount, one copy of each is prepended and one is
  appended, and their widths are summed into `totalWidth` (T). The track is then
  centred with `translateX(-Tpx)`. A touch or mouse drag anchors at the pointer x
  and at the offset read back from the transform string. Each move applies
  `anchorOffset - (anchorX - x)`. When that candidate reaches `-2T` or `0`, the
  track snaps to `-T` and the anchor moves to `(x, -T)`. Drag start detaches both
  start listeners, and drag end re-attaches them.
- **The scroll reveal grid** (`pages/scroll-animation.tsx`). The grid has 12 x 4
  entries. Each pass visits every entry in row-major order. It adds the `show`
  class to each present entry whose bounding rectangle meets `[0, innerHeight]`.
  One pass runs at mount, before the scroll listener is added, and then one runs
  per scroll event until unmount.

Files:

- `Wrappers.dfy`: `Option`.
- `TranslateX.dfy`: the two ways the component writes `translateX(<n>px)`, the
  regex-and-`Number` read, and the round-trip lemmas.
- `InfiniteCarousel.dfy`: the drag state machine (`Start`, `Move`, `End`, `Run`)
  and its lemmas. It also holds the class `Carousel`, which has the component's
  closure variables as fields. Its constructor `Mount` is the mount loop. Its
  methods `DragStart`, `DragOver` and `DragEnd` are the handlers, and each is
  proved to perform the matching transition of the state machine.
- `ScrollAnimation.dfy`: the pass as a reference function (`Reveal`) and as a
  cell-by-cell fold in visit order (`Visit`, `RowMajor`), with its lemmas. It also
  holds the class `RevealGrid`: a 12 x 4 `array2<bool>` of show flags, plus the
  scroll-listener flag. Its nested-loop `HandleScroll` is proved to compute
  `Reveal`.

Geometry enters as integer inputs: segment widths, pointer x, each entry's
top/bottom, and `innerHeight`. Listener registration is collapsed into a phase.
`Idle` means both start listeners are attached. `Dragging(source)` means only the
move and end listeners of that input source are attached. For a touch drag these
are `touchmove`/`touchend` on the track. For a mouse drag they are
`document.onmousemove`/`onmouseup`. So a move or end from the other input kind
reaches no handler. The model keeps this distinction; a single idle/dragging
flag would lose it.

## Model

| member | source | states |
|---|---|---|
| `TranslateX.NatToDecimal` | pages/infinite-carousel.tsx:62 | The numeral a template literal writes for a non-negative integer: at least one character, all decimal digits, no leading zero, one digit exactly below 10 |
| `TranslateX.DecimalRoundTrip` | pages/infinite-carousel.tsx:36 | `Number` reads the written numeral of n back as n |
| `TranslateX.DecimalValue` | pages/infinite-carousel.tsx:36 | `Number` of a digit string: the empty string is 0 and a single digit is its own value. `DecimalRoundTrip` fixes the whole value |
| `TranslateX.IntToDecimal` | pages/infinite-carousel.tsx:62 | The numeral `${n}` writes for an integer: non-empty, starts with `-` exactly when n < 0, and is otherwise decimal digits (at least one after the `-`) |
| `TranslateX.Format` | pages/infinite-carousel.tsx:62 | Reading back the string a non-wrapping move writes, `translateX(${n}px)`, at drag start (:36) gives exactly n, for every integer n |
| `TranslateX.FormatNegated` | pages/infinite-carousel.tsx:55 | Reading back `translateX(-${T}px)`, as written on a wrap and at mount (:97), gives exactly -T |
| `TranslateX.ParseNumber` | pages/infinite-carousel.tsx:36 | A captured group that reads as a number is non-empty; it is non-positive when it starts with `-` and non-negative otherwise |
| `TranslateX.Parse` | pages/infinite-carousel.tsx:36 | A transform string reads as a number only if it is the whole `translateX(` ... `px)` form, with something in between |
| `TranslateX.ParseNumberOfDecimal` | pages/infinite-carousel.tsx:36 | `Number` of the numeral `${n}` is n, for every integer n, negative ones included |
| `TranslateX.FormatNegatedIsFormat` | pages/infinite-carousel.tsx:55 | For T > 0, the wrap/mount string is the same string a move to -T writes |
| `InfiniteCarousel.TotalWidthAppend` | pages/infinite-carousel.tsx:89 | Summing widths one segment at a time gives the sum of the whole: the width of a concatenation is the sum of the widths |
| `InfiniteCarousel.TotalWidth` | pages/infinite-carousel.tsx:85-90 | The summed width: 0 for no segments, and at least the width of every segment. `TotalWidthAppend` gives its additivity, which the mount loop uses |
| `InfiniteCarousel.Step` | pages/infinite-carousel.tsx:17-76 | Dispatch of one event to the attached handler: every event keeps an offset in the band, and starts and ends never change the offset |
| `InfiniteCarousel.Run` | pages/infinite-carousel.tsx:17-76 | Events handled in arrival order: the offset changes only if the sequence contains a move |
| `InfiniteCarousel.Mounted` | pages/infinite-carousel.tsx:97-101 | After mount the carousel is idle and its offset is -T, which lies in the band |
| `InfiniteCarousel.Start` | pages/infinite-carousel.tsx:17-41 | Drag start keeps the offset and always leaves a drag in progress. From idle it records the pointer x and the current offset as the anchor and enters a drag of that input source. While dragging it changes nothing |
| `InfiniteCarousel.Move` | pages/infinite-carousel.tsx:43-64 | A move of the dragging source leaves the offset at -T or strictly inside (-2T, 0). A move of any other source, or while idle, changes nothing. The phase never changes |
| `InfiniteCarousel.End` | pages/infinite-carousel.tsx:66-76 | Drag end keeps the offset and the anchor. It returns to idle exactly when the state was idle or dragging with the ending source |
| `InfiniteCarousel.BandWithinTrack` | pages/infinite-carousel.tsx:54-63 | For T >= 0, every offset in the band lies in the closed range [-2T, 0] |
| `InfiniteCarousel.WrapSnapsAndRebases` | pages/infinite-carousel.tsx:54-60 | A move whose candidate is <= -2T or >= 0 sets the offset to exactly -T and the anchor to (x, -T), and changes nothing else |
| `InfiniteCarousel.MoveFollowsPointer` | pages/infinite-carousel.tsx:51-63 | A non-wrapping move sets the offset to anchorOffset - (anchorX - x), strictly inside (-2T, 0), and leaves the anchor unchanged |
| `InfiniteCarousel.MoveForgetsEarlierMoves` | pages/infinite-carousel.tsx:51-63 | After a non-wrapping move to x1, a move to x2 gives the same state as moving to x2 directly. The offset depends only on the anchor and the latest pointer |
| `InfiniteCarousel.WrapThenMoveContinues` | pages/infinite-carousel.tsx:57-59 | After a wrap at x1, the next move to x1 + d with abs(d) < T lands at -T + d. It is measured from the rebased anchor, with no jump |
| `InfiniteCarousel.StartWhileDraggingIgnored` | pages/infinite-carousel.tsx:38-40 | While a drag is in progress, a start of either input kind changes nothing |
| `InfiniteCarousel.OtherSourceIgnored` | pages/infinite-carousel.tsx:21-34 | During a drag from one input source, moves and ends from the other source change nothing |
| `InfiniteCarousel.EndDetachesMoves` | pages/infinite-carousel.tsx:66-76 | Ending a drag returns to idle and keeps the offset. After it, moves of either source have no effect, and a start of either source is accepted again |
| `InfiniteCarousel.RunStaysInBand` | pages/infinite-carousel.tsx:43-76 | From any state in the band, any sequence of starts, moves and ends (with T >= 0) leaves the offset in the band, and so within [-2T, 0] |
| `InfiniteCarousel.RepeatedStartsIgnored` | pages/infinite-carousel.tsx:38-40 | While dragging, any number of further starts leaves the state unchanged |
| `InfiniteCarousel.MountedRunStaysInBand` | pages/infinite-carousel.tsx:78-102 | From mount, every event sequence keeps the offset within [-2T, 0] |
| `InfiniteCarousel.Carousel.Mount` | pages/infinite-carousel.tsx:78-102 | Mount sums the seven widths into T and makes the track copies ++ originals ++ copies (21 segments, the middle third the originals). It writes `translateX(-Tpx)`, so the offset is -T, and it leaves the carousel idle |
| `InfiniteCarousel.Carousel.DragStart` | pages/infinite-carousel.tsx:17-41 | The handler performs `Start`. From idle, `initialTranslateX` is the offset last written, read back from the transform string. Track, T and transform are unchanged |
| `InfiniteCarousel.Carousel.DragOver` | pages/infinite-carousel.tsx:43-64 | The handler performs `Move` and writes `translateX(-Tpx)` on a wrap or `translateX(<candidate>px)` otherwise. The invariant (a parseable transform in the band) is kept |
| `InfiniteCarousel.Carousel.DragEnd` | pages/infinite-carousel.tsx:66-76 | The handler performs `End`. Track, T and transform are unchanged |
| `InfiniteCarousel.MountRendered` | pages/infinite-carousel.tsx:78-102 | Mounting the rendered segments (widths 7, 9, 11, 13, 12, 10, 8 from :147-173) gives T = 70, a 21-segment track with the originals in the middle, the transform `translateX(-70px)` and the idle state at offset -70 |
| `ScrollAnimation.Hidden` | pages/scroll-animation.tsx:46 | As rendered, the 12 x 4 grid has no entry shown |
| `ScrollAnimation.Reveal` | pages/scroll-animation.tsx:18-28 | Shape only: a pass keeps the 12 x 4 shape. The per-cell meaning is `RevealAt`, and `HandleScroll` and `RowMajorPassIsReveal` prove that the loops compute it |
| `ScrollAnimation.RowMajor` | pages/scroll-animation.tsx:18-19 | The loop order has 48 positions, all in the grid. They are strictly increasing in row-major order, so no cell is visited twice, and every cell appears |
| `ScrollAnimation.Update` | pages/scroll-animation.tsx:20-25 | Visiting cell p sets its flag to (old flag or present and meeting the viewport), and every other cell keeps its flag |
| `ScrollAnimation.Visit` | pages/scroll-animation.tsx:18-28 | Shape only: visiting a sequence of cells one after another keeps the 12 x 4 shape. `VisitAt` gives each cell's flag |
| `ScrollAnimation.VisitAt` | pages/scroll-animation.tsx:20-25 | After visiting an order, a cell is shown iff it was shown, or it was visited and it is present and meets the viewport. Each update reads only its own cell |
| `ScrollAnimation.VisitOrderIrrelevant` | pages/scroll-animation.tsx:18-28 | Any two visit orders that cover the same cells give the same flags |
| `ScrollAnimation.RowMajorPassIsReveal` | pages/scroll-animation.tsx:18-28 | The row-major visit computes exactly `Reveal` |
| `ScrollAnimation.RevealAt` | pages/scroll-animation.tsx:21-24 | After a pass, a present cell is shown iff it was shown, or bottom >= 0 and top <= innerHeight (both bounds inclusive). An absent cell keeps its flag |
| `ScrollAnimation.RevealMonotone` | pages/scroll-animation.tsx:24 | A pass never clears a shown flag |
| `ScrollAnimation.RevealsMonotone` | pages/scroll-animation.tsx:33 | Over any sequence of scroll passes, with any geometry, a shown entry stays shown |
| `ScrollAnimation.Passes` | pages/scroll-animation.tsx:33 | Shape only: one pass per scroll event keeps the 12 x 4 shape. `RevealsMonotone` states that shown entries stay shown |
| `ScrollAnimation.RevealKeepsOthers` | pages/scroll-animation.tsx:21-23 | Entries that are absent or outside the viewport keep their previous flag |
| `ScrollAnimation.RevealIdempotent` | pages/scroll-animation.tsx:18-28 | A second pass with unchanged geometry yields the same flags as the first |
| `ScrollAnimation.MountShowsVisible` | pages/scroll-animation.tsx:31-33 | Right after the mount pass, an entry is shown iff it is present and meets the initial viewport |
| `ScrollAnimation.MountViewportExample` | pages/scroll-animation.tsx:31-33 | With innerHeight 600, after the mount pass on the hidden grid, an entry spanning 500..800 is shown and one spanning 700..1000 is not |
| `ScrollAnimation.RevealGrid.Mount` | pages/scroll-animation.tsx:31-33 | Mount runs one pass on the all-hidden grid, so the flags are `Reveal(Hidden(), ...)`. Then it registers the scroll listener |
| `ScrollAnimation.RevealGrid.HandleScroll` | pages/scroll-animation.tsx:14-29 | The nested loop over the 12 x 4 array leaves the flags equal to `Reveal` of the flags before it |
| `ScrollAnimation.RevealGrid.Scroll` | pages/scroll-animation.tsx:33 | A scroll event performs a pass while the listener is registered and changes nothing after unmount |
| `ScrollAnimation.RevealGrid.Unmount` | pages/scroll-animation.tsx:35-37 | The cleanup deregisters the scroll listener |

## Left out

- React plumbing is not modelled: refs, `useRef`, `useEffect` and rendering. Mount is a constructor, and the refs' elements are the grid cells and the segment sequence.
- DOM mutation is modelled as field updates. `cloneNode`, `prepend`/`append`, `style.transform` and `classList.add` become a segment sequence, a string field and a boolean array. A deep clone is modelled as an equal segment value.
- Event objects are not modelled. `window.event`, `preventDefault`, and the touch-vs-mouse choice of `pageX` reduce to an input source and one integer x.
- Browser geometry is not queried. `offsetWidth`, `getBoundingClientRect` and `innerHeight` are integer inputs; each pass takes the geometry at that moment. The rem-to-pixel conversion is not modelled, and `MountRendered` works in rem.
- Coordinates are integers. Fractional `pageX` and floating-point `Number` values are not modelled.
- `TranslateX.Parse`: models `Number` only on an optional `-` followed by decimal digits, inside a transform string that is exactly `translateX(...px)`. Every other string is `None` where the browser would give `NaN` or accept more forms (whitespace, `+`, exponents, text around the match). The component never writes such strings, and the class invariant proves it.
- The carousel never removes its start listeners on unmount, so it has no unmount operation here.
- The CSS is not modelled: the opacity and translateY transition of shown entries, and the carousel styling.
- The horizontal position of grid entries plays no part, because the component tests only the vertical extent.
