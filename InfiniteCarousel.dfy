/** The infinite carousel: a strip of seven coloured segments, tripled at mount
    (copies ++ originals ++ copies) and dragged horizontally by touch or mouse.
    While dragging, the offset follows the pointer relative to an anchor; when it
    reaches either outer edge of the tripled strip it snaps back to the centre and
    the anchor is moved to the snap point.

    The pure functions Start, Move and End are the drag state machine; the class
    Carousel is the component's closure state updated in place by its handlers,
    and each handler is proved to perform the corresponding transition. */
module InfiniteCarousel {
  import opened Wrappers
  import TranslateX

  datatype Color = Red | Orange | Yellow | Green | Blue | Indigo | Purple

  /** One carousel image: its rendered width in pixels and its colour. */
  datatype Segment = Segment(width: nat, color: Color)

  /** Touch and mouse input reach the same handlers, each with one pageX. */
  datatype Source = Touch | Mouse

  /** Idle: the touchstart and mousedown listeners are attached.
      Dragging(s): they are detached, and only the move/end listeners of input
      source s are attached (touchmove/touchend on the track for a touch drag,
      document.onmousemove/onmouseup for a mouse drag). */
  datatype Phase = Idle | Dragging(source: Source)

  /** The number of segments the component renders. */
  const SegmentCount: nat := 7

  /** The segment set as rendered, widths in rem. */
  const RenderedSegments: seq<Segment> := [
    Segment(7, Red), Segment(9, Orange), Segment(11, Yellow), Segment(13, Green),
    Segment(12, Blue), Segment(10, Indigo), Segment(8, Purple)
  ]

  /** The summed width of a sequence of segments. */
  function TotalWidth(segments: seq<Segment>): (r: nat)
    ensures segments == [] ==> r == 0
    ensures forall k :: 0 <= k < |segments| ==> segments[k].width <= r
  {
    if segments == [] then 0 else segments[0].width + TotalWidth(segments[1..])
  }

  lemma {:induction false} TotalWidthAppend(a: seq<Segment>, b: seq<Segment>)
    ensures TotalWidth(a + b) == TotalWidth(a) + TotalWidth(b)
  {
    if a != [] {
      calc {
        TotalWidth(a + b);
        (a + b)[0].width + TotalWidth((a + b)[1..]);
        { assert (a + b)[0] == a[0] && (a + b)[1..] == a[1..] + b; }
        a[0].width + TotalWidth(a[1..] + b);
        { TotalWidthAppend(a[1..], b); }
        a[0].width + TotalWidth(a[1..]) + TotalWidth(b);
      }
    } else {
      assert a + b == b;
    }
  }

  /** The offsets a move can leave the track at: exactly the centre -T, or strictly
      between the two outer edges -2T and 0. */
  predicate InBand(offset: int, totalWidth: int) {
    offset == -totalWidth || (-2 * totalWidth < offset < 0)
  }

  /** A candidate offset that has reached an outer edge of the tripled track. */
  predicate Wraps(candidate: int, totalWidth: int) {
    candidate <= 2 * -totalWidth || candidate >= 0
  }

  /** The drag state: the phase, the anchor (pointer x and offset the current drag
      is measured from) and the applied offset. */
  datatype DragState = DragState(phase: Phase, anchorX: int, anchorOffset: int, offset: int)

  /** The state right after mount: idle and centred. The anchor is not yet set by
      the component; it is 0 here and is overwritten by the first drag start. */
  function Mounted(totalWidth: int): (s: DragState)
    ensures s.phase == Idle && s.offset == -totalWidth && InBand(s.offset, totalWidth)
  {
    DragState(Idle, 0, 0, -totalWidth)
  }

  /** The offset a move to pointer x asks for, before the edge check. */
  function Candidate(s: DragState, x: int): int {
    s.anchorOffset - (s.anchorX - x)
  }

  /** handleDragStart: from Idle, anchors the drag at pointer x and the current
      offset; while a drag is in progress there is no start listener, so nothing
      happens. */
  function Start(s: DragState, source: Source, x: int): (r: DragState)
    ensures r.offset == s.offset && r.phase.Dragging?
    ensures s.phase.Idle? ==> r.phase == Dragging(source) && r.anchorX == x && r.anchorOffset == s.offset
    ensures s.phase.Dragging? ==> r == s
  {
    if s.phase.Idle? then s.(phase := Dragging(source), anchorX := x, anchorOffset := s.offset) else s
  }

  /** handleDragOver: only reached while a drag of the same input source is in
      progress. */
  function Move(s: DragState, source: Source, x: int, totalWidth: int): (r: DragState)
    ensures r.phase == s.phase
    ensures s.phase == Dragging(source) ==> InBand(r.offset, totalWidth)
    ensures s.phase != Dragging(source) ==> r == s
  {
    if s.phase != Dragging(source) then s
    else if Wraps(Candidate(s, x), totalWidth) then
      s.(anchorX := x, anchorOffset := -totalWidth, offset := -totalWidth)
    else
      s.(offset := Candidate(s, x))
  }

  /** handleDragEnd: only reached while a drag of the same input source is in
      progress; it detaches the move/end listeners and re-attaches both start
      listeners. */
  function End(s: DragState, source: Source): (r: DragState)
    ensures r.offset == s.offset && r.anchorX == s.anchorX && r.anchorOffset == s.anchorOffset
    ensures r.phase.Idle? <==> (s.phase.Idle? || s.phase == Dragging(source))
  {
    if s.phase == Dragging(source) then s.(phase := Idle) else s
  }

  datatype Event = DragStart(source: Source, x: int) | DragMove(source: Source, x: int) | DragEnd(source: Source)

  /** Dispatch of one event to the handler whose listener is attached. Every event
      keeps the offset in the band. */
  function Step(s: DragState, e: Event, totalWidth: int): (r: DragState)
    ensures InBand(s.offset, totalWidth) ==> InBand(r.offset, totalWidth)
    ensures !e.DragMove? ==> r.offset == s.offset
  {
    match e
    case DragStart(source, x) => Start(s, source, x)
    case DragMove(source, x) => Move(s, source, x, totalWidth)
    case DragEnd(source) => End(s, source)
  }

  /** The state after a sequence of input events, handled in arrival order. Only a
      move can change the offset. */
  function Run(s: DragState, events: seq<Event>, totalWidth: int): (r: DragState)
    ensures r.offset != s.offset ==> exists k :: 0 <= k < |events| && events[k].DragMove?
    decreases |events|
  {
    if events == [] then s else Run(Step(s, events[0], totalWidth), events[1..], totalWidth)
  }

  // ---------------------------------------------------------------------------
  // Properties of the state machine

  /** The band lies inside the closed range spanned by the tripled track. */
  lemma BandWithinTrack(offset: int, totalWidth: int)
    requires totalWidth >= 0 && InBand(offset, totalWidth)
    ensures -2 * totalWidth <= offset <= 0
  {
  }

  /** A move that reaches an edge sets the offset to exactly -T and re-anchors the
      drag at the current pointer and -T. */
  lemma WrapSnapsAndRebases(s: DragState, source: Source, x: int, totalWidth: int)
    requires s.phase == Dragging(source) && Wraps(Candidate(s, x), totalWidth)
    ensures Move(s, source, x, totalWidth) == s.(anchorX := x, anchorOffset := -totalWidth, offset := -totalWidth)
  {
  }

  /** A move that stays inside follows the pointer from the anchor and leaves the
      anchor where it was. */
  lemma MoveFollowsPointer(s: DragState, source: Source, x: int, totalWidth: int)
    requires s.phase == Dragging(source) && !Wraps(Candidate(s, x), totalWidth)
    ensures Move(s, source, x, totalWidth) == s.(offset := s.anchorOffset - (s.anchorX - x))
    ensures -2 * totalWidth < Move(s, source, x, totalWidth).offset < 0
  {
  }

  /** The offset depends only on the anchor and the latest pointer: an earlier move
      that did not wrap leaves no trace on the next one. */
  lemma MoveForgetsEarlierMoves(s: DragState, source: Source, x1: int, x2: int, totalWidth: int)
    requires !Wraps(Candidate(s, x1), totalWidth)
    ensures Move(Move(s, source, x1, totalWidth), source, x2, totalWidth) == Move(s, source, x2, totalWidth)
  {
  }

  /** After a wrap at x1 the next move is measured from the rebased anchor: a
      further pointer change d smaller than T in size lands at -T + d, so the drag
      continues without a jump. */
  lemma WrapThenMoveContinues(s: DragState, source: Source, x1: int, d: int, totalWidth: int)
    requires s.phase == Dragging(source) && Wraps(Candidate(s, x1), totalWidth)
    requires -totalWidth < d < totalWidth
    ensures Move(Move(s, source, x1, totalWidth), source, x1 + d, totalWidth).offset == -totalWidth + d
  {
  }

  /** Exclusivity: while a drag is in progress, a start of either kind changes
      nothing. */
  lemma StartWhileDraggingIgnored(s: DragState, other: Source, x: int)
    requires s.phase.Dragging?
    ensures Start(s, other, x) == s
  {
  }

  /** A move or end of the other input source than the drag's changes nothing. */
  lemma OtherSourceIgnored(s: DragState, source: Source, other: Source, x: int, totalWidth: int)
    requires s.phase == Dragging(source) && other != source
    ensures Move(s, other, x, totalWidth) == s
    ensures End(s, other) == s
  {
  }

  /** After a drag ends, moves have no effect, the offset is kept, and a drag start
      of either kind is accepted again. */
  lemma EndDetachesMoves(s: DragState, source: Source, any: Source, x: int, totalWidth: int)
    requires s.phase == Dragging(source)
    ensures End(s, source).phase == Idle && End(s, source).offset == s.offset
    ensures Move(End(s, source), any, x, totalWidth) == End(s, source)
    ensures Start(End(s, source), any, x).phase == Dragging(any)
  {
  }

  /** Whatever events arrive, in whatever order, the applied offset stays in the
      band, hence within [-2T, 0]. Applied to every prefix of a sequence this is
      the bound at every step. */
  lemma {:induction false} RunStaysInBand(s: DragState, events: seq<Event>, totalWidth: int)
    requires totalWidth >= 0 && InBand(s.offset, totalWidth)
    ensures InBand(Run(s, events, totalWidth).offset, totalWidth)
    ensures -2 * totalWidth <= Run(s, events, totalWidth).offset <= 0
    decreases |events|
  {
    if events != [] {
      var next := Step(s, events[0], totalWidth);
      assert InBand(next.offset, totalWidth);
      RunStaysInBand(next, events[1..], totalWidth);
    }
  }

  /** Exclusivity over a whole sequence: however many starts arrive while a drag is
      in progress, the drag keeps its source and anchor. */
  lemma {:induction false} RepeatedStartsIgnored(s: DragState, events: seq<Event>, totalWidth: int)
    requires s.phase.Dragging?
    requires forall k :: 0 <= k < |events| ==> events[k].DragStart?
    ensures Run(s, events, totalWidth) == s
    decreases |events|
  {
    if events != [] {
      RepeatedStartsIgnored(s, events[1..], totalWidth);
    }
  }

  /** From mount, any sequence of events keeps the offset within the track. */
  lemma MountedRunStaysInBand(events: seq<Event>, totalWidth: int)
    requires totalWidth >= 0
    ensures -2 * totalWidth <= Run(Mounted(totalWidth), events, totalWidth).offset <= 0
  {
    RunStaysInBand(Mounted(totalWidth), events, totalWidth);
  }

  // ---------------------------------------------------------------------------
  // The component's mutable state

  class Carousel {
    /** The track's children after mount. */
    var track: seq<Segment>
    /** carouselImgTotalWidth */
    var totalWidth: int
    /** initialMouseX */
    var initialMouseX: int
    /** initialTranslateX */
    var initialTranslateX: int
    /** The track's inline style.transform */
    var transform: string
    /** Which listeners are attached */
    var phase: Phase
    /** The offset last written into transform */
    ghost var offset: int

    ghost predicate Valid()
      reads this
    {
      && |track| == 3 * SegmentCount
      && track[..SegmentCount] == track[SegmentCount..2 * SegmentCount] == track[2 * SegmentCount..]
      && totalWidth == TotalWidth(track[SegmentCount..2 * SegmentCount])
      && TranslateX.Parse(transform) == Some(offset)
      && InBand(offset, totalWidth)
    }

    ghost function State(): DragState
      reads this
    {
      DragState(phase, initialMouseX, initialTranslateX, offset)
    }

    /** Render and mount: the seven segments are rendered, then one copy of each is
        prepended and one appended, their widths are summed, and the track is
        centred at minus the sum. */
    constructor Mount(segments: seq<Segment>)
      requires |segments| == SegmentCount
      ensures Valid()
      ensures track == segments + segments + segments
      ensures track[SegmentCount..2 * SegmentCount] == segments
      ensures totalWidth == TotalWidth(segments)
      ensures transform == TranslateX.FormatNegated(totalWidth)
      ensures State() == Mounted(totalWidth)
    {
      var rendered := segments;
      var prepended: seq<Segment> := [];
      var appended: seq<Segment> := [];
      var sum: nat := 0;
      var i := 0;
      while i < |rendered|
        invariant 0 <= i <= |rendered|
        invariant prepended == appended == rendered[..i]
        invariant sum == TotalWidth(rendered[..i])
      {
        assert rendered[..i + 1] == rendered[..i] + [rendered[i]];
        TotalWidthAppend(rendered[..i], [rendered[i]]);
        prepended := prepended + [rendered[i]];
        appended := appended + [rendered[i]];
        sum := sum + rendered[i].width;
        i := i + 1;
      }
      assert rendered[..i] == segments;
      track := prepended + rendered + appended;
      totalWidth := sum;
      transform := TranslateX.FormatNegated(sum);
      offset := -(sum as int);
      initialMouseX, initialTranslateX := 0, 0;
      phase := Idle;
      new;
      assert track[SegmentCount..2 * SegmentCount] == segments;
    }

    /** handleDragStart with pointer x. */
    method DragStart(source: Source, x: int)
      requires Valid()
      modifies this
      ensures Valid()
      ensures track == old(track) && totalWidth == old(totalWidth) && transform == old(transform)
      ensures old(phase).Idle? ==> initialTranslateX == old(offset)
      ensures State() == Start(old(State()), source, x)
    {
      if phase.Idle? {
        initialMouseX := x;
        var parsed := TranslateX.Parse(transform);
        initialTranslateX := parsed.value;
        phase := Dragging(source);
      }
    }

    /** handleDragOver with pointer x. */
    method DragOver(source: Source, x: int)
      requires Valid()
      modifies this
      ensures Valid()
      ensures track == old(track) && totalWidth == old(totalWidth) && phase == old(phase)
      ensures transform ==
        if phase != Dragging(source) then old(transform)
        else if Wraps(Candidate(old(State()), x), totalWidth) then TranslateX.FormatNegated(totalWidth)
        else TranslateX.Format(Candidate(old(State()), x))
      ensures State() == Move(old(State()), source, x, totalWidth)
    {
      ghost var before := State();
      if phase == Dragging(source) {
        var newTranslateX := initialTranslateX - (initialMouseX - x);
        assert newTranslateX == Candidate(before, x);
        if Wraps(newTranslateX, totalWidth) {
          WrapSnapsAndRebases(before, source, x, totalWidth);
          transform := TranslateX.FormatNegated(totalWidth);
          offset := -totalWidth;
          initialMouseX := x;
          initialTranslateX := -totalWidth;
          assert TranslateX.Parse(transform) == Some(offset);
        } else {
          MoveFollowsPointer(before, source, x, totalWidth);
          transform := TranslateX.Format(newTranslateX);
          offset := newTranslateX;
          assert TranslateX.Parse(transform) == Some(offset);
        }
      }
      assert State() == Move(before, source, x, totalWidth);
    }

    /** handleDragEnd. */
    method DragEnd(source: Source)
      requires Valid()
      modifies this
      ensures Valid()
      ensures track == old(track) && totalWidth == old(totalWidth) && transform == old(transform)
      ensures State() == End(old(State()), source)
    {
      if phase == Dragging(source) {
        phase := Idle;
      }
    }
  }

  /** Mounting the carousel as rendered: seven segments summing to 70, a track of
      21 segments, and the track centred by the string `translateX(-70px)`. */
  method MountRendered() returns (c: Carousel)
    ensures c.Valid() && c.State() == Mounted(70)
    ensures |c.track| == 21 && c.track[SegmentCount..2 * SegmentCount] == RenderedSegments
    ensures c.totalWidth == 70 && c.transform == "translateX(-70px)"
  {
    assert TotalWidth(RenderedSegments) == 70;
    assert TranslateX.FormatNegated(70) == "translateX(-70px)" by {
      assert TranslateX.NatToDecimal(70) == "70";
    }
    c := new Carousel.Mount(RenderedSegments);
  }
}
