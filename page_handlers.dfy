/**
 * The Page component's state record and its four handlers, as functions from
 * the old state and the measured geometry to the new state. Each handler
 * recomputes a value and commits it only when it differs, by `!==`, from the
 * stored one; a commit is therefore exactly a change of the state value.
 */
module PageHandlers {
  import opened Wrappers
  import opened PageLayout

  /**
   * `this.state`. `pageHeight` and `windowHeight` are not in the initial state
   * (`None`); `scrollBarWidth` is `None` when it was computed without a scroll
   * container (`null`).
   */
  datatype PageState = PageState(
    headerContainerHeight: int,
    headerWrapperHeight: int,
    tailHeight: int,
    pageHeight: Option<int>,
    scrollBarWidth: Option<int>,
    windowHeight: Option<int>,
    minimized: Minimized)

  /** The state set by the constructor. */
  const InitialState := PageState(0, 0, 0, None, Some(0), None, Bool(false))

  /**
   * The geometry a height recompute reads. `headerWrapper` is `None` when the
   * header wrapper ref is unset (no `Page.Header`); `headerContainer` is then
   * not read. `tail` and `page` are `None` when their refs are unset.
   */
  datatype Geometry = Geometry(headerWrapper: Option<int>, headerContainer: int, tail: Option<int>, page: Option<int>)

  /** The outer and inner width of the scroll container. */
  datatype ContainerWidths = ContainerWidths(offsetWidth: int, clientWidth: int)

  /** `window.innerHeight`, `document.documentElement.clientHeight` and `document.body.clientHeight`. */
  datatype WindowSizes = WindowSizes(innerHeight: int, documentClientHeight: int, bodyClientHeight: int)

  /** Whether a recompute re-reads the header heights: the header is present and not shown minimized. */
  predicate ReadsHeader(s: PageState, g: Geometry) {
    g.headerWrapper.Some? && !s.minimized.Truthy()
  }

  /**
   * `_calculateComponentsHeights`. The stored state always ends up agreeing
   * with the measurement: tail and page heights are the measured ones (0 for
   * a missing element); the header heights are re-read unless the header is
   * minimized or absent, in which case they are kept. Nothing else changes.
   */
  function AfterHeightsRecompute(s: PageState, g: Geometry): (t: PageState)
    ensures t.minimized == s.minimized && t.scrollBarWidth == s.scrollBarWidth && t.windowHeight == s.windowHeight
    ensures t.tailHeight == g.tail.GetOr(0) && t.pageHeight == Some(g.page.GetOr(0))
    ensures ReadsHeader(s, g) ==> t.headerWrapperHeight == g.headerWrapper.value && t.headerContainerHeight == g.headerContainer
    ensures !ReadsHeader(s, g) ==> t.headerWrapperHeight == s.headerWrapperHeight && t.headerContainerHeight == s.headerContainerHeight
  {
    var newHeaderWrapperHeight := if ReadsHeader(s, g) then g.headerWrapper.value else s.headerWrapperHeight;
    var newHeaderContainerHeight := if ReadsHeader(s, g) then g.headerContainer else s.headerContainerHeight;
    var newTailHeight := g.tail.GetOr(0);
    var newPageHeight := g.page.GetOr(0);
    if s.headerContainerHeight != newHeaderContainerHeight
       || s.headerWrapperHeight != newHeaderWrapperHeight
       || s.tailHeight != newTailHeight
       || s.pageHeight != Some(newPageHeight)
    then
      s.(headerContainerHeight := newHeaderContainerHeight,
         headerWrapperHeight := newHeaderWrapperHeight,
         tailHeight := newTailHeight,
         pageHeight := Some(newPageHeight))
    else s
  }

  /**
   * `_handleScroll`: only `minimized` changes, and it becomes the value
   * computed from the stored header wrapper height and the scroll offset.
   */
  function AfterScroll(s: PageState, c: Constants, hasTail: bool, scrollTop: int): (t: PageState)
    ensures t == s.(minimized := t.minimized)
    ensures t.minimized == NextMinimized(MinimizationDiff(s.headerWrapperHeight, hasTail, c), scrollTop)
  {
    var next := NextMinimized(MinimizationDiff(s.headerWrapperHeight, hasTail, c), scrollTop);
    if s.minimized != next then s.(minimized := next) else s
  }

  /** `offsetWidth - clientWidth` of the scroll container, or `null` without one. */
  function ScrollBarWidth(container: Option<ContainerWidths>): (w: Option<int>)
    ensures w.None? <==> container.None?
    ensures w.Some? ==> w.value + container.value.clientWidth == container.value.offsetWidth
  {
    match container
    case None => None
    case Some(box) => Some(box.offsetWidth - box.clientWidth)
  }

  /** `_handleWidthResize`: only `scrollBarWidth` changes, to the current scroll bar width. */
  function AfterWidthResize(s: PageState, container: Option<ContainerWidths>): (t: PageState)
    ensures t == s.(scrollBarWidth := ScrollBarWidth(container))
  {
    var width := ScrollBarWidth(container);
    if s.scrollBarWidth != width then s.(scrollBarWidth := width) else s
  }

  /**
   * The first non-zero of the three window heights, in order of preference,
   * or the body height when all are zero.
   */
  function WindowHeight(w: WindowSizes): (h: int)
    ensures w.innerHeight != 0 ==> h == w.innerHeight
    ensures w.innerHeight == 0 && w.documentClientHeight != 0 ==> h == w.documentClientHeight
    ensures w.innerHeight == 0 && w.documentClientHeight == 0 ==> h == w.bodyClientHeight
    ensures h == 0 <==> w.innerHeight == 0 && w.documentClientHeight == 0 && w.bodyClientHeight == 0
  {
    if w.innerHeight != 0 then w.innerHeight
    else if w.documentClientHeight != 0 then w.documentClientHeight
    else w.bodyClientHeight
  }

  /** `_handleWindowResize`: only `windowHeight` changes, to the current window height. */
  function AfterWindowResize(s: PageState, w: WindowSizes): (t: PageState)
    ensures t == s.(windowHeight := Some(WindowHeight(w)))
  {
    var height := WindowHeight(w);
    if s.windowHeight != Some(height) then s.(windowHeight := Some(height)) else s
  }

  // Properties of single handler calls

  /** A height recompute with unchanged geometry commits nothing the second time. */
  lemma HeightsRecomputeIdempotent(s: PageState, g: Geometry)
    ensures AfterHeightsRecompute(AfterHeightsRecompute(s, g), g) == AfterHeightsRecompute(s, g)
  {
  }

  /** While the page height is still undefined, a height recompute always commits. */
  lemma FirstHeightsRecomputeCommits(s: PageState, g: Geometry)
    requires s.pageHeight.None?
    ensures AfterHeightsRecompute(s, g) != s
    ensures AfterHeightsRecompute(s, g).pageHeight.Some?
  {
  }

  /**
   * The scroll threshold: without a measured header the next value is `null`,
   * never truthy; with a non-zero diff it is truthy exactly from the diff on.
   */
  lemma ScrollThreshold(s: PageState, c: Constants, hasTail: bool, scrollTop: int)
    ensures s.headerWrapperHeight == 0 ==> AfterScroll(s, c, hasTail, scrollTop).minimized == Null
    ensures var d := s.headerWrapperHeight - MinimizedHeaderWrapperHeight(c, hasTail);
      s.headerWrapperHeight != 0 && d != 0 ==>
        (AfterScroll(s, c, hasTail, scrollTop).minimized.Truthy() <==> scrollTop >= d)
  {
  }

  /** A second scroll at the same offset and geometry commits nothing. */
  lemma ScrollIdempotent(s: PageState, c: Constants, hasTail: bool, scrollTop: int)
    ensures var t := AfterScroll(s, c, hasTail, scrollTop);
      AfterScroll(t, c, hasTail, scrollTop) == t
  {
  }

  /**
   * The first scroll before the header is measured stores `null` in place of
   * `false`: a commit, although the header does not look any different.
   */
  lemma ScrollBeforeMeasurementCommitsNull(c: Constants, hasTail: bool, scrollTop: int)
    ensures AfterScroll(InitialState, c, hasTail, scrollTop) != InitialState
    ensures AfterScroll(InitialState, c, hasTail, scrollTop).minimized.Truthy() == InitialState.minimized.Truthy()
  {
  }

  /** No tail, header wrapper 80, minimized height 48: threshold 32, inclusive. */
  lemma ScrollScenarioWithoutTail(s: PageState, c: Constants)
    requires s.headerWrapperHeight == 80 && c.minimizedHeaderWrapperHeightPx == 48
    ensures !AfterScroll(s, c, false, 31).minimized.Truthy()
    ensures AfterScroll(s, c, false, 32).minimized.Truthy()
  {
  }

  /** With a tail, header wrapper 80, minimized height 64: threshold 16, inclusive. */
  lemma ScrollScenarioWithTail(s: PageState, c: Constants)
    requires s.headerWrapperHeight == 80 && c.minimizedHeaderWrapperWithTailHeightPx == 64
    ensures !AfterScroll(s, c, true, 15).minimized.Truthy()
    ensures AfterScroll(s, c, true, 16).minimized.Truthy()
  {
  }

  /** An unchanged scroll bar width commits nothing. */
  lemma WidthResizeUnchangedCommitsNothing(s: PageState, container: Option<ContainerWidths>)
    requires s.scrollBarWidth == ScrollBarWidth(container)
    ensures AfterWidthResize(s, container) == s
  {
  }

  /** After a width resize a minimized header is narrowed by exactly the scroll bar's width. */
  lemma MinimizedHeaderMatchesScrollBar(s: PageState, box: ContainerWidths)
    requires s.minimized.Truthy()
    ensures var t := AfterWidthResize(s, Some(box));
      HeaderWidthReduction(t.minimized, t.scrollBarWidth) == Some(box.offsetWidth - box.clientWidth)
  {
  }

  // Runs of handler calls

  /** One handler call, as the component receives it. */
  datatype Event =
    | Recompute(g: Geometry)
    | Scroll(scrollTop: int, hasTail: bool)
    | WidthResize(container: Option<ContainerWidths>)
    | WindowResize(w: WindowSizes)

  function Step(s: PageState, c: Constants, e: Event): PageState {
    match e
    case Recompute(g) => AfterHeightsRecompute(s, g)
    case Scroll(top, hasTail) => AfterScroll(s, c, hasTail, top)
    case WidthResize(container) => AfterWidthResize(s, container)
    case WindowResize(w) => AfterWindowResize(s, w)
  }

  /** The state after the events, handled in order. */
  function Run(s: PageState, c: Constants, events: seq<Event>): PageState
    decreases |events|
  {
    if events == [] then s else Run(Step(s, c, events[0]), c, events[1..])
  }

  /** No event in the run is a scroll. */
  predicate NoScroll(events: seq<Event>) {
    forall i :: 0 <= i < |events| ==> !events[i].Scroll?
  }

  /** Only a scroll writes `minimized`: any run of other events leaves it as it was. */
  lemma {:induction false} MinimizedChangesOnlyByScroll(s: PageState, c: Constants, events: seq<Event>)
    requires NoScroll(events)
    ensures Run(s, c, events).minimized == s.minimized
    decreases |events|
  {
    if events != [] {
      assert NoScroll(events[1..]) by {
        forall i | 0 <= i < |events[1..]| ensures !events[1..][i].Scroll? {
          assert events[1..][i] == events[i + 1];
        }
      }
      MinimizedChangesOnlyByScroll(Step(s, c, events[0]), c, events[1..]);
    }
  }

  /**
   * While the header is minimized, no run of recomputes and resizes moves the
   * stored header heights.
   */
  lemma {:induction false} HeaderFrozenWhileMinimized(s: PageState, c: Constants, events: seq<Event>)
    requires s.minimized.Truthy()
    requires NoScroll(events)
    ensures Run(s, c, events).headerWrapperHeight == s.headerWrapperHeight
    ensures Run(s, c, events).headerContainerHeight == s.headerContainerHeight
    decreases |events|
  {
    if events != [] {
      assert NoScroll(events[1..]) by {
        forall i | 0 <= i < |events[1..]| ensures !events[1..][i].Scroll? {
          assert events[1..][i] == events[i + 1];
        }
      }
      HeaderFrozenWhileMinimized(Step(s, c, events[0]), c, events[1..]);
    }
  }

  /**
   * Freezing the header while minimized keeps the threshold still: after any
   * run of recomputes and resizes, scrolling again at the offset that
   * minimized the header commits nothing.
   */
  lemma StaysMinimizedAtSameOffset(s: PageState, c: Constants, hasTail: bool, scrollTop: int, events: seq<Event>)
    requires s == AfterScroll(s, c, hasTail, scrollTop) && s.minimized.Truthy()
    requires NoScroll(events)
    ensures var t := Run(s, c, events);
      AfterScroll(t, c, hasTail, scrollTop) == t && t.minimized.Truthy()
  {
    MinimizedChangesOnlyByScroll(s, c, events);
    HeaderFrozenWhileMinimized(s, c, events);
  }

  /** A window or width resize commutes with any other handler call. */
  lemma ResizesCommute(s: PageState, c: Constants, resize: Event, e: Event)
    requires resize.WidthResize? || resize.WindowResize?
    requires resize.WidthResize? ==> !e.WidthResize?
    requires resize.WindowResize? ==> !e.WindowResize?
    ensures Step(Step(s, c, resize), c, e) == Step(Step(s, c, e), c, resize)
  {
  }
}
