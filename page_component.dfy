/**
 * The Page component as an object whose state fields its handlers update in
 * place. Each handler reads the geometry it is given, computes the new value
 * and assigns it only when it differs from the stored one; `committed` says
 * whether it did (a `setState` call).
 */
module PageComponent {
  import opened Wrappers
  import opened PageLayout
  import opened PageHandlers

  class Page {
    /** The pixel constants the page is laid out with. */
    const consts: Constants

    var headerContainerHeight: int
    var headerWrapperHeight: int
    var tailHeight: int
    var pageHeight: Option<int>
    var scrollBarWidth: Option<int>
    var windowHeight: Option<int>
    var minimized: Minimized

    /** The fields as one state record. */
    function State(): PageState
      reads this
    {
      PageState(headerContainerHeight, headerWrapperHeight, tailHeight, pageHeight, scrollBarWidth, windowHeight, minimized)
    }

    constructor (c: Constants)
      ensures consts == c && State() == InitialState
    {
      consts := c;
      headerContainerHeight, headerWrapperHeight, tailHeight := 0, 0, 0;
      pageHeight := None;
      scrollBarWidth := Some(0);
      windowHeight := None;
      minimized := Bool(false);
    }

    /** `_calculateComponentsHeights`, given the current geometry. */
    method CalculateComponentsHeights(g: Geometry) returns (committed: bool)
      modifies this`headerContainerHeight, this`headerWrapperHeight, this`tailHeight, this`pageHeight
      ensures State() == AfterHeightsRecompute(old(State()), g)
      ensures committed <==> State() != old(State())
    {
      var readHeader := g.headerWrapper.Some? && !minimized.Truthy();
      var newHeaderWrapperHeight := if readHeader then g.headerWrapper.value else headerWrapperHeight;
      var newHeaderContainerHeight := if readHeader then g.headerContainer else headerContainerHeight;
      var newTailHeight := if g.tail.Some? then g.tail.value else 0;
      var newPageHeight := if g.page.Some? then g.page.value else 0;

      committed := headerContainerHeight != newHeaderContainerHeight
                   || headerWrapperHeight != newHeaderWrapperHeight
                   || tailHeight != newTailHeight
                   || pageHeight != Some(newPageHeight);
      if committed {
        headerContainerHeight := newHeaderContainerHeight;
        headerWrapperHeight := newHeaderWrapperHeight;
        tailHeight := newTailHeight;
        pageHeight := Some(newPageHeight);
      }
    }

    /**
     * `_handleScroll`, given the scroll container's offset, whether the page
     * has a tail and whether an `onScrollChanged` callback was passed;
     * `forwarded` says whether the event went to that callback.
     */
    method HandleScroll(scrollTop: int, hasTail: bool, hasOnScrollChanged: bool) returns (committed: bool, forwarded: bool)
      modifies this`minimized
      ensures State() == AfterScroll(old(State()), consts, hasTail, scrollTop)
      ensures committed <==> old(minimized) != minimized
      ensures forwarded == hasOnScrollChanged
    {
      var diff := if headerWrapperHeight != 0
        then Some(headerWrapperHeight - MinimizedHeaderWrapperHeight(consts, hasTail))
        else None;
      var next := match diff
        case None => Null
        case Some(d) => if d == 0 then Zero else Bool(scrollTop >= d);

      committed := minimized != next;
      if committed {
        minimized := next;
      }
      forwarded := hasOnScrollChanged;
    }

    /** `_handleWidthResize`, given the scroll container's widths, `None` without one. */
    method HandleWidthResize(container: Option<ContainerWidths>) returns (committed: bool)
      modifies this`scrollBarWidth
      ensures State() == AfterWidthResize(old(State()), container)
      ensures committed <==> old(scrollBarWidth) != scrollBarWidth
    {
      var width := match container
        case None => None
        case Some(box) => Some(box.offsetWidth - box.clientWidth);
      committed := scrollBarWidth != width;
      if committed {
        scrollBarWidth := width;
      }
    }

    /** `_handleWindowResize`, given the three window heights. */
    method HandleWindowResize(w: WindowSizes) returns (committed: bool)
      modifies this`windowHeight
      ensures State() == AfterWindowResize(old(State()), w)
      ensures committed <==> old(windowHeight) != windowHeight
    {
      var height := if w.innerHeight != 0 then w.innerHeight
        else if w.documentClientHeight != 0 then w.documentClientHeight
        else w.bodyClientHeight;
      committed := windowHeight != Some(height);
      if committed {
        windowHeight := Some(height);
      }
    }
  }
}
