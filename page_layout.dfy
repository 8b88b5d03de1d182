/**
 * The derived geometry of the Page component: the pixel constants, the
 * `minimized` value with its JavaScript truthiness, the minimization threshold,
 * and the heights and offsets that rendering computes from the component state.
 * All lengths are whole pixels.
 */
module PageLayout {
  import opened Wrappers

  /**
   * The pixel constants the component imports from its `constants` module.
   * Their values are not part of this model: every definition and proof here
   * holds for all of them.
   */
  datatype Constants = Constants(
    pageBottomPaddingPx: nat,
    backgroundCoverContentPx: nat,
    minimizedHeaderWrapperHeightPx: nat,
    minimizedHeaderWrapperWithTailHeightPx: nat,
    headerBottomPaddingPx: nat)

  /**
   * The JavaScript value stored in `state.minimized`. It is computed as
   * `diff && scrollTop >= diff`, so besides a boolean it can be `null` (no
   * threshold yet) or `0` (a threshold of exactly zero). Two values differ in
   * the sense of `!==` exactly when they differ as Dafny values.
   */
  datatype Minimized = Null | Zero | Bool(b: bool) {
    /** What `if (minimized)` and a class-name toggle see. */
    predicate Truthy() {
      Bool? && b
    }
  }

  /** JavaScript truthiness of an optional number (`undefined` and `0` are falsy). */
  predicate TruthyNumber(x: Option<int>) {
    x.Some? && x.value != 0
  }

  /** JavaScript truthiness of an optional string (`undefined` and `""` are falsy). */
  predicate TruthyString(x: Option<string>) {
    x.Some? && x.value != ""
  }

  /** The height the header wrapper shrinks to once minimized. */
  function MinimizedHeaderWrapperHeight(c: Constants, hasTail: bool): (h: nat)
    ensures hasTail ==> h == c.minimizedHeaderWrapperWithTailHeightPx
    ensures !hasTail ==> h == c.minimizedHeaderWrapperHeightPx
  {
    if hasTail then c.minimizedHeaderWrapperWithTailHeightPx else c.minimizedHeaderWrapperHeightPx
  }

  /**
   * How far the page scrolls before the header minimizes: the expanded header
   * wrapper height less its minimized height; `null` while the stored header
   * wrapper height is 0 (not measured, or no header).
   */
  function MinimizationDiff(headerWrapperHeight: int, hasTail: bool, c: Constants): (d: Option<int>)
    ensures d.None? <==> headerWrapperHeight == 0
    ensures d.Some? ==> d.value + MinimizedHeaderWrapperHeight(c, hasTail) == headerWrapperHeight
  {
    if headerWrapperHeight != 0 then Some(headerWrapperHeight - MinimizedHeaderWrapperHeight(c, hasTail)) else None
  }

  /**
   * The value `diff && scrollTop >= diff`: the header is shown minimized
   * exactly when a non-zero threshold is known and the scroll offset has
   * reached it (inclusively); a missing threshold yields `null`, a zero one `0`.
   */
  function NextMinimized(diff: Option<int>, scrollTop: int): (m: Minimized)
    ensures diff.None? ==> m == Null
    ensures diff == Some(0) ==> m == Zero
    ensures m.Truthy() <==> diff.Some? && diff.value != 0 && scrollTop >= diff.value
    ensures m.Bool? <==> diff.Some? && diff.value != 0
  {
    match diff
    case None => Null
    case Some(d) => if d == 0 then Zero else Bool(scrollTop >= d)
  }

  /**
   * The top margin of the content: the header bottom padding when the stored
   * tail height is non-zero, otherwise none. It depends on the stored height
   * only, not on whether a tail is present (it takes no tail flag), so a
   * present tail measured at 0 gets no margin.
   */
  function ContentMarginTop(tailHeight: int, c: Constants): (m: nat)
    ensures tailHeight == 0 ==> m == 0
    ensures tailHeight != 0 ==> m == c.headerBottomPaddingPx
  {
    if tailHeight != 0 then c.headerBottomPaddingPx else 0
  }

  /**
   * The minimum height given to the content so that it fills the page below
   * the header and tail. `None` is JavaScript's NaN: before the first
   * measurement `pageHeight` is undefined. The result is not clamped.
   */
  function StretchHeight(pageHeight: Option<int>, headerWrapperHeight: int, tailHeight: int, c: Constants): (r: Option<int>)
    ensures r.None? <==> pageHeight.None?
    ensures r.Some? ==>
      r.value + headerWrapperHeight + tailHeight + ContentMarginTop(tailHeight, c) + c.pageBottomPaddingPx == pageHeight.value
  {
    match pageHeight
    case None => None
    case Some(p) => Some(p - headerWrapperHeight - tailHeight - ContentMarginTop(tailHeight, c) - c.pageBottomPaddingPx)
  }

  /**
   * The height of the scrollable header background: the header container
   * without its tail, reaching a further cover distance into the content when
   * there is no tail.
   */
  function BackgroundHeight(headerContainerHeight: int, tailHeight: int, hasTail: bool, c: Constants): (h: int)
    ensures h + tailHeight == headerContainerHeight + (if hasTail then 0 else c.backgroundCoverContentPx)
    ensures hasTail ==> h + tailHeight == headerContainerHeight
  {
    headerContainerHeight - tailHeight + (if hasTail then 0 else c.backgroundCoverContentPx)
  }

  /** The `top` offset handed to sticky content: the minimized header and the tail above it. */
  function StickyTop(hasTail: bool, tailHeight: int, c: Constants): (top: int)
    ensures top - tailHeight == MinimizedHeaderWrapperHeight(c, hasTail)
  {
    MinimizedHeaderWrapperHeight(c, hasTail) + tailHeight
  }

  /**
   * The height of the placeholder above the header container. While minimized
   * the container is taken out of the flow and the placeholder holds exactly
   * its height, so the in-flow height above the content never changes.
   */
  function PlaceholderHeight(minimized: Minimized, headerContainerHeight: int): (h: int)
    ensures h + (if minimized.Truthy() then 0 else headerContainerHeight) == headerContainerHeight
    ensures minimized.Truthy() ==> h == headerContainerHeight
  {
    if minimized.Truthy() then headerContainerHeight else 0
  }

  /**
   * How much narrower than 100% the header container is drawn: the scroll bar
   * width while minimized (so the fixed header does not cover the scroll bar),
   * otherwise 0. `None` is the `null` stored when there was no scroll container.
   */
  function HeaderWidthReduction(minimized: Minimized, scrollBarWidth: Option<int>): (r: Option<int>)
    ensures !minimized.Truthy() ==> r == Some(0)
    ensures minimized.Truthy() ==> r == scrollBarWidth
  {
    if minimized.Truthy() then scrollBarWidth else Some(0)
  }

  /** The header background drawn behind the scrollable content. */
  datatype Background =
    | ImageBackground(url: string, height: int)
    | GradientBackground(className: string, height: int)
    | NoBackground

  /**
   * An image background wins over a gradient, which is drawn only when no
   * image is set; both get the background height.
   */
  function ScrollableBackground(backgroundImageUrl: Option<string>, gradientClassName: Option<string>, height: int): (b: Background)
    ensures b.ImageBackground? <==> TruthyString(backgroundImageUrl)
    ensures b.GradientBackground? <==> TruthyString(gradientClassName) && !TruthyString(backgroundImageUrl)
    ensures b.ImageBackground? ==> b.url == backgroundImageUrl.value && b.height == height
    ensures b.GradientBackground? ==> b.className == gradientClassName.value && b.height == height
  {
    if TruthyString(backgroundImageUrl) then ImageBackground(backgroundImageUrl.value, height)
    else if TruthyString(gradientClassName) then GradientBackground(gradientClassName.value, height)
    else NoBackground
  }

  /** The inline style for the page's horizontal layout: lengths in pixels, `None` when a property is not set. */
  datatype DimensionsStyle = DimensionsStyle(maxWidth: Option<int>, paddingLeft: Option<int>, paddingRight: Option<int>)

  /**
   * The page dimension style: `null` exactly when `maxWidth` is falsy and no
   * side padding is given; a side padding of 0 still sets both paddings.
   */
  function PageDimensionsStyle(maxWidth: Option<int>, sidePadding: Option<int>): (r: Option<DimensionsStyle>)
    ensures r.None? <==> !TruthyNumber(maxWidth) && sidePadding.None?
    ensures r.Some? ==> (r.value.maxWidth.Some? <==> TruthyNumber(maxWidth))
    ensures r.Some? && r.value.maxWidth.Some? ==> r.value.maxWidth == maxWidth
    ensures r.Some? ==> r.value.paddingLeft == sidePadding && r.value.paddingRight == sidePadding
  {
    if !TruthyNumber(maxWidth) && sidePadding.None? then None
    else
      var width := if TruthyNumber(maxWidth) then maxWidth else None;
      Some(DimensionsStyle(width, sidePadding, sidePadding))
  }

  /**
   * The sticky anchor sits where the header bottom ends up once minimized:
   * the expanded header wrapper plus tail, less the scroll distance to the
   * threshold.
   */
  lemma StickyTopIsMinimizedHeaderBottom(headerWrapperHeight: int, tailHeight: int, hasTail: bool, c: Constants)
    requires headerWrapperHeight != 0
    ensures MinimizationDiff(headerWrapperHeight, hasTail, c)
         == Some(headerWrapperHeight + tailHeight - StickyTop(hasTail, tailHeight, c))
  {
  }
}
