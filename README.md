# Page layout and scroll bookkeeping

A model of the layout state of the `Page` component (`src/Page/Page.js`) of a
React component library. A page has an optional header that collapses
("minimizes") into a short fixed bar once the user scrolls past a threshold,
an optional tail strip under the header, and a content area stretched to fill
the rest of the page. The component keeps a small state record
(`headerContainerHeight`, `headerWrapperHeight`, `tailHeight`, `pageHeight`,
`scrollBarWidth`, `windowHeight`, `minimized`). Four handlers update it: a
height recompute, a scroll handler, a width-resize handler and a window-resize
handler. Each one computes a value and commits it only when it differs (`!==`)
from the stored value. Rendering derives pixel heights and offsets from the
state.

The model has five modules:

- `Wrappers` (`wrappers.dfy`): `Option`. `None` stands for `undefined` or `null`.
- `PageLayout` (`page_layout.dfy`): the pixel constants, the `minimized` value
  with its JavaScript truthiness, the minimization threshold, and the derived
  geometry. This covers the stretch, background, sticky, placeholder and
  header-width values, the background choice and the page dimension style.
- `PageChildren` (`page_children.dfy`): `getChildrenObject`, `_hasTail` and the
  `children` prop validator.
- `PageHandlers` (`page_handlers.dfy`): the state record and each handler as a
  function from the old state and the measured geometry to the new state. It
  also defines runs of handler calls and the lemmas about them.
- `PageComponent` (`page_component.dfy`): the class `Page`. Its fields are
  the state record, and its four handler methods update them in place. Each
  method is proved to produce the state that the matching `PageHandlers`
  function describes, and to report a commit exactly when the state changed.

Choices that follow JavaScript:

- The pixel constants come from a module that is not part of this model. They
  are a `Constants` value of natural numbers, and no proof depends on their
  values.
- `minimized` is computed as `diff && scrollTop >= diff`. It can therefore be
  `null` or `0` as well as a boolean, so it is the datatype
  `Null | Zero | Bool(b)`. `!==` is datatype inequality. Rendering uses
  `Truthy()`.
- `pageHeight` and `windowHeight` are absent from the initial state. This
  makes the first height recompute and the first window resize always commit.
  `scrollBarWidth` becomes `null` when there is no scroll container.
- Before the first measurement the stretch height is `undefined - ...`, which
  is NaN. `StretchHeight` returns `None` for it.
- Children are `Empty` (`null`, `undefined`, booleans: React drops them),
  `Primitive` (strings and numbers) or `Element` with an optional display
  name. Reading `child.type.displayName` on a primitive throws a TypeError.
  The model returns `None` from `ChildrenObject` and `TypeError` from
  `ValidateChild` in that case.

Behaviours of the code worth knowing:

- A scroll before the header is measured replaces `false` with `null` and
  commits, although nothing looks different
  (`ScrollBeforeMeasurementCommitsNull`).
- The content's top margin follows a non-zero stored tail height, not the
  presence of a tail (`ContentMarginTop`).
- Without a scroll container `scrollBarWidth` is `null`, not 0.
- The window-resize handler only stores the window height. The re-measurement
  comes from the re-render that follows a commit, which is lifecycle and is
  left out.

The validator skips falsy children, but `getChildrenObject` throws on a falsy
primitive such as `0` or `""`. Children that pass validation can therefore
still break classification (`FalsyPrimitivePassesValidatorButNotClassifier`).

## Model

| member | source | states |
|---|---|---|
| `PageLayout.MinimizationDiff` | src/Page/Page.js:167-178 | The diff is null exactly when the stored header wrapper height is 0. Otherwise the diff plus the minimized header height (the tail or no-tail constant) equals the header wrapper height. |
| `PageLayout.MinimizedHeaderWrapperHeight` | src/Page/Page.js:167-171 | The minimized header wrapper height is the with-tail constant when the page has a tail and the no-tail constant otherwise. |
| `PageLayout.NextMinimized` | src/Page/Page.js:185-187 | A null diff gives `null` and a zero diff gives `0`. The value is truthy exactly when the diff is known and non-zero and the scroll offset is at or past it (inclusive). It is a boolean exactly when the diff is non-zero. |
| `PageLayout.StretchHeight` | src/Page/Page.js:436-443 | NaN exactly when the page height is undefined. Otherwise the stretch height, header wrapper height, tail height, content margin (only for a non-zero tail height) and bottom padding add up to the page height. The result is not clamped. |
| `PageLayout.ContentMarginTop` | src/Page/Page.js:436 | The margin is the header bottom padding when the stored tail height is non-zero and 0 when it is 0. It takes no tail-presence flag, so a present tail measured at 0 gets no margin. |
| `PageLayout.BackgroundHeight` | src/Page/Page.js:379-381 | The background height plus the tail height equals the header container height, plus the cover distance when there is no tail. |
| `PageLayout.StickyTop` | src/Page/Page.js:449-450 | The sticky top less the tail height is the minimized header wrapper height for the current tail presence. |
| `PageLayout.StickyTopIsMinimizedHeaderBottom` | src/Page/Page.js:167-178 | With a measured header, the minimization diff equals the header wrapper height plus the tail height, less the sticky top. The sticky anchor is where the header bottom sits once minimized. |
| `PageLayout.PlaceholderHeight` | src/Page/Page.js:365-373 | While minimized the header container is `position: fixed` (the structure comment at line 37), so it leaves the flow. The placeholder plus the header container's in-flow height (the container height when not minimized, 0 when minimized) always equals the container height. While minimized the placeholder holds all of it. |
| `PageLayout.HeaderWidthReduction` | src/Page/Page.js:329 | The header container is narrowed by the stored scroll bar width while minimized (truthy) and by 0 otherwise. |
| `PageLayout.ScrollableBackground` | src/Page/Page.js:383-406 | An image background is drawn exactly when the image URL is truthy. A gradient is drawn exactly when the gradient class is truthy and there is no image. Both get the given height. |
| `PageLayout.PageDimensionsStyle` | src/Page/Page.js:239-257 | The style is null exactly when `maxWidth` is falsy and no side padding is given. `maxWidth` is set exactly when it is truthy. Both paddings equal the side padding, including 0. |
| `PageChildren.ChildrenObject` | src/Page/Page.js:582-607 | Fails exactly when a primitive child is present. Otherwise a slot is filled exactly when some child has its display name, and it holds the last such child. Unknown names are ignored. |
| `PageChildren.HasTail` | src/Page/Page.js:361-363 | Fails exactly when sorting the children throws. Otherwise the page has a tail exactly when some child is a `Page.Tail` element. |
| `PageChildren.ValidateChild` | src/Page/Page.js:563-576 | A truthy non-element throws. An element is rejected exactly when its display name is outside the allowed four, which is when the classifier would ignore it. Falsy children pass. |
| `PageChildren.FirstInvalidChild` | src/Page/Page.js:563-576 | No index exactly when every child passes. Otherwise it returns the first index whose child does not pass. |
| `PageChildren.ValidChildrenAreAllSlotted` | src/Page/Page.js:514-519 | When every child passes validation, every element among them fills one of the four slots. |
| `PageChildren.FalsyPrimitivePassesValidatorButNotClassifier` | src/Page/Page.js:565-567 | A header followed by a falsy primitive passes the validator, but classifying the same children fails. |
| `PageHandlers.AfterHeightsRecompute` | src/Page/Page.js:124-161 | After a recompute, the stored tail and page heights are the measured ones (0 for a missing element), whether or not it committed. The header heights are re-read unless the header is minimized (truthy) or absent; then they are kept. `minimized`, `scrollBarWidth` and `windowHeight` are unchanged. |
| `PageHandlers.HeightsRecomputeIdempotent` | src/Page/Page.js:148-160 | A second recompute with unchanged geometry commits nothing. |
| `PageHandlers.FirstHeightsRecomputeCommits` | src/Page/Page.js:79-85 | While `pageHeight` is undefined, a recompute always commits and defines it. |
| `PageHandlers.AfterScroll` | src/Page/Page.js:180-193 | Only `minimized` changes. Afterwards it holds the value computed from the stored header wrapper height and the scroll offset. |
| `PageHandlers.ScrollThreshold` | src/Page/Page.js:173-187 | With header wrapper height 0, the next value is `null` for any offset. With a non-zero diff `d`, it is truthy exactly when the offset is at least `d`. |
| `PageHandlers.ScrollIdempotent` | src/Page/Page.js:189-193 | A second scroll at the same offset and geometry commits nothing. |
| `PageHandlers.ScrollBeforeMeasurementCommitsNull` | src/Page/Page.js:186-192 | From the initial state, a scroll commits (`false` becomes `null`), though the header's truthiness is unchanged. |
| `PageHandlers.ScrollScenarioWithoutTail` | src/Page/Page.js:167-187 | Without a tail, with header wrapper 80 and minimized height 48: not minimized at 31, minimized at 32. |
| `PageHandlers.ScrollScenarioWithTail` | src/Page/Page.js:167-187 | With a tail, with header wrapper 80 and minimized height 64: not minimized at 15, minimized at 16. |
| `PageHandlers.ScrollBarWidth` | src/Page/Page.js:205-208 | Null exactly without a scroll container. Otherwise the width plus the client width equals the offset width. |
| `PageHandlers.AfterWidthResize` | src/Page/Page.js:203-213 | Only `scrollBarWidth` changes, and it becomes the current scroll bar width. |
| `PageHandlers.WidthResizeUnchangedCommitsNothing` | src/Page/Page.js:210-212 | An unchanged scroll bar width leaves the state as it was. |
| `PageHandlers.MinimizedHeaderMatchesScrollBar` | src/Page/Page.js:203-213 | After a width resize, a minimized header is narrowed by exactly the container's offset width less its client width. |
| `PageHandlers.WindowHeight` | src/Page/Page.js:219-222 | The first non-zero of the inner, document and body heights, in that order. When the first two are 0 it is the body height. |
| `PageHandlers.AfterWindowResize` | src/Page/Page.js:215-229 | Only `windowHeight` changes, and it becomes the current window height. |
| `PageHandlers.MinimizedChangesOnlyByScroll` | src/Page/Page.js:124-229 | Any run of recomputes and resizes without a scroll leaves `minimized` as it was. |
| `PageHandlers.HeaderFrozenWhileMinimized` | src/Page/Page.js:133-141 | While minimized, no run of recomputes and resizes changes the stored header wrapper or header container height. |
| `PageHandlers.StaysMinimizedAtSameOffset` | src/Page/Page.js:133-193 | After any run of recomputes and resizes, a minimized page scrolled again at the offset that minimized it stays minimized and commits nothing. |
| `PageHandlers.ResizesCommute` | src/Page/Page.js:203-229 | A width or window resize commutes with any other kind of handler call. |
| `PageComponent.Page.constructor` | src/Page/Page.js:79-85 | The initial state: zero heights, undefined page and window heights, scroll bar width 0, `minimized` false. |
| `PageComponent.Page.CalculateComponentsHeights` | src/Page/Page.js:124-161 | The fields become `AfterHeightsRecompute` of the old state. Only the four height fields may be written. It reports a commit exactly when the state changed. |
| `PageComponent.Page.HandleScroll` | src/Page/Page.js:180-201 | The fields become `AfterScroll` of the old state. Only `minimized` may be written, and a commit happens exactly when it changed by `!==`. The event is forwarded exactly when an `onScrollChanged` callback exists, whether or not anything committed. |
| `PageComponent.Page.HandleWidthResize` | src/Page/Page.js:203-213 | The fields become `AfterWidthResize` of the old state. Only `scrollBarWidth` may be written, and a commit happens exactly when it changed. |
| `PageComponent.Page.HandleWindowResize` | src/Page/Page.js:215-229 | The fields become `AfterWindowResize` of the old state. Only `windowHeight` may be written, and a commit happens exactly when it changed. |

## Left out

- DOM geometry reads (`getBoundingClientRect`, `offsetHeight`, `offsetWidth`, `clientWidth`, `scrollTop`, the window heights) are handler parameters. Fractional pixel values are modelled as whole numbers, and NaN is modelled only where `pageHeight` is undefined.
- Lifecycle is not modelled: `componentDidMount`, `componentDidUpdate`, `componentWillUnmount`, the `ResizeSensor`, the window `resize` listener and the 100 ms re-measurement timer. This includes the cascade in which a commit re-renders and `componentDidUpdate` recomputes the heights. `componentWillUnmount` detaches `this._handleResize`, which the class does not define, while the sensor was attached with `_handleWidthResize`.
- Rendering is not modelled: JSX, class names, CSS modules, `React.cloneElement`, the `onWheel` handler that moves `scrollTop`, the `minWidth + 2 * PAGE_SIDE_PADDING_PX` style, and dropping the dimension style for full-screen content.
- The `scrollableContentRef` callback on mount is a backward-compatibility side effect with no state.
- PageComponent.Page.HandleScroll: the `onScrollChanged` callback is modelled only by whether it is called. The event object it receives is not modelled.
- PageChildren.ChildrenObject: children are modelled as the flat list `React.Children.toArray` walks. Flattening of nested arrays and the re-keying of elements are not modelled.
- PageChildren.ValidateChild: the display names of `Page.Header`, `Page.Content` and `Page.Tail` are defined in files that are not part of this model. They are taken to be the strings that `getChildrenObject` switches on. The prop-types library's own errors for a missing or non-array `children` prop are not modelled.
- The rest of the repository (MarketingPageLayout, test drivers, stories, type declarations) is declarative glue with no logic of its own.
