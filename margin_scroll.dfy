/** `scrollWithMarginTop`: scroll the window so that an element's top lands below its
    `scroll-margin-top` (or the older `scroll-snap-margin-top`), for browsers that do not
    honour the property themselves. The browser readings arrive as plain values. */
module MarginScroll {
  import opened Wrappers

  /** What `parseInt` makes of a computed style value: not a number, or an integer. */
  datatype ParsedInt = NaN | Number(n: int)

  /** The element's readings: its bounding rectangle and its two computed margins. */
  datatype ElementBox = ElementBox(
    rectTop: real,
    rectHeight: real,
    scrollMarginTop: ParsedInt,
    scrollSnapMarginTop: ParsedInt)

  /** The window's readings: `pageYOffset` and `innerHeight`. */
  datatype Viewport = Viewport(pageYOffset: real, innerHeight: real)

  /** The effect of one call: nothing, or one smooth `window.scrollTo` to (left, top). */
  datatype Scroll = NoScroll | ScrollTo(top: real, left: real)

  /** JavaScript truthiness of a `parseInt` result: NaN and 0 are falsy. */
  predicate Truthy(p: ParsedInt) {
    p.Number? && p.n != 0
  }

  /** `parseInt(scroll-margin-top) || parseInt(scroll-snap-margin-top) || 0`. */
  function ScrollMarginTop(margin: ParsedInt, snapMargin: ParsedInt): (m: int)
    ensures m != 0 <==> Truthy(margin) || Truthy(snapMargin)
    ensures Truthy(margin) ==> m == margin.n
    ensures !Truthy(margin) && Truthy(snapMargin) ==> m == snapMargin.n
  {
    if Truthy(margin) then margin.n
    else if Truthy(snapMargin) then snapMargin.n
    else 0
  }

  /** The document position to scroll to: the element's top in page coordinates,
      less its margin, plus the caller's offset. */
  function NewPosition(box: ElementBox, view: Viewport, offset: real): real {
    box.rectTop + view.pageYOffset
      - (ScrollMarginTop(box.scrollMarginTop, box.scrollSnapMarginTop) as real) + offset
  }

  /** Scrolling moves the element and the page offset by the same amount, so the target
      position is a page coordinate: it does not depend on where the window is. */
  lemma NewPositionIgnoresScroll(box: ElementBox, view: Viewport, offset: real, d: real)
    ensures NewPosition(box.(rectTop := box.rectTop - d), view.(pageYOffset := view.pageYOffset + d), offset)
         == NewPosition(box, view, offset)
  {
  }

  /** "Already visible in the first half of the screen": the target lies at or below the
      window's top, and the whole element fits above the middle of the window. Only an
      element shorter than half the window can be. */
  predicate AlreadyVisible(box: ElementBox, view: Viewport, offset: real)
    ensures AlreadyVisible(box, view, offset) ==>
      && NewPosition(box, view, offset) - view.pageYOffset >= 0.0
      && NewPosition(box, view, offset) - view.pageYOffset + box.rectHeight < view.innerHeight / 2.0
    ensures AlreadyVisible(box, view, offset) ==> box.rectHeight < view.innerHeight / 2.0
  {
    var p := NewPosition(box, view, offset);
    p >= view.pageYOffset && p + box.rectHeight < view.pageYOffset + view.innerHeight / 2.0
  }

  /** One call of `scrollWithMarginTop(element, offset, onlyWhenNeeded)`. */
  function ScrollWithMarginTop(element: Option<ElementBox>, view: Viewport, offset: real, onlyWhenNeeded: bool): (s: Scroll)
    ensures element.None? ==> s == NoScroll
    ensures element.Some? && onlyWhenNeeded ==>
      (s == NoScroll <==> AlreadyVisible(element.value, view, offset))
    ensures element.Some? && !onlyWhenNeeded ==> s.ScrollTo?
    ensures s.ScrollTo? ==> (
      && element.Some?
      && s.left == 0.0
      && s.top == element.value.rectTop + view.pageYOffset
                  - (ScrollMarginTop(element.value.scrollMarginTop, element.value.scrollSnapMarginTop) as real)
                  + offset)
  {
    match element
    case None => NoScroll
    case Some(box) =>
      if onlyWhenNeeded && AlreadyVisible(box, view, offset) then NoScroll
      else ScrollTo(NewPosition(box, view, offset), 0.0)
  }

  /** The call with its default arguments: `offset` 0 and `onlyWhenNeeded` false. */
  function ScrollWithMarginTopDefaults(element: Option<ElementBox>, view: Viewport): (s: Scroll)
    ensures element.Some? ==> s.ScrollTo?
    ensures element.None? ==> s == NoScroll
  {
    ScrollWithMarginTop(element, view, 0.0, false)
  }
}
