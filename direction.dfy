/** `ScrollDirection`: keeps the body classes `scrolling-down` / `scrolling-up` in step with
    the direction of the last scroll move that exceeded a threshold, and dispatches
    `scrollDirectionChange` on the window when a class flips. */
module Direction {
  import opened Browser

  const ScrollingDown := "scrolling-down"
  const ScrollingUp := "scrolling-up"
  const DirectionChange := "scrollDirectionChange"

  /** `window.pageYOffset || document.documentElement.scrollTop`: a page offset of 0 is
      falsy and falls back to the root element's scroll position. */
  function ScrollPosition(pageYOffset: int, documentScrollTop: int): (p: int)
    ensures p == pageYOffset || p == documentScrollTop
    ensures p != 0 <==> pageYOffset != 0 || documentScrollTop != 0
    ensures pageYOffset != 0 ==> p == pageYOffset
  {
    if pageYOffset != 0 then pageYOffset else documentScrollTop
  }

  /** Near the top of the page (within twice the configured threshold) a fixed
      threshold of 10 pixels applies instead. */
  function LocalThreshold(threshold: int, scrollTop: int): (t: int)
    ensures t == threshold || t == 10
    ensures threshold >= 0 ==> t >= 0
    // with the default threshold 0, only moves at or above the top need 10 pixels
    ensures threshold == 0 ==> (t == 0 <==> scrollTop > 0)
  {
    if scrollTop > threshold * 2 then threshold else 10
  }

  function Abs(x: int): nat {
    if x < 0 then -x else x
  }

  /** The move passes the early return and goes down by more than the threshold
      while the body is not yet marked as scrolling down. */
  predicate TurnsDown(classes: set<string>, lastScrollTop: int, threshold: int, scrollTop: int) {
    var t := LocalThreshold(threshold, scrollTop);
    && Abs(scrollTop - lastScrollTop) >= t
    && scrollTop > lastScrollTop + t
    && ScrollingDown !in classes
  }

  /** The move passes the early return, is not a downward turn, and goes up by more
      than the threshold while the body is not yet marked as scrolling up. */
  predicate TurnsUp(classes: set<string>, lastScrollTop: int, threshold: int, scrollTop: int) {
    var t := LocalThreshold(threshold, scrollTop);
    && Abs(scrollTop - lastScrollTop) >= t
    && !TurnsDown(classes, lastScrollTop, threshold, scrollTop)
    && scrollTop < lastScrollTop - t
    && ScrollingUp !in classes
  }

  /** The outcome of one direction step: the new body class set, the new
      `lastScrollTop`, and whether `scrollDirectionChange` was dispatched. */
  datatype Step = Step(classes: set<string>, lastScrollTop: int, dispatched: bool)

  /** One run of `#determineDirection` from class set `classes` and last position
      `lastScrollTop`, for the current position `scrollTop`. */
  function DirectionStep(classes: set<string>, lastScrollTop: int, threshold: int, scrollTop: int): (s: Step)
    // a move smaller than the threshold is ignored altogether
    ensures Abs(scrollTop - lastScrollTop) < LocalThreshold(threshold, scrollTop) ==>
      s == Step(classes, lastScrollTop, false)
    // otherwise the position is remembered, clamped at 0
    ensures Abs(scrollTop - lastScrollTop) >= LocalThreshold(threshold, scrollTop) ==>
      s.lastScrollTop == (if scrollTop > 0 then scrollTop else 0) && s.lastScrollTop >= 0
    // a move of exactly the threshold flips nothing
    ensures Abs(scrollTop - lastScrollTop) == LocalThreshold(threshold, scrollTop) ==>
      s.classes == classes && !s.dispatched
    // far enough down, and not already marked as scrolling down
    ensures TurnsDown(classes, lastScrollTop, threshold, scrollTop) ==>
      s.classes == classes + {ScrollingDown} - {ScrollingUp} && s.dispatched
    // far enough up, not already marked as scrolling up, and the downward case did not apply
    ensures TurnsUp(classes, lastScrollTop, threshold, scrollTop) ==>
      s.classes == classes + {ScrollingUp} - {ScrollingDown} && s.dispatched
    // no other move changes the classes
    ensures !(TurnsDown(classes, lastScrollTop, threshold, scrollTop) || TurnsUp(classes, lastScrollTop, threshold, scrollTop))
      ==> s.classes == classes && !s.dispatched
    // an event goes out exactly when the class set changes
    ensures s.dispatched <==> s.classes != classes
    // only the two direction classes are ever touched
    ensures s.classes - {ScrollingDown, ScrollingUp} == classes - {ScrollingDown, ScrollingUp}
    // the two classes are never both gained
    ensures !(ScrollingDown in classes && ScrollingUp in classes) ==>
      !(ScrollingDown in s.classes && ScrollingUp in s.classes)
  {
    var localThreshold := LocalThreshold(threshold, scrollTop);
    if Abs(scrollTop - lastScrollTop) < localThreshold then
      Step(classes, lastScrollTop, false)
    else
      var last := if scrollTop > 0 then scrollTop else 0;
      if scrollTop > lastScrollTop + localThreshold && ScrollingDown !in classes then
        Step(classes + {ScrollingDown} - {ScrollingUp}, last, true)
      else if scrollTop < lastScrollTop - localThreshold && ScrollingUp !in classes then
        Step(classes + {ScrollingUp} - {ScrollingDown}, last, true)
      else
        Step(classes, last, false)
  }

  class ScrollDirection {
    const doc: Document
    /** whether an `onlyFor` callback was given */
    const hasOnlyFor: bool
    const threshold: int
    var lastScrollTop: int

    /** `new ScrollDirection({ onlyFor, threshold })`, reading the current scroll position. */
    constructor (doc: Document, hasOnlyFor: bool, threshold: int, pageYOffset: int, documentScrollTop: int)
      ensures this.doc == doc && this.hasOnlyFor == hasOnlyFor && this.threshold == threshold
      ensures lastScrollTop == ScrollPosition(pageYOffset, documentScrollTop)
    {
      this.doc := doc;
      this.hasOnlyFor := hasOnlyFor;
      this.threshold := threshold;
      lastScrollTop := ScrollPosition(pageYOffset, documentScrollTop);
    }

    /** The window `scroll` listener: `onlyFor` (when given) answered `onlyForAnswer`. */
    method OnScroll(onlyForAnswer: bool, pageYOffset: int, documentScrollTop: int)
      modifies this`lastScrollTop, doc`bodyClasses, doc`windowEvents
      ensures hasOnlyFor && !onlyForAnswer ==>
        lastScrollTop == old(lastScrollTop) && doc.bodyClasses == old(doc.bodyClasses)
        && doc.windowEvents == old(doc.windowEvents)
      ensures !hasOnlyFor || onlyForAnswer ==>
        var s := DirectionStep(old(doc.bodyClasses), old(lastScrollTop), threshold,
                               ScrollPosition(pageYOffset, documentScrollTop));
        lastScrollTop == s.lastScrollTop && doc.bodyClasses == s.classes
        && doc.windowEvents == old(doc.windowEvents) + (if s.dispatched then [DirectionChange] else [])
    {
      var isValid := !hasOnlyFor || onlyForAnswer;
      if isValid {
        DetermineDirection(pageYOffset, documentScrollTop);
      }
    }

    /** `#determineDirection`. */
    method DetermineDirection(pageYOffset: int, documentScrollTop: int)
      modifies this`lastScrollTop, doc`bodyClasses, doc`windowEvents
      ensures
        var s := DirectionStep(old(doc.bodyClasses), old(lastScrollTop), threshold,
                               ScrollPosition(pageYOffset, documentScrollTop));
        lastScrollTop == s.lastScrollTop && doc.bodyClasses == s.classes
        && doc.windowEvents == old(doc.windowEvents) + (if s.dispatched then [DirectionChange] else [])
    {
      var scrollTop := ScrollPosition(pageYOffset, documentScrollTop);
      var localThreshold := LocalThreshold(threshold, scrollTop);
      if Abs(scrollTop - lastScrollTop) < localThreshold {
        return;
      }
      if scrollTop > lastScrollTop + localThreshold && ScrollingDown !in doc.bodyClasses {
        doc.bodyClasses := doc.bodyClasses + {ScrollingDown};
        doc.bodyClasses := doc.bodyClasses - {ScrollingUp};
        doc.windowEvents := doc.windowEvents + [DirectionChange];
      } else if scrollTop < lastScrollTop - localThreshold && ScrollingUp !in doc.bodyClasses {
        doc.bodyClasses := doc.bodyClasses + {ScrollingUp};
        doc.bodyClasses := doc.bodyClasses - {ScrollingDown};
        doc.windowEvents := doc.windowEvents + [DirectionChange];
      }
      lastScrollTop := if scrollTop > 0 then scrollTop else 0;
    }
  }
}
