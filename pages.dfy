/** `ScrollPages`: marks the body `above-the-fold` or `below-the-fold` from the reports of
    an intersection observer watching a first-screen-high element, and dispatches
    `ScrollPageChange` on the window when the state flips. */
module Pages {
  import opened Browser

  const DefaultBelowTheFoldClass := "below-the-fold"
  const DefaultAboveTheFoldClass := "above-the-fold"
  const PageChange := "ScrollPageChange"

  /** The first-page test of one observer batch: the page is still on its first screen
      unless some entry reports that it is not intersecting. */
  method IsFirstPage(intersecting: seq<bool>) returns (isFirstPage: bool)
    ensures isFirstPage <==> forall i :: 0 <= i < |intersecting| ==> intersecting[i]
  {
    isFirstPage := true;
    for i := 0 to |intersecting|
      invariant isFirstPage <==> forall j :: 0 <= j < i ==> intersecting[j]
    {
      if !intersecting[i] {
        isFirstPage := false;
      }
    }
  }

  /** The body classes after a flip to `below`: the below class is added or removed,
      then the above class is added or removed the other way. */
  function ToggledClasses(classes: set<string>, below: bool, belowClass: string, aboveClass: string): (r: set<string>)
    ensures belowClass != aboveClass ==> (belowClass in r <==> below) && (aboveClass in r <==> !below)
    ensures r - {belowClass, aboveClass} == classes - {belowClass, aboveClass}
  {
    var afterBelow := if below then classes + {belowClass} else classes - {belowClass};
    if !below then afterBelow + {aboveClass} else afterBelow - {aboveClass}
  }

  class ScrollPages {
    const doc: Document
    const belowTheFoldClass: string
    const aboveTheFoldClass: string
    var isBelowTheFold: bool

    /** Exactly one of the two classes is on the body, and it is the one that matches
        `isBelowTheFold`. */
    ghost predicate ClassesAgree()
      reads this, doc
    {
      && (belowTheFoldClass in doc.bodyClasses <==> isBelowTheFold)
      && (aboveTheFoldClass in doc.bodyClasses <==> !isBelowTheFold)
    }

    /** `new ScrollPages({ belowTheFoldClass, aboveTheFoldClass })` with its `#setupObserver`. */
    constructor (doc: Document, belowTheFoldClass: string, aboveTheFoldClass: string)
      modifies doc`bodyClasses
      ensures this.doc == doc && this.belowTheFoldClass == belowTheFoldClass
      ensures this.aboveTheFoldClass == aboveTheFoldClass
      ensures !isBelowTheFold
      ensures doc.bodyClasses == old(doc.bodyClasses) + {aboveTheFoldClass}
      ensures belowTheFoldClass !in old(doc.bodyClasses) && belowTheFoldClass != aboveTheFoldClass ==>
        ClassesAgree()
    {
      this.doc := doc;
      this.belowTheFoldClass := belowTheFoldClass;
      this.aboveTheFoldClass := aboveTheFoldClass;
      isBelowTheFold := false;
      new;
      doc.bodyClasses := doc.bodyClasses + {aboveTheFoldClass};
    }

    /** `new ScrollPages()`: the same with the default class names, which differ, so the
        body classes agree with the state unless the below class was already there. */
    constructor WithDefaults(doc: Document)
      modifies doc`bodyClasses
      ensures this.doc == doc && belowTheFoldClass == DefaultBelowTheFoldClass
      ensures aboveTheFoldClass == DefaultAboveTheFoldClass
      ensures !isBelowTheFold
      ensures doc.bodyClasses == old(doc.bodyClasses) + {DefaultAboveTheFoldClass}
      ensures DefaultBelowTheFoldClass !in old(doc.bodyClasses) ==> ClassesAgree()
    {
      this.doc := doc;
      belowTheFoldClass := DefaultBelowTheFoldClass;
      aboveTheFoldClass := DefaultAboveTheFoldClass;
      isBelowTheFold := false;
      new;
      doc.bodyClasses := doc.bodyClasses + {aboveTheFoldClass};
    }

    /** The observer callback for one batch of entries, given by their `isIntersecting`. */
    method OnIntersection(intersecting: seq<bool>)
      modifies this`isBelowTheFold, doc`bodyClasses, doc`windowEvents
      // the state always ends up as the batch says
      ensures isBelowTheFold <==> exists i :: 0 <= i < |intersecting| && !intersecting[i]
      // no flip: nothing changes
      ensures isBelowTheFold == old(isBelowTheFold) ==>
        doc.bodyClasses == old(doc.bodyClasses) && doc.windowEvents == old(doc.windowEvents)
      // a flip: both classes are set to match, and one event goes out
      ensures isBelowTheFold != old(isBelowTheFold) ==>
        && doc.bodyClasses == ToggledClasses(old(doc.bodyClasses), isBelowTheFold, belowTheFoldClass, aboveTheFoldClass)
        && doc.windowEvents == old(doc.windowEvents) + [PageChange]
      ensures belowTheFoldClass != aboveTheFoldClass && (old(ClassesAgree()) || isBelowTheFold != old(isBelowTheFold)) ==>
        ClassesAgree()
    {
      var isFirstPage := IsFirstPage(intersecting);
      if isBelowTheFold != !isFirstPage {
        isBelowTheFold := !isFirstPage;
        doc.bodyClasses := if isBelowTheFold then doc.bodyClasses + {belowTheFoldClass}
                           else doc.bodyClasses - {belowTheFoldClass};
        doc.bodyClasses := if !isBelowTheFold then doc.bodyClasses + {aboveTheFoldClass}
                           else doc.bodyClasses - {aboveTheFoldClass};
        doc.windowEvents := doc.windowEvents + [PageChange];
      }
    }
  }

  /** Delivering the same batch twice: the second delivery changes no class and
      dispatches no event. */
  method RepeatedBatch(pages: ScrollPages, intersecting: seq<bool>)
    modifies pages`isBelowTheFold, pages.doc`bodyClasses, pages.doc`windowEvents
    ensures pages.isBelowTheFold == (exists i :: 0 <= i < |intersecting| && !intersecting[i])
    ensures pages.doc.bodyClasses == if pages.isBelowTheFold != old(pages.isBelowTheFold)
      then ToggledClasses(old(pages.doc.bodyClasses), pages.isBelowTheFold, pages.belowTheFoldClass, pages.aboveTheFoldClass)
      else old(pages.doc.bodyClasses)
    ensures pages.doc.windowEvents == old(pages.doc.windowEvents)
      + (if pages.isBelowTheFold != old(pages.isBelowTheFold) then [PageChange] else [])
  {
    pages.OnIntersection(intersecting);
    ghost var classesAfterFirst := pages.doc.bodyClasses;
    ghost var eventsAfterFirst := pages.doc.windowEvents;
    pages.OnIntersection(intersecting);
    assert pages.doc.bodyClasses == classesAfterFirst;
    assert pages.doc.windowEvents == eventsAfterFirst;
  }
}
