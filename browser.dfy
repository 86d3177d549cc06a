/** The parts of the browser that the utilities read or change, reduced to plain values. */
module Browser {

  /** A DOM element, known only by its identity; what the layout says about it is an input. */
  datatype Element = Element(id: nat)

  /** The document state the utilities write to: the class list of `document.body`,
      the custom properties set on `document.documentElement.style`, and the names of
      the events dispatched on `document.body` and on `window`, oldest first. */
  class Document {
    var bodyClasses: set<string>
    var rootStyle: map<string, string>
    var bodyEvents: seq<string>
    var windowEvents: seq<string>

    constructor (bodyClasses: set<string>)
      ensures this.bodyClasses == bodyClasses
      ensures rootStyle == map[] && bodyEvents == [] && windowEvents == []
    {
      this.bodyClasses := bodyClasses;
      rootStyle := map[];
      bodyEvents := [];
      windowEvents := [];
    }
  }
}
