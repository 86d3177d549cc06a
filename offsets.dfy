/** `ScrollOffsetPart` and `ScrollOffset`: heights of fixed page chrome (sticky headers and
    the like), summed into CSS custom properties on the root element.

    Every reading of the page is an input: `matches` stands for `document.querySelectorAll`,
    and a `Page` holds what the layout and the configured hooks answer right now. */
module Offsets {
  import opened Wrappers
  import opened Browser
  import CssText

  const OffsetChange := "ScrollOffsetChange"

  /** `fixedHeight: number | false`. */
  datatype FixedHeight = NoFixedHeight | FixedHeight(px: int)

  /** JavaScript truthiness of `fixedHeight`: `false` and the number 0 are both falsy. */
  predicate FixedHeightTruthy(f: FixedHeight) {
    f.FixedHeight? && f.px != 0
  }

  /** The two optional hooks a part may be configured with. */
  datatype Hook = Condition | ResizeCondition

  /** What the page says at one moment: each element's `clientHeight`, and what each part's
      `condition` and `resizeCondition` return when called now. */
  datatype Page = Page(
    clientHeight: Element -> nat,
    condition: ScrollOffsetPart -> bool,
    resizeCondition: ScrollOffsetPart -> bool)

  /** The fixed configuration `calculate` works from. */
  datatype PartConfig = PartConfig(
    elements: seq<Element>,
    fixedHeight: FixedHeight,
    hasCondition: bool,
    hasResizeCondition: bool)

  /** The fields `calculate` writes. `resizeConditionValue` is `None` until first set. */
  datatype PartState = PartState(isValid: bool, totalHeight: int, resizeConditionValue: Option<bool>)

  // ---------------------------------------------------------------------------
  // Element collection (constructor of ScrollOffsetPart)

  /** `(selectors || []).filter(Boolean)`: the empty string is the one falsy string. */
  function TruthySelectors(selectors: seq<string>): (r: seq<string>)
    ensures |r| <= |selectors|
  {
    if |selectors| == 0 then []
    else
      var last := selectors[|selectors| - 1];
      TruthySelectors(selectors[..|selectors| - 1]) + (if last != "" then [last] else [])
  }

  /** The kept selectors are exactly the non-empty ones. */
  lemma {:induction false} TruthySelectorsMembers(selectors: seq<string>)
    ensures forall s :: s in TruthySelectors(selectors) <==> s in selectors && s != ""
  {
    if |selectors| > 0 {
      var init := selectors[..|selectors| - 1];
      TruthySelectorsMembers(init);
      assert selectors == init + [selectors[|selectors| - 1]];
    }
  }

  /** `TruthySelectors` is a filter: it keeps a single selector exactly when it is
      non-empty, and works piecewise over a concatenation, so order and repeats are kept. */
  lemma {:induction false} TruthySelectorsFilter(a: seq<string>, b: seq<string>)
    ensures TruthySelectors(a + b) == TruthySelectors(a) + TruthySelectors(b)
    ensures |b| == 1 ==> TruthySelectors(b) == if b[0] != "" then b else []
  {
    if |b| == 0 {
      assert a + b == a;
    } else {
      assert (a + b)[..|a + b| - 1] == a + b[..|b| - 1];
      TruthySelectorsFilter(a, b[..|b| - 1]);
      if |b| == 1 {
        assert b[..0] == [];
      }
    }
  }

  /** `(elements || []).filter(Boolean)`: the direct elements that are not null. */
  function DirectElements(elements: seq<Option<Element>>): (r: seq<Element>)
    ensures |r| <= |elements|
  {
    if |elements| == 0 then []
    else
      var last := elements[|elements| - 1];
      DirectElements(elements[..|elements| - 1]) + (if last.Some? then [last.value] else [])
  }

  /** The kept elements are exactly the non-null entries. */
  lemma {:induction false} DirectElementsMembers(elements: seq<Option<Element>>)
    ensures forall e :: e in DirectElements(elements) <==> Some(e) in elements
  {
    if |elements| > 0 {
      var init := elements[..|elements| - 1];
      DirectElementsMembers(init);
      assert elements == init + [elements[|elements| - 1]];
    }
  }

  /** `DirectElements` is a filter: a single entry is kept exactly when it is not null,
      and concatenations are filtered piecewise, so order and repeats are kept. */
  lemma {:induction false} DirectElementsFilter(a: seq<Option<Element>>, b: seq<Option<Element>>)
    ensures DirectElements(a + b) == DirectElements(a) + DirectElements(b)
    ensures |b| == 1 ==> DirectElements(b) == if b[0].Some? then [b[0].value] else []
  {
    if |b| == 0 {
      assert a + b == a;
    } else {
      var ab, init, last := a + b, b[..|b| - 1], b[|b| - 1];
      var tail := if last.Some? then [last.value] else [];
      assert DirectElements(ab) == DirectElements(a + init) + tail by {
        assert ab[..|ab| - 1] == a + init;
        assert ab[|ab| - 1] == last;
      }
      assert DirectElements(b) == DirectElements(init) + tail by {
        assert b[..|b| - 1] == init;
      }
      DirectElementsFilter(a, init);
      if |b| == 1 {
        assert init == [];
      }
    }
  }

  /** The matches of each selector, in selector order. */
  function SelectorMatches(selectors: seq<string>, matches: string -> seq<Element>): (r: seq<Element>)
    ensures forall e :: e in r <==> exists k :: 0 <= k < |selectors| && e in matches(selectors[k])
  {
    if |selectors| == 0 then []
    else
      var init := selectors[..|selectors| - 1];
      var r := SelectorMatches(init, matches) + matches(selectors[|selectors| - 1]);
      assert forall k :: 0 <= k < |init| ==> init[k] == selectors[k];
      r
  }

  /** The matches are gathered selector by selector: a concatenation of selector lists
      yields the matches of the first followed by those of the second, and one selector
      yields exactly its own matches, repeats included. */
  lemma {:induction false} SelectorMatchesAppend(a: seq<string>, b: seq<string>, matches: string -> seq<Element>)
    ensures SelectorMatches(a + b, matches) == SelectorMatches(a, matches) + SelectorMatches(b, matches)
    ensures |b| == 1 ==> SelectorMatches(b, matches) == matches(b[0])
  {
    if |b| == 0 {
      assert a + b == a;
    } else {
      var ab, init, last := a + b, b[..|b| - 1], b[|b| - 1];
      assert SelectorMatches(ab, matches) == SelectorMatches(a + init, matches) + matches(last) by {
        assert ab[..|ab| - 1] == a + init;
        assert ab[|ab| - 1] == last;
      }
      assert SelectorMatches(b, matches) == SelectorMatches(init, matches) + matches(last) by {
        assert b[..|b| - 1] == init;
      }
      SelectorMatchesAppend(a, init, matches);
      if |b| == 1 {
        assert init == [];
      }
    }
  }

  /** The `forEach` over the selectors that grows the element list. */
  method CollectElements(direct: seq<Option<Element>>, selectors: seq<string>, matches: string -> seq<Element>)
    returns (elements: seq<Element>)
    ensures elements == DirectElements(direct) + SelectorMatches(selectors, matches)
  {
    elements := DirectElements(direct);
    for i := 0 to |selectors|
      invariant elements == DirectElements(direct) + SelectorMatches(selectors[..i], matches)
    {
      assert selectors[..i + 1][..i] == selectors[..i];
      var newElements := matches(selectors[i]);
      if |newElements| > 0 {
        elements := elements + newElements;
      }
    }
    assert selectors[..|selectors|] == selectors;
  }

  // ---------------------------------------------------------------------------
  // calculate()

  /** The sum of the elements' `clientHeight`. No element is taller than the whole part. */
  function SumHeights(elements: seq<Element>, clientHeight: Element -> nat): (total: nat)
    ensures |elements| == 0 ==> total == 0
    ensures forall i :: 0 <= i < |elements| ==> clientHeight(elements[i]) <= total
  {
    if |elements| == 0 then 0
    else
      var init := elements[..|elements| - 1];
      var total := SumHeights(init, clientHeight) + clientHeight(elements[|elements| - 1]);
      assert forall i :: 0 <= i < |init| ==> init[i] == elements[i];
      total
  }

  /** The height of a part whose elements come from two lists is the sum of both. */
  lemma {:induction false} SumHeightsAppend(a: seq<Element>, b: seq<Element>, clientHeight: Element -> nat)
    ensures SumHeights(a + b, clientHeight) == SumHeights(a, clientHeight) + SumHeights(b, clientHeight)
  {
    if |b| > 0 {
      assert (a + b)[..|a + b| - 1] == a + b[..|b| - 1];
      SumHeightsAppend(a, b[..|b| - 1], clientHeight);
    } else {
      assert a + b == a;
    }
  }

  /** The accumulation loop of `calculate`. */
  method TotalClientHeight(elements: seq<Element>, clientHeight: Element -> nat) returns (total: nat)
    ensures total == SumHeights(elements, clientHeight)
  {
    total := 0;
    for i := 0 to |elements|
      invariant total == SumHeights(elements[..i], clientHeight)
    {
      assert elements[..i + 1][..i] == elements[..i];
      total := total + clientHeight(elements[i]);
    }
    assert elements[..|elements|] == elements;
  }

  /** The hooks one `calculate` call invokes, in order, given what `condition` answers:
      `condition` only for a part that has elements, `resizeCondition` only when the part
      is still valid after that. */
  function HookCalls(config: PartConfig, condition: bool): (calls: seq<Hook>)
    ensures Condition in calls <==> |config.elements| > 0 && config.hasCondition
    ensures ResizeCondition in calls <==>
      |config.elements| > 0 && (!config.hasCondition || condition) && config.hasResizeCondition
    ensures |calls| == 2 ==> calls == [Condition, ResizeCondition]
    ensures |calls| <= 2
  {
    var validAfterElements := |config.elements| > 0;
    var first := if validAfterElements && config.hasCondition then [Condition] else [];
    var validAfterCondition := validAfterElements && (!config.hasCondition || condition);
    first + (if validAfterCondition && config.hasResizeCondition then [ResizeCondition] else [])
  }

  /** One `calculate()` from the stored resize value `stored`, with the hooks answering
      `condition` and `resizeCondition` and the layout giving `clientHeight`. The resize
      hook is called afresh whenever it is reached: the guard in front of it tests a
      property that the object never has. */
  function Calculated(config: PartConfig, stored: Option<bool>, condition: bool, resizeCondition: bool,
                      clientHeight: Element -> nat): (r: PartState)
    ensures |config.elements| == 0 ==> !r.isValid && r.totalHeight == 0
    ensures !r.isValid ==> r.totalHeight == 0
    ensures r.isValid <==>
      && |config.elements| > 0
      && (!config.hasCondition || condition)
      && (!config.hasResizeCondition || resizeCondition)
    ensures r.resizeConditionValue ==
      if ResizeCondition in HookCalls(config, condition) then Some(resizeCondition) else stored
    ensures r.isValid && FixedHeightTruthy(config.fixedHeight) ==> r.totalHeight == config.fixedHeight.px
    ensures r.isValid && !FixedHeightTruthy(config.fixedHeight) ==>
      r.totalHeight == SumHeights(config.elements, clientHeight)
  {
    var valid := |config.elements| > 0;
    var valid := if valid && config.hasCondition then valid && condition else valid;
    var stored := if valid && config.hasResizeCondition then Some(resizeCondition) else stored;
    var valid := if valid && config.hasResizeCondition then valid && stored.value else valid;
    var total :=
      if !valid then 0
      else if FixedHeightTruthy(config.fixedHeight) then config.fixedHeight.px
      else SumHeights(config.elements, clientHeight);
    PartState(valid, total, stored)
  }

  /** A second `calculate()` with the same answers changes nothing. */
  lemma CalculatedIdempotent(config: PartConfig, stored: Option<bool>, condition: bool, resizeCondition: bool,
                             clientHeight: Element -> nat)
    ensures
      var once := Calculated(config, stored, condition, resizeCondition, clientHeight);
      Calculated(config, once.resizeConditionValue, condition, resizeCondition, clientHeight) == once
  {
  }

  /** The configuration object of a part, by identity (JavaScript deduplicates these with
      a `Set` like any other object). */
  class PartSettings {
    const name: string
    const selectors: seq<string>
    const elements: seq<Option<Element>>
    const fixedHeight: FixedHeight
    const hasCondition: bool
    const hasResizeCondition: bool

    constructor (name: string, selectors: seq<string>, elements: seq<Option<Element>>,
                 fixedHeight: FixedHeight, hasCondition: bool, hasResizeCondition: bool)
      ensures this.name == name && this.selectors == selectors && this.elements == elements
      ensures this.fixedHeight == fixedHeight
      ensures this.hasCondition == hasCondition && this.hasResizeCondition == hasResizeCondition
    {
      this.name := name;
      this.selectors := selectors;
      this.elements := elements;
      this.fixedHeight := fixedHeight;
      this.hasCondition := hasCondition;
      this.hasResizeCondition := hasResizeCondition;
    }
  }

  class ScrollOffsetPart {
    const name: string
    const selectors: seq<string>
    const elements: seq<Element>
    const fixedHeight: FixedHeight
    const hasCondition: bool
    const hasResizeCondition: bool

    var resizeConditionValue: Option<bool>
    var totalHeight: int
    var isValid: bool
    /** the calls made to this part's hooks, oldest first */
    var hookCalls: seq<Hook>

    function Config(): PartConfig {
      PartConfig(elements, fixedHeight, hasCondition, hasResizeCondition)
    }

    function State(): PartState
      reads this
    {
      PartState(isValid, totalHeight, resizeConditionValue)
    }

    /** The state one `calculate()` on `page` produces from the current state. */
    function Recalculated(page: Page): PartState
      reads this
    {
      Calculated(Config(), resizeConditionValue, page.condition(this), page.resizeCondition(this), page.clientHeight)
    }

    /** A `calculate()` on `page` would leave the state as it is. */
    predicate UpToDate(page: Page)
      reads this
    {
      State() == Recalculated(page)
    }

    /** What one `calculate()` on `page` leaves behind when it starts from the stored
        resize answer `before` and the hook log `calls`: the state `Calculated` gives, the
        hooks it calls appended to the log, and a state a further `calculate()` keeps. */
    predicate CalculatedFrom(before: Option<bool>, calls: seq<Hook>, page: Page)
      reads this
    {
      && State() == Calculated(Config(), before, page.condition(this), page.resizeCondition(this), page.clientHeight)
      && hookCalls == calls + HookCalls(Config(), page.condition(this))
      && UpToDate(page)
    }

    /** `new ScrollOffsetPart(settings)`: collect the elements once, then calculate. */
    constructor (settings: PartSettings, matches: string -> seq<Element>, page: Page)
      ensures name == settings.name && selectors == TruthySelectors(settings.selectors)
      ensures elements == DirectElements(settings.elements) + SelectorMatches(selectors, matches)
      ensures fixedHeight == settings.fixedHeight
      ensures hasCondition == settings.hasCondition && hasResizeCondition == settings.hasResizeCondition
      ensures State() == Calculated(Config(), None, page.condition(this), page.resizeCondition(this), page.clientHeight)
      ensures hookCalls == HookCalls(Config(), page.condition(this))
      ensures UpToDate(page)
    {
      name := settings.name;
      var truthySelectors := TruthySelectors(settings.selectors);
      selectors := truthySelectors;
      var collected := CollectElements(settings.elements, truthySelectors, matches);
      elements := collected;
      fixedHeight := settings.fixedHeight;
      hasCondition := settings.hasCondition;
      hasResizeCondition := settings.hasResizeCondition;
      resizeConditionValue := None;
      totalHeight := 0;
      isValid := false;
      hookCalls := [];
      new;
      Calculate(page);
    }

    /** `calculate()`. */
    method Calculate(page: Page)
      modifies this`isValid, this`totalHeight, this`resizeConditionValue, this`hookCalls
      ensures CalculatedFrom(old(resizeConditionValue), old(hookCalls), page)
    {
      isValid := |elements| > 0;
      if isValid && hasCondition {
        hookCalls := hookCalls + [Condition];
        isValid := isValid && page.condition(this);
      }
      if isValid && hasResizeCondition {
        hookCalls := hookCalls + [ResizeCondition];
        resizeConditionValue := Some(page.resizeCondition(this));
        isValid := isValid && resizeConditionValue.value;
      }
      if !isValid {
        totalHeight := 0;
      } else if FixedHeightTruthy(fixedHeight) {
        totalHeight := fixedHeight.px;
      } else {
        totalHeight := TotalClientHeight(elements, page.clientHeight);
      }
      CalculatedIdempotent(Config(), old(resizeConditionValue), page.condition(this),
                           page.resizeCondition(this), page.clientHeight);
    }

    /** `calculateResizeConditions()`: re-evaluate the resize hook and report whether its
        answer differs from the stored one ("never set" counting as false). */
    method CalculateResizeConditions(page: Page) returns (changed: bool)
      modifies this`resizeConditionValue, this`hookCalls
      ensures !hasResizeCondition ==>
        !changed && resizeConditionValue == old(resizeConditionValue) && hookCalls == old(hookCalls)
      ensures hasResizeCondition ==>
        && resizeConditionValue == Some(page.resizeCondition(this))
        && hookCalls == old(hookCalls) + [ResizeCondition]
        && (changed <==> old(resizeConditionValue).GetOr(false) != page.resizeCondition(this))
    {
      changed := false;
      if hasResizeCondition {
        var oldValue := resizeConditionValue.GetOr(false);
        hookCalls := hookCalls + [ResizeCondition];
        resizeConditionValue := Some(page.resizeCondition(this));
        changed := oldValue != resizeConditionValue.value;
      }
    }
  }

  // ---------------------------------------------------------------------------
  // Deduplication: `[...new Set(list)]`

  predicate NoDuplicates<T(==)>(s: seq<T>) {
    forall i, j :: 0 <= i < j < |s| ==> s[i] != s[j]
  }

  /** The position of the first occurrence of `x`. */
  function FirstIndex<T(==)>(s: seq<T>, x: T): (k: nat)
    requires x in s
    ensures k < |s| && s[k] == x && x !in s[..k]
  {
    if s[0] == x then 0
    else
      var k := 1 + FirstIndex(s[1..], x);
      assert s[1..][..k - 1] == s[1..k];
      k
  }

  /** The distinct members of `s`, each where it first occurs: the iteration order of a
      JavaScript `Set` built from `s`. */
  function Distinct<T(==)>(s: seq<T>): (r: seq<T>)
    ensures forall i :: 0 <= i < |r| ==> r[i] in s
    ensures forall i :: 0 <= i < |s| ==> s[i] in r
    ensures NoDuplicates(r)
    ensures forall i, j :: 0 <= i < j < |r| ==> FirstIndex(s, r[i]) < FirstIndex(s, r[j])
  {
    if |s| == 0 then []
    else
      var init, last := s[..|s| - 1], s[|s| - 1];
      assert s == init + [last];
      var d := Distinct(init);
      FirstIndexExtend(init, last);
      if last in d then d
      else
        var r := d + [last];
        assert forall i :: 0 <= i < |d| ==> r[i] == d[i];
        r
  }

  /** Appending an element keeps the first occurrences already present, and puts a new
      element's first occurrence last. */
  lemma FirstIndexExtend<T>(init: seq<T>, last: T)
    ensures forall x :: x in init ==> FirstIndex(init + [last], x) == FirstIndex(init, x)
    ensures last !in init ==> FirstIndex(init + [last], last) == |init|
  {
    var s := init + [last];
    forall x | x in init
      ensures FirstIndex(s, x) == FirstIndex(init, x)
    {
      var k1, k2 := FirstIndex(init, x), FirstIndex(s, x);
      assert s[..k2] == init[..k2] || k2 == |init|;
    }
    if last !in init {
      var k := FirstIndex(s, last);
      assert s[..k] == init[..k] || k == |init|;
    }
  }

  /** In a concatenation, an element occurs first inside the left operand exactly when it
      occurs there at all. */
  lemma FirstIndexPrefix<T>(a: seq<T>, b: seq<T>)
    ensures forall x :: x in a + b ==> (x in a <==> FirstIndex(a + b, x) < |a|)
  {
    var s := a + b;
    forall x | x in s
      ensures x in a <==> FirstIndex(s, x) < |a|
    {
      var k := FirstIndex(s, x);
      if k < |a| {
        assert a[k] == s[k];
      }
      if x in a {
        var j :| 0 <= j < |a| && a[j] == x;
        assert s[j] == x;
      }
    }
  }

  // ---------------------------------------------------------------------------
  // The aggregator's configuration

  /** A variable entry: a part by object, or the name of a part. */
  datatype PartRef = ByName(name: string) | ByPart(part: ScrollOffsetPart)

  datatype Variable = Variable(name: string, offsetParts: seq<PartRef>)

  /** `variables`: an array of `{ name, offsetParts }`, or an object from names to entry
      lists, given here as its entries in iteration order. The entries of a real object
      have distinct keys, with the array-index keys first in ascending order. */
  datatype VariablesSetting = VariableList(variables: seq<Variable>) | VariableMap(entries: seq<(string, seq<PartRef>)>)

  /** An `offsetParts` member: a part object, or a plain settings object. */
  datatype PartSource = Instance(part: ScrollOffsetPart) | Settings(settings: PartSettings)

  /** `Array.isArray(variables) ? variables : Object.entries(variables).map(...)`. */
  function NormalizeVariables(setting: VariablesSetting): seq<Variable> {
    match setting
    case VariableList(variables) => variables
    case VariableMap(entries) => seq(|entries|, i requires 0 <= i < |entries| => Variable(entries[i].0, entries[i].1))
  }

  /** `Object.entries` of a variables list written as an object: name to entry list. */
  function Entries(variables: seq<Variable>): seq<(string, seq<PartRef>)> {
    seq(|variables|, i requires 0 <= i < |variables| => (variables[i].name, variables[i].offsetParts))
  }

  /** A property key that an object lists before all others, in ascending numeric order:
      the canonical numeral of an integer from 0 to 2^32 - 2. */
  predicate IsArrayIndexName(name: string) {
    |name| > 0 && CssText.AllDigits(name) && (name[0] == '0' ==> |name| == 1)
    && CssText.DigitsValue(name) < 0xFFFF_FFFF
  }

  /** A variables list that an object literal can hold entry for entry: no two variables
      share a name (an object keeps only the last value of a repeated key), and no name is
      an array index (an object would move it to the front). */
  predicate WritableAsObject(variables: seq<Variable>) {
    && (forall i, j :: 0 <= i < j < |variables| ==> variables[i].name != variables[j].name)
    && (forall i :: 0 <= i < |variables| ==> !IsArrayIndexName(variables[i].name))
  }

  /** The two ways of giving the variables say the same thing: an object normalises to
      the list whose entries it has, a list normalises to itself, and a list with distinct
      names that are not array indices, written as an object, normalises back to itself. */
  lemma NormalizeVariablesRoundTrip(entries: seq<(string, seq<PartRef>)>, variables: seq<Variable>)
    ensures Entries(NormalizeVariables(VariableMap(entries))) == entries
    ensures NormalizeVariables(VariableList(variables)) == variables
    ensures WritableAsObject(variables) ==> NormalizeVariables(VariableMap(Entries(variables))) == variables
  {
    var fromMap := NormalizeVariables(VariableMap(entries));
    assert forall i :: 0 <= i < |entries| ==> Entries(fromMap)[i] == (entries[i].0, entries[i].1);
    var back := NormalizeVariables(VariableMap(Entries(variables)));
    assert forall i :: 0 <= i < |variables| ==> back[i] == Variable(variables[i].name, variables[i].offsetParts);
  }

  /** `offsetParts.filter(part => part instanceof ScrollOffsetPart)` for one variable. */
  function RefParts(refs: seq<PartRef>): (r: seq<ScrollOffsetPart>)
    ensures |r| <= |refs|
  {
    if |refs| == 0 then []
    else
      var last := refs[|refs| - 1];
      RefParts(refs[..|refs| - 1]) + (if last.ByPart? then [last.part] else [])
  }

  /** The kept parts are exactly the object entries. */
  lemma {:induction false} RefPartsMembers(refs: seq<PartRef>)
    ensures forall k :: 0 <= k < |RefParts(refs)| ==> ByPart(RefParts(refs)[k]) in refs
    ensures forall k :: 0 <= k < |refs| && refs[k].ByPart? ==> refs[k].part in RefParts(refs)
  {
    if |refs| > 0 {
      var init := refs[..|refs| - 1];
      RefPartsMembers(init);
      assert refs == init + [refs[|refs| - 1]];
      assert forall k :: 0 <= k < |init| ==> init[k] == refs[k];
    }
  }

  /** The part objects named inside the variables, variable by variable (`.flat(1)`). */
  function EmbeddedParts(variables: seq<Variable>): seq<ScrollOffsetPart> {
    if |variables| == 0 then []
    else EmbeddedParts(variables[..|variables| - 1]) + RefParts(variables[|variables| - 1].offsetParts)
  }

  /** The embedded parts are exactly the object entries of the variables. */
  lemma {:induction false} EmbeddedPartsMembers(variables: seq<Variable>)
    ensures forall k :: 0 <= k < |EmbeddedParts(variables)| ==>
      exists i :: 0 <= i < |variables| && ByPart(EmbeddedParts(variables)[k]) in variables[i].offsetParts
    ensures forall i, k :: 0 <= i < |variables| && 0 <= k < |variables[i].offsetParts| && variables[i].offsetParts[k].ByPart? ==>
      variables[i].offsetParts[k].part in EmbeddedParts(variables)
  {
    if |variables| > 0 {
      var init := variables[..|variables| - 1];
      EmbeddedPartsMembers(init);
      assert forall i :: 0 <= i < |init| ==> init[i] == variables[i];
      var e, last := EmbeddedParts(init), RefParts(variables[|variables| - 1].offsetParts);
      RefPartsMembers(variables[|variables| - 1].offsetParts);
      assert EmbeddedParts(variables) == e + last;
      forall k | 0 <= k < |EmbeddedParts(variables)|
        ensures exists i :: 0 <= i < |variables| && ByPart(EmbeddedParts(variables)[k]) in variables[i].offsetParts
      {
        if k < |e| {
          var i :| 0 <= i < |init| && ByPart(e[k]) in init[i].offsetParts;
          assert variables[i] == init[i];
          assert EmbeddedParts(variables)[k] == e[k];
          assert 0 <= i < |variables| && ByPart(EmbeddedParts(variables)[k]) in variables[i].offsetParts;
        } else {
          var i := |variables| - 1;
          assert ByPart(last[k - |e|]) in variables[i].offsetParts;
          assert EmbeddedParts(variables)[k] == last[k - |e|];
          assert 0 <= i < |variables| && ByPart(EmbeddedParts(variables)[k]) in variables[i].offsetParts;
        }
      }
    } else {
      assert EmbeddedParts(variables) == [];
    }
  }

  /** `RefParts` is a filter over the entries and `EmbeddedParts` flattens it over the
      variables: both keep entry order and repeats. */
  lemma {:induction false} RefPartsFilter(a: seq<PartRef>, b: seq<PartRef>)
    ensures RefParts(a + b) == RefParts(a) + RefParts(b)
    ensures |b| == 1 ==> RefParts(b) == if b[0].ByPart? then [b[0].part] else []
  {
    if |b| == 0 {
      assert a + b == a;
    } else {
      var ab, init, last := a + b, b[..|b| - 1], b[|b| - 1];
      var tail := if last.ByPart? then [last.part] else [];
      assert RefParts(ab) == RefParts(a + init) + tail by {
        assert ab[..|ab| - 1] == a + init;
        assert ab[|ab| - 1] == last;
      }
      assert RefParts(b) == RefParts(init) + tail by {
        assert b[..|b| - 1] == init;
      }
      RefPartsFilter(a, init);
      if |b| == 1 {
        assert init == [];
      }
    }
  }

  lemma {:induction false} EmbeddedPartsFlatten(a: seq<Variable>, b: seq<Variable>)
    ensures EmbeddedParts(a + b) == EmbeddedParts(a) + EmbeddedParts(b)
    ensures |b| == 1 ==> EmbeddedParts(b) == RefParts(b[0].offsetParts)
  {
    if |b| == 0 {
      assert a + b == a;
    } else {
      var ab, init, last := a + b, b[..|b| - 1], b[|b| - 1];
      assert EmbeddedParts(ab) == EmbeddedParts(a + init) + RefParts(last.offsetParts) by {
        assert ab[..|ab| - 1] == a + init;
        assert ab[|ab| - 1] == last;
      }
      assert EmbeddedParts(b) == EmbeddedParts(init) + RefParts(last.offsetParts) by {
        assert b[..|b| - 1] == init;
      }
      EmbeddedPartsFlatten(a, init);
      if |b| == 1 {
        assert init == [];
      }
    }
  }

  function AsSources(parts: seq<ScrollOffsetPart>): (r: seq<PartSource>)
    ensures |r| == |parts| && forall i :: 0 <= i < |parts| ==> r[i] == Instance(parts[i])
  {
    if |parts| == 0 then [] else AsSources(parts[..|parts| - 1]) + [Instance(parts[|parts| - 1])]
  }

  /** The aggregator's part list before settings objects are turned into parts: the
      declared members followed by the part objects found in the variables, each kept
      where it first occurs. */
  function PartSources(declared: seq<PartSource>, variables: seq<Variable>): (r: seq<PartSource>)
    ensures NoDuplicates(r)
    ensures forall i :: 0 <= i < |r| ==> r[i] in declared || (r[i].Instance? && r[i].part in EmbeddedParts(variables))
    ensures forall i :: 0 <= i < |declared| ==> declared[i] in r
    ensures forall p :: p in EmbeddedParts(variables) ==> Instance(p) in r
  {
    EmbeddedPartsMembers(variables);
    var embedded := AsSources(EmbeddedParts(variables));
    var all := declared + embedded;
    assert forall i :: 0 <= i < |declared| ==> all[i] == declared[i];
    assert forall i :: 0 <= i < |embedded| ==> all[|declared| + i] == embedded[i];
    Distinct(all)
  }

  /** The merged list keeps first-occurrence order over the declared members followed by
      the embedded parts, so every declared member comes before every part that only a
      variable names. */
  lemma PartSourcesOrder(declared: seq<PartSource>, variables: seq<Variable>)
    ensures var all, r := declared + AsSources(EmbeddedParts(variables)), PartSources(declared, variables);
      && r == Distinct(all)
      && (forall i, j :: 0 <= i < j < |r| ==> FirstIndex(all, r[i]) < FirstIndex(all, r[j]))
      && (forall i, j :: 0 <= i < j < |r| && r[j] in declared ==> r[i] in declared)
  {
    var all, r := declared + AsSources(EmbeddedParts(variables)), PartSources(declared, variables);
    FirstIndexPrefix(declared, AsSources(EmbeddedParts(variables)));
    assert forall i :: 0 <= i < |r| ==> r[i] in all;
  }

  /** The part objects the constructor is handed, directly or inside variables. */
  ghost function SharedParts(declared: seq<PartSource>, variables: seq<Variable>): set<ScrollOffsetPart> {
    (set src | src in declared && src.Instance? :: src.part) + (set p | p in EmbeddedParts(variables))
  }

  /** `part` is the part built from `settings`. */
  predicate BuiltFrom(part: ScrollOffsetPart, settings: PartSettings, matches: string -> seq<Element>) {
    && part.name == settings.name
    && part.selectors == TruthySelectors(settings.selectors)
    && part.elements == DirectElements(settings.elements) + SelectorMatches(part.selectors, matches)
    && part.fixedHeight == settings.fixedHeight
    && part.hasCondition == settings.hasCondition
    && part.hasResizeCondition == settings.hasResizeCondition
  }

  // ---------------------------------------------------------------------------
  // Variable values

  /** `this.#offsetParts.find(partInfo => partInfo.name == name)`, as a position. */
  function FindNamed(parts: seq<ScrollOffsetPart>, name: string): (r: Option<nat>)
    ensures r.Some? ==> r.value < |parts| && parts[r.value].name == name
    ensures r.Some? ==> forall j :: 0 <= j < r.value ==> parts[j].name != name
    ensures r.None? ==> forall j :: 0 <= j < |parts| ==> parts[j].name != name
  {
    if |parts| == 0 then None
    else if parts[0].name == name then Some(0)
    else match FindNamed(parts[1..], name)
      case None => None
      case Some(k) => Some(k + 1)
  }

  /** The part an entry stands for, if any. */
  function Resolve(ref: PartRef, parts: seq<ScrollOffsetPart>): (r: Option<ScrollOffsetPart>)
    ensures ref.ByPart? ==> r == Some(ref.part)
    ensures ref.ByName? && r.Some? ==> r.value in parts && r.value.name == ref.name
    ensures ref.ByName? ==> (r.None? <==> forall p :: p in parts ==> p.name != ref.name)
    ensures ref.ByName? && r.Some? ==> r.value == parts[FindNamed(parts, ref.name).value]
  {
    match ref
    case ByPart(p) => Some(p)
    case ByName(name) =>
      match FindNamed(parts, name)
      case None => None
      case Some(k) => Some(parts[k])
  }

  /** The part objects referred to by object in `refs`. */
  function Referenced(refs: seq<PartRef>): set<ScrollOffsetPart> {
    set r | r in refs && r.ByPart? :: r.part
  }

  /** What one entry adds to its variable: nothing, or the whole height of the part it
      stands for. For a part whose state a `calculate()` produced (an invalid part holds
      height 0) the validity test changes nothing: the entry adds the part's height. */
  function Contribution(ref: PartRef, parts: seq<ScrollOffsetPart>): (c: int)
    reads (set p | p in parts), Referenced([ref])
    ensures Resolve(ref, parts).None? ==> c == 0
    ensures c == 0 || (Resolve(ref, parts).Some? && c == Resolve(ref, parts).value.totalHeight)
    ensures Resolve(ref, parts).Some? && (!Resolve(ref, parts).value.isValid ==> Resolve(ref, parts).value.totalHeight == 0) ==>
      c == Resolve(ref, parts).value.totalHeight
  {
    match Resolve(ref, parts)
    case None => 0
    case Some(p) => if p.isValid then p.totalHeight else 0
  }

  /** The `reduce` that gives a variable its value. */
  function VariableValue(refs: seq<PartRef>, parts: seq<ScrollOffsetPart>): int
    reads (set p | p in parts), Referenced(refs)
  {
    if |refs| == 0 then 0
    else
      var init, last := refs[..|refs| - 1], refs[|refs| - 1];
      VariableValue(init, parts) + Contribution(last, parts)
  }

  /** A variable none of whose entries resolves is 0, and a variable is never negative
      while no entry adds a negative height. */
  lemma {:induction false} VariableValueBounds(refs: seq<PartRef>, parts: seq<ScrollOffsetPart>)
    ensures (forall k :: 0 <= k < |refs| ==> Resolve(refs[k], parts).None?) ==> VariableValue(refs, parts) == 0
    ensures (forall k :: 0 <= k < |refs| ==> Contribution(refs[k], parts) >= 0) ==> VariableValue(refs, parts) >= 0
  {
    if |refs| > 0 {
      var init := refs[..|refs| - 1];
      VariableValueBounds(init, parts);
      assert forall k :: 0 <= k < |init| ==> init[k] == refs[k];
    }
  }

  /** A variable's value is additive over its entry list. */
  lemma {:induction false} VariableValueAppend(a: seq<PartRef>, b: seq<PartRef>, parts: seq<ScrollOffsetPart>)
    ensures VariableValue(a + b, parts) == VariableValue(a, parts) + VariableValue(b, parts)
  {
    if |b| == 0 {
      assert a + b == a;
    } else {
      assert (a + b)[..|a + b| - 1] == a + b[..|b| - 1];
      VariableValueAppend(a, b[..|b| - 1], parts);
    }
  }

  /** An entry adds its contribution wherever it stands in the list, and an entry
      listed twice adds it twice. */
  lemma VariableValueEntries(a: seq<PartRef>, ref: PartRef, b: seq<PartRef>, parts: seq<ScrollOffsetPart>)
    ensures VariableValue(a + [ref] + b, parts) == VariableValue(a + b, parts) + Contribution(ref, parts)
    ensures VariableValue(a + [ref, ref] + b, parts) == VariableValue(a + b, parts) + 2 * Contribution(ref, parts)
  {
    VariableValueAppend(a + [ref], b, parts);
    VariableValueAppend(a, [ref], parts);
    VariableValueAppend(a, b, parts);
    VariableValueAppend(a + [ref, ref], b, parts);
    VariableValueAppend(a, [ref, ref], parts);
    assert [ref, ref][..1] == [ref];
  }

  /** A name entry adds what the first part of that name adds; a name no part carries adds 0. */
  lemma NameResolvesToFirst(name: string, parts: seq<ScrollOffsetPart>, k: nat)
    requires k < |parts| && parts[k].name == name
    requires forall j :: 0 <= j < k ==> parts[j].name != name
    ensures Contribution(ByName(name), parts) == Contribution(ByPart(parts[k]), parts)
  {
  }

  // ---------------------------------------------------------------------------
  // Writing the variables

  datatype StyleAssignment = StyleAssignment(property: string, value: string)

  /** The parts referred to by object anywhere in the variables. */
  function AllReferenced(variables: seq<Variable>): (all: set<ScrollOffsetPart>)
    ensures forall i :: 0 <= i < |variables| ==> Referenced(variables[i].offsetParts) <= all
  {
    if |variables| == 0 then {}
    else
      var init := variables[..|variables| - 1];
      assert forall i :: 0 <= i < |init| ==> init[i] == variables[i];
      AllReferenced(init) + Referenced(variables[|variables| - 1].offsetParts)
  }

  /** Every part in `AllReferenced` is an object entry of some variable. */
  lemma {:induction false} AllReferencedMembers(variables: seq<Variable>)
    ensures forall q :: q in AllReferenced(variables) ==>
      exists i :: 0 <= i < |variables| && ByPart(q) in variables[i].offsetParts
  {
    if |variables| > 0 {
      var init := variables[..|variables| - 1];
      AllReferencedMembers(init);
      forall q | q in AllReferenced(variables)
        ensures exists i :: 0 <= i < |variables| && ByPart(q) in variables[i].offsetParts
      {
        if q in AllReferenced(init) {
          var i :| 0 <= i < |init| && ByPart(q) in init[i].offsetParts;
          assert variables[i] == init[i];
        } else {
          var r :| r in variables[|variables| - 1].offsetParts && r.ByPart? && r.part == q;
          assert ByPart(q) in variables[|variables| - 1].offsetParts;
        }
      }
    }
  }

  /** `setProperty('--name', `${value}px`)` for one variable. */
  function Assignment(v: Variable, parts: seq<ScrollOffsetPart>): StyleAssignment
    reads (set p | p in parts), Referenced(v.offsetParts)
  {
    StyleAssignment(CssText.CustomProperty(v.name), CssText.PxValue(VariableValue(v.offsetParts, parts)))
  }

  /** One assignment per variable, in variable order. */
  function StyleAssignments(variables: seq<Variable>, parts: seq<ScrollOffsetPart>): (r: seq<StyleAssignment>)
    reads (set p | p in parts), AllReferenced(variables)
    ensures |r| == |variables|
    ensures forall i :: 0 <= i < |variables| ==> r[i] == Assignment(variables[i], parts)
  {
    if |variables| == 0 then []
    else
      var init := variables[..|variables| - 1];
      var prefix := StyleAssignments(init, parts);
      var r := prefix + [Assignment(variables[|variables| - 1], parts)];
      assert forall i :: 0 <= i < |init| ==> r[i] == prefix[i] && variables[i] == init[i];
      r
  }

  /** The style map after applying the assignments in order. */
  function Written(style: map<string, string>, assignments: seq<StyleAssignment>): map<string, string> {
    if |assignments| == 0 then style
    else
      var last := assignments[|assignments| - 1];
      Written(style, assignments[..|assignments| - 1])[last.property := last.value]
  }

  /** The position of the last assignment to `property`, if there is one. */
  function LastWrite(assignments: seq<StyleAssignment>, property: string): (r: Option<nat>)
    ensures r.None? <==> forall i :: 0 <= i < |assignments| ==> assignments[i].property != property
    ensures r.Some? ==> r.value < |assignments| && assignments[r.value].property == property
    ensures r.Some? ==> forall j :: r.value < j < |assignments| ==> assignments[j].property != property
  {
    if |assignments| == 0 then None
    else if assignments[|assignments| - 1].property == property then Some(|assignments| - 1)
    else
      var init := assignments[..|assignments| - 1];
      assert forall i :: 0 <= i < |init| ==> init[i] == assignments[i];
      LastWrite(init, property)
  }

  /** Each property ends with the value of its last assignment; the others keep theirs. */
  lemma {:induction false} WrittenAt(style: map<string, string>, assignments: seq<StyleAssignment>, property: string)
    ensures LastWrite(assignments, property).Some? ==>
      property in Written(style, assignments) &&
      Written(style, assignments)[property] == assignments[LastWrite(assignments, property).value].value
    ensures LastWrite(assignments, property).None? ==>
      (property in Written(style, assignments) <==> property in style) &&
      (property in style ==> Written(style, assignments)[property] == style[property])
  {
    if |assignments| > 0 {
      WrittenAt(style, assignments[..|assignments| - 1], property);
    }
  }

  /** Writing the same assignments a second time changes nothing. */
  lemma WrittenTwice(style: map<string, string>, assignments: seq<StyleAssignment>)
    ensures Written(Written(style, assignments), assignments) == Written(style, assignments)
  {
    var once := Written(style, assignments);
    var twice := Written(once, assignments);
    forall k | true
      ensures (k in twice <==> k in once) && (k in once ==> twice[k] == once[k])
    {
      WrittenAt(style, assignments, k);
      WrittenAt(once, assignments, k);
    }
  }

  /** A variable that no later variable shares its name with ends up as `--name: Npx`,
      N being its value, and reads back as that value. */
  lemma VariableWritten(style: map<string, string>, variables: seq<Variable>, parts: seq<ScrollOffsetPart>, i: nat)
    requires i < |variables|
    requires forall j :: i < j < |variables| ==> variables[j].name != variables[i].name
    ensures
      var written := Written(style, StyleAssignments(variables, parts));
      var property := CssText.CustomProperty(variables[i].name);
      && property in written
      && written[property] == CssText.PxValue(VariableValue(variables[i].offsetParts, parts))
      && CssText.ParsePx(written[property]) == Some(VariableValue(variables[i].offsetParts, parts))
  {
    var a := StyleAssignments(variables, parts);
    var property := CssText.CustomProperty(variables[i].name);
    forall j | i < j < |a| ensures a[j].property != property {
      if a[j].property == property {
        CssText.CustomPropertyInjective(variables[j].name, variables[i].name);
      }
    }
    var r := LastWrite(a, property);
    assert r.Some? && r.value == i;
    WrittenAt(style, a, property);
    CssText.PxRoundTrip(VariableValue(variables[i].offsetParts, parts));
  }

  /** The `forEach` that writes the custom properties onto the root element. */
  method SetProperties(doc: Document, assignments: seq<StyleAssignment>)
    modifies doc`rootStyle
    ensures doc.rootStyle == Written(old(doc.rootStyle), assignments)
  {
    for i := 0 to |assignments|
      invariant doc.rootStyle == Written(old(doc.rootStyle), assignments[..i])
    {
      assert assignments[..i + 1][..i] == assignments[..i];
      doc.rootStyle := doc.rootStyle[assignments[i].property := assignments[i].value];
    }
    assert assignments[..|assignments|] == assignments;
  }

  /** Write the assignments, then dispatch `ScrollOffsetChange` on the body. */
  method Publish(doc: Document, assignments: seq<StyleAssignment>)
    modifies doc`rootStyle, doc`bodyEvents
    ensures doc.rootStyle == Written(old(doc.rootStyle), assignments)
    ensures doc.bodyEvents == old(doc.bodyEvents) + [OffsetChange]
  {
    SetProperties(doc, assignments);
    doc.bodyEvents := doc.bodyEvents + [OffsetChange];
  }

  /** What the constructor leaves for one member of its part list. A given part is the
      same object, calculated once more. A settings object becomes a new part built from
      it, which its own constructor calculated and which is calculated again here: it
      ends where one calculation from scratch ends, having called its hooks twice. */
  twostate predicate Prepared(src: PartSource, new part: ScrollOffsetPart, matches: string -> seq<Element>, page: Page)
    reads part
  {
    match src
    case Instance(given) =>
      && part == given
      && part.CalculatedFrom(old(given.resizeConditionValue), old(given.hookCalls), page)
    case Settings(settings) =>
      && fresh(part)
      && BuiltFrom(part, settings, matches)
      && part.State() == Calculated(part.Config(), None, page.condition(part), page.resizeCondition(part), page.clientHeight)
      && part.hookCalls == HookCalls(part.Config(), page.condition(part)) + HookCalls(part.Config(), page.condition(part))
      && part.UpToDate(page)
  }

  /** One member of the part list: turn a settings object into a new part, then
      calculate the part. */
  method PreparePart(src: PartSource, matches: string -> seq<Element>, page: Page) returns (part: ScrollOffsetPart)
    modifies if src.Instance? then {src.part} else {}
    ensures Prepared(src, part, matches, page)
    ensures src.Instance? ==> part == src.part
    ensures src.Settings? ==> fresh(part)
  {
    if src.Instance? {
      part := src.part;
    } else {
      part := new ScrollOffsetPart(src.settings, matches, page);
      CalculatedIdempotent(part.Config(), None, page.condition(part), page.resizeCondition(part), page.clientHeight);
    }
    part.Calculate(page);
  }

  /** The `map` that turns each settings object into a new part and calculates every part. */
  method BuildParts(sources: seq<PartSource>, matches: string -> seq<Element>, page: Page)
    returns (built: seq<ScrollOffsetPart>)
    requires NoDuplicates(sources)
    modifies set src | src in sources && src.Instance? :: src.part
    ensures |built| == |sources|
    ensures forall j :: 0 <= j < |sources| ==> Prepared(sources[j], built[j], matches, page)
    ensures NoDuplicates(built)
  {
    built := [];
    for i := 0 to |sources|
      invariant |built| == i
      invariant forall j :: 0 <= j < i ==> Prepared(sources[j], built[j], matches, page)
      invariant forall j :: 0 <= j < i ==>
        (sources[j].Instance? ==> built[j] == sources[j].part) && (sources[j].Settings? ==> fresh(built[j]))
      invariant NoDuplicates(built)
      invariant forall j :: i <= j < |sources| && sources[j].Instance? ==>
        && sources[j].part.resizeConditionValue == old(sources[j].part.resizeConditionValue)
        && sources[j].part.hookCalls == old(sources[j].part.hookCalls)
    {
      var part: ScrollOffsetPart;
      if sources[i].Instance? {
        // a given part is not in the list yet, so calculating it leaves the list alone
        assert sources[i].part !in built;
        part := PreparePart(sources[i], matches, page);
      } else {
        part := PreparePart(sources[i], matches, page);
      }
      built := built + [part];
    }
  }

  /** The constructor's part list: build and calculate each member of the merged list. Every part a variable names by object
      ends up in the list. */
  method AssembleParts(offsetParts: seq<PartSource>, vars: seq<Variable>, merged: seq<PartSource>,
                       matches: string -> seq<Element>, page: Page)
    returns (built: seq<ScrollOffsetPart>)
    requires merged == PartSources(offsetParts, vars)
    modifies SharedParts(offsetParts, vars)
    ensures |built| == |merged|
    ensures forall j :: 0 <= j < |merged| ==> Prepared(merged[j], built[j], matches, page)
    ensures NoDuplicates(built)
    ensures AllReferenced(vars) <= set p | p in built
  {
    built := BuildParts(merged, matches, page);
    EmbeddedPartsMembers(vars);
    AllReferencedMembers(vars);
    forall q | q in AllReferenced(vars) ensures q in built {
      var i :| 0 <= i < |vars| && ByPart(q) in vars[i].offsetParts;
      var k :| 0 <= k < |vars[i].offsetParts| && vars[i].offsetParts[k] == ByPart(q);
      assert Instance(q) in merged;
      var j :| 0 <= j < |merged| && merged[j] == Instance(q);
      assert Prepared(merged[j], built[j], matches, page);
    }
  }

  // ---------------------------------------------------------------------------
  // The aggregator

  class ScrollOffset {
    const doc: Document
    const parts: seq<ScrollOffsetPart>
    const variables: seq<Variable>
    /** the part list before the settings objects in it became parts */
    ghost const sources: seq<PartSource>

    /** The parts are distinct objects, and every part a variable names by object is one
        of them. */
    ghost predicate Valid() {
      && NoDuplicates(parts)
      && AllReferenced(variables) <= set p | p in parts
    }

    ghost function Repr(): set<object> {
      set p | p in parts
    }

    /** `new ScrollOffset({ offsetParts, variables })`: normalise the variables, merge the
        declared parts with those found in the variables, build a part for each settings
        object, calculate every part, then compute and write the offsets. */
    constructor (doc: Document, offsetParts: seq<PartSource>, variables: VariablesSetting,
                 matches: string -> seq<Element>, page: Page)
      modifies doc`rootStyle, doc`bodyEvents, SharedParts(offsetParts, NormalizeVariables(variables))
      ensures this.doc == doc && this.variables == NormalizeVariables(variables)
      ensures sources == PartSources(offsetParts, NormalizeVariables(variables))
      ensures Valid()
      ensures |parts| == |sources|
      ensures forall i :: 0 <= i < |parts| && sources[i].Instance? ==> parts[i] == sources[i].part
      ensures forall i :: 0 <= i < |parts| && sources[i].Settings? ==>
        fresh(parts[i]) && BuiltFrom(parts[i], sources[i].settings, matches)
      ensures forall i :: 0 <= i < |parts| ==> parts[i].UpToDate(page)
      // a new part is calculated three times: by its constructor, by the `map`, and by the first offset computation
      ensures forall i :: 0 <= i < |parts| && sources[i].Settings? ==>
        && parts[i].State() == Calculated(parts[i].Config(), None, page.condition(parts[i]), page.resizeCondition(parts[i]), page.clientHeight)
        && parts[i].hookCalls == HookCalls(parts[i].Config(), page.condition(parts[i]))
             + HookCalls(parts[i].Config(), page.condition(parts[i])) + HookCalls(parts[i].Config(), page.condition(parts[i]))
      ensures doc.rootStyle == Written(old(doc.rootStyle), StyleAssignments(this.variables, parts))
      ensures doc.bodyEvents == old(doc.bodyEvents) + [OffsetChange]
    {
      var vars := NormalizeVariables(variables);
      var merged := PartSources(offsetParts, vars);
      var built := AssembleParts(offsetParts, vars, merged, matches, page);
      this.doc := doc;
      this.sources := merged;
      this.parts := built;
      this.variables := vars;
      new;
      CalculateOffset(page);
    }

    /** `this.#offsetParts.forEach(part => part.calculate())`. */
    method CalculateParts(page: Page)
      requires Valid()
      modifies Repr()
      ensures forall i :: 0 <= i < |parts| ==>
        parts[i].CalculatedFrom(old(parts[i].resizeConditionValue), old(parts[i].hookCalls), page)
    {
      for i := 0 to |parts|
        invariant forall j :: 0 <= j < i ==>
          parts[j].CalculatedFrom(old(parts[j].resizeConditionValue), old(parts[j].hookCalls), page)
        invariant forall j :: i <= j < |parts| ==>
          parts[j].resizeConditionValue == old(parts[j].resizeConditionValue) && parts[j].hookCalls == old(parts[j].hookCalls)
      {
        parts[i].Calculate(page);
      }
    }

    /** `#calculateOffset`: recalculate every part, then derive every variable from the
        new heights, write them, and announce the change. */
    method CalculateOffset(page: Page)
      requires Valid()
      modifies Repr(), doc`rootStyle, doc`bodyEvents
      ensures forall i :: 0 <= i < |parts| ==>
        parts[i].CalculatedFrom(old(parts[i].resizeConditionValue), old(parts[i].hookCalls), page)
      ensures doc.rootStyle == Written(old(doc.rootStyle), StyleAssignments(variables, parts))
      ensures doc.bodyEvents == old(doc.bodyEvents) + [OffsetChange]
    {
      CalculateParts(page);
      assert doc.rootStyle == old(doc.rootStyle) && doc.bodyEvents == old(doc.bodyEvents);
      var assignments := StyleAssignments(variables, parts);
      Publish(doc, assignments);
      assert assignments == StyleAssignments(variables, parts);
    }

    /** `#calculateResizeConditions`: re-evaluate every part's resize hook; the answers
        are stored and the reported changes are dropped. */
    method CalculateResizeConditions(page: Page)
      requires Valid()
      modifies Repr()
      ensures forall i :: 0 <= i < |parts| ==>
        && parts[i].isValid == old(parts[i].isValid)
        && parts[i].totalHeight == old(parts[i].totalHeight)
        && parts[i].resizeConditionValue ==
             (if parts[i].hasResizeCondition then Some(page.resizeCondition(parts[i]))
              else old(parts[i].resizeConditionValue))
        && parts[i].hookCalls ==
             old(parts[i].hookCalls) + (if parts[i].hasResizeCondition then [ResizeCondition] else [])
    {
      for i := 0 to |parts|
        invariant forall j :: 0 <= j < |parts| ==>
          parts[j].isValid == old(parts[j].isValid) && parts[j].totalHeight == old(parts[j].totalHeight)
        invariant forall j :: 0 <= j < i ==>
          && parts[j].resizeConditionValue ==
               (if parts[j].hasResizeCondition then Some(page.resizeCondition(parts[j]))
                else old(parts[j].resizeConditionValue))
          && parts[j].hookCalls ==
               old(parts[j].hookCalls) + (if parts[j].hasResizeCondition then [ResizeCondition] else [])
        invariant forall j :: i <= j < |parts| ==>
          parts[j].resizeConditionValue == old(parts[j].resizeConditionValue) && parts[j].hookCalls == old(parts[j].hookCalls)
      {
        var _ := parts[i].CalculateResizeConditions(page);
      }
    }

    /** No part changed its validity or its height since the old state. */
    twostate predicate HeightsUnchanged()
      reads Repr()
    {
      forall i :: 0 <= i < |parts| ==>
        parts[i].isValid == old(parts[i].isValid) && parts[i].totalHeight == old(parts[i].totalHeight)
    }

    /** Heights that did not change give a variable over the parts the same value. */
    twostate lemma SameHeightsSameValue(refs: seq<PartRef>)
      requires HeightsUnchanged()
      requires Referenced(refs) <= Repr()
      ensures VariableValue(refs, parts) == old(VariableValue(refs, parts))
    {
      if |refs| > 0 {
        var init, last := refs[..|refs| - 1], refs[|refs| - 1];
        assert Referenced(init) <= Referenced(refs) by {
          forall q | q in Referenced(init) ensures q in Referenced(refs) {
            var r :| r in init && r.ByPart? && r.part == q;
          }
        }
        SameHeightsSameValue(init);
        var p := Resolve(last, parts);
        if p.Some? {
          if last.ByPart? {
            assert last.part in Referenced(refs);
          }
          var j :| 0 <= j < |parts| && parts[j] == p.value;
        }
      }
    }

    /** Heights that did not change give the same custom-property assignments. */
    twostate lemma SameHeightsSameAssignments()
      requires Valid()
      requires HeightsUnchanged()
      ensures StyleAssignments(variables, parts) == old(StyleAssignments(variables, parts))
    {
      var a, b := StyleAssignments(variables, parts), old(StyleAssignments(variables, parts));
      forall i | 0 <= i < |variables| ensures a[i] == b[i] {
        SameHeightsSameValue(variables[i].offsetParts);
      }
    }
  }

  /** Two recomputations in a row on the same page leave every part where one leaves it
      (only the hook log grows twice) and write exactly what one writes. */
  method RecalculateTwice(offset: ScrollOffset, page: Page)
    requires offset.Valid()
    modifies offset.Repr(), offset.doc`rootStyle, offset.doc`bodyEvents
    ensures forall i :: 0 <= i < |offset.parts| ==>
      var p := offset.parts[i];
      && p.State() == Calculated(p.Config(), old(p.resizeConditionValue), page.condition(p), page.resizeCondition(p), page.clientHeight)
      && p.hookCalls == old(p.hookCalls) + HookCalls(p.Config(), page.condition(p)) + HookCalls(p.Config(), page.condition(p))
    ensures offset.doc.rootStyle == Written(old(offset.doc.rootStyle), StyleAssignments(offset.variables, offset.parts))
    ensures offset.doc.bodyEvents == old(offset.doc.bodyEvents) + [OffsetChange, OffsetChange]
  {
    offset.CalculateOffset(page);
    label once:
    offset.CalculateOffset(page);
    offset.SameHeightsSameAssignments@once();
    WrittenTwice(old(offset.doc.rootStyle), StyleAssignments(offset.variables, offset.parts));
  }
}
