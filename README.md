# scroll-utils, modelled in Dafny

This is a model of the decision logic in the scroll-utils browser utilities. It covers four units.

- **ScrollOffsetPart and ScrollOffset** (`offsets.dfy`).
  - A part collects elements from direct references and selector matches.
  - `calculate()` decides whether the part is valid and how tall it is.
  - `calculateResizeConditions()` re-asks the resize hook and reports a flip.
  - The aggregator deduplicates the declared parts and the part instances found inside variables, keeping first-occurrence order, and builds a part from each settings object.
  - For every variable it sums the heights of its valid entries. An entry is either a part object or the name of the first part carrying that name.
  - It writes each sum as `--name: Npx` onto the root element and dispatches `ScrollOffsetChange` on the body.
- **ScrollDirection** (`direction.dfy`).
  - This is the `scrolling-down` / `scrolling-up` state machine.
  - The threshold depends on the position.
  - A small move returns early and changes nothing.
  - A step dispatches `scrollDirectionChange` exactly when a class flips.
  - The `onlyFor` gate can switch a scroll event off.
- **ScrollPages** (`pages.dfy`).
  - The intersection observer callback computes "still on the first page" over a batch of entries.
  - When that answer flips, it flips `isBelowTheFold`, switches the `below-the-fold` / `above-the-fold` body classes and dispatches `ScrollPageChange`.
- **scrollWithMarginTop** (`margin_scroll.dfy`).
  - It is a pure decision between no scroll and a smooth scroll to `top - margin + offset`.
  - The margin falls back from `scroll-margin-top` to `scroll-snap-margin-top` to 0.
  - With `onlyWhenNeeded`, it skips the scroll when the target is already in the top half of the viewport.

Supporting modules:
- `Browser` (`browser.dfy`) holds what the utilities write:
  - the body's class list;
  - the root element's inline style, as a map from property to value;
  - the events dispatched on the body and on the window, as logs of event names.
- `CssText` (`css_text.dfy`) formats integers as decimal text. It proves that a `Npx` value reads back as N.
- `Wrappers` (`wrappers.dfy`) holds the `Option` type.

Everything read from the page is an input:
- `matches` stands for `document.querySelectorAll`.
- A `Page` gives each element's `clientHeight` and what each part's `condition` and `resizeCondition` hooks answer at the moment of the call.
- Scroll positions are integers in ScrollDirection and reals in scrollWithMarginTop.
- A `parseInt` result is either NaN or a number.

Behaviour modelled as the code has it, where the code itself points at another intent:
- **The resize hook is not cached.** The guard in front of the call (src/ScrollOffset.ts:88) only makes sense as a cache of the first answer. It tests for a public property `resizeConditionValue`, which the object never has, because the field is private (`#resizeConditionValue`). So the hook is called again on every `calculate()` that reaches it. `Calculated` and `HookCalls` state this.
- **The resize pass result is ignored.** A part's `calculateResizeConditions()` returns whether the answer changed (src/ScrollOffset.ts:113). The aggregator's pass drops every part's result (src/ScrollOffset.ts:240-242), and resize events trigger the recompute on their own listener. `ScrollOffset.CalculateResizeConditions` only stores the new answers.
- **A `fixedHeight` of 0 is falsy.** Such a part sums its element heights instead (src/ScrollOffset.ts:96).

Two-step properties are proved about the state-changing methods:
- `ScrollOffset.SameHeightsSameAssignments`: the assignments depend only on the parts' validity and heights.
- `RecalculateTwice`: a second recomputation on an unchanged page leaves every part in the state the first one left, and writes the same properties. Only the hook log and the event log grow.
- `RepeatedBatch`: delivering the same observer batch twice flips classes and dispatches events at most once.

## Model

| member | source | states |
|---|---|---|
| Offsets.TruthySelectorsMembers | src/ScrollOffset.ts:50 | the kept selectors are exactly the non-empty ones given |
| Offsets.TruthySelectorsFilter | src/ScrollOffset.ts:50 | `filter(Boolean)` on selectors: one selector is kept iff non-empty, and a concatenation is filtered piecewise, so order and repeats are kept |
| Offsets.DirectElementsMembers | src/ScrollOffset.ts:51 | the kept direct elements are exactly the non-null ones given |
| Offsets.DirectElementsFilter | src/ScrollOffset.ts:51 | `filter(Boolean)` on elements: one entry is kept iff non-null, and a concatenation is filtered piecewise, so order and repeats are kept |
| Offsets.SelectorMatches | src/ScrollOffset.ts:56-61 | an element is collected iff some selector matched it |
| Offsets.SelectorMatchesAppend | src/ScrollOffset.ts:56-61 | matches are gathered in selector order: a concatenation of selector lists gives the first list's matches followed by the second's, and one selector gives exactly its own matches, repeats included |
| Offsets.SumHeights | src/ScrollOffset.ts:99-103 | no elements sum to 0, and no single element is taller than the sum |
| Offsets.CollectElements | src/ScrollOffset.ts:56-61 | the loop yields the direct elements followed by each selector's matches, in selector order |
| Offsets.SumHeightsAppend | src/ScrollOffset.ts:99-103 | the height sum over two concatenated element lists is the sum of the two sums |
| Offsets.TotalClientHeight | src/ScrollOffset.ts:99-103 | the accumulation loop yields the sum of the elements' `clientHeight` |
| Offsets.HookCalls | src/ScrollOffset.ts:84-92 | `condition` is called iff the part has elements and a condition; `resizeCondition` is called iff it exists and the part is still valid after the first two checks; the order is condition first; at most two calls |
| Offsets.Calculated | src/ScrollOffset.ts:82-107 | no elements gives invalid with height 0; invalid always means height 0; valid iff there are elements, the condition (if any) holds and the resize hook (if any) holds; the stored resize answer is refreshed iff the hook is reached; a truthy fixed height wins, otherwise the element heights are summed |
| Offsets.CalculatedIdempotent | src/ScrollOffset.ts:82-107 | calculating again from the state one calculation left gives the same state |
| Offsets.PartSettings.constructor | src/ScrollOffset.ts:3-10 | a settings object holds exactly the options it was given |
| Offsets.ScrollOffsetPart.constructor | src/ScrollOffset.ts:41-64 | the part keeps its name and options, collects the truthy direct elements followed by the truthy selectors' matches, then is in the state one calculation gives from "never set" |
| Offsets.ScrollOffsetPart.Calculate | src/ScrollOffset.ts:82-107 | the new state is `Calculated` from the old stored resize answer; the hooks it called are appended to the hook log; a further calculation would change nothing |
| Offsets.ScrollOffsetPart.CalculateResizeConditions | src/ScrollOffset.ts:109-116 | with no resize hook: returns false and changes nothing; otherwise stores the fresh answer and returns true iff it differs from the old one, "never set" counting as false |
| Offsets.FirstIndex | src/ScrollOffset.ts:166 | the index returned is where the value first occurs |
| Offsets.Distinct | src/ScrollOffset.ts:166 | `[...new Set(s)]`: the same members as `s`, no duplicates, in first-occurrence order |
| Offsets.FirstIndexExtend | src/ScrollOffset.ts:166 | appending an element leaves the first occurrences of the earlier ones where they were |
| Offsets.NormalizeVariablesRoundTrip | src/ScrollOffset.ts:145-154 | a map normalises to variables whose (name, entries) pairs are the map's entries in order; a list is kept as it is; a list whose names are distinct and not array indices (`WritableAsObject`), written as an object and normalised, gives itself back |
| Offsets.RefPartsMembers | src/ScrollOffset.ts:159-161 | every part returned is an object entry of the variable, and every object entry is returned |
| Offsets.RefPartsFilter | src/ScrollOffset.ts:159-161 | the `instanceof` filter keeps one entry iff it is an object entry and works piecewise over a concatenation, so entry order and repeats are kept |
| Offsets.EmbeddedPartsMembers | src/ScrollOffset.ts:157-163 | every part returned is an object entry of some variable, and every object entry of every variable is returned |
| Offsets.EmbeddedPartsFlatten | src/ScrollOffset.ts:157-163 | `.flat(1)`: the parts of concatenated variable lists are the concatenated parts, and one variable gives its own object entries in order |
| Offsets.FirstIndexPrefix | src/ScrollOffset.ts:166 | in a concatenation, a value first occurs in the left operand iff it occurs there at all |
| Offsets.PartSources | src/ScrollOffset.ts:157-166 | the merged sources hold no duplicate and hold exactly the declared sources plus every part object found in a variable |
| Offsets.PartSourcesOrder | src/ScrollOffset.ts:166 | the merged list is the declared sources followed by the embedded parts, deduplicated: first-occurrence order, and no embedded-only part comes before a declared source |
| Offsets.PreparePart | src/ScrollOffset.ts:169-177 | a part object is itself, calculated once more; a settings object becomes a fresh part built from it, calculated by its constructor and again, ending in the state one calculation from "never set" gives with its hooks called twice |
| Offsets.BuildParts | src/ScrollOffset.ts:169-178 | every member is prepared as above, in order, and the result has no duplicates |
| Offsets.AssembleParts | src/ScrollOffset.ts:157-178 | the built list has no duplicates and holds every part a variable names by object |
| Offsets.FindNamed | src/ScrollOffset.ts:218-220 | the index found is the first whose part has that name; none is found iff no part has it |
| Offsets.Resolve | src/ScrollOffset.ts:217-221 | an object entry resolves to itself; a name entry resolves to nothing iff no part carries the name, and otherwise to the first part that does |
| Offsets.Contribution | src/ScrollOffset.ts:217-225 | an entry adds 0 or the whole height of the part it stands for; an unresolved entry adds 0; for a part whose invalid state has height 0, as `calculate()` leaves it, the entry adds exactly the height |
| Offsets.VariableValueBounds | src/ScrollOffset.ts:216-226 | a variable none of whose entries resolves is 0, and a variable whose entries add nothing negative is not negative |
| Offsets.VariableValueAppend | src/ScrollOffset.ts:215-227 | the variable's sum is additive over its entry list |
| Offsets.VariableValueEntries | src/ScrollOffset.ts:215-227 | one entry adds its contribution, and an entry listed twice adds it twice |
| Offsets.NameResolvesToFirst | src/ScrollOffset.ts:218-220 | a name adds exactly what the first part carrying that name adds |
| Offsets.AllReferenced | src/ScrollOffset.ts:215-226 | every part a variable names by object is among the parts a recomputation reads |
| Offsets.AllReferencedMembers | src/ScrollOffset.ts:215-226 | every part a recomputation reads by object is an object entry of some variable |
| Offsets.StyleAssignments | src/ScrollOffset.ts:215-233 | one assignment per variable, in order, setting `--name` to that variable's sum followed by `px` |
| Offsets.LastWrite | src/ScrollOffset.ts:231-233 | the last position writing a property; none iff nothing writes it |
| Offsets.WrittenAt | src/ScrollOffset.ts:231-233 | after the writes a property holds its last written value, and an unwritten property keeps what it had |
| Offsets.WrittenTwice | src/ScrollOffset.ts:231-233 | writing the same assignments again changes nothing |
| Offsets.VariableWritten | src/ScrollOffset.ts:231-233 | a variable with no later namesake leaves `--name` set to its sum in `px`, which parses back to that sum |
| Offsets.SetProperties | src/ScrollOffset.ts:231-233 | the loop leaves the root style as the assignments applied in order |
| Offsets.Publish | src/ScrollOffset.ts:231-234 | the assignments are applied, then one `ScrollOffsetChange` goes to the body |
| Offsets.ScrollOffset.constructor | src/ScrollOffset.ts:137-191 | the variables are normalised; the parts are the merged, deduplicated sources, object sources as themselves and settings as fresh parts; every part is up to date; a part built from settings is in the state one calculation from "never set" gives, having called its hooks three times; the root style holds the variables' assignments and one event is dispatched |
| Offsets.ScrollOffset.CalculateParts | src/ScrollOffset.ts:212 | every part is recalculated from its own old state |
| Offsets.ScrollOffset.CalculateOffset | src/ScrollOffset.ts:210-235 | every part is recalculated before the sums are taken; the root style receives the assignments from the new heights; one `ScrollOffsetChange` is dispatched |
| Offsets.ScrollOffset.CalculateResizeConditions | src/ScrollOffset.ts:240-242 | each part with a resize hook stores a fresh answer; validity and heights are unchanged |
| Offsets.ScrollOffset.SameHeightsSameValue | src/ScrollOffset.ts:215-227 | with validity and heights unchanged, a variable's sum is unchanged |
| Offsets.ScrollOffset.SameHeightsSameAssignments | src/ScrollOffset.ts:212-233 | with validity and heights unchanged, the assignments are unchanged |
| Offsets.RecalculateTwice | src/ScrollOffset.ts:210-235 | two recomputations on the same page leave every part in the state one calculation from its old state gives, with its hooks called twice; the root style ends as one recomputation leaves it; two events are dispatched |
| CssText.NatToDecimal | src/ScrollOffset.ts:232 | the decimal text of a number is non-empty digits with no leading zero |
| CssText.NatToDecimalValue | src/ScrollOffset.ts:232 | the digits read back as the number |
| CssText.IntToDecimalRoundTrip | src/ScrollOffset.ts:232 | the decimal text of any integer, negative included, parses back to it |
| CssText.PxRoundTrip | src/ScrollOffset.ts:232 | `${value}px` parses back to the value |
| CssText.PxValueInjective | src/ScrollOffset.ts:232 | different sums give different `px` texts |
| CssText.CustomPropertyInjective | src/ScrollOffset.ts:232 | different variable names give different `--name` properties |
| Direction.ScrollPosition | src/ScrollDirection.ts:57 | `pageYOffset \|\| scrollTop`: the result is one of the two readings; it is 0 only when both are; a non-zero page offset wins |
| Direction.LocalThreshold | src/ScrollDirection.ts:58 | the threshold used is the configured one or 10; it is not negative for a non-negative configuration; with the default 0, 10 pixels apply exactly at or above the top of the page |
| Direction.DirectionStep | src/ScrollDirection.ts:54-78 | a move smaller than the local threshold changes nothing; otherwise the last position becomes max(scrollTop, 0); a move by exactly the threshold flips nothing; a move down past it without `scrolling-down` adds that class, removes `scrolling-up` and dispatches one event, and up is symmetric; an event goes out iff the classes change; no other class is touched; the two classes are never both gained |
| Direction.ScrollDirection.constructor | src/ScrollDirection.ts:22-28 | the last position starts as the page offset read at construction |
| Direction.ScrollDirection.OnScroll | src/ScrollDirection.ts:34-39 | with `onlyFor` answering false nothing changes; otherwise the effect is one direction step |
| Direction.ScrollDirection.DetermineDirection | src/ScrollDirection.ts:54-78 | the new position, classes and event log are those `DirectionStep` gives |
| Pages.IsFirstPage | src/ScrollPages.ts:64-69 | first page iff every entry intersects, so an empty batch is first page |
| Pages.ToggledClasses | src/ScrollPages.ts:72-73 | after a flip, when the below and above class names differ, the below class is present iff below the fold and the above class iff not; whatever the names, no other class changes |
| Pages.ScrollPages.constructor | src/ScrollPages.ts:26-61 | starts not below the fold with the above class added; when the below and above class names differ and the below class was absent, the two classes agree with the state |
| Pages.ScrollPages.WithDefaults | src/ScrollPages.ts:26-34 | the default class names `below-the-fold` and `above-the-fold`; starts not below the fold with `above-the-fold` added, in agreement with the state unless `below-the-fold` was already there |
| Pages.ScrollPages.OnIntersection | src/ScrollPages.ts:63-76 | the state becomes "some entry not intersecting"; without a flip nothing changes; a flip toggles both classes and dispatches one `ScrollPageChange`; class agreement is kept, and restored by any flip |
| Pages.RepeatedBatch | src/ScrollPages.ts:70-75 | the second delivery of a batch changes no class and dispatches nothing |
| MarginScroll.ScrollMarginTop | src/scrollWithMarginTop.ts:16-19 | the first non-zero parsed margin of the two, else 0 |
| MarginScroll.NewPositionIgnoresScroll | src/scrollWithMarginTop.ts:14-20 | the target is a page coordinate: scrolling by any amount moves the element's top and the page offset together and leaves it unchanged |
| MarginScroll.AlreadyVisible | src/scrollWithMarginTop.ts:24-26 | a visible target lies at or below the window's top with the whole element above the middle of the window, so only an element shorter than half the window can be visible |
| MarginScroll.ScrollWithMarginTop | src/scrollWithMarginTop.ts:5-33 | no element gives no scroll; with `onlyWhenNeeded` there is no scroll iff the target is already in the top half; otherwise exactly one scroll to `top - margin + offset` with left 0 |
| MarginScroll.ScrollWithMarginTopDefaults | src/scrollWithMarginTop.ts:5-9 | with the default arguments an element always scrolls |

## Left out

- Event listeners and the debounced handlers (src/ScrollOffset.ts:244-271, src/ScrollDirection.ts:33-39, src/ScrollPages.ts:63):
  - `addEventListener`, lodash `debounce(…, 32)` and `ResizeObserver` decide when the operations run, not what they do.
  - Each operation is modelled as one call.
- Houdini registration (src/ScrollOffset.ts:180-187, 196-205): registering the property types is not modelled, nor a registration that throws. The constructor calls `registerProperty` without a guard before `#calculateOffset`, so a throw there would leave nothing written.
- The `extraEvents`, `registerForHoudini` and `useResizeObserver` options: they only feed the listener and registration code above.
- The DOM side of ScrollPages (src/ScrollPages.ts:50-60, 77): creating the observer `div`, forcing `body.style.position` and starting the `IntersectionObserver`. A batch of `isIntersecting` answers is the input.
- `requestAnimationFrame` and `CustomEvent` mechanics: a dispatch is one event name appended to a log. The one-frame delay of window events is not modelled.
- Browser reads are inputs:
  - `querySelectorAll` is a function from selector to element list.
  - `clientHeight` is a natural number per element.
  - In scrollWithMarginTop, `getBoundingClientRect`, `pageYOffset` and `innerHeight` are reals.
  - In ScrollDirection, `pageYOffset` and `document.documentElement.scrollTop` are integers.
- `querySelectorAll` throwing on an invalid selector is not modelled: every selector yields a list.
- Floating point:
  - Heights are integers and layout positions are reals.
  - Fractional pixels and rounding are not covered.
  - `CssText.PxValue` writes every integer in plain decimal. JavaScript switches to exponent notation at 1e21, which is not modelled.
- Offsets.ScrollOffset.constructor: for a part handed in by object, the contract states only that it ends up to date. It states neither its hook log nor its stored resize answer. For such a part whose resize hook is not reached (no elements, `condition` answering false, or no resize hook), being up to date says nothing about `resizeConditionValue`. `Offsets.BuildParts` and `Offsets.PreparePart` do state both for the build step.
- Offsets.FindNamed: approximates `localeCompare(...) == 0` as string equality.
- Offsets.NormalizeVariables: takes a map's entries as given, in order and with any repeats. A real object has distinct keys and lists array-index keys first. `Offsets.NormalizeVariablesRoundTrip` therefore states the list-to-object round trip only for lists that `WritableAsObject` accepts.
- Hooks with their own state: one `Page` answers every hook call of a constructor run, and of the two runs in `Offsets.RecalculateTwice`. The runs are the part constructor's `calculate()`, the one at src/ScrollOffset.ts:176 and `#calculateOffset`'s. A `condition` or `resizeCondition` hook whose answer changes from call to call (a counter, randomness, a clock) is not covered. The "called three times" clauses of `Offsets.ScrollOffset.constructor` and the "twice" clauses of `Offsets.PreparePart` rely on this.
- Hooks configured as a non-function truthy value: `isFunction` is modelled as "the hook is present", so such a value counts as absent.
- Offsets.ScrollOffsetPart.constructor: the settings defaults (`name = ''` and the others) are the caller's job. A `PartSettings` always holds every option.
- Direction.ScrollDirection.OnScroll: `onlyFor` is given as its answer for this event. A callback returning `null` counts as false.
- The plumbing files:
  - src/BootstrapAccordionScrollIntoView.ts, src/FoundationAccordionScrollIntoView.ts and src/FixHashScrollPosition.ts only connect jQuery and DOM events to `scrollWithMarginTop`.
  - src/index.js re-exports the classes.
  - The `Bootstrap4AccordionScrollIntoView` module it imports (src/index.js:7) is not part of this model.
