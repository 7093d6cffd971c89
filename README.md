# Date-overwrite plugin for the RDFa editor, in Dafny

This project models the two pieces of decision logic in the date-overwrite plugin of the RDFa editor:

- **The detection pass.** This is the `RdfaEditorDateOverwritePlugin` service. It scans the RDFa blocks of an editor event and keeps those whose last triple is typed `http://www.w3.org/2001/XMLSchema#date` or `...#dateTime`. It builds one hint per kept block and talks to the hints registry: first it retracts its old hints, then it publishes the new ones if there are any.
- **The edit card.** This is the `EditorPluginDateOverWriteCardComponent`. It holds one raw value, `_date`, and derives the hour, minute, date and validity projections from it. Three setters rewrite `_date`. A search finds the date node in a region. The commit (`insert`) remaps the hint's location, removes stale hints and replaces the node.

Modules:

- `Wrappers` holds `Option`, which stands for `null`/`undefined`.
- `Decimal` holds the decimal rendering `${n}` and the `Number(s)` coercion of digit strings, with the round-trip lemma.
- `Strings` holds `indexOf` and `replace` with a string pattern.
- `Moments` is the slice of the `moment` library the plugin uses. A moment is `Option<ValidMoment>`, where `None` is an invalid moment. A valid moment is a record: an abstract day number, then hour, minute, second and millisecond, each kept in range. Parsing, `toISOString` and the three display formats are the fields of a `MomentLib` record. Every operation takes that record as a parameter, so every result holds for any such library. The hour and minute setters carry overflow into the day, as JavaScript's `Date` setters do.
- `Rdfa` holds what the host editor supplies: triples, blocks, regions, semantic nodes and contexts.
- `DateOverwritePlugin` models the service. `Execute` returns the registry calls it makes, in order.
- `DateOverwriteCard` models the card. The projections and state transitions are pure functions of `(lib, info, _date)`. The class `DateOverwriteCardComponent` holds `info` and `_date` (here `date`), and its methods are specified by those functions. `Insert` returns the registry and editor calls it makes, in order.

Two library facts are explicit hypotheses on the lemmas that need them, never assumptions:

- `RoundTrips(lib)`: parsing what `toISOString` produced gives back the same moment.
- `IsoIsTimestamp(lib)`: `toISOString` output is at least 24 characters long.

Facts of the code that a reader might not expect:

- `isRelevant` compares the datatype with the two full URIs and does no `xsd:` alias expansion (`ShortFormNotRelevant`). Only the card's node search expands the alias.
- `insert` asks the registry to remap the location before the unchanged-value check, not after. The check compares the ISO string of `updatedDate` with the raw hint value, not two canonical timestamps. See "Findings".
- When `_date` is valid, `hours` and `minutes` are always non-empty strings ("0" is truthy). So `isValidInput` is true exactly when `_date` is valid, even for a date-time card (`ValidInputIffValidValue`): a valid date-time input with an unset hour or minute cannot arise.
- The node search takes the first matching context in the order `getContexts` returns them. There is no ascent through parent nodes and no "earlier range wins" tie-break.

## Model

| member | source | states |
|---|---|---|
| `DateOverwritePlugin.Execute` | addon/services/rdfa-editor-date-overwrite-plugin.js:47-58 | The first call is always `removeHints({rdfaBlocks, hrId, scope: COMPONENT_ID})`. The only other call is `addHints(hrId, COMPONENT_ID, hints)`, with exactly the hints of the relevant blocks in order. It happens iff some block is relevant. |
| `DateOverwritePlugin.HintsAppend` | addon/services/rdfa-editor-date-overwrite-plugin.js:50-54 | The hints of concatenated block lists are the concatenated hints, so block order is preserved. |
| `DateOverwritePlugin.HintsOfOne` | addon/services/rdfa-editor-date-overwrite-plugin.js:51-53 | A relevant block contributes exactly its own hint. An irrelevant block contributes nothing. |
| `DateOverwritePlugin.HintsNonEmptyIff` | addon/services/rdfa-editor-date-overwrite-plugin.js:55-57 | The hint list is non-empty iff at least one block is relevant. |
| `DateOverwritePlugin.HintsAreRelevantBlocks` | addon/services/rdfa-editor-date-overwrite-plugin.js:50-54 | Every relevant block's hint is in the output, and every hint in the output is the hint of a relevant block. |
| `DateOverwritePlugin.RelevanceOnlyLastTriple` | addon/services/rdfa-editor-date-overwrite-plugin.js:68-77 | Relevance depends only on the last triple of the block's context. |
| `DateOverwritePlugin.ShortFormNotRelevant` | addon/services/rdfa-editor-date-overwrite-plugin.js:70-75 | A last triple typed `xsd:date` or `xsd:dateTime` is not relevant, because no alias is expanded here. |
| `DateOverwritePlugin.PublishedHintShape` | addon/services/rdfa-editor-date-overwrite-plugin.js:90-107 | Each published hint has card `COMPONENT_ID`, `noHighlight`, the pass's `hrId` and one of the two date datatypes. For some relevant block it also has: `location` and `info.location` equal to the block's region, `info.value` and `info.datatype` equal to the last triple's object and datatype, and `info.plainValue` equal to the block's text or `''`. |
| `DateOverwriteCard.CardKindOfPublishedHint` | addon/components/editor-plugins/date-overwrite-card.js:36-39 | A card on a published hint is a date-time card iff the datatype is the full `#dateTime` URI, and otherwise a date card with the full `#date` URI. |
| `DateOverwriteCard.ShortFormNotDateTime` | addon/components/editor-plugins/date-overwrite-card.js:36-39 | A hint typed with the short form `xsd:dateTime` does not make a date-time card, because `isDateTime` expands no alias. |
| `DateOverwriteCard.UpdatedDate` | addon/components/editor-plugins/date-overwrite-card.js:73-76 | `updatedDate` is null exactly when `_date` is not valid. Otherwise it is the moment parsed from `_date`. |
| `DateOverwriteCard.Hours` | addon/components/editor-plugins/date-overwrite-card.js:53-56 | `hours` is null exactly when `_date` is not valid. Otherwise it is the `${n}` rendering of the hour of `updatedDate`: a non-empty digit string with no leading zero whose numeric value is that hour. |
| `DateOverwriteCard.Minutes` | addon/components/editor-plugins/date-overwrite-card.js:63-66 | `minutes` is null exactly when `_date` is not valid. Otherwise it is the `${n}` rendering of the minute of `updatedDate`: a non-empty digit string with no leading zero whose numeric value is that minute. |
| `DateOverwriteCard.ValidInputIffValidValue` | addon/components/editor-plugins/date-overwrite-card.js:46-51 | `isValidInput` holds iff `_date` is valid, and `isInvalidInput` is its negation. This holds for date and date-time cards alike. |
| `DateOverwriteCard.SetHoursChangesOnlyHour` | addon/components/editor-plugins/date-overwrite-card.js:58-61 | On a valid `_date`, a numeric hour `n` changes only the hour, with overflow carried into the date. For `n < 24` the new `hours` reads `n` and `minutes` is unchanged. |
| `DateOverwriteCard.SetMinutesChangesOnlyMinute` | addon/components/editor-plugins/date-overwrite-card.js:68-71 | On a valid `_date`, a numeric minute `n` changes only the minute, carrying into the hour. For `n < 60` the new `minutes` reads `n` and `hours` is unchanged. |
| `DateOverwriteCard.SettersOnInvalidDate` | addon/components/editor-plugins/date-overwrite-card.js:58-71 | On an invalid `_date`, a non-empty argument leaves `_date` null, because `toISOString` of an invalid moment is null. |
| `DateOverwriteCard.SettersIgnoreNaN` | addon/components/editor-plugins/date-overwrite-card.js:58-71 | A non-numeric argument leaves the moment unchanged. |
| `DateOverwriteCard.UpdateDateKeepsTime` | addon/components/editor-plugins/date-overwrite-card.js:160-167 | A valid picked date becomes the new date. Its hours and minutes are those of the old `_date`, or 0 for each when that was not valid. |
| `DateOverwriteCard.FirstDateIndexFrom` | addon/components/editor-plugins/date-overwrite-card.js:137-146 | Returns the first index at or after `from` whose node has a non-empty datatype that expands to a date type. It returns nothing iff there is no such index. |
| `DateOverwriteCard.FirstMatchingDateNode` | addon/components/editor-plugins/date-overwrite-card.js:134-150 | Returns the semantic node of the first matching context in list order. It returns nothing iff no context matches, and a node with no attributes or datatype never matches. |
| `DateOverwriteCard.DateTypeSpellings` | addon/components/editor-plugins/date-overwrite-card.js:136-145 | A datatype matches after replacing its first `xsd:` iff it is `xsd:date`, `xsd:dateTime` or one of the two full URIs. |
| `DateOverwriteCard.ShortFormsExpand` | addon/components/editor-plugins/date-overwrite-card.js:145 | `xsd:date` and `xsd:dateTime` expand to the full URIs. |
| `DateOverwriteCard.FullFormsUnchanged` | addon/components/editor-plugins/date-overwrite-card.js:145 | The full URIs contain no `xsd:` and expand to themselves. |
| `DateOverwriteCard.ReplacementContent` | addon/components/editor-plugins/date-overwrite-card.js:121-158 | A date replacement shows the long date and stores the calendar date. A date-time replacement stores the ISO timestamp of `updatedDate` itself. Given the round trip, it shows that moment's long date and time. |
| `DateOverwriteCard.InsertProtocol` | addon/components/editor-plugins/date-overwrite-card.js:169-190 | On invalid input there are no calls. Otherwise the remap comes first, and an unchanged ISO value stops there. A changed value then removes the hints at the mapped location, looks up contexts at the mapped location, and makes one replacement iff a date node is found. It takes the date-time branch iff `isDateTime`. |
| `DateOverwriteCard.InsertReplacesAtMostOnce` | addon/components/editor-plugins/date-overwrite-card.js:177-188 | A replacement call can only be the last call. |
| `DateOverwriteCard.UntouchedDateStillRewritten` | addon/components/editor-plugins/date-overwrite-card.js:175 | Take a hint value shorter than an ISO timestamp, such as a plain date, and commit it unedited. The hints are still removed and the node is looked up for replacement. |
| `DateOverwriteCard.InsertCallsCorrected` | addon/components/editor-plugins/date-overwrite-card.js:169-190 | With the unchanged-value check done on parsed moments: invalid input makes no call; a value denoting the same moment as the hint's value (seeded, or edited and put back) only remaps; a value denoting another moment remaps, removes the hints at the mapped location, looks the node up there and replaces it once when a date node is found. |
| `DateOverwriteCard.CorrectedStillRewritesEdits` | addon/components/editor-plugins/date-overwrite-card.js:175-190 | Under the corrected check, an edited hint, such as a plain date `2020-01-01` moved to another day, is still removed and rewritten. |
| `DateOverwriteCard.CorrectedAgreesOnIsoValues` | addon/components/editor-plugins/date-overwrite-card.js:175 | On hint values the library itself serialised, the corrected check and the written check make the same calls. |
| `DateOverwriteCard.DateOverwriteCardComponent.constructor` | addon/components/editor-plugins/date-overwrite-card.js:30 | `_date` starts null. |
| `DateOverwriteCard.DateOverwriteCardComponent.DidReceiveAttrs` | addon/components/editor-plugins/date-overwrite-card.js:78-82 | `_date` becomes `info.value` when that value is valid. Otherwise `_date` is unchanged. |
| `DateOverwriteCard.DateOverwriteCardComponent.SetHours` | addon/components/editor-plugins/date-overwrite-card.js:58-61 | An empty argument leaves `_date` unchanged. Otherwise `_date` becomes the ISO form of the moment with its hour set. |
| `DateOverwriteCard.DateOverwriteCardComponent.SetMinutes` | addon/components/editor-plugins/date-overwrite-card.js:68-71 | An empty argument leaves `_date` unchanged. Otherwise `_date` becomes the ISO form of the moment with its minute set. |
| `DateOverwriteCard.DateOverwriteCardComponent.UpdateDate` | addon/components/editor-plugins/date-overwrite-card.js:160-167 | An invalid value leaves `_date` unchanged and returns nothing. A valid one sets `_date` and returns the new `updatedDate`. |
| `DateOverwriteCard.DateOverwriteCardComponent.Insert` | addon/components/editor-plugins/date-overwrite-card.js:169-190 | The calls made are exactly those of `InsertCalls` on the card's current state. |
| `Moments.WithHour` | addon/components/editor-plugins/date-overwrite-card.js:60 | Setting the hour keeps the minute, second and millisecond and preserves the total hour count from the day's start. A value below 24 sets only the hour. |
| `Moments.WithMinute` | addon/components/editor-plugins/date-overwrite-card.js:70 | Setting the minute keeps the second and millisecond and preserves the total minute count. A value below 60 sets only the minute. |
| `Decimal.NatToString` | addon/components/editor-plugins/date-overwrite-card.js:55 | `${n}` is a non-empty digit string with no leading zero. |
| `Decimal.NumberOfNatToString` | addon/components/editor-plugins/date-overwrite-card.js:154 | `Number` of `${n}` is `n`. This is why the date-time branch re-applies the card's own hours and minutes unchanged. |

## Findings

| source | as written | input that shows it | evidently intended | confidence | as-written member | corrected member |
|---|---|---|---|---|---|---|
| addon/components/editor-plugins/date-overwrite-card.js:175 | `this.updatedDate.toISOString() !== this.info.value` compares a full ISO timestamp with the raw hint value | a date hint with value `2020-01-01`, committed unedited: `toISOString` gives a 24-character timestamp, which never equals the value | an unedited value is recognised as unchanged, so the stale-hint removal and node replacement are skipped | medium, not executed | `DateOverwriteCard.UntouchedDateStillRewritten` | `DateOverwriteCard.InsertCallsCorrected` |

`DateOverwriteCardComponent.Insert` models the code as written. `InsertCallsCorrected` compares the parsed `updatedDate` with the parsed hint value. `CorrectedAgreesOnIsoValues` shows that the two checks differ only on hint values not already in the library's ISO form. `CorrectedStillRewritesEdits` shows that the corrected check still commits every edit that changes the moment. No other part of the model depends on what `insert` returns.

## Left out

- The registry and editor references in a hint's `info` are left out; `Host` stands for them in `Insert`.
- The hints registry and editor internals (`removeHints`, `addHints`, `updateLocationToCurrentIndex`, `removeHintsAtLocation`, `getContexts`, `replaceNodeWithHTML`) are outside the plugin. Registry calls are recorded in the returned call list. The two queries are the functions of a `Host` value, so the model assumes registry removals do not change what `getContexts` returns.
- `moment` internals are left out: parsing, ISO serialisation, time zones and daylight-saving shifts. The locale formats `LL` and `LL, LT` and the `YYYY-MM-DD` format are the uninterpreted fields of `MomentLib`. The setters' overflow is modelled on local wall-clock time.
- `hours`, `minutes` and `updatedDate` pass `this.rdfaDateformat`, a misspelt, undefined property, as the parse format. The model parses `_date` with the library's default parser, which is what an undefined format does.
- DOM cloning and `outerHTML`: a replacement is recorded as a `Markup` value (the base node, its new text content, its new `content` attribute). Serialising it is the host's job.
- `rdfsPropertyObject` and `propertyLabel` need an Ember Data store lookup. `placeholder` reads the current clock. Both are left out.
- Ember reactivity (`@computed`, `@reads`, `@alias`, `@not`, `@service`) is replaced by plain functions of the card's state. `DidReceiveAttrs` includes the framework's assignment of the new attributes to `info`.
- `console.log` in `updateDate` is left out.
- `generateHint` reads `triple.content` into locals it never uses. The model does not carry them.
- The service has no restartable task and no cancellation code, although a doc comment mentions one. So there is no concurrency to model.
- `Decimal.ToNumber`: models `Number(s)` only for digit strings, where `""` gives 0. Signs, fractions, exponents, hexadecimal and surrounding blanks are read as `NaN`, while JavaScript accepts them.
- `DateOverwriteCard.DateOverwriteCardComponent.SetHours`: the argument is modelled as text. It is falsy only when empty, so a `null` or `undefined` argument, or a numeric argument such as 0, is not represented.
- `DateOverwriteCard.DateOverwriteCardComponent.SetMinutes`: the argument is modelled as text. It is falsy only when empty, so a `null` or `undefined` argument, or a numeric argument such as 0, is not represented.
- `DateOverwriteCard.DateOverwriteCardComponent.UpdateDate`: the argument is modelled as text that the library parses. A JavaScript `Date` from a date picker is not represented, and neither is `undefined`, which `moment` reads as the current time (a valid moment).
- `DateOverwriteCard.DateOverwriteCardComponent.Insert`: every semantic node is modelled with a DOM node. In the source, a found node without `domNode` throws at `cloneNode`, after `removeHintsAtLocation` has already run. That failure path is not modelled.
- `DateOverwritePlugin.Execute`: requires every block to have a non-empty context. On an empty context the source throws while reading `.datatype` of `undefined`, after `removeHints` has already run.
- The code has no node locator walking up parent links, no "earlier range wins" tie-break and no separate `insertDateTime` action; none of these is part of this model.
