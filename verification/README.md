# Direct bulk-data URLs and measurement grouping, in Dafny

This project models two pieces of a DICOMweb medical-imaging viewer.

**`getDirectURL`** resolves a URL for one attribute of a DICOM instance, usually its
pixel data. It takes the data source's configuration (`wadoRoot`, `singlepart`) and a
request naming the instance, the attribute keyword (`tag`) and some optional defaults.
Its answer is one of:
- an explicit `url` override;
- a fallback when the attribute is absent;
- the memoised `DirectRetrieveURL`;
- an object URL registered for the attribute's `InlineBinary`, which is then memoised;
- a pending asynchronous retrieval, whose bytes are memoised as an object URL when they arrive;
- `undefined`;
- a WADO-RS URL built from the attribute's `BulkDataURI`. That URL is either the
  instance's `/rendered` resource, or the URI with an `accept=` query parameter added
  and, for series-relative URIs, the study prefix in front (DICOM PS3.18, section 10.4
  and section 8.3.3.1).

The model is in three layers:
- `DirectUrl.Decide` is the pure precedence logic.
- `DirectUrl.Resolve` carries out the chosen branch on a mutable `AttributeValue`
  object and a `BlobRegistry`, which stands for `URL.createObjectURL`.
- `DirectUrl.CompleteFetch` is the continuation that runs when a retrieval delivers
  its bytes.

JavaScript's own semantics are written out:
- the empty string is falsy;
- destructuring defaults apply only to `undefined` parameters;
- `a || b` returns the first operand if it is truthy, otherwise the second;
- `indexOf` is a substring search on strings and an element search on arrays.

**`groupByDisplaySet`** gathers measurement items into one group record per
display set (`displaySetInstanceUID`). The groups live in an insertion-ordered `Map`:
- the display-set service is asked once for each new key;
- every item is pushed onto its key's record;
- each record is the `grouping` object spread between defaults (`header`,
  `isSelected`) and the fields the function sets itself (`items`, `key`, `title`,
  `displaySet`).

`SeriesMeasurements.GroupByDisplaySet` is the loop, proved equal to a reference
definition, `Grouped`. That definition lists the keys in order of first appearance
(`FirstAppearance`) and gives each key the input items of its display set
(`ItemsFor`). The lemmas then state what the source promises about that grouping.

When the URI already has a query string, `accept=` is still added, after `&`
(getDirectURL.js lines 64-65); see `DirectUrl.AcceptUri` and
`DirectUrl.SeriesRelativeWithQuery`.

## Model

| member | source | states |
|---|---|---|
| JsString.IndexOf | extensions/default/src/utils/getDirectURL.js:62-63 | `String.prototype.indexOf`: -1 exactly when the pattern does not occur, otherwise the first position where it occurs |
| JsString.ArrayIndexOf | extensions/default/src/utils/getDirectURL.js:44 | `Array.prototype.indexOf`: -1 exactly when the element is absent, otherwise the first index holding it |
| JsString.Or | extensions/default/src/utils/getDirectURL.js:33 | `a \|\| b` on optional strings is one of its operands, and is truthy iff either operand is |
| DirectUrl.AbsentUsesFallbacks | extensions/default/src/utils/getDirectURL.js:31-34 | an absent attribute is answered by the rendered-retrieve fallback when that is truthy, else by the bulk-data fallback's value, else `undefined` |
| ObjectUrls.BlobUrlInjective | extensions/default/src/utils/getDirectURL.js:41 | distinct registrations get distinct object URLs |
| ObjectUrls.BlobRegistry.CreateObjectUrl | extensions/default/src/utils/getDirectURL.js:41 | `URL.createObjectURL` registers the blob and returns a non-empty URL never issued before |
| DirectUrl.EligibleIff | extensions/default/src/utils/getDirectURL.js:44 | direct construction is allowed iff `singlepart` is `true`, a non-empty string containing the requested part, or an array holding it |
| DirectUrl.BulkDataUriFor | extensions/default/src/utils/getDirectURL.js:60-61 | a truthy `BulkDataURI` is used as is; otherwise `series/{Series}/instances/{SOP}{defaultPath}` |
| DirectUrl.AcceptUri | extensions/default/src/utils/getDirectURL.js:62-65 | a URI naming `accept=` is unchanged; otherwise `accept=<type>` is appended after `&` if the URI has `?`, else after `?` |
| DirectUrl.AcceptAddedOnce | extensions/default/src/utils/getDirectURL.js:62-65 | when `accept=` was absent, the result holds exactly one `accept=`, just after the separator |
| DirectUrl.AcceptKept | extensions/default/src/utils/getDirectURL.js:63-65 | when `accept=` is present, the occurrences of `accept=` are exactly those of the input (no second one is added) |
| DirectUrl.AcceptUriHasAccept | extensions/default/src/utils/getDirectURL.js:62-65 | after augmentation the URI always names an accept parameter |
| DirectUrl.ConstructUrl | extensions/default/src/utils/getDirectURL.js:59-80 | `PixelData`/`EncapsulatedDocument` without `?` give the rendered resource; otherwise the accept-augmented URI, prefixed by `{wadoRoot}/studies/{Study}/` when it starts with `series` |
| DirectUrl.ConstructedUrlHasAccept | extensions/default/src/utils/getDirectURL.js:64-80 | every constructed URL other than the rendered resource carries `accept=` |
| DirectUrl.NoBulkDataUriGivesRendered | extensions/default/src/utils/getDirectURL.js:59-70 | `PixelData` or `EncapsulatedDocument` with no `BulkDataURI`, and a default path and UIDs without `?`, resolves to `{wadoRoot}/studies/{Study}/series/{Series}/instances/{SOP}/rendered` |
| DirectUrl.SeriesRelativeWithQuery | extensions/default/src/utils/getDirectURL.js:62-75 | a series-relative URI with a query and no accept gets `&accept=<type>` and the study prefix |
| DirectUrl.OverrideWins | extensions/default/src/utils/getDirectURL.js:25-29 | a truthy `url` parameter is the answer whatever the attribute holds |
| DirectUrl.CacheHit | extensions/default/src/utils/getDirectURL.js:36-38 | a truthy memoised `DirectRetrieveURL` is answered as is |
| DirectUrl.MemoisedThenCached | extensions/default/src/utils/getDirectURL.js:39-53 | after the inline or retrieval branch stores a URL, the same request goes to the cache and yields that URL |
| DirectUrl.IneligibleOutcome | extensions/default/src/utils/getDirectURL.js:44-57 | an ineligible attribute gives a pending retrieval of the default type if it can retrieve, and `undefined` otherwise |
| DirectUrl.Resolve | extensions/default/src/utils/getDirectURL.js:17-81 | the answer follows `Decide`; only the inline-binary branch writes anything: one fresh blob is registered and its URL is memoised, and every other field of the attribute is unchanged |
| DirectUrl.CompleteFetch | extensions/default/src/utils/getDirectURL.js:50-53 | the arriving bytes become a blob of the requested type, and its fresh URL is memoised and returned |
| DirectUrl.ResolveTwice | extensions/default/src/utils/getDirectURL.js:36-53 | outside the retrieval branch, resolving a request twice gives the same answer and registers at most one blob; in the retrieval branch both calls are pending retrievals of their own and nothing is registered yet |
| SeriesMeasurements.NewGroup | extensions/cornerstone/src/components/SeriesMeasurements.tsx:24-32 | a new record has the given key, the title `Series Measurements`, no items and the looked-up display set |
| SeriesMeasurements.NewGroupIsSpread | extensions/cornerstone/src/components/SeriesMeasurements.tsx:24-32 | the record is `grouping` spread over the `header`/`isSelected` defaults and under `items`/`key`/`title`/`displaySet` |
| SeriesMeasurements.SelectedIffActive | extensions/cornerstone/src/components/SeriesMeasurements.tsx:17-26 | unless `grouping` sets it, `isSelected` is true iff the key is the active display set |
| SeriesMeasurements.FirstAppearance | extensions/cornerstone/src/components/SeriesMeasurements.tsx:15-33 | the map's key order has no repeated key |
| SeriesMeasurements.FirstAppearanceKeys | extensions/cornerstone/src/components/SeriesMeasurements.tsx:19-33 | a key is listed iff some item has that display set |
| SeriesMeasurements.ItemsFor | extensions/cornerstone/src/components/SeriesMeasurements.tsx:34 | a group holds only items of its own display set, and no more items than the input |
| SeriesMeasurements.GroupByDisplaySet | extensions/cornerstone/src/components/SeriesMeasurements.tsx:14-38 | the loop builds exactly `Grouped(items)`, and the display-set service is called once per key, in key order |
| SeriesMeasurements.StepsAreGrouped | extensions/cornerstone/src/components/SeriesMeasurements.tsx:19-35 | processing the items one at a time yields the first-appearance grouping |
| SeriesMeasurements.GroupedStep | extensions/cornerstone/src/components/SeriesMeasurements.tsx:20-34 | grouping one more item is one iteration: create the record if the key is new, then push the item |
| SeriesMeasurements.EmptyInputNoGroups | extensions/cornerstone/src/components/SeriesMeasurements.tsx:15-19 | no items give an empty map |
| SeriesMeasurements.KeysAreTheDisplaySets | extensions/cornerstone/src/components/SeriesMeasurements.tsx:15-33 | keys are distinct and are exactly the input's display sets, and each record's `key` is its map key with the fixed title |
| SeriesMeasurements.KeysInFirstAppearanceOrder | extensions/cornerstone/src/components/SeriesMeasurements.tsx:22-33 | an item of a later key is preceded by some item of every earlier key |
| SeriesMeasurements.ItemsForKeepsOrder | extensions/cornerstone/src/components/SeriesMeasurements.tsx:34 | a group's items are exactly its display set's input items, at ascending input positions |
| SeriesMeasurements.EachItemInItsOwnGroup | extensions/cornerstone/src/components/SeriesMeasurements.tsx:19-34 | every item is in the group of its own display set and in no other |
| SeriesMeasurements.GroupSizesSumToInput | extensions/cornerstone/src/components/SeriesMeasurements.tsx:19-34 | the sizes of the returned groups' `items`, over the map's keys, add up to the number of items |
| SeriesMeasurements.TotalSizeIsLength | extensions/cornerstone/src/components/SeriesMeasurements.tsx:19-34 | the per-key item lists over the first-appearance keys have sizes adding up to the number of items |

## Left out

- `createRenderedRetrieve` and `getBulkdataValue` are neither defined nor imported in `getDirectURL.js`. They are the parameters `Fallbacks.renderedRetrieve` and `Fallbacks.bulkdataValue`, functions returning an optional string.
- `utils.b64toBlob`: no base64 decoding is modelled. The blob records the base64 text and the media type.
- `URL.createObjectURL` is a counter-based allocator (`blob:` followed by a decimal number). It does not model browser UUIDs or revocation.
- `retrieveBulkData`: the network request is not modelled. `Resolve` returns `Pending(mediaType)`, and `CompleteFetch` takes the arriving bytes as a parameter. A rejected promise simply never reaches `CompleteFetch`.
- Concurrent resolutions of the same uncached attribute each start their own retrieval. Interleavings of continuations are not modelled.
- `console.warn` has no observable effect on the result and is left out.
- Parameters and attribute fields are modelled as strings or `undefined`. Other JavaScript values (`null` parameters, numbers, objects in `BulkDataURI`) are not modelled. A `singlepart` configuration is `false`, `true`, a string or an array of strings.
- `DirectUrl.NoBulkDataUriGivesRendered`: requires the Series and SOP UIDs and the default path to contain no `?`. DICOM UIDs are digits and dots, but the code does not check this.
- Strings are sequences of characters. UTF-16 code units and surrogate pairs are not distinguished.
- `SeriesMeasurements.SelectedIffActive`: the source compares with loose equality (`==`). The model compares the active display set as a JavaScript value with the string key, so the coercion of a number or boolean to a matching string is not captured.
- `displaySetInstanceUID` is modelled as a string. Items without one, which would share the `undefined` key, are not modelled.
- The display-set service is the function parameter `lookup`. The ghost result `lookups` records the calls made to it.
- The group records are values in a map, so the in-place `push` on a record's `items` array is modelled by replacing the record. Sharing of `grouping`'s nested objects between records (a shallow spread) is not modelled.
- `SeriesMeasurementItem`, `SeriesMeasurements` and the rest of `SeriesMeasurements.tsx` are React rendering and hooks, and are not part of this model. `extensions/cornerstone-dicom-sr/src/commandsModule.ts` and the other panel components are also not part of this model.
- DirectUrl.ResolveTwice: in the retrieval branch it promises only that both calls are pending, because each call starts its own retrieval and each continuation later registers a different object URL.
