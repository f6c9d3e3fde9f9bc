# useLister and useTimer in Dafny

This project models two Vue composition functions.

`useLister` (src/useLister.ts) coordinates the query of a paginated, sortable, searchable and filterable list. It owns six cells: page, limit, sort, order, search and filters. It also owns the allow-lists for limit and sort, and a query record (`_query`) that holds the committed parameters next to whatever a server payload carried (`data`, `total`, `from`, `to`, `pages`, ...). An `autoApply` lock decides whether a changed cell is written into the query straight away. On top of that sit:

- bulk operations: `apply`, `reset` and the per-cell `reset*`, `parseJson` and `parseHash`;
- derived views of the query: `records`, `isEmpty`, `total`, `from`, `to`, `pages` and `hash`;
- filter operations: `clearFilters`, `removeFilter`, `setFilter`, `toggleFilter`, `filterValue` and `filterContains`;
- option resolution: `useOptions`;
- the hash codec: `encode` and `decode`.

`useTimer` (src/useTimer.ts) is a countdown in whole seconds. Its display is `HH:MM:SS` with a leading `00:` dropped at most twice. Each interval tick takes one second off. The tick that reaches zero or below stops the interval and runs the registered callback.

Layout:

- `wrappers.dfy`: `Option`.
- `numerals.dfy`: decimal numerals and `padStart`.
- `json.dfy`: the JavaScript values the code handles, plus truthiness, `isObject`, `isVal`, property reads, `Object.assign({}, v)` and `indexOf`.
- `options.dfy`: `useOptions`.
- `codec.dfy`: `encode`/`decode`. The codec is UTF-8 (RFC 3629) followed by padded base64 (section 4 of RFC 4648).
- `filters.dfy`: `useFilter` as functions on the filter record.
- `query.dfy`: what `apply`, `reset` and `parseJson` make of the cells and the query, as functions. It also holds the derived views and the hash.
- `lister.dfy`: the class `Lister`. Its fields are the cells, the allow-lists, the query and the lock. Its methods update those fields in place, and each method is proved against the functions of `query.dfy` and `filters.dfy`.
- `timer.dfy`: the display function and the class `Countdown`.

The Vue watchers (src/useLister.ts:165-170) are modelled as the trigger hook `TriggerField`. A setter calls it at the end, and only when its cell's value changed. `clearFilters` and `resetFilters` assign a fresh object, so their watcher always runs. A truthy `toggleFilter` always changes the record, so its watcher always runs too.

## Model

| member | source | states |
|---|---|---|
| Numerals.Decimal | src/useTimer.ts:15 | `${n}` is a non-empty string of digits, one digit long exactly when n < 10 |
| Numerals.DecimalRoundTrip | src/useTimer.ts:15 | reading the numeral of n back gives n |
| Numerals.DecimalInjective | src/useTimer.ts:15 | distinct numbers have distinct numerals |
| Numerals.PadStartShape | src/useTimer.ts:15 | `padStart` keeps the string at the end and fills in front of it, up to the width and only when shorter |
| Json.TestsNest | src/useLister.ts:219-224 | `isObject` implies truthy, truthy implies `isVal`, and null passes none of the three tests |
| Json.Prop | src/useLister.ts:66-67 | a property read gives the stored value, and undefined (Null) for a missing key |
| Json.IndexedValues | src/useLister.ts:91-96 | the copy of an array holds element i under the numeral of i |
| Json.IndexedKeys | src/useLister.ts:91-96 | the copy of an array has exactly the numerals 0 to n-1 as keys |
| Json.ObjectAssign | src/useLister.ts:91-96 | `Object.assign({}, v)` copies an object's entries and gives `{}` for null, booleans, numbers and empty values; an array or string gives exactly the keys "0" to n-1, each holding its element or one-character string |
| Json.IndexOf | src/useLister.ts:332 | `indexOf` is -1 exactly when the value is absent (compared by value), and otherwise the first position holding it |
| Options.TriggerList | src/useLister.ts:231-236 | no trigger option means page, limit, sort and order only; `"all"` means every parameter; a given list is kept as it is |
| Options.UseOptions | src/useLister.ts:229-260 | each truthy option is kept; each falsy or missing one becomes its default (1, 25, "_id", "asc", "", {}); allow-lists default to empty |
| Options.ResolveIdempotent | src/useLister.ts:241-248 | resolved options resolve to themselves |
| Options.MustTriggerCases | src/useLister.ts:231-239 | `mustTriggered` holds for every parameter but search and filters with no trigger option, for all six with `"all"`, and for exactly the listed ones otherwise |
| Codec.EncodeScalar | src/useLister.ts:214 | one character becomes one to four UTF-8 bytes |
| Codec.DecodeScalar | src/useLister.ts:217 | a decoded leading sequence takes one to four bytes, and never more than there are |
| Codec.DecodeScalarSound | src/useLister.ts:217 | the bytes a decoded character takes are exactly its UTF-8 form, so overlong forms, surrogates and values above U+10FFFF are refused |
| Codec.Utf8DecodeSound | src/useLister.ts:217 | a byte string decodes only when it is the UTF-8 encoding of the result |
| Codec.DecodeEncodedScalar | src/useLister.ts:213-218 | decoding the bytes of a character gives that character and its byte count back, whatever follows them |
| Codec.Utf8RoundTrip | src/useLister.ts:213-218 | UTF-8 decoding undoes UTF-8 encoding |
| Codec.SextetValue | src/useLister.ts:217 | a base64 alphabet character decodes to the sextet that encodes to it |
| Codec.SextetRoundTrip | src/useLister.ts:214-217 | every sextet survives encoding and decoding |
| Codec.Base64Length | src/useLister.ts:214 | base64 gives four characters for each started group of three bytes |
| Codec.DecodeQuantum | src/useLister.ts:217 | a group decodes to one to three bytes, and to three when it is not the last group |
| Codec.Base64DecodeLength | src/useLister.ts:217 | only text whose length is a multiple of four decodes |
| Codec.Base64RoundTrip | src/useLister.ts:214-217 | base64 decoding undoes base64 encoding for every byte string |
| Codec.Encode | src/useLister.ts:213-215 | `encode` gives a padded base64 string, whose length is a multiple of four |
| Codec.Decode | src/useLister.ts:216-218 | a text that decodes has a length that is a multiple of four, and base64-decodes to exactly the UTF-8 bytes of the result |
| Codec.RoundTrip | src/useLister.ts:213-218 | `decode(encode(s)) == s` for every string |
| FilterRecord.Removed | src/useLister.ts:319-321 | `removeFilter` drops the key if present and touches no other key |
| FilterRecord.WithFilter | src/useLister.ts:323-325 | `setFilter` stores a truthy value and removes the key for a falsy one; other keys stay as they were |
| FilterRecord.Toggled | src/useLister.ts:327-335 | a falsy value changes nothing; otherwise only the key changes, is dropped exactly when its array was `[value]`, and otherwise holds a non-empty array |
| FilterRecord.ToggleSteps | src/useLister.ts:329-334 | push-or-splice, then store-or-remove, gives Toggled, and a key is removed only if it was present |
| FilterRecord.Value | src/useLister.ts:337-339 | `filterValue` is the stored value for a present key, and undefined (Null) for a missing one |
| FilterRecord.ContainsReadsValue | src/useLister.ts:337-346 | `filterContains` holds exactly when `filterValue` is an array that includes the value |
| FilterRecord.ToggleRemovesFirst | src/useLister.ts:332-334 | toggling a present value splices out its first occurrence, keeps the other elements in order, and drops the key when nothing is left |
| FilterRecord.ToggledMultiset | src/useLister.ts:327-335 | toggling adds one occurrence of the value to the key's array when there was none, and takes one away when there was |
| FilterRecord.ContainsAfterToggle | src/useLister.ts:341-346 | after a toggle, `filterContains` holds exactly when it did not before, or when the array held the value twice or more |
| FilterRecord.ToggleAppends | src/useLister.ts:332-334 | toggling an absent value appends it |
| FilterRecord.ToggleDropsLast | src/useLister.ts:332-334 | toggling the value that ends the array, when it occurs nowhere else, drops it again |
| FilterRecord.ToggleTwice | src/useLister.ts:327-335 | toggling the same value twice restores the record when the key was absent or held a non-empty array without the value |
| Query.Params | src/useLister.ts:109-114 | the six parameter entries: exactly the six keys, each with its cell's value |
| Query.Applied | src/useLister.ts:108-115 | `apply` sets every parameter key to its cell's value and leaves every other key as it was |
| Query.AppliedSteps | src/useLister.ts:109-114 | the six writes of `apply`, in source order, give Applied |
| Query.ApplyIdempotent | src/useLister.ts:108-115 | a second `apply` with unchanged cells changes nothing |
| Query.ResetCells | src/useLister.ts:65-107 | `reset` never stores a limit or sort outside a non-empty allow-list, always leaves order and search non-null, and keeps sort non-null |
| Query.ResetTakesNumbers | src/useLister.ts:65-79 | page takes the query's integer or the default; limit and sort take the query's integer or non-null value, or the default, whenever the allow-list accepts it |
| Query.ResetTakesTexts | src/useLister.ts:80-97 | order, search and filters take the query's non-null value, or the default; filters are a copy either way |
| Query.ResetAfterApply | src/useLister.ts:65-115 | `reset` after `apply` restores the applied cells when both allow-lists accept them and sort, order and search are not null (TextsSet); reset, `parseJson` and construction keep them non-null |
| Query.ResetIdempotent | src/useLister.ts:98-107 | resetting twice from the same query equals resetting once |
| Query.IngestCells | src/useLister.ts:120-141 | the cells after `parseJson` keep sort, order and search non-null when they were |
| Query.IngestTakesValid | src/useLister.ts:121-141 | `parseJson` moves a cell only to the payload's valid value: an integer page or limit, a truthy sort, "asc" or "desc", a non-null search, a copy of object filters; limit and sort only within their allow-lists |
| Query.Adopted | src/useLister.ts:121-141 | one parameter's block of `parseJson` leaves the other five cells alone |
| Query.AdoptedSteps | src/useLister.ts:120-141 | the six blocks in source order give IngestCells and IngestQuery |
| Query.FrontBlocks | src/useLister.ts:121-129 | the page, limit and sort blocks change only those three cells and fill in the rejected keys from the old cells |
| Query.BackBlocks | src/useLister.ts:130-141 | the order, search and filters blocks change only those three cells and fill in the rejected keys from the old cells |
| Query.FillIn | src/useLister.ts:121-141 | one fallback write: an accepted parameter leaves the query alone; a rejected one is overwritten; no other key changes |
| Query.FillAllSpec | src/useLister.ts:121-141 | after the six fallback writes, each key holds the payload's value if accepted and the cell's otherwise; other keys are the payload's |
| Query.IngestQuery | src/useLister.ts:120-141 | the query after `parseJson` is the payload, plus each rejected parameter filled in from its cell |
| Query.Ingest | src/useLister.ts:116-147 | a payload that is not an object changes nothing; after an object the query holds all six parameters; sort, order and search stay non-null |
| Query.IngestAgreement | src/useLister.ts:116-147 | after ingesting an object, query and cells agree on page, order and search; limit or sort differ only after an allow-list rejection; filters differ only for an array payload |
| Query.IngestOwnQuery | src/useLister.ts:116-147 | ingesting a query whose parameters match the cells changes neither the cells nor the query |
| Query.IngestEmpty | src/useLister.ts:159 | `parseJson({})` keeps the cells and makes the query exactly their parameters |
| Query.Records | src/useLister.ts:31-33 | `records` is the array under `data`, and empty when there is none |
| Query.IsEmpty | src/useLister.ts:30 | `isEmpty` is false exactly when `data` is a non-empty array |
| Query.IntAt | src/useLister.ts:34-45 | `total`, `from`, `to` and `pages` give the integer under their key, and 0 otherwise |
| Query.HashOf | src/useLister.ts:29 | the hash decodes back to the serialised query |
| Query.ReadOwnHash | src/useLister.ts:148-156 | when parsing undoes serialising, `parseHash`'s reading (ReadHash: decode, then parse) gives back the lister's own query from its hash |
| Query.HashDistinguishes | src/useLister.ts:29 | different queries have different hashes, even when they differ only in `data` |
| Query.HashEcho | src/useLister.ts:148-156 | feeding the lister's own hash back changes nothing when the query's parameters match the cells |
| Listing.Lister.constructor | src/useLister.ts:21-62 | the cells start at the resolved defaults, and `parseJson({})` (line 159) leaves the query holding exactly their parameters, with the lock open |
| Listing.Lister.TriggerField | src/useLister.ts:162-164 | the hook writes the key only when the lock is open and the parameter is a trigger |
| Listing.Lister.SetPage | src/useLister.ts:263-265 | any page is stored, and the hook runs iff it changed |
| Listing.Lister.SetLimit | src/useLister.ts:269-280 | a limit is stored only when the allow-list is empty or contains it, and the hook runs iff the cell changed |
| Listing.Lister.SetSort | src/useLister.ts:283-294 | a sort is stored only when the allow-list is empty or contains it; order is never touched |
| Listing.Lister.SetOrder | src/useLister.ts:297-304 | any order is stored, and the hook runs iff it changed |
| Listing.Lister.SetSearch | src/useLister.ts:307-308 | any search is stored, and the hook runs iff it changed |
| Listing.Lister.ClearSearch | src/useLister.ts:309 | search becomes "" and the hook runs iff it was not "" already |
| Listing.Lister.ClearFilters | src/useLister.ts:316 | filters become `{}` and the hook always runs |
| Listing.Lister.RemoveFilter | src/useLister.ts:319-321 | filters become Removed, and the hook runs iff the key was present |
| Listing.Lister.SetFilter | src/useLister.ts:323-325 | filters become WithFilter, and the hook runs iff the record changed |
| Listing.Lister.ToggleFilter | src/useLister.ts:327-335 | filters become Toggled, and the hook runs iff the value is truthy |
| Listing.Lister.ResetPage | src/useLister.ts:65-69 | page becomes the query's integer page, or the default |
| Listing.Lister.ResetLimit | src/useLister.ts:70-74 | the query's integer limit, or the default, goes through the allow-list |
| Listing.Lister.ResetSort | src/useLister.ts:75-79 | the query's non-null sort, or the default, goes through the allow-list |
| Listing.Lister.ResetOrder | src/useLister.ts:80-84 | order becomes the query's non-null order, or the default |
| Listing.Lister.ResetSearch | src/useLister.ts:85-89 | search becomes the query's non-null search, or the default |
| Listing.Lister.ResetFilters | src/useLister.ts:90-97 | filters become a copy of the query's non-null filters, or of the default |
| Listing.Lister.Reset | src/useLister.ts:98-107 | the cells become ResetCells, the query is unchanged, and the lock is open again |
| Listing.Lister.ResetNumbers | src/useLister.ts:100-102 | under the lock, page, limit and sort are reset and the query is untouched |
| Listing.Lister.ResetTexts | src/useLister.ts:103-105 | under the lock, order, search and filters are reset and the query is untouched |
| Listing.Lister.Apply | src/useLister.ts:108-115 | the query becomes Applied, whatever the lock and the triggers |
| Listing.Lister.Adopt | src/useLister.ts:121-141 | one parameter's block moves the cells and the query as AdoptStep says |
| Listing.Lister.AdoptBlocks | src/useLister.ts:121-141 | three consecutive blocks move the cells and the query as AdoptThree says |
| Listing.Lister.IngestObject | src/useLister.ts:120-141 | the object branch leaves IngestCells in the cells and IngestQuery as the query |
| Listing.Lister.ParseJson | src/useLister.ts:116-147 | the cells and the query become Ingest of the payload (no change for a non-object), and the lock is open again |
| Listing.Lister.ParseHash | src/useLister.ts:148-156 | a token that fails to decode or parse changes nothing; otherwise it acts as ParseJson of the parsed value |
| Timer.ClockOf | src/useTimer.ts:11-12 | the Date breakdown gives hours, minutes and seconds within one day, totalling the counter modulo 86400 |
| Timer.FieldDigits | src/useTimer.ts:14-22 | a field (Field) below 100 is two digits that read back as its value, and is "00" only for zero |
| Timer.TrimJoined | src/useTimer.ts:24-27 | trimming twice drops the leading "00" fields of the join, never the last field |
| Timer.DisplayShape | src/useTimer.ts:13-27 | the display (Display) is HH:MM:SS once there are hours, MM:SS once there are minutes, and the two seconds digits otherwise |
| Timer.FormatShape | src/useTimer.ts:10-28 | the display of every counter has that shape, 2, 5 or 8 characters long |
| Timer.DisplayRoundTrip | src/useTimer.ts:13-27 | reading a display back gives the seconds of the clock time it shows |
| Timer.FormatRoundTrip | src/useTimer.ts:10-28 | reading the counter's display (Format) back gives the counter modulo 86400 |
| Timer.FormatInjective | src/useTimer.ts:10-28 | two counters share a display only if they agree modulo one day |
| Timer.TickStep | src/useTimer.ts:29-35 | a live tick takes one second off; at zero or below it stops and runs the callback if one is registered; a stopped countdown never changes |
| Timer.RunValid | src/useTimer.ts:29-35 | any number of ticks runs the callback at most once, and never while the interval is live |
| Timer.StoppedStays | src/useTimer.ts:31-33 | once the interval is cleared, ticks change nothing |
| Timer.RunToCompletion | src/useTimer.ts:29-35 | a live countdown stops after exactly max(counter, 1) ticks and has then run its callback once |
| Timer.LateCallbackNeverRuns | src/useTimer.ts:29-39 | a callback registered after the countdown stopped never runs |
| Timer.Countdown.constructor | src/useTimer.ts:7-9 | the counter starts at the given seconds with the interval live and no callback |
| Timer.Countdown.Timer | src/useTimer.ts:10-28 | the current display reads back as the counter modulo one day |
| Timer.Countdown.Tick | src/useTimer.ts:29-35 | one interval run moves the state as TickStep says |
| Timer.Countdown.OnComplete | src/useTimer.ts:37-39 | the new callback replaces any earlier one |

## Left out

- Vue's reactivity is replaced by synchronous calls. Computed views are plain functions of the query. The watchers are a hook that a setter runs at its end. The model has no asynchronous flush, no batching of several writes into one watcher run, and no reference identity: a watcher runs when the cell's value changed, and always after a fresh-object assignment.
- Aliasing is not modelled. In the code, `filters` shares its object with `option.filters`, `_query.value = data` shares the caller's payload, and `toggleFilter` pushes into the array stored in the record. Every record here is a value.
- `JSON.stringify` and `JSON.parse` are function parameters of the hash and of `parseHash`. Their own behaviour is not part of this model, and neither are the exceptions that `parseHash` and `parseJson` swallow, beyond a failed decode or parse.
- Numbers are integers. Floating point, NaN and Infinity are not represented. `Number.isInteger` is the `Int` case. A setter typed to take a number takes an integer.
- Json.ObjectAssign: an array, which `isObject` accepts as a payload or as filters, is copied by its decimal index keys, as `Object.assign` does. A string is copied by character index. `JSON.stringify` of such a copy is not related to that of the original array.
- Query.HashOf: `JSON.stringify` writes an object's keys in insertion order, so in the code two queries with the same entries in a different key order, such as the results of `parseJson({limit: 10, page: 2})` and `parseJson({page: 2, limit: 10})`, get different hashes. Records here are maps without key order: HashOf depends on the entries only, and `stringify` is a function of the value.
- Json.Prop and FilterRecord.Value: a key missing from the record reads as undefined (Null). In the code, names inherited from `Object.prototype` are not missing: `filterValue("constructor")` gives a function. Prototype properties are not modelled.
- Codec.Decode: `window.atob` accepts some inputs this model rejects, such as missing padding and embedded whitespace. The model also does not take in lone surrogates, which `encodeURIComponent` would reject at run time.
- Timer: the millisecond argument and its `toFixed(0)` rounding are not modelled. The counter starts at whole seconds.
- Timer: the local-time `Date`, daylight-saving changes and the month and day fields are left out. The clock is the counter modulo 86400.
- Timer: `setInterval` timing is not modelled. A tick is one call of the interval body. A tick after `clearInterval` is a no-op.
- Timer: callbacks are numbered identifiers whose code lies outside the model. Running a callback appends its number to `fired`.
- Timer.DisplayShape: the shape and read-back lemmas assume each field is below 100. ClockOf guarantees this for every counter.
- src/funcs.ts and rollup.config.js are not part of this model.
- Json.IndexOf and FilterRecord.Contains: values are compared by value here, while the code's `indexOf` and `includes` compare objects and arrays by reference (`===`). In the code, toggling a fresh object literal such as `{id: 1}` twice pushes two separate objects, and `filterContains` of a fresh literal is false; the model removes the object on the second toggle and finds it.
- Points where the model follows the code as written:
  - The page and order setters store any value. Only limit and sort check an allow-list, and a limit need not be positive.
  - Setting sort never toggles or resets order.
  - The lister has no change callback and keeps no record of the last hash it read. Query.HashEcho states that reading back its own query changes nothing.
  - `parseJson` does not re-apply the cells afterwards. The query can therefore keep a limit or sort that the allow-list rejected, as Query.IngestAgreement states.
  - The hash covers the whole query, `data` and the other payload keys included.
  - `setFilter` tests truthiness, so 0 and "" remove the key too.
  - The default sort is not checked against the allow-list at construction.
