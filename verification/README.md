# Users admin: validation, route-query sync and list-query codec in Dafny

This project models the logic core of a small Vue user-management admin
application, as pure functions over immutable values:

- **Form validation (`useValidate`).** A form state holds the values, the error
  messages and the touched flags, and a schema gives each field an ordered
  rule chain. `validateField` stops at the first failing rule and records
  its message. `validateAll` validates every schema key and then reports
  whether any schema key holds a truthy message. `setValues` and `setField`
  change only the values, and `touchField` and `touchAll` only the touched
  flags. `reset` replaces all three parts.
  The two built-in rules are `required` and `email`. The `email` rule's
  regular expression `^[^\s@]+@[^\s@]+\.[^\s@]+$` is stated as a predicate
  over the string and is decided by a direct shape check proved to accept
  exactly the same strings.
- **Route-query sync (`useRouteQuerySync`).**
  - `normalizeQuery` reads every entry as one string and drops the empty ones.
  - `queryEqual` is order-independent equality. It is proved to hold
    exactly when the two maps are equal.
  - The only state is the snapshot of the last query written to the route.
  - The two sync operations, `syncFromRoute` and `syncToRoute`, return
    their calls to `replaceQuery` and `onRouteChange` as effects.
  - A small world (route, consumer state, snapshot) reacts to those effects.
    Sequences of navigations, state changes and sync calls are replayed in
    it. This proves echo suppression, that the suppression is spent after
    one use, and that external changes propagate. The call sequence
    `syncFromRoute`, `syncToRoute`, `syncFromRoute`, started with no
    write of the synchroniser outstanding, leaves the route canonical.
  - A consumer wired with watchers, as the usage example at the end of
    the file wires the users page, runs that sequence only when
    `syncFromRoute` changed its state. If the state already was the
    parsed route, the route keeps whatever form it had, canonical or not.
- **Users list-query codec (`userQueries`).**
  - `parseUsersQuery` is total: page and limit are read with `parseIntClamp`
    (defaults 1 and 40), and the search is trimmed.
  - `buildUsersQuery` writes only the fields that differ from their defaults.
  - The JavaScript conversions the codec relies on are modelled:
    `Number.parseInt(s, 10)`, `String(n)`, `String.prototype.trim` and
    `String(v)`.
  - Proved: build-then-parse is the identity on the states parse can
    produce. Combined with the synchroniser, a route change that changes
    the users list state ends with the route showing the canonical query
    (`UsersWatchedRouteChange`).
    A non-canonical route such as `?limit=40` that arrives while the list
    already holds the defaults stays as it is.
- **Debounced ref (`useDebouncedRef`).** This is an event machine with three
  events: a write to the source, the pending timer firing, and the owner
  unmounting. Proved: writes never publish, the last write wins, and after
  disposal the debounced value is frozen.

Modules: `Wrappers` (Option), `JsText` (trim), `JsNumber` (parseInt and
String for integers), `JsValue` (loose values, `toQueryString`,
`String(v)`), `Validate`, `Rules`, `RouteQuerySync`, `UsersQuery`,
`UsersRouteSync` and `Debounce`.

## Model

| member | source | states |
|---|---|---|
| Validate.Create | src/shared/composables/useValidate.ts:24-30 | a fresh form holds the initial values, no errors and nothing touched |
| Validate.SetValues | src/shared/composables/useValidate.ts:32-34 | replaces the value record and leaves errors and touched flags alone |
| Validate.SetField | src/shared/composables/useValidate.ts:36-38 | the key now holds the new value; every other key keeps its value (or stays absent); errors and touched are untouched, so no validation runs |
| Validate.FirstError | src/shared/composables/useValidate.ts:50-56 | the chain yields no error iff every rule passes; otherwise the message is the one from the first failing rule, and every earlier rule passed |
| Validate.LaterRulesNotConsulted | src/shared/composables/useValidate.ts:50-56 | once a chain fails, appending rules after it does not change the reported message |
| Validate.ValidateField | src/shared/composables/useValidate.ts:40-61 | answers true iff the key has no error afterwards, iff every rule of its chain (none when the schema has no rules for it) passes on the current value and all values; on failure the recorded message is the first failing rule's; values, touched flags and every other key's error are unchanged |
| Validate.ValidateFieldIdempotent | src/shared/composables/useValidate.ts:40-61 | validating the same field twice gives the same answer and state as once |
| Validate.ValidateFieldRecords | src/shared/composables/useValidate.ts:40-61 | the state after `validateField` is the old state with the chain's outcome recorded under the key, whether or not the schema has rules for it |
| Validate.RecordsCommute | src/shared/composables/useValidate.ts:43-45 | recording outcomes under two different keys gives the same error map in either order |
| Validate.ValidateFieldsCommute | src/shared/composables/useValidate.ts:63-67 | validating two different fields in either order gives the same state, so the visiting order of `validateAll` is irrelevant |
| Validate.ValidateSchemaKeys | src/shared/composables/useValidate.ts:64-67 | after visiting every schema key, each schema key's error is what validating it alone gives; keys outside the schema keep their errors; values and touched flags are unchanged |
| Validate.ValidateAll | src/shared/composables/useValidate.ts:63-69 | the errors are those of `ValidateSchemaKeys`, and the answer is true iff no schema key holds a non-empty message |
| Validate.EmptyMessagePassesValidateAll | src/shared/composables/useValidate.ts:68 | a rule failing with the empty message makes `validateField` answer false while the `validateAll` test still passes |
| Validate.ValidateAllStrict | src/shared/composables/useValidate.ts:63-69 | corrected `validateAll`: true iff `validateField` answers true for every schema key |
| Validate.TouchField | src/shared/composables/useValidate.ts:71-73 | the key is marked true, other flags keep their values, values and errors are unchanged |
| Validate.TouchAll | src/shared/composables/useValidate.ts:75-80 | the touched keys become exactly the value keys, all true; values and errors are unchanged |
| Validate.TouchFieldAfterTouchAll | src/shared/composables/useValidate.ts:71-80 | after `touchAll`, touching a key that has a value changes nothing, and touching one without a value adds only that flag |
| Validate.Reset | src/shared/composables/useValidate.ts:82-86 | errors and touched flags are cleared; the values become `next` when given, and otherwise the state equals a fresh form over the initial values |
| Rules.Required | src/shared/composables/useValidate.ts:102-106 | the rule fails iff the value is undefined, null, or a string made only of whitespace, and its message is the given one |
| Rules.IndexOf | src/shared/composables/useValidate.ts:108 | the first occurrence of a character, or none when it does not occur |
| Rules.EmailShapeSound | src/shared/composables/useValidate.ts:108 | every string the shape check accepts matches `^[^\s@]+@[^\s@]+\.[^\s@]+$` |
| Rules.PatternParts | src/shared/composables/useValidate.ts:108 | a pattern match contains no whitespace and no `@` apart from the separator |
| Rules.EmailShapeComplete | src/shared/composables/useValidate.ts:108 | every string the pattern matches passes the shape check |
| Rules.EmailShapeMatchesPattern | src/shared/composables/useValidate.ts:108 | the shape check and the pattern accept the same strings |
| Rules.Email | src/shared/composables/useValidate.ts:110-113 | the rule passes iff the value is undefined, null, the empty string, or its trimmed `String(v)` matches the pattern; otherwise it fails with the given message |
| Rules.RequiredBeforeEmail | src/shared/composables/useValidate.ts:50-56 | with `[required, email]` on an empty string the field fails with the `required` message |
| JsText.TrimStart | src/entities/user/model/userQueries.ts:20 | the result is a suffix of the input, everything removed is whitespace, and the result does not start with whitespace |
| JsText.TrimEnd | src/entities/user/model/userQueries.ts:29 | the result is a prefix of the input, everything removed is whitespace, and the result does not end with whitespace |
| JsText.Trim | src/entities/user/model/userQueries.ts:29 | the result has no whitespace at either end, and it is empty iff the input is all whitespace |
| JsText.CutBothEnds | src/entities/user/model/userQueries.ts:29 | helper, no behaviour of its own: cutting whitespace off the front and then off the back leaves an infix of the input with only whitespace around it |
| JsText.TrimIsInfix | src/entities/user/model/userQueries.ts:29 | the trimmed string occurs inside the input with only whitespace around it |
| JsText.TrimFixedPoint | src/entities/user/model/userQueries.ts:29 | trimming leaves a string unchanged iff it has no whitespace at either end |
| JsText.TrimIdempotent | src/shared/composables/useValidate.ts:112 | trimming twice is trimming once |
| JsText.TrimStartSkipsWhitespace | src/entities/user/model/userQueries.ts:20 | leading whitespace is skipped completely |
| JsNumber.DigitChar | src/entities/user/model/userQueries.ts:35 | a digit below ten becomes its decimal character |
| JsNumber.DigitsOf | src/entities/user/model/userQueries.ts:35 | the decimal form of a natural number is a non-empty run of digits, with no leading zero unless the number is 0 |
| JsNumber.DigitsRoundTrip | src/entities/user/model/userQueries.ts:35 | reading back the decimal digits of `n` gives `n` |
| JsNumber.NumberToString | src/entities/user/model/userQueries.ts:35-36 | `String(n)` of an integer is non-empty: all digits, or a minus sign followed by digits; its value and the absence of leading zeros are stated by `NumberToStringDigits` |
| JsNumber.NumberToStringDigits | src/entities/user/model/userQueries.ts:35-36 | the digits of `String(n)` denote `\|n\|`, and the first digit is `0` only for `n == 0`, so `String(7)` is `"7"` and never `"07"` |
| JsNumber.DigitRun | src/entities/user/model/userQueries.ts:20 | the length of the longest leading run of digits |
| JsNumber.ParseDigits | src/entities/user/model/userQueries.ts:20 | reading digits succeeds iff the string starts with a digit |
| JsNumber.ParseSignedNeedsDigit | src/entities/user/model/userQueries.ts:20 | the signed reader succeeds only on a string that contains a digit |
| JsNumber.ParseInt | src/entities/user/model/userQueries.ts:20 | the definition is the model of `Number.parseInt(s, 10)`: skip leading whitespace, read an optional sign (`ParseSigned`), then the longest digit run; no digits give NaN (`None`). Its contract is carried by `ParseIntNeedsDigit`, `ParseIntOfRun`, `ParseIntOfNegativeRun` and `ParseIntSkipsWhitespace` |
| JsNumber.ParseIntNeedsDigit | src/entities/user/model/userQueries.ts:20-21 | `parseInt` gives NaN on a string without digits |
| JsNumber.DigitRunOfDigits | src/entities/user/model/userQueries.ts:20 | a digit run followed by a non-digit, or by nothing, is read to its end |
| JsNumber.ParseDigitsOfRun | src/entities/user/model/userQueries.ts:20 | the digit reader gives the value of such a run |
| JsNumber.NoLeadingWhitespace | src/entities/user/model/userQueries.ts:20 | a string starting with a digit or a minus sign is not trimmed |
| JsNumber.ParseSignedOfRun | src/entities/user/model/userQueries.ts:20 | an unsigned digit run is read as its value |
| JsNumber.ParseIntOfRun | src/entities/user/model/userQueries.ts:20 | `parseInt` of an unsigned digit run gives its value, whatever non-digit follows |
| JsNumber.ParseSignedMinus | src/entities/user/model/userQueries.ts:20 | helper, no behaviour of its own: after a leading minus sign, the digits that follow are read and negated |
| JsNumber.ParseSignedOfNegativeRun | src/entities/user/model/userQueries.ts:20 | a minus sign and a digit run are read as the negated value |
| JsNumber.ParseIntOfNegativeRun | src/entities/user/model/userQueries.ts:20 | `parseInt` of a minus sign and a digit run gives the negated value |
| JsNumber.ParseIntOfNumberToString | src/entities/user/model/userQueries.ts:20 | `parseInt(String(n) + rest) == n` for every integer `n`, when `rest` does not start with a digit |
| JsNumber.ParseIntSkipsWhitespace | src/entities/user/model/userQueries.ts:20 | leading whitespace does not change what `parseInt` reads |
| JsValue.Get | src/entities/user/model/userQueries.ts:27-29 | a missing key reads as undefined, and a present key reads as its value |
| JsValue.ToQueryString | src/entities/user/model/userQueries.ts:10-15 | a string reads as itself, and an array whose first element is a string reads as that element; a non-empty result comes only from those two cases |
| JsValue.JoinWithCommaSnoc | src/shared/composables/useValidate.ts:112 | joining with one more part puts a single comma between the previous join and the new part |
| JsValue.JsStringArrSnoc | src/shared/composables/useValidate.ts:112 | `String(v)` of an array with one more element is the shorter array's string, a comma, and the new element's string, with `undefined` and `null` giving `""` |
| JsValue.JsString | src/shared/composables/useValidate.ts:112 | the definition is the model of `String(v)`: a string is itself, an array joins its elements' strings with commas, with `undefined` and `null` elements giving `""`. Its contract is carried by `JsStringBasics` and `JsStringArrSnoc` |
| JsValue.JsStringBasics | src/shared/composables/useValidate.ts:112 | `String(v)` of a string is the string, of an empty array is `""`, and of a one-element array is its element's string, with `undefined` and `null` elements giving `""` |
| RouteQuerySync.NormalizeQuery | src/shared/composables/useRouteQuerySync.ts:4-16 | the result has no empty value; a key is kept iff its entry reads as a non-empty string, and it maps to that string |
| RouteQuerySync.NormalizeFixesSparse | src/shared/composables/useRouteQuerySync.ts:13 | a string query is its own normal form iff none of its values is empty |
| RouteQuerySync.NormalizeIdempotent | src/shared/composables/useRouteQuerySync.ts:4-16 | normalising twice is normalising once |
| RouteQuerySync.NormalizeReadsOnlyQueryStrings | src/shared/composables/useRouteQuerySync.ts:6-13 | every key reads as the same string in the normal form as in the raw query |
| RouteQuerySync.SameSizeSubset | src/shared/composables/useRouteQuerySync.ts:21-22 | helper, no behaviour of its own: a key set included in another of the same size equals it |
| RouteQuerySync.QueryEqual | src/shared/composables/useRouteQuerySync.ts:18-23 | true iff the two queries are equal maps, whatever their key order |
| RouteQuerySync.SyncFromRoute | src/shared/composables/useRouteQuerySync.ts:38-48 | the snapshot is always cleared; no call is made iff the snapshot equals the normalised route, and otherwise exactly one `onRouteChange` with the parsed raw route |
| RouteQuerySync.SyncToRoute | src/shared/composables/useRouteQuerySync.ts:50-57 | nothing changes when the built query normalises to the normalised route; otherwise the normalised built query becomes the snapshot and exactly one `replaceQuery` with the built query is made |
| RouteQuerySync.ReplayAppend | src/shared/composables/useRouteQuerySync.ts:36-57 | helper, no behaviour of its own: replaying two event sequences one after the other is replaying their concatenation |
| RouteQuerySync.NextFromRoute | src/shared/composables/useRouteQuerySync.ts:38-48 | one `syncFromRoute` in the world drops the echo of the snapshot and otherwise installs the parsed route |
| RouteQuerySync.NextToRoute | src/shared/composables/useRouteQuerySync.ts:50-57 | one `syncToRoute` in the world either does nothing or writes the built query and makes the route show it |
| RouteQuerySync.EchoSuppressed | src/shared/composables/useRouteQuerySync.ts:38-57 | when `syncToRoute` writes, the following `syncFromRoute` makes no call: the single call is the write, the state is unchanged and the snapshot is spent |
| RouteQuerySync.EchoSuppressedOnce | src/shared/composables/useRouteQuerySync.ts:41-47 | the echo is suppressed only once: a second `syncFromRoute` on the same route calls `onRouteChange` |
| RouteQuerySync.ExternalChangePropagates | src/shared/composables/useRouteQuerySync.ts:38-48 | a navigation that does not match the snapshot reaches the consumer as the parsed route |
| RouteQuerySync.MatchingNavigationIsDropped | src/shared/composables/useRouteQuerySync.ts:41-43 | a navigation that lands on the last written query, before its echo is handled, is dropped |
| RouteQuerySync.ToRouteThenFromRouteKeepsState | src/shared/composables/useRouteQuerySync.ts:38-57 | for a codec whose built query is already normal, `syncToRoute` then `syncFromRoute` keeps the state and leaves no snapshot |
| RouteQuerySync.SecondRound | src/shared/composables/useRouteQuerySync.ts:38-57 | after the state has taken the parsed route, one more round writes the canonical query only when the route was not canonical, and keeps the state |
| RouteQuerySync.RouteChangeSettles | src/shared/composables/useRouteQuerySync.ts:38-57 | for the calls `syncFromRoute`, `syncToRoute`, `syncFromRoute` from no outstanding snapshot: the state is the parsed route, the route shows its canonical query, at most one write happens, and the next `syncToRoute` makes no call |
| RouteQuerySync.WatchedRouteChange | src/shared/composables/useRouteQuerySync.ts:91-100 | the definition is the model of the page's two watchers: the route watcher calls `syncFromRoute`, the store watcher calls `syncToRoute` only when that changed the state, and a write then triggers `syncFromRoute` again. Its contract is carried by `WatchedRouteChangeSettles` |
| RouteQuerySync.WatchedRouteChangeSettles | src/shared/composables/useRouteQuerySync.ts:86-100 | a route change handled by the two watchers, from no outstanding snapshot: the state becomes the parsed route; if the state changed and the route was not canonical, the canonical query is written once; otherwise the route is left as it is and the only call is `onRouteChange`; the route ends canonical iff the state changed or it already was canonical |
| UsersQuery.ParseIntClamp | src/entities/user/model/userQueries.ts:17-23 | the result is the fallback when the entry is empty, unparsable or below `min`; otherwise it is the parsed number, which is then at least `min` |
| UsersQuery.ParseUsersQuery | src/entities/user/model/userQueries.ts:25-31 | the result always has positive page and limit and a trimmed search; page and limit are the number `parseInt` reads from their entry's string when that number is at least 1, and otherwise the defaults 1 and 40; the search is the trimmed entry |
| UsersQuery.BuildUsersQuery | src/entities/user/model/userQueries.ts:33-39 | a key is present iff its field differs from the default; page and limit are written as `String(n)`, the search as is; no value is empty |
| UsersQuery.ClampReadsOnlyQueryString | src/entities/user/model/userQueries.ts:17-23 | `parseIntClamp` depends on its entry only through the entry's string form |
| UsersQuery.ParseReadsOnlyQueryStrings | src/entities/user/model/userQueries.ts:25-31 | two queries whose three entries read as the same strings parse to the same state |
| UsersQuery.ParseIntLeadingZero | src/entities/user/model/userQueries.ts:20 | `parseInt("07")` is 7 |
| UsersQuery.ParseIntTrailingGarbage | src/entities/user/model/userQueries.ts:20 | `parseInt("3abc")` is 3 |
| UsersQuery.ParseIntForty | src/entities/user/model/userQueries.ts:20 | `parseInt("40")` is 40 |
| UsersQuery.ParseIntZero | src/entities/user/model/userQueries.ts:20 | `parseInt("0")` is 0 |
| UsersQuery.NonCanonicalEntries | src/entities/user/model/userQueries.ts:25-31 | `{page: "07", limit: "3abc"}` parses to page 7, limit 3, empty search |
| UsersQuery.NonCanonicalEntriesFallBack | src/entities/user/model/userQueries.ts:10-31 | `{page: ["07", "9"], limit: "0"}` parses to page 7, read from the array's first element, and the default limit 40, because 0 is below the minimum |
| UsersQuery.EmptyQueryParsesToDefaults | src/entities/user/model/userQueries.ts:25-31 | the empty query parses to page 1, limit 40, empty search |
| UsersQuery.DefaultsBuildEmpty | src/entities/user/model/userQueries.ts:33-39 | the default state builds the empty query |
| UsersQuery.NumberFieldRoundTrip | src/entities/user/model/userQueries.ts:17-23 | a positive numeric field survives build-then-parse |
| UsersQuery.SearchFieldRoundTrip | src/entities/user/model/userQueries.ts:29 | a trimmed search survives build-then-parse |
| UsersQuery.RoundTrip | src/entities/user/model/userQueries.ts:25-39 | parsing the built query of a state with positive page and limit and a trimmed search gives the state back |
| UsersQuery.ParseBuildParse | src/entities/user/model/userQueries.ts:25-39 | every parsed state is a fixed point of build-then-parse |
| UsersRouteSync.UsersCodec | src/shared/composables/useRouteQuerySync.ts:72-73 | the definition is the model of the codec the users page wires in: `parseUsersQuery` and `buildUsersQuery`. Its contract is carried by `UsersCodecSettles`, `UsersCodecParse` and `UsersCodecBuild` |
| UsersRouteSync.UsersCodecSettles | src/shared/composables/useRouteQuerySync.ts:72-73 | the codec the users page passes in (`UsersCodec`, the definition of that wiring) meets both conditions the settling lemmas ask of a codec: every built query is its own normal form, and parsing the built query of any well-formed state gives that state back |
| UsersRouteSync.UsersCodecParse | src/shared/composables/useRouteQuerySync.ts:72 | helper, no behaviour of its own: the users page hands `parseUsersQuery` to the synchroniser |
| UsersRouteSync.UsersCodecBuild | src/shared/composables/useRouteQuerySync.ts:73 | helper, no behaviour of its own: the users page hands `buildUsersQuery` to the synchroniser |
| UsersRouteSync.UsersCodecParts | src/shared/composables/useRouteQuerySync.ts:72-73 | helper, no behaviour of its own: both halves of the codec at once |
| UsersRouteSync.BuildIsNormal | src/entities/user/model/userQueries.ts:33-39 | the built users query is its own normal form |
| UsersRouteSync.ParseSeesOnlyNormalForm | src/entities/user/model/userQueries.ts:25-31 | parsing a route query and parsing its normal form give the same state |
| UsersRouteSync.ParseOfEquivalentRoute | src/entities/user/model/userQueries.ts:25-39 | a route whose normal form is the built query of a well-formed state parses to that state |
| UsersRouteSync.UsersToRouteThenFromRouteKeepsState | src/shared/composables/useRouteQuerySync.ts:91-100 | on the users page, `syncToRoute` then `syncFromRoute` never changes a well-formed list state |
| UsersRouteSync.UsersRouteChangeSettles | src/shared/composables/useRouteQuerySync.ts:38-57 | with the users codec, the calls `syncFromRoute`, `syncToRoute`, `syncFromRoute` from no outstanding snapshot (no write of the synchroniser awaiting its echo) leave the route on the canonical query of the parsed state; the page makes this second call only when the first changed the list state |
| UsersRouteSync.UsersWatchedRouteChange | src/shared/composables/useRouteQuerySync.ts:86-100 | on the users page, a route change from no outstanding snapshot sets the list state to the parsed route, and when that changed the list state the route ends on the canonical users query |
| UsersRouteSync.PageKeepsNonCanonicalRoute | src/shared/composables/useRouteQuerySync.ts:86-100 | on the users page, `?limit=40` arriving while the list is at the defaults makes only the `onRouteChange` call and leaves the route as it is, although it is not the canonical query (which is empty) |
| UsersRouteSync.SearchScenario | src/shared/composables/useRouteQuerySync.ts:91-100 | from the defaults and an empty route, setting the search to "ann" writes `{search: "ann"}` once and changes nothing else |
| Debounce.Create | src/shared/composables/useDebouncedRef.ts:3-5 | the debounced value starts as the source's value, with no timer pending and the invariant holding |
| Debounce.Step | src/shared/composables/useDebouncedRef.ts:7-21 | only a firing timer publishes, and a firing timer publishes the value it carries; a write sets the source, and on a live debouncer a changing write schedules its own value; a fired timer is gone; disposal cancels the pending timer without publishing; a disposed debouncer with nothing pending stays so; the invariant is preserved |
| Debounce.RunAppend | src/shared/composables/useDebouncedRef.ts:7-21 | helper, no behaviour of its own: replaying `a + b` replays `a` then `b` |
| Debounce.RunKeepsInv | src/shared/composables/useDebouncedRef.ts:7-21 | every state reachable from one that satisfies the invariant satisfies it |
| Debounce.WritesDoNotPublish | src/shared/composables/useDebouncedRef.ts:9-14 | a burst of writes leaves the debounced value unchanged and the source holding the last value |
| Debounce.LastWriteWins | src/shared/composables/useDebouncedRef.ts:9-14 | after a burst of writes on a live debouncer, the firing timer publishes the last value written and nothing stays pending |
| Debounce.DisposedOnlyByDispose | src/shared/composables/useDebouncedRef.ts:19-21 | writes never dispose the debouncer |
| Debounce.DisposedStaysFrozen | src/shared/composables/useDebouncedRef.ts:19-21 | a disposed debouncer with nothing pending never changes its debounced value |
| Debounce.DisposeFreezes | src/shared/composables/useDebouncedRef.ts:19-21 | after unmounting, no sequence of events changes the debounced value |

## Left out

- Vue reactivity is left out: refs, watchers, the `flush: 'sync'` option and the component lifecycle. Each operation is a pure transition, and the state it returns stands for the new `.value` of the refs.
- Timers and the delay are left out. `setTimeout`, `clearTimeout` and `delayMs` become the `Fire` event, meaning the pending timer ran out. Since only one timer can be pending, it is an optional value.
- The router and the store are not modelled: `route.query`, `router.replace`, the user store and the API client. The delivery of route changes is the `FromRoute` event.
- RouteQuerySync.WatchedRouteChange: Vue's watcher scheduling is not modelled. Each watcher runs once, right after the change it watches, and the store watcher's three fields are compared as one list state. The `syncFromRoute` in `onMounted` behaves like a route change that arrives with no outstanding snapshot.
- RouteQuerySync.Perform: assumes that `replaceQuery` takes effect at once, so the route shows the written query before any other event arrives. In the usage example `replaceQuery` is `router.replace`, which completes asynchronously, so a navigation or state change could come in between. `NextToRoute`, `EchoSuppressed`, `EchoSuppressedOnce`, `ToRouteThenFromRouteKeepsState`, `SecondRound`, `RouteChangeSettles`, `WatchedRouteChangeSettles` and the users-page lemmas built on them all rest on this assumption.
- Exceptions are left out: rules, `parse` and `build` are total functions here. In the source an exception from one of them propagates after some state has already changed. `syncFromRoute` has cleared the snapshot before it calls `parse`, and `validateAll` leaves the fields before the throwing one already validated.
- Object identity is left out. `setValues` and `reset(next)` store the caller's object itself, so later changes the caller makes to it show up in the form's values. `{...initialValues}` copies only the top level, so nested objects stay shared with the initial values. Maps here are values, so none of this sharing exists in the model.
- The mock server, the HTTP client, the router setup and `main.ts` are outside the core and not modelled.
- Object key order is left out: records are Dafny maps. `queryEqual` never depends on key order, and this is proved.
- Only the kinds of JavaScript values the core distinguishes are modelled: undefined, null, strings and arrays. `Other` stands for numbers, booleans and objects, and carries the text `String(v)` gives for them.
- Strings are sequences of Unicode scalar values rather than UTF-16 code units. Whitespace is the ECMAScript WhiteSpace and LineTerminator set, which both `trim` and `\s` use.
- A write to the debouncer's source notifies the watcher only when the value changes. Change is Dafny equality here rather than `Object.is`, so NaN and signed zeros are outside the model.
- The default messages of `required` and `email` are not modelled: the message is always a parameter.
- A rule is modelled as returning an optional message. The source treats any non-null result as a failure, so a rule returning `undefined` would also fail there. Its declared type excludes that.
- The page and limit of the list state are modelled as integers. A non-integer number in the store is outside the model.
- JsNumber.NumberToString: does not model `String(n)` for numbers from 1e21 up, where JavaScript switches to exponent notation, or numbers beyond 2^53, which it rounds. Numbers are exact integers here.
- UsersQuery.ParseIntClamp: does not model the `Number.isFinite` check. It rejects only the Infinity that `parseInt` returns on a digit run of over about 309 digits, because IEEE-754 doubles are left out.
- UsersQuery.RoundTrip: holds for every integer page and limit because numbers are exact here. In the source it fails from 1e21 up, where `String` writes `1e+21` and `parseInt` reads it back as 1.

## Findings

| source | as written | input that shows it | evidently intended | confidence | as-written member | corrected member |
|---|---|---|---|---|---|---|
| src/shared/composables/useValidate.ts:68 | `validateAll` counts a field as failing only when its recorded message is truthy | a schema `{f: [() => '']}`: `validateField('f')` answers false and records `''`, yet `validateAll()` answers true | `validateAll` is true iff every schema field passed `validateField` | low, not executed; the built-in rules never return an empty message | Validate.ValidateAll, Validate.EmptyMessagePassesValidateAll | Validate.ValidateAllStrict |
