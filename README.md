# r2park in Dafny

A model of the core of r2park, a Discord bot that registers vehicles for
parking on the register2park.com portal. The model covers:

- the portal session: renewing it after 10 requests or after a time threshold, and the 8-hour location cache with its id index;
- how the bot reads the portal's forms and registration answers, and the body it sends when it registers;
- the Redis store of guest codes and the tri-state "guest code required" flag kept for each location;
- the mapping from form fields to modal text inputs;
- the guest-code decision of the `/register` command, the `/code` command, and the location autocomplete with its seeded random choice.

Each Go source file becomes one module:

| module | file | what it holds |
|---|---|---|
| `Types` | — | shared records; Go's `int64`/`uint` with wrap-around; `%d`, `strconv.Itoa`, `strconv.ParseUint` and `strconv.Atoi` on decimal text |
| `Helpers` | helpers.go | URL and header assembly, `Plural`, `GetRandomItems`, `FilterLocations` |
| `Api` | api.go | the package globals as a `Session` class, plus the form readers, the registration body and result classification |
| `Data` | data.go | the Redis database as a `Store` class over `map<string, string>` |
| `Form` | form.go | the field-to-text-input mapping |
| `Commands` | commands.go | `/code`, the `/register` flow, the submission contexts, the autocomplete seed |

Code that changes state step by step is written as methods, and each method
is proved against a specification function. This covers the session
globals, the store, the context map and the loops of `GetRandomItems`,
`FilterLocations`, `BuildRequestWithBody`, `RegisterVehicle`,
`GetLocations` and `FormToComponents`. Pure decisions are written as
functions with lemmas. Here is how the outside world enters the model:

- An HTTP exchange is a `Response` value, either a transport error or a status and a body.
- What goquery extracts from a page is a `Document`/`Page` or a `ResultPage` value.
- The clock is a `now` parameter, in nanoseconds.
- `rand.New(rand.NewSource(seed)).Intn(n)` is an abstract `Generator`: `g(seed, n, k)` is the k-th draw.
- The text go-redis writes for a Go `bool` is an `encode` parameter.
- `url.Parse`, which `http.NewRequest` runs, is the predicate `UrlRejected`. It covers the ways a URL on the portal's fixed address can fail: a control byte before the first `#`, or a `%` without two hex digits after it. `BuildRequestWithBody` drops the error, and `SetTypicalHeaders` then dereferences the nil request. Only the confirmation URL carries caller text, unescaped, so only `RegisterEmailConfirmation` can halt this way.

A Go panic or `log.Fatal` is the `Halted` step. `HandleError` with a
nil error sends an error embed (a `Refused` or `Rejected` reply). With a
non-nil error it panics, at helpers.go:191: `innerError.Error()[:256]`
slices past the end of any message shorter than 256 bytes, and a
`strconv` error always unwraps to the short `ErrSyntax` or `ErrRange`
message. So in `/register` a location or user id that `Atoi` rejects, and
an interaction id or resident profile id that `ParseUint` rejects, halt
the process before anything is stored.

Two pieces of `RegisterCommandHandler` are modelled exactly as written:

- `GetCode` computes its flag as `Err() == redis.Nil`, so the flag is true when NO code is stored.
- The stored code is bound to a new, shadowing variable `code`.

So the "use the stored code" branch runs when nothing is stored, and it
sends the outer `code`, which is the last option's value. `RouteOf`,
`StoredCodeIsLastOption` and `RegisterKeepsCodes` state these consequences.
One consequence is that `/register` never deletes or changes a stored code.

With an empty query and fewer than `limit` locations, `FilterLocations`
calls `GetRandomItems`, which returns an error, and `log.Fatal` stops the
process (`Helpers.FilterLocations`, the `Fatal` outcome).

## Model

| member | source | states |
|---|---|---|
| Types.AddInt64 | commands.go:328 | `int64` addition: the exact sum when in range, and always congruent to it modulo 2^64 |
| Types.WrapInt64 | commands.go:328 | an `int64` product is the exact value reduced into range modulo 2^64, unchanged when in range |
| Types.GoDiv | commands.go:328 | Go's `/` truncates toward zero: the remainder `a - q * b` has the dividend's sign and is smaller than the divisor in magnitude |
| Types.Decimal | data.go:18 | `%d` text is non-empty, all digits except a leading `-`, and starts with `-` exactly for negative values |
| Types.ParseUint | commands.go:260-269 | `strconv.ParseUint(s, 10, 64)`: success only on a non-empty all-digit text below 2^64; a syntax error gives 0; a range error gives 2^64-1 |
| Types.Atoi | commands.go:177-196 | `strconv.Atoi`: the result is within `int64`; a syntax error gives 0; an out-of-range value is clamped to a bound; the empty text is a syntax error |
| Types.ParseUintOfDigits | api.go:272-273 | `ParseUint` reads back exactly what `FormatUint` wrote, without error |
| Types.AtoiOfDecimal | commands.go:336 | `Atoi` reads back exactly what `Itoa`/`%d` wrote, for every `int64` |
| Types.DecimalInjective | data.go:18 | distinct `int64` values have distinct `%d` texts |
| Helpers.Plural | helpers.go:54-59 | the suffix is "" exactly when n == 1, and "s" otherwise |
| Helpers.Lower | helpers.go:137-142 | lower-casing keeps the length, turns each ASCII capital into its small letter, leaves every other character alone, and leaves no capital |
| Helpers.LowerIdempotent | helpers.go:137-142 | lower-casing twice is lower-casing once |
| Helpers.BuildUrl | helpers.go:21-40 | relative paths are prefixed with the base URL; no parameters gives the bare target; otherwise `?` comes before the first pair and `&` before each later `key=value` pair, in visiting order |
| Helpers.TypicalHeaders | helpers.go:65-83 | exactly the user agent, content type and referer (with their defaults) and, on request, the XMLHttpRequest marker are added; every other header is unchanged |
| Helpers.BuildRequest | helpers.go:21-50 | a request with the caller's verb, the assembled URL and the default typical headers; none (the nil request `SetTypicalHeaders` dereferences) exactly when `url.Parse` rejects the URL |
| Helpers.PicksSound | helpers.go:108-119 | the selection loop, when it finishes, keeps exactly N pairwise-distinct indices, each within the array, extending those kept before |
| Helpers.RandomItems | helpers.go:104-106 | fewer than N items is the "array length is less than N" error, exactly; a success has exactly N items, each an element of the input |
| Helpers.RandomItemsDistinctIndices | helpers.go:108-119 | a successful selection takes its N items, in order, from N pairwise-distinct positions of the array |
| Helpers.GetRandomItems | helpers.go:96-122 | the selection loop returns `RandomItems(arr, N, seed)`, so its result depends only on the array, N and the seed |
| Helpers.FilterLocations | helpers.go:128-153 | an empty query gives `GetRandomItems`' result, or a fatal stop on its error; otherwise the result is the first `Cap(limit)` matches in input order |
| Helpers.MatchesOfSound | helpers.go:141-144 | every kept location is from the input and its lower-cased name contains the lower-cased query |
| Helpers.MatchesOfComplete | helpers.go:141-144 | every matching input location is kept |
| Helpers.MatchesOfOrdered | helpers.go:141-144 | the kept locations keep their original relative order |
| Helpers.FilterMatchesInOrder | helpers.go:137-149 | a non-empty query's result has at most `Cap(limit)` locations, all matching and in order, and holds every match when shorter than the cap |
| Api.IndexByIdKeys | api.go:152-155 | the rebuilt index has a key for exactly the location ids in the list |
| Api.IndexByIdLast | api.go:152-155 | an id maps to its last occurrence, so a later duplicate overwrites an earlier one |
| Api.BuildIndex | api.go:152-155 | the map-building loop yields `IndexById` of the list |
| Api.TrimSpace | api.go:205 | the result is the input with only white space cut from its two ends, and has no white space at either end; an input without white space at its ends is returned unchanged |
| Api.PublicFormResult | api.go:181-213 | a parse failure is an error; the guest-code input means "code required" with no error and no data; otherwise the page's fields, hidden inputs, title, trimmed address and profile id ("" when missing) |
| Api.VipFormResult | api.go:226-259 | the body "guest-code" exactly gives requireGuestCode with the invalid-code error; otherwise a parse failure or a missing profile id is an error; otherwise the page's fields, hidden inputs, title, trimmed address and profile id |
| Api.GuestCodeOutcomesDistinct | api.go:226-231 | a rejected code and a first-time "code required" are told apart by the error, and neither carries fields or hidden inputs |
| Api.ClassifyRegistration | api.go:302-374 | success exactly when "Approved" occurs; neither "Approved" nor "Denied" is an error; vehicle id and confirmation code only on success; the timestamp is zero when not found |
| Api.RegistrationBody | api.go:270-283 | the body's keys are the fixed, hidden and caller keys; a caller value beats a hidden "", which beats a fixed field |
| Api.ConfirmationOutcome | api.go:393-404 | confirmation succeeds exactly on status 200 with body "ok" |
| Api.Session.constructor | api.go:33-41 | the initial state has a renewal and a refetch due at every later time |
| Api.Session.OnRequest | api.go:43-49 | the counter grows by one (wrapping at 2^64) and nothing else changes |
| Api.Session.DoRequest | helpers.go:86-91 | a request is counted; a transport error panics in `onResponse` |
| Api.Session.Reload | api.go:61-84 | renewal counts its two requests and panics without the session cookie |
| Api.Session.TryReload | api.go:88-104 | no renewal (and no change) exactly when fewer than 10 requests and the 900 ns threshold is not reached; a renewal resets the counter and dates itself with the entry time; a missing cookie halts |
| Api.Session.GetLocations | api.go:106-159 | before expiry the cached list and no change; afterwards a halt exactly on a fatal renewal or a transport error, nil and no cache change on a parse failure, otherwise the new list, its id index and an expiry 8 hours on; after a refetch the counter is 1 and the renewal dated now when a renewal was due, and otherwise the counter has grown by one |
| Api.Session.GetForm | api.go:171-214 | one counted request, then `PublicFormResult`, or a halt on a transport error |
| Api.Session.GetVipForm | api.go:216-260 | one counted request, then `VipFormResult` of the body, or a halt on a transport error |
| Api.Session.RegisterVehicle | api.go:269-375 | the body obeys `IsRegistrationBody`; one counted request; then `ClassifyRegistration` of the answer |
| Api.Session.RegisterEmailConfirmation | api.go:379-405 | the URL carries the four parameters, unescaped, in map-visiting order; a URL that `url.Parse` rejects halts before any request; otherwise one counted request, and success exactly on status 200 with body "ok" |
| Api.ConfirmationUrlRejected | api.go:380-387 | when no value holds a `#`, the confirmation URL is rejected exactly when the email, vehicle id or property id holds a control byte |
| Api.ConfirmationUrlChars | api.go:380-387 | a `#` or a control byte is in the confirmation URL exactly when it is in one of the three values |
| Data.RequirementIn | data.go:48-57 | Unknown exactly when the key is absent; GuestCodeRequired exactly when the stored text is "true"; anything else is GuestCodeNotRequired |
| Data.LocationExists | data.go:11-14 | holds exactly when some cached location has the id `uint(location)` |
| Data.CodeKeyInjective | data.go:18 | distinct (location, member) pairs have distinct `code:%d:%d` keys |
| Data.RequirementKeyInjective | data.go:41 | distinct locations have distinct `code_required:%d` keys |
| Data.KeysDisjoint | data.go:41 | no code key is a requirement key |
| Data.StoreKeepsRequirements | data.go:17-23 | storing a code leaves every requirement flag as it was |
| Data.StoreKeepsOtherCodes | data.go:17-23 | storing one pair's code leaves every other pair's code as it was |
| Data.RemoveKeepsRequirements | data.go:33-36 | removing a code leaves every requirement flag as it was |
| Data.RemoveIdempotent | data.go:33-36 | after a removal the code is absent, and a second removal changes nothing |
| Data.SetRequirementEffect | data.go:40-43 | setting a flag makes it Required exactly when the written text is "true", and leaves other locations' flags and every code key as they were |
| Data.Store.StoreCode | data.go:17-23 | reports whether the key existed before; afterwards the key maps to the code |
| Data.Store.GetCode | data.go:26-30 | the flag is true exactly when no code is stored (the comparison with `redis.Nil`); the code is the stored one, or "" |
| Data.Store.RemoveCode | data.go:33-36 | exactly the pair's key is deleted |
| Data.Store.SetCodeRequirement | data.go:40-43 | exactly the location's requirement key is written |
| Data.Store.GetCodeRequirement | data.go:48-57 | returns `RequirementIn` of the store: Unknown exactly when the key is absent |
| Form.ComponentFor | form.go:15-67 | the four vehicle ids get their fixed bounds and placeholders; the plate confirmation gives exactly the zero input; any other id keeps its own id and label with bounds 1..100 |
| Form.FormToComponents | form.go:9-78 | one row per field in field order, each holding that field's component, whose custom id is the field id for every non-confirm field |
| Commands.CodeCommand | commands.go:50-91 | an unknown location or an invalid code (not 4-12 ASCII letters or digits) is rejected before anything is stored; otherwise the code is stored and the reply says "updated" exactly when one existed before |
| Commands.CodeOption | commands.go:187-190 | the scan finds a "code" option exactly when one exists, and takes the first; without one, the last option's value is left in `code` |
| Commands.RouteOf | commands.go:177-227 | the two id parse errors come first; a given code goes to the guest-code form; with no code given and none required, a stored code ends the command and an absent one sends the outer `code`; otherwise the public form |
| Commands.Decide | commands.go:177-226 | the handler's checks before any fetch yield `RouteOf` |
| Commands.StoredCodeIsLastOption | commands.go:187-227 | when a "stored" code is used, the code sent is the last option's value |
| Commands.FieldIds | commands.go:282-284 | the required keys are the field ids, in order |
| Commands.ModalRows | commands.go:288-298 | the modal holds one row per field followed by the email row |
| Commands.SubmissionContexts.Set | commands.go:279-286 | the context is stored under its key with its expiry time |
| Commands.RegisterCommand | commands.go:174-312 | the handler's outcome, the code sent, the new store and the new contexts are those of `RegisterFlow`, which halts on a location or user id that does not parse; the session counter grows by the flow's requests and nothing else in the session changes |
| Commands.TakeRoute | commands.go:196-254 | after the decision the outcome, store and contexts are `RouteFlow` of the route, and the counter grows by its requests |
| Commands.RegisterRequests | commands.go:227-241 | `/register` makes one request to the portal exactly when its route fetches a form, and none otherwise |
| Commands.OptionIdErrorHalts | commands.go:177-196 | a location or user id that `Atoi` rejects halts in `HandleError` with nothing fetched or stored |
| Commands.VipBranch | commands.go:226-239 | the guest-code branch yields `VipFlow`, which halts when either id fails to parse; one counted request and no other session change |
| Commands.PublicBranch | commands.go:240-254 | the public-form branch yields `PublicFlow`, which halts when either id fails to parse; one counted request and no other session change |
| Commands.OpenModal | commands.go:256-307 | the outcome and the contexts are those of `Present`: a halt, with no context stored, when the interaction id or the profile id fails to parse; otherwise the modal and the one stored context |
| Commands.RegisterKeepsCodes | commands.go:226-254 | as written, `/register` never creates, deletes or changes any guest code |
| Commands.VipFlowFacts | commands.go:226-239 | the guest-code branch changes the store only by removing the used stored code, and stores a context only when it presents the modal |
| Commands.PublicFlowFacts | commands.go:240-254 | the public branch changes the store only by marking an Unknown location, and stores a context only when it presents the modal |
| Commands.VipRejection | commands.go:230-238 | a rejected code is removed exactly when a stored code was used, never a typed one, with the matching message |
| Commands.PublicRejection | commands.go:243-252 | a form needing a code marks the location exactly when its flag was Unknown, and changes no other location's flag |
| Commands.PresentedContext | commands.go:279-298 | only a presented modal stores a context, and only when all four ids parsed: the field ids, the hidden inputs, the location id, the parsed profile id and a one-hour lifetime under the interaction id |
| Commands.MissingProfileIdHalts | commands.go:266-269 | a public form without a profile id attribute halts instead of presenting the modal |
| Commands.PresentFacts | commands.go:260-286 | presenting halts with no context stored exactly when the interaction id or the profile id fails to parse; otherwise it records exactly that context; the store is left alone |
| Commands.SeedAsWritten | commands.go:328 | `userId + Unix()/15*60` in wrapping `int64` arithmetic, exact when in range |
| Commands.Seed | commands.go:326 | the seed the comment describes: the user id plus the current 15-minute window number |
| Commands.SeedAsWrittenVariesWithinWindow | commands.go:328 | as written, the seed differs between second 0 and second 15, which lie in one 15-minute window |
| Commands.SeedConstantPerWindow | commands.go:326 | the intended seed is the same throughout a 15-minute window |
| Commands.SeedChangesPerWindow | commands.go:326 | the intended seed changes from one window to the next |
| Commands.LocationChoices | commands.go:324-338 | the choices are the filtered locations' names with their ids as decimal text: the first 25 matches for a typed query, `RandomItems` of 25 for an empty one, and a halt when the filter fails; the list is the cached one before expiry, and afterwards the listing, with a halt exactly when `GetLocations` halts |
| Commands.ChoicesOf | commands.go:332-338 | one choice per shown location, in order, with its name and its id as decimal text |

## Findings

| source | as written | input that shows it | evidently intended | confidence | as-written member | corrected member |
|---|---|---|---|---|---|---|
| commands.go:328 | `time.Now().Unix() / 15 * 60` groups as `(Unix() / 15) * 60`, so the seed steps every 15 seconds | Unix times 0 and 15 give different seeds but lie in the same 15-minute window | the comment at commands.go:326 asks for a 15-minute interval: `Unix() / (15 * 60)` | not executed | Commands.SeedAsWritten, Commands.SeedAsWrittenVariesWithinWindow | Commands.Seed, Commands.SeedConstantPerWindow, Commands.SeedChangesPerWindow |

The same expression also appears at commands.go:103, in `/code`'s
autocomplete.

## Left out

- HTTP transport, the cookie jar and the doorbell requests: a request is a `Response` input. `reload` is two counted requests, then a session cookie that is present or missing (a panic). A doorbell request that fails in transport panics as well, in `onResponse(nil)`, and the model counts it as a missing cookie: the outcome is the same `Halted`.
- goquery and HTML parsing (parse.go's `CheckGuestCodeRequired` and `GetFields`, and the selector walks of `GetLocations`, `GetForm`, `GetVipForm` and `RegisterVehicle`): their results are `Page`, `Document`, `ResultPage` and `Option<seq<Location>>` inputs.
- The regular expressions `parsePattern`, `vehicleIdPattern` and `timestampPattern`, and `time.Parse`: their matches are inputs. `codePattern` is modelled, as `ValidCode`.
- Redis client internals: the text written for a Go `bool` by `SetCodeRequirement` is the `encode` parameter, so whether a stored `true` reads back as "true" is left open.
- `timedmap` expiry: a context records its expiry time, which is never acted on.
- The clock: each operation takes its readings as parameters. `tryReload` and `GetLocations` read `time.Now` separately, and one `now` stands for both, so sub-microsecond differences between those reads are not modelled. The autocomplete reads the clock once for the seed (`unix`, in seconds) and again inside `GetLocations` (`now`); they are separate parameters and nothing ties them together.
- Commands.LocationChoices: uses the intended seed `Seed` of the finding above, not the seed as written at commands.go:328 (`SeedAsWritten`), so its random picks for an empty query are those of the corrected program.
- `Generator` and fuel: `Intn` is the abstract `Generator`. The unbounded loop of `GetRandomItems` is bounded by `fuel` draws. `GeneratorExhausted` stands for a run that had not ended after that many draws, which a terminating Go run never gives.
- Helpers.GetRandomItems: the `reflect` "input is not a slice" check always passes for a Dafny sequence and is left out. A negative N is the `NegativeCapacity` error (`make` panics for it) and is not modelled as a crash.
- Helpers.FilterLocations: a negative `limit` with a non-empty query is the fatal `NegativeLimit` outcome (again `make`'s panic).
- Other `url.Parse` failures, for targets other than the portal's fixed address, are not modelled; every call in the core uses that address. Nor is the effect of a `#` in a confirmation value: it moves the rest of the URL into a fragment, which is not sent.
- `lower`/`ToLower` and `TrimSpace` handle ASCII only. Unicode case mapping and Unicode white space are not modelled.
- `FormToModalComponents`, called at commands.go:257, is not part of this model: it is not defined in any file of the core. The model uses `FormToComponents` over the form's fields in its place.
- Discord UI: command definitions, `InteractionRespond`, the embed contents and fields of `HandleError`, and the footer text. A rejection is just its message.
- The unfocused-option branch of the autocomplete handlers is left out. Only the location option's choices are modelled.
- Concurrency (handlers share the globals and the store), logging, main.go, scan.go, debug.go and submit.go are left out.
- Location ids come from `strconv.ParseUint(..., 10, 32)` in the listing parser, which is not modelled. `Location.id` is any `nat`, not bounded by 2^32.
