# petros routing core in Dafny

A model of the request-routing core of the petros Go HTTP toolkit, with
proofs about it. It covers four parts:

- **Route matching** (`router.go`):
  - exact routes, whose pattern is normalised to end in `/`;
  - prefix routes;
  - parametric routes: `/`-separated patterns whose `:name` segments capture
    path segments, checked by validators consumed in capture order;
  - parameter extraction (`getParams`) and the UUID validator.
- **The router** (`router.go`): an ordered route list. The first matching
  route's handler runs; a default 404 is sent when nothing matches and no
  not-found handler is set.
- **The method dispatcher** (`allow.go`):
  - `AllowMethods` canonicalises a method→handler map and lists the allowed
    methods;
  - it synthesises HEAD (GET with the body dropped) and OPTIONS handlers
    when they are missing;
  - the dispatcher it returns sets the `Allow` header on every response and
    answers 405 to unknown methods.
- **Support pieces**:
  - the two response-writer decorators (`response_wrappers.go`): the status
    recorder and the body dropper;
  - the request-argument view (`args.go`): memoised `Args`, `ParsedRequest`,
    and `GetString` with body parameters taking precedence over query
    parameters.

Modules, one per file:

- `Wrappers`: `Option` and `Result`.
- `Text`: the parts of Go's `strings` package the core uses. These are
  `Split`, `Join`, `ToUpper` and `TrimSpace`, over ASCII / Latin-1 text.
- `Http`: stand-ins for `net/http`.
  - A handler is an abstract value: the fixed script of writer calls it
    makes (`Header().Set`, `WriteHeader`, `Write`).
  - A response is a record of the status codes written, the header map and
    the body.
  - `ResponseWriter` is a class that records calls. `Run` is the function
    that specifies it.
- `ResponseWrappers`: `StatusRecorder` and `BodyDropper`, classes that wrap
  a writer.
- `Arguments`: `args.go`. `RequestArgs` is a class, because the router
  overwrites its `URLParams` in place through the memoised context value.
- `Routes`: `router.go`.
  - Routes are an immutable datatype with `Accepts`, the specification, and
    `Match`, the loop.
  - `Router` is a class whose `routes` sequence `AddRoute` extends.
- `Allow`: `allow.go`.
  - `AllowMethods` is written as its two loops plus the HEAD/OPTIONS step.
    Go's unordered map iteration is an arbitrary choice (`:|`).
  - The dispatcher it returns is a datatype. Its `ServeHTTP` method runs
    the synthetic HEAD handler through a real `BodyDropper`.
  - `BuiltFrom` states what `AllowMethods` builds, and every dispatcher
    property is proved from it alone.

The router has a `NotFoundHandler` field (router.go:16), and the default
404 is guarded by `NotFoundHandler == nil` (router.go:40). Both only make
sense if a handler that is set is meant to run. The code never calls it,
though (router.go:40-42). The model keeps the code's behaviour and records
the discrepancy under Findings, with the intended behaviour modelled beside
it.

## Model

| member | source | states |
|---|---|---|
| Http.ResponseWriter.Play | allow.go:49 | Running a handler on a writer performs its whole script: the new writer state is `Run` of the old state and the script |
| Http.NotFoundResponse | router.go:41 | `http.NotFound`, modelled as `NotFoundScript`, sets the plain-text `Content-Type` and `X-Content-Type-Options: nosniff`, writes status 404, and appends `404 page not found` to the body |
| Http.RunConcat | allow.go:48-49 | Performing two scripts one after the other is performing their concatenation |
| Http.RunDropped | response_wrappers.go:23-29 | Leaving out the body writes of a script changes only the body, which stays as it was |
| Text.ToUpper | allow.go:11 | Same length, no lower-case letter remains, lower-case letters become their upper-case counterpart and every other character is kept |
| Text.TrimSpace | allow.go:11 | The result is a slice `s[i..j]` of the input with only white space before `i` and from `j` on; it starts and ends with a non-space character, and it is the input itself when the input has no white space at either end |
| Text.Split | router.go:115 | `strings.Split` on `/`: at least one piece, and no piece contains the separator |
| Text.JoinSplit | router.go:115 | Joining the pieces of a split with the separator gives back the original string |
| Text.Join | allow.go:23 | `strings.Join`: no pieces give the empty string, one piece is itself, and with two or more the first piece and the separator come first |
| Allow.Canonical | allow.go:11 | `TrimSpace(ToUpper(key))`: no longer than the key, and it neither starts nor ends with white space |
| Allow.CanonicalHasNoLowerCase | allow.go:11 | A canonical method name has no lower-case letter |
| Allow.CanonicalOfCanonical | allow.go:11 | An upper-case name with no white space at either end is its own canonical name |
| Allow.CanonicalMethods | allow.go:9-12 | The canonical map's keys are exactly the canonical names of the registered keys, and each holds a handler registered under a key with that canonical name, whichever of several such keys iteration visits last |
| Allow.ListKeys | allow.go:14-17 | The list holds every canonical key exactly once and nothing else |
| Allow.AddSynthetic | allow.go:19-43 | HEAD and then OPTIONS are appended to `allowed` and given synthetic entries, each only when missing; existing entries, user HEAD/OPTIONS included, are kept |
| Allow.AllowMethods | allow.go:8-56 | The returned dispatcher is valid and is `BuiltFrom` the map: canonical keys plus HEAD and OPTIONS, user entries registered, synthetic entries where missing, `allowed` = canonical keys once each then the synthesised names |
| Allow.Dispatcher.Respond | allow.go:45-55 | Every answer starts by setting `Allow` to the joined list; a method not in the map gets exactly that plus 405 |
| Allow.Dispatcher.ServeHTTP | allow.go:22-55 | The writer ends in `Run` of its old state and `Respond(req.Method)`: the registered handler, the synthetic HEAD through a body dropper, the synthetic OPTIONS or the 405 |
| Allow.AllowedListsEachMethodOnce | allow.go:14-43 | `allowed` has no duplicates and names exactly the methods of the canonical map |
| Allow.EnumeratesLength | allow.go:14-17 | A list enumerating a set once each is as long as the set is large |
| Allow.UnknownMethodGets405 | allow.go:53-54 | A method outside the map gets status 405 and the `Allow` header, with the body untouched and no handler run |
| Allow.MethodLookupIsCaseSensitive | allow.go:46 | A request method containing a lower-case letter is never found, so it is answered 405 even when its upper-case spelling is registered |
| Allow.RegisteredMethodRunsItsHandler | allow.go:46-50 | A registered canonical method (HEAD and OPTIONS included) runs a handler registered under it, right after the `Allow` header is set |
| Allow.HeadMirrorsGet | allow.go:22-32 | Without a user HEAD but with GET, the HEAD answer has exactly GET's status codes and headers, and the body is untouched |
| Allow.HeadWithoutGet | allow.go:28-30 | Without HEAD and GET, HEAD is answered with a bare 200 and the `Allow` header |
| Allow.OptionsAnswer | allow.go:38-42 | Without a user OPTIONS, OPTIONS is answered 200 with an untouched body and an `Allow` list naming every registered method, HEAD and OPTIONS |
| Allow.GetPostExample | allow.go:8-56 | For `{GET, POST}`: DELETE gets 405, and `allowed` is GET and POST in some order followed by HEAD, OPTIONS |
| Allow.GetOnlyHeadExample | allow.go:22-32 | For `{GET}` on a fresh writer: HEAD gets GET's status codes and headers with an empty body |
| ResponseWrappers.StatusRecorder.RecordStatus | response_wrappers.go:19-21 | A fresh recorder wraps the given writer and reports 200 |
| ResponseWrappers.StatusRecorder.GetStatus | response_wrappers.go:15-17 | Reports the recorded status: 200 after `RecordStatus`, the last code after `WriteHeader` |
| ResponseWrappers.StatusRecorder.WriteHeader | response_wrappers.go:10-13 | Afterwards `GetStatus` is the code, and the code has been forwarded unchanged to the wrapped writer |
| ResponseWrappers.StatusRecorder.Play | response_wrappers.go:5-17 | After a handler runs on the recorder, the wrapped writer has received every call and the recorder reports the last code written, or its earlier status when none was |
| ResponseWrappers.RecordedStatusIsLastForwarded | response_wrappers.go:10-21 | For a fresh recorder, the reported status is the last status that reached the wrapped writer, or 200 |
| ResponseWrappers.BodyDropper.DropBody | response_wrappers.go:31-33 | The dropper wraps the given writer |
| ResponseWrappers.BodyDropper.Write | response_wrappers.go:27-29 | Reports the full length and no error, and changes no writer |
| ResponseWrappers.BodyDropper.Play | response_wrappers.go:23-33 | The wrapped writer receives every call except the body writes, so it ends as the full script would leave it but with its body unchanged |
| Arguments.RequestArgs.constructor | args.go:39-44 | Fresh view: given headers and query parameters, empty URL and body parameters |
| Arguments.BodyParamsOf | args.go:46-54 | A request with a body whose first `Content-Type` value is the form encoding gets the parsed form as its body parameters; every other request gets none |
| Arguments.Args | args.go:30-57 | Fails exactly on a nil request; returns the very view stored in the context when there is one; otherwise a fresh view with the request's headers and query, empty URL parameters and the body parameters above |
| Arguments.ParsedRequest | args.go:18-28 | Nil exactly when the request is nil; otherwise the same request with its argument view (the memoised one, or a fresh one built as `Args` builds it) in its context |
| Arguments.RequestArgs.GetString | args.go:59-69 | The first value of the body list followed by the query list for the key, else `ParameterNotFound`; a non-empty body list always wins |
| Routes.NewExactMatchRoute | router.go:73-81 | The stored pattern ends in `/`: the given one if it did, else the given one plus `/`; the handler is kept |
| Routes.ExactMatchIff | router.go:58-63 | For a normalised pattern, a path matches iff it equals the pattern, or it is non-empty, does not end in `/`, and adding `/` gives the pattern; the empty path never matches |
| Routes.NewPrefixRoute | router.go:100-105 | A prefix route with the given prefix and handler, which claims exactly the paths that start with the prefix |
| Routes.PrefixMatchIff | router.go:88-90 | A prefix route matches exactly the paths that extend its prefix |
| Routes.Route.HandlerFunc | router.go:69-71 | Every route variant hands out the handler it was built with (also router.go:96-98 and 168-170) |
| Routes.Route.Match | router.go:49-52 | Each route variant's `Match` agrees with `Accepts` |
| Routes.Stripped | router.go:156-162 | The result is a prefix of the input, its last element (if any) is non-empty, and every dropped element is empty |
| Routes.RemoveTrailingBlanks | router.go:156-162 | The loop returns `Stripped` of its input |
| Routes.StrippedIdempotent | router.go:156-162 | Dropping trailing blanks twice is dropping them once |
| Routes.NewParamRoute | router.go:172-179 | The stored segments are a prefix of the split pattern that ends in a non-blank segment, and everything dropped is blank; handler and validators are kept |
| Routes.NewParamRouteTrailingSlash | router.go:173 | A pattern with a trailing `/` yields the same segments as without it |
| Routes.MatchSegments | router.go:114-140 | The loop's answer equals `ParamMatch`: equal segment counts and the segment-by-segment rule with validators consumed in order |
| Routes.ParamMatchNeedsEqualCount | router.go:115-118 | A parametric route never matches a path with a different number of stripped segments |
| Routes.ParamMatchTrailingSlash | router.go:115-118 | A parametric route matches `u + "/"` exactly when it matches `u` |
| Routes.SegmentsMatchIff | router.go:122-137 | Matching holds iff every literal segment equals its path segment, every capture faces a non-empty segment, and the k-th capture's segment passes the k-th validator for every k that has one, later captures going unchecked |
| Routes.CapturedSpec | router.go:145-151 | The extracted map binds exactly the capture names, each to the segment at the last position capturing it |
| Routes.GetParams | router.go:142-154 | The loop returns `Captured` of the pattern and the stripped path segments |
| Routes.ParamsAfterMatch | router.go:142-154 | After a match, the parameters bind exactly the capture names, each to its non-empty path segment at the capture position |
| Routes.UUIDValidator | router.go:181-195 | True iff the string has 36 characters, `-` at positions 8, 13, 18 and 23, and digits or `a`–`f` everywhere else |
| Routes.UuidRejectsUpperCase | router.go:190 | A string with an upper-case hex letter is rejected |
| Routes.UuidExamples | router.go:181-195 | A lower-case UUID is accepted and its upper-case spelling is not |
| Routes.UsersRouteExample | router.go:114-140 | `/users/:id` with a UUID validator rejects `/users/123` and accepts `/users/` followed by any UUID |
| Routes.FirstMatch | router.go:25-38 | The lowest index of a route that claims the path, or none when no route does |
| Routes.FirstMatchIsFirst | router.go:25-26 | A claiming route with no claiming route before it is the one `FirstMatch` picks |
| Routes.Router.constructor | router.go:45-47 | A new router has no routes and no not-found handler |
| Routes.Router.WithStatic | router.go:197-202 | The static router holds exactly one prefix route serving the files under the prefix |
| Routes.Router.AddRoute | router.go:19-21 | The route is appended at the end and nothing else changes |
| Routes.Router.RouteRequest | router.go:24-37 | Picks `FirstMatch`. With a match only that handler's script reaches the writer; without one the writer is untouched. The served request carries the memoised view itself when there is one, or else a fresh view holding the request's headers, query and `BodyParamsOf`; a parametric route's captures overwrite its URL parameters, and any other route leaves them as they were (empty for a fresh view). Without a match nothing is served and a memoised view's URL parameters are unchanged. A memoised view keeps its headers, query and body parameters in every case |
| Routes.Router.ServeHTTP | router.go:23-43 | As written: the writer ends in `Run` of its old state and the script of `AnswerAsWritten`, which is the first matching route's handler, the default 404, or nothing; the argument view is pinned as for `RouteRequest`: the served request carries the memoised view itself when there is one, or else a fresh view holding the request's headers, query and `BodyParamsOf`; a parametric route's captures overwrite its URL parameters, and any other route leaves them as they were (empty for a fresh view). Without a match nothing is served and a memoised view's URL parameters are unchanged. A memoised view keeps its headers, query and body parameters in every case |
| Routes.NotFoundHandlerIgnored | router.go:40-42 | With a not-found handler set and no matching route, the answer is empty and the handler never runs |
| Routes.IntendedAnswerAlwaysResponds | router.go:40-42 | Under the intended rule every request is answered; it agrees with the code except where the code stays silent, and there it runs the not-found handler |
| Routes.Router.ServeHTTPWithFallback | router.go:40-42 | With the intended fallback, the writer ends in `Run` of its old state and the script of `IntendedAnswer`; the argument view is pinned exactly as for `ServeHTTP` |

## Left out

- Arguments.Args: requires a non-empty `Content-Type` list when the request has a body and no memoised view. The source reads `contentType[0]` (args.go:49) and would panic on an empty list. The same requirement carries over to `ParsedRequest`. `Router.RouteRequest`, `Router.ServeHTTP` and `Router.ServeHTTPWithFallback` require it only when some route matches, since the view is built only then (router.go:26-27).
- Routes.GetParams: requires no more path segments than pattern segments. The source indexes the pattern by path position (router.go:148) and would panic otherwise; the router only calls it after a match, which guarantees this.
- Routes.ExactMatchIff: is stated for patterns ending in `/`. That is the only kind `NewExactMatchRoute` builds, and the Go struct is unexported.
- Routes.UUIDValidator: works over ASCII. Go ranges over runes at byte offsets, and `unicode.IsDigit` accepts non-ASCII digits (router.go:185-190).
- Text.ToUpper and Text.TrimSpace: use ASCII case mapping and Latin-1 white space. Go's full Unicode tables are not modelled.
- Handlers are fixed scripts of writer calls. What a handler does cannot depend on the request, its arguments or the writer's state.
- `net/http` writer semantics are not modelled: only the first `WriteHeader` counts, a `Write` implies 200, and header keys are canonicalised. The model writer logs every status code passed to it.
- Three `net/http` services are abstract inputs:
  - the not-found response is `NotFoundScript`;
  - `URL.Query()` and `ParseForm` are the request's `query` and `form` fields;
  - the `http.FileServer`/`StripPrefix` handler of `NewRouterWithStatic` is a handler parameter.
- The `args` map that `paramRoute.Match` fills and then discards (router.go:120, router.go:133) is not modelled; nothing can observe it.
- Go's `Route` interface and the `*paramRoute` type assertion (router.go:28) become the variants of the `Route` datatype.
- The request passed to a router is non-null. `req.WithContext` is a copy of the request record with a new context.
- `errors.New` message texts are not modelled. Errors are the constants `NilRequest` and `ParameterNotFound`.
- Map iteration order is an arbitrary choice. Properties of `allowed` are about its set of names and its HEAD-then-OPTIONS suffix.
- Concurrency between requests is not modelled. Routes and dispatch maps are built before serving.
- The rest of the repository is not part of this model: `TemplateArgs` (args.go:76-84), server.go, templates.go, authentication.go, log.go, errors.go and user/.

## Findings

| source | as written | input that shows it | evidently intended | confidence | as-written member | corrected member |
|---|---|---|---|---|---|---|
| router.go:40-42 | With no matching route, `http.NotFound` runs only when `NotFoundHandler` is nil. There is no else branch, so a configured not-found handler is never called and the response is left empty | a router with `NotFoundHandler` set and a path no route claims; `router` is unexported and `NewRouter` returns the `Router` interface (router.go:14-17, 44-46), so such a router can only be built inside the package | run the configured not-found handler, and send the default 404 only when none is set | not executed | Routes.NotFoundHandlerIgnored | Routes.IntendedAnswerAlwaysResponds |
