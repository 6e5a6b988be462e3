# crates-io-api, modelled in Dafny

A model of the request-building and response-handling core of the Rust crate `crates_io_api`, a
client for the crates.io registry API. The model covers:

- the listing query (`Sort`, `CratesQuery`, its builder and its wire form);
- the per-crate URL builders and their guard against '/' in crate names;
- the default headers and base URL of a client;
- `get`: pacing of request starts, classification of a reply by status, and the two-phase JSON decode (error envelope first);
- reverse dependencies: the join of a wire page, single pages, and the eager collection of every page;
- the lazy `CrateStream` listing, as a state machine with one step per `poll_next`;
- the blocking client's `full_version` and `full_crate` assembly.

HTTP and JSON are not executed. What the network and `serde` would produce enters as data:

- a `Reply` for one request, and parse oracles for its body;
- a `Server` record holding, for each endpoint, the typed result of `get` on a URL.

Time enters as integers: the current instant and the last request's start.

Modules:

| file | module | models |
|---|---|---|
| wrappers.dfy | Wrappers | `Option` and `Result` |
| strings.dfy | Strings | splitting and joining on a separator, decimal rendering of integers, ASCII upper-casing |
| urls.dfy | Urls | the part of `reqwest::Url` the client uses: path segments, `join`, `push`, appended query pairs |
| types.dfy | Types | src/types.rs: sort orders, listing query, builder, wire records, reverse-dependency join |
| errors.dfy | Errors | the error variants of the client |
| util.dfy | CrateUrls | src/util.rs (also duplicated at the end of src/async_client.rs) |
| helper.dfy | Helper | src/helper.rs |
| transport.dfy | Transport | what both clients' `get` share |
| pagination.dfy | Pagination | the eager page loop of `crate_reverse_dependencies` |
| async_client.dfy | AsyncClient | src/async_client.rs without the stream and `full_crate` |
| crate_stream.dfy | CrateStreams | `CrateStream` and its `poll_next` |
| sync_client.dfy | SyncClient | src/sync_client.rs |

After a reply whose status is not 2xx, neither client stores the request's start. The constructors
document the rate limit as "At most one request will be executed in the specified duration"
(src/async_client.rs:108, src/sync_client.rs:26). The model follows the code, and the request that
escapes the interval is listed under Findings.

## Model

| member | source | states |
|---|---|---|
| Types.ApiErrorMessage | src/types.rs:31-39 | An API error displays as its detail text, or as "Unknown API Error" when the server sent none; the message is empty only for an empty detail. |
| Types.SortName | src/types.rs:58-69 | Each sort order's wire value; relevance is the only order sent as the empty value. |
| Types.SortNameRoundTrip | src/types.rs:58-69 | The six wire values are distinct: each reads back as the order it came from. |
| Types.DefaultQuery | src/types.rs:176-187 | The default listing query: most recently updated first, 30 per page, page 1, no filters. |
| Types.BuildQuery | src/types.rs:93-106 | The listing's query pairs start with page, per_page and sort, in that order. After them come one pair for each filter that is set, in the order user_id, q, category. A user_id, q or category pair is present exactly when its filter is set, and carries the filter's value. |
| Types.BuildQueryRoundTrip | src/types.rs:93-106 | The wire form of a listing query loses nothing: decoding the pairs gives back the query. |
| Types.DefaultQueryWire | src/types.rs:93-106 | The default query goes out as page=1, per_page=30, sort=recent-updates and nothing else. |
| Types.SetSort | src/types.rs:121-123 | Sets the sort order and leaves every other field unchanged; the listing request then carries the new sort value. |
| Types.SetPageSize | src/types.rs:131-133 | Sets the page size and leaves every other field unchanged; the request's per_page pair carries it. |
| Types.SetPage | src/types.rs:141-143 | Sets the page and leaves every other field unchanged; the request's page pair carries it. |
| Types.SetUserId | src/types.rs:151-153 | Sets or clears the user filter and leaves every other field unchanged. A user_id pair is present in the request exactly when the filter is set, and carries its value. |
| Types.SetCategory | src/types.rs:161-163 | Sets or clears the category filter and leaves every other field unchanged. A category pair is present in the request exactly when the filter is set, and carries its value. |
| Types.SetSearch | src/types.rs:171-173 | Sets or clears the search term and leaves every other field unchanged. A q pair is present in the request exactly when the term is set, and carries it. |
| Types.SetPageKeepsOtherPairs | src/types.rs:93-106 | Changing the page changes only the first query pair. |
| Types.NewBuilder | src/types.rs:197-201 | A new builder starts from the default query. |
| Types.BuilderSort | src/types.rs:205-208 | The builder's sort step changes only the sort order. |
| Types.BuilderPageSize | src/types.rs:212-215 | The builder's page-size step changes only the page size. |
| Types.BuilderUserId | src/types.rs:219-222 | The builder's user step sets the user filter and nothing else. |
| Types.BuilderCategory | src/types.rs:229-232 | The builder's category step sets the category filter and nothing else. |
| Types.BuilderSearch | src/types.rs:236-239 | The builder's search step sets the search term and nothing else. |
| Types.BuildFromBuilder | src/types.rs:243-245 | Building returns exactly the query under construction. |
| Types.BuilderAgreesWithSetters | src/types.rs:197-245 | Every builder step has the same effect as the matching setter on `CratesQuery`. |
| Types.MatchesExactly | src/types.rs:525-540 | A dependency row whose version id is carried by k versions yields exactly k pairs. Each pair holds that row and one such version, and every such version is paired. |
| Types.JoinRowsSound | src/types.rs:525-540 | Every joined pair has matching ids, and both of its halves come from the wire lists. |
| Types.JoinRowsComplete | src/types.rs:525-540 | Every dependency row and version row with matching ids meet in a joined pair. |
| Types.MatchesAppend | src/types.rs:527-538 | Within one dependency row, the pairs follow the versions' wire order. |
| Types.JoinRowsAppend | src/types.rs:526-539 | Pairs of earlier dependency rows come before pairs of later ones. |
| Types.UnmatchedRowContributesNothing | src/types.rs:525-540 | A dependency row that names no listed version adds no pair. |
| Types.Extend | src/types.rs:525-540 | `extend` keeps the existing pairs and the total, and appends the join of the wire page. |
| Types.PushMatches | src/types.rs:527-538 | The inner loop pushes exactly the pairs of one dependency row, in version order. |
| Types.ExtendInPlace | src/types.rs:525-540 | The nested loops that push one pair at a time compute exactly `Extend`. |
| Strings.ParseNatToString | src/types.rs:94-98 | The decimal rendering of the page, page size and user id identifies the number; parsing gives it back. |
| Strings.AsciiUpper | src/helper.rs:22 | Upper-casing maps each character to its upper-case letter and keeps the length. |
| CrateUrls.NestedBase | src/util.rs:20-22 | The nested prefix is `crates/<name>/` followed by a placeholder segment, in place of the base URL's last segment; a name "." or ".." adds no segment. |
| CrateUrls.BuildCrateUrl | src/util.rs:5-18 | Gives `crates/<name>` (just `crates` for a name "." or "..", which `push` skips), or fails with NotFound carrying that same URL when the name contains '/'. |
| CrateUrls.BuildCrateUrlNested | src/util.rs:20-33 | Gives the nested prefix, or fails with NotFound carrying it when the name contains '/'. |
| CrateUrls.BuildCrateDownloadsUrl | src/util.rs:35-39 | Gives `crates/<name>/downloads`, or fails with NotFound for a name with '/'. |
| CrateUrls.BuildCrateOwnersUrl | src/util.rs:41-45 | Gives `crates/<name>/owners`, or fails with NotFound for a name with '/'. |
| CrateUrls.BuildCrateReverseDepsUrl | src/util.rs:47-55 | Gives `crates/<name>/reverse_dependencies` with per_page=100 and then the page number, or fails with NotFound for a name with '/'. |
| CrateUrls.BuildCrateAuthorsUrl | src/util.rs:57-65 | For a plain version, gives `crates/<name>/<version>/authors`; fails with NotFound for a name with '/'. |
| CrateUrls.BuildCrateDependenciesUrl | src/util.rs:67-75 | For a plain version, gives `crates/<name>/<version>/dependencies`; fails with NotFound for a name with '/'. |
| CrateUrls.DotNameAddsNoSegment | src/util.rs:5-39 | A name "." or ".." passes the '/' guard but `push` skips it: the crate URL is the listing path `crates`, and the downloads of ".." are asked at the URL of the crate named "downloads". |
| CrateUrls.EmptyVersionEscapesCratePath | src/util.rs:57-65 | With an empty version the reference becomes `/authors`, which replaces the registry's whole path. |
| CrateUrls.SlashInNameRejectedEverywhere | src/util.rs:5-75 | Every per-crate builder refuses a name with '/' before any request. The nested builders all report the same URL. |
| Helper.TokenVariable | src/helper.rs:22 | The token variable is `CARGO_REGISTRIES_`, then the upper-cased registry name, then `_TOKEN`. |
| Helper.AuthorizationSource | src/helper.rs:18-38 | Without a registry there is no authorization. A named registry takes its token from its environment variable, if set, and ignores any explicit token. An unnamed registry uses its explicit token. |
| Helper.SetupHeaders | src/helper.rs:8-41 | Succeeds exactly when the user agent and the chosen authorization value are valid header values; the headers are those two values. |
| Helper.BaseUrl | src/helper.rs:44-49 | The registry's URL, or `https://crates.io/api/v1/` without a registry. |
| Helper.CratesIoHeaders | src/helper.rs:73-87 | Without a registry only the user agent is sent. |
| Helper.NamedRegistryPrefersEnvironment | src/helper.rs:89-112 | A named registry whose variable is set sends that variable's value. |
| Helper.UnnamedRegistryUsesToken | src/helper.rs:114-137 | An unnamed registry sends its explicit token, whatever the environment holds. |
| Helper.FoobarTokenVariable | src/helper.rs:96 | The registry named "foobar" reads `CARGO_REGISTRIES_FOOBAR_TOKEN`. |
| Helper.TokenVariableIgnoresCase | src/helper.rs:22 | Names that differ only in ASCII case share one token variable. |
| Transport.RequestStart | src/async_client.rs:189-197 | A request never starts before now, nor less than the interval after the stored start. It waits only as long as needed. |
| Transport.DecodeMessage | src/async_client.rs:226-231 | The decode error text is a fixed prefix, the parser's message and the path in parentheses; both the message and the path can be read back at fixed offsets. |
| Transport.DecodeBody | src/async_client.rs:220-231 | A body that parses as the error envelope is an Api error. Otherwise it is the expected value, or a JsonDecode error when that parse fails. |
| Transport.Classify | src/async_client.rs:198-231 | Checks in order: send failure, 404 as NotFound with the URL, 403 as PermissionDenied with the body text (empty if unreadable), other 4xx and 5xx as an HTTP status error, unreadable 2xx body, then the two-phase decode. It panics exactly for a status that is neither 2xx nor 4xx/5xx, where `error_for_status` gives no error to unwrap. |
| Transport.EnvelopeTakesPriority | src/async_client.rs:220-224 | When the error envelope parses, the result is that Api error, whatever the expected type would make of the body. |
| Transport.StampedGet | src/async_client.rs:105-110 | Corrected `get`: the same result, and the slot always holds exactly this request's start, whatever the reply. |
| Transport.StampedGetsLeaveStampedStarts | src/async_client.rs:105-110 | After the first k of a series of corrected `get` calls, the slot holds the k-th of the starts `StampedStarts` lists, whatever the replies. |
| Transport.StampedStartsAreSpaced | src/async_client.rs:105-110 | When every request stores its start, consecutive starts are at least the interval apart. |
| AsyncClient.Get | src/async_client.rs:188-232 | The outcome is the reply's classification, a panic included. The start is stored exactly when a 2xx body was read, which is exactly when the call returns a value, an Api error or a decode error. |
| AsyncClient.NotFoundLosesSpacing | src/async_client.rs:200-213 | After a 404 nothing is stored, so the next request starts at once despite the interval. |
| AsyncClient.CrateReverseDependenciesPage | src/async_client.rs:261-282 | Page 0 is requested as page 1. The result is the page's join with the wire total, or the page's error; a name with '/' fails with NotFound. |
| AsyncClient.PageZeroIsPageOne | src/async_client.rs:261-270 | Asking for page 0 is asking for page 1. |
| AsyncClient.CrateReverseDependencies | src/async_client.rs:289-310 | Requests pages 1, 2, ... and stops at the first empty or failed page. Returns the earlier pages' pairs in order, with the last non-empty page's total, or that failed page's error. |
| AsyncClient.Crates | src/async_client.rs:418-422 | The listing page is the server's reply to `crates` with the query's pairs, or its error. |
| AsyncClient.CrateReverseDependencyCount | src/async_client.rs:312-316 | The count is the total reported by page 1, and the call fails exactly when page 1 fails. |
| AsyncClient.CratesUrl | src/async_client.rs:418-422 | The listing URL is `crates` with the query's pairs, and the query can be read back from it. |
| Pagination.CollectPages | src/async_client.rs:293-309 | The loop's result and page count: the last page requested is the first that stops the loop, and earlier pages are concatenated in order. The result equals `Collected`, the outcome the first stopping page determines. |
| Pagination.Collected | src/async_client.rs:293-309 | The outcome of collecting every page is fixed by the first page that stops the loop: that page's error, or the earlier pages' pairs with the last total. |
| Pagination.PagesUpToGrows | src/async_client.rs:298-307 | Later pages only append: what earlier pages contributed stays at the front, unchanged. |
| CrateStreams.NewStream | src/async_client.rs:31-41 | A new stream is open and well formed, with nothing buffered and nothing in flight. |
| CrateStreams.PollNext | src/async_client.rs:46-97 | A closed stream stays closed, and buffered crates come first, in order. An empty page ends the stream, and an error is yielded once, then the stream closes. A Pending leaves a request in flight. The page number advances by one, exactly when a request starts. With nothing buffered and nothing in flight, a request for the current filter starts and the step answers Pending with the stream still open and the buffer empty. |
| CrateStreams.PollNextKeepsWf | src/async_client.rs:46-97 | Every step keeps the stream well formed: a request in flight is for the page before the filter's, and crates are buffered only while nothing is in flight. |
| CrateStreams.DrainIsExpected | src/async_client.rs:46-97 | From any reachable state, draining yields the buffer followed by the listing from the pending page on. |
| CrateStreams.DrainMatchesEager | src/async_client.rs:43-97 | Lazy equals eager, for any listing that answers at once. Draining a new stream yields every crate of the pages from the filter's page on, in order, up to the first empty page or through the first error. |
| CrateStreams.ClientStreamMatchesEager | src/async_client.rs:424-427 | The same for the stream `crates_stream` returns, whose requests are the client's `crates` calls. |
| SyncClient.Get | src/sync_client.rs:81-127 | The same classification as the asynchronous client. The start is stored exactly when the status is 2xx, before the body is read. |
| SyncClient.ClientsAgree | src/sync_client.rs:81-127 | Both clients return the same result for every reply. Their stored starts differ only for a 2xx reply whose body cannot be read. |
| SyncClient.GetCrate | src/sync_client.rs:138-141 | Asks for `crates/<name>`, or fails with NotFound carrying that URL for a name with '/'. |
| SyncClient.CrateDownloads | src/sync_client.rs:144-147 | Asks for `crates/<name>/downloads`, or fails with NotFound for a name with '/'. |
| SyncClient.CrateOwners | src/sync_client.rs:150-154 | Returns the users of the owners reply, or its error. |
| SyncClient.CrateAuthors | src/sync_client.rs:210-217 | Returns the author names of `crates/<name>/<version>/authors`, or its error. |
| SyncClient.CrateDependencies | src/sync_client.rs:220-229 | Returns the dependencies of `crates/<name>/<version>/dependencies`, or its error. |
| SyncClient.CrateReverseDependenciesPage | src/sync_client.rs:156-175 | Asks for the given page number unchanged. Returns the page's join with the wire total, or its error. |
| SyncClient.PageZeroNotCoerced | src/sync_client.rs:156-165 | Page 0 goes out as `page=0`, a different URL from page 1. The asynchronous client's page 0 is this client's page 1. |
| SyncClient.PagesAgreeFromOne | src/sync_client.rs:156-175 | From page 1 on, both clients fetch and return the same thing. |
| SyncClient.CrateReverseDependencies | src/sync_client.rs:182-201 | Requests pages 1, 2, ... up to the first empty or failed page. Returns the pairs in page order with the last non-empty page's total, or the failed page's error. |
| SyncClient.CrateReverseDependencyCount | src/sync_client.rs:204-207 | The total reported by page 1; fails exactly when page 1 fails. |
| SyncClient.FetchFullVersion | src/sync_client.rs:231-252 | Authors are fetched first, then dependencies, and the first failure wins. The call succeeds exactly when both requests succeed, and then the version's fields are copied and both replies attached. |
| SyncClient.FullVersionRestoresVersion | src/sync_client.rs:231-252 | Dropping the two attached replies from a resolved full version gives back the version it was resolved from. |
| SyncClient.ResolveAllRestoresVersions | src/sync_client.rs:273-278 | With all versions resolved, the i-th full version is the full form of the i-th version. |
| SyncClient.TryMap | src/sync_client.rs:273-278 | All versions are resolved in order, or the result is the error of the first version that fails. |
| SyncClient.SelectVersions | src/sync_client.rs:271-282 | No versions gives none. `all_versions` resolves every version; otherwise only the first is resolved. |
| SyncClient.Assemble | src/sync_client.rs:284-305 | Corrected record: every field comes from its counterpart in the crate data or the fetched parts, and the licence is the first resolved version's, or absent when there is none. |
| SyncClient.AssembleAsWritten | src/sync_client.rs:284-305 | The record as written panics exactly when no version was resolved. |
| SyncClient.AssemblyAgreesWithVersions | src/sync_client.rs:284-305 | When versions exist, the written and corrected assemblies agree. |
| SyncClient.NoVersionsPanics | src/sync_client.rs:271-288 | A crate with no published version leads to an empty version list and a panic on the licence read. The corrected record has no licence. |
| SyncClient.CompleteFullCrate | src/sync_client.rs:269-305 | Given the crate, downloads and owners: all reverse-dependency pages, then version selection; the first failure is the result, and otherwise the record is assembled from exactly those parts. |
| SyncClient.GetFullCrate | src/sync_client.rs:263-306 | The corrected `full_crate`: licence absent where the code as written panics for a crate without versions (src/sync_client.rs:288). Fetches in order crate, downloads, owners, reverse dependencies, versions; each failure is the result when everything before it succeeded. It succeeds exactly when every part does, and the record is then assembled from those parts. Pagination need only end once the first three requests succeed. |

## Left out

- Sending requests, reading bodies and JSON parsing: these are inputs (a `Reply`, parse oracles, and the `Server` record of typed endpoint results). `serde` field renames and the `#[serde(default)]` fields are not modelled.
- Sleeping, the clock and the mutex around the stored start. `RequestStart` gives the instant a request would start, and the lock is the single stored value passed in and out.
- `Url::join` is modelled for the references the client builds. `push` skips the segments "." and ".." as rust-url does, so the crate path of such a name is `crates` itself (`CratePath`, `DotNameAddsNoSegment`). Percent-encoding of pushed segments, dot-segment removal in `join`, and references containing ':', '#', '?' or a backslash are not modelled ('?' starts a query and a backslash separates segments in http(s) URLs), and query strings are modelled as pairs. A version containing one of these characters is therefore not covered by the URL layout `BuildCrateAuthorsUrl` and `BuildCrateDependenciesUrl` state.
- Wire records keep only the fields the modelled operations read or copy. `Crate` leaves out `links`, `recent_downloads`, `exact_match`, `categories`, `keywords` and `versions`, and `Version` leaves out `crate_size` and `published_by` (src/types.rs:276-353).
- Integers are unbounded: u64 page numbers, totals and ids never overflow in the model.
- `to_uppercase` is modelled on ASCII letters only; Unicode case mapping is not modelled.
- The asynchronous `full_version` and `full_crate` (src/async_client.rs:338-412) run their requests concurrently with `try_join!`. Apart from that ordering, they build the same records as the blocking versions modelled here. For a crate without versions they too read `versions[0]` and panic. The concurrency is not modelled.
- `summary`, `user`, the blocking `crates` and `all_crates`, and the client constructors (`new`, `build`, `with_http_client`) are not modelled. The URL builders at the end of src/async_client.rs are the same as src/util.rs, which is modelled.
- The `assert!` that a freshly started page request is Pending (src/async_client.rs:91) is not modelled: a started request is always in flight after the step.
- `cx.waker().wake()`: no scheduler is modelled. `Drain` polls again at once, and every request completes on its first poll there. A request that stays Pending is covered by `PollNext` only, not by the drain lemmas.
- src/sync.rs, src/lib.rs and src/error.rs are not part of this model. Errors keep only the data the client puts in them (`Error::Http` keeps a text cause).
- SyncClient.CrateAuthors: the result is pinned down only for a version without '/' and non-empty. Other versions reach other paths through `join`, which `EmptyVersionEscapesCratePath` shows for the empty one.
- SyncClient.CrateDependencies: as for `CrateAuthors`, the URL is stated only for a plain version.
- CrateUrls.BuildCrateAuthorsUrl: the layout is stated for plain versions; the empty version is covered by `EmptyVersionEscapesCratePath`.
- CrateUrls.BuildCrateDependenciesUrl: the layout is stated for plain versions only.
- Transport.Server: the endpoint oracles stand for `get` calls that return. A status for which `get` panics is modelled by `Classify` and the two `Get` functions only.
- SyncClient.Get: a panic while the blocking client holds its lock poisons the mutex, and every later request then panics at `lock().unwrap()` (src/sync_client.rs:84). The model keeps only the stored start, not the poisoned state.
- AsyncClient.CrateReverseDependencies: the model needs a page that ends the loop to exist. The source loops on `1..` until one does, and wraps or panics after u64::MAX pages.
- SyncClient.CrateReverseDependencies: the same requirement as the asynchronous version. The source loops forever on a server where no page ever ends the loop.
- SyncClient.GetFullCrate: needs the reverse-dependency loop to end whenever the crate, downloads and owners requests succeed, for the same reason.

## Findings

| source | as written | input that shows it | evidently intended | confidence | as-written member | corrected member |
|---|---|---|---|---|---|---|
| src/sync_client.rs:271-288 | An empty version list becomes `vec![]`, and then `versions[0]` is read for the licence | a crate whose `versions` list is empty | the licence absent when there is no version | high, not executed | SyncClient.AssembleAsWritten | SyncClient.Assemble |
| src/sync_client.rs:156-165 | The doc comment says page 0 is coerced to 1, but the page number is passed on unchanged | `crate_reverse_dependencies_page(name, 0)` requests `page=0` | page 0 requested as page 1, as the asynchronous client does | high, not executed | SyncClient.PageZeroNotCoerced | AsyncClient.PageZeroIsPageOne |
| src/async_client.rs:189-218 | The stored start is taken on entry and put back only after a 2xx reply, so a 404, 403 or other error leaves it empty | a 404 at instant 0, then a second request at instant 0 with a 1000-unit interval: both start at 0 | "at most one request will be executed in the specified duration" (src/async_client.rs:105-110, src/sync_client.rs:26) | medium, not executed | AsyncClient.NotFoundLosesSpacing | Transport.StampedStartsAreSpaced |
