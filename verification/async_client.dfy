/**
 * The asynchronous client (src/async_client.rs), minus its waits: `get` with its last-request
 * bookkeeping, single and eager reverse-dependency pages, and the listing request the crate
 * stream issues. Each endpoint's typed reply is a `Server` oracle.
 */
module AsyncClient {
  import opened Wrappers
  import opened Strings
  import opened Urls
  import opened Types
  import opened Errors
  import opened Transport
  import CrateUrls
  import Pagination

  /**
   * `Client::get`: the slot is taken on entry and holds the request start again only once a
   * 2xx reply's body has been read; every other path leaves it empty.
   */
  function Get<T>(url: Url, lastRequest: Option<int>, now: int, rateLimit: nat, reply: Reply,
                  envelope: string -> Option<ApiErrors>,
                  decode: string -> Result<T, DecodeFailure>): (e: Exchange<T>)
    ensures e.result == Classify(url, reply, envelope, decode)
    ensures e.lastRequest.Some? <==> BodyRead2xx(reply)
    ensures e.lastRequest.Some? <==>
              e.result.Completed? && (e.result.value.Success? || e.result.value.error.Api? || e.result.value.error.JsonDecode?)
    ensures e.lastRequest.Some? ==> e.lastRequest.value == RequestStart(lastRequest, now, rateLimit)
  {
    var start := RequestStart(lastRequest, now, rateLimit);
    var result := Classify(url, reply, envelope, decode);
    Exchange(result, if BodyRead2xx(reply) then Some(start) else None)
  }

  /**
   * After a 404 the slot is empty, so a request issued at the same instant starts at once:
   * two request starts 0 apart although the client was built with a 1000-unit interval.
   */
  lemma NotFoundLosesSpacing<T>(url: Url, envelope: string -> Option<ApiErrors>,
                                decode: string -> Result<T, DecodeFailure>)
    ensures var first := Get(url, None, 0, 1000, Received(404, Text("")), envelope, decode);
      && first.result == Completed(Failure(NotFound(url)))
      && first.lastRequest == None
      && RequestStart(first.lastRequest, 0, 1000) == 0
    ensures var first := StampedGet(url, None, 0, 1000, Received(404, Text("")), envelope, decode);
      RequestStart(first.lastRequest, 0, 1000) == 1000
  {
  }

  /** The URL of reverse-dependency page `page` of a crate whose name has no '/'. */
  function ReverseDepsPageUrl(base: Url, crateName: string, page: nat): Url {
    Url(base.origin, CrateUrls.CratePath(base, crateName) + ["reverse_dependencies"],
        [QueryPair("per_page", "100"), QueryPair("page", NatToString(page))])
  }

  /**
   * `crate_reverse_dependencies_page`: page 0 is requested as page 1; the result holds the
   * wire total and the join of the wire page's two lists.
   */
  function CrateReverseDependenciesPage(base: Url, crateName: string, page: nat, server: Server)
    : (r: Result<ReverseDependencies, Error>)
    ensures '/' in crateName ==> r == Failure(NotFound(CrateUrls.NestedBase(base, crateName)))
    ensures '/' !in crateName ==>
              var wire := server.reverseDependencies(ReverseDepsPageUrl(base, crateName, if page == 0 then 1 else page));
              && (wire.Failure? ==> r == Failure(wire.error))
              && (wire.Success? ==> r == Success(ReverseDependencies(JoinRows(wire.value.dependencies, wire.value.versions),
                                                                     wire.value.meta)))
  {
    var page := if page == 0 then 1 else page;
    var url :- CrateUrls.BuildCrateReverseDepsUrl(base, crateName, page);
    var wire :- server.reverseDependencies(url);
    var deps := ReverseDependencies([], Meta(0));
    var deps := deps.(meta := wire.meta);
    assert [] + JoinRows(wire.dependencies, wire.versions) == JoinRows(wire.dependencies, wire.versions);
    Success(Extend(deps, wire))
  }

  /** Requesting page 0 is requesting page 1. */
  lemma PageZeroIsPageOne(base: Url, crateName: string, server: Server)
    ensures CrateReverseDependenciesPage(base, crateName, 0, server) == CrateReverseDependenciesPage(base, crateName, 1, server)
  {
  }

  /** Page `p` of a crate's reverse dependencies, as the eager loop requests it. */
  function PageFetcher(base: Url, crateName: string, server: Server): nat -> Result<ReverseDependencies, Error> {
    (p: nat) => CrateReverseDependenciesPage(base, crateName, p, server)
  }

  /**
   * `crate_reverse_dependencies`: pages 1, 2, ... until the first empty joined page; also
   * returns the number of pages requested. A name with '/' fails on the first request.
   */
  method CrateReverseDependencies(base: Url, crateName: string, server: Server)
    returns (r: Result<ReverseDependencies, Error>, requests: nat)
    requires Pagination.EventuallyStops(PageFetcher(base, crateName, server))
    ensures 1 <= requests
    ensures Pagination.Stops(PageFetcher(base, crateName, server)(requests))
    ensures forall i :: 1 <= i < requests ==> !Pagination.Stops(PageFetcher(base, crateName, server)(i))
    ensures PageFetcher(base, crateName, server)(requests).Failure? ==>
              r == Failure(PageFetcher(base, crateName, server)(requests).error)
    ensures PageFetcher(base, crateName, server)(requests).Success? ==>
              r == Success(ReverseDependencies(Pagination.PagesUpTo(PageFetcher(base, crateName, server), requests - 1),
                                               Meta(Pagination.TotalOf(PageFetcher(base, crateName, server), requests - 1))))
    ensures r == Pagination.Collected(PageFetcher(base, crateName, server))
    ensures '/' in crateName ==> requests == 1 && r == Failure(NotFound(CrateUrls.NestedBase(base, crateName)))
  {
    r, requests := Pagination.CollectPages(PageFetcher(base, crateName, server));
    if '/' in crateName {
      SlashStopsAtFirstPage(base, crateName, server);
    }
  }

  lemma SlashStopsAtFirstPage(base: Url, crateName: string, server: Server)
    requires '/' in crateName
    ensures PageFetcher(base, crateName, server)(1) == Failure(NotFound(CrateUrls.NestedBase(base, crateName)))
  {
  }

  /** `crate_reverse_dependency_count`: the total reported by page 1. */
  function CrateReverseDependencyCount(base: Url, crateName: string, server: Server): (r: Result<nat, Error>)
    ensures r.Success? <==> CrateReverseDependenciesPage(base, crateName, 1, server).Success?
    ensures '/' !in crateName && r.Success? ==>
              r.value == server.reverseDependencies(ReverseDepsPageUrl(base, crateName, 1)).value.meta.total
  {
    var page :- CrateReverseDependenciesPage(base, crateName, 1, server);
    Success(page.meta.total)
  }

  /** The listing URL: `crates` with the query's pairs in `CratesQuery::build` order. */
  function CratesUrl(base: Url, query: CratesQuery): (u: Url)
    ensures u == Url(base.origin, BaseDirectory(base.path) + ["crates"], BuildQuery(query))
    ensures DecodeQuery(u.query) == Some(query)
  {
    JoinSingleSegment(base, "crates", []);
    BuildQueryRoundTrip(query);
    AppendQuery(Join(base, Reference("crates", [])), BuildQuery(query))
  }

  /** `crates`: the listing page the server returns for the query's URL, or its error. */
  function Crates(base: Url, query: CratesQuery, server: Server): (r: Result<CratesPage, Error>)
    ensures r == server.crates(Url(base.origin, BaseDirectory(base.path) + ["crates"], BuildQuery(query)))
  {
    server.crates(CratesUrl(base, query))
  }
}
