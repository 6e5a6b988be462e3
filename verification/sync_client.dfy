/**
 * The blocking client (src/sync_client.rs): `get` with its last-request bookkeeping, reverse
 * dependencies, and the sequential assembly of a full crate record. Each endpoint's typed
 * reply is a `Server` oracle; the URL builders are those of src/util.rs.
 */
module SyncClient {
  import opened Wrappers
  import opened Strings
  import opened Urls
  import opened Types
  import opened Errors
  import opened Transport
  import CrateUrls
  import Pagination
  import AsyncClient

  /**
   * `SyncClient::get`: the slot is taken on entry and holds the request start again as soon as
   * the status is 2xx, before the body is read; every non-2xx path leaves it empty.
   */
  function Get<T>(url: Url, lastRequest: Option<int>, now: int, rateLimit: nat, reply: Reply,
                  envelope: string -> Option<ApiErrors>,
                  decode: string -> Result<T, DecodeFailure>): (e: Exchange<T>)
    ensures e.result == Classify(url, reply, envelope, decode)
    ensures e.lastRequest.Some? <==> reply.Received? && IsSuccess(reply.status)
    ensures e.lastRequest.Some? ==> e.lastRequest.value == RequestStart(lastRequest, now, rateLimit)
  {
    var start := RequestStart(lastRequest, now, rateLimit);
    var result := Classify(url, reply, envelope, decode);
    Exchange(result, if reply.Received? && IsSuccess(reply.status) then Some(start) else None)
  }

  /**
   * Both clients classify every reply alike; their last-request slots differ only for a 2xx
   * reply whose body could not be read, which the blocking client has already stamped.
   */
  lemma {:induction false} ClientsAgree<T>(url: Url, lastRequest: Option<int>, now: int, rateLimit: nat, reply: Reply,
                                          envelope: string -> Option<ApiErrors>,
                                          decode: string -> Result<T, DecodeFailure>)
    ensures Get(url, lastRequest, now, rateLimit, reply, envelope, decode).result ==
            AsyncClient.Get(url, lastRequest, now, rateLimit, reply, envelope, decode).result
    ensures Get(url, lastRequest, now, rateLimit, reply, envelope, decode).lastRequest !=
            AsyncClient.Get(url, lastRequest, now, rateLimit, reply, envelope, decode).lastRequest
            <==> reply.Received? && IsSuccess(reply.status) && reply.body.Unreadable?
  {
    var e := Get(url, lastRequest, now, rateLimit, reply, envelope, decode);
    var a := AsyncClient.Get(url, lastRequest, now, rateLimit, reply, envelope, decode);
    if reply.Received? && IsSuccess(reply.status) && reply.body.Text? {
      assert e.lastRequest == Some(RequestStart(lastRequest, now, rateLimit)) == a.lastRequest;
    }
  }

  /** `get_crate`. */
  function GetCrate(base: Url, crateName: string, server: Server): (r: Result<CrateResponse, Error>)
    ensures '/' in crateName ==> r == Failure(NotFound(Url(base.origin, CrateUrls.CratePath(base, crateName), [])))
    ensures '/' !in crateName ==> r == server.crate(Url(base.origin, CrateUrls.CratePath(base, crateName), []))
  {
    var url :- CrateUrls.BuildCrateUrl(base, crateName);
    server.crate(url)
  }

  /** `crate_downloads`. */
  function CrateDownloads(base: Url, crateName: string, server: Server): (r: Result<Types.CrateDownloads, Error>)
    ensures '/' in crateName ==> r == Failure(NotFound(CrateUrls.NestedBase(base, crateName)))
    ensures '/' !in crateName ==>
              r == server.downloads(Url(base.origin, CrateUrls.CratePath(base, crateName) + ["downloads"], []))
  {
    var url :- CrateUrls.BuildCrateDownloadsUrl(base, crateName);
    server.downloads(url)
  }

  /** `crate_owners`: the users of the owners reply. */
  function CrateOwners(base: Url, crateName: string, server: Server): (r: Result<seq<User>, Error>)
    ensures '/' in crateName ==> r == Failure(NotFound(CrateUrls.NestedBase(base, crateName)))
    ensures '/' !in crateName ==>
              var reply := server.owners(Url(base.origin, CrateUrls.CratePath(base, crateName) + ["owners"], []));
              && (reply.Failure? ==> r == Failure(reply.error))
              && (reply.Success? ==> r == Success(reply.value.users))
  {
    var url :- CrateUrls.BuildCrateOwnersUrl(base, crateName);
    var owners :- server.owners(url);
    Success(owners.users)
  }

  /** `crate_authors`: the author names of one version. */
  function CrateAuthors(base: Url, crateName: string, version: string, server: Server): (r: Result<seq<string>, Error>)
    ensures '/' in crateName ==> r == Failure(NotFound(CrateUrls.NestedBase(base, crateName)))
    ensures '/' !in crateName && '/' !in version && version != "" ==>
              var reply := server.authors(Url(base.origin, CrateUrls.CratePath(base, crateName) + [version, "authors"], []));
              && (reply.Failure? ==> r == Failure(reply.error))
              && (reply.Success? ==> r == Success(reply.value.names))
  {
    var url :- CrateUrls.BuildCrateAuthorsUrl(base, crateName, version);
    var res :- server.authors(url);
    Success(res.names)
  }

  /** `crate_dependencies`: the dependencies of one version. */
  function CrateDependencies(base: Url, crateName: string, version: string, server: Server): (r: Result<seq<Dependency>, Error>)
    ensures '/' in crateName ==> r == Failure(NotFound(CrateUrls.NestedBase(base, crateName)))
    ensures '/' !in crateName && '/' !in version && version != "" ==>
              var reply := server.dependencies(Url(base.origin, CrateUrls.CratePath(base, crateName) + [version, "dependencies"], []));
              && (reply.Failure? ==> r == Failure(reply.error))
              && (reply.Success? ==> r == Success(reply.value.dependencies))
  {
    var url :- CrateUrls.BuildCrateDependenciesUrl(base, crateName, version);
    var res :- server.dependencies(url);
    Success(res.dependencies)
  }

  /**
   * `crate_reverse_dependencies_page` as written: the page number goes into the URL unchanged,
   * so page 0 is requested as page 0.
   */
  function CrateReverseDependenciesPage(base: Url, crateName: string, page: nat, server: Server)
    : (r: Result<ReverseDependencies, Error>)
    ensures '/' in crateName ==> r == Failure(NotFound(CrateUrls.NestedBase(base, crateName)))
    ensures '/' !in crateName ==>
              var wire := server.reverseDependencies(AsyncClient.ReverseDepsPageUrl(base, crateName, page));
              && (wire.Failure? ==> r == Failure(wire.error))
              && (wire.Success? ==> r == Success(ReverseDependencies(JoinRows(wire.value.dependencies, wire.value.versions),
                                                                     wire.value.meta)))
  {
    var url :- CrateUrls.BuildCrateReverseDepsUrl(base, crateName, page);
    var wire :- server.reverseDependencies(url);
    var deps := ReverseDependencies([], Meta(0));
    var deps := deps.(meta := wire.meta);
    assert [] + JoinRows(wire.dependencies, wire.versions) == JoinRows(wire.dependencies, wire.versions);
    Success(Extend(deps, wire))
  }

  /**
   * For page 0 the blocking client asks the server for `page=0` while the asynchronous client
   * asks for `page=1`: the two differ whenever the server answers those two URLs differently.
   */
  lemma PageZeroNotCoerced(base: Url, crateName: string, server: Server)
    requires '/' !in crateName
    ensures var zero := AsyncClient.ReverseDepsPageUrl(base, crateName, 0);
            var one := AsyncClient.ReverseDepsPageUrl(base, crateName, 1);
            && zero.query[1] == QueryPair("page", "0")
            && one.query[1] == QueryPair("page", "1")
            && zero != one
            && AsyncClient.CrateReverseDependenciesPage(base, crateName, 0, server)
               == CrateReverseDependenciesPage(base, crateName, 1, server)
  {
    assert NatToString(0) == "0" && NatToString(1) == "1";
  }

  /** For every page from 1 on, the two clients request and return the same thing. */
  lemma PagesAgreeFromOne(base: Url, crateName: string, page: nat, server: Server)
    requires page >= 1
    ensures CrateReverseDependenciesPage(base, crateName, page, server) ==
            AsyncClient.CrateReverseDependenciesPage(base, crateName, page, server)
  {
  }

  function PageFetcher(base: Url, crateName: string, server: Server): nat -> Result<ReverseDependencies, Error> {
    (p: nat) => CrateReverseDependenciesPage(base, crateName, p, server)
  }

  /**
   * `crate_reverse_dependencies`: pages 1, 2, ... until the first empty joined page, failing
   * on the first page error; also returns the number of pages requested.
   */
  method CrateReverseDependencies(base: Url, crateName: string, server: Server)
    returns (r: Result<ReverseDependencies, Error>, requests: nat)
    requires Pagination.EventuallyStops(PageFetcher(base, crateName, server))
    ensures 1 <= requests
    ensures Pagination.Stops(PageFetcher(base, crateName, server)(requests))
    ensures forall i :: 1 <= i < requests ==> !Pagination.Stops(PageFetcher(base, crateName, server)(i))
    ensures PageFetcher(base, crateName, server)(requests).Failure? ==>
              r == Failure(PageFetcher(base, crateName, server)(requests).error)
    ensures PageFetcher(base, crateName, server)(requests).Success? ==>
              r == Success(ReverseDependencies(Pagination.PagesUpTo(PageFetcher(base, crateName, server), requests - 1),
                                               Meta(Pagination.TotalOf(PageFetcher(base, crateName, server), requests - 1))))
    ensures r == Pagination.Collected(PageFetcher(base, crateName, server))
  {
    r, requests := Pagination.CollectPages(PageFetcher(base, crateName, server));
  }

  /** `crate_reverse_dependency_count`: the total reported by page 1. */
  function CrateReverseDependencyCount(base: Url, crateName: string, server: Server): (r: Result<nat, Error>)
    ensures r.Success? <==> CrateReverseDependenciesPage(base, crateName, 1, server).Success?
    ensures '/' !in crateName && r.Success? ==>
              r.value == server.reverseDependencies(AsyncClient.ReverseDepsPageUrl(base, crateName, 1)).value.meta.total
  {
    var page :- CrateReverseDependenciesPage(base, crateName, 1, server);
    Success(page.meta.total)
  }

  // ---------------------------------------------------------------------------
  // Full versions and full crates

  /**
   * `full_version`: authors first, then dependencies (the first failure wins); on success the
   * version's own fields are copied and the two replies attached.
   */
  function FetchFullVersion(base: Url, v: Version, server: Server): (r: Result<FullVersion, Error>)
    ensures r.Success? <==> CrateAuthors(base, v.crateName, v.num, server).Success? &&
                            CrateDependencies(base, v.crateName, v.num, server).Success?
    ensures CrateAuthors(base, v.crateName, v.num, server).Failure? ==>
              r == Failure(CrateAuthors(base, v.crateName, v.num, server).error)
    ensures CrateAuthors(base, v.crateName, v.num, server).Success? &&
            CrateDependencies(base, v.crateName, v.num, server).Failure? ==>
              r == Failure(CrateDependencies(base, v.crateName, v.num, server).error)
    ensures r.Success? ==>
              && r.value.id == v.id && r.value.num == v.num && r.value.yanked == v.yanked
              && r.value.license == v.license && r.value.dlPath == v.dlPath && r.value.downloads == v.downloads
              && r.value.features == v.features && r.value.links == v.links && r.value.readmePath == v.readmePath
              && r.value.createdAt == v.createdAt && r.value.updatedAt == v.updatedAt
              && r.value.authorNames == CrateAuthors(base, v.crateName, v.num, server).value
              && r.value.dependencies == CrateDependencies(base, v.crateName, v.num, server).value
  {
    var authors :- CrateAuthors(base, v.crateName, v.num, server);
    var deps :- CrateDependencies(base, v.crateName, v.num, server);
    Success(FullVersion(v.createdAt, v.updatedAt, v.dlPath, v.downloads, v.features, v.id, v.num,
                        v.yanked, v.license, v.readmePath, v.links, authors, deps))
  }

  /** The version a full version describes, given its crate: the two attached replies are dropped. */
  function BaseVersion(fv: FullVersion, crateName: string): Version {
    Version(crateName, fv.createdAt, fv.updatedAt, fv.dlPath, fv.downloads, fv.features, fv.id, fv.num,
            fv.yanked, fv.license, fv.readmePath, fv.links)
  }

  /** A resolved full version is its version plus the two replies: dropping them gives the version back. */
  lemma FullVersionRestoresVersion(base: Url, v: Version, server: Server)
    requires FetchFullVersion(base, v, server).Success?
    ensures BaseVersion(FetchFullVersion(base, v, server).value, v.crateName) == v
  {
  }

  /**
   * `collect::<Result<Vec<_>, _>>()` over `map(f)`: every element mapped in order, or the
   * error of the first element whose mapping fails.
   */
  function TryMap<A, B, E>(xs: seq<A>, f: A -> Result<B, E>): (r: Result<seq<B>, E>)
    ensures r.Success? <==> forall i :: 0 <= i < |xs| ==> f(xs[i]).Success?
    ensures r.Success? ==>
              (&& |r.value| == |xs|
               && forall i :: 0 <= i < |xs| ==> Success(r.value[i]) == f(xs[i]))
    ensures r.Failure? ==>
              (exists i :: && 0 <= i < |xs|
                           && f(xs[i]) == Failure(r.error)
                           && forall j :: 0 <= j < i ==> f(xs[j]).Success?)
  {
    if |xs| == 0 then Success([])
    else
      var first :- f(xs[0]);
      var rest :- TryMap(xs[1..], f);
      assert forall i :: 1 <= i < |xs| ==> xs[i] == xs[1..][i - 1];
      Success([first] + rest)
  }

  /** Resolves every version in order, stopping at the first failure. */
  function ResolveAll(base: Url, versions: seq<Version>, server: Server): Result<seq<FullVersion>, Error> {
    TryMap(versions, v => FetchFullVersion(base, v, server))
  }

  /** Every resolved version, in order, is the full form of the version at the same position. */
  lemma ResolveAllRestoresVersions(base: Url, versions: seq<Version>, server: Server)
    requires ResolveAll(base, versions, server).Success?
    ensures |ResolveAll(base, versions, server).value| == |versions|
    ensures forall i :: 0 <= i < |versions| ==>
              BaseVersion(ResolveAll(base, versions, server).value[i], versions[i].crateName) == versions[i]
  {
    var f := v => FetchFullVersion(base, v, server);
    var r := ResolveAll(base, versions, server);
    forall i | 0 <= i < |versions|
      ensures BaseVersion(r.value[i], versions[i].crateName) == versions[i]
    {
      assert Success(r.value[i]) == f(versions[i]);
      FullVersionRestoresVersion(base, versions[i], server);
    }
  }

  /** Version selection in `full_crate`: none, every one, or only the first (the newest). */
  function SelectVersions(base: Url, versions: seq<Version>, allVersions: bool, server: Server)
    : (r: Result<seq<FullVersion>, Error>)
    ensures |versions| == 0 ==> r == Success([])
    ensures |versions| > 0 && allVersions ==> r == ResolveAll(base, versions, server)
    ensures |versions| > 0 && !allVersions ==>
              match FetchFullVersion(base, versions[0], server)
              case Success(fv) => r == Success([fv])
              case Failure(e) => r == Failure(e)
    ensures r.Success? ==> |r.value| == (if allVersions then |versions| else if |versions| == 0 then 0 else 1)
  {
    if |versions| == 0 then Success([])
    else if allVersions then ResolveAll(base, versions, server)
    else
      var v :- FetchFullVersion(base, versions[0], server);
      Success([v])
  }

  /** The parts `full_crate` fetches before assembling the record. */
  datatype Parts = Parts(
    crate: CrateResponse,
    downloads: Types.CrateDownloads,
    owners: seq<User>,
    reverseDependencies: ReverseDependencies,
    versions: seq<FullVersion>)

  /** `full_crate`'s record, with the licence taken from the first resolved version when there is one. */
  function Assemble(p: Parts): (c: FullCrate)
    ensures c.license == (if |p.versions| == 0 then None else p.versions[0].license)
    ensures c.versions == p.versions && c.reverseDependencies == p.reverseDependencies
    ensures c.owners == p.owners && c.downloads == p.downloads
    ensures c.id == p.crate.crateData.id && c.name == p.crate.crateData.name
    ensures c.totalDownloads == p.crate.crateData.downloads && c.maxVersion == p.crate.crateData.maxVersion
    ensures c.categories == p.crate.categories && c.keywords == p.crate.keywords
    ensures c.description == p.crate.crateData.description && c.documentation == p.crate.crateData.documentation
    ensures c.homepage == p.crate.crateData.homepage && c.repository == p.crate.crateData.repository
    ensures c.maxStableVersion == p.crate.crateData.maxStableVersion
    ensures c.createdAt == p.crate.crateData.createdAt && c.updatedAt == p.crate.crateData.updatedAt
  {
    var data := p.crate.crateData;
    FullCrate(data.id, data.name, data.description,
              if |p.versions| == 0 then None else p.versions[0].license,
              data.documentation, data.homepage, data.repository, data.downloads, data.maxVersion,
              data.maxStableVersion, data.createdAt, data.updatedAt, p.crate.categories, p.crate.keywords,
              p.downloads, p.owners, p.reverseDependencies, p.versions)
  }

  /** The record as `full_crate` builds it: `versions[0]` is read unconditionally for the licence. */
  function AssembleAsWritten(p: Parts): (r: Ending<FullCrate>)
    ensures r.Panicked? <==> |p.versions| == 0
  {
    if |p.versions| == 0 then Panicked
    else Completed(Assemble(p))
  }

  /** Where the resolved versions exist, the written assembly and the corrected one agree. */
  lemma AssemblyAgreesWithVersions(p: Parts)
    requires |p.versions| > 0
    ensures AssembleAsWritten(p) == Completed(Assemble(p))
    ensures Assemble(p).license == p.versions[0].license
  {
  }

  /**
   * A crate published with no version makes `full_crate` panic: version selection yields the
   * empty list, and the licence is then read from its first element.
   */
  lemma NoVersionsPanics(base: Url, p: Parts, allVersions: bool, server: Server)
    requires p.crate.versions == []
    requires p.versions == SelectVersions(base, p.crate.versions, allVersions, server).value
    ensures SelectVersions(base, p.crate.versions, allVersions, server) == Success([])
    ensures AssembleAsWritten(p) == Panicked
    ensures Assemble(p).license == None && Assemble(p).versions == []
  {
  }

  /** The crate, downloads and owners requests `full_crate` issues before it paginates all succeed. */
  predicate LeadingPartsSucceed(base: Url, crateName: string, server: Server) {
    GetCrate(base, crateName, server).Success? && CrateDownloads(base, crateName, server).Success?
    && CrateOwners(base, crateName, server).Success?
  }

  /**
   * The rest of `full_crate` once the crate, its downloads and its owners are in hand: every
   * reverse-dependency page, then version selection, then the record; the first failure wins.
   */
  method CompleteFullCrate(base: Url, crateName: string, allVersions: bool, server: Server,
                           resp: CrateResponse, dls: Types.CrateDownloads, owners: seq<User>)
    returns (r: Result<Types.FullCrate, Error>)
    requires Pagination.EventuallyStops(PageFetcher(base, crateName, server))
    ensures var rdeps := Pagination.Collected(PageFetcher(base, crateName, server));
            var versions := SelectVersions(base, resp.versions, allVersions, server);
            && (rdeps.Failure? ==> r == Failure(rdeps.error))
            && (rdeps.Success? && versions.Failure? ==> r == Failure(versions.error))
            && (r.Success? <==> rdeps.Success? && versions.Success?)
            && (r.Success? ==> r.value == Assemble(Parts(resp, dls, owners, rdeps.value, versions.value)))
  {
    var rdeps, _ := CrateReverseDependencies(base, crateName, server);
    if rdeps.Failure? {
      return Failure(rdeps.error);
    }
    var versions :- SelectVersions(base, resp.versions, allVersions, server);
    r := Success(Assemble(Parts(resp, dls, owners, rdeps.value, versions)));
  }

  /**
   * `full_crate`, with the licence taken as `None` when the crate has no version (where the
   * code as written panics, see `AssembleAsWritten`). The parts are fetched in the source's
   * order: crate, downloads, owners, reverse dependencies, versions; the first failure is the
   * result, and when every part succeeds the record is assembled from exactly those parts.
   * The reverse-dependency loop only runs, and so only needs to end, once the first three succeed.
   */
  method GetFullCrate(base: Url, crateName: string, allVersions: bool, server: Server)
    returns (r: Result<Types.FullCrate, Error>)
    requires LeadingPartsSucceed(base, crateName, server) ==> Pagination.EventuallyStops(PageFetcher(base, crateName, server))
    ensures '/' in crateName ==> r.Failure? && r.error.NotFound?
    ensures GetCrate(base, crateName, server).Failure? ==> r == Failure(GetCrate(base, crateName, server).error)
    ensures GetCrate(base, crateName, server).Success? && CrateDownloads(base, crateName, server).Failure? ==>
              r == Failure(CrateDownloads(base, crateName, server).error)
    ensures GetCrate(base, crateName, server).Success? && CrateDownloads(base, crateName, server).Success? &&
            CrateOwners(base, crateName, server).Failure? ==>
              r == Failure(CrateOwners(base, crateName, server).error)
    ensures LeadingPartsSucceed(base, crateName, server) ==>
              var rdeps := Pagination.Collected(PageFetcher(base, crateName, server));
              var versions := SelectVersions(base, GetCrate(base, crateName, server).value.versions, allVersions, server);
              && (rdeps.Failure? ==> r == Failure(rdeps.error))
              && (rdeps.Success? && versions.Failure? ==> r == Failure(versions.error))
              && (r.Success? <==> rdeps.Success? && versions.Success?)
              && (r.Success? ==>
                    r.value == Assemble(Parts(GetCrate(base, crateName, server).value,
                                              CrateDownloads(base, crateName, server).value,
                                              CrateOwners(base, crateName, server).value,
                                              rdeps.value, versions.value)))
    ensures r.Success? ==> LeadingPartsSucceed(base, crateName, server)
    ensures r.Success? ==>
              var resp := GetCrate(base, crateName, server).value;
              r.value.license == (if resp.versions == [] then None else resp.versions[0].license)
  {
    var resp :- GetCrate(base, crateName, server);
    var dls :- CrateDownloads(base, crateName, server);
    var owners :- CrateOwners(base, crateName, server);
    r := CompleteFullCrate(base, crateName, allVersions, server, resp, dls, owners);
  }
}
