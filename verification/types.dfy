/** The data the API exchanges (src/types.rs): query options, wire records and the reverse-dependency join. */
module Types {
  import opened Wrappers
  import opened Strings
  import opened Urls

  /** RFC 3339 text of a `DateTime<Utc>`; the model never inspects it. */
  datatype Timestamp = Timestamp(rfc3339: string)

  /** The registry a client talks to. */
  datatype Registry = Registry(url: string, name: Option<string>, token: Option<string>)

  /** One entry of the error envelope the API may send with a 2xx status. */
  datatype ApiError = ApiError(detail: Option<string>)

  datatype ApiErrors = ApiErrors(errors: seq<ApiError>)

  const UNKNOWN_API_ERROR: string := "Unknown API Error"

  /** `Display` of an `ApiError`: its detail text, or a fixed sentinel when the server sent none. */
  function ApiErrorMessage(e: ApiError): (msg: string)
    ensures e.detail.Some? ==> msg == e.detail.value
    ensures e.detail.None? ==> msg == UNKNOWN_API_ERROR
    ensures msg == "" <==> e.detail == Some("")
  {
    e.detail.GetOr(UNKNOWN_API_ERROR)
  }

  // ---------------------------------------------------------------------------
  // Listing query

  datatype Sort = Alphabetical | Relevance | Downloads | RecentDownloads | RecentUpdates | NewlyAdded

  /** The wire value of each sort order; relevance is the one empty value. */
  function SortName(s: Sort): (w: string)
    ensures w == "" <==> s == Relevance
  {
    match s
    case Alphabetical => "alpha"
    case Relevance => ""
    case Downloads => "downloads"
    case RecentDownloads => "recent-downloads"
    case RecentUpdates => "recent-updates"
    case NewlyAdded => "new"
  }

  /** Reads a wire sort value back; anything that is not one of the six values is rejected. */
  function ParseSort(w: string): (r: Option<Sort>)
    ensures r.Some? ==> SortName(r.value) == w
  {
    if w == "alpha" then Some(Alphabetical)
    else if w == "" then Some(Relevance)
    else if w == "downloads" then Some(Downloads)
    else if w == "recent-downloads" then Some(RecentDownloads)
    else if w == "recent-updates" then Some(RecentUpdates)
    else if w == "new" then Some(NewlyAdded)
    else None
  }

  /** Every sort order has its own wire value, which reads back as that order. */
  lemma SortNameRoundTrip(s: Sort)
    ensures ParseSort(SortName(s)) == Some(s)
  {
  }

  /** Options of the crate listing: sort, page size, page, and three optional filters. */
  datatype CratesQuery = CratesQuery(
    sort: Sort,
    perPage: nat,
    page: nat,
    userId: Option<nat>,
    category: Option<string>,
    search: Option<string>)

  /** `CratesQuery::default()`. */
  function DefaultQuery(): (q: CratesQuery)
    ensures q.sort == RecentUpdates && q.perPage == 30 && q.page == 1
    ensures q.userId.None? && q.category.None? && q.search.None?
  {
    CratesQuery(RecentUpdates, 30, 1, None, None, None)
  }

  /** Where a filter key comes in a listing request: user_id, then q, then category; any other key after them. */
  function FilterRank(key: string): nat {
    if key == "user_id" then 0 else if key == "q" then 1 else if key == "category" then 2 else 3
  }

  /** `CratesQuery::build`: the query pairs of a listing request, in the order they are appended. */
  function BuildQuery(q: CratesQuery): (pairs: seq<QueryPair>)
    ensures |pairs| >= 3
    ensures pairs[0] == QueryPair("page", NatToString(q.page))
    ensures pairs[1] == QueryPair("per_page", NatToString(q.perPage))
    ensures pairs[2] == QueryPair("sort", SortName(q.sort))
    ensures |pairs| == 3 + (if q.userId.Some? then 1 else 0) + (if q.search.Some? then 1 else 0)
                         + (if q.category.Some? then 1 else 0)
    ensures forall i :: 3 <= i < |pairs| ==> pairs[i].key in {"user_id", "q", "category"}
    ensures forall i, j :: 3 <= i < j < |pairs| ==> FilterRank(pairs[i].key) < FilterRank(pairs[j].key)
    ensures Lookup(pairs[3..], "user_id") == if q.userId.Some? then Some(NatToString(q.userId.value)) else None
    ensures Lookup(pairs[3..], "q") == q.search
    ensures Lookup(pairs[3..], "category") == q.category
  {
    var pairs := [QueryPair("page", NatToString(q.page)),
                  QueryPair("per_page", NatToString(q.perPage)),
                  QueryPair("sort", SortName(q.sort))]
                 + FilterPairs(q);
    assert pairs[3..] == FilterPairs(q);
    FilterPairsOrdered(q);
    LookupUserId(q);
    LookupSearch(q);
    LookupCategory(q);
    pairs
  }

  /** The value of the first pair with `key`, if any. */
  function Lookup(pairs: seq<QueryPair>, key: string): (r: Option<string>)
    ensures r.None? <==> forall i :: 0 <= i < |pairs| ==> pairs[i].key != key
  {
    if |pairs| == 0 then None
    else if pairs[0].key == key then Some(pairs[0].value)
    else Lookup(pairs[1..], key)
  }

  function ParseNumber(s: string): Option<nat> {
    if |s| > 0 && AllDigits(s) then Some(ParseNat(s)) else None
  }

  /**
   * Reads listing query pairs back into a query: the three leading pairs must be page,
   * per_page and sort in that order, and the optional filters are looked up by key after them.
   */
  function DecodeQuery(pairs: seq<QueryPair>): Option<CratesQuery> {
    if |pairs| < 3 || pairs[0].key != "page" || pairs[1].key != "per_page" || pairs[2].key != "sort" then None
    else
      match (ParseNumber(pairs[0].value), ParseNumber(pairs[1].value), ParseSort(pairs[2].value))
      case (Some(page), Some(perPage), Some(sort)) =>
        var rest := pairs[3..];
        var userId := Lookup(rest, "user_id");
        if userId.Some? && ParseNumber(userId.value).None? then None
        else
          Some(CratesQuery(sort, perPage, page,
                           if userId.Some? then ParseNumber(userId.value) else None,
                           Lookup(rest, "category"), Lookup(rest, "q")))
      case _ => None
  }

  /** The optional filter pairs that follow page, per_page and sort in `CratesQuery::build`. */
  function FilterPairs(q: CratesQuery): seq<QueryPair> {
    (if q.userId.Some? then [QueryPair("user_id", NatToString(q.userId.value))] else [])
    + (if q.search.Some? then [QueryPair("q", q.search.value)] else [])
    + (if q.category.Some? then [QueryPair("category", q.category.value)] else [])
  }

  /** The filter pairs carry only filter keys, each at most once, in the order user_id, q, category. */
  lemma FilterPairsOrdered(q: CratesQuery)
    ensures |FilterPairs(q)| == (if q.userId.Some? then 1 else 0) + (if q.search.Some? then 1 else 0)
                                + (if q.category.Some? then 1 else 0)
    ensures forall i :: 0 <= i < |FilterPairs(q)| ==> FilterPairs(q)[i].key in {"user_id", "q", "category"}
    ensures forall i, j :: 0 <= i < j < |FilterPairs(q)| ==>
              FilterRank(FilterPairs(q)[i].key) < FilterRank(FilterPairs(q)[j].key)
  {
  }

  lemma LookupUserId(q: CratesQuery)
    ensures Lookup(FilterPairs(q), "user_id") == if q.userId.Some? then Some(NatToString(q.userId.value)) else None
  {
    var fp := FilterPairs(q);
    if q.userId.None? {
      assert forall i :: 0 <= i < |fp| ==> fp[i].key in {"q", "category"};
    }
  }

  lemma LookupSearch(q: CratesQuery)
    ensures Lookup(FilterPairs(q), "q") == q.search
  {
    var fp := FilterPairs(q);
    var tail := (if q.search.Some? then [QueryPair("q", q.search.value)] else [])
                + (if q.category.Some? then [QueryPair("category", q.category.value)] else []);
    if q.userId.Some? {
      assert fp == [fp[0]] + tail;
      assert fp[1..] == tail;
    } else {
      assert fp == tail;
    }
    if q.search.None? {
      assert forall i :: 0 <= i < |tail| ==> tail[i].key == "category";
    }
  }

  lemma LookupCategory(q: CratesQuery)
    ensures Lookup(FilterPairs(q), "category") == q.category
  {
    var fp := FilterPairs(q);
    if q.category.Some? {
      assert fp[|fp| - 1] == QueryPair("category", q.category.value);
      assert forall i :: 0 <= i < |fp| - 1 ==> fp[i].key in {"user_id", "q"};
      LookupLast(fp, "category");
    } else {
      assert forall i :: 0 <= i < |fp| ==> fp[i].key in {"user_id", "q"};
    }
  }

  /** `CratesQuery::build` loses nothing: the listing query can be read back from its pairs. */
  lemma {:induction false} BuildQueryRoundTrip(q: CratesQuery)
    ensures DecodeQuery(BuildQuery(q)) == Some(q)
  {
    var pairs := BuildQuery(q);
    ParseNatToString(q.page);
    ParseNatToString(q.perPage);
    SortNameRoundTrip(q.sort);
    assert pairs[3..] == FilterPairs(q);
    FilterPairsOrdered(q);
    LookupUserId(q);
    LookupSearch(q);
    LookupCategory(q);
    if q.userId.Some? {
      ParseNatToString(q.userId.value);
    }
  }

  /** A key that only the last pair carries is looked up to that pair's value. */
  lemma {:induction false} LookupLast(pairs: seq<QueryPair>, key: string)
    requires |pairs| > 0 && pairs[|pairs| - 1].key == key
    requires forall i :: 0 <= i < |pairs| - 1 ==> pairs[i].key != key
    ensures Lookup(pairs, key) == Some(pairs[|pairs| - 1].value)
    decreases |pairs|
  {
    if |pairs| > 1 {
      LookupLast(pairs[1..], key);
    }
  }

  // Setters: each changes its own field and nothing else, and the new value is what the listing request carries.

  function SetSort(q: CratesQuery, sort: Sort): (r: CratesQuery)
    ensures r.sort == sort && r.(sort := q.sort) == q
    ensures BuildQuery(r)[2] == QueryPair("sort", SortName(sort))
  {
    q.(sort := sort)
  }

  function SetPageSize(q: CratesQuery, perPage: nat): (r: CratesQuery)
    ensures r.perPage == perPage && r.(perPage := q.perPage) == q
    ensures BuildQuery(r)[1] == QueryPair("per_page", NatToString(perPage))
  {
    q.(perPage := perPage)
  }

  function SetPage(q: CratesQuery, page: nat): (r: CratesQuery)
    ensures r.page == page && r.(page := q.page) == q
    ensures BuildQuery(r)[0] == QueryPair("page", NatToString(page))
  {
    q.(page := page)
  }

  function SetUserId(q: CratesQuery, userId: Option<nat>): (r: CratesQuery)
    ensures r.userId == userId && r.(userId := q.userId) == q
    ensures Lookup(BuildQuery(r)[3..], "user_id") == if userId.Some? then Some(NatToString(userId.value)) else None
  {
    q.(userId := userId)
  }

  function SetCategory(q: CratesQuery, category: Option<string>): (r: CratesQuery)
    ensures r.category == category && r.(category := q.category) == q
    ensures Lookup(BuildQuery(r)[3..], "category") == category
  {
    q.(category := category)
  }

  function SetSearch(q: CratesQuery, search: Option<string>): (r: CratesQuery)
    ensures r.search == search && r.(search := q.search) == q
    ensures Lookup(BuildQuery(r)[3..], "q") == search
  {
    q.(search := search)
  }

  /** Setting one field leaves the wire form of every other field as it was. */
  lemma SetPageKeepsOtherPairs(q: CratesQuery, page: nat)
    ensures BuildQuery(SetPage(q, page))[0] == QueryPair("page", NatToString(page))
    ensures BuildQuery(SetPage(q, page))[1..] == BuildQuery(q)[1..]
  {
  }

  // Builder

  /** `CratesQueryBuilder`: a query under construction. */
  datatype CratesQueryBuilder = CratesQueryBuilder(query: CratesQuery)

  /** `CratesQueryBuilder::new()` starts from the default query. */
  function NewBuilder(): (b: CratesQueryBuilder)
    ensures b.query == DefaultQuery()
  {
    CratesQueryBuilder(DefaultQuery())
  }

  function BuilderSort(b: CratesQueryBuilder, sort: Sort): (r: CratesQueryBuilder)
    ensures r.query.sort == sort && r.query.(sort := b.query.sort) == b.query
  {
    CratesQueryBuilder(b.query.(sort := sort))
  }

  function BuilderPageSize(b: CratesQueryBuilder, size: nat): (r: CratesQueryBuilder)
    ensures r.query.perPage == size && r.query.(perPage := b.query.perPage) == b.query
  {
    CratesQueryBuilder(b.query.(perPage := size))
  }

  function BuilderUserId(b: CratesQueryBuilder, userId: nat): (r: CratesQueryBuilder)
    ensures r.query.userId == Some(userId) && r.query.(userId := b.query.userId) == b.query
  {
    CratesQueryBuilder(b.query.(userId := Some(userId)))
  }

  function BuilderCategory(b: CratesQueryBuilder, category: string): (r: CratesQueryBuilder)
    ensures r.query.category == Some(category) && r.query.(category := b.query.category) == b.query
  {
    CratesQueryBuilder(b.query.(category := Some(category)))
  }

  function BuilderSearch(b: CratesQueryBuilder, search: string): (r: CratesQueryBuilder)
    ensures r.query.search == Some(search) && r.query.(search := b.query.search) == b.query
  {
    CratesQueryBuilder(b.query.(search := Some(search)))
  }

  /** `CratesQueryBuilder::build()` hands out the query as built. */
  function BuildFromBuilder(b: CratesQueryBuilder): (q: CratesQuery)
    ensures CratesQueryBuilder(q) == b
  {
    b.query
  }

  /** Each builder step is the matching setter applied to the query under construction. */
  lemma BuilderAgreesWithSetters(b: CratesQueryBuilder, sort: Sort, size: nat, userId: nat, category: string, search: string)
    ensures BuildFromBuilder(BuilderSort(b, sort)) == SetSort(BuildFromBuilder(b), sort)
    ensures BuildFromBuilder(BuilderPageSize(b, size)) == SetPageSize(BuildFromBuilder(b), size)
    ensures BuildFromBuilder(BuilderUserId(b, userId)) == SetUserId(BuildFromBuilder(b), Some(userId))
    ensures BuildFromBuilder(BuilderCategory(b, category)) == SetCategory(BuildFromBuilder(b), Some(category))
    ensures BuildFromBuilder(BuilderSearch(b, search)) == SetSearch(BuildFromBuilder(b), Some(search))
  {
  }

  /** The default listing request asks for page 1 of 30 crates, most recently updated first, with no filter. */
  lemma DefaultQueryWire()
    ensures BuildQuery(DefaultQuery()) ==
              [QueryPair("page", "1"), QueryPair("per_page", "30"), QueryPair("sort", "recent-updates")]
  {
    assert DigitChar(0) == '0' && DigitChar(1) == '1' && DigitChar(3) == '3';
    assert NatToString(1) == "1";
    assert NatToString(30) == NatToString(3) + [DigitChar(0)] == "30";
  }

  // ---------------------------------------------------------------------------
  // Wire records

  datatype Meta = Meta(total: nat)

  datatype User = User(id: nat, login: string, name: Option<string>)

  datatype Category = Category(id: string, category: string, cratesCnt: nat)

  datatype Keyword = Keyword(id: string, keyword: string, cratesCnt: nat)

  /** A crate as listed; fields the client only passes through are left out. */
  datatype Crate = Crate(
    id: string,
    name: string,
    description: Option<string>,
    documentation: Option<string>,
    homepage: Option<string>,
    repository: Option<string>,
    downloads: nat,
    maxVersion: string,
    maxStableVersion: Option<string>,
    createdAt: Timestamp,
    updatedAt: Timestamp)

  /** One page of the crate listing. */
  datatype CratesPage = CratesPage(crates: seq<Crate>, meta: Meta)

  datatype VersionLinks = VersionLinks(authors: string, dependencies: string, versionDownloads: string)

  /** A published version of a crate. */
  datatype Version = Version(
    crateName: string,
    createdAt: Timestamp,
    updatedAt: Timestamp,
    dlPath: string,
    downloads: nat,
    features: map<string, seq<string>>,
    id: nat,
    num: string,
    yanked: bool,
    license: Option<string>,
    readmePath: Option<string>,
    links: VersionLinks)

  /** `crate` endpoint reply: the crate and its versions (newest first on the wire). */
  datatype CrateResponse = CrateResponse(
    categories: seq<Category>,
    crateData: Crate,
    keywords: seq<Keyword>,
    versions: seq<Version>)

  datatype VersionDownloads = VersionDownloads(date: string, downloads: nat, version: nat)

  datatype CrateDownloads = CrateDownloads(versionDownloads: seq<VersionDownloads>)

  datatype Owners = Owners(users: seq<User>)

  datatype AuthorsResponse = AuthorsResponse(names: seq<string>)

  /** One dependency edge: the version `versionId` depends on crate `crateId`. */
  datatype Dependency = Dependency(
    crateId: string,
    defaultFeatures: bool,
    downloads: nat,
    features: seq<string>,
    id: nat,
    kind: string,
    optional: bool,
    req: string,
    target: Option<string>,
    versionId: nat)

  datatype Dependencies = Dependencies(dependencies: seq<Dependency>)

  /** A dependent version joined with the edge through which it depends on the queried crate. */
  datatype ReverseDependency = ReverseDependency(crateVersion: Version, dependency: Dependency)

  /** A reverse-dependency page as the wire sends it: two flat lists and the total count. */
  datatype ReverseDependenciesAsReceived = ReverseDependenciesAsReceived(
    dependencies: seq<Dependency>,
    versions: seq<Version>,
    meta: Meta)

  /** The joined reverse dependencies handed to callers. */
  datatype ReverseDependencies = ReverseDependencies(dependencies: seq<ReverseDependency>, meta: Meta)

  /** A version with its authors and dependencies attached. */
  datatype FullVersion = FullVersion(
    createdAt: Timestamp,
    updatedAt: Timestamp,
    dlPath: string,
    downloads: nat,
    features: map<string, seq<string>>,
    id: nat,
    num: string,
    yanked: bool,
    license: Option<string>,
    readmePath: Option<string>,
    links: VersionLinks,
    authorNames: seq<string>,
    dependencies: seq<Dependency>)

  /** Everything known about one crate. */
  datatype FullCrate = FullCrate(
    id: string,
    name: string,
    description: Option<string>,
    license: Option<string>,
    documentation: Option<string>,
    homepage: Option<string>,
    repository: Option<string>,
    totalDownloads: nat,
    maxVersion: string,
    maxStableVersion: Option<string>,
    createdAt: Timestamp,
    updatedAt: Timestamp,
    categories: seq<Category>,
    keywords: seq<Keyword>,
    downloads: CrateDownloads,
    owners: seq<User>,
    reverseDependencies: ReverseDependencies,
    versions: seq<FullVersion>)

  // ---------------------------------------------------------------------------
  // Reverse-dependency join

  /** How many of `versions` carry the id `id`. */
  function CountId(versions: seq<Version>, id: nat): nat {
    if |versions| == 0 then 0
    else (if versions[0].id == id then 1 else 0) + CountId(versions[1..], id)
  }

  lemma {:induction false} NoMatchingId(versions: seq<Version>, id: nat)
    requires forall v :: v in versions ==> v.id != id
    ensures CountId(versions, id) == 0
    decreases |versions|
  {
    if |versions| > 0 {
      assert versions[0] in versions;
      NoMatchingId(versions[1..], id);
    }
  }

  /** The pairs one dependency row contributes: one per version whose id is its `version_id`, in version order. */
  function Matches(d: Dependency, versions: seq<Version>): seq<ReverseDependency>
  {
    if |versions| == 0 then []
    else
      (if versions[0].id == d.versionId then [ReverseDependency(versions[0], d)] else [])
      + Matches(d, versions[1..])
  }

  /** The inner join of dependency rows with version rows on `version_id == id`, dependency order first. */
  function JoinRows(deps: seq<Dependency>, versions: seq<Version>): seq<ReverseDependency>
  {
    if |deps| == 0 then [] else Matches(deps[0], versions) + JoinRows(deps[1..], versions)
  }

  /**
   * A dependency row whose `version_id` is carried by k versions contributes exactly k pairs,
   * each made of that row and one such version; a row matching no version contributes nothing.
   */
  lemma {:induction false} MatchesExactly(d: Dependency, versions: seq<Version>)
    ensures |Matches(d, versions)| == CountId(versions, d.versionId)
    ensures forall p :: p in Matches(d, versions) ==>
              p.dependency == d && p.crateVersion in versions && p.crateVersion.id == d.versionId
    ensures forall v :: v in versions && v.id == d.versionId ==> ReverseDependency(v, d) in Matches(d, versions)
    decreases |versions|
  {
    if |versions| > 0 {
      MatchesExactly(d, versions[1..]);
      assert forall v :: v in versions[1..] ==> v in versions;
      assert forall v :: v in versions ==> v == versions[0] || v in versions[1..];
    }
  }

  /** Every joined pair satisfies `crate_version.id == dependency.version_id` and comes from the two lists. */
  lemma {:induction false} JoinRowsSound(deps: seq<Dependency>, versions: seq<Version>)
    ensures forall p :: p in JoinRows(deps, versions) ==>
              p.crateVersion.id == p.dependency.versionId && p.dependency in deps && p.crateVersion in versions
    decreases |deps|
  {
    if |deps| > 0 {
      MatchesExactly(deps[0], versions);
      JoinRowsSound(deps[1..], versions);
      assert forall d :: d in deps[1..] ==> d in deps;
    }
  }

  /** Every dependency row and version row with matching ids meet in some joined pair. */
  lemma {:induction false} JoinRowsComplete(deps: seq<Dependency>, versions: seq<Version>)
    ensures forall i, j :: 0 <= i < |deps| && 0 <= j < |versions| && versions[j].id == deps[i].versionId ==>
              ReverseDependency(versions[j], deps[i]) in JoinRows(deps, versions)
    decreases |deps|
  {
    if |deps| > 0 {
      MatchesExactly(deps[0], versions);
      JoinRowsComplete(deps[1..], versions);
      forall i, j | 0 <= i < |deps| && 0 <= j < |versions| && versions[j].id == deps[i].versionId
        ensures ReverseDependency(versions[j], deps[i]) in JoinRows(deps, versions)
      {
        if i > 0 {
          assert deps[i] == deps[1..][i - 1];
        } else {
          assert versions[j] in versions;
        }
      }
    }
  }

  /** Order of the join: versions in wire order within one dependency row. */
  lemma {:induction false} MatchesAppend(d: Dependency, vs1: seq<Version>, vs2: seq<Version>)
    ensures Matches(d, vs1 + vs2) == Matches(d, vs1) + Matches(d, vs2)
    decreases |vs1|
  {
    if |vs1| > 0 {
      assert (vs1 + vs2)[1..] == vs1[1..] + vs2;
      MatchesAppend(d, vs1[1..], vs2);
    } else {
      assert vs1 + vs2 == vs2;
    }
  }

  /** Order of the join: rows of earlier dependencies come before rows of later ones. */
  lemma {:induction false} JoinRowsAppend(ds1: seq<Dependency>, ds2: seq<Dependency>, vs: seq<Version>)
    ensures JoinRows(ds1 + ds2, vs) == JoinRows(ds1, vs) + JoinRows(ds2, vs)
    decreases |ds1|
  {
    if |ds1| > 0 {
      assert (ds1 + ds2)[1..] == ds1[1..] + ds2;
      JoinRowsAppend(ds1[1..], ds2, vs);
    } else {
      assert ds1 + ds2 == ds2;
    }
  }

  /** A dependency row whose `version_id` names no version contributes no pair. */
  lemma UnmatchedRowContributesNothing(d: Dependency, vs: seq<Version>)
    requires forall v :: v in vs ==> v.id != d.versionId
    ensures JoinRows([d], vs) == []
  {
    MatchesExactly(d, vs);
    NoMatchingId(vs, d.versionId);
    assert [d][1..] == [];
  }

  /** `ReverseDependencies::extend`: appends the join of a wire page, leaving what was there and the total untouched. */
  function Extend(acc: ReverseDependencies, rdeps: ReverseDependenciesAsReceived): (r: ReverseDependencies)
    ensures r.meta == acc.meta
    ensures |r.dependencies| >= |acc.dependencies|
    ensures r.dependencies[..|acc.dependencies|] == acc.dependencies
    ensures r.dependencies[|acc.dependencies|..] == JoinRows(rdeps.dependencies, rdeps.versions)
  {
    acc.(dependencies := acc.dependencies + JoinRows(rdeps.dependencies, rdeps.versions))
  }

  /** One more version row extends a dependency's matches by at most that row's pair. */
  lemma MatchesStep(d: Dependency, vs: seq<Version>, j: nat)
    requires j < |vs|
    ensures Matches(d, vs[..j + 1]) ==
              Matches(d, vs[..j]) + (if vs[j].id == d.versionId then [ReverseDependency(vs[j], d)] else [])
  {
    MatchesAppend(d, vs[..j], [vs[j]]);
    assert vs[..j + 1] == vs[..j] + [vs[j]];
    assert Matches(d, [vs[j]]) == (if vs[j].id == d.versionId then [ReverseDependency(vs[j], d)] else []) by {
      assert [vs[j]][1..] == [];
    }
  }

  /** One more dependency row extends the join by that row's matches. */
  lemma JoinRowsStep(ds: seq<Dependency>, vs: seq<Version>, i: nat)
    requires i < |ds|
    ensures JoinRows(ds[..i + 1], vs) == JoinRows(ds[..i], vs) + Matches(ds[i], vs)
  {
    JoinRowsAppend(ds[..i], [ds[i]], vs);
    assert ds[..i + 1] == ds[..i] + [ds[i]];
    assert JoinRows([ds[i]], vs) == Matches(ds[i], vs) by {
      assert [ds[i]][1..] == [];
    }
  }

  /** The inner loop of `extend`: pushes the pairs one dependency row makes with each matching version, in version order. */
  method PushMatches(out: seq<ReverseDependency>, d: Dependency, vs: seq<Version>) returns (r: seq<ReverseDependency>)
    ensures r == out + Matches(d, vs)
  {
    r := out;
    var j := 0;
    while j < |vs|
      invariant 0 <= j <= |vs|
      invariant r == out + Matches(d, vs[..j])
    {
      MatchesStep(d, vs, j);
      if vs[j].id == d.versionId {
        r := r + [ReverseDependency(vs[j], d)];
      }
      j := j + 1;
    }
    assert vs[..j] == vs;
  }

  /** The nested loops of `extend`, pushing one pair at a time; they compute exactly `Extend`. */
  method ExtendInPlace(acc: ReverseDependencies, rdeps: ReverseDependenciesAsReceived) returns (r: ReverseDependencies)
    ensures r == Extend(acc, rdeps)
  {
    var ds := rdeps.dependencies;
    var vs := rdeps.versions;
    var out := acc.dependencies;
    var i := 0;
    while i < |ds|
      invariant 0 <= i <= |ds|
      invariant out == acc.dependencies + JoinRows(ds[..i], vs)
    {
      out := PushMatches(out, ds[i], vs);
      JoinRowsStep(ds, vs, i);
      i := i + 1;
    }
    assert ds[..i] == ds;
    r := acc.(dependencies := out);
  }
}
