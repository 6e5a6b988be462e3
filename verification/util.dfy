/**
 * Per-crate endpoint URLs (src/util.rs, duplicated in src/async_client.rs).
 * A crate name containing '/' is refused with `NotFound` carrying the URL built so far,
 * before any request is sent.
 */
module CrateUrls {
  import opened Wrappers
  import opened Strings
  import opened Urls
  import opened Errors

  /**
   * The path of a crate's own resource: `crates/<name>` resolved against the registry URL.
   * A name "." or ".." adds no segment, because `push` skips it.
   */
  function CratePath(base: Url, crateName: string): seq<string> {
    BaseDirectory(base.path) + ["crates"] + PushedSegments(crateName)
  }

  /** The URL `build_crate_url_nested` yields before the guard: `crates/<name>/` followed by a placeholder segment. */
  function NestedBase(base: Url, crateName: string): (u: Url)
    ensures u == Url(base.origin, CratePath(base, crateName) + ["/"], [])
  {
    JoinSingleSegment(base, "crates", []);
    Push(Push(Join(base, Reference("crates", [])), crateName), "/")
  }

  /** `crates/<name>`: the crate detail endpoint. */
  function BuildCrateUrl(base: Url, crateName: string): (r: Result<Url, Error>)
    ensures '/' in crateName ==>
              r == Failure(NotFound(Url(base.origin, CratePath(base, crateName), [])))
    ensures '/' !in crateName ==>
              r == Success(Url(base.origin, CratePath(base, crateName), []))
  {
    JoinSingleSegment(base, "crates", []);
    var url := Push(Join(base, Reference("crates", [])), crateName);
    assert url.path == CratePath(base, crateName);
    if '/' in crateName then Failure(NotFound(url)) else Success(url)
  }

  /** `crates/<name>/<placeholder>`: the prefix every sub-resource of a crate hangs off. */
  function BuildCrateUrlNested(base: Url, crateName: string): (r: Result<Url, Error>)
    ensures '/' in crateName ==>
              r == Failure(NotFound(Url(base.origin, CratePath(base, crateName) + ["/"], [])))
    ensures '/' !in crateName ==>
              r == Success(Url(base.origin, CratePath(base, crateName) + ["/"], []))
  {
    var url := NestedBase(base, crateName);
    if '/' in crateName then Failure(NotFound(url)) else Success(url)
  }

  /** `crates/<name>/downloads`. */
  function BuildCrateDownloadsUrl(base: Url, crateName: string): (r: Result<Url, Error>)
    ensures '/' in crateName ==> r == Failure(NotFound(NestedBase(base, crateName)))
    ensures '/' !in crateName ==>
              r == Success(Url(base.origin, CratePath(base, crateName) + ["downloads"], []))
  {
    var url :- BuildCrateUrlNested(base, crateName);
    NestedLeaf(base, crateName, "downloads", []);
    Success(Join(url, Reference("downloads", [])))
  }

  /** `crates/<name>/owners`. */
  function BuildCrateOwnersUrl(base: Url, crateName: string): (r: Result<Url, Error>)
    ensures '/' in crateName ==> r == Failure(NotFound(NestedBase(base, crateName)))
    ensures '/' !in crateName ==>
              r == Success(Url(base.origin, CratePath(base, crateName) + ["owners"], []))
  {
    var url :- BuildCrateUrlNested(base, crateName);
    NestedLeaf(base, crateName, "owners", []);
    Success(Join(url, Reference("owners", [])))
  }

  /** The query of one reverse-dependency page: a fixed page size of 100, then the page number. */
  function ReverseDepsQuery(page: nat): seq<QueryPair> {
    [QueryPair("per_page", "100"), QueryPair("page", NatToString(page))]
  }

  /** `crates/<name>/reverse_dependencies?per_page=100&page=<page>`. */
  function BuildCrateReverseDepsUrl(base: Url, crateName: string, page: nat): (r: Result<Url, Error>)
    ensures '/' in crateName ==> r == Failure(NotFound(NestedBase(base, crateName)))
    ensures '/' !in crateName ==>
              r == Success(Url(base.origin, CratePath(base, crateName) + ["reverse_dependencies"],
                               [QueryPair("per_page", "100"), QueryPair("page", NatToString(page))]))
  {
    var url :- BuildCrateUrlNested(base, crateName);
    NestedLeaf(base, crateName, "reverse_dependencies", ReverseDepsQuery(page));
    Success(Join(url, Reference("reverse_dependencies", ReverseDepsQuery(page))))
  }

  /** `crates/<name>/<version>/authors`. */
  function BuildCrateAuthorsUrl(base: Url, crateName: string, version: string): (r: Result<Url, Error>)
    ensures '/' in crateName ==> r == Failure(NotFound(NestedBase(base, crateName)))
    ensures '/' !in crateName && '/' !in version && version != "" ==>
              r == Success(Url(base.origin, CratePath(base, crateName) + [version, "authors"], []))
  {
    var url :- BuildCrateUrlNested(base, crateName);
    NestedVersionLeaf(base, crateName, version, "authors");
    Success(Join(url, Reference(version + "/" + "authors", [])))
  }

  /** `crates/<name>/<version>/dependencies`. */
  function BuildCrateDependenciesUrl(base: Url, crateName: string, version: string): (r: Result<Url, Error>)
    ensures '/' in crateName ==> r == Failure(NotFound(NestedBase(base, crateName)))
    ensures '/' !in crateName && '/' !in version && version != "" ==>
              r == Success(Url(base.origin, CratePath(base, crateName) + [version, "dependencies"], []))
  {
    var url :- BuildCrateUrlNested(base, crateName);
    NestedVersionLeaf(base, crateName, version, "dependencies");
    Success(Join(url, Reference(version + "/" + "dependencies", [])))
  }

  /** Joining a one-segment leaf onto the nested prefix replaces the placeholder segment by the leaf. */
  lemma NestedLeaf(base: Url, crateName: string, leaf: string, query: seq<QueryPair>)
    requires leaf != "" && '/' !in leaf
    ensures Join(NestedBase(base, crateName), Reference(leaf, query)) ==
              Url(base.origin, CratePath(base, crateName) + [leaf], query)
  {
    JoinSingleSegment(NestedBase(base, crateName), leaf, query);
    assert BaseDirectory(CratePath(base, crateName) + ["/"]) == CratePath(base, crateName);
  }

  /** Joining `version/leaf` onto the nested prefix replaces the placeholder by two segments. */
  lemma NestedVersionLeaf(base: Url, crateName: string, version: string, leaf: string)
    requires '/' !in leaf
    ensures '/' !in version && version != "" ==>
              Join(NestedBase(base, crateName), Reference(version + "/" + leaf, [])) ==
              Url(base.origin, CratePath(base, crateName) + [version, leaf], [])
  {
    if '/' !in version && version != "" {
      JoinTwoSegments(NestedBase(base, crateName), version, leaf);
      assert BaseDirectory(CratePath(base, crateName) + ["/"]) == CratePath(base, crateName);
    }
  }

  /**
   * A name "." or ".." passes the '/' guard but adds no segment: the crate URL is the listing
   * path `crates`, and the downloads of crate ".." are requested at the URL of the crate named "downloads".
   */
  lemma DotNameAddsNoSegment(base: Url, crateName: string)
    requires IsDotSegment(crateName)
    ensures BuildCrateUrl(base, crateName) == Success(Url(base.origin, BaseDirectory(base.path) + ["crates"], []))
    ensures BuildCrateDownloadsUrl(base, crateName) == BuildCrateUrl(base, "downloads")
  {
  }

  /**
   * An empty version string turns `{version}/authors` into the absolute path `/authors`,
   * which replaces the whole path of the registry URL.
   */
  lemma EmptyVersionEscapesCratePath(base: Url, crateName: string)
    requires '/' !in crateName
    ensures BuildCrateAuthorsUrl(base, crateName, "") == Success(Url(base.origin, ["authors"], []))
  {
    assert ("" + "/" + "authors")[1..] == "authors";
  }

  /** Every per-crate URL builder refuses a name with '/' and reports the same URL built so far. */
  lemma {:induction false} SlashInNameRejectedEverywhere(base: Url, crateName: string, page: nat, version: string)
    requires '/' in crateName
    ensures var e := NotFound(NestedBase(base, crateName));
      && BuildCrateUrl(base, crateName).Failure? && BuildCrateUrl(base, crateName).error.NotFound?
      && BuildCrateDownloadsUrl(base, crateName) == Failure(e)
      && BuildCrateOwnersUrl(base, crateName) == Failure(e)
      && BuildCrateReverseDepsUrl(base, crateName, page) == Failure(e)
      && BuildCrateAuthorsUrl(base, crateName, version) == Failure(e)
      && BuildCrateDependenciesUrl(base, crateName, version) == Failure(e)
  {
  }
}
