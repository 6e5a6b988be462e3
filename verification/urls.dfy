/** A URL reduced to what the client manipulates: an origin, a list of path segments and ordered query pairs. */
module Urls {
  import opened Strings

  datatype QueryPair = QueryPair(key: string, value: string)

  /** `https://crates.io/api/v1/` is `Url("https://crates.io", ["api", "v1", ""], [])`: a trailing slash is an empty last segment. */
  datatype Url = Url(origin: string, path: seq<string>, query: seq<QueryPair>)

  /** A relative reference handed to `join`: its path text (segments separated by '/') and its query pairs. */
  datatype Reference = Reference(path: string, query: seq<QueryPair>)

  /** All segments of `path` but the last: the "directory" a relative path is resolved against. */
  function BaseDirectory(path: seq<string>): (dir: seq<string>)
    ensures |path| > 0 ==> |dir| == |path| - 1 && path == dir + [path[|path| - 1]]
    ensures |path| == 0 ==> dir == []
  {
    if |path| == 0 then [] else path[..|path| - 1]
  }

  /**
   * Reference resolution (section 5.2.2 of RFC 3986) without dot-segment removal.
   * A path that starts with '/' replaces the whole path; any other non-empty path is
   * merged (section 5.2.3): it replaces the last segment of the base path.
   * The query always comes from the reference when it has a path.
   */
  function Join(base: Url, ref: Reference): (u: Url)
    ensures u.origin == base.origin
    ensures ref.path == "" ==> u.path == base.path
    ensures ref.path != "" && ref.path[0] != '/' ==>
              u.path == BaseDirectory(base.path) + Split(ref.path, '/') && u.query == ref.query
    ensures ref.path != "" && ref.path[0] == '/' ==>
              u.path == Split(ref.path[1..], '/') && u.query == ref.query
  {
    if ref.path == "" then
      Url(base.origin, base.path, if |ref.query| == 0 then base.query else ref.query)
    else if ref.path[0] == '/' then
      Url(base.origin, Split(ref.path[1..], '/'), ref.query)
    else
      Url(base.origin, BaseDirectory(base.path) + Split(ref.path, '/'), ref.query)
  }

  /** The segments `push` refuses to add: rust-url's `PathSegmentsMut` skips "." and "..". */
  predicate IsDotSegment(segment: string) {
    segment == "." || segment == ".."
  }

  /** The segments `push(segment)` adds to a path: none for a dot segment, otherwise the segment itself. */
  function PushedSegments(segment: string): seq<string> {
    if IsDotSegment(segment) then [] else [segment]
  }

  /**
   * `path_segments_mut().push(segment)`: appends one segment, whatever other characters it
   * holds, except that "." and ".." are skipped and leave the URL as it was.
   */
  function Push(u: Url, segment: string): (r: Url)
    ensures r.origin == u.origin && r.query == u.query
    ensures IsDotSegment(segment) ==> r == u
    ensures !IsDotSegment(segment) ==>
              |r.path| == |u.path| + 1 && r.path[..|u.path|] == u.path && r.path[|u.path|] == segment
  {
    u.(path := u.path + PushedSegments(segment))
  }

  /** `query_pairs_mut().append_pair(...)` for each pair in turn. */
  function AppendQuery(u: Url, pairs: seq<QueryPair>): (r: Url)
    ensures r.origin == u.origin && r.path == u.path
    ensures |r.query| == |u.query| + |pairs|
    ensures r.query[..|u.query|] == u.query && r.query[|u.query|..] == pairs
  {
    u.(query := u.query + pairs)
  }

  /** Joining a separator-free name never splits it: it lands as one segment in place of the last one. */
  lemma JoinSingleSegment(base: Url, name: string, query: seq<QueryPair>)
    requires name != "" && '/' !in name
    ensures Join(base, Reference(name, query)) == Url(base.origin, BaseDirectory(base.path) + [name], query)
  {
  }

  /** Joining `dir/leaf` with a separator-free, non-empty `dir` adds exactly the two segments `dir` and `leaf`. */
  lemma JoinTwoSegments(base: Url, dir: string, leaf: string)
    requires dir != "" && '/' !in dir && '/' !in leaf
    ensures Join(base, Reference(dir + "/" + leaf, [])) == Url(base.origin, BaseDirectory(base.path) + [dir, leaf], [])
  {
    SplitAfterPiece(dir, '/', leaf);
    assert dir + "/" + leaf == dir + ['/'] + leaf;
  }
}
