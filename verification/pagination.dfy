/**
 * Eager collection of every reverse-dependency page: request pages 1, 2, ... and stop at the
 * first page whose joined list is empty (or at the first error). `fetch(p)` is the outcome of
 * requesting page `p`.
 */
module Pagination {
  import opened Wrappers
  import opened Types
  import opened Errors

  /** Whether the loop ends at this page: on an error, or on a page with no joined pair. */
  predicate Stops(page: Result<ReverseDependencies, Error>) {
    page.Failure? || |page.value.dependencies| == 0
  }

  /** Some page ends the loop, so collection terminates. */
  ghost predicate EventuallyStops(fetch: nat -> Result<ReverseDependencies, Error>) {
    exists k: nat :: 1 <= k && Stops(fetch(k))
  }

  /** The pairs of pages 1..n in page order (pages that failed contribute nothing). */
  function PagesUpTo(fetch: nat -> Result<ReverseDependencies, Error>, n: nat): seq<ReverseDependency> {
    if n == 0 then []
    else PagesUpTo(fetch, n - 1) + (if fetch(n).Success? then fetch(n).value.dependencies else [])
  }

  /** The total reported by page n, or 0 before any page. */
  function TotalOf(fetch: nat -> Result<ReverseDependencies, Error>, n: nat): nat {
    if n >= 1 && fetch(n).Success? then fetch(n).value.meta.total else 0
  }

  /** Page `n` is the first page that ends the loop. */
  predicate FirstStop(fetch: nat -> Result<ReverseDependencies, Error>, n: nat) {
    1 <= n && Stops(fetch(n)) && forall i :: 1 <= i < n ==> !Stops(fetch(i))
  }

  /** What collection returns when page `n` ends the loop. */
  function CollectedAt(fetch: nat -> Result<ReverseDependencies, Error>, n: nat): Result<ReverseDependencies, Error>
    requires 1 <= n
  {
    if fetch(n).Failure? then Failure(fetch(n).error)
    else Success(ReverseDependencies(PagesUpTo(fetch, n - 1), Meta(TotalOf(fetch, n - 1))))
  }

  /** Below any page that ends the loop there is a first one. */
  lemma {:induction false} FirstStopExists(fetch: nat -> Result<ReverseDependencies, Error>, k: nat)
    requires 1 <= k && Stops(fetch(k))
    ensures exists n: nat :: FirstStop(fetch, n) && n <= k
    decreases k
  {
    if !FirstStop(fetch, k) {
      var i :| 1 <= i < k && Stops(fetch(i));
      FirstStopExists(fetch, i);
    }
  }

  /** The result of collecting every page, as the first page that ends the loop determines it. */
  ghost function Collected(fetch: nat -> Result<ReverseDependencies, Error>): (r: Result<ReverseDependencies, Error>)
    requires EventuallyStops(fetch)
    ensures forall n: nat :: FirstStop(fetch, n) ==> r == CollectedAt(fetch, n)
  {
    var k: nat :| 1 <= k && Stops(fetch(k));
    FirstStopExists(fetch, k);
    var n: nat :| FirstStop(fetch, n);
    CollectedAt(fetch, n)
  }

  /**
   * `crate_reverse_dependencies`: returns, beside the result, how many pages it requested.
   * The last page requested is the first one that stops the loop; on success the result is the
   * in-order concatenation of the earlier pages and the total reported by the last non-empty
   * page (0 when page 1 is already empty); on error it is that page's error.
   */
  method CollectPages(fetch: nat -> Result<ReverseDependencies, Error>) returns (r: Result<ReverseDependencies, Error>, requests: nat)
    requires EventuallyStops(fetch)
    ensures 1 <= requests
    ensures Stops(fetch(requests))
    ensures forall i :: 1 <= i < requests ==> !Stops(fetch(i))
    ensures fetch(requests).Failure? ==> r == Failure(fetch(requests).error)
    ensures fetch(requests).Success? ==>
              r == Success(ReverseDependencies(PagesUpTo(fetch, requests - 1), Meta(TotalOf(fetch, requests - 1))))
    ensures r == Collected(fetch)
  {
    ghost var k: nat :| 1 <= k && Stops(fetch(k));
    var deps: seq<ReverseDependency> := [];
    var total: nat := 0;
    var page: nat := 1;
    while true
      invariant 1 <= page <= k
      invariant forall i :: 1 <= i < page ==> !Stops(fetch(i))
      invariant deps == PagesUpTo(fetch, page - 1)
      invariant total == TotalOf(fetch, page - 1)
      decreases k - page
    {
      var res := fetch(page);
      if res.Failure? {
        return Failure(res.error), page;
      }
      if |res.value.dependencies| == 0 {
        return Success(ReverseDependencies(deps, Meta(total))), page;
      }
      deps := deps + res.value.dependencies;
      total := res.value.meta.total;
      page := page + 1;
    }
  }

  /** The collection only grows: what pages 1..m contributed stays, unchanged, at the front after later pages. */
  lemma {:induction false} PagesUpToGrows(fetch: nat -> Result<ReverseDependencies, Error>, m: nat, n: nat)
    requires m <= n
    ensures |PagesUpTo(fetch, m)| <= |PagesUpTo(fetch, n)|
    ensures PagesUpTo(fetch, n)[..|PagesUpTo(fetch, m)|] == PagesUpTo(fetch, m)
    decreases n - m
  {
    if m < n {
      PagesUpToGrows(fetch, m, n - 1);
      var before := PagesUpTo(fetch, n - 1);
      assert PagesUpTo(fetch, n)[..|before|] == before;
      assert PagesUpTo(fetch, n)[..|PagesUpTo(fetch, m)|] == before[..|PagesUpTo(fetch, m)|];
    }
  }
}
