/**
 * The lazy crate listing of the asynchronous client (`CrateStream` in src/async_client.rs):
 * a buffer of crates from the last page, a filter whose page number is the next page to ask
 * for, and at most one page request in flight. One call of `poll_next` is one `PollNext` step;
 * the in-flight request is represented by the query it was started with, and what polling it
 * produced is an input of the step.
 */
module CrateStreams {
  import opened Wrappers
  import opened Types
  import opened Errors
  import opened Transport
  import AsyncClient
  import Urls

  datatype Poll<+T> = Ready(value: T) | Pending

  type Item = Result<Crate, Error>

  datatype CrateStream = CrateStream(
    filter: CratesQuery,
    closed: bool,
    items: seq<Crate>,
    fetch: Option<CratesQuery>)

  /** What one `poll_next` returns, together with the stream's state afterwards. */
  datatype Step = Step(state: CrateStream, out: Poll<Option<Item>>)

  /** `Client::crates_stream`: open, nothing buffered, nothing in flight. */
  function NewStream(filter: CratesQuery): (s: CrateStream)
    ensures Wf(s) && !s.closed && s.items == [] && s.fetch == None && s.filter == filter
  {
    CrateStream(filter, false, [], None)
  }

  /**
   * The shape every reachable stream has: a request in flight is always for the page just
   * before the filter's page (the filter was advanced when it was started), and crates are
   * buffered only while no request is in flight.
   */
  ghost predicate Wf(s: CrateStream) {
    && (s.fetch.Some? ==> s.filter.page >= 1 && s.fetch.value == s.filter.(page := s.filter.page - 1))
    && (|s.items| > 0 ==> s.fetch.None?)
  }

  /** A step that ends the stream: an empty page or a failed page. */
  predicate Ends(r: Result<CratesPage, Error>) {
    r.Failure? || |r.value.crates| == 0
  }

  /** `CrateStream::poll_next`. */
  function PollNext(s: CrateStream, answer: Poll<Result<CratesPage, Error>>): (r: Step)
    // a closed stream stays closed and keeps answering end-of-stream
    ensures s.closed ==> r == Step(s, Ready(None))
    // buffered crates are handed out first, in order
    ensures !s.closed && |s.items| > 0 ==>
              r.out == Ready(Some(Success(s.items[0]))) && r.state == s.(items := s.items[1..])
    // end of stream and errors close the stream; a Pending always leaves a request in flight
    ensures r.out == Ready(None) ==> r.state.closed
    ensures r.out.Ready? && r.out.value.Some? && r.out.value.value.Failure? ==> r.state.closed && !s.closed
    ensures r.out.Pending? ==> r.state.fetch.Some? && !r.state.closed && r.state.items == s.items
    // the filter only ever advances one page, exactly when a new request is started
    ensures r.state.filter == s.filter || r.state.filter == s.filter.(page := s.filter.page + 1)
    ensures r.state.filter != s.filter <==> !s.closed && |s.items| == 0 && s.fetch.None?
    ensures r.state.filter != s.filter ==> r.state.fetch == Some(s.filter)
    // with nothing buffered and nothing in flight, a request for the current filter starts and the stream waits
    ensures !s.closed && |s.items| == 0 && s.fetch.None? ==>
              r.out == Pending && !r.state.closed && r.state.items == [] && r.state.fetch == Some(s.filter)
    // a completed non-empty page: its first crate now, the rest buffered
    ensures !s.closed && |s.items| == 0 && s.fetch.Some? && answer.Ready? && answer.value.Success? && !Ends(answer.value) ==>
              && r.out == Ready(Some(Success(answer.value.value.crates[0])))
              && r.state.items == answer.value.value.crates[1..]
              && r.state.fetch.None? && !r.state.closed
    ensures !s.closed && |s.items| == 0 && s.fetch.Some? && answer.Ready? && Ends(answer.value) ==>
              r.state.closed && r.out == Ready(if answer.value.Failure? then Some(Failure(answer.value.error)) else None)
    ensures !s.closed && |s.items| == 0 && s.fetch.Some? && answer.Pending? ==> r == Step(s, Pending)
  {
    if s.closed then Step(s, Ready(None))
    else if |s.items| > 0 then Step(s.(items := s.items[1..]), Ready(Some(Success(s.items[0]))))
    else if s.fetch.Some? then
      match answer
      case Pending => Step(s, Pending)
      case Ready(Failure(err)) => Step(s.(fetch := None, closed := true), Ready(Some(Failure(err))))
      case Ready(Success(page)) =>
        if |page.crates| == 0 then Step(s.(fetch := None, closed := true), Ready(None))
        else Step(s.(fetch := None, items := s.items + page.crates[1..]), Ready(Some(Success(page.crates[0]))))
    else
      Step(s.(filter := s.filter.(page := s.filter.page + 1), fetch := Some(s.filter)), Pending)
  }

  /** Every step keeps a well-formed stream well-formed, whatever the request produced. */
  lemma {:induction false} PollNextKeepsWf(s: CrateStream, answer: Poll<Result<CratesPage, Error>>)
    requires Wf(s)
    ensures Wf(PollNext(s, answer).state)
  {
    var r := PollNext(s, answer);
    if !s.closed && |s.items| == 0 && s.fetch.None? {
      assert r.state.fetch.value == r.state.filter.(page := r.state.filter.page - 1);
    }
  }

  // ---------------------------------------------------------------------------
  // Draining the stream against a listing that answers at once
  //
  // `fetch(q)` is the page the listing request for `q` produces; the client's own is `ClientFetch`.

  /** The listing page the stream's request for `q` produces: `Client::crates`. */
  function ClientFetch(base: Urls.Url, server: Server): CratesQuery -> Result<CratesPage, Error> {
    q => AsyncClient.Crates(base, q, server)
  }

  function Oks(crates: seq<Crate>): (r: seq<Item>)
    ensures |r| == |crates| && forall i :: 0 <= i < |crates| ==> r[i] == Success(crates[i])
  {
    if |crates| == 0 then [] else [Success(crates[0])] + Oks(crates[1..])
  }

  /**
   * The reference listing: every crate of pages `q.page`, `q.page + 1`, ... in order, up to the
   * first empty page, or up to and including the error of the first failed page. `stop` is a
   * page known to end the listing.
   */
  function Eager(fetch: CratesQuery -> Result<CratesPage, Error>, q: CratesQuery, stop: nat): (r: seq<Item>)
    requires q.page <= stop && Ends(fetch(q.(page := stop)))
    decreases stop - q.page
  {
    var page := fetch(q);
    if page.Failure? then [Failure(page.error)]
    else if |page.value.crates| == 0 then []
    else Oks(page.value.crates) + Eager(fetch, q.(page := q.page + 1), stop)
  }

  /** What a step emits into the drained sequence. */
  function Emitted(out: Poll<Option<Item>>): seq<Item> {
    if out.Ready? && out.value.Some? then [out.value.value] else []
  }

  /** The streams a drain can pass through: well formed, and not yet past the ending page. */
  ghost predicate Draining(fetch: CratesQuery -> Result<CratesPage, Error>, s: CrateStream, stop: nat) {
    && Wf(s)
    && (!s.closed ==>
          && Ends(fetch(s.filter.(page := stop)))
          && (s.fetch.None? ==> s.filter.page <= stop)
          && (s.fetch.Some? ==> s.filter.page <= stop + 1))
  }

  /**
   * Polls the stream until it is closed, with every in-flight request completing on its first
   * poll, and collects what it yields.
   */
  function Drain(fetch: CratesQuery -> Result<CratesPage, Error>, s: CrateStream, stop: nat): seq<Item>
    requires Draining(fetch, s, stop)
    decreases if s.closed then 0 else 1, if s.closed then 0 else stop + 1 - s.filter.page,
              if s.fetch.Some? then 1 else 0, |s.items|
  {
    if s.closed then []
    else
      var answer := if s.fetch.Some? then Ready(fetch(s.fetch.value)) else Pending;
      var r := PollNext(s, answer);
      PollNextKeepsWf(s, answer);
      if r.state.closed then Emitted(r.out)
      else
        assert s.fetch.Some? && |s.items| == 0 ==> s.fetch.value.page < stop;
        Emitted(r.out) + Drain(fetch, r.state, stop)
  }

  /** What a drain of `s` must produce: the buffer, then the listing from the pending page on. */
  ghost function Expected(fetch: CratesQuery -> Result<CratesPage, Error>, s: CrateStream, stop: nat): seq<Item>
    requires Draining(fetch, s, stop)
  {
    if s.closed then []
    else if s.fetch.Some? then
      assert s.fetch.value.(page := stop) == s.filter.(page := stop);
      Oks(s.items) + Eager(fetch, s.fetch.value, stop)
    else Oks(s.items) + Eager(fetch, s.filter, stop)
  }

  /** Handing out a buffered crate: the stream's side. */
  lemma PopStep(fetch: CratesQuery -> Result<CratesPage, Error>, s: CrateStream, stop: nat)
    requires Draining(fetch, s, stop) && !s.closed && |s.items| > 0
    ensures Draining(fetch, s.(items := s.items[1..]), stop)
    ensures Drain(fetch, s, stop) == [Success(s.items[0])] + Drain(fetch, s.(items := s.items[1..]), stop)
  {
    var s' := s.(items := s.items[1..]);
    assert s.fetch.None?;
    assert PollNext(s, Pending) == Step(s', Ready(Some(Success(s.items[0]))));
  }

  /** Handing out a buffered crate: the listing's side. */
  lemma PopStepExpected(fetch: CratesQuery -> Result<CratesPage, Error>, s: CrateStream, stop: nat)
    requires Draining(fetch, s, stop) && !s.closed && |s.items| > 0
    ensures Draining(fetch, s.(items := s.items[1..]), stop)
    ensures Expected(fetch, s, stop) == [Success(s.items[0])] + Expected(fetch, s.(items := s.items[1..]), stop)
  {
    assert s.fetch.None?;
    var tail := Eager(fetch, s.filter, stop);
    OksCons(s.items);
    assert Expected(fetch, s, stop) == Oks(s.items) + tail;
    assert Expected(fetch, s.(items := s.items[1..]), stop) == Oks(s.items[1..]) + tail;
  }

  /** Starting the request for the filter's page. */
  lemma StartStep(fetch: CratesQuery -> Result<CratesPage, Error>, s: CrateStream, stop: nat)
    requires Draining(fetch, s, stop) && !s.closed && |s.items| == 0 && s.fetch.None?
    ensures var s' := s.(filter := s.filter.(page := s.filter.page + 1), fetch := Some(s.filter));
            && Draining(fetch, s', stop)
            && Drain(fetch, s, stop) == Drain(fetch, s', stop)
            && Expected(fetch, s, stop) == Expected(fetch, s', stop)
  {
    var s' := s.(filter := s.filter.(page := s.filter.page + 1), fetch := Some(s.filter));
    assert s'.fetch.value == s'.filter.(page := s'.filter.page - 1);
    assert s'.filter.(page := stop) == s.filter.(page := stop);
  }

  /** The in-flight request completes with a non-empty page: the stream's side. */
  lemma PageStep(fetch: CratesQuery -> Result<CratesPage, Error>, s: CrateStream, stop: nat)
    requires Draining(fetch, s, stop) && !s.closed && |s.items| == 0 && s.fetch.Some?
    requires !Ends(fetch(s.fetch.value))
    ensures var crates := fetch(s.fetch.value).value.crates;
            var s' := s.(fetch := None, items := crates[1..]);
            && Draining(fetch, s', stop)
            && Drain(fetch, s, stop) == [Success(crates[0])] + Drain(fetch, s', stop)
  {
    var f := s.fetch.value;
    var crates := fetch(f).value.crates;
    var s' := s.(fetch := None, items := crates[1..]);
    assert f.(page := stop) == s.filter.(page := stop);
    assert f.page < stop;
    assert PollNext(s, Ready(fetch(f))) == Step(s', Ready(Some(Success(crates[0]))));
  }

  /** A non-empty page is not the ending page, and the listing from it is its crates, then the next page on. */
  lemma EagerNonEmpty(fetch: CratesQuery -> Result<CratesPage, Error>, q: CratesQuery, stop: nat)
    requires q.page <= stop && Ends(fetch(q.(page := stop)))
    requires !Ends(fetch(q))
    ensures q.page < stop
    ensures Eager(fetch, q, stop) ==
              Oks(fetch(q).value.crates) + Eager(fetch, q.(page := q.page + 1), stop)
  {
    assert q.page == stop ==> q.(page := stop) == q;
  }

  lemma ConsAppend<T>(x: T, a: seq<T>, b: seq<T>)
    ensures ([x] + a) + b == [x] + (a + b)
  {
  }

  lemma OksCons(crates: seq<Crate>)
    requires |crates| > 0
    ensures Oks(crates) == [Success(crates[0])] + Oks(crates[1..])
  {
  }

  /** After a non-empty page the stream, with the page's remaining crates buffered, is still draining. */
  lemma PageStepDraining(fetch: CratesQuery -> Result<CratesPage, Error>, s: CrateStream, stop: nat)
    requires Draining(fetch, s, stop) && !s.closed && |s.items| == 0 && s.fetch.Some?
    requires !Ends(fetch(s.fetch.value))
    ensures s.fetch.value.(page := s.fetch.value.page + 1) == s.filter
    ensures Draining(fetch, s.(fetch := None, items := fetch(s.fetch.value).value.crates[1..]), stop)
  {
    var f := s.fetch.value;
    assert f.(page := stop) == s.filter.(page := stop);
    EagerNonEmpty(fetch, f, stop);
  }

  /** The in-flight request completes with a non-empty page: the listing's side. */
  lemma PageStepExpected(fetch: CratesQuery -> Result<CratesPage, Error>, s: CrateStream, stop: nat)
    requires Draining(fetch, s, stop) && !s.closed && |s.items| == 0 && s.fetch.Some?
    requires !Ends(fetch(s.fetch.value))
    ensures var crates := fetch(s.fetch.value).value.crates;
            var s' := s.(fetch := None, items := crates[1..]);
            && Draining(fetch, s', stop)
            && Expected(fetch, s, stop) == [Success(crates[0])] + Expected(fetch, s', stop)
  {
    var f := s.fetch.value;
    var crates := fetch(f).value.crates;
    var s' := s.(fetch := None, items := crates[1..]);
    PageStepDraining(fetch, s, stop);
    var tail := Eager(fetch, s.filter, stop);
    calc {
      Expected(fetch, s, stop);
      { assert Oks(s.items) == []; }
      Eager(fetch, f, stop);
      { assert f.(page := stop) == s.filter.(page := stop);
        EagerNonEmpty(fetch, f, stop); }
      Oks(crates) + tail;
      { OksCons(crates); }
      ([Success(crates[0])] + Oks(crates[1..])) + tail;
      { ConsAppend(Success(crates[0]), Oks(crates[1..]), tail); }
      [Success(crates[0])] + (Oks(crates[1..]) + tail);
      [Success(crates[0])] + Expected(fetch, s', stop);
    }
  }

  /** The in-flight request completes with an empty or failed page. */
  lemma EndStep(fetch: CratesQuery -> Result<CratesPage, Error>, s: CrateStream, stop: nat)
    requires Draining(fetch, s, stop) && !s.closed && |s.items| == 0 && s.fetch.Some?
    requires Ends(fetch(s.fetch.value))
    ensures Drain(fetch, s, stop) == Expected(fetch, s, stop)
  {
    assert s.fetch.value.(page := stop) == s.filter.(page := stop);
  }

  lemma {:induction false} DrainIsExpected(fetch: CratesQuery -> Result<CratesPage, Error>, s: CrateStream, stop: nat)
    requires Draining(fetch, s, stop)
    ensures Drain(fetch, s, stop) == Expected(fetch, s, stop)
    decreases if s.closed then 0 else 1, if s.closed then 0 else stop + 1 - s.filter.page,
              if s.fetch.Some? then 1 else 0, |s.items|
  {
    if s.closed {
    } else if |s.items| > 0 {
      PopStep(fetch, s, stop);
      PopStepExpected(fetch, s, stop);
      DrainIsExpected(fetch, s.(items := s.items[1..]), stop);
    } else if s.fetch.None? {
      StartStep(fetch, s, stop);
      DrainIsExpected(fetch, s.(filter := s.filter.(page := s.filter.page + 1), fetch := Some(s.filter)), stop);
    } else if Ends(fetch(s.fetch.value)) {
      EndStep(fetch, s, stop);
    } else {
      PageStep(fetch, s, stop);
      PageStepExpected(fetch, s, stop);
      var crates := fetch(s.fetch.value).value.crates;
      DrainIsExpected(fetch, s.(fetch := None, items := crates[1..]), stop);
    }
  }

  /**
   * Lazy equals eager: consuming a fresh stream to its end yields exactly the crates of the
   * listing pages from the filter's page on, in order, then the first page error if any.
   */
  lemma DrainMatchesEager(fetch: CratesQuery -> Result<CratesPage, Error>, q: CratesQuery, stop: nat)
    requires q.page <= stop && Ends(fetch(q.(page := stop)))
    ensures Drain(fetch, NewStream(q), stop) == Eager(fetch, q, stop)
  {
    var s := NewStream(q);
    assert Draining(fetch, s, stop);
    DrainIsExpected(fetch, s, stop);
    assert Oks(s.items) == [];
    assert Expected(fetch, s, stop) == [] + Eager(fetch, q, stop);
  }

  /** The same for the client's stream: the crates of `crates` pages `q.page`, `q.page + 1`, ... */
  lemma ClientStreamMatchesEager(base: Urls.Url, server: Server, q: CratesQuery, stop: nat)
    requires q.page <= stop && Ends(AsyncClient.Crates(base, q.(page := stop), server))
    ensures Drain(ClientFetch(base, server), NewStream(q), stop) == Eager(ClientFetch(base, server), q, stop)
  {
    DrainMatchesEager(ClientFetch(base, server), q, stop);
  }
}
