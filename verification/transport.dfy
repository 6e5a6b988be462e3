/**
 * What both clients' `get` share: pacing of request starts, classification of the HTTP reply,
 * and the two-phase decode (error envelope first, then the expected shape).
 * Sending, reading and JSON parsing are inputs: the reply as received, and two parse oracles.
 */
module Transport {
  import opened Wrappers
  import opened Urls
  import opened Types
  import opened Errors

  const NOT_FOUND: nat := 404
  const FORBIDDEN: nat := 403

  /** `StatusCode::is_success`. */
  predicate IsSuccess(status: nat) {
    200 <= status <= 299
  }

  /** `is_client_error() || is_server_error()`: the statuses `error_for_status` turns into an error. */
  predicate IsErrorStatus(status: nat) {
    400 <= status <= 599
  }

  /** How a call ended: with a value, or with a Rust panic (an `unwrap` or an index out of bounds). */
  datatype Ending<T> = Completed(value: T) | Panicked

  /** What reading the body as text produced. */
  datatype BodyRead = Unreadable(cause: string) | Text(content: string)

  /** What sending the request produced: a transport failure, or a status and a body. */
  datatype Reply = SendFailed(cause: string) | Received(status: nat, body: BodyRead)

  /** How one `get` ended, together with the value it leaves in the last-request slot. */
  datatype Exchange<T> = Exchange(result: Ending<Result<T, Error>>, lastRequest: Option<int>)

  /** The typed reply of every endpoint, standing for `get::<T>` on that endpoint's URL. */
  datatype Server = Server(
    crate: Url -> Result<CrateResponse, Error>,
    downloads: Url -> Result<CrateDownloads, Error>,
    owners: Url -> Result<Owners, Error>,
    reverseDependencies: Url -> Result<ReverseDependenciesAsReceived, Error>,
    authors: Url -> Result<AuthorsResponse, Error>,
    dependencies: Url -> Result<Dependencies, Error>,
    crates: Url -> Result<CratesPage, Error>)

  /**
   * The instant a request starts: at once when the previous start is at least `rateLimit` ago
   * or unknown, otherwise as soon as that interval has elapsed, and never earlier.
   */
  function RequestStart(lastRequest: Option<int>, now: int, rateLimit: nat): (start: int)
    ensures start >= now
    ensures lastRequest.Some? ==> start >= lastRequest.value + rateLimit
    ensures start == now || (lastRequest.Some? && start == lastRequest.value + rateLimit)
  {
    if lastRequest.Some? && now - lastRequest.value < rateLimit then lastRequest.value + rateLimit else now
  }

  /**
   * The text of a `JsonDecode` error: a fixed prefix, the parser message, then the structural
   * path of the mismatch in parentheses. Both parts can be read back at fixed offsets.
   */
  function DecodeMessage(f: DecodeFailure): (msg: string)
    ensures |msg| == 23 + |f.message| + 8 + |f.path| + 1
    ensures msg[..23] == "Could not decode JSON: "
    ensures msg[23..23 + |f.message|] == f.message
    ensures msg[23 + |f.message| + 8..|msg| - 1] == f.path
    ensures msg[|msg| - 1] == ')'
  {
    "Could not decode JSON: " + f.message + " (path: " + f.path + ")"
  }

  /**
   * Two-phase decode of a 2xx body: a body that parses as the error envelope is an `Api`
   * error whatever else it parses as; otherwise it is the expected value or a `JsonDecode` error.
   */
  function DecodeBody<T>(content: string, envelope: string -> Option<ApiErrors>,
                         decode: string -> Result<T, DecodeFailure>): (r: Result<T, Error>)
    ensures envelope(content).Some? ==> r == Failure(Api(envelope(content).value))
    ensures r.Success? <==> envelope(content).None? && decode(content).Success?
    ensures r.Success? ==> r.value == decode(content).value
    ensures envelope(content).None? && decode(content).Failure? ==>
              r == Failure(JsonDecode(DecodeMessage(decode(content).error)))
  {
    match envelope(content)
    case Some(errors) => Failure(Api(errors))
    case None =>
      match decode(content)
      case Success(v) => Success(v)
      case Failure(f) => Failure(JsonDecode(DecodeMessage(f)))
  }

  /**
   * The outcome of `get` for a reply: status checks in a fixed order, then the two-phase decode.
   * A status that is neither 2xx nor 4xx/5xx panics: `error_for_status` returns `Ok` for it
   * and the code unwraps its error.
   */
  function Classify<T>(url: Url, reply: Reply, envelope: string -> Option<ApiErrors>,
                       decode: string -> Result<T, DecodeFailure>): (r: Ending<Result<T, Error>>)
    ensures r.Panicked? <==> reply.Received? && !IsSuccess(reply.status) && !IsErrorStatus(reply.status)
    ensures reply.SendFailed? ==> r == Completed(Failure(Http(SendFailure(reply.cause))))
    ensures reply.Received? && reply.status == NOT_FOUND ==> r == Completed(Failure(NotFound(url)))
    ensures reply.Received? && reply.status == FORBIDDEN ==>
              r == Completed(Failure(PermissionDenied(if reply.body.Text? then reply.body.content else "")))
    ensures reply.Received? && IsErrorStatus(reply.status) && reply.status != NOT_FOUND && reply.status != FORBIDDEN ==>
              r == Completed(Failure(Http(StatusFailure(reply.status))))
    ensures r.Completed? && r.value.Success? ==> reply.Received? && IsSuccess(reply.status) && reply.body.Text?
    ensures reply.Received? && IsSuccess(reply.status) && reply.body.Unreadable? ==>
              r == Completed(Failure(Http(BodyReadFailure(reply.body.cause))))
    ensures reply.Received? && IsSuccess(reply.status) && reply.body.Text? ==>
              r == Completed(DecodeBody(reply.body.content, envelope, decode))
  {
    match reply
    case SendFailed(cause) => Completed(Failure(Http(SendFailure(cause))))
    case Received(status, body) =>
      if !IsSuccess(status) then
        if status == NOT_FOUND then Completed(Failure(NotFound(url)))
        else if status == FORBIDDEN then Completed(Failure(PermissionDenied(if body.Text? then body.content else "")))
        else if IsErrorStatus(status) then Completed(Failure(Http(StatusFailure(status))))
        else Panicked
      else
        match body
        case Unreadable(cause) => Completed(Failure(Http(BodyReadFailure(cause))))
        case Text(content) => Completed(DecodeBody(content, envelope, decode))
  }

  /** Whether the reply got as far as a 2xx status with a readable body. */
  predicate BodyRead2xx(reply: Reply) {
    reply.Received? && IsSuccess(reply.status) && reply.body.Text?
  }

  /** A 2xx body that parses as the error envelope is an `Api` error, whatever the expected shape would make of it. */
  lemma {:induction false} EnvelopeTakesPriority<T>(url: Url, reply: Reply, envelope: string -> Option<ApiErrors>,
                                                   decode1: string -> Result<T, DecodeFailure>,
                                                   decode2: string -> Result<T, DecodeFailure>)
    requires BodyRead2xx(reply) && envelope(reply.body.content).Some?
    ensures Classify(url, reply, envelope, decode1) == Classify(url, reply, envelope, decode2)
    ensures Classify(url, reply, envelope, decode1) == Completed(Failure(Api(envelope(reply.body.content).value)))
  {
  }

  /**
   * `get` with the last-request stamp kept even when the status is not 2xx:
   * every sent request records its start, so consecutive starts are always spaced.
   */
  function StampedGet<T>(url: Url, lastRequest: Option<int>, now: int, rateLimit: nat, reply: Reply,
                         envelope: string -> Option<ApiErrors>,
                         decode: string -> Result<T, DecodeFailure>): (e: Exchange<T>)
    ensures e.result == Classify(url, reply, envelope, decode)
    ensures e.lastRequest == Some(RequestStart(lastRequest, now, rateLimit))
    ensures e.lastRequest.Some? && e.lastRequest.value >= now
    ensures lastRequest.Some? ==> e.lastRequest.value >= lastRequest.value + rateLimit
  {
    Exchange(Classify(url, reply, envelope, decode), Some(RequestStart(lastRequest, now, rateLimit)))
  }

  /** The starts of a series of stamped requests issued one after another at the given instants. */
  function StampedStarts(lastRequest: Option<int>, nows: seq<int>, rateLimit: nat): (starts: seq<int>)
    ensures |starts| == |nows|
    decreases |nows|
  {
    if |nows| == 0 then []
    else
      var start := RequestStart(lastRequest, nows[0], rateLimit);
      [start] + StampedStarts(Some(start), nows[1..], rateLimit)
  }

  /** The slot after a series of stamped requests issued at the given instants, whatever their replies. */
  function StampedSlot(lastRequest: Option<int>, nows: seq<int>, rateLimit: nat, replies: seq<Reply>): Option<int>
    requires |replies| == |nows|
    decreases |nows|
  {
    if |nows| == 0 then lastRequest
    else
      var e := StampedGet<()>(Url("", [], []), lastRequest, nows[0], rateLimit, replies[0],
                              _ => None, _ => Success(()));
      StampedSlot(e.lastRequest, nows[1..], rateLimit, replies[1..])
  }

  /**
   * The starts `StampedStarts` lists are the stamps successive `StampedGet` calls leave: after
   * the first k requests the slot holds the k-th start, whatever the replies were.
   */
  lemma {:induction false} StampedGetsLeaveStampedStarts(lastRequest: Option<int>, nows: seq<int>, rateLimit: nat,
                                                         replies: seq<Reply>, k: nat)
    requires |replies| == |nows| && 1 <= k <= |nows|
    ensures StampedSlot(lastRequest, nows[..k], rateLimit, replies[..k]) == Some(StampedStarts(lastRequest, nows, rateLimit)[k - 1])
    decreases k
  {
    var start := RequestStart(lastRequest, nows[0], rateLimit);
    assert StampedStarts(lastRequest, nows, rateLimit) == [start] + StampedStarts(Some(start), nows[1..], rateLimit);
    assert nows[..k][1..] == nows[1..][..k - 1];
    assert replies[..k][1..] == replies[1..][..k - 1];
    if k > 1 {
      StampedGetsLeaveStampedStarts(Some(start), nows[1..], rateLimit, replies[1..], k - 1);
    }
  }

  /** With stamping on every reply, any two consecutive request starts are at least `rateLimit` apart. */
  lemma {:induction false} StampedStartsAreSpaced(lastRequest: Option<int>, nows: seq<int>, rateLimit: nat)
    ensures forall i :: 0 < i < |nows| ==>
              StampedStarts(lastRequest, nows, rateLimit)[i] >= StampedStarts(lastRequest, nows, rateLimit)[i - 1] + rateLimit
    decreases |nows|
  {
    if |nows| > 1 {
      var start := RequestStart(lastRequest, nows[0], rateLimit);
      var rest := StampedStarts(Some(start), nows[1..], rateLimit);
      StampedStartsAreSpaced(Some(start), nows[1..], rateLimit);
      assert StampedStarts(lastRequest, nows, rateLimit) == [start] + rest;
      assert rest[0] == RequestStart(Some(start), nows[1], rateLimit);
    }
  }
}
