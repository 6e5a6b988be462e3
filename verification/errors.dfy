/** The error values the two clients construct. */
module Errors {
  import opened Urls
  import opened Types

  /** Why the HTTP layer failed: sending, a non-2xx status other than 403/404, or reading the body. */
  datatype HttpFailure =
    | SendFailure(detail: string)
    | StatusFailure(status: nat)
    | BodyReadFailure(detail: string)

  /** What `serde_path_to_error` reports when a body does not fit the expected shape. */
  datatype DecodeFailure = DecodeFailure(message: string, path: string)

  datatype Error =
    | Http(cause: HttpFailure)
    | NotFound(url: Url)
    | PermissionDenied(reason: string)
    | Api(errors: ApiErrors)
    | JsonDecode(message: string)

  /** A client call whose result is either a value or one of the errors above. */
  type Outcome<T> = Wrappers.Result<T, Error>
}
