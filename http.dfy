/** Values the worker exchanges with the host's HTTP layer: request identities,
    captured responses and the outcome of a network call. Real `Request` and
    `Response` objects are reduced to the fields the worker looks at. */
module Http {

  datatype Option<+T> = None | Some(value: T)

  /** The identity under which a cache region stores a response. */
  datatype RequestKey = RequestKey(verb: string, url: string)

  /** A response as far as the worker observes it. */
  datatype Response = Response(status: int, body: string, contentType: string) {
    /** `response.ok`: the status lies in the range 200-299. */
    predicate IsOk() {
      200 <= status <= 299
    }
  }

  /** What `fetch` settles to: a response of any status, or a rejection
      (no connectivity, DNS failure, CORS refusal, ...). */
  datatype NetResult = Ok(response: Response) | Fail

  /** A bare URL handed to a cache API (`addAll`, `match`) stands for a GET of that URL. */
  function GetKey(url: string): RequestKey
  {
    RequestKey("GET", url)
  }
}
