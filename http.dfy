/**
 * The requests the client sends and the responses it reads back. Sending is
 * left to the caller: a fetch is modelled by the request it would make and
 * by what the client does with a given response.
 */
module Http {
  import opened Forms

  /** A request to an endpoint of the portal, relative to the API base. */
  datatype Request =
    | Get(endpoint: string)
    | Post(endpoint: string, body: FormData)

  datatype Response<B> = Response(status: int, body: B) {
    /** `response.ok`: a status in the range 200-299. */
    predicate Ok() {
      200 <= status <= 299
    }
  }
}
