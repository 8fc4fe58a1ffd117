/** What the client sees of HTTP: methods, responses and the outcome of a
    `fetch`. The server, the network and the browser's cookie jar are not
    modelled; their answers are inputs. */
module Http {

  datatype Method = GET | POST | PUT | DELETE | PATCH

  /** A received response: status code, status line text and body text. */
  datatype Response = Response(status: int, statusText: string, body: string) {
    /** `response.ok`. */
    predicate Ok() { 200 <= status <= 299 }
  }

  /** The settled `fetch` promise: rejected by a network failure, or resolved
      with a response of any status. */
  datatype FetchResult = NetworkError(message: string) | Received(response: Response)
}
