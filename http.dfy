/** How the network calls of the client settle, taken as inputs of the model. */
module Http {

  /** How reading a body with `res.json()` settles: the parsed value, or a
      rejection with the parser's error message. */
  datatype Json<T> = Parsed(value: T) | Malformed(message: string)

  /** What awaiting `fetch(...)` yields: a rejection (the request never got a
      response; `message` is the error's message) or a response with its `ok`
      flag, status code, `content-type` header (empty when absent), its body
      as `res.json()` would read it, and its body as `res.text()` would read it. */
  datatype Fetched<T> =
    | Rejected(message: string)
    | Response(ok: bool, status: int, contentType: string, json: Json<T>, text: string)

  /** Whether the request got a response with a 2xx status. */
  predicate Succeeded<T>(res: Fetched<T>) {
    res.Response? && res.ok
  }
}
