/** `fetchWithAuth` (src/shared/apiClient.js): prefixes the API base path,
    attaches the bearer token from `localStorage` and turns a non-ok response
    into an error. */
module ApiClient {
  import opened Wrappers
  import Text
  import opened Storage
  import opened Http

  const BaseUrl := "/api/v1"

  type Headers = map<string, string>

  /** The request that is sent. */
  datatype Request = Request(url: string, headers: Headers)

  /** The value of the `Authorization` header: `Bearer <token>` for a truthy
      token, the empty string otherwise. */
  function Authorization(token: Option<string>): (v: string)
    ensures token.Some? && token.value != "" ==> v == "Bearer " + token.value
    ensures token.None? || token.value == "" ==> v == ""
  {
    if token.Some? && token.value != "" then "Bearer " + token.value else ""
  }

  /** `{ ...options.headers, Authorization: ..., "Content-Type": "application/json" }`:
      the two fixed headers override the caller's, every other caller header
      is kept as it was, and no other header is added. */
  function MergeHeaders(caller: Headers, token: Option<string>): (h: Headers)
    ensures h.Keys == caller.Keys + {"Authorization", "Content-Type"}
    ensures h["Authorization"] == Authorization(token)
    ensures h["Content-Type"] == "application/json"
    ensures forall k :: k in caller && k != "Authorization" && k != "Content-Type" ==> h[k] == caller[k]
  {
    caller["Authorization" := Authorization(token)]["Content-Type" := "application/json"]
  }

  /** The request built for `fetchWithAuth(url, { headers })` with the token
      read from the store. */
  function BuildRequest(store: Store, url: string, caller: Headers): (req: Request)
    ensures |req.url| == |BaseUrl| + |url| && req.url[..|BaseUrl|] == BaseUrl && req.url[|BaseUrl|..] == url
    ensures req.headers == MergeHeaders(caller, GetItem(store, "token"))
  {
    Request(BaseUrl + url, MergeHeaders(caller, GetItem(store, "token")))
  }

  /** The text of the error thrown for a non-ok response. */
  function StatusError(status: int): (m: string)
    ensures |m| > 27 && m[..27] == "Request failed with status "
    ensures Text.ParseInteger(m[27..]) == Some(status)
  {
    var m := "Request failed with status " + Text.IntToString(status);
    assert m[27..] == Text.IntToString(status);
    Text.ParseIntegerOfIntToString(status);
    m
  }

  /** How the call settles once the response is in: a non-ok status throws
      without the body being read; an ok one returns the parsed body. */
  function Settle<T>(res: Fetched<T>): (r: Result<T>)
    ensures res.Response? && !res.ok ==> r == Err(StatusError(res.status))
    ensures r.Ok? <==> Succeeded(res) && res.json.Parsed?
    ensures r.Ok? ==> r.value == res.json.value
  {
    match res
    case Rejected(m) => Err(m)
    case Response(ok, status, _, json, _) =>
      if !ok then Err(StatusError(status))
      else match json
        case Parsed(v) => Ok(v)
        case Malformed(m) => Err(m)
  }

  /** A failed response's outcome depends on its status alone, never on its body. */
  lemma SettleFailureIgnoresBody<T>(status: int, ct1: string, ct2: string, j1: Json<T>, j2: Json<T>, t1: string, t2: string)
    ensures Settle(Response(false, status, ct1, j1, t1)) == Settle(Response(false, status, ct2, j2, t2))
  {
  }

  /** Different statuses give different error messages, so the status can
      be read back from the message. */
  lemma StatusErrorDistinguishes(s1: int, s2: int)
    requires StatusError(s1) == StatusError(s2)
    ensures s1 == s2
  {
    var prefix := "Request failed with status ";
    assert StatusError(s1)[|prefix|..] == Text.IntToString(s1);
    assert StatusError(s2)[|prefix|..] == Text.IntToString(s2);
    Text.ParseIntegerOfIntToString(s1);
    Text.ParseIntegerOfIntToString(s2);
  }
}
