/** The request helpers of src/api/api.js: the posts query URL, the common
    "throw unless ok" rule, and the error and return value of registration. */
module Api {
  import opened Wrappers
  import Text
  import opened Http

  const PostsPath := "/api/v1/posts"

  /** The posts list URL for a category filter and a tag filter, where the
      empty id means "no filter": the query appears only when a filter is set,
      the category comes before the tag, and the two are joined by `&`. */
  function PostsUrl(base: string, categoryId: string, tagId: string): string {
    if categoryId != "" && tagId != "" then base + "?categoryId=" + categoryId + "&tagId=" + tagId
    else if categoryId != "" then base + "?categoryId=" + categoryId
    else if tagId != "" then base + "?tagId=" + tagId
    else base
  }

  /** The URL construction of `fetchPosts`: push each truthy filter onto
      `params`, then append `?` and the `&`-joined parameters when there are any. */
  method BuildPostsUrl(base: string, categoryId: string, tagId: string) returns (url: string)
    ensures url == PostsUrl(base, categoryId, tagId)
  {
    url := base;
    var params: seq<string> := [];
    if categoryId != "" {
      params := params + ["categoryId=" + categoryId];
    }
    if tagId != "" {
      params := params + ["tagId=" + tagId];
    }
    if |params| > 0 {
      url := url + "?" + Text.Join(params, "&");
    }
  }

  /** Unless the base and the ids already contain one, a `?` appears in the
      URL exactly when at least one filter is set. */
  lemma QueryMarkIffFilter(base: string, categoryId: string, tagId: string)
    requires '?' !in base && '?' !in categoryId && '?' !in tagId
    ensures '?' in PostsUrl(base, categoryId, tagId) <==> categoryId != "" || tagId != ""
  {
    var url := PostsUrl(base, categoryId, tagId);
    if categoryId != "" || tagId != "" {
      assert url[|base|] == '?';
    } else {
      assert url == base;
    }
  }

  /** The rule shared by `loginUser`, `fetchPosts`, `fetchCategories` and
      `fetchTags`: a non-ok response throws `failure`, an ok one returns its
      parsed body; a rejected request or a body that is not JSON throws the
      runtime's error. */
  function ThrowUnlessOk<T>(res: Fetched<T>, failure: string): (r: Result<T>)
    ensures res.Rejected? ==> r == Err(res.message)
    ensures res.Response? && !res.ok ==> r == Err(failure)
    ensures r.Ok? <==> Succeeded(res) && res.json.Parsed?
    ensures r.Ok? ==> r.value == res.json.value
    ensures Succeeded(res) && res.json.Malformed? ==> r == Err(res.json.message)
  {
    match res
    case Rejected(m) => Err(m)
    case Response(ok, _, _, json, _) =>
      if !ok then Err(failure)
      else match json
        case Parsed(v) => Ok(v)
        case Malformed(m) => Err(m)
  }

  /** The fields of the login response that the login forms read: the token,
      its lifetime in seconds and its absolute expiry, each `None` when the
      response does not carry it. */
  datatype LoginData = LoginData(token: Option<string>, expiresIn: Option<int>, expiresAt: Option<string>)

  /** `loginUser`: any non-ok response is the error "Login failed". */
  function LoginUser(res: Fetched<LoginData>): (r: Result<LoginData>)
    ensures res.Rejected? ==> r == Err(res.message)
    ensures res.Response? && !res.ok ==> r == Err("Login failed")
    ensures r.Ok? <==> Succeeded(res) && res.json.Parsed?
    ensures r.Ok? ==> r.value == res.json.value
  {
    ThrowUnlessOk(res, "Login failed")
  }

  /** `fetchPosts`: the request URL and how the call settles. */
  method FetchPosts<T>(categoryId: string, tagId: string, res: Fetched<T>) returns (url: string, r: Result<T>)
    ensures url == PostsUrl(PostsPath, categoryId, tagId)
    ensures res.Rejected? ==> r == Err(res.message)
    ensures res.Response? && !res.ok ==> r == Err("Failed to fetch posts")
    ensures r.Ok? <==> Succeeded(res) && res.json.Parsed?
    ensures r.Ok? ==> r.value == res.json.value
    ensures Succeeded(res) && res.json.Malformed? ==> r == Err(res.json.message)
  {
    url := BuildPostsUrl(PostsPath, categoryId, tagId);
    r := ThrowUnlessOk(res, "Failed to fetch posts");
  }

  /** A JSON object whose values are strings, its properties listed in their
      enumeration order, each name once. */
  type JsonObject = o: seq<(string, string)> | UniqueNames(o)

  predicate UniqueNames(o: seq<(string, string)>) {
    forall i, j :: 0 <= i < j < |o| ==> o[i].0 != o[j].0
  }

  /** `obj[name]`. */
  function Property(obj: JsonObject, name: string): (v: Option<string>)
    ensures v.Some? <==> exists i :: 0 <= i < |obj| && obj[i].0 == name
    ensures v.Some? ==> exists i :: 0 <= i < |obj| && obj[i] == (name, v.value)
    ensures forall i :: 0 <= i < |obj| && obj[i].0 == name ==> v == Some(obj[i].1)
  {
    if obj == [] then None
    else if obj[0].0 == name then Some(obj[0].1)
    else Property(obj[1..], name)
  }

  /** `contentType.includes("application/json")`. */
  predicate IsJsonContent(contentType: string): (json: bool)
    ensures json <==> exists i :: Text.OccursAt(contentType, "application/json", i)
  {
    Text.Contains(contentType, "application/json")
  }

  /** `Registration failed (<status>)`: the status can be read back from
      between the parentheses. */
  function DefaultRegistrationError(status: int): (m: string)
    ensures |m| > 22 && m[..21] == "Registration failed (" && m[|m| - 1] == ')'
    ensures Text.ParseInteger(m[21..|m| - 1]) == Some(status)
  {
    var m := "Registration failed (" + Text.IntToString(status) + ")";
    assert m[21..|m| - 1] == Text.IntToString(status);
    Text.ParseIntegerOfIntToString(status);
    m
  }

  /** The message thrown by `registerUser` for a non-ok response: for a JSON
      body, `data?.message || Object.values(data || {})[0] || msg`; otherwise
      the body text when it is not empty; `msg` being the default message. */
  function RegistrationError(status: int, contentType: string, json: Json<JsonObject>, text: string): (m: string)
    ensures m != ""
    ensures m == DefaultRegistrationError(status) || m == text
      || (json.Parsed? && exists i :: 0 <= i < |json.value| && json.value[i].1 == m)
  {
    var fallback := DefaultRegistrationError(status);
    if IsJsonContent(contentType) then
      match json
      case Malformed(_) => fallback
      case Parsed(obj) =>
        var message := Property(obj, "message");
        if message.Some? && message.value != "" then message.value
        else if |obj| > 0 && obj[0].1 != "" then obj[0].1
        else fallback
    else if text != "" then text
    else fallback
  }

  /** The step-by-step computation of that message, reassigning `msg`. */
  method RegistrationErrorMessage(status: int, contentType: string, json: Json<JsonObject>, text: string)
    returns (msg: string)
    ensures msg == RegistrationError(status, contentType, json, text)
  {
    msg := DefaultRegistrationError(status);
    if IsJsonContent(contentType) {
      var data: Option<JsonObject> := if json.Parsed? then Some(json.value) else None;
      var message := if data.Some? then Property(data.value, "message") else None;
      if message.Some? && message.value != "" {
        msg := message.value;
      } else if data.Some? && |data.value| > 0 && data.value[0].1 != "" {
        msg := data.value[0].1;
      }
    } else {
      var body := text;
      if body != "" {
        msg := body;
      }
    }
  }

  /** The precedence of the registration error message: for a JSON body, a
      truthy `message` wins; without one, the first property's value when
      truthy, else the default (always the default when the body does not
      parse); for any other body, its text when not empty, else the default. */
  lemma RegistrationErrorPrecedence(status: int, contentType: string, json: Json<JsonObject>, text: string)
    ensures IsJsonContent(contentType) && json.Malformed? ==>
      RegistrationError(status, contentType, json, text) == DefaultRegistrationError(status)
    ensures IsJsonContent(contentType) && json.Parsed? ==>
      forall i :: 0 <= i < |json.value| && json.value[i].0 == "message" && json.value[i].1 != "" ==>
        RegistrationError(status, contentType, json, text) == json.value[i].1
    ensures IsJsonContent(contentType) && json.Parsed? ==>
      (forall i :: 0 <= i < |json.value| && json.value[i].0 == "message" ==> json.value[i].1 == "") ==>
      RegistrationError(status, contentType, json, text) ==
        (if |json.value| > 0 && json.value[0].1 != "" then json.value[0].1 else DefaultRegistrationError(status))
    ensures !IsJsonContent(contentType) ==>
      RegistrationError(status, contentType, json, text) == (if text != "" then text else DefaultRegistrationError(status))
  {
    if IsJsonContent(contentType) && json.Parsed? {
      var message := Property(json.value, "message");
      if message.Some? {
        var i :| 0 <= i < |json.value| && json.value[i] == ("message", message.value);
        assert json.value[i].0 == "message";
      }
    }
  }

  /** `registerUser`: a non-ok response throws its error message; an ok one
      returns null for status 204 whatever the content type, the parsed body
      for a JSON content type, and null otherwise. */
  function RegisterUser(res: Fetched<JsonObject>): (r: Result<Option<JsonObject>>)
    ensures res.Rejected? ==> r == Err(res.message)
    ensures res.Response? && !res.ok ==>
      r == Err(RegistrationError(res.status, res.contentType, res.json, res.text))
    ensures Succeeded(res) && res.status == 204 ==> r == Ok(None)
    ensures Succeeded(res) && res.status != 204 && !IsJsonContent(res.contentType) ==> r == Ok(None)
    ensures Succeeded(res) && res.status != 204 && IsJsonContent(res.contentType) ==>
      r == (match res.json case Parsed(v) => Ok(Some(v)) case Malformed(m) => Err(m))
  {
    match res
    case Rejected(m) => Err(m)
    case Response(ok, status, contentType, json, text) =>
      if !ok then Err(RegistrationError(status, contentType, json, text))
      else if status == 204 then Ok(None)
      else if IsJsonContent(contentType) then
        match json
        case Parsed(v) => Ok(Some(v))
        case Malformed(m) => Err(m)
      else Ok(None)
  }
}
