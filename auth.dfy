/** Client-side reading of the identity claims carried in the bearer token
    (src/shared/auth.js). The token is a JSON Web Token in compact
    serialisation (section 7.1 of RFC 7515): three base64url segments joined by
    dots, the second holding the claims. Nothing is verified cryptographically. */
module Auth {
  import opened Wrappers
  import Text
  import opened Storage

  /** A parsed claims object: claim name to (string) claim value. */
  type Claims = map<string, string>

  /** `atob` followed by `JSON.parse`, taken as a parameter of the model:
      `None` when either of them throws. */
  type Decoder = string -> Option<Claims>

  /** `token.split(".")[1]`: the payload segment, `None` (undefined) when the
      token has no dot at all. */
  function PayloadSegment(token: string): (seg: Option<string>)
    ensures seg.None? <==> '.' !in token
    ensures seg.Some? ==> '.' !in seg.value
  {
    var parts := Text.Split(token, '.');
    if |parts| > 1 then Some(parts[1]) else None
  }

  /** Undoes the URL-safe alphabet of section 5 of RFC 4648: every `-` becomes
      `+` and every `_` becomes `/`; nothing else changes. */
  function Base64FromUrl(seg: string): (r: string)
    ensures |r| == |seg|
    ensures '-' !in r && '_' !in r
    ensures forall i :: 0 <= i < |seg| ==>
      r[i] == (if seg[i] == '-' then '+' else if seg[i] == '_' then '/' else seg[i])
  {
    Text.ReplaceAll(Text.ReplaceAll(seg, '-', '+'), '_', '/')
  }

  /** `parseJwt`: the claims of the payload segment, or the empty object when
      the token is absent or empty, has no payload segment, or does not
      decode. It never fails. */
  function ParseJwt(token: Option<string>, decode: Decoder): (claims: Claims)
    ensures token.None? || token == Some("") ==> claims == map[]
    ensures token.Some? && '.' !in token.value ==> claims == map[]
    ensures token.Some? && token.value != "" && '.' in token.value ==>
      claims == decode(Base64FromUrl(Text.Split(token.value, '.')[1])).GetOr(map[])
  {
    if token.None? || token.value == "" then map[]
    else
      match PayloadSegment(token.value)
      case None => map[]
      case Some(seg) => decode(Base64FromUrl(seg)).GetOr(map[])
  }

  /** The claims of a token with header `h`, payload `p` and any tail that is
      empty or starts a further segment come from `p` alone. */
  lemma ParseJwtReadsPayloadOnly(h: string, p: string, tail: string, decode: Decoder)
    requires '.' !in h && '.' !in p
    requires tail == [] || tail[0] == '.'
    ensures ParseJwt(Some(h + "." + p + tail), decode) == decode(Base64FromUrl(p)).GetOr(map[])
  {
    var token := h + "." + p + tail;
    assert token == h + ['.'] + (p + tail);
    Text.SplitAfterFirstSeparator(h, p + tail, '.');
    Text.SplitFirstPart(p, tail, '.');
  }

  /** Header and signature segments never affect the claims. */
  lemma ParseJwtIgnoresHeaderAndSignature(h1: string, h2: string, p: string, s1: string, s2: string, decode: Decoder)
    requires '.' !in h1 && '.' !in h2 && '.' !in p
    ensures ParseJwt(Some(h1 + "." + p + "." + s1), decode) == ParseJwt(Some(h2 + "." + p + "." + s2), decode)
  {
    assert h1 + "." + p + "." + s1 == h1 + "." + p + ("." + s1);
    assert h2 + "." + p + "." + s2 == h2 + "." + p + ("." + s2);
    ParseJwtReadsPayloadOnly(h1, p, "." + s1, decode);
    ParseJwtReadsPayloadOnly(h2, p, "." + s2, decode);
  }

  /** JavaScript truthiness of `p[key]` for a string-valued claim. */
  predicate Truthy(claims: Claims, key: string): (t: bool)
    ensures t ==> key in claims && claims[key] != ""
    ensures key !in claims ==> !t
  {
    key in claims && claims[key] != ""
  }

  /** `p[keys[0]] || p[keys[1]] || ... || null`: the value of the first key
      whose claim is truthy. */
  function FirstTruthy(claims: Claims, keys: seq<string>): (r: Option<string>)
    ensures r.None? <==> forall i :: 0 <= i < |keys| ==> !Truthy(claims, keys[i])
    ensures r.Some? ==> exists i :: 0 <= i < |keys| && Truthy(claims, keys[i]) && r.value == claims[keys[i]]
                                   && forall j :: 0 <= j < i ==> !Truthy(claims, keys[j])
  {
    if keys == [] then None
    else if Truthy(claims, keys[0]) then Some(claims[keys[0]])
    else
      var r := FirstTruthy(claims, keys[1..]);
      assert r.Some? ==> exists i :: 1 <= i < |keys| && Truthy(claims, keys[i]) && r.value == claims[keys[i]]
                                     && forall j :: 0 <= j < i ==> !Truthy(claims, keys[j]);
      r
  }

  /** One step of the `||` chain. */
  lemma FirstTruthyStep(claims: Claims, keys: seq<string>)
    requires keys != []
    ensures FirstTruthy(claims, keys) ==
      if Truthy(claims, keys[0]) then Some(claims[keys[0]]) else FirstTruthy(claims, keys[1..])
  {
  }

  /** `getCurrentUserId`, with `localStorage` as a parameter: `userId`, then
      `id`, then `sub`, then `uid`. */
  function GetCurrentUserId(store: Store, decode: Decoder): (r: Option<string>)
    ensures var p := ParseJwt(GetItem(store, "token"), decode);
      r == (if Truthy(p, "userId") then Some(p["userId"])
            else if Truthy(p, "id") then Some(p["id"])
            else if Truthy(p, "sub") then Some(p["sub"])
            else if Truthy(p, "uid") then Some(p["uid"])
            else None)
  {
    var p := ParseJwt(GetItem(store, "token"), decode);
    var keys := ["userId", "id", "sub", "uid"];
    FirstTruthyStep(p, keys);
    FirstTruthyStep(p, keys[1..]);
    FirstTruthyStep(p, keys[1..][1..]);
    FirstTruthyStep(p, keys[1..][1..][1..]);
    assert keys[1..][1..][1..][1..] == [];
    FirstTruthy(p, keys)
  }

  /** `getCurrentUserEmail`, with `localStorage` as a parameter: `email`,
      then `sub`. */
  function GetCurrentUserEmail(store: Store, decode: Decoder): (r: Option<string>)
    ensures var p := ParseJwt(GetItem(store, "token"), decode);
      r == (if Truthy(p, "email") then Some(p["email"])
            else if Truthy(p, "sub") then Some(p["sub"])
            else None)
  {
    var p := ParseJwt(GetItem(store, "token"), decode);
    var keys := ["email", "sub"];
    FirstTruthyStep(p, keys);
    FirstTruthyStep(p, keys[1..]);
    assert keys[1..][1..] == [];
    FirstTruthy(p, keys)
  }

  /** When there is no token, or the payload does not decode, both getters
      give null. */
  lemma GettersNullWithoutClaims(store: Store, decode: Decoder)
    requires ParseJwt(GetItem(store, "token"), decode) == map[]
    ensures GetCurrentUserId(store, decode) == None
    ensures GetCurrentUserEmail(store, decode) == None
  {
  }

  /** A payload whose only identity claim is `sub` gives that same value as
      both the user id and the email. */
  lemma SubjectOnlyGivesSameIdAndEmail(store: Store, decode: Decoder, sub: string)
    requires sub != ""
    requires ParseJwt(GetItem(store, "token"), decode) == map["sub" := sub]
    ensures GetCurrentUserId(store, decode) == Some(sub)
    ensures GetCurrentUserEmail(store, decode) == Some(sub)
  {
  }
}
