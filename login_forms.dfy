/** The two login forms: src/features/auth/LoginForm.js stores an expiry
    computed from a lifetime in seconds, src/components/LoginForm.js stores the
    absolute expiry the server sent. Both clear the error, await `loginUser`,
    write `token` then `expiresAt`, and only then call `onLogin`. */
module LoginForms {
  import opened Wrappers
  import Text
  import opened Storage
  import opened Session
  import opened Api

  const InvalidCredentials := "Invalid email or password"

  /** The store after a login that wrote `token` and `expiresAt`. */
  function StoreSession(store: Store, token: string, expiresAt: string): (s: Store)
    ensures s.Keys == store.Keys + {"token", "expiresAt"}
    ensures s["token"] == token && s["expiresAt"] == expiresAt
    ensures forall k :: k in store && k != "token" && k != "expiresAt" ==> s[k] == store[k]
  {
    store["token" := token]["expiresAt" := expiresAt]
  }

  /** The text `localStorage` keeps for `Date.now() + data.expiresIn * 1000`:
      read back as a number it is the expiry in milliseconds; without
      `expiresIn` the sum is NaN, which reads back as no number at all. */
  function StoredExpiry(now: int, expiresIn: Option<int>): (t: string)
    ensures expiresIn.Some? ==> Text.ParseInteger(t) == Some(now + expiresIn.value * 1000)
    ensures expiresIn.None? ==> Text.ParseInteger(t) == None
  {
    match expiresIn
    case Some(n) =>
      Text.ParseIntegerOfIntToString(now + n * 1000);
      Text.IntToString(now + n * 1000)
    case None => "NaN"
  }

  /** The text `localStorage` keeps for a response field: the field itself,
      or "undefined" when the response lacks it. */
  function StoredField(v: Option<string>): (s: string)
    ensures v.Some? ==> s == v.value
    ensures v.None? ==> s == "undefined"
  {
    v.GetOr("undefined")
  }

  /** After a relative-expiry login at `loginTime`, a validity check at time
      `now` succeeds exactly when `now` is before `loginTime + expiresIn * 1000`;
      this holds even when the response had no token, whose stored text
      "undefined" is truthy. */
  lemma RelativeLoginValidUntilExpiry(store: Store, token: Option<string>, loginTime: int, expiresIn: int, now: int)
    requires token != Some("")
    ensures SessionValid(StoreSession(store, StoredField(token), StoredExpiry(loginTime, Some(expiresIn))), now)
      <==> now < loginTime + expiresIn * 1000
  {
    var s := StoreSession(store, StoredField(token), StoredExpiry(loginTime, Some(expiresIn)));
    assert s["token"] != "";
    assert Text.ParseInteger(s["expiresAt"]) == Some(loginTime + expiresIn * 1000);
  }

  /** With a positive lifetime, a check at any time from the login up to the
      expiry succeeds. */
  lemma RelativeLoginValidRightAfter(store: Store, token: Option<string>, loginTime: int, expiresIn: int, now: int)
    requires token != Some("") && expiresIn > 0
    requires loginTime <= now < loginTime + expiresIn * 1000
    ensures SessionValid(StoreSession(store, StoredField(token), StoredExpiry(loginTime, Some(expiresIn))), now)
  {
    RelativeLoginValidUntilExpiry(store, token, loginTime, expiresIn, now);
  }

  /** A login response without the expiry field still logs the app in, but
      the stored expiry ("NaN" from the relative form, "undefined" from the
      absolute one) makes the session invalid at every later mount. */
  lemma MissingExpiryInvalidAtNextMount(store: Store, token: Option<string>, loginTime: int, now: int)
    ensures !SessionValid(StoreSession(store, StoredField(token), StoredExpiry(loginTime, None)), now)
    ensures !SessionValid(StoreSession(store, StoredField(token), StoredField(None)), now)
  {
    assert StoredField(None) == "undefined";
    assert "undefined"[0] == 'u';
  }

  /** The form of src/features/auth/LoginForm.js: its `error` state. */
  class RelativeExpiryLoginForm {
    var error: string

    constructor ()
      ensures error == ""
    {
      error := "";
    }

    /** `handleSubmit`, given the clock and how `loginUser` settled. On
        success the store gains the token and the computed expiry and the app
        is logged in; on failure nothing is written, the app is untouched and
        the error is the fixed message. */
    method HandleSubmit(app: App, now: int, login: Result<LoginData>)
      modifies this, app
      ensures app.mounted == old(app.mounted)
      ensures login.Ok? ==>
        && error == ""
        && app.store == StoreSession(old(app.store), StoredField(login.value.token),
                                     StoredExpiry(now, login.value.expiresIn))
        && app.isLoggedIn
      ensures login.Err? ==>
        error == InvalidCredentials && app.store == old(app.store) && app.isLoggedIn == old(app.isLoggedIn)
    {
      error := "";
      match login {
        case Ok(data) =>
          app.store := app.store["token" := StoredField(data.token)];
          app.store := app.store["expiresAt" := StoredExpiry(now, data.expiresIn)];
          app.OnLogin();
        case Err(_) =>
          error := InvalidCredentials;
      }
    }
  }

  /** The form of src/components/LoginForm.js: its `error` state. */
  class AbsoluteExpiryLoginForm {
    var error: string

    constructor ()
      ensures error == ""
    {
      error := "";
    }

    /** `handleSubmit`, given how `loginUser` settled. On success the token
        and the server's expiry are stored verbatim ("undefined" for a missing
        field) and the app is logged in;
        on failure nothing is written and the error is the fixed message. */
    method HandleSubmit(app: App, login: Result<LoginData>)
      modifies this, app
      ensures app.mounted == old(app.mounted)
      ensures login.Ok? ==>
        && error == ""
        && app.store == StoreSession(old(app.store), StoredField(login.value.token), StoredField(login.value.expiresAt))
        && app.isLoggedIn
      ensures login.Err? ==>
        error == InvalidCredentials && app.store == old(app.store) && app.isLoggedIn == old(app.isLoggedIn)
    {
      error := "";
      match login {
        case Ok(data) =>
          app.store := app.store["token" := StoredField(data.token)];
          app.store := app.store["expiresAt" := StoredField(data.expiresAt)];
          app.OnLogin();
        case Err(_) =>
          error := InvalidCredentials;
      }
    }
  }
}
