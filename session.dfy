/** The session lifecycle and routing of src/App.js. The session is the pair
    of `localStorage` entries `token` and `expiresAt`; the app keeps a
    logged-in flag that is decided once, when the app mounts, and afterwards
    changed only by login and logout. */
module Session {
  import opened Wrappers
  import Text
  import opened Storage

  /** `token && expiresAt && Date.now() < Number(expiresAt)`: both entries
      present and non-empty, and the clock strictly before the expiry. */
  predicate SessionValid(store: Store, now: int): (valid: bool)
    ensures valid ==> "token" in store && store["token"] != "" && "expiresAt" in store
    ensures valid ==> Text.ParseInteger(store["expiresAt"]).Some? && now < Text.ParseInteger(store["expiresAt"]).value
    ensures "token" !in store || "expiresAt" !in store ==> !valid
  {
    && GetItem(store, "token").Some? && store["token"] != ""
    && GetItem(store, "expiresAt").Some? && store["expiresAt"] != ""
    && Text.ParseInteger(store["expiresAt"]).Some?
    && now < Text.ParseInteger(store["expiresAt"]).value
  }

  /** With a token present and an expiry written as `String(t)`, the session
      is valid exactly before `t`; at `t` itself it is already invalid. */
  lemma ExpiryBoundaryIsStrict(store: Store, t: int, now: int)
    requires "token" in store && store["token"] != ""
    requires "expiresAt" in store && store["expiresAt"] == Text.IntToString(t)
    ensures SessionValid(store, now) <==> now < t
  {
    Text.ParseIntegerOfIntToString(t);
  }

  /** A stored session only ever expires: valid at some time, it was valid
      at every earlier time; invalid at some time, it stays invalid later. */
  lemma ValidityOnlyExpires(store: Store, earlier: int, later: int)
    requires earlier <= later
    ensures SessionValid(store, later) ==> SessionValid(store, earlier)
    ensures !SessionValid(store, earlier) ==> !SessionValid(store, later)
  {
  }

  /** An expiry that is not a decimal integer (NaN for `Number`) makes the
      session invalid whatever the clock says. */
  lemma NonNumericExpiryIsInvalid(store: Store, now: int)
    requires "expiresAt" in store && Text.ParseInteger(store["expiresAt"]).None?
    ensures !SessionValid(store, now)
  {
  }

  /** The pages the router can show. */
  datatype Page =
    | LoginPage
    | MainPage
    | CreatePostPage
    | CategoryPage
    | PostDetailPage(id: string)
    | TagPage
    | RedirectToRoot

  /** The `:id` of a path matching `/posts/:id`. */
  function PostIdOf(path: string): (id: Option<string>)
    ensures id.Some? ==> path == "/posts/" + id.value && id.value != "" && '/' !in id.value
    ensures |path| > 7 && path[..7] == "/posts/" && '/' !in path[7..] ==> id == Some(path[7..])
  {
    var prefix := "/posts/";
    if |path| > |prefix| && path[..|prefix|] == prefix && '/' !in path[|prefix|..] then
      assert path == prefix + path[|prefix|..];
      Some(path[|prefix|..])
    else None
  }

  /** The route table: logged out, every path shows the login page; logged
      in, the five known routes show their page and any other path redirects
      to `/`. */
  function Route(isLoggedIn: bool, path: string): (page: Page)
    ensures !isLoggedIn ==> page == LoginPage
    ensures isLoggedIn ==> page != LoginPage
    ensures isLoggedIn && path == "/" ==> page == MainPage
    ensures isLoggedIn && path == "/create" ==> page == CreatePostPage
    ensures isLoggedIn && path == "/categories" ==> page == CategoryPage
    ensures isLoggedIn && path == "/tags" ==> page == TagPage
    ensures isLoggedIn && PostIdOf(path).Some? ==> page == PostDetailPage(PostIdOf(path).value)
    ensures page == RedirectToRoot <==>
      isLoggedIn && path !in {"/", "/create", "/categories", "/tags"} && PostIdOf(path).None?
  {
    if !isLoggedIn then LoginPage
    else if path == "/" then MainPage
    else if path == "/create" then CreatePostPage
    else if path == "/categories" then
      assert path[1] != "/posts/"[1];
      CategoryPage
    else if path == "/tags" then TagPage
    else match PostIdOf(path)
      case Some(id) => PostDetailPage(id)
      case None => RedirectToRoot
  }

  /** The app component: the browser's `localStorage` and the `isLoggedIn`
      state. `mounted` records that the mount effect has run. */
  class App {
    var store: Store
    var isLoggedIn: bool
    ghost var mounted: bool

    /** Before the mount effect runs the app is logged out; storage is
        whatever the browser holds. */
    constructor (initial: Store)
      ensures store == initial && !isLoggedIn && !mounted
    {
      store := initial;
      isLoggedIn := false;
      mounted := false;
    }

    /** The mount effect: read both entries, decide validity, and on an
        invalid session clear the whole store, unrelated keys included. It
        runs once per mount. */
    method Mount(now: int)
      requires !mounted
      modifies this
      ensures mounted
      ensures isLoggedIn == SessionValid(old(store), now)
      ensures store == if isLoggedIn then old(store) else map[]
    {
      var token := GetItem(store, "token");
      var expiresAt := GetItem(store, "expiresAt");
      var isValid := false;
      if token.Some? && token.value != "" && expiresAt.Some? && expiresAt.value != "" {
        var expiry := Text.ParseInteger(expiresAt.value);
        isValid := expiry.Some? && now < expiry.value;
      }
      isLoggedIn := isValid;
      if !isValid {
        store := map[];
      }
      mounted := true;
    }

    /** `handleLogout`: clear the whole store and log out. The outcome does
        not depend on the state before, so a second logout changes nothing. */
    method Logout()
      modifies this`store, this`isLoggedIn
      ensures store == map[] && !isLoggedIn
    {
      store := map[];
      isLoggedIn := false;
    }

    /** The `onLogin` callback: set logged-in; storage is neither read nor
        written, and validity is not re-checked. */
    method OnLogin()
      modifies this`isLoggedIn
      ensures isLoggedIn
    {
      isLoggedIn := true;
    }
  }
}
