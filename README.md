# Blog front end: client state, session and request rules

A Dafny model of the client-side logic of a React blogging front end whose
business logic lives in a REST backend. The model covers:

- the session lifecycle of `src/App.js`. The two `localStorage` entries
  `token` and `expiresAt` are checked once when the app mounts. An invalid
  session wipes the whole store. Logout also wipes it. Login writes both
  entries and flips the logged-in flag.
- the route table, which depends on the logged-in flag.
- the two login forms. One stores `now + expiresIn * 1000`. The other
  stores the server's absolute expiry as it came.
- the reading of identity claims from the token's payload segment
  (`src/shared/auth.js`).
- the request rules of `src/api/api.js` and `src/shared/apiClient.js`:
  the posts filter URL, the header merge, "throw unless ok", and the
  registration error message and return value.
- the state transitions of the post pages and the registration form:
  tag toggling, delete filtering, edit projections with defaults, and the
  guards and flags around each submit.

Network calls, the clock and `localStorage` are inputs of the model:

- a request settles as an `Http.Fetched` value: a rejection, or a response
  with its status, content type and body;
- `Date.now()` is a parameter `now`;
- the store is a `map<string, string>`;
- `atob` followed by `JSON.parse` is a parameter `decode` that may fail.

Handlers with an `await` whose intermediate state matters are split in
two: the part before the `await`, and the part after it ("settled"). This
applies to saving a draft and to registration. In between, `saving` and
`isSubmitting` are true, so a second registration submit is a no-op.

Notes on how the code behaves, which the model keeps:

- Claims are taken from the second dot-separated segment whenever there is
  one. A token with two segments, or with more than three, is still decoded.
  Of the segment counts, only a dotless token always gives the empty claim
  set. An absent or empty token, or a payload that fails to decode, gives
  it too.
- The user id and email fallbacks skip claims that are present but empty,
  because the code uses `||`. They do not stop at the first present claim.
- Validity is only decided at mount. Login sets the logged-in flag without
  checking the expiry it has just stored. A login response without the
  expiry field therefore logs the user in, but the stored `NaN` or
  `undefined` makes the next mount log them out. A response without a token
  stores the text `undefined`, which counts as a token.
- The home page's tag checkboxes throw on the initial empty edit object,
  which has no `tagIds`. This happens when the post being edited had no tags.
- `src/features/posts/PostDetailPage.js` holds the `DraftPostsPage`
  component. Its drafts list and inline editor are what is modelled under
  that name.
- `handleDelete` on the home page removes the post from the list whenever
  the DELETE request gets a response, even a failing one.

## Model

| member | source | states |
|---|---|---|
| Text.ParseInteger | src/App.js:16 | `Number(expiresAt)` for decimal integers; defined exactly for an optional `-` followed by at least one digit |
| Text.IntToString | src/features/auth/LoginForm.js:16 | the text `setItem` stores for a number; non-empty, with a leading `-` exactly for negatives |
| Text.ParseIntegerOfIntToString | src/App.js:16 | round trip: reading back the stored text of an integer gives that integer |
| Text.Join | src/api/api.js:28 | `join` of no parts is empty, of one part that part, and of two parts the first, the separator and the second |
| Text.Contains | src/api/api.js:45 | `includes`: true exactly when the pattern occurs at some position of the text |
| Text.Split | src/shared/auth.js:5 | `split(".")` yields at least one part, none containing the separator, and more than one exactly when the separator occurs |
| Text.JoinSplit | src/shared/auth.js:5 | joining the parts of a split on the separator gives back the original text |
| Text.SplitAfterFirstSeparator | src/shared/auth.js:5 | a separator-free first segment is the first part and the rest is split independently |
| Text.ReplaceAll | src/shared/auth.js:5 | a global one-character `replace` maps every occurrence and keeps length and all other characters |
| Text.ToUpper | src/features/posts/PostDetailPage.js:225 | upper-casing keeps the length and maps exactly the lower-case letters |
| Text.ToUpperIdempotent | src/features/posts/PostDetailPage.js:225 | upper-casing an upper-cased status changes nothing |
| Lists.Filter | src/features/posts/MainPage.js:89 | `filter` keeps exactly the elements satisfying the predicate and never grows the list |
| Lists.FilterAppend | src/features/posts/MainPage.js:89 | filtering distributes over concatenation, so kept elements keep their order |
| Lists.Toggle | src/features/posts/MainPage.js:85-91 | a present id is removed (all occurrences), an absent id is appended at the end; all other ids keep their membership |
| Lists.ToggleTwiceRestores | src/features/posts/MainPage.js:88-90 | toggling an absent id twice restores the original list |
| Lists.ToggleTwiceMovesToEnd | src/features/posts/CreatePostPage.js:69-75 | toggling a present id twice leaves the other ids in order and a single copy of the id at the end |
| Auth.PayloadSegment | src/shared/auth.js:5 | the second segment exists exactly when the token contains a dot, and it contains no dot |
| Auth.Base64FromUrl | src/shared/auth.js:5 | every `-` becomes `+` and every `_` becomes `/`; length and other characters are kept; no `-` or `_` remains |
| Auth.ParseJwt | src/shared/auth.js:2-11 | an absent or empty token, or one without a dot, gives `{}`; otherwise the decoded second segment, or `{}` when decoding fails |
| Auth.ParseJwtReadsPayloadOnly | src/shared/auth.js:5-7 | for `header.payload[.rest]`, the claims are the decoding of `payload` alone |
| Auth.ParseJwtIgnoresHeaderAndSignature | src/shared/auth.js:5 | two tokens sharing a payload segment give the same claims whatever their header and signature |
| Auth.Truthy | src/shared/auth.js:16 | a claim is truthy only when it is present and non-empty; an absent claim never is |
| Auth.FirstTruthy | src/shared/auth.js:16 | the `\|\|` chain: null exactly when no listed claim is truthy, else the value of the first truthy one |
| Auth.GetCurrentUserId | src/shared/auth.js:13-17 | the first truthy of `userId`, `id`, `sub`, `uid`, else null |
| Auth.GetCurrentUserEmail | src/shared/auth.js:19-23 | the first truthy of `email`, `sub`, else null |
| Auth.GettersNullWithoutClaims | src/shared/auth.js:3-10 | when parsing yields `{}` both getters return null |
| Auth.SubjectOnlyGivesSameIdAndEmail | src/shared/auth.js:16-22 | a payload with only `sub` gives that value for both the id and the email |
| ApiClient.Authorization | src/shared/apiClient.js:7 | `Bearer <token>` for a truthy token, the empty string otherwise |
| ApiClient.MergeHeaders | src/shared/apiClient.js:5-9 | `Authorization` and `Content-Type` override the caller's; every other caller header is kept unchanged; nothing else is added |
| ApiClient.BuildRequest | src/shared/apiClient.js:4-14 | the URL is `/api/v1` followed by the given path; the headers are the merge with the stored token |
| ApiClient.StatusError | src/shared/apiClient.js:17 | the message is `Request failed with status ` followed by text that reads back as the status |
| ApiClient.Settle | src/shared/apiClient.js:16-20 | a non-ok status throws `Request failed with status <n>`; success exactly for an ok response whose body parses, returning that body |
| ApiClient.SettleFailureIgnoresBody | src/shared/apiClient.js:16-18 | a non-ok outcome depends on the status only, not on the body |
| ApiClient.StatusErrorDistinguishes | src/shared/apiClient.js:17 | distinct statuses give distinct error messages |
| Api.BuildPostsUrl | src/api/api.js:23-28 | the pushed-and-joined URL equals the case table: base alone, `?categoryId=c`, `?tagId=t`, or `?categoryId=c&tagId=t` |
| Api.QueryMarkIffFilter | src/api/api.js:28 | a `?` appears exactly when at least one filter is set |
| Api.ThrowUnlessOk | src/api/api.js:7-8 | a rejection keeps its error; a non-ok response throws the given message; success exactly for an ok response whose body parses, returning that body; an unparsable body throws the parse error |
| Api.LoginUser | src/api/api.js:1-9 | a rejection keeps its error; any non-ok login response is the error `Login failed`; success exactly for an ok, parsable response, returning its body |
| Api.FetchPosts | src/api/api.js:23-32 | requests the filter URL; a rejection keeps its error; a non-ok response is `Failed to fetch posts`; an ok response returns its parsed body, or throws the parse error |
| Api.Property | src/api/api.js:47 | `data.message`: present exactly when some property has that name, and then its value |
| Api.IsJsonContent | src/api/api.js:56 | the content type counts as JSON exactly when `application/json` occurs somewhere in it |
| Api.DefaultRegistrationError | src/api/api.js:44 | the default is `Registration failed (` and `)` around text that reads back as the status |
| Api.RegistrationError | src/api/api.js:44-51 | the error message is never empty, and is the default, the body text or one of the parsed body's values |
| Api.RegistrationErrorMessage | src/api/api.js:43-52 | the step-by-step `msg` reassignment gives the message whose precedence `RegistrationErrorPrecedence` states |
| Api.RegistrationErrorPrecedence | src/api/api.js:44-51 | JSON body: a truthy `message` wins; with no truthy `message`, a truthy first value, else the default; always the default when unparsable; other bodies: non-empty text, else the default |
| Api.RegisterUser | src/api/api.js:34-60 | a failure throws the error message; on success 204 gives null before the content type is looked at, a JSON type gives the parsed body, anything else null |
| Storage.GetItem | src/App.js:14-15 | `getItem` returns a value exactly for a stored key, and then the stored text |
| Session.SessionValid | src/App.js:16 | a valid session has a non-empty token and a numeric expiry later than `now`; a missing entry makes it invalid |
| Session.ValidityOnlyExpires | src/App.js:16 | a session valid at some time was valid at every earlier time, and an invalid one stays invalid later |
| Session.ExpiryBoundaryIsStrict | src/App.js:16 | with a token and an expiry stored as `String(t)`, the session is valid exactly when `now < t`; `now == t` is invalid |
| Session.NonNumericExpiryIsInvalid | src/App.js:16 | an expiry that is not a decimal integer makes the session invalid |
| Session.PostIdOf | src/App.js:38 | `/posts/:id` matches exactly `/posts/` followed by a non-empty id without `/`, in both directions, and yields that id |
| Session.Route | src/App.js:31-41 | logged out: every path is the login page; logged in: the five routes map to their pages, any other path redirects to `/` |
| Session.App.constructor | src/App.js:11 | before the mount check the app is logged out |
| Session.App.Mount | src/App.js:13-19 | logged in exactly when the session is valid; an invalid session empties the whole store, a valid one leaves it unchanged |
| Session.App.Logout | src/App.js:21-24 | empties the store and logs out, whatever the previous state, so a second call changes nothing |
| Session.App.OnLogin | src/App.js:32 | sets logged-in; the frame shows the store is not written |
| LoginForms.StoreSession | src/features/auth/LoginForm.js:15-16 | the store gains `token` and `expiresAt` with the given values; every other entry is kept |
| LoginForms.StoredField | src/features/auth/LoginForm.js:15 | a field present in the response is stored as it is; a missing one as the text `undefined` |
| LoginForms.StoredExpiry | src/features/auth/LoginForm.js:14-16 | the stored expiry reads back as `now + expiresIn*1000`, and as no number when `expiresIn` is missing |
| LoginForms.RelativeLoginValidUntilExpiry | src/features/auth/LoginForm.js:14-16 | after a relative login at time T, a startup check at `now` succeeds exactly when `now < T + expiresIn*1000`, even when the token was missing |
| LoginForms.MissingExpiryInvalidAtNextMount | src/features/auth/LoginForm.js:14-16 | a login response without the expiry field leaves a session that is invalid at every later mount, for both forms |
| LoginForms.RelativeLoginValidRightAfter | src/features/auth/LoginForm.js:14 | with `expiresIn > 0`, a check at any time from the login up to the expiry succeeds |
| LoginForms.RelativeExpiryLoginForm.constructor | src/features/auth/LoginForm.js:7 | the form starts without an error |
| LoginForms.RelativeExpiryLoginForm.HandleSubmit | src/features/auth/LoginForm.js:9-21 | success: error cleared, token and `now + expiresIn*1000` stored (`undefined` or `NaN` for a missing field), app logged in; failure: fixed error, store and flag untouched |
| LoginForms.AbsoluteExpiryLoginForm.constructor | src/components/LoginForm.js:7 | the form starts without an error |
| LoginForms.AbsoluteExpiryLoginForm.HandleSubmit | src/components/LoginForm.js:9-20 | success: error cleared, token and server expiry stored verbatim (`undefined` for a missing field), app logged in; failure: fixed error, store and flag untouched |
| Posts.TagIds | src/features/posts/MainPage.js:49 | one id per tag, in order |
| Posts.WithoutPost | src/features/posts/MainPage.js:38 | keeps exactly the posts whose id differs |
| Posts.WithoutPostAppend | src/features/posts/MainPage.js:38 | deletion distributes over concatenation, so remaining posts keep their order |
| Posts.WithoutAbsentPost | src/features/posts/MainPage.js:38 | deleting an id no post has leaves the list unchanged |
| MainPage.EditFieldsOf | src/features/posts/MainPage.js:43-50 | defined exactly when the post has tags; copies id, title, content and status, the category id if any, and the tag ids in order |
| MainPage.MainPage.constructor | src/features/posts/MainPage.js:5-11 | no posts, no filters, not editing, empty edit object |
| MainPage.MainPage.FilterEffect | src/features/posts/MainPage.js:21-31 | the fetched URL is the posts filter URL for the selected category and tag |
| MainPage.MainPage.ReceivePosts | src/features/posts/MainPage.js:30 | the fetched list replaces the posts |
| MainPage.MainPage.CategoryChosen | src/features/posts/MainPage.js:56 | the update guard passes only when the edit object has a non-empty category id; never for the initial empty object |
| MainPage.MainPage.HandleDelete | src/features/posts/MainPage.js:33-39 | once the request gets a response, the posts are exactly the previous ones with a different id; a rejected request changes nothing |
| MainPage.MainPage.HandleEdit | src/features/posts/MainPage.js:41-51 | the edited id is the post's; the edit fields are its copy when it has tags |
| MainPage.MainPage.CancelEdit | src/features/posts/MainPage.js:167 | leaves edit mode |
| MainPage.MainPage.HandleUpdate | src/features/posts/MainPage.js:53-82 | without a category nothing is sent or changed; a failure keeps the edited id; a success clears it and refreshes from the unfiltered URL |
| MainPage.MainPage.ToggleTag | src/features/posts/MainPage.js:85-92 | only the edited tag ids change, by the toggle; on the initial empty object the updater throws and nothing changes |
| CreatePostPage.CreatePostPage.constructor | src/features/posts/CreatePostPage.js:4-13 | status `PUBLISHED`, empty title, content, category and tag ids, no messages |
| CreatePostPage.CreatePostPage.Form | src/features/posts/CreatePostPage.js:38-44 | the object sent carries the title, content, status, category id and tag ids of the form state |
| CreatePostPage.CreatePostPage.HandleSubmit | src/features/posts/CreatePostPage.js:27-67 | without a token: `Not authenticated`, nothing sent, fields kept; otherwise the five fields are sent; success resets them and sets the success message; failure keeps them and shows the thrown message |
| CreatePostPage.CreatePostPage.ToggleTag | src/features/posts/CreatePostPage.js:69-75 | the selected tag ids change by the toggle |
| PostDetailPage.DraftFieldsOf | src/features/posts/PostDetailPage.js:59-68 | title and content default to "", status to `DRAFT`, category id to "", tag ids to none |
| PostDetailPage.DraftsPage.constructor | src/features/posts/PostDetailPage.js:5-21 | no drafts, not saving, not editing, default edit fields |
| PostDetailPage.DraftsPage.FetchDrafts | src/features/posts/PostDetailPage.js:25-37 | error cleared, then the list replaced on success or the load error shown |
| PostDetailPage.DraftsPage.IsEditing | src/features/posts/PostDetailPage.js:144 | a draft is shown in edit mode only when its id is the edited id; none is when no id is set |
| PostDetailPage.DraftsPage.HandleEdit | src/features/posts/PostDetailPage.js:59-69 | the edited id is the post's, so a post is in edit mode exactly when it has that id |
| PostDetailPage.DraftsPage.CancelEdit | src/features/posts/PostDetailPage.js:71-73 | leaves edit mode; the frame keeps the edit fields |
| PostDetailPage.DraftsPage.ToggleTagInEdit | src/features/posts/PostDetailPage.js:75-82 | only the tag ids change, by the toggle |
| PostDetailPage.DraftsPage.SetStatus | src/features/posts/PostDetailPage.js:220-227 | the status is set to the upper-cased value; no other field changes |
| PostDetailPage.DraftsPage.HandleUpdate | src/features/posts/PostDetailPage.js:84-95 | saving is true and the error is cleared while the request is in flight |
| PostDetailPage.DraftsPage.UpdateSettled | src/features/posts/PostDetailPage.js:96-107 | saving ends either way; success leaves edit mode and refetches; failure keeps edit mode and shows `Failed to update draft` |
| RegisterForm.RegisterForm.constructor | src/features/auth/RegisterForm.js:5-10 | empty fields, no error, not submitting |
| RegisterForm.RegisterForm.HandleSubmit | src/features/auth/RegisterForm.js:12-24 | no-op while submitting; otherwise error cleared; unequal passwords give the mismatch error and send nothing; equal ones start submitting |
| RegisterForm.RegisterForm.RegistrationSettled | src/features/auth/RegisterForm.js:25-31 | submitting ends; success calls `onRegistered` when given; failure shows the thrown message or `Registration failed` |

## Left out

- Network I/O: requests are not modelled. How each call settles is an
  input, and only the fields the code reads are kept (URL, headers, body
  where the code inspects them).
- A body that `res.text()` fails to read is modelled as empty text.
  `registerUser` maps that failure to "" anyway. Elsewhere the text feeds
  only alerts or caught errors.
- `atob` and `JSON.parse`: they form a single decoding parameter that may
  fail. Claims are string-valued, and the payload is assumed to decode to
  an object. A payload of `null` would make the getters throw.
- JSON values in error bodies are strings. A JSON object lists its
  properties in enumeration order, each name once.
- JavaScript numbers: timestamps and `expiresIn` are unbounded integers.
  `Number(expiresAt)` accepts only an optional `-` and decimal digits.
  Fractions, exponents, hexadecimal, surrounding white space, `Infinity`
  and the empty-string-is-0 case are treated as NaN, so the session is
  invalid.
- Ids are their text; only the empty id is falsy. A numeric id `0`, which
  JavaScript treats as falsy, is not distinguished.
- Route matching is exact. React Router's case-insensitive and
  trailing-slash matching is not modelled.
- Text.ToUpper: upper-cases ASCII letters only, not the full Unicode
  mapping of `toUpperCase`.
- React plumbing: hooks, effect scheduling, re-renders, and stale closures
  over state are not modelled. Neither are races between overlapping
  requests, such as two filter fetches or a double-click landing before
  `isSubmitting` re-renders.
- Browser side effects: `alert`, `console`, `window.confirm`, navigation,
  and the `onLogout` wiring into pages are not modelled.
- `fetchCategories` and `fetchTags` are not modelled as members. They
  follow the rule stated by `Api.ThrowUnlessOk`.
- The loading of categories and tags in the page effects is not modelled.
  Neither are the free-text field setters of the forms (title, content,
  category select, credentials).
- Session.App.Logout: idempotence is not a separate lemma. It follows from
  the postcondition, which fixes the new state whatever the old one was.
- `src/features/auth/authAPI.js` duplicates `loginUser`.
  `ViewPostPage.js`, `DraftPostsPage.js`, `TagsPage.js`, both
  `CategoryPage.js` files, `Header.jsx`, `PostList.jsx`, `RegisterPage.js`
  and `LoginPage.js` are display and CRUD glue. They are not part of this
  model.
