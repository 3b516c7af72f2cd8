# URL shortener core, modelled in Dafny

This project models the back end of a small URL shortener and the client's
authentication state. Long URLs are stored under short identifiers, either
generated (7 characters) or chosen by a signed-in user as a custom slug.
Resolving an identifier redirects to the stored URL and counts one click.
Owners can list and delete their links. Accounts are registered and logged in
against a users collection.

Everything is pure functions over immutable values:

- The link collection is `ShortUrlDao.Store`: a map from record `_id` to `Link`,
  plus the counter that stamps each insert's `_id` and `createdAt`.
- `ShortUrlDao.Valid` holds the collection's invariants. Every record sits under
  its own `_id` below the counter, and `short_url` is unique (the unique index).
- Every operation that can write returns the collection it leaves behind together
  with what it produced. The services and controllers return a `Common.Reply` (the
  state plus a result or an error (`Common.Error`: ValidationError,
  ConflictError, NotFoundError, UnauthorizedError, each with the source's message).
  The increment-and-fetch and delete operations of the data layer return a
  `ShortUrlDao.Update` (the store plus the affected document or null).
  "A failure leaves the store unchanged" is therefore a proved postcondition, not a convention.
- The users collection is `AuthService.Users`, with the unique-email invariant
  `AuthService.Valid`.
- External behaviour is passed in as parameters: `isValidUrl` (a WHATWG URL parse),
  the nanoid output (`ShortUrlService.GeneratedId`, any 7-character string),
  bcrypt `hash`/`compare`, and the JWT `token` function.
- The client slice (`AuthSlice`) holds the serialised user the server returns (`UserModel.Document`).
- Request fields that JavaScript tests for truthiness are `Option<string>`.
  `undefined`, `null` and `""` are all falsy (`Common.Truthy`).
- String lengths the code compares (`slug.length`, `password.length`) are JavaScript
  lengths in UTF-16 code units (`Common.Utf16Length`).

Files: `common.dfy`, `search.dfy` (first-match scan in insertion order),
`short_url_dao.dfy`, `short_url_service.dfy`, `short_url_controller.dfy`,
`user_controller.dfy`, `user_model.dfy`, `auth_service.dfy`, `auth_slice.dfy`.

Behaviour of the code worth knowing:

- Creation never retries after a generated-identifier collision. The store's ConflictError propagates.
- Deletion is keyed by the record's `_id` and the owner, not by the identifier.
- Lookups return null, and the controllers turn that null into NotFoundError.

## Model

| member | source | states |
|---|---|---|
| Common.Utf16Length | backend/src/services/auth.service.js:12 | JavaScript `.length`: between one and two units per character, and exactly one per character iff no character lies above U+FFFF |
| ShortUrlDao.EmptyStoreValid | backend/src/dao/shortUrl.dao.js:1-40 | the empty collection satisfies the store invariant every operation requires |
| ShortUrlDao.Find | backend/src/dao/shortUrl.dao.js:30-32 | the query on short_url finds a record exactly when one holds the identifier, and by uniqueness it is that record |
| ShortUrlDao.SaveShortUrl | backend/src/dao/shortUrl.dao.js:4-20 | insert fails with ConflictError "Short URL already exists" exactly when the identifier is taken, leaving the store unchanged; otherwise exactly one record (given full_url, short_url, owner only when a userId is given, 0 clicks) is added and uniqueness is kept |
| ShortUrlDao.GetShortUrl | backend/src/dao/shortUrl.dao.js:22-28 | an existing identifier's record gets exactly one more click and is returned after the increment, every other record and field untouched; an absent identifier gives null and no change |
| ShortUrlDao.ResolveTimesCountsEach | backend/src/dao/shortUrl.dao.js:22-28 | m resolutions in a row raise the record's clicks by exactly m and change nothing else |
| ShortUrlDao.GetCustomShortUrl | backend/src/dao/shortUrl.dao.js:30-32 | a side-effect-free lookup: returns the stored record holding the slug, or nothing exactly when none does |
| ShortUrlDao.OwnedBelow | backend/src/dao/shortUrl.dao.js:34-36 | the scan returns only stored records of the owner, all of them below the bound, in strictly decreasing createdAt |
| ShortUrlDao.GetUserUrls | backend/src/dao/shortUrl.dao.js:34-36 | a record is listed if and only if it is stored and owned by the user; the listing is newest first |
| ShortUrlDao.DeleteShortUrl | backend/src/dao/shortUrl.dao.js:38-40 | removes record id exactly when it exists and is owned by the caller, returning it; otherwise null and the store unchanged |
| ShortUrlService.SlugPatternAcceptsClassStrings | backend/src/services/shortUrl.service.js:49 | the regular expression `^[a-zA-Z0-9-_]+$` accepts exactly the non-empty strings of class characters |
| ShortUrlService.CheckSlug | backend/src/services/shortUrl.service.js:45-51 | a slug passes iff its JavaScript length is at least 3 and all its characters are in the class; a short slug is "too short" before any character test, a long enough one with a bad character gets the character message |
| ShortUrlService.SlugExamplesAccepted | backend/src/services/shortUrl.service.js:45-51 | "abc" and "my-slug_1" pass the slug rules |
| ShortUrlService.SlugExamplesRejected | backend/src/services/shortUrl.service.js:45-51 | "ab" is rejected as too short; "my slug!" is rejected for invalid characters |
| ShortUrlService.CheckUrl | backend/src/services/shortUrl.service.js:5-22 | a falsy URL is "URL is required" before the validity test; a URL the parser rejects is "Please provide a valid URL" |
| ShortUrlService.CreateShortUrlWithoutUser | backend/src/services/shortUrl.service.js:14-29 | URL checks in order; on success exactly one ownerless record under the 7-character generated identifier, which is returned; a collision is ConflictError with no retry; any failure leaves the store unchanged |
| ShortUrlService.CreateShortUrlWithUser | backend/src/services/shortUrl.service.js:31-64 | URL checks, then slug length, slug characters, slug pre-check (ConflictError "This custom URL already exists"); a valid free slug is saved with the owner and returned verbatim; a falsy slug falls back to the generated identifier whose collision propagates; failures leave the store unchanged |
| ShortUrlService.Save | backend/src/services/shortUrl.service.js:62-63 | the owned save returns the identifier and adds exactly one owned record, or propagates the store's ConflictError unchanged |
| ShortUrlController.CreateShortUrl | backend/src/controller/shortUrl.controller.js:6-24 | takes the owned path with the slug iff a user is attached, the anonymous path otherwise; the response's shortUrl is APP_URL followed by the returned slug |
| ShortUrlController.AnonymousCreationIgnoresSlug | backend/src/controller/shortUrl.controller.js:10-14 | for an anonymous request the slug in the body does not affect the outcome |
| ShortUrlController.RedirectFromShortUrl | backend/src/controller/shortUrl.controller.js:26-35 | one increment-and-fetch: the target is the stored full_url and that record gains exactly one click; an unknown identifier is NotFoundError "Short URL not found" with the store unchanged |
| ShortUrlController.CreateThenRedirect | backend/src/controller/shortUrl.controller.js:6-35 | after a successful creation, redirecting on the returned slug yields the submitted URL and moves the new record's clicks from 0 to 1 |
| ShortUrlController.SlugClaimedOnce | backend/src/services/shortUrl.service.js:53-62 | a custom slug is claimed once; a second claim by any owner is ConflictError and the first record's URL and clicks stay as they were |
| UserController.WithFullPath | backend/src/controller/user.controller.js:9-12 | the listing keeps order and length; each item carries its record unchanged and fullShortUrl = APP_URL + short_url |
| UserController.DocumentsOfListing | backend/src/controller/user.controller.js:9-12 | stripping fullShortUrl from the listing gives back exactly the records listed |
| UserController.GetUserShortUrls | backend/src/controller/user.controller.js:5-18 | lists exactly the caller's records, newest first, each with its public link |
| UserController.DeleteUserShortUrl | backend/src/controller/user.controller.js:20-32 | succeeds iff the caller owns record id, removing only it; otherwise the one NotFoundError and the store unchanged |
| UserController.DeleteByOtherOwnerLooksAbsent | backend/src/controller/user.controller.js:22-26 | deleting someone else's record gives exactly what deleting a non-existent record gives, and the record survives |
| UserController.DeleteThenRedirect | backend/src/controller/user.controller.js:20-31 | after the owner's delete the identifier no longer resolves (NotFoundError) and every other record is untouched |
| UserModel.NewUser | backend/src/models/user.model.js:4-27 | saving succeeds iff name, email and password are non-empty; the new user has version 0 and the default gravatar URL when no avatar is given |
| UserModel.ToObject | backend/src/models/user.model.js:4-27 | the document holds exactly the schema paths, `_id`, `__v` and the two timestamps, each with the user's value, and `password` exactly when the hash is loaded |
| UserModel.ToJson | backend/src/models/user.model.js:33-39 | the serialised user has no `password` and no `__v`, and carries every other path unchanged |
| UserModel.JsonHidesPasswordAndVersion | backend/src/models/user.model.js:33-39 | users differing only in password or version serialise identically |
| AuthService.FindUserByEmail | backend/src/dao/user.dao.js:8-10 | finds a user exactly when the email is registered, and by uniqueness it is that user |
| AuthService.NoUsersValid | backend/src/models/user.model.js:9-13 | the empty users collection satisfies the users invariant |
| AuthService.RegisterUser | backend/src/services/auth.service.js:6-37 | missing fields, then a password under 6 UTF-16 units, then a taken email (ConflictError), each leaving the users unchanged; success adds exactly one user storing hash(password), default avatar, keeps emails unique and issues the token for the new id |
| AuthService.AstralPasswordMeetsMinimum | backend/src/services/auth.service.js:12-14 | three characters above U+FFFF make a password of length 6, which passes the length check |
| AuthService.LoginUser | backend/src/services/auth.service.js:39-64 | missing fields are ValidationError; an unknown email or a failed comparison is UnauthorizedError "Invalid email or password"; success returns the stored user without its password and the token for its id; the users are never changed |
| AuthService.LoginFailuresAgree | backend/src/services/auth.service.js:46-55 | an unknown email and a wrong password give the identical result |
| AuthService.RegisterThenLogin | backend/src/services/auth.service.js:6-64 | when compare accepts a password against its own hash, a freshly registered account logs in and gets its own stored user, password cleared |
| AuthService.SessionsNeverSerialisePassword | backend/src/services/auth.service.js:58-63 | the registered user serialises without its hash, and the logged-in user carries no password at all |
| AuthSlice.InitialState | frontend/src/store/slices/authSlice.js:3-7 | no user, not authenticated, not loading |
| AuthSlice.SetUserReducer | frontend/src/store/slices/authSlice.js:13-17 | user becomes the payload, authenticated iff a payload is present, loading cleared |
| AuthSlice.SetLoadingReducer | frontend/src/store/slices/authSlice.js:18-20 | only loading changes |
| AuthSlice.LogoutReducer | frontend/src/store/slices/authSlice.js:21-25 | user cleared, not authenticated, not loading |
| AuthSlice.Reduce | frontend/src/store/slices/authSlice.js:9-30 | the exported reducer dispatches on the action: setUser stores the payload and sets authenticated iff it is present, setLoading changes only loading, logout yields the initial state |
| AuthSlice.LogoutIsInitialAndIdempotent | frontend/src/store/slices/authSlice.js:21-25 | logout returns exactly the initial state from any state and is idempotent |
| AuthSlice.ReduceKeepsConsistent | frontend/src/store/slices/authSlice.js:12-26 | every reducer keeps "authenticated iff a user is present" |
| AuthSlice.ReplayKeepsConsistent | frontend/src/store/slices/authSlice.js:3-26 | any sequence of dispatches from a consistent state keeps the invariant |
| AuthSlice.ReachableStatesAreConsistent | frontend/src/store/slices/authSlice.js:3-26 | every state reachable from the initial state is consistent |

## Left out

- URL syntax: `isValidUrl` is the WHATWG URL Standard's basic URL parser (section 4.4, "URL parsing"), reached through the JavaScript `URL` constructor. It is a parameter here.
- Identifier generation: `generateNanoId(7)` (backend/src/utils/helper.js) is an oracle parameter whose only known property is length 7. Randomness and nanoid's alphabet are not modelled.
- The guard `if (!shortUrl) throw` (backend/src/services/shortUrl.service.js:25) cannot fire for a 7-character string, so it is not modelled.
- Password hashing (bcrypt, 12 salt rounds), `comparePassword` and JWT issuance are parameters (`hash`, `compare`, `token`). Token expiry and secrets are not modelled.
- Concurrency: each data-access call is one atomic step with no interleaving.
- MongoDB's unique indexes on `short_url` and `email` and its atomic `$inc` are assumed, as the invariants `ShortUrlDao.Valid` and `AuthService.Valid`.
- backend/src/models/shortUrl.model.js is not part of this model. The short_url unique index, `clicks` starting at 0, and a store-stamped `createdAt` (here the insertion counter) are assumptions. An `updatedAt` timestamp, if the schema has one, is not modelled.
- Storage failures other than a duplicate key (`error.code != 11000`, rethrown by `saveShortUrl`) and a malformed `_id` (a cast error on delete) are not modelled.
- Request fields that are not strings (numbers, arrays or objects in a JSON body) are not modelled.
- UserModel.NewUser: the ValidationError carries only the prefix "User validation failed" of mongoose's message, not the per-path details.
- HTTP plumbing is not modelled: status codes, the `success`/`message` fields of responses, cookies, the redirect response itself, `wrapAsync` and the error handler.
- Wiring is not modelled: routes, backend/app.js, the auth middleware and `attachUser`. The request's user is an input of `ShortUrlController.CreateShortUrl`; the other endpoints take the caller's id.
- backend/src/dao/user.dao.js is folded into the model: `createUser` is the insert in `AuthService.RegisterUser`, and `findUserByEmail` is `AuthService.FindUserByEmail`. The other user DAO functions are unused by the core.
- Front end: pages, components, `store.js` and the dashboard's rounded average (a floating-point computation) are not modelled.
