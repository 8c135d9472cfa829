# Request gate and review moderation of a course-review site

This project models, in Dafny, the two pieces of the course-review web
application that carry decisions rather than rendering:

- **The request gate** (`src/middleware.ts`). It runs before the pages named in
  `config.matcher`. It is an ordered cascade:
  1. Outside the development build it blocks every path containing
     `/api/services` by redirecting to `/`.
  2. On `/reviews/new` it demands a `jwtToken` cookie. A missing or empty
     cookie goes to `/login`, and so does a token rejected for any reason but
     expiry. An expired token is re-signed with fresh `iat`/`exp` claims (two
     hours) and the browser is sent to `/` with the new cookie. A valid token
     passes.
  3. It redirects `/courses/<slug>/reviews` to the upper-cased slug when the slug
     has a lower-case letter.
- **The moderation handlers** (`src/pages/api/admin/review/accept.ts` and
  `reject.ts`). These act on two collections keyed by document id: reviews
  under revision and published reviews. `accept` validates the `id` query
  parameter, copies the staged review into the published collection, deletes
  it from staging and echoes the id. `reject` echoes the id and does nothing
  else.

Modules: `Wrappers` (optional values), `Strings` (ASCII case mapping, substring
occurrence, JavaScript line terminators), `Types` (the review record and the
token claims of `src/@types/index.ts`), `SlugPattern` (the regular-expression
search for the course slug), `RequestGate` (the cascade, the matcher, the token
refresh) and `Moderation` (the two handlers).

Inputs the code takes from its environment are parameters:
- the build flag `isDevelopment`;
- the cookie as an optional string;
- the clock `now`, in seconds;
- the outcome of `jose.jwtVerify` as `Valid(claims) | Expired(claims) | Invalid`.

The code behaves as follows where a reader of such a gate might expect
otherwise:
- No admin check exists. `/admin/...` and `/api/admin/...` lie outside the
  matcher, so the gate lets every request to them through
  (`AdminPathsUngated`).
- No post-login redirect intent is stored.
- `reject` never answers 400 and never changes the store.
- A second `accept` of the same id answers 200 again rather than "not found"
  (`AcceptTwiceIsAcceptOnce`).
- An expired token sends the browser to `/`, not back to the page it asked for.
- The "already logged in" redirect at `src/middleware.ts:54-56` can never fire.
  It sits inside the branch opened only for `/reviews/new`, while it tests for
  `/login` or `/sign-up`. `HomeRedirectOnlyFromDevelopmentBlock` proves this:
  the only plain redirect to `/` is the development block.
- Ids that are not 24 hex digits make `new ObjectId` throw. A short id like
  `abc123` therefore ends the request with an exception, not a 200.

## Model

| member | source | states |
|---|---|---|
| RequestGate.Middleware | src/middleware.ts:7-71 | The development block redirects to `/` whatever the token. On `/reviews/new` an absent or empty token goes to `/login`, an invalid one to `/login`, an expired one to `/` with a refreshed token cookie, a valid one passes. Every other path reaches only the slug stage. |
| RequestGate.Gate | src/middleware.ts:88-97 | Paths outside the matcher list are passed through untouched; listed paths get the middleware's answer. |
| RequestGate.StripTimestamps | src/middleware.ts:35-37 | The claims lose `iat` and `exp` and nothing else: putting the old timestamps back restores the original claims. |
| RequestGate.RefreshToken | src/middleware.ts:73-86 | The new token is HS256, issued at `now`, expiring 7200 seconds later, and agrees with the input on every claim other than the two timestamps; claims that were not repeated stay unrepeated. |
| RequestGate.RefreshKeepsIdentity | src/middleware.ts:77-83 | A refreshed token keeps `accessToken`, `refreshToken`, `username` and all other claims, is unexpired at issue, and two refreshes at the same instant agree exactly when the claims agree once the timestamps are removed. |
| RequestGate.CanonicaliseSlug | src/middleware.ts:59-70 | Redirects exactly when the pattern finds a slug that differs from its upper-case form, to `/courses/` + upper(slug) + `/reviews`, without touching cookies. |
| RequestGate.HomeRedirectOnlyFromDevelopmentBlock | src/middleware.ts:15-56 | A plain redirect to `/` happens if and only if the development block fires, so the "already logged in" branch is dead. |
| RequestGate.TokenIgnoredElsewhere | src/middleware.ts:20-57 | Away from `/reviews/new`, neither the cookie, its verification nor the clock changes the decision. |
| RequestGate.LoginPagesPassThrough | src/middleware.ts:9-57 | `/login`, `/sign-up` and `/api/reviews` pass through whatever the token and build. |
| RequestGate.CourseSlugCanonicalised | src/middleware.ts:59-70 | For `/courses/<slug>/reviews` not caught by the development block, the result is pass-through if the slug is already upper case and otherwise a redirect to the upper-cased slug. |
| RequestGate.CanonicalPathNotDevelopment | src/middleware.ts:11-17 | A course-reviews path whose slug has no lower-case letter never matches the development-endpoint pattern. |
| RequestGate.CanonicalTargetSettles | src/middleware.ts:59-70 | The canonical path `/courses/` + upper(slug) + `/reviews` passes through on the next request whatever the cookie, verification or build: canonicalisation never redirects twice. |
| RequestGate.RedirectsSettle | src/middleware.ts:15-70 | Every redirect target is passed through on the next request, whatever its cookie, verification, build or clock: the cascade never loops. |
| RequestGate.GateRedirectsSettle | src/middleware.ts:88-97 | The same no-loop guarantee for the middleware behind its matcher. |
| RequestGate.AdminPathsUngated | src/middleware.ts:88-97 | Requests to `/admin...` or `/api/admin...` are passed through with or without a session: the gate does no admin check. |
| SlugPattern.ExecFrom | src/middleware.ts:59 | The search succeeds exactly when some match starts at or after the scan position, and then returns the capture of the leftmost match, taken as long as possible. |
| SlugPattern.Exec | src/middleware.ts:59 | `exec` finds a slug exactly when the pattern matches somewhere, and the slug never contains a line terminator. |
| SlugPattern.ExecIsFirstLongest | src/middleware.ts:59 | The slug `exec` returns is the capture of the leftmost match, taken as long as possible. |
| SlugPattern.ExecCourseReviews | src/middleware.ts:59-62 | On `/courses/<slug>/reviews` the captured slug is exactly `<slug>`, even when it contains `/` or `/reviews`. |
| Strings.Upper | src/middleware.ts:63 | The upper-cased slug has the same length, every lower-case letter replaced by its capital (32 code points lower) and every other character kept. |
| Strings.UpperFixedIff | src/middleware.ts:62-65 | A slug equals its upper-case form exactly when it has no lower-case letter. |
| Strings.UpperIdempotent | src/middleware.ts:63 | Upper-casing an upper-cased slug changes nothing, the fact that stops canonicalisation from redirecting twice. |
| Moderation.ParseObjectId | src/pages/api/admin/review/accept.ts:23 | An id is accepted exactly when it is 24 hex digits in either case. An accepted id yields a 24-digit lower-case hex key that is the input with letters lowered; a key already in that form parses to itself. |
| Moderation.InsertOne | src/pages/api/admin/review/accept.ts:25 | The document is stored under its `_id` unless that id is taken, in which case nothing changes; other ids are untouched. |
| Moderation.Accept | src/pages/api/admin/review/accept.ts:10-30 | Absent or empty id gives 400 "No ID provided", an array gives 400 "Invalid ID", a malformed string throws, all with the store unchanged. The reply is 200 echoing the id exactly when the id is a well-formed string. |
| Moderation.AcceptPublishes | src/pages/api/admin/review/accept.ts:21-28 | In a consistent store, accepting a staged id adds that very record to the published collection under the same key and removes it from staging; every other entry is kept. |
| Moderation.AcceptOthersUntouched | src/pages/api/admin/review/accept.ts:25-28 | Accept changes staging only at the requested key and the published collection only at the staged record's own id. |
| Moderation.AcceptUnknownIsNoop | src/pages/api/admin/review/accept.ts:21-30 | A well-formed id with nothing staged still gets 200 echoing the id, and the store is unchanged. |
| Moderation.AcceptIgnoresIdCase | src/pages/api/admin/review/accept.ts:21-28 | Upper- and lower-case spellings of an id have the same effect on the store. |
| Moderation.AcceptPreservesConsistency | src/pages/api/admin/review/accept.ts:21-28 | If every record sits under its own id and no id is both staged and published, the same holds after accept. |
| Moderation.AcceptKeepsEveryId | src/pages/api/admin/review/accept.ts:25-28 | The set of ids that are staged or published is the same before and after accept: a review may move but never vanishes. |
| Moderation.AcceptTwiceIsAcceptOnce | src/pages/api/admin/review/accept.ts:12-30 | Accepting the same id again gives the same reply and store as accepting it once. |
| Moderation.Reject | src/pages/api/admin/review/reject.ts:3-7 | Every call answers 200 with the raw id (absent, empty or array included) and leaves both collections unchanged. |
| Moderation.RejectThenAcceptPublishes | src/pages/api/admin/review/reject.ts:3-7 | After a reject of any id, accepting a staged review still publishes it unchanged and removes it from staging. |

## Left out

- Rendering, menus, the review-revision list page and its database read: not part of the gate or the handlers.
- Signing and verifying tokens: the `jose` HS256 cryptography is replaced by the verification outcome and by a token represented as its algorithm and claims.
- Cookie storage, `process.env` and the wall clock: they are parameters. The model uses one `now` for both `iat` and `exp`, while the library reads the clock twice within the same call.
- Connecting to the database and the promise plumbing: `insertOne` and `deleteOne` are not awaited in the source. The model applies them in program order and ignores races between concurrent administrators.
- The duplicate-key failure of `insertOne` is modelled as "nothing inserted". The unhandled rejection it raises, and the process behaviour that follows, are not modelled.
- Moderation.AcceptUnknownIsNoop: for an id with nothing staged, `insertOne` receives `null`. The model follows the driver versions in which that fails inside the un-awaited promise, so the handler still answers 200 and the deletion matches nothing. A driver that throws synchronously would end the request with an exception before the delete.
- Moderation.Accept: the 200 reply for a well-formed id with nothing staged rests on the same `insertOne(null)` reading; with a driver that throws synchronously that reply is an exception instead.
- Moderation.AcceptTwiceIsAcceptOnce: the second call finds nothing staged, so its 200 reply also rests on that reading; with a driver that throws synchronously the second call ends in an exception.
- Moderation.ParseObjectId: only the 24-hex-digit form is accepted. The 12-character raw-byte string form that older BSON versions also accept is not modelled.
- Strings.UpperIdempotent: case mapping is ASCII only. Request paths arrive percent-encoded, so the middleware never sees other characters.
- RequestGate.Gate: the matcher is modelled case-sensitively and without trailing-slash normalisation. `:path*` is read as `/api/services` or anything below `/api/services/`, and `:slug` as one non-empty segment without `/`.
- RequestGate.Middleware: the redirect target is modelled as a path. The source builds an absolute URL on the request's origin.
