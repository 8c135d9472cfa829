/** The request gate that runs before the matched pages: a development-only
    endpoint block, a login requirement on the review-submission page with
    transparent refresh of an expired session token, and canonicalisation of
    course slugs to upper case. The cookie store, `process.env` and the `jose`
    library are parameters: the token cookie arrives as an optional string, the
    signature check arrives as its outcome, and a re-signed token is represented
    by its header algorithm and claims. */
module RequestGate {

  import opened Wrappers
  import opened Strings
  import opened Types
  import SlugPattern

  /** `setExpirationTime("2h")`, in seconds. */
  const TokenLifetime := 7200
  const SigningAlgorithm := "HS256"

  const DevelopmentEndpoint := "/api/services"
  const ReviewSubmission := "/reviews/new"
  const Home := "/"
  const Login := "/login"
  const AdminPages := "/admin"
  const AdminApi := "/api/admin"

  /** A freshly signed session token. */
  datatype Jwt = Jwt(alg: string, payload: JwtPayload)

  /** What `jose.jwtVerify` did with the cookie: accepted it, rejected it with
      an error whose text contains `JWTExpired` (the claims are still readable),
      or rejected it for any other reason. */
  datatype Verification = Valid(payload: JwtPayload) | Expired(payload: JwtPayload) | Invalid

  /** Continuing to the page (the middleware returned nothing), or a redirect,
      possibly setting the `jwtToken` cookie. */
  datatype Response = PassThrough | Redirect(location: string, setToken: Option<Jwt>)

  predicate IsLoginPath(path: string) {
    path == Login || path == "/sign-up"
  }

  // The development-endpoint pattern is the literal `/api/services` followed
  // by any number of slashes, none required: it is found exactly when the
  // literal is.
  predicate IsDevelopmentEndpoint(path: string) {
    Contains(path, DevelopmentEndpoint)
  }

  /** `cookies.get("jwtToken")?.value || ""`. */
  function TokenText(cookie: Option<string>): string {
    if cookie.Some? then cookie.value else ""
  }

  predicate IsSegment(s: string) {
    |s| > 0 && '/' !in s
  }

  /** The paths listed in `config.matcher`: the middleware runs on these and on
      nothing else. `:path*` is zero or more further segments and `:slug` one
      non-empty segment. */
  predicate MatcherCovers(path: string) {
    || IsLoginPath(path)
    || path == DevelopmentEndpoint
    || OccursAt(path, 0, DevelopmentEndpoint + "/")
    || path == ReviewSubmission
    || path == "/api/reviews"
    || (&& OccursAt(path, 0, SlugPattern.Prefix)
        && |path| >= |SlugPattern.Prefix| + |SlugPattern.Suffix|
        && OccursAt(path, |path| - |SlugPattern.Suffix|, SlugPattern.Suffix)
        && IsSegment(path[|SlugPattern.Prefix|..|path| - |SlugPattern.Suffix|]))
  }

  /** The claims after `delete payload.iat; delete payload.exp`. */
  function StripTimestamps(p: JwtPayload): (q: JwtPayload)
    ensures q.iat.None? && q.exp.None?
    ensures q.(iat := p.iat, exp := p.exp) == p
  {
    p.(iat := None, exp := None)
  }

  /** `refreshToken`: signs the claims again with HS256, stamping the issue
      time `now` and an expiry two hours later over whatever timestamps the
      claims carried. */
  function RefreshToken(p: JwtPayload, now: int): (t: Jwt)
    ensures t.alg == SigningAlgorithm
    ensures t.payload.iat == Some(now)
    ensures t.payload.exp.Some? && t.payload.exp.value - now == TokenLifetime
    ensures StripTimestamps(t.payload) == StripTimestamps(p)
    ensures HasDistinctClaims(p) ==> HasDistinctClaims(t.payload)
  {
    Jwt(SigningAlgorithm, p.(iat := Some(now), exp := Some(now + TokenLifetime)))
  }

  /** Course-slug canonicalisation, the last stage of the cascade. */
  function CanonicaliseSlug(path: string): (r: Response)
    ensures r.Redirect? ==> r.setToken.None?
    ensures var found := SlugPattern.Exec(path);
      && (r.Redirect? <==> found.Some? && Upper(found.value) != found.value)
      && (r.Redirect? ==> r.location == SlugPattern.Prefix + Upper(found.value) + SlugPattern.Suffix)
  {
    match SlugPattern.Exec(path)
    case None => PassThrough
    case Some(slug) =>
      var upperSlug := Upper(slug);
      if slug != upperSlug then Redirect(SlugPattern.Prefix + upperSlug + SlugPattern.Suffix, None)
      else PassThrough
  }

  /** `middleware`, for a request to `path` carrying `cookie`, in a build that
      is or is not the development build, with `verification` the outcome of
      checking the cookie's signature and expiry at time `now`. */
  function Middleware(path: string, isDevelopment: bool, cookie: Option<string>,
                      verification: Verification, now: int): (r: Response)
    ensures IsDevelopmentEndpoint(path) && !isDevelopment ==> r == Redirect(Home, None)
    ensures !IsDevelopmentEndpoint(path) || isDevelopment ==> path != ReviewSubmission ==> r == CanonicaliseSlug(path)
    ensures !IsDevelopmentEndpoint(path) || isDevelopment ==> path == ReviewSubmission ==>
      && (TokenText(cookie) == "" ==> r == Redirect(Login, None))
      && (TokenText(cookie) != "" && verification.Valid? ==> r == PassThrough)
      && (TokenText(cookie) != "" && verification.Invalid? ==> r == Redirect(Login, None))
      && (TokenText(cookie) != "" && verification.Expired? ==>
            r == Redirect(Home, Some(RefreshToken(StripTimestamps(verification.payload), now))))
  {
    var requiredAuthentication := path == ReviewSubmission;
    var loginPath := IsLoginPath(path);
    var jwtToken := TokenText(cookie);
    // `tokenVerified` is initialised to true and never set to false
    var tokenVerified := true;
    if IsDevelopmentEndpoint(path) && !isDevelopment then
      Redirect(Home, None)
    else if requiredAuthentication && jwtToken == "" then
      Redirect(Login, None)
    else if requiredAuthentication && jwtToken != "" then
      var verdict :=
        match verification
        case Valid(_) => None
        case Expired(payload) =>
          Some(Redirect(Home, Some(RefreshToken(StripTimestamps(payload), now))))
        case Invalid =>
          if requiredAuthentication && !loginPath then Some(Redirect(Login, None)) else None;
      if verdict.Some? then verdict.value
      else if loginPath && jwtToken != "" && tokenVerified then Redirect(Home, None)
      else CanonicaliseSlug(path)
    else
      CanonicaliseSlug(path)
  }

  /** The middleware as deployed: paths outside `config.matcher` never reach it. */
  function Gate(path: string, isDevelopment: bool, cookie: Option<string>,
                verification: Verification, now: int): (r: Response)
    ensures !MatcherCovers(path) ==> r == PassThrough
    ensures MatcherCovers(path) ==> r == Middleware(path, isDevelopment, cookie, verification, now)
  {
    if MatcherCovers(path) then Middleware(path, isDevelopment, cookie, verification, now)
    else PassThrough
  }

  /** The "already logged in" redirect cannot fire: the only plain redirect to
      `/` is the development block. */
  lemma HomeRedirectOnlyFromDevelopmentBlock(path: string, isDevelopment: bool, cookie: Option<string>,
                                             verification: Verification, now: int)
    ensures Middleware(path, isDevelopment, cookie, verification, now) == Redirect(Home, None)
            <==> IsDevelopmentEndpoint(path) && !isDevelopment
  {
  }

  /** Away from the submission page, neither the cookie nor its verification
      (nor the clock) affects the outcome. */
  lemma TokenIgnoredElsewhere(path: string, isDevelopment: bool,
                              cookie1: Option<string>, verification1: Verification, now1: int,
                              cookie2: Option<string>, verification2: Verification, now2: int)
    requires path != ReviewSubmission
    ensures Middleware(path, isDevelopment, cookie1, verification1, now1)
         == Middleware(path, isDevelopment, cookie2, verification2, now2)
  {
  }

  /** The login pages and the review API are never redirected, whatever the
      token. */
  lemma LoginPagesPassThrough(path: string, isDevelopment: bool, cookie: Option<string>,
                              verification: Verification, now: int)
    requires IsLoginPath(path) || path == "/api/reviews"
    ensures Middleware(path, isDevelopment, cookie, verification, now) == PassThrough
  {
    SlugPattern.ExecNeedsRoom(path);
  }

  /** `/courses/<slug>/reviews` is sent to the upper-cased slug unless the slug
      is upper case already. */
  lemma CourseSlugCanonicalised(slug: string, isDevelopment: bool, cookie: Option<string>,
                                verification: Verification, now: int)
    requires OnOneLine(slug)
    requires isDevelopment || !IsDevelopmentEndpoint(SlugPattern.Prefix + slug + SlugPattern.Suffix)
    ensures Middleware(SlugPattern.Prefix + slug + SlugPattern.Suffix, isDevelopment, cookie, verification, now)
         == if Upper(slug) == slug then PassThrough
            else Redirect(SlugPattern.Prefix + Upper(slug) + SlugPattern.Suffix, None)
  {
    SlugPattern.ExecCourseReviews(slug);
  }

  /** A canonical course-review path has no lower-case letter, so in
      particular no `/api/services`. */
  lemma CanonicalPathNotDevelopment(slug: string)
    requires forall i :: 0 <= i < |slug| ==> !IsLowerAscii(slug[i])
    ensures !IsDevelopmentEndpoint(SlugPattern.Prefix + slug + SlugPattern.Suffix)
  {
    var p := SlugPattern.Prefix + slug + SlugPattern.Suffix;
    forall i | 0 <= i < |p|
      ensures p[i] != 'a'
    {
      if |SlugPattern.Prefix| <= i < |SlugPattern.Prefix| + |slug| {
        assert p[i] == slug[i - |SlugPattern.Prefix|];
      }
    }
    AbsentCharExcludes(p, DevelopmentEndpoint, 1);
  }

  /** The canonical path of any slug is let through on the next request: the
      upper-cased slug is already upper case. */
  lemma CanonicalTargetSettles(slug: string, isDevelopment: bool, cookie: Option<string>,
                               verification: Verification, now: int)
    requires OnOneLine(slug)
    ensures Middleware(SlugPattern.Prefix + Upper(slug) + SlugPattern.Suffix,
                       isDevelopment, cookie, verification, now) == PassThrough
  {
    UpperKeepsLines(slug);
    UpperIdempotent(slug);
    CanonicalPathNotDevelopment(Upper(slug));
    CourseSlugCanonicalised(Upper(slug), isDevelopment, cookie, verification, now);
  }

  /** Every redirect lands on a path the middleware lets through, whatever the
      cookie, its verification, the build or the clock on the next request: the
      gate never sends a browser round a loop. */
  lemma RedirectsSettle(path: string, isDevelopment: bool, cookie: Option<string>,
                        verification: Verification, now: int,
                        isDevelopment2: bool, cookie2: Option<string>,
                        verification2: Verification, now2: int)
    requires Middleware(path, isDevelopment, cookie, verification, now).Redirect?
    ensures Middleware(Middleware(path, isDevelopment, cookie, verification, now).location,
                       isDevelopment2, cookie2, verification2, now2) == PassThrough
  {
    var target := Middleware(path, isDevelopment, cookie, verification, now).location;
    if target == Home {
      SlugPattern.ExecNeedsRoom(target);
      AbsentCharExcludes(target, DevelopmentEndpoint, 1);
    } else if target == Login {
      LoginPagesPassThrough(target, isDevelopment2, cookie2, verification2, now2);
    } else {
      CanonicalTargetSettles(SlugPattern.Exec(path).value, isDevelopment2, cookie2, verification2, now2);
    }
  }

  /** The same for the deployed gate. */
  lemma GateRedirectsSettle(path: string, isDevelopment: bool, cookie: Option<string>,
                            verification: Verification, now: int,
                            isDevelopment2: bool, cookie2: Option<string>,
                            verification2: Verification, now2: int)
    requires Gate(path, isDevelopment, cookie, verification, now).Redirect?
    ensures Gate(Gate(path, isDevelopment, cookie, verification, now).location,
                 isDevelopment2, cookie2, verification2, now2) == PassThrough
  {
    RedirectsSettle(path, isDevelopment, cookie, verification, now,
                    isDevelopment2, cookie2, verification2, now2);
  }

  /** Administration pages and the moderation API lie outside the matcher, so
      the gate lets every request to them through, logged in or not. */
  lemma AdminPathsUngated(path: string, isDevelopment: bool, cookie: Option<string>,
                          verification: Verification, now: int)
    requires OccursAt(path, 0, AdminPages) || OccursAt(path, 0, AdminApi)
    ensures Gate(path, isDevelopment, cookie, verification, now) == PassThrough
  {
    var k := if OccursAt(path, 0, AdminPages) then 2 else 5;
    if OccursAt(path, 0, AdminPages) {
      OccursAtChar(path, 0, AdminPages, 2);
    } else {
      OccursAtChar(path, 0, AdminApi, 5);
    }
    assert path[k] == 'd' || path[k] == 'a';
    NotCoveredByCharAt(path, k);
  }

  /** Every matcher entry has a character other than `a` or `d` at positions 2
      and 5 (or is too short to have one). */
  lemma NotCoveredByCharAt(path: string, k: nat)
    requires k == 2 || k == 5
    requires k < |path| && (path[k] == 'a' || path[k] == 'd')
    ensures !MatcherCovers(path)
  {
    if OccursAt(path, 0, DevelopmentEndpoint + "/") {
      OccursAtChar(path, 0, DevelopmentEndpoint + "/", k);
    }
    if OccursAt(path, 0, SlugPattern.Prefix) {
      OccursAtChar(path, 0, SlugPattern.Prefix, k);
    }
  }

  /** A refreshed token keeps every claim but the timestamps, is live at the
      moment of issue, and depends on the old claims only through what survives
      the stripping of `iat` and `exp`. */
  lemma RefreshKeepsIdentity(p: JwtPayload, q: JwtPayload, now: int)
    ensures var t := RefreshToken(StripTimestamps(p), now);
      && t.payload.accessToken == p.accessToken
      && t.payload.refreshToken == p.refreshToken
      && t.payload.username == p.username
      && t.payload.otherClaims == p.otherClaims
      && now < t.payload.exp.value
    ensures RefreshToken(StripTimestamps(p), now) == RefreshToken(StripTimestamps(q), now)
            <==> StripTimestamps(p) == StripTimestamps(q)
  {
  }
}
