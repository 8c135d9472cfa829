/** The records the core passes around: a stored course review and the claims
    carried by the session token. */
module Types {

  import opened Wrappers

  datatype Term = Spring | Fall

  /** A review as stored in either collection. `id` is the document's `_id`;
      `date` and `created` are ISO date-time strings kept opaque. */
  datatype Review = Review(
    id: string,
    term: Term,
    date: string,
    body: string,
    authorId: string,
    created: string,
    rating: Option<int>,
    workload: Option<int>,
    difficulty: Option<int>
  )

  /** The session token's claims: the three private claims of the application,
      the two timestamps the middleware rewrites (seconds since the epoch), and
      every other claim, kept opaque. A JavaScript object holds each property
      once, so `otherClaims` never has the keys `iat`, `exp`, `accessToken`,
      `refreshToken` or `username`; `HasDistinctClaims` states this. */
  datatype JwtPayload = JwtPayload(
    accessToken: string,
    refreshToken: string,
    username: string,
    iat: Option<int>,
    exp: Option<int>,
    otherClaims: map<string, string>
  )

  /** The named claims are not repeated among the other claims. */
  predicate HasDistinctClaims(p: JwtPayload) {
    forall k :: k in p.otherClaims ==>
      k != "iat" && k != "exp" && k != "accessToken" && k != "refreshToken" && k != "username"
  }
}
