/** The two moderation endpoints over the review store. The store is two
    collections keyed by document id: reviews still under revision and
    published reviews. A handler maps the `id` query parameter and the store to
    a reply and the store afterwards. The database calls are taken to complete
    in program order. */
module Moderation {

  import opened Wrappers
  import opened Strings
  import opened Types

  /** The shape of `req.query.id`: missing, given once, or repeated. */
  datatype QueryValue = Absent | Str(s: string) | Arr(items: seq<string>)

  datatype Body = ErrorMessage(error: string) | IdEcho(id: QueryValue)

  /** A JSON reply, or an exception that escapes the handler (the framework
      then answers with its own error page). */
  datatype Reply = Json(status: int, body: Body) | Uncaught

  datatype Store = Store(underRevision: map<string, Review>, reviews: map<string, Review>)

  datatype Outcome = Outcome(reply: Reply, store: Store)

  /** JavaScript's `!id`: an absent parameter and the empty string are falsy;
      an array is an object and truthy even when empty. */
  predicate IsFalsy(q: QueryValue) {
    q.Absent? || q == Str("")
  }

  predicate IsHexDigit(c: char) {
    '0' <= c <= '9' || 'a' <= c <= 'f' || 'A' <= c <= 'F'
  }

  /** The form in which the store keys documents: 24 lower-case hex digits. */
  predicate IsCanonicalId(k: string) {
    |k| == 24 && forall i :: 0 <= i < |k| ==> ('0' <= k[i] <= '9' || 'a' <= k[i] <= 'f')
  }

  /** `new ObjectId(s)`: a string of 24 hex digits in either case names the
      document whose key is its lower-case form; anything else throws. */
  function ParseObjectId(s: string): (r: Option<string>)
    ensures r.Some? <==> |s| == 24 && forall i :: 0 <= i < |s| ==> IsHexDigit(s[i])
    ensures r.Some? ==> IsCanonicalId(r.value)
    ensures r.Some? ==> |r.value| == |s| && forall i :: 0 <= i < |s| ==> LowerChar(s[i]) == r.value[i]
    ensures IsCanonicalId(s) ==> r == Some(s)
  {
    LowerFixedIff(s);
    if |s| == 24 && forall i :: 0 <= i < |s| ==> IsHexDigit(s[i]) then Some(Lower(s)) else None
  }

  /** `insertOne(doc)`: a document whose `_id` is already taken is refused
      with a duplicate-key error, which nothing awaits. */
  function InsertOne(coll: map<string, Review>, doc: Review): (r: map<string, Review>)
    ensures doc.id in r
    ensures doc.id !in coll ==> r[doc.id] == doc
    ensures doc.id in coll ==> r == coll
    ensures forall k :: k != doc.id ==> (k in r <==> k in coll)
    ensures forall k :: k != doc.id && k in coll ==> r[k] == coll[k]
  {
    if doc.id in coll then coll else coll[doc.id := doc]
  }

  /** Every document is stored under its own `_id`. */
  ghost predicate WellKeyed(coll: map<string, Review>) {
    forall k :: k in coll ==> coll[k].id == k
  }

  /** No review is both under revision and published, and each is stored
      under its own id. */
  ghost predicate Consistent(st: Store) {
    && WellKeyed(st.underRevision)
    && WellKeyed(st.reviews)
    && st.underRevision.Keys !! st.reviews.Keys
  }

  /** The `accept` handler: validates the parameter, copies the staged review
      (if there is one) into the published collection, deletes it from the
      staging collection and echoes the parameter. */
  function Accept(id: QueryValue, st: Store): (o: Outcome)
    ensures IsFalsy(id) ==> o == Outcome(Json(400, ErrorMessage("No ID provided")), st)
    ensures id.Arr? ==> o == Outcome(Json(400, ErrorMessage("Invalid ID")), st)
    ensures id.Str? && id.s != "" && ParseObjectId(id.s).None? ==> o == Outcome(Uncaught, st)
    ensures o.reply == Json(200, IdEcho(id)) <==> id.Str? && ParseObjectId(id.s).Some?
    ensures o.reply != Json(200, IdEcho(id)) ==> o.store == st
  {
    if IsFalsy(id) then
      Outcome(Json(400, ErrorMessage("No ID provided")), st)
    else if id.Arr? then
      Outcome(Json(400, ErrorMessage("Invalid ID")), st)
    else
      match ParseObjectId(id.s)
      case None => Outcome(Uncaught, st)
      case Some(key) =>
        var published :=
          if key in st.underRevision then InsertOne(st.reviews, st.underRevision[key]) else st.reviews;
        var staged := st.underRevision - {key};
        Outcome(Json(200, IdEcho(id)), Store(staged, published))
  }

  /** The `reject` handler: echoes the parameter, whatever it is, and touches
      nothing. */
  function Reject(id: QueryValue, st: Store): (o: Outcome)
    ensures o.reply.Json? && o.reply.status == 200
    ensures o.reply.body == IdEcho(id)
    ensures o.store == st
  {
    Outcome(Json(200, IdEcho(id)), st)
  }

  /** Accepting a staged review publishes it unchanged under its own id and
      removes it from staging; every other review stays where it was. */
  lemma AcceptPublishes(s: string, st: Store)
    requires Consistent(st)
    requires ParseObjectId(s).Some? && ParseObjectId(s).value in st.underRevision
    ensures var key := ParseObjectId(s).value;
      && Accept(Str(s), st).store.reviews == st.reviews[key := st.underRevision[key]]
      && Accept(Str(s), st).store.underRevision == st.underRevision - {key}
  {
  }

  /** Accepting touches the staging collection only at the requested key and
      the published collection only at the staged document's own id. */
  lemma AcceptOthersUntouched(id: QueryValue, st: Store, k: string)
    requires id.Str? && ParseObjectId(id.s).Some?
    requires var key := ParseObjectId(id.s).value;
      k != key && (key in st.underRevision ==> k != st.underRevision[key].id)
    ensures var st' := Accept(id, st).store;
      && (k in st'.underRevision <==> k in st.underRevision)
      && (k in st.underRevision ==> st'.underRevision[k] == st.underRevision[k])
      && (k in st'.reviews <==> k in st.reviews)
      && (k in st.reviews ==> st'.reviews[k] == st.reviews[k])
  {
  }

  /** An id with nothing staged is still answered with 200, and the store is
      left as it was. */
  lemma AcceptUnknownIsNoop(s: string, st: Store)
    requires ParseObjectId(s).Some? && ParseObjectId(s).value !in st.underRevision
    ensures Accept(Str(s), st) == Outcome(Json(200, IdEcho(Str(s))), st)
  {
    assert st.underRevision - {ParseObjectId(s).value} == st.underRevision;
  }

  /** Upper- and lower-case spellings of an id act on the same review. */
  lemma AcceptIgnoresIdCase(s: string, st: Store)
    ensures Accept(Str(Upper(s)), st).store == Accept(Str(Lower(s)), st).store
  {
    var u, l := Upper(s), Lower(s);
    assert forall i :: 0 <= i < |s| ==> (IsHexDigit(u[i]) <==> IsHexDigit(s[i]));
    assert forall i :: 0 <= i < |s| ==> (IsHexDigit(l[i]) <==> IsHexDigit(s[i]));
    if ParseObjectId(u).Some? {
      assert ParseObjectId(u).value == ParseObjectId(l).value by {
        forall i | 0 <= i < |s|
          ensures ParseObjectId(u).value[i] == ParseObjectId(l).value[i]
        {
          assert LowerChar(u[i]) == LowerChar(l[i]);
        }
      }
    }
    if u == "" {
      assert l == "";
    }
  }

  /** Accepting preserves consistency of the store. */
  lemma AcceptPreservesConsistency(id: QueryValue, st: Store)
    requires Consistent(st)
    ensures Consistent(Accept(id, st).store)
  {
  }

  /** No review id is ever lost: whatever was under revision or published is
      afterwards under revision or published. This holds even for a store in
      which a review sits in both collections, where the staged copy is
      dropped and the published one kept. */
  lemma AcceptKeepsEveryId(id: QueryValue, st: Store)
    requires WellKeyed(st.underRevision)
    ensures var st' := Accept(id, st).store;
      st'.underRevision.Keys + st'.reviews.Keys == st.underRevision.Keys + st.reviews.Keys
  {
  }

  /** Accepting the same id twice has the effect and the reply of accepting it
      once: the second call also answers 200, not an error. */
  lemma AcceptTwiceIsAcceptOnce(id: QueryValue, st: Store)
    ensures Accept(id, Accept(id, st).store) == Accept(id, st)
  {
    var o := Accept(id, st);
    if id.Str? && ParseObjectId(id.s).Some? {
      var key := ParseObjectId(id.s).value;
      assert key !in o.store.underRevision;
      assert o.store.underRevision - {key} == o.store.underRevision;
    }
  }

  /** Rejecting leaves the store as it was, so a review that was rejected can
      still be accepted and published afterwards. */
  lemma RejectThenAcceptPublishes(rejected: QueryValue, s: string, st: Store)
    requires Consistent(st)
    requires ParseObjectId(s).Some? && ParseObjectId(s).value in st.underRevision
    ensures var key := ParseObjectId(s).value;
      var st' := Accept(Str(s), Reject(rejected, st).store).store;
      key in st'.reviews && st'.reviews[key] == st.underRevision[key] && key !in st'.underRevision
  {
    AcceptPublishes(s, st);
  }
}
