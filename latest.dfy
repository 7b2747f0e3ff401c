/** The latest-readings route: for the signed-in user (upserted on demand),
    the newest readings that carry an emotion, at most `limit` of them
    (50 by default, capped at 200), returned oldest first. */
module Latest {
  import opened Js
  import opened Store
  import Query

  /** A reading the query selects: the user's, with a non-null emotion. */
  predicate Qualifies(p: DataPoint, user: nat) {
    p.userId == user && p.emotion.Some?
  }

  function Qualifying(points: seq<DataPoint>, user: nat): (r: seq<DataPoint>)
    ensures forall x :: x in r <==> x in points && Qualifies(x, user)
  {
    Query.Where(points, (p: DataPoint) => Qualifies(p, user))
  }

  function Timestamp(p: DataPoint): int {
    p.timestamp
  }

  /** `Math.min(Number(searchParams.get("limit") ?? 50), 200)`; None is NaN. */
  function LimitAsWritten(param: Option<string>, rt: Runtime): (r: Option<real>)
    ensures param.None? ==> r == Some(50.0)
    ensures param.Some? ==> (r.None? <==> rt.parseNumber(param.value).None?)
    ensures param.Some? && r.Some? ==>
      var x := rt.parseNumber(param.value).value;
      r.value == (if x <= 200.0 then x else 200.0)
    ensures r.Some? ==> r.value <= 200.0
  {
    var n := if param.Some? then rt.parseNumber(param.value) else Some(50.0);
    match n
    case None => None
    case Some(x) => Some(if x < 200.0 then x else 200.0)
  }

  /** The limit with the evidently intended lower bound as well: a negative
      value asks for nothing. */
  function Limit(param: Option<string>, rt: Runtime): (r: Option<real>)
    ensures param.None? ==> r == Some(50.0)
    ensures r.Some? ==> 0.0 <= r.value <= 200.0
    ensures r.Some? <==> LimitAsWritten(param, rt).Some?
    ensures r.Some? && LimitAsWritten(param, rt).value >= 0.0 ==> r == LimitAsWritten(param, rt)
  {
    match LimitAsWritten(param, rt)
    case None => None
    case Some(x) => Some(if x < 0.0 then 0.0 else x)
  }

  /** `findMany({ where, orderBy: { timestamp: "desc" }, take })`. The store
      refuses a `take` that is not an integer (None); a negative `take`
      counts from the end of the ordering. */
  function Selected(points: seq<DataPoint>, user: nat, take: Option<real>): (r: Option<seq<DataPoint>>)
    ensures r.Some? <==> take.Some? && take.value == take.value.Floor as real
  {
    if take.None? || take.value != take.value.Floor as real then None
    else
      var sorted := Query.SortDesc(Qualifying(points, user), Timestamp);
      var n := take.value.Floor;
      if n >= 0 then Some(sorted[..if n < |sorted| then n else |sorted|])
      else Some(sorted[if -n < |sorted| then |sorted| + n else 0..])
  }

  datatype Outcome = Outcome(reply: Reply, users: seq<User>)

  /** The route's reply for a computed `take`. */
  function Respond(users: seq<User>, points: seq<DataPoint>, clerkId: Option<string>, take: Option<real>): Outcome {
    if !TruthyText(clerkId) then Outcome(Reply(401, Failure("Unauthorized")), users)
    else
      var (us, i) := Upsert(users, clerkId.value);
      match Selected(points, i, take)
      case None => Outcome(Reply(500, ServerError), us)
      case Some(rows) => Outcome(Reply(200, Readings(Query.Reverse(rows))), us)
  }

  /** `GET /api/emotion/latest` as written. */
  function LatestAsWritten(users: seq<User>, points: seq<DataPoint>, clerkId: Option<string>, param: Option<string>, rt: Runtime): Outcome {
    Respond(users, points, clerkId, LimitAsWritten(param, rt))
  }

  /** `GET /api/emotion/latest` with the limit also bounded below. */
  function LatestReadings(users: seq<User>, points: seq<DataPoint>, clerkId: Option<string>, param: Option<string>, rt: Runtime): Outcome {
    Respond(users, points, clerkId, Limit(param, rt))
  }

  /** The route handler over the database: the upsert, then the query on the
      written limit. A refused `take` is the uncaught rejection's 500. */
  method Get(db: Database, clerkId: Option<string>, param: Option<string>, rt: Runtime) returns (reply: Reply)
    requires db.Valid()
    modifies db
    ensures db.Valid() && db.points == old(db.points)
    ensures var o := LatestAsWritten(old(db.users), old(db.points), clerkId, param, rt);
      reply == o.reply && db.users == o.users
  {
    if !TruthyText(clerkId) {
      return Reply(401, Failure("Unauthorized"));
    }
    UpsertWellFormed(db.users, db.points, clerkId.value);
    var (us, i) := Upsert(db.users, clerkId.value);
    db.users := us;
    var limit := LimitAsWritten(param, rt);
    var rows := Selected(db.points, i, limit);
    if rows.None? {
      return Reply(500, ServerError);
    }
    reply := Reply(200, Readings(Query.Reverse(rows.value)));
  }

  // -------------------------------------------------------------- properties

  /** Without a signed-in identity the reply is 401 and no user is created. */
  lemma UnauthorizedChangesNothing(users: seq<User>, points: seq<DataPoint>, clerkId: Option<string>, param: Option<string>, rt: Runtime)
    requires !TruthyText(clerkId)
    ensures LatestAsWritten(users, points, clerkId, param, rt) == Outcome(Reply(401, Failure("Unauthorized")), users)
    ensures LatestReadings(users, points, clerkId, param, rt) == Outcome(Reply(401, Failure("Unauthorized")), users)
  {
  }

  /** A non-negative integer `take` is a prefix of the ordering. */
  lemma SelectedPrefix(points: seq<DataPoint>, user: nat, n: nat)
    ensures var sorted := Query.SortDesc(Qualifying(points, user), Timestamp);
      Selected(points, user, Some(n as real)) == Some(sorted[..if n < |sorted| then n else |sorted|])
  {
    assert (n as real).Floor == n;
  }

  /** The rows a non-negative integer `take` selects, before the reversal,
      are min(n, available) qualifying readings in descending order. */
  lemma SelectedNewest(points: seq<DataPoint>, user: nat, n: nat)
    ensures var rows := Selected(points, user, Some(n as real)).value;
      var q := Qualifying(points, user);
      && |rows| == (if n < |q| then n else |q|)
      && Query.Descending(rows, Timestamp)
      && (forall x :: x in rows ==> x in points && Qualifies(x, user))
  {
    var sorted := Query.SortDesc(Qualifying(points, user), Timestamp);
    SelectedPrefix(points, user, n);
    forall x | x in Selected(points, user, Some(n as real)).value ensures x in sorted {
    }
    Query.MultisetMembers(sorted, Qualifying(points, user));
  }

  /** No qualifying reading left out by a non-negative `take` is newer than
      one it kept. */
  lemma SelectedMostRecent(points: seq<DataPoint>, user: nat, n: nat)
    ensures var rows := Selected(points, user, Some(n as real)).value;
      forall x, y :: x in Qualifying(points, user) && x !in rows && y in rows ==> x.timestamp <= y.timestamp
  {
    var sorted := Query.SortDesc(Qualifying(points, user), Timestamp);
    SelectedPrefix(points, user, n);
    Query.MultisetMembers(sorted, Qualifying(points, user));
    Query.PrefixHoldsLargest(sorted, if n < |sorted| then n else |sorted|, Timestamp);
  }

  /** A successful reply holds at most 200 readings, all the user's and
      carrying an emotion, in ascending timestamp order; with an integer
      limit of n they are the min(n, available) newest. */
  lemma LatestReadingsSpec(users: seq<User>, points: seq<DataPoint>, clerkId: Option<string>, param: Option<string>, rt: Runtime)
    requires LatestReadings(users, points, clerkId, param, rt).reply.status == 200
    ensures var o := LatestReadings(users, points, clerkId, param, rt);
      var rows := o.reply.body.rows;
      var i := Upsert(users, clerkId.value).1;
      var q := Qualifying(points, i);
      var n := Limit(param, rt).value.Floor;
      && TruthyText(clerkId) && o.users == Upsert(users, clerkId.value).0
      && 0 <= n <= 200 && Limit(param, rt).value == n as real
      && |rows| == (if n < |q| then n else |q|)
      && Query.Ascending(rows, Timestamp)
      && (forall x :: x in rows ==> x in points && Qualifies(x, i))
      && (forall x, y :: x in q && x !in rows && y in rows ==> x.timestamp <= y.timestamp)
      && (LimitAsWritten(param, rt).value >= 0.0 ==> LatestAsWritten(users, points, clerkId, param, rt) == o)
  {
    var i := Upsert(users, clerkId.value).1;
    var n := Limit(param, rt).value.Floor;
    assert n as real == Limit(param, rt).value;
    SelectedNewest(points, i, n);
    SelectedMostRecent(points, i, n);
    var sel := Selected(points, i, Some(n as real)).value;
    Query.ReverseDescending(sel, Timestamp);
    Query.ReverseMultiset(sel);
    forall x ensures x in Query.Reverse(sel) <==> x in sel {
      assert x in Query.Reverse(sel) <==> x in multiset(Query.Reverse(sel));
    }
  }

  /** As written, a negative limit escapes the cap of 200: `?limit=-m` asks
      the store for the m oldest qualifying readings, however large m is. */
  lemma {:induction false} NegativeLimitEscapesCap(users: seq<User>, points: seq<DataPoint>, clerkId: Option<string>, rt: Runtime, s: string, m: nat)
    requires TruthyText(clerkId) && rt.parseNumber(s) == Some(-(m as real))
    requires m <= |Qualifying(points, Upsert(users, clerkId.value).1)|
    ensures var o := LatestAsWritten(users, points, clerkId, Some(s), rt);
      o.reply.status == 200 && |o.reply.body.rows| == m
  {
    assert (-(m as real)).Floor == -(m as int);
  }

  /** Concretely: 300 qualifying readings and `?limit=-300` give 300 rows. */
  lemma NegativeLimitReturns300(users: seq<User>, points: seq<DataPoint>, clerkId: Option<string>, rt: Runtime)
    requires TruthyText(clerkId) && rt.parseNumber("-300") == Some(-300.0)
    requires |Qualifying(points, Upsert(users, clerkId.value).1)| >= 300
    ensures |LatestAsWritten(users, points, clerkId, Some("-300"), rt).reply.body.rows| > 200
  {
    NegativeLimitEscapesCap(users, points, clerkId, rt, "-300", 300);
  }
}
