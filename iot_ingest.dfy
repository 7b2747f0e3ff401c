/** The IoT-only ingest route: a device key resolved against the IoT slot
    alone, heart rate and SpO2 kept only inside physiological bounds (an
    out-of-range value is dropped without complaint), a request refused only
    when neither survives, and always one new row. */
module IotIngest {
  import opened Js
  import opened Store
  import Query

  /** `heartRate` kept when it is a number strictly between 0 and 250, then rounded. */
  function CheckedHeartRate(v: Value): (r: Option<int>)
    ensures r.Some? <==> v.Num? && 0.0 < v.n < 250.0
    ensures r.Some? ==> r.value == Round(v.n) && 0 <= r.value <= 250
  {
    if v.Num? && v.n > 0.0 && v.n < 250.0 then Some(Round(v.n)) else None
  }

  /** `spO2` kept when it is a number with 50 < spO2 <= 100. */
  function CheckedSpO2(v: Value): (r: Option<real>)
    ensures r.Some? <==> v.Num? && 50.0 < v.n <= 100.0
    ensures r.Some? ==> r.value == v.n
  {
    if v.Num? && v.n > 50.0 && v.n <= 100.0 then Some(v.n) else None
  }

  /** `new Date(timestamp)` for a string or a number when that is a valid
      date (a number read as epoch milliseconds), else the server time. */
  function ReadingTime(timestamp: Value, rt: Runtime): (r: int)
    ensures timestamp.Str? && rt.parseDate(timestamp.s).Some? ==> r == rt.parseDate(timestamp.s).value
    ensures timestamp.Num? && DateOfNumber(timestamp.n).Some? ==> r == DateOfNumber(timestamp.n).value
    ensures timestamp.Str? && rt.parseDate(timestamp.s).None? ==> r == rt.now
    ensures timestamp.Num? && DateOfNumber(timestamp.n).None? ==> r == rt.now
    ensures !timestamp.Str? && !timestamp.Num? ==> r == rt.now
  {
    var t := match timestamp
      case Str(s) => rt.parseDate(s)
      case Num(n) => DateOfNumber(n)
      case _ => None;
    if t.Some? then t.value else rt.now
  }

  /** The first user whose IoT slot holds the key's hash. */
  function ResolveKey(users: seq<User>, key: Option<string>): (r: Auth)
    ensures r == MissingKey <==> !TruthyText(key)
    ensures r.Authenticated? ==> r.user < |users| && users[r.user].apiKeyHash == Some(HashKey(key.value))
    ensures r.Authenticated? ==> forall j :: 0 <= j < r.user ==> users[j].apiKeyHash != Some(HashKey(key.value))
    ensures r == InvalidKey ==> forall j :: 0 <= j < |users| ==> users[j].apiKeyHash != Some(HashKey(key.value))
  {
    if !TruthyText(key) then MissingKey
    else
      var h := HashKey(key.value);
      match Query.FirstWhere(users, (u: User) => u.apiKeyHash == Some(h))
      case Some(i) => Authenticated(i)
      case None => InvalidKey
  }

  /** The row `dataPoint.create` inserts. */
  function IotRow(id: nat, user: nat, heartRate: Option<int>, spO2: Option<real>, ts: int): DataPoint {
    NewPoint(id, user, ts).(heartRate := heartRate, spO2 := spO2)
  }

  datatype Outcome = Outcome(reply: Reply, points: seq<DataPoint>)

  /** The route as one atomic step over the readings table. A `null` body
      makes the field access throw. */
  function Ingest(users: seq<User>, points: seq<DataPoint>, key: Option<string>, body: Body, rt: Runtime): Outcome {
    match ResolveKey(users, key)
    case MissingKey => Outcome(Reply(401, Failure("Missing X-API-Key")), points)
    case InvalidKey => Outcome(Reply(401, Failure("Invalid API key")), points)
    case Authenticated(user) =>
      if !body.Json? then Outcome(Reply(500, Failure("Server error")), points)
      else
        var heartRate := CheckedHeartRate(body.fields.heartRate);
        var spO2 := CheckedSpO2(body.fields.spO2);
        if heartRate.None? && spO2.None? then
          Outcome(Reply(400, Failure("Provide at least one of heartRate or spO2")), points)
        else
          var row := IotRow(|points|, user, heartRate, spO2, ReadingTime(body.fields.timestamp, rt));
          Outcome(Reply(201, Created(row.id)), points + [row])
  }

  /** `POST /api/iot/ingest` */
  method Post(db: Database, key: Option<string>, body: Body, rt: Runtime) returns (reply: Reply)
    requires db.Valid()
    modifies db
    ensures db.Valid() && db.users == old(db.users)
    ensures var o := Ingest(old(db.users), old(db.points), key, body, rt);
      reply == o.reply && db.points == o.points
  {
    ghost var points0 := db.points;
    var auth := ResolveKey(db.users, key);
    if auth == MissingKey {
      return Reply(401, Failure("Missing X-API-Key"));
    } else if auth == InvalidKey {
      return Reply(401, Failure("Invalid API key"));
    }
    if !body.Json? {
      return Reply(500, Failure("Server error"));
    }
    var p := body.fields;
    var heartRate := CheckedHeartRate(p.heartRate);
    var spO2 := CheckedSpO2(p.spO2);
    if heartRate.None? && spO2.None? {
      return Reply(400, Failure("Provide at least one of heartRate or spO2"));
    }
    var timestamp := rt.now;
    if p.timestamp.Str? || p.timestamp.Num? {
      var t := if p.timestamp.Str? then rt.parseDate(p.timestamp.s) else DateOfNumber(p.timestamp.n);
      if t.Some? {
        timestamp := t.value;
      }
    }
    var dp := IotRow(|db.points|, auth.user, heartRate, spO2, timestamp);
    db.points := db.points + [dp];
    assert forall i :: 0 <= i < |points0| ==> db.points[i] == points0[i];
    reply := Reply(201, Created(dp.id));
  }

  // -------------------------------------------------------------- properties

  /** With a good key and a JSON object body, the request is refused with
      400 exactly when neither field passes its check, and then nothing is
      written. */
  lemma RefusedOnlyWhenBothDropped(users: seq<User>, points: seq<DataPoint>, key: Option<string>, body: Body, rt: Runtime)
    requires ResolveKey(users, key).Authenticated? && body.Json?
    ensures var o := Ingest(users, points, key, body, rt);
      && (o.reply.status == 400 <==> CheckedHeartRate(body.fields.heartRate).None? && CheckedSpO2(body.fields.spO2).None?)
      && (o.reply.status == 400 ==> o.points == points)
  {
  }

  /** A value out of range is dropped, not refused: a reading with a valid
      SpO2 and a heart rate of 300 is stored with no heart rate. */
  lemma OutOfRangeDroppedSilently(users: seq<User>, points: seq<DataPoint>, key: Option<string>, rt: Runtime)
    requires ResolveKey(users, key).Authenticated?
    ensures var body := Json(EmptyPayload.(heartRate := Num(300.0), spO2 := Num(97.0)));
      var o := Ingest(users, points, key, body, rt);
      o.reply.status == 201 && |o.points| == |points| + 1
      && o.points[|points|].heartRate.None? && o.points[|points|].spO2 == Some(97.0)
  {
  }

  /** A successful call appends exactly one row holding the user, the checked
      fields within their bounds and the reading time, and answers with its id. */
  lemma AcceptedCreatesOne(users: seq<User>, points: seq<DataPoint>, key: Option<string>, body: Body, rt: Runtime)
    requires Ingest(users, points, key, body, rt).reply.status == 201
    ensures var o := Ingest(users, points, key, body, rt);
      && ResolveKey(users, key).Authenticated? && body.Json?
      && |o.points| == |points| + 1 && o.points[..|points|] == points
      && o.reply == Reply(201, Created(|points|))
      && var row := o.points[|points|];
      && row.userId == ResolveKey(users, key).user
      && row.heartRate == CheckedHeartRate(body.fields.heartRate)
      && row.spO2 == CheckedSpO2(body.fields.spO2)
      && (row.heartRate.Some? ==> 0 <= row.heartRate.value <= 250)
      && (row.spO2.Some? ==> 50.0 < row.spO2.value <= 100.0)
      && (row.heartRate.Some? || row.spO2.Some?)
      && row.timestamp == ReadingTime(body.fields.timestamp, rt)
      && row.emotion.None? && row.source.None? && row.stressScore.None?
  {
    var o := Ingest(users, points, key, body, rt);
    assert o.points[..|points|] == points;
  }

  /** A request that is not accepted writes nothing. */
  lemma RejectedChangesNothing(users: seq<User>, points: seq<DataPoint>, key: Option<string>, body: Body, rt: Runtime)
    requires Ingest(users, points, key, body, rt).reply.status != 201
    ensures Ingest(users, points, key, body, rt).points == points
  {
  }
}
