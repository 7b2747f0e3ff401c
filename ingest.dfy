/** The unified ingest route: resolve a device key against either hash slot,
    normalise the emotion label, pick a merge target (a correlation-id match
    first, then the latest row from another source inside the merge window),
    and either merge the present fields into that row or create a new one. */
module Ingest {
  import opened Js
  import opened Store
  import Query

  /** `MERGE_WINDOW_MS` when the environment does not set it. */
  const DefaultMergeWindowMs: int := 10000

  // ---------------------------------------------------------------- labels

  /** The labels `normalizeEmotion` recognises, after trim and upper-casing. */
  const Labels: map<string, Emotion> := map[
    "HAPPY" := HAPPY, "NEUTRAL" := NEUTRAL, "SAD" := SAD, "ANGRY" := ANGRY,
    "STRESSED" := STRESSED, "STRESS" := STRESSED, "FEAR" := STRESSED, "FEARFUL" := STRESSED,
    "DISGUST" := STRESSED, "DISGUSTED" := STRESSED, "SURPRISE" := STRESSED, "SURPRISED" := STRESSED]

  /** `normalizeEmotion`: a falsy value is undefined; otherwise the trimmed,
      upper-cased text is matched by an if-chain. The text of a number or a
      boolean is never a label, so only strings can match. */
  function NormalizeEmotion(e: Value): Option<Emotion> {
    if !Truthy(e) || !e.Str? then None
    else
      var s := ToUpperCase(Trim(e.s));
      if s == "HAPPY" then Some(HAPPY)
      else if s == "NEUTRAL" then Some(NEUTRAL)
      else if s == "SAD" then Some(SAD)
      else if s == "ANGRY" then Some(ANGRY)
      else if s == "STRESSED" || s == "STRESS" || s == "FEAR" || s == "FEARFUL"
           || s == "DISGUST" || s == "DISGUSTED" || s == "SURPRISE" || s == "SURPRISED"
      then Some(STRESSED)
      else None
  }

  /** The if-chain recognises exactly the labels of the table, non-empty
      strings only, and maps each to its table entry. */
  lemma NormalizeMatchesLabels(e: Value)
    ensures var r := NormalizeEmotion(e);
      && (r.Some? <==> e.Str? && e.s != "" && ToUpperCase(Trim(e.s)) in Labels)
      && (r.Some? ==> r.value == Labels[ToUpperCase(Trim(e.s))])
  {
  }

  /** Labels differing only in the case of ASCII letters normalise alike. */
  lemma NormalizeIgnoresCase(s: string, t: string)
    requires SameUpToCase(s, t)
    ensures NormalizeEmotion(Str(s)) == NormalizeEmotion(Str(t))
  {
    TrimUpperIgnoresCase(s, t);
  }

  /** Surrounding whitespace does not change the normalised label. */
  lemma NormalizeIgnoresPadding(w1: string, s: string, w2: string)
    requires AllSpace(w1) && AllSpace(w2)
    ensures NormalizeEmotion(Str(w1 + s + w2)) == NormalizeEmotion(Str(s))
  {
    TrimDropsPadding(w1, s, w2);
    if s == [] {
      assert Trim(s) == [];
    }
  }

  /** A non-empty upper-case word is its own normalisation key. */
  lemma Plain(s: string)
    requires s != [] && forall i :: 0 <= i < |s| ==> 'A' <= s[i] <= 'Z'
    ensures ToUpperCase(Trim(s)) == s
  {
    TrimFixed(s);
    UpperWordFixed(s);
  }

  /** Every enumeration value normalises to itself from its own name. */
  lemma NormalizeRoundTrip(e: Emotion)
    ensures NormalizeEmotion(Str(EmotionName(e))) == Some(e)
  {
    var n := EmotionName(e);
    NameIsCapitals(e);
    Plain(n);
    NormalizeMatchesLabels(Str(n));
    NameIsLabel(e);
  }

  lemma NameIsCapitals(e: Emotion)
    ensures var n := EmotionName(e); n != [] && forall i :: 0 <= i < |n| ==> 'A' <= n[i] <= 'Z'
  {
  }

  lemma NameIsLabel(e: Emotion)
    ensures EmotionName(e) in Labels && Labels[EmotionName(e)] == e
  {
  }

  // ------------------------------------------------------- key resolution

  /** `x-api-key ?? x-emotion-key`: a present x-api-key, even an empty one,
      hides x-emotion-key. */
  function PresentedKey(apiKey: Option<string>, emotionKey: Option<string>): Option<string> {
    if apiKey.Some? then apiKey else emotionKey
  }

  predicate HoldsKey(u: User, h: Digest) {
    u.apiKeyHash == Some(h) || u.emotionKeyHash == Some(h)
  }

  /** The first user holding the presented key's hash in either slot. */
  function ResolveUser(users: seq<User>, apiKey: Option<string>, emotionKey: Option<string>): (r: Auth)
    ensures var k := PresentedKey(apiKey, emotionKey);
      && (r == MissingKey <==> !TruthyText(k))
      && (r.Authenticated? ==>
            && r.user < |users|
            && HoldsKey(users[r.user], HashKey(k.value))
            && forall j :: 0 <= j < r.user ==> !HoldsKey(users[j], HashKey(k.value)))
      && (r == InvalidKey ==> forall j :: 0 <= j < |users| ==> !HoldsKey(users[j], HashKey(k.value)))
  {
    var k := PresentedKey(apiKey, emotionKey);
    if !TruthyText(k) then MissingKey
    else
      var h := HashKey(k.value);
      match Query.FirstWhere(users, (u: User) => HoldsKey(u, h))
      case Some(i) => Authenticated(i)
      case None => InvalidKey
  }

  // ------------------------------------------------------------ timestamps

  /** `Number(v)`; None is NaN. */
  function NumberOf(v: Value, rt: Runtime): Option<real> {
    match v
    case Num(n) => Some(n)
    case Str(s) => rt.parseNumber(s)
    case Bool(b) => Some(if b then 1.0 else 0.0)
    case Null => Some(0.0)
    case Undefined => None
  }

  /** `timestamp ? new Date(Number(timestamp)) : new Date()`; None is the invalid date. */
  function IncomingTime(timestamp: Value, rt: Runtime): Option<int> {
    if !Truthy(timestamp) then Some(rt.now)
    else
      match NumberOf(timestamp, rt)
      case Some(x) => DateOfNumber(x)
      case None => None
  }

  // ---------------------------------------------------------- merge target

  /** A row of this user carrying this correlation id. */
  predicate SameCorrelation(p: DataPoint, user: nat, c: string) {
    p.userId == user && p.correlationId == Some(c)
  }

  /** `source ?? ""` */
  function SourceOrEmpty(source: Option<string>): string {
    if source.Some? then source.value else ""
  }

  /** The window query's filter: a row of this user in [ts - w, ts + w] whose
      recorded source is not `incoming` (`NOT source = x`, which a row with a
      null source never satisfies). */
  predicate InWindow(p: DataPoint, user: nat, ts: int, w: int, incoming: string) {
    p.userId == user && ts - w <= p.timestamp <= ts + w && p.source.Some? && p.source.value != incoming
  }

  /** The window query: the latest row passing the filter. */
  function WindowMatch(points: seq<DataPoint>, user: nat, ts: int, w: int, source: Option<string>): (r: Option<nat>)
    ensures r.Some? ==> r.value < |points| && InWindow(points[r.value], user, ts, w, SourceOrEmpty(source))
    ensures r.Some? ==> forall j :: 0 <= j < |points| && InWindow(points[j], user, ts, w, SourceOrEmpty(source))
                          ==> points[j].timestamp <= points[r.value].timestamp
    ensures r.None? ==> forall j :: 0 <= j < |points| ==> !InWindow(points[j], user, ts, w, SourceOrEmpty(source))
  {
    var incoming := SourceOrEmpty(source);
    Query.MaxWhere(points, (p: DataPoint) => InWindow(p, user, ts, w, incoming), (p: DataPoint) => p.timestamp)
  }

  /** The window query's bounds `new Date(ts.getTime() - w)` and
      `new Date(ts.getTime() + w)` are both valid dates. */
  predicate WindowDates(ts: int, w: int) {
    DateOfNumber((ts - w) as real).Some? && DateOfNumber((ts + w) as real).Some?
  }

  /** Where a reading goes: the row found by correlation id, the row found by
      the window query, a new row, or nowhere because the window query was
      given an invalid date and threw. */
  datatype Target = ByCorrelation(index: nat) | ByWindow(index: nat) | Fresh | QueryFailed

  function CorrelationMatch(points: seq<DataPoint>, user: nat, correlationId: Option<string>): (r: Option<nat>)
    ensures r.Some? ==> TruthyText(correlationId) && r.value < |points|
                        && SameCorrelation(points[r.value], user, correlationId.value)
                        && forall j :: 0 <= j < r.value ==> !SameCorrelation(points[j], user, correlationId.value)
    ensures r.None? && TruthyText(correlationId) ==>
              forall j :: 0 <= j < |points| ==> !SameCorrelation(points[j], user, correlationId.value)
  {
    if TruthyText(correlationId) then
      var c := correlationId.value;
      Query.FirstWhere(points, (p: DataPoint) => SameCorrelation(p, user, c))
    else None
  }

  /** The merge target, in the order the route searches: correlation id first;
      the window only when that finds nothing. */
  function MergeTarget(points: seq<DataPoint>, user: nat, body: Payload, ts: Option<int>, w: int): (t: Target)
    ensures t.ByCorrelation? <==> CorrelationMatch(points, user, body.correlationId).Some?
    ensures t.ByCorrelation? ==> t.index == CorrelationMatch(points, user, body.correlationId).value
    ensures t.ByWindow? ==> ts.Some? && WindowDates(ts.value, w) && WindowMatch(points, user, ts.value, w, body.source) == Some(t.index)
    ensures t == Fresh ==> ts.Some? && WindowDates(ts.value, w) && WindowMatch(points, user, ts.value, w, body.source).None?
    ensures t == QueryFailed <==>
              (ts.None? || !WindowDates(ts.value, w)) && CorrelationMatch(points, user, body.correlationId).None?
    ensures !t.ByCorrelation? && ts.Some? && WindowDates(ts.value, w) ==>
              (t.ByWindow? <==> WindowMatch(points, user, ts.value, w, body.source).Some?)
  {
    match CorrelationMatch(points, user, body.correlationId)
    case Some(i) => ByCorrelation(i)
    case None =>
      if ts.None? || !WindowDates(ts.value, w) then QueryFailed
      else
        match WindowMatch(points, user, ts.value, w, body.source)
        case Some(i) => ByWindow(i)
        case None => Fresh
  }

  // ------------------------------------------------------- merge and create

  /** `[stored, incoming].filter(Boolean).join(",")` on the two source tags. */
  function JoinSources(stored: Option<string>, incoming: Option<string>): string {
    if TruthyText(stored) && TruthyText(incoming) then stored.value + "," + incoming.value
    else if TruthyText(stored) then stored.value
    else if TruthyText(incoming) then incoming.value
    else ""
  }

  /** The row after `dataPoint.update({ data: updateData })`. */
  function Merge(row: DataPoint, body: Payload, ts: Option<int>, emotion: Option<Emotion>): DataPoint {
    row.(
      timestamp := if ts.Some? && ts.value > row.timestamp then ts.value else row.timestamp,
      deviceId := if body.deviceId.Some? then body.deviceId else row.deviceId,
      correlationId := if body.correlationId.Some? then body.correlationId else row.correlationId,
      source := Some(JoinSources(row.source, body.source)),
      heartRate := if body.heartRate.Num? then Some(Round(body.heartRate.n)) else row.heartRate,
      spO2 := if body.spO2.Num? then Some(body.spO2.n) else row.spO2,
      emotion := if emotion.Some? then emotion else row.emotion,
      confidence := if body.confidence.Num? then Some(body.confidence.n) else row.confidence)
  }

  /** `source ?? (heartRate || spO2 ? "iot" : "camera")` */
  function DefaultSource(body: Payload): string {
    if Truthy(body.heartRate) || Truthy(body.spO2) then "iot" else "camera"
  }

  /** The row `dataPoint.create` inserts. */
  function Create(id: nat, user: nat, body: Payload, ts: int, emotion: Option<Emotion>): DataPoint {
    NewPoint(id, user, ts).(
      deviceId := body.deviceId,
      correlationId := body.correlationId,
      source := if body.source.Some? then body.source else Some(DefaultSource(body)),
      heartRate := if body.heartRate.Num? then Some(Round(body.heartRate.n)) else None,
      spO2 := if body.spO2.Num? then Some(body.spO2.n) else None,
      emotion := emotion,
      confidence := if body.confidence.Num? then Some(body.confidence.n) else None)
  }

  // ------------------------------------------------------------- the route

  /** `body ?? {}` */
  function FieldsOf(body: Body): Payload {
    if body.Json? then body.fields else EmptyPayload
  }

  datatype Outcome = Outcome(reply: Reply, points: seq<DataPoint>)

  /** The route as one atomic step over the readings table. */
  function Ingest(users: seq<User>, points: seq<DataPoint>, apiKey: Option<string>, emotionKey: Option<string>,
                  body: Body, rt: Runtime, w: int): Outcome
  {
    match ResolveUser(users, apiKey, emotionKey)
    case MissingKey => Outcome(Reply(401, Failure("Missing API key")), points)
    case InvalidKey => Outcome(Reply(401, Failure("Invalid API key")), points)
    case Authenticated(user) =>
      if body.Unparseable? then Outcome(Reply(500, ServerError), points)
      else
        var p := FieldsOf(body);
        var ts := IncomingTime(p.timestamp, rt);
        var emotion := NormalizeEmotion(p.emotion);
        match MergeTarget(points, user, p, ts, w)
        case ByCorrelation(i) =>
          Outcome(Reply(201, Created(points[i].id)), points[i := Merge(points[i], p, ts, emotion)])
        case ByWindow(i) =>
          Outcome(Reply(201, Created(points[i].id)), points[i := Merge(points[i], p, ts, emotion)])
        case Fresh =>
          var row := Create(|points|, user, p, ts.value, emotion);
          Outcome(Reply(201, Created(row.id)), points + [row])
        case QueryFailed => Outcome(Reply(500, ServerError), points)
  }

  /** The stored row overlaid with `updateData`: the merged timestamp, source
      and identifiers always, each numeric or emotion field only when the
      request carries it. */
  method UpdateData(row: DataPoint, p: Payload, ts: Option<int>, emotion: Option<Emotion>) returns (update: DataPoint)
    ensures update == Merge(row, p, ts, emotion)
  {
    update := row.(
      timestamp := if ts.Some? && ts.value > row.timestamp then ts.value else row.timestamp,
      deviceId := if p.deviceId.Some? then p.deviceId else row.deviceId,
      correlationId := if p.correlationId.Some? then p.correlationId else row.correlationId,
      source := Some(JoinSources(row.source, p.source)));
    if p.heartRate.Num? {
      update := update.(heartRate := Some(Round(p.heartRate.n)));
    }
    if p.spO2.Num? {
      update := update.(spO2 := Some(p.spO2.n));
    }
    if emotion.Some? {
      update := update.(emotion := emotion);
    }
    if p.confidence.Num? {
      update := update.(confidence := Some(p.confidence.n));
    }
  }

  /** `POST /api/ingest` */
  method Post(db: Database, apiKey: Option<string>, emotionKey: Option<string>, body: Body, rt: Runtime, w: int)
    returns (reply: Reply)
    requires db.Valid()
    modifies db
    ensures db.Valid() && db.users == old(db.users)
    ensures var o := Ingest(old(db.users), old(db.points), apiKey, emotionKey, body, rt, w);
      reply == o.reply && db.points == o.points
  {
    ghost var users0, points0 := db.users, db.points;
    var auth := ResolveUser(db.users, apiKey, emotionKey);
    if auth == MissingKey {
      return Reply(401, Failure("Missing API key"));
    } else if auth == InvalidKey {
      return Reply(401, Failure("Invalid API key"));
    }
    var user := auth.user;
    if body.Unparseable? {
      return Reply(500, ServerError);
    }
    var p := FieldsOf(body);
    var ts := IncomingTime(p.timestamp, rt);
    var emotion := NormalizeEmotion(p.emotion);

    var existing := CorrelationMatch(db.points, user, p.correlationId);
    if existing.None? {
      if ts.None? || !WindowDates(ts.value, w) {
        return Reply(500, ServerError);
      }
      existing := WindowMatch(db.points, user, ts.value, w, p.source);
    }

    ghost var t := MergeTarget(points0, user, p, ts, w);
    assert existing.Some? ==> t == ByCorrelation(existing.value) || t == ByWindow(existing.value);
    assert existing.None? ==> t == Fresh;
    reply := Write(db, user, p, ts, emotion, existing);
    IngestWellFormed(users0, points0, apiKey, emotionKey, body, rt, w);
  }

  /** `dataPoint.update` of the found row, or `dataPoint.create`. */
  method Write(db: Database, user: nat, p: Payload, ts: Option<int>, emotion: Option<Emotion>, existing: Option<nat>)
    returns (reply: Reply)
    requires existing.Some? ==> existing.value < |db.points|
    requires existing.None? ==> ts.Some?
    modifies db
    ensures db.users == old(db.users)
    ensures existing.Some? ==>
      var i := existing.value;
      && db.points == old(db.points)[i := Merge(old(db.points)[i], p, ts, emotion)]
      && reply == Reply(201, Created(old(db.points)[i].id))
    ensures existing.None? ==>
      var row := Create(|old(db.points)|, user, p, ts.value, emotion);
      db.points == old(db.points) + [row] && reply == Reply(201, Created(row.id))
  {
    if existing.Some? {
      var row := db.points[existing.value];
      var update := UpdateData(row, p, ts, emotion);
      db.points := db.points[existing.value := update];
      reply := Reply(201, Created(row.id));
    } else {
      var row := Create(|db.points|, user, p, ts.value, emotion);
      db.points := db.points + [row];
      reply := Reply(201, Created(row.id));
    }
  }

  /** Every outcome keeps the tables well formed: a merged row keeps its id
      and owner, a created row takes the next id and belongs to the caller. */
  lemma IngestWellFormed(users: seq<User>, points: seq<DataPoint>, apiKey: Option<string>,
                         emotionKey: Option<string>, body: Body, rt: Runtime, w: int)
    requires WellFormed(users, points)
    ensures WellFormed(users, Ingest(users, points, apiKey, emotionKey, body, rt, w).points)
  {
    var o := Ingest(users, points, apiKey, emotionKey, body, rt, w);
    if o.points != points && |o.points| == |points| + 1 {
      assert forall i :: 0 <= i < |points| ==> o.points[i] == points[i];
    }
  }

  // -------------------------------------------------------------- properties

  /** Without a resolvable key the route answers 401 and touches no row. */
  lemma UnauthenticatedWritesNothing(users: seq<User>, points: seq<DataPoint>, apiKey: Option<string>,
                                     emotionKey: Option<string>, body: Body, rt: Runtime, w: int)
    requires !ResolveUser(users, apiKey, emotionKey).Authenticated?
    ensures var o := Ingest(users, points, apiKey, emotionKey, body, rt, w);
      o.reply.status == 401 && o.points == points
  {
  }

  /** An empty x-api-key is "missing" even when x-emotion-key is valid. */
  lemma EmptyApiKeyHidesEmotionKey(users: seq<User>, emotionKey: Option<string>)
    ensures ResolveUser(users, Some(""), emotionKey) == MissingKey
  {
  }

  /** A present x-api-key decides the outcome whatever x-emotion-key holds. */
  lemma ApiKeyTakesPrecedence(users: seq<User>, apiKey: string, e1: Option<string>, e2: Option<string>)
    ensures ResolveUser(users, Some(apiKey), e1) == ResolveUser(users, Some(apiKey), e2)
  {
  }

  ghost predicate Accepted(users: seq<User>, apiKey: Option<string>, emotionKey: Option<string>, body: Body, user: nat) {
    ResolveUser(users, apiKey, emotionKey) == Authenticated(user) && !body.Unparseable?
  }

  /** A merge rewrites exactly the target row: the later timestamp, both
      source tags, identifiers backfilled, numeric and emotion fields only
      where the request carries them; the owner and the row count stay. */
  lemma MergeEffect(users: seq<User>, points: seq<DataPoint>, apiKey: Option<string>, emotionKey: Option<string>,
                    body: Body, rt: Runtime, w: int, user: nat)
    requires Accepted(users, apiKey, emotionKey, body, user)
    requires var p := FieldsOf(body);
      var t := MergeTarget(points, user, p, IncomingTime(p.timestamp, rt), w);
      t.ByCorrelation? || t.ByWindow?
    ensures var p := FieldsOf(body);
      var ts := IncomingTime(p.timestamp, rt);
      var i := MergeTarget(points, user, p, ts, w).index;
      var o := Ingest(users, points, apiKey, emotionKey, body, rt, w);
      var old_, new_ := points[i], o.points[i];
      && i < |points| && |o.points| == |points|
      && (forall j :: 0 <= j < |points| && j != i ==> o.points[j] == points[j])
      && o.reply == Reply(201, Created(old_.id))
      && new_.id == old_.id && new_.userId == old_.userId == user && new_.stressScore == old_.stressScore
      && (ts.Some? ==> new_.timestamp == if ts.value > old_.timestamp then ts.value else old_.timestamp)
      && (ts.None? ==> new_.timestamp == old_.timestamp)
      && new_.source == Some(JoinSources(old_.source, p.source))
      && new_.deviceId == (if p.deviceId.Some? then p.deviceId else old_.deviceId)
      && new_.correlationId == (if p.correlationId.Some? then p.correlationId else old_.correlationId)
      && new_.heartRate == (if p.heartRate.Num? then Some(Round(p.heartRate.n)) else old_.heartRate)
      && new_.spO2 == (if p.spO2.Num? then Some(p.spO2.n) else old_.spO2)
      && new_.confidence == (if p.confidence.Num? then Some(p.confidence.n) else old_.confidence)
      && new_.emotion == (if NormalizeEmotion(p.emotion).Some? then NormalizeEmotion(p.emotion) else old_.emotion)
  {
    var p := FieldsOf(body);
    var t := MergeTarget(points, user, p, IncomingTime(p.timestamp, rt), w);
    if t.ByWindow? {
      assert points[t.index].userId == user;
    }
  }

  /** With no correlated row and a window reaching past the Date range, the
      window query throws: 500, and the table is unchanged. */
  lemma WindowBeyondDatesFails(users: seq<User>, points: seq<DataPoint>, apiKey: Option<string>, emotionKey: Option<string>,
                               body: Body, rt: Runtime, w: int, user: nat)
    requires Accepted(users, apiKey, emotionKey, body, user)
    requires var p := FieldsOf(body);
      var ts := IncomingTime(p.timestamp, rt);
      ts.Some? && !WindowDates(ts.value, w) && CorrelationMatch(points, user, p.correlationId).None?
    ensures var o := Ingest(users, points, apiKey, emotionKey, body, rt, w);
      o.reply == Reply(500, ServerError) && o.points == points
  {
  }

  /** With no target, exactly one row is appended, owned by the user, with
      the source defaulted from the fields present. */
  lemma CreateEffect(users: seq<User>, points: seq<DataPoint>, apiKey: Option<string>, emotionKey: Option<string>,
                     body: Body, rt: Runtime, w: int, user: nat)
    requires Accepted(users, apiKey, emotionKey, body, user)
    requires var p := FieldsOf(body);
      MergeTarget(points, user, p, IncomingTime(p.timestamp, rt), w) == Fresh
    ensures var p := FieldsOf(body);
      var ts := IncomingTime(p.timestamp, rt);
      var o := Ingest(users, points, apiKey, emotionKey, body, rt, w);
      && ts.Some?
      && |o.points| == |points| + 1 && o.points[..|points|] == points
      && o.reply == Reply(201, Created(|points|))
      && var row := o.points[|points|];
      && row.id == |points| && row.userId == user && row.timestamp == ts.value
      && row.source == (if p.source.Some? then p.source
                        else if Truthy(p.heartRate) || Truthy(p.spO2) then Some("iot") else Some("camera"))
      && row.emotion == NormalizeEmotion(p.emotion)
      && row.deviceId == p.deviceId && row.correlationId == p.correlationId
      && row.stressScore.None?
  {
    var o := Ingest(users, points, apiKey, emotionKey, body, rt, w);
    assert o.points[..|points|] == points;
  }

  /** A matching correlation id decides the target before any window search:
      the first such row of the user is merged, whatever the window holds and
      even when the timestamp is invalid. */
  lemma CorrelationIdWins(users: seq<User>, points: seq<DataPoint>, apiKey: Option<string>, emotionKey: Option<string>,
                          body: Body, rt: Runtime, w: int, user: nat, k: nat)
    requires Accepted(users, apiKey, emotionKey, body, user)
    requires TruthyText(FieldsOf(body).correlationId)
    requires k < |points| && SameCorrelation(points[k], user, FieldsOf(body).correlationId.value)
    ensures var p := FieldsOf(body);
      var i := CorrelationMatch(points, user, p.correlationId);
      && i.Some? && i.value <= k
      && MergeTarget(points, user, p, IncomingTime(p.timestamp, rt), w) == ByCorrelation(i.value)
      && Ingest(users, points, apiKey, emotionKey, body, rt, w).reply == Reply(201, Created(points[i.value].id))
  {
  }

  /** The window search runs only when no row carries the correlation id, and
      then picks the latest row in the window from another source. */
  lemma WindowOnlyAfterCorrelationMiss(points: seq<DataPoint>, user: nat, body: Payload, ts: Option<int>, w: int)
    requires MergeTarget(points, user, body, ts, w).ByWindow?
    ensures var i := MergeTarget(points, user, body, ts, w).index;
      && ts.Some? && i < |points|
      && (TruthyText(body.correlationId) ==>
            forall j :: 0 <= j < |points| ==> !SameCorrelation(points[j], user, body.correlationId.value))
      && points[i].userId == user
      && ts.value - w <= points[i].timestamp <= ts.value + w
      && points[i].source.Some? && points[i].source.value != SourceOrEmpty(body.source)
      && forall j :: 0 <= j < |points| && InWindow(points[j], user, ts.value, w, SourceOrEmpty(body.source))
                     ==> points[j].timestamp <= points[i].timestamp
  {
  }

  // ------------------------------------------------------------ convergence

  /** The number of rows of this user carrying this correlation id. */
  function CountCorrelated(points: seq<DataPoint>, user: nat, c: string): nat {
    if points == [] then 0
    else CountCorrelated(points[..|points| - 1], user, c)
         + (if SameCorrelation(points[|points| - 1], user, c) then 1 else 0)
  }

  lemma {:induction false} CountNone(points: seq<DataPoint>, user: nat, c: string)
    requires forall j :: 0 <= j < |points| ==> !SameCorrelation(points[j], user, c)
    ensures CountCorrelated(points, user, c) == 0
  {
    if points != [] {
      var n := |points| - 1;
      assert forall j :: 0 <= j < n ==> points[..n][j] == points[j];
      CountNone(points[..n], user, c);
    }
  }

  lemma {:induction false} CountUpdate(points: seq<DataPoint>, i: nat, x: DataPoint, user: nat, c: string)
    requires i < |points|
    ensures CountCorrelated(points[i := x], user, c)
            == CountCorrelated(points, user, c)
               - (if SameCorrelation(points[i], user, c) then 1 else 0)
               + (if SameCorrelation(x, user, c) then 1 else 0)
  {
    var n := |points| - 1;
    var q := points[i := x];
    if i == n {
      assert q[..n] == points[..n];
    } else {
      assert q[..n] == points[..n][i := x];
      CountUpdate(points[..n], i, x, user, c);
    }
  }

  lemma {:induction false} CountAtLeastOne(points: seq<DataPoint>, k: nat, user: nat, c: string)
    requires k < |points| && SameCorrelation(points[k], user, c)
    ensures CountCorrelated(points, user, c) > 0
  {
    var n := |points| - 1;
    if k < n {
      assert points[..n][k] == points[k];
      CountAtLeastOne(points[..n], k, user, c);
    }
  }

  lemma CountAppend(points: seq<DataPoint>, x: DataPoint, user: nat, c: string)
    ensures CountCorrelated(points + [x], user, c)
            == CountCorrelated(points, user, c) + (if SameCorrelation(x, user, c) then 1 else 0)
  {
    assert (points + [x])[..|points|] == points;
  }

  /** An accepted ingest carrying a correlation id leaves exactly one row of
      the user with that id when there was none, and does not add one when
      there was: repeating the ingest converges on one row. */
  lemma CorrelationConverges(users: seq<User>, points: seq<DataPoint>, apiKey: Option<string>, emotionKey: Option<string>,
                             body: Body, rt: Runtime, w: int, user: nat)
    requires Accepted(users, apiKey, emotionKey, body, user)
    requires TruthyText(FieldsOf(body).correlationId)
    requires Ingest(users, points, apiKey, emotionKey, body, rt, w).reply.status == 201
    ensures var c := FieldsOf(body).correlationId.value;
      var before := CountCorrelated(points, user, c);
      CountCorrelated(Ingest(users, points, apiKey, emotionKey, body, rt, w).points, user, c)
        == if before == 0 then 1 else before
  {
    var p := FieldsOf(body);
    var c := p.correlationId.value;
    var ts := IncomingTime(p.timestamp, rt);
    var emotion := NormalizeEmotion(p.emotion);
    match MergeTarget(points, user, p, ts, w)
    case ByCorrelation(i) =>
      var m := Merge(points[i], p, ts, emotion);
      CountUpdate(points, i, m, user, c);
      assert SameCorrelation(points[i], user, c) && SameCorrelation(m, user, c);
      CountAtLeastOne(points, i, user, c);
    case ByWindow(i) =>
      var m := Merge(points[i], p, ts, emotion);
      CountNone(points, user, c);
      CountUpdate(points, i, m, user, c);
      assert points[i].userId == user;
    case Fresh =>
      CountNone(points, user, c);
      CountAppend(points, Create(|points|, user, p, ts.value, emotion), user, c);
  }

  /** After an accepted ingest with correlation id c, the first row of the
      user carrying c is the row that ingest wrote. */
  lemma {:induction false} WrittenRowIsFirstCorrelated(users: seq<User>, points: seq<DataPoint>, apiKey: Option<string>,
                                                       emotionKey: Option<string>, body: Body, rt: Runtime, w: int, user: nat)
    requires Accepted(users, apiKey, emotionKey, body, user)
    requires TruthyText(FieldsOf(body).correlationId)
    requires Ingest(users, points, apiKey, emotionKey, body, rt, w).reply.status == 201
    ensures var o := Ingest(users, points, apiKey, emotionKey, body, rt, w);
      var i := CorrelationMatch(o.points, user, FieldsOf(body).correlationId);
      i.Some? && o.reply == Reply(201, Created(o.points[i.value].id))
  {
    var p := FieldsOf(body);
    var c := p.correlationId.value;
    var ts := IncomingTime(p.timestamp, rt);
    var emotion := NormalizeEmotion(p.emotion);
    var o := Ingest(users, points, apiKey, emotionKey, body, rt, w);
    match MergeTarget(points, user, p, ts, w)
    case ByCorrelation(i) =>
      assert SameCorrelation(o.points[i], user, c);
      assert forall j :: 0 <= j < i ==> o.points[j] == points[j];
      var f := CorrelationMatch(o.points, user, p.correlationId);
      assert f == Some(i);
    case ByWindow(i) =>
      assert points[i].userId == user;
      assert SameCorrelation(o.points[i], user, c);
      assert forall j :: 0 <= j < |points| && j != i ==> o.points[j] == points[j];
      var f := CorrelationMatch(o.points, user, p.correlationId);
      assert f == Some(i);
    case Fresh =>
      var n := |points|;
      assert SameCorrelation(o.points[n], user, c);
      assert forall j :: 0 <= j < n ==> o.points[j] == points[j];
      var f := CorrelationMatch(o.points, user, p.correlationId);
      assert f == Some(n);
  }

  /** Two accepted ingests from the same user with the same correlation id:
      the second merges into the row the first wrote and adds no row. */
  lemma RepeatedCorrelationMergesSameRow(users: seq<User>, points: seq<DataPoint>,
                                         a1: Option<string>, e1: Option<string>, b1: Body,
                                         a2: Option<string>, e2: Option<string>, b2: Body,
                                         rt1: Runtime, rt2: Runtime, w: int, user: nat)
    requires Accepted(users, a1, e1, b1, user) && Accepted(users, a2, e2, b2, user)
    requires TruthyText(FieldsOf(b1).correlationId) && FieldsOf(b2).correlationId == FieldsOf(b1).correlationId
    requires Ingest(users, points, a1, e1, b1, rt1, w).reply.status == 201
    ensures var o1 := Ingest(users, points, a1, e1, b1, rt1, w);
      var o2 := Ingest(users, o1.points, a2, e2, b2, rt2, w);
      o2.reply == o1.reply && |o2.points| == |o1.points|
  {
    WrittenRowIsFirstCorrelated(users, points, a1, e1, b1, rt1, w, user);
  }

  // ------------------------------------------------------------- a scenario

  function ScenarioUser(): User {
    User(0, "user_1", PlaceholderEmail("user_1"), Some(HashKey("iot-key")), Some(HashKey("cam-key")))
  }

  function CameraRow(): DataPoint {
    Create(0, 0, EmptyPayload.(emotion := Str("fear"), source := Some("camera"), timestamp := Num(1000.0)),
           1000, Some(STRESSED))
  }

  /** A lower-case alias is recognised. */
  lemma FearIsStressed()
    ensures NormalizeEmotion(Str("fear")) == Some(STRESSED)
  {
    TrimFixed("fear");
    assert ToUpperCase("fear") == "FEAR";
  }

  lemma CameraCreatesRow(rt: Runtime)
    ensures Ingest([ScenarioUser()], [], None, Some("cam-key"),
                   Json(EmptyPayload.(emotion := Str("fear"), source := Some("camera"), timestamp := Num(1000.0))),
                   rt, DefaultMergeWindowMs).points == [CameraRow()]
  {
    var u := ScenarioUser();
    var pc := EmptyPayload.(emotion := Str("fear"), source := Some("camera"), timestamp := Num(1000.0));
    FearIsStressed();
    assert ResolveUser([u], None, Some("cam-key")) == Authenticated(0) by {
      assert HoldsKey(u, HashKey("cam-key"));
    }
    assert IncomingTime(pc.timestamp, rt) == Some(1000);
    assert MergeTarget([], 0, pc, Some(1000), DefaultMergeWindowMs) == Fresh;
  }

  /** A reading at the last valid instant: its own date is valid, but the
      window's upper bound is not, so the window query throws and nothing is
      written. */
  lemma EdgeOfTimeFails(rt: Runtime)
    ensures var p := EmptyPayload.(timestamp := Num(MaxTimeMs as real));
      var o := Ingest([ScenarioUser()], [], Some("iot-key"), None, Json(p), rt, DefaultMergeWindowMs);
      && IncomingTime(p.timestamp, rt) == Some(MaxTimeMs)
      && o.reply == Reply(500, ServerError) && o.points == []
  {
    var u := ScenarioUser();
    var p := EmptyPayload.(timestamp := Num(MaxTimeMs as real));
    assert ResolveUser([u], Some("iot-key"), None) == Authenticated(0) by {
      assert HoldsKey(u, HashKey("iot-key"));
    }
    assert IncomingTime(p.timestamp, rt) == Some(MaxTimeMs);
    assert !WindowDates(MaxTimeMs, DefaultMergeWindowMs);
  }

  lemma IotJoinsRow(rt: Runtime)
    ensures var o := Ingest([ScenarioUser()], [CameraRow()], Some("iot-key"), None,
                            Json(EmptyPayload.(heartRate := Num(150.0), source := Some("iot"), timestamp := Num(1004.0))),
                            rt, DefaultMergeWindowMs);
      && |o.points| == 1
      && o.points[0].emotion == Some(STRESSED)
      && o.points[0].heartRate == Some(150)
      && o.points[0].source == Some("camera,iot")
      && o.points[0].timestamp == 1004
  {
    var u := ScenarioUser();
    var row := CameraRow();
    var pi := EmptyPayload.(heartRate := Num(150.0), source := Some("iot"), timestamp := Num(1004.0));
    assert ResolveUser([u], Some("iot-key"), None) == Authenticated(0) by {
      assert HoldsKey(u, HashKey("iot-key"));
    }
    assert IncomingTime(pi.timestamp, rt) == Some(1004);
    assert InWindow(row, 0, 1004, DefaultMergeWindowMs, "iot");
    assert MergeTarget([row], 0, pi, Some(1004), DefaultMergeWindowMs) == ByWindow(0);
    assert NormalizeEmotion(pi.emotion) == None;
    assert JoinSources(Some("camera"), Some("iot")) == "camera,iot";
    assert Round(150.0) == 150;
  }

  /** A camera reading {emotion: "fear", source: "camera", ts: 1000} and an
      IoT reading {heartRate: 150, source: "iot", ts: 1004} for one user fuse
      into one row {emotion: STRESSED, heartRate: 150, source: "camera,iot"}
      stamped with the later time. */
  lemma CameraThenIotFuse(rt: Runtime)
    ensures
      var u := ScenarioUser();
      var camera := Json(EmptyPayload.(emotion := Str("fear"), source := Some("camera"), timestamp := Num(1000.0)));
      var iot := Json(EmptyPayload.(heartRate := Num(150.0), source := Some("iot"), timestamp := Num(1004.0)));
      var o1 := Ingest([u], [], None, Some("cam-key"), camera, rt, DefaultMergeWindowMs);
      var o2 := Ingest([u], o1.points, Some("iot-key"), None, iot, rt, DefaultMergeWindowMs);
      && |o2.points| == 1
      && o2.points[0].emotion == Some(STRESSED)
      && o2.points[0].heartRate == Some(150)
      && o2.points[0].source == Some("camera,iot")
      && o2.points[0].timestamp == 1004
  {
    CameraCreatesRow(rt);
    IotJoinsRow(rt);
  }
}
