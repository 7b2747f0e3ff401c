/** The camera-only ingest route: an emotion key resolved against the emotion
    slot alone, a label lower-cased and looked up in a nine-entry table with
    STRESSED for anything else (except the names the table inherits, which
    make the create fail), a timestamp read as epoch seconds, a stress score
    from a five-entry table, and one new row followed by one realtime
    envelope. */
module EmotionIngest {
  import opened Js
  import opened Store
  import opened Sockets
  import Realtime
  import Query

  // ---------------------------------------------------------------- labels

  /** `EMOTION_MAP`: its own entries. */
  const EmotionMap: map<string, Emotion> := map[
    "happy" := HAPPY, "neutral" := NEUTRAL, "sad" := SAD, "angry" := ANGRY,
    "fear" := STRESSED, "disgust" := STRESSED, "surprise" := STRESSED,
    "stress" := STRESSED, "stressed" := STRESSED]

  /** Indexing the table: an own entry, an inherited member, or undefined. */
  datatype Lookup = Own(emotion: Emotion) | Inherited | Absent

  function LookupLabel(key: string): Lookup {
    if key in EmotionMap then Own(EmotionMap[key])
    else if key in ObjectPrototypeKeys then Inherited
    else Absent
  }

  /** `EMOTION_MAP[emotion.toLowerCase()] ?? "STRESSED"` as written: None
      where the lookup yields an inherited member, which `??` keeps and
      the store then rejects as no value of the enumeration. */
  function NormalizeAsWritten(s: string): Option<Emotion> {
    match LookupLabel(ToLowerCase(s))
    case Own(e) => Some(e)
    case Inherited => None
    case Absent => Some(STRESSED)
  }

  /** The normalisation as intended: the table's own entries, STRESSED for
      everything else. */
  function NormalizeLabel(s: string): Emotion {
    var key := ToLowerCase(s);
    if key in EmotionMap then EmotionMap[key] else STRESSED
  }

  /** As written, a label naming an inherited member in any case is not
      turned into an emotion, though it is no key of the table. */
  lemma PrototypeLabelsEscapeFallback()
    ensures "constructor" !in EmotionMap && "__proto__" !in EmotionMap
    ensures NormalizeAsWritten("constructor") == None
    ensures NormalizeAsWritten("Constructor") == None
    ensures NormalizeAsWritten("__proto__") == None
    ensures NormalizeLabel("Constructor") == STRESSED
  {
    assert ToLowerCase("constructor") == "constructor";
    assert ToLowerCase("Constructor") == "constructor";
    assert ToLowerCase("__proto__") == "__proto__";
  }

  /** The intended normalisation differs from the written one only where the
      written one yields no emotion. */
  lemma NormalizeLabelCorrectsOnlyPrototypeNames(s: string)
    ensures NormalizeAsWritten(s).Some? ==> NormalizeAsWritten(s) == Some(NormalizeLabel(s))
    ensures NormalizeAsWritten(s).None? <==> ToLowerCase(s) in ObjectPrototypeKeys
  {
  }

  lemma {:induction false} LowerIgnoresCase(s: string, t: string)
    requires SameUpToCase(s, t)
    ensures ToLowerCase(s) == ToLowerCase(t)
  {
    if s != [] {
      assert FoldCase(s[0]) == FoldCase(t[0]);
      assert SameUpToCase(s[1..], t[1..]) by {
        forall i | 0 <= i < |s| - 1 ensures FoldCase(s[1..][i]) == FoldCase(t[1..][i]) {
          assert FoldCase(s[i + 1]) == FoldCase(t[i + 1]);
        }
      }
      LowerIgnoresCase(s[1..], t[1..]);
    }
  }

  /** Labels differing only in the case of ASCII letters normalise alike. */
  lemma NormalizeLabelIgnoresCase(s: string, t: string)
    requires SameUpToCase(s, t)
    ensures NormalizeLabel(s) == NormalizeLabel(t)
  {
    LowerIgnoresCase(s, t);
  }

  /** Every enumeration name, in any case, normalises to its own value. */
  lemma NormalizeLabelRoundTrip(e: Emotion)
    ensures NormalizeLabel(EmotionName(e)) == e
  {
    match e
    case HAPPY => assert ToLowerCase("HAPPY") == "happy";
    case NEUTRAL => assert ToLowerCase("NEUTRAL") == "neutral";
    case SAD => assert ToLowerCase("SAD") == "sad";
    case ANGRY => assert ToLowerCase("ANGRY") == "angry";
    case STRESSED => assert ToLowerCase("STRESSED") == "stressed";
  }

  /** A label outside the table becomes STRESSED. */
  lemma UnknownLabelIsStressed(s: string)
    requires ToLowerCase(s) !in EmotionMap
    ensures NormalizeLabel(s) == STRESSED
    ensures ToLowerCase(s) !in ObjectPrototypeKeys ==> NormalizeAsWritten(s) == Some(STRESSED)
  {
  }

  // ---------------------------------------------------------------- scores

  /** `SCORE` */
  const ScoreTable: map<string, int> := map[
    "HAPPY" := 20, "NEUTRAL" := 40, "SAD" := 65, "ANGRY" := 75, "STRESSED" := 85]

  /** `SCORE[normalized] ?? 50`: every emotion has an entry, so the fallback
      is never taken, and every score lies in 0..100. */
  function StressScore(e: Emotion): (s: int)
    ensures EmotionName(e) in ScoreTable && s == ScoreTable[EmotionName(e)]
    ensures 0 <= s <= 100
  {
    var key := EmotionName(e);
    if key in ScoreTable then ScoreTable[key] else 50
  }

  /** The score grows with distress: HAPPY < NEUTRAL < SAD < ANGRY < STRESSED. */
  lemma ScoresOrdered()
    ensures StressScore(HAPPY) < StressScore(NEUTRAL) < StressScore(SAD) < StressScore(ANGRY) < StressScore(STRESSED)
  {
  }

  // ------------------------------------------------------------ timestamps

  /** `let ts = new Date()`, replaced by `new Date(timestamp * 1000)` for a
      number and by the parsed date for a string that parses; None is the
      invalid date a number out of range gives. */
  function ReadingTime(timestamp: Value, rt: Runtime): Option<int> {
    match timestamp
    case Num(n) => DateOfNumber(n * 1000.0)
    case Str(s) => if rt.parseDate(s).Some? then rt.parseDate(s) else Some(rt.now)
    case _ => Some(rt.now)
  }

  // ------------------------------------------------------- key resolution

  /** The first user whose emotion slot holds the key's hash. */
  function ResolveKey(users: seq<User>, key: Option<string>): (r: Auth)
    ensures r == MissingKey <==> !TruthyText(key)
    ensures r.Authenticated? ==> r.user < |users| && users[r.user].emotionKeyHash == Some(HashKey(key.value))
    ensures r.Authenticated? ==> forall j :: 0 <= j < r.user ==> users[j].emotionKeyHash != Some(HashKey(key.value))
    ensures r == InvalidKey ==> forall j :: 0 <= j < |users| ==> users[j].emotionKeyHash != Some(HashKey(key.value))
  {
    if !TruthyText(key) then MissingKey
    else
      var h := HashKey(key.value);
      match Query.FirstWhere(users, (u: User) => u.emotionKeyHash == Some(h))
      case Some(i) => Authenticated(i)
      case None => InvalidKey
  }

  // ------------------------------------------------------------- the route

  /** The envelope broadcast after a create. */
  function Envelope(clerkId: string, row: DataPoint): Message {
    Message(Some("emotion"), Some(clerkId), None,
            Some(RowPayload(row.id, row.timestamp, row.emotion, row.stressScore)))
  }

  /** The row `dataPoint.create` inserts. */
  function EmotionRow(id: nat, user: nat, e: Emotion, ts: int): DataPoint {
    NewPoint(id, user, ts).(emotion := Some(e), stressScore := Some(StressScore(e)))
  }

  datatype Outcome = Outcome(reply: Reply, points: seq<DataPoint>, published: Option<Message>)

  /** The route as one atomic step over the readings table. A label naming
      an inherited member, like an invalid date, makes `dataPoint.create`
      throw, and the handler answers 500. */
  function Ingest(users: seq<User>, points: seq<DataPoint>, key: Option<string>, body: Body, rt: Runtime): Outcome {
    match ResolveKey(users, key)
    case MissingKey => Outcome(Reply(401, Failure("Missing X-Emotion-Key")), points, None)
    case InvalidKey => Outcome(Reply(401, Failure("Invalid key")), points, None)
    case Authenticated(user) =>
      if body.Unparseable? then Outcome(Reply(500, Failure("Server error")), points, None)
      else
        var p := if body.Json? then body.fields else EmptyPayload;
        if !p.emotion.Str? || p.emotion.s == "" then Outcome(Reply(400, Failure("emotion required")), points, None)
        else
          var e := NormalizeAsWritten(p.emotion.s);
          var ts := ReadingTime(p.timestamp, rt);
          if e.None? || ts.None? then Outcome(Reply(500, Failure("Server error")), points, None)
          else
            var row := EmotionRow(|points|, user, e.value, ts.value);
            Outcome(Reply(201, Accepted), points + [row], Some(Envelope(users[user].clerkId, row)))
  }

  function PublishedSeq(o: Outcome): seq<Message> {
    if o.published.Some? then [o.published.value] else []
  }

  /** `POST /api/emotion/ingest`. `open` and `failing` describe the
      subscribers at the moment of the broadcast. */
  method Post(db: Database, hub: Realtime.Hub, key: Option<string>, body: Body, rt: Runtime,
              open: set<Client>, failing: set<Client>) returns (reply: Reply)
    requires db.Valid() && hub.Valid()
    modifies db, hub, hub.Target()
    ensures db.Valid() && db.users == old(db.users) && hub.Valid()
    ensures var o := Ingest(old(db.users), old(db.points), key, body, rt);
      && reply == o.reply && db.points == o.points
      && hub.published == old(hub.published) + PublishedSeq(o)
      && (o.published.Some? ==>
            && hub.Target().members == Survivors(old(hub.Target().members), open, failing)
            && hub.Target().outbox
               == old(hub.Target().outbox) + Deliveries(old(hub.Target().members), o.published.value, open, failing))
      && (o.published.None? ==> unchanged(hub.Target()))
  {
    ghost var users0, points0 := db.users, db.points;
    var auth := ResolveKey(db.users, key);
    if auth == MissingKey {
      return Reply(401, Failure("Missing X-Emotion-Key"));
    } else if auth == InvalidKey {
      return Reply(401, Failure("Invalid key"));
    }
    var user := auth.user;
    if body.Unparseable? {
      return Reply(500, Failure("Server error"));
    }
    var p := if body.Json? then body.fields else EmptyPayload;
    if !p.emotion.Str? || p.emotion.s == "" {
      return Reply(400, Failure("emotion required"));
    }
    var normalized := NormalizeAsWritten(p.emotion.s);
    var ts: Option<int> := Some(rt.now);
    if p.timestamp.Num? {
      ts := DateOfNumber(p.timestamp.n * 1000.0);
    }
    if p.timestamp.Str? {
      var maybe := rt.parseDate(p.timestamp.s);
      if maybe.Some? {
        ts := maybe;
      }
    }
    if normalized.None? || ts.None? {
      return Reply(500, Failure("Server error"));
    }
    var row := EmotionRow(|db.points|, user, normalized.value, ts.value);
    db.points := db.points + [row];
    hub.Broadcast(Envelope(db.users[user].clerkId, row), open, failing);
    reply := Reply(201, Accepted);
    IngestWellFormed(users0, points0, key, body, rt);
  }

  // -------------------------------------------------------------- properties

  lemma IngestWellFormed(users: seq<User>, points: seq<DataPoint>, key: Option<string>, body: Body, rt: Runtime)
    requires WellFormed(users, points)
    ensures WellFormed(users, Ingest(users, points, key, body, rt).points)
  {
    var o := Ingest(users, points, key, body, rt);
    if o.points != points {
      assert forall i :: 0 <= i < |points| ==> o.points[i] == points[i];
    }
  }

  /** Only the emotion slot authenticates: a key held only in a user's IoT
      slot is refused. */
  lemma OnlyEmotionSlotAuthenticates(users: seq<User>, k: string)
    requires k != ""
    requires forall j :: 0 <= j < |users| ==> users[j].emotionKeyHash != Some(HashKey(k))
    ensures ResolveKey(users, Some(k)) == InvalidKey
  {
  }

  /** A request that is not accepted writes nothing and publishes nothing. */
  lemma RejectedChangesNothing(users: seq<User>, points: seq<DataPoint>, key: Option<string>, body: Body, rt: Runtime)
    requires Ingest(users, points, key, body, rt).reply.status != 201
    ensures var o := Ingest(users, points, key, body, rt);
      o.points == points && o.published.None?
  {
  }

  /** With a good key and a parseable body, 400 is answered exactly when the
      emotion is not a non-empty string. */
  lemma MissingEmotionIs400(users: seq<User>, points: seq<DataPoint>, key: Option<string>, body: Body, rt: Runtime)
    requires ResolveKey(users, key).Authenticated? && !body.Unparseable?
    ensures var p := if body.Json? then body.fields else EmptyPayload;
      Ingest(users, points, key, body, rt).reply.status == 400 <==> !(p.emotion.Str? && p.emotion.s != "")
  {
  }

  /** An accepted request appends exactly one row, never merges, stores a
      table emotion with its score, and publishes one envelope that names the
      user by clerk id and carries the stored row. */
  lemma AcceptedCreatesAndPublishes(users: seq<User>, points: seq<DataPoint>, key: Option<string>, body: Body, rt: Runtime)
    requires Ingest(users, points, key, body, rt).reply.status == 201
    ensures var o := Ingest(users, points, key, body, rt);
      var p := if body.Json? then body.fields else EmptyPayload;
      var user := ResolveKey(users, key).user;
      && ResolveKey(users, key).Authenticated?
      && o.reply == Reply(201, Accepted)
      && |o.points| == |points| + 1 && o.points[..|points|] == points
      && var row := o.points[|points|];
      && row.id == |points| && row.userId == user
      && row.emotion == NormalizeAsWritten(p.emotion.s) == Some(NormalizeLabel(p.emotion.s))
      && row.stressScore == Some(StressScore(row.emotion.value))
      && Some(row.timestamp) == ReadingTime(p.timestamp, rt)
      && row.heartRate.None? && row.spO2.None? && row.source.None? && row.correlationId.None?
      && o.published == Some(Message(Some("emotion"), Some(users[user].clerkId), None,
                                     Some(RowPayload(row.id, row.timestamp, row.emotion, row.stressScore))))
  {
    var o := Ingest(users, points, key, body, rt);
    var p := if body.Json? then body.fields else EmptyPayload;
    assert o.points[..|points|] == points;
    NormalizeLabelCorrectsOnlyPrototypeNames(p.emotion.s);
  }

  /** As written, a label naming an inherited member of the table, in any
      case, is answered with 500: no row is written and nothing is
      published, where the intended fallback would store STRESSED. */
  lemma PrototypeLabelIsServerError(users: seq<User>, points: seq<DataPoint>, key: Option<string>, s: string, rt: Runtime)
    requires ResolveKey(users, key).Authenticated?
    requires ToLowerCase(s) in ObjectPrototypeKeys && s != ""
    ensures var o := Ingest(users, points, key, Json(EmptyPayload.(emotion := Str(s))), rt);
      o.reply == Reply(500, Failure("Server error")) && o.points == points && o.published.None?
    ensures NormalizeLabel(s) == STRESSED
  {
    NormalizeLabelCorrectsOnlyPrototypeNames(s);
  }
}
