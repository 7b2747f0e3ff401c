/** The persisted state the routes share: users with their two key-hash slots,
    and the readings table (DataPoint rows). The store is a pair of tables in
    insertion order, a row's id being its position. */
module Store {
  import opened Js
  import Query

  /** The five-value emotion enumeration of the schema. */
  datatype Emotion = HAPPY | NEUTRAL | SAD | ANGRY | STRESSED

  function EmotionName(e: Emotion): string {
    match e
    case HAPPY => "HAPPY"
    case NEUTRAL => "NEUTRAL"
    case SAD => "SAD"
    case ANGRY => "ANGRY"
    case STRESSED => "STRESSED"
  }

  /** The hex SHA-256 digest of a key. Only equality of digests is observed,
      and the digest is injective: it determines the key it was made from. */
  datatype Digest = Sha256Hex(preimage: string)

  function HashKey(key: string): (d: Digest)
    ensures d.preimage == key
  {
    Sha256Hex(key)
  }

  datatype User = User(
    id: nat,
    clerkId: string,
    email: string,
    apiKeyHash: Option<Digest>,
    emotionKeyHash: Option<Digest>)

  datatype DataPoint = DataPoint(
    id: nat,
    userId: nat,
    timestamp: int,
    heartRate: Option<int>,
    spO2: Option<real>,
    emotion: Option<Emotion>,
    confidence: Option<real>,
    stressScore: Option<int>,
    source: Option<string>,
    deviceId: Option<string>,
    correlationId: Option<string>)

  /** A new row with every optional column null. */
  function NewPoint(id: nat, userId: nat, timestamp: int): DataPoint {
    DataPoint(id, userId, timestamp, None, None, None, None, None, None, None, None)
  }

  /** The result of resolving a presented device key to a user. */
  datatype Auth = MissingKey | InvalidKey | Authenticated(user: nat)

  /** An HTTP reply: the status and the JSON body. */
  datatype Reply = Reply(status: int, body: ReplyBody)

  datatype ReplyBody =
    | Failure(error: string)
    | ServerError             // a thrown error, reported with its own message
    | Created(id: nat)        // { ok: true, id }
    | Accepted                // { ok: true }
    | IssuedKey(apiKey: string)
    | Readings(rows: seq<DataPoint>)
    | Support(dominantEmotion: string)

  /** Ids are positions, clerk ids are unique, and every row belongs to a user. */
  ghost predicate WellFormed(users: seq<User>, points: seq<DataPoint>) {
    && (forall i :: 0 <= i < |users| ==> users[i].id == i)
    && (forall i, j :: 0 <= i < j < |users| ==> users[i].clerkId != users[j].clerkId)
    && (forall i :: 0 <= i < |points| ==> points[i].id == i && points[i].userId < |users|)
  }

  /** The user and readings tables. */
  class Database {
    var users: seq<User>
    var points: seq<DataPoint>

    ghost predicate Valid()
      reads this
    {
      WellFormed(users, points)
    }

    constructor ()
      ensures Valid() && users == [] && points == []
    {
      users := [];
      points := [];
    }
  }

  function PlaceholderEmail(clerkId: string): string {
    clerkId + "@placeholder.local"
  }

  /** `user.upsert({ where: { clerkId }, update: {}, create: { clerkId, email } })`:
      the table afterwards and the position of the user with this clerk id. */
  function Upsert(users: seq<User>, clerkId: string): (r: (seq<User>, nat))
    ensures r.1 < |r.0| && r.0[r.1].clerkId == clerkId
    ensures r.1 < |users| ==> r.0 == users && forall j :: 0 <= j < r.1 ==> users[j].clerkId != clerkId
    ensures r.1 == |users| ==>
      && (forall i :: 0 <= i < |users| ==> users[i].clerkId != clerkId)
      && r.0 == users + [User(|users|, clerkId, PlaceholderEmail(clerkId), None, None)]
  {
    match Query.FirstWhere(users, (u: User) => u.clerkId == clerkId)
    case Some(i) => (users, i)
    case None => (users + [User(|users|, clerkId, PlaceholderEmail(clerkId), None, None)], |users|)
  }

  /** An upsert keeps the tables well formed and an existing user found. */
  lemma UpsertWellFormed(users: seq<User>, points: seq<DataPoint>, clerkId: string)
    requires WellFormed(users, points)
    ensures WellFormed(Upsert(users, clerkId).0, points)
    ensures forall i :: 0 <= i < |users| && users[i].clerkId == clerkId ==> Upsert(users, clerkId).1 == i
  {
    var r := Upsert(users, clerkId);
    if r.1 == |users| {
      var us := r.0;
      assert forall i :: 0 <= i < |users| ==> us[i] == users[i];
    }
  }

  /** Replacing one user's key-hash slots keeps the tables well formed. */
  lemma SetHashesWellFormed(users: seq<User>, points: seq<DataPoint>, i: nat, u: User)
    requires WellFormed(users, points) && i < |users|
    requires u.id == users[i].id && u.clerkId == users[i].clerkId
    ensures WellFormed(users[i := u], points)
  {
  }
}
