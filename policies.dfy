/** Where the three ingest routes part ways on the same input: which key
    slots they accept, how they read a label, a numeric timestamp and an
    out-of-range heart rate. */
module Policies {
  import opened Js
  import opened Store
  import Ingest
  import EmotionIngest
  import IotIngest

  /** The unified route accepts a non-empty key exactly when one of the two
      single-source routes does, and never resolves it to a later user. */
  lemma UnifiedAcceptsEitherSlot(users: seq<User>, k: string)
    ensures var u := Ingest.ResolveUser(users, Some(k), None);
      var iot := IotIngest.ResolveKey(users, Some(k));
      var emo := EmotionIngest.ResolveKey(users, Some(k));
      && (u.Authenticated? <==> iot.Authenticated? || emo.Authenticated?)
      && (u.Authenticated? && iot.Authenticated? ==> u.user <= iot.user)
      && (u.Authenticated? && emo.Authenticated? ==> u.user <= emo.user)
  {
    var u := Ingest.ResolveUser(users, Some(k), None);
    var iot := IotIngest.ResolveKey(users, Some(k));
    var emo := EmotionIngest.ResolveKey(users, Some(k));
    if iot.Authenticated? {
      assert Ingest.HoldsKey(users[iot.user], HashKey(k));
    }
    if emo.Authenticated? {
      assert Ingest.HoldsKey(users[emo.user], HashKey(k));
    }
  }

  /** A label neither table knows is dropped by the unified route; the
      emotion route stores it as STRESSED, unless it names an inherited
      member, which the emotion route cannot store at all. */
  lemma UnknownLabelDiverges(s: string)
    requires ToUpperCase(Trim(s)) !in Ingest.Labels && ToLowerCase(s) !in EmotionIngest.EmotionMap
    ensures Ingest.NormalizeEmotion(Str(s)).None?
    ensures EmotionIngest.NormalizeAsWritten(s)
            == if ToLowerCase(s) in ObjectPrototypeKeys then None else Some(STRESSED)
  {
    Ingest.NormalizeMatchesLabels(Str(s));
  }

  /** Only the unified route trims: an enumeration name after a space is
      that emotion there and, being no key of its table, STRESSED on the
      emotion route. */
  lemma PaddedLabelDiverges(e: Emotion)
    ensures Ingest.NormalizeEmotion(Str(" " + EmotionName(e))) == Some(e)
    ensures EmotionIngest.NormalizeAsWritten(" " + EmotionName(e)) == Some(STRESSED)
  {
    var name := EmotionName(e);
    Ingest.NormalizeIgnoresPadding(" ", name, "");
    assert " " + name + "" == " " + name;
    Ingest.NormalizeRoundTrip(e);
    var padded := " " + name;
    var key := ToLowerCase(padded);
    assert key[0] == ' ';
    assert key !in EmotionIngest.EmotionMap by {
      assert forall k :: k in EmotionIngest.EmotionMap ==> k[0] != ' ';
    }
    PrototypeKeysUnpadded(key);
    EmotionIngest.NormalizeLabelCorrectsOnlyPrototypeNames(padded);
  }

  /** A numeric timestamp is epoch milliseconds on the unified and IoT
      routes and epoch seconds on the emotion route. */
  lemma NumericTimestampUnits(n: real, rt: Runtime)
    requires n != 0.0
    ensures Ingest.IncomingTime(Num(n), rt) == DateOfNumber(n)
    ensures EmotionIngest.ReadingTime(Num(n), rt) == DateOfNumber(n * 1000.0)
    ensures DateOfNumber(n).Some? ==> IotIngest.ReadingTime(Num(n), rt) == DateOfNumber(n).value
  {
  }

  /** A timestamp of 0 is falsy: the unified route reads it as absent and
      uses the server time, while the other two store the epoch itself. */
  lemma ZeroTimestampDiverges(rt: Runtime)
    ensures Ingest.IncomingTime(Num(0.0), rt) == Some(rt.now)
    ensures EmotionIngest.ReadingTime(Num(0.0), rt) == Some(0)
    ensures IotIngest.ReadingTime(Num(0.0), rt) == 0
  {
    assert DateOfNumber(0.0) == Some(0);
  }

  /** A heart rate of 300 is stored, rounded, by the unified route's create
      and dropped by the IoT route's bounds check. */
  lemma OutOfRangeHeartRateDiverges(id: nat, user: nat, body: Payload, ts: int, emotion: Option<Emotion>)
    requires body.heartRate == Num(300.0)
    ensures Ingest.Create(id, user, body, ts, emotion).heartRate == Some(300)
    ensures IotIngest.CheckedHeartRate(body.heartRate).None?
  {
    assert Round(300.0) == 300;
  }
}
