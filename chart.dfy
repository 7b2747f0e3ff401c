/** The emotion chart on the dashboard: the rows it plots, loaded once from
    the latest-readings route and extended by realtime envelopes for the
    signed-in user (keeping the last 200), and the points derived from them,
    each with a stress score on the chart's 0..100 axis. */
module EmotionChart {
  import opened Js
  import opened Store
  import opened Sockets
  import EmotionIngest
  import Latest
  import Query

  // ---------------------------------------------------------------- scores

  /** `EMO_SCORE` */
  const ScoreTable: map<string, int> := map[
    "NEUTRAL" := 40, "HAPPY" := 20, "SAD" := 65, "ANGRY" := 75, "STRESSED" := 85]

  /** `scoreFromEmotion`: 50 for a row without an emotion; otherwise the
      table's entry, which always exists and is the score the ingest route
      stored with the reading. */
  function ScoreFromEmotion(e: Option<Emotion>): (s: int)
    ensures e.None? ==> s == 50
    ensures e.Some? ==> EmotionName(e.value) in ScoreTable && s == EmotionIngest.StressScore(e.value)
    ensures 0 <= s <= 100
  {
    if e.None? then 50
    else
      var key := EmotionName(e.value);
      if key in ScoreTable then ScoreTable[key] else 50
  }

  /** The plotted scores, row by row of the caption under the chart. */
  lemma ChartScores()
    ensures ScoreFromEmotion(Some(HAPPY)) == 20 && ScoreFromEmotion(Some(NEUTRAL)) == 40
    ensures ScoreFromEmotion(Some(SAD)) == 65 && ScoreFromEmotion(Some(ANGRY)) == 75
    ensures ScoreFromEmotion(Some(STRESSED)) == 85 && ScoreFromEmotion(None) == 50
  {
  }

  // ------------------------------------------------------------------ rows

  /** A plotted row: the reading's id, time and emotion. */
  datatype Row = Row(id: nat, timestamp: int, emotion: Option<Emotion>)

  function RowOfPoint(p: DataPoint): Row {
    Row(p.id, p.timestamp, p.emotion)
  }

  function RowOfPayload(p: RowPayload): Row {
    Row(p.id, p.timestamp, p.emotion)
  }

  /** The `rows` state: an array, or the non-array object an error reply
      parses to (on which the later `map` and spread throw). An element is
      None when it is the `undefined` that `msg.row` gives for an envelope
      without a row. */
  datatype Rows = Listed(entries: seq<Option<Row>>) | Unlisted

  /** `setRows(await res.json())` with the latest-readings reply: the rows of
      a successful reply, in the order sent, or the error object. The route
      has no `catch`, so its server error is the framework's 500 without a
      JSON body: `res.json()` rejects, `setRows` is never reached, and the
      rows stay as they were. */
  function Loaded(before: Rows, reply: Reply): (r: Rows)
    ensures reply.body == ServerError ==> r == before
    ensures reply.body != ServerError ==> (r.Listed? <==> reply.body.Readings?)
    ensures reply.body.Readings? ==> r.Listed? && |r.entries| == |reply.body.rows|
    ensures reply.body.Readings? ==> forall i :: 0 <= i < |r.entries| ==>
      && r.entries[i].Some?
      && r.entries[i].value.id == reply.body.rows[i].id
      && r.entries[i].value.timestamp == reply.body.rows[i].timestamp
      && r.entries[i].value.emotion == reply.body.rows[i].emotion
  {
    if reply.body == ServerError then before
    else if reply.body.Readings? then Listed(seq(|reply.body.rows|, i requires 0 <= i < |reply.body.rows| => Some(RowOfPoint(reply.body.rows[i]))))
    else Unlisted
  }

  /** `Array.prototype.slice(start)`: a negative start counts back from the
      end, and the result is always a suffix. */
  function Slice<T>(s: seq<T>, start: int): (r: seq<T>)
    ensures start < 0 ==> |r| == (if -start < |s| then -start else |s|)
    ensures start >= 0 ==> |r| == (if start < |s| then |s| - start else 0)
    ensures r == s[|s| - |r|..]
  {
    var from := if start < 0 then (if -start < |s| then |s| + start else 0)
                else (if start < |s| then start else |s|);
    s[from..]
  }

  // -------------------------------------------------------- the socket filter

  /** `msg?.type === "emotion" && msg?.userId && msg?.timestamp` as written:
      it asks for a truthy timestamp at the top level of the envelope. */
  predicate AcceptsAsWritten(msg: Message) {
    msg.kind == Some("emotion") && TruthyText(msg.userId) && msg.timestamp.Some? && msg.timestamp.value != 0
  }

  /** The filter reading the timestamp where the envelope carries it, in
      `row` (a serialised date, so truthy whenever present). */
  predicate Accepts(msg: Message) {
    msg.kind == Some("emotion") && TruthyText(msg.userId) && msg.row.Some?
  }

  /** `if (userId && msg.userId !== userId) return;` */
  predicate ForUser(msg: Message, userId: Option<string>) {
    !TruthyText(userId) || msg.userId == userId
  }

  /** `msg.row`: the row sent, or `undefined`. */
  function RowOfMessage(msg: Message): Option<Row> {
    if msg.row.Some? then Some(RowOfPayload(msg.row.value)) else None
  }

  /** `setRows((prev) => [...prev, x].slice(-200))`: x goes last and the
      newest 200 entries remain; spreading a non-array throws. */
  function Append(rows: Rows, x: Option<Row>): (r: Rows)
    ensures r.Listed? <==> rows.Listed?
    ensures r.Listed? ==>
      var s := rows.entries;
      && |r.entries| == (if |s| < 200 then |s| + 1 else 200)
      && r.entries[|r.entries| - 1] == x
      && r.entries[..|r.entries| - 1] == s[|s| + 1 - |r.entries|..]
  {
    match rows
    case Unlisted => Unlisted
    case Listed(s) =>
      var t := s + [x];
      var r := Slice(t, -200);
      assert r == t[|t| - |r|..];
      assert r[..|r| - 1] == s[|s| + 1 - |r|..];
      Listed(r)
  }

  /** The `onmessage` update of `rows` as written: an envelope that passes
      the filter and is for this user appends whatever `msg.row` is. */
  function Received(rows: Rows, msg: Message, userId: Option<string>): (r: Rows)
    ensures !AcceptsAsWritten(msg) || !ForUser(msg, userId) ==> r == rows
    ensures AcceptsAsWritten(msg) && ForUser(msg, userId) ==> r == Append(rows, RowOfMessage(msg))
  {
    if AcceptsAsWritten(msg) && ForUser(msg, userId) then Append(rows, RowOfMessage(msg)) else rows
  }

  /** The same update with the corrected filter. */
  function ReceivedCorrected(rows: Rows, msg: Message, userId: Option<string>): (r: Rows)
    ensures !Accepts(msg) || !ForUser(msg, userId) ==> r == rows
    ensures Accepts(msg) && ForUser(msg, userId) ==> r == Append(rows, Some(RowOfPayload(msg.row.value)))
  {
    if Accepts(msg) && ForUser(msg, userId) then Append(rows, RowOfMessage(msg)) else rows
  }

  // --------------------------------------------------------------- points

  /** One plotted point: the time, the score and the emotion's name. */
  datatype Point = Point(t: int, score: int, emotion: string)

  function PointOf(r: Row): Point {
    Point(r.timestamp, ScoreFromEmotion(r.emotion), if r.emotion.Some? then EmotionName(r.emotion.value) else "NONE")
  }

  /** `rows.map(...)`: one point per row, in the same order, each score on
      the 0..100 axis, "NONE" exactly for a row without an emotion; None when
      `rows` is not an array, or holds an `undefined` element whose
      `timestamp` read throws. */
  function ChartData(rows: Rows): (d: Option<seq<Point>>)
    ensures d.Some? <==> rows.Listed? && forall i :: 0 <= i < |rows.entries| ==> rows.entries[i].Some?
    ensures d.Some? ==> |d.value| == |rows.entries|
    ensures d.Some? ==> forall i :: 0 <= i < |d.value| ==>
      && d.value[i].t == rows.entries[i].value.timestamp
      && 0 <= d.value[i].score <= 100
      && (d.value[i].emotion == "NONE" <==> rows.entries[i].value.emotion.None?)
      && (rows.entries[i].value.emotion.None? ==> d.value[i].score == 50)
  {
    match rows
    case Unlisted => None
    case Listed(s) =>
      if forall i :: 0 <= i < |s| ==> s[i].Some? then
        Some(seq(|s|, i requires 0 <= i < |s| => PointOf(s[i].value)))
      else None
  }

  // ------------------------------------------------------------ the component

  /** The component's state and its two updates. */
  class Chart {
    var rows: Rows

    /** `useState<Row[]>([])` */
    constructor ()
      ensures rows == Listed([])
    {
      rows := Listed([]);
    }

    /** The initial fetch completing: unless the reply has no JSON body, it
        replaces whatever `rows` held, including rows that arrived over the
        socket first. */
    method LoadInitial(reply: Reply)
      modifies this
      ensures rows == Loaded(old(rows), reply)
    {
      if reply.body != ServerError {
        rows := Loaded(rows, reply);
      }
    }

    /** `ws.onmessage` for a parsed envelope. */
    method OnMessage(msg: Message, userId: Option<string>)
      modifies this
      ensures rows == Received(old(rows), msg, userId)
    {
      if !AcceptsAsWritten(msg) {
        return;
      }
      if TruthyText(userId) && msg.userId != userId {
        return;
      }
      if rows.Listed? {
        rows := Listed(Slice(rows.entries + [RowOfMessage(msg)], -200));
      }
    }
  }

  // -------------------------------------------------------------- properties

  /** An envelope that passes the filter for this user lands at the end of
      the rows, as the row it carries or as `undefined`, and at most 200 rows,
      the newest arrivals, remain. */
  lemma AcceptedAppends(s: seq<Option<Row>>, msg: Message, userId: Option<string>)
    requires AcceptsAsWritten(msg) && ForUser(msg, userId)
    ensures var r := Received(Listed(s), msg, userId).entries;
      && 0 < |r| <= 200
      && r[|r| - 1] == (if msg.row.Some? then Some(RowOfPayload(msg.row.value)) else None)
      && |r| == (if |s| < 200 then |s| + 1 else 200)
      && r[..|r| - 1] == s[|s| + 1 - |r|..]
  {
  }

  /** An envelope that passes the filter but carries no row leaves an
      `undefined` last, and the chart's `map` then throws. */
  lemma MissingRowBreaksChart(rows: Rows, msg: Message, userId: Option<string>)
    requires rows.Listed? && AcceptsAsWritten(msg) && ForUser(msg, userId) && msg.row.None?
    ensures ChartData(Received(rows, msg, userId)).None?
  {
    var r := Received(rows, msg, userId).entries;
    assert r[|r| - 1].None?;
  }

  /** Envelopes for another signed-in user leave the rows as they were, with
      either filter. */
  lemma OtherUsersIgnored(rows: Rows, msg: Message, u: string)
    requires u != "" && msg.userId != Some(u)
    ensures Received(rows, msg, Some(u)) == rows
    ensures ReceivedCorrected(rows, msg, Some(u)) == rows
  {
  }

  /** Neither update lets the rows grow past 200 once they fit. */
  lemma ReceivedBounded(rows: Rows, msg: Message, userId: Option<string>)
    requires rows.Listed? ==> |rows.entries| <= 200
    ensures var r := Received(rows, msg, userId); r.Listed? ==> |r.entries| <= 200
    ensures var r := ReceivedCorrected(rows, msg, userId); r.Listed? ==> |r.entries| <= 200
  {
  }

  /** As written, the filter drops every envelope the emotion ingest route
      broadcasts, since that envelope has no top-level timestamp: the chart
      never updates live. */
  lemma IngestEnvelopesIgnoredAsWritten(users: seq<User>, points: seq<DataPoint>, key: Option<string>, body: Body, rt: Runtime,
                                        rows: Rows, userId: Option<string>)
    ensures var o := EmotionIngest.Ingest(users, points, key, body, rt);
      o.published.Some? ==> !AcceptsAsWritten(o.published.value) && Received(rows, o.published.value, userId) == rows
  {
  }

  /** With the corrected filter, the envelope the ingest route broadcasts for
      a user reaches that user's chart as the newest row. */
  lemma IngestEnvelopeShown(s: seq<Option<Row>>, clerkId: string, row: DataPoint)
    requires clerkId != ""
    ensures var r := ReceivedCorrected(Listed(s), EmotionIngest.Envelope(clerkId, row), Some(clerkId));
      r.Listed? && r.entries[|r.entries| - 1] == Some(RowOfPoint(row))
  {
  }

  /** The initial fetch asks for `limit=50`: a successful load holds at most
      50 rows, oldest first, and every score the chart plots is the one the
      ingest route would store for that emotion. */
  lemma InitialLoad(users: seq<User>, points: seq<DataPoint>, clerkId: Option<string>, rt: Runtime, before: Rows)
    requires rt.parseNumber("50") == Some(50.0)
    ensures var o := Latest.LatestAsWritten(users, points, clerkId, Some("50"), rt);
      var r := Loaded(before, o.reply);
      o.reply.body.Readings? ==>
        && |r.entries| <= 50
        && (forall i :: 0 <= i < |r.entries| ==> r.entries[i].Some? && r.entries[i].value.emotion.Some?)
        && (forall i, j :: 0 <= i < j < |r.entries| ==> r.entries[i].value.timestamp <= r.entries[j].value.timestamp)
  {
    var o := Latest.LatestAsWritten(users, points, clerkId, Some("50"), rt);
    assert o == Latest.LatestReadings(users, points, clerkId, Some("50"), rt);
    if o.reply.body.Readings? {
      Latest.LatestReadingsSpec(users, points, clerkId, Some("50"), rt);
      var rows := o.reply.body.rows;
      var r := Loaded(before, o.reply);
      forall i | 0 <= i < |r.entries|
        ensures r.entries[i].Some? && r.entries[i].value.emotion.Some?
      {
        assert rows[i] in rows;
      }
    }
  }
}
