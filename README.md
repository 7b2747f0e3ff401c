# MindEase ingestion and correlation core, in Dafny

MindEase is a Next.js application that collects two kinds of wellbeing
readings: physiological readings from IoT devices (heart rate, SpO2) and
emotions from a camera-side classifier. Devices authenticate with per-user
keys that the signed-in user issues and rotates. Readings are stored as rows
of one table. The unified ingest route can fuse a camera reading and an IoT
reading into one row by correlation id or by a time window. New emotions are
pushed to dashboards over a WebSocket registry. A chart on the dashboard and
two read-back routes (latest readings, a support summary) consume the rows.

This project models that core as Dafny values, functions, classes and
methods, and proves what each part promises:

- `js.dfy` (`Js`): the JavaScript semantics the routes rely on. It covers
  truthiness, `Math.round`, `new Date(number)`, `trim`, `toUpperCase` and
  `toLowerCase`, and the names a plain object inherits.
- `store.dfy` (`Store`): the user and reading tables, the reply shapes and
  the user upsert. `query.dfy` (`Query`): `findFirst`, `findFirst` ordered
  descending, `orderBy desc` as a stable sort, and `reverse`, all as pure
  functions over a table.
- `ingest.dfy` (`Ingest`): the unified ingest route. It covers key
  resolution across both slots, label normalisation, the merge-target
  search, the field-level merge and the create defaults.
- `emotion_ingest.dfy` (`EmotionIngest`) and `iot_ingest.dfy` (`IotIngest`):
  the two single-source ingest routes. `policies.dfy` (`Policies`) states
  where the three ingest routes differ on the same input.
- `key_issue.dfy` (`KeyIssue`): the two key-issuing routes, as one
  credential state machine over the two hash slots.
- `sockets.dfy` (`Sockets`), `realtime.dfy` (`Realtime`) and `server.dfy`
  (`Server`): the subscriber registry with its broadcast loop, the realtime
  library's delegation, and the custom server's upgrade dispatch.
- `latest.dfy` (`Latest`), `support.dfy` (`Support`) and `chart.dfy`
  (`EmotionChart`): the latest-readings route, the label tally and dominant
  label of the support route, and the dashboard chart's state.

State that the source changes in place is modelled as classes:
`Store.Database`, `Sockets.ClientSet`, `Realtime.Hub`, `Server.WsServer` and
`EmotionChart.Chart`. The ingest, key and latest-readings routes are methods
over the database, each proved equal to a pure function of the old state
(`Latest.Get` to `Latest.LatestAsWritten`, whose outcome carries the upserted
user table). `Support.Post` is a method over the request alone, since its one
database read is not modelled. The lemmas state the properties of those pure
functions.

Modelling conventions:

- Timestamps are integer epoch milliseconds.
- The server clock, `Date` string parsing and `Number(string)` are the
  fields of a `Runtime` parameter.
- SHA-256 is an injective digest (`Store.HashKey`). A freshly generated
  key is a parameter.
- A socket's readiness is the set `open`. A send that throws is the set
  `failing`.
- A request is one atomic step over the tables.
- The route handlers and the chart behave as the code is written, including
  the defects listed under "## Findings". The corrected behaviour is a
  separate function beside the written one, and the findings' lemmas
  compare the two.
- Where the language leaves a result to the engine (a sort whose comparator
  is inconsistent), the engine's pick is a parameter.

## Model

| member | source | states |
|---|---|---|
| `Js.Round` | app/api/iot/ingest/route.ts:29 | `Math.round` gives the integer within half of x, halves rounding up |
| `Js.DateOfNumber` | app/api/iot/ingest/route.ts:44 | `new Date(x)` is valid exactly when \|x\| ≤ 8.64e15, and then its time is x truncated toward zero |
| `Js.ToLowerCase` | app/api/emotion/ingest/route.ts:47 | the result holds no ASCII capital and equals the input up to the case of ASCII letters, except that the Kelvin sign becomes "k" |
| `Js.TrimDropsPadding` | app/api/ingest/route.ts:14 | `trim` removes any surrounding whitespace and nothing else |
| `Js.TrimUpperIgnoresCase` | app/api/ingest/route.ts:14 | trim then upper-case gives the same text for inputs equal up to ASCII case |
| `Store.HashKey` | app/api/iot/key/route.ts:10-12 | the digest determines the key it was made from |
| `Store.Upsert` | app/api/iot/key/route.ts:19-23 | the result has the clerk id; an existing user is returned unchanged with the table untouched; otherwise one user with the placeholder email is appended |
| `Store.UpsertWellFormed` | app/api/emotion/key/route.ts:17-21 | the upsert keeps ids positional and clerk ids unique, and finds the existing user |
| `Store.SetHashesWellFormed` | app/api/iot/key/route.ts:29-32 | rewriting a user's hash columns keeps the tables well formed |
| `Query.FirstWhere` | app/api/iot/ingest/route.ts:21 | `findFirst` gives the lowest matching index, or None when no row matches |
| `Query.MaxWhere` | app/api/ingest/route.ts:87-97 | ordered `findFirst` gives a matching row whose key no matching row exceeds, or None when none matches |
| `Query.Where` | app/api/emotion/latest/route.ts:19 | the filter keeps exactly the rows that satisfy the predicate |
| `Query.SortDesc` | app/api/emotion/latest/route.ts:20 | `orderBy desc` gives a permutation of the rows sorted by descending key |
| `Query.SortDescHead` | app/api/get-support/route.ts:29 | the stable sort starts with the first element of largest key |
| `Query.PrefixHoldsLargest` | app/api/emotion/latest/route.ts:21 | a `take` prefix of a descending order holds the largest keys |
| `Query.Reverse` | app/api/emotion/latest/route.ts:24 | `reverse` keeps the length, and element k is input element n-1-k |
| `Query.ReverseMultiset` | app/api/emotion/latest/route.ts:24 | `reverse` keeps exactly the same rows, with their multiplicities |
| `Query.ReverseDescending` | app/api/emotion/latest/route.ts:24 | reversing a descending sequence makes it ascending |
| `Ingest.NormalizeMatchesLabels` | app/api/ingest/route.ts:12-37 | `normalizeEmotion` succeeds exactly on non-empty strings whose trimmed, upper-cased text is one of the twelve labels, and gives that label's emotion |
| `Ingest.NormalizeIgnoresCase` | app/api/ingest/route.ts:14 | labels equal up to ASCII case normalise alike |
| `Ingest.NormalizeIgnoresPadding` | app/api/ingest/route.ts:14 | surrounding whitespace does not change the result |
| `Ingest.NormalizeRoundTrip` | app/api/ingest/route.ts:17-34 | each enumeration name normalises to its own value |
| `Ingest.FearIsStressed` | app/api/ingest/route.ts:26-33 | the lower-case alias "fear" is STRESSED |
| `Ingest.ResolveUser` | app/api/ingest/route.ts:42-58 | missing iff the presented key (`x-api-key ?? x-emotion-key`) is empty or absent; otherwise the first user holding its digest in either slot, or invalid when none does |
| `Ingest.EmptyApiKeyHidesEmotionKey` | app/api/ingest/route.ts:42-46 | an empty `x-api-key` is missing even when `x-emotion-key` is valid |
| `Ingest.ApiKeyTakesPrecedence` | app/api/ingest/route.ts:42-43 | a present `x-api-key` decides resolution whatever `x-emotion-key` holds |
| `Ingest.UnauthenticatedWritesNothing` | app/api/ingest/route.ts:44-58 | an unresolved key gives 401 and no row changes |
| `Ingest.CorrelationMatch` | app/api/ingest/route.ts:78-83 | with a correlation id, the first row of the user carrying it; None means no such row |
| `Ingest.WindowMatch` | app/api/ingest/route.ts:85-98 | a row of the user within [ts-w, ts+w] whose non-null source differs from the incoming one, and no such row is later; None when none qualifies |
| `Ingest.MergeTarget` | app/api/ingest/route.ts:75-98 | the correlation match when there is one; otherwise the window match, searched only when the reading time and both window bounds `ts ± w` are valid dates; the query throws otherwise |
| `Ingest.WindowBeyondDatesFails` | app/api/ingest/route.ts:86-98 | with no correlated row and a window bound outside the Date range, the reply is 500 and the table is unchanged |
| `Ingest.CorrelationIdWins` | app/api/ingest/route.ts:79-84 | a row with the correlation id makes the first such row the target, whatever the window holds |
| `Ingest.WindowOnlyAfterCorrelationMiss` | app/api/ingest/route.ts:86-97 | a window target means no row carries the correlation id, and it is the latest qualifying row |
| `Ingest.UpdateData` | app/api/ingest/route.ts:104-124 | the field-by-field `updateData` build equals the merged row |
| `Ingest.MergeEffect` | app/api/ingest/route.ts:102-129 | only the target row changes: the later timestamp, the joined sources, and device id, correlation id, numbers and emotion replaced only when given; owner, id, score and row count kept; 201 with its id |
| `Ingest.CreateEffect` | app/api/ingest/route.ts:137-157 | with no target, one row is appended with the next id, the user, the timestamp, the normalised emotion and the defaulted source ("iot" when heartRate or spO2 is truthy, else "camera") |
| `Ingest.IngestWellFormed` | app/api/ingest/route.ts:126-152 | every outcome keeps ids positional and every row owned by a user |
| `Ingest.Post` | app/api/ingest/route.ts:39-165 | the handler's reply and new table equal the route function's, and the users are unchanged |
| `Ingest.Write` | app/api/ingest/route.ts:102-155 | the found row is replaced by its merge, or one created row is appended; the reply carries the row's id |
| `Ingest.CorrelationConverges` | app/api/ingest/route.ts:78-152 | after an accepted ingest with correlation id c, the user has exactly one row with c if there was none, and no new one otherwise |
| `Ingest.WrittenRowIsFirstCorrelated` | app/api/ingest/route.ts:78-152 | the row the ingest wrote is then the first row carrying its correlation id |
| `Ingest.RepeatedCorrelationMergesSameRow` | app/api/ingest/route.ts:78-152 | repeating an ingest with the same correlation id merges into the same row and adds none |
| `Ingest.CameraCreatesRow` | app/api/ingest/route.ts:137-152 | a camera reading on an empty table creates the expected row |
| `Ingest.IotJoinsRow` | app/api/ingest/route.ts:102-129 | an IoT reading 4 ms later merges into that camera row |
| `Ingest.EdgeOfTimeFails` | app/api/ingest/route.ts:71-98 | as written, a reading at 8.64e15 ms is itself a valid date, but the window's upper bound is not, so the reply is 500 and nothing is written |
| `Ingest.CameraThenIotFuse` | app/api/ingest/route.ts:72-152 | the two readings end as one row: STRESSED, heart rate 150, source "camera,iot", the later time |
| `EmotionIngest.PrototypeLabelsEscapeFallback` | app/api/emotion/ingest/route.ts:47 | as written, "constructor" (any case) and "__proto__" yield no emotion instead of STRESSED |
| `EmotionIngest.NormalizeLabelCorrectsOnlyPrototypeNames` | app/api/emotion/ingest/route.ts:47 | the corrected normalisation agrees with the written one wherever that yields an emotion, and that fails exactly on inherited names |
| `EmotionIngest.NormalizeLabelIgnoresCase` | app/api/emotion/ingest/route.ts:47 | labels equal up to ASCII case normalise alike |
| `EmotionIngest.NormalizeLabelRoundTrip` | app/api/emotion/ingest/route.ts:11-22 | each enumeration name normalises to its own value |
| `EmotionIngest.UnknownLabelIsStressed` | app/api/emotion/ingest/route.ts:47 | corrected normalisation: any label outside the nine-entry table becomes STRESSED; as written the same holds unless the label lower-cases to an inherited name |
| `EmotionIngest.StressScore` | app/api/emotion/ingest/route.ts:55-62 | every emotion has a table entry, so the 50 fallback is never used; scores lie in 0..100 |
| `EmotionIngest.ScoresOrdered` | app/api/emotion/ingest/route.ts:55-61 | HAPPY < NEUTRAL < SAD < ANGRY < STRESSED |
| `EmotionIngest.ResolveKey` | app/api/emotion/ingest/route.ts:26-38 | missing iff the key is empty or absent; otherwise the first user whose emotion slot holds the digest, or invalid |
| `EmotionIngest.OnlyEmotionSlotAuthenticates` | app/api/emotion/ingest/route.ts:33-38 | a key no emotion slot holds is refused, wherever else it is held |
| `EmotionIngest.RejectedChangesNothing` | app/api/emotion/ingest/route.ts:26-45 | a request that is not accepted writes and publishes nothing |
| `EmotionIngest.MissingEmotionIs400` | app/api/emotion/ingest/route.ts:43-45 | with a good key and body, 400 exactly when the emotion is not a non-empty string |
| `EmotionIngest.AcceptedCreatesAndPublishes` | app/api/emotion/ingest/route.ts:64-84 | one row appended, never a merge, with the written normalisation of the emotion (which agrees with the corrected one there), its score and the reading time; one envelope with the clerk id and the row |
| `EmotionIngest.PrototypeLabelIsServerError` | app/api/emotion/ingest/route.ts:47-88 | as written, an authenticated request whose emotion lower-cases to an inherited name is answered 500 with no row and no broadcast, where the corrected normalisation gives STRESSED |
| `EmotionIngest.IngestWellFormed` | app/api/emotion/ingest/route.ts:64-71 | the create keeps the tables well formed |
| `EmotionIngest.Post` | app/api/emotion/ingest/route.ts:24-89 | the handler matches the route function, including the 500 with no row and no broadcast for an inherited-name label; the broadcast reaches the registry as the broadcast loop specifies |
| `IotIngest.CheckedHeartRate` | app/api/iot/ingest/route.ts:27-30 | kept exactly when a number strictly between 0 and 250; then rounded, lying in 0..250 |
| `IotIngest.CheckedSpO2` | app/api/iot/ingest/route.ts:32-35 | kept exactly when a number with 50 < spO2 <= 100, unchanged |
| `IotIngest.ReadingTime` | app/api/iot/ingest/route.ts:41-46 | a parseable string or a valid millisecond number gives that date; an unparseable string, an out-of-range number, or a value that is neither gives the server time |
| `IotIngest.ResolveKey` | app/api/iot/ingest/route.ts:17-22 | missing iff the key is empty or absent; otherwise the first user whose IoT slot holds the digest, or invalid |
| `IotIngest.RefusedOnlyWhenBothDropped` | app/api/iot/ingest/route.ts:37-39 | 400 exactly when both fields fail their checks, and then nothing is written |
| `IotIngest.OutOfRangeDroppedSilently` | app/api/iot/ingest/route.ts:27-39 | a heart rate of 300 beside a valid SpO2 is dropped and the row is still created |
| `IotIngest.AcceptedCreatesOne` | app/api/iot/ingest/route.ts:48-57 | one row appended with the user, the checked fields in bounds and the reading time; 201 with its id |
| `IotIngest.RejectedChangesNothing` | app/api/iot/ingest/route.ts:17-39 | any refusal leaves the table as it was |
| `IotIngest.Post` | app/api/iot/ingest/route.ts:15-62 | the handler's reply and new table equal the route function's |
| `Policies.UnifiedAcceptsEitherSlot` | app/api/ingest/route.ts:49-54 | the unified route accepts a key iff the IoT or the emotion route does, and resolves it to no later user |
| `Policies.UnknownLabelDiverges` | app/api/emotion/ingest/route.ts:47 | a label neither table knows is dropped by the unified route; the emotion route stores it as STRESSED, or fails on it when it names an inherited member |
| `Policies.PaddedLabelDiverges` | app/api/ingest/route.ts:14 | a space before an emotion name is ignored by the unified route and makes it STRESSED on the emotion route, as written |
| `Policies.NumericTimestampUnits` | app/api/emotion/ingest/route.ts:49 | numbers are milliseconds on the unified and IoT routes, seconds on the emotion route |
| `Policies.ZeroTimestampDiverges` | app/api/ingest/route.ts:72 | a timestamp of 0 means "now" on the unified route and the epoch on the other two |
| `Policies.OutOfRangeHeartRateDiverges` | app/api/iot/ingest/route.ts:27-30 | a heart rate of 300 is stored by the unified route and dropped by the IoT route |
| `KeyIssue.WithSlot` | app/api/iot/key/route.ts:29-32 | the update sets the one slot and leaves the other slot and every other column alone |
| `KeyIssue.Resolve` | app/api/iot/ingest/route.ts:17-22 | the slot's resolver: missing iff no key; otherwise the first user holding the digest in that slot, or invalid |
| `KeyIssue.UnauthorizedChangesNothing` | app/api/iot/key/route.ts:15-16 | without a clerk id the reply is 401 and no user is created or changed |
| `KeyIssue.IssueEffect` | app/api/iot/key/route.ts:19-35 | 201 with the plaintext; the upserted user's slot holds its digest; no other user and no other column changes |
| `KeyIssue.IssueWellFormed` | app/api/iot/key/route.ts:19-32 | issuing keeps the tables well formed |
| `KeyIssue.NewKeyResolves` | app/api/iot/key/route.ts:25-32 | an unused key, once issued, resolves to its user through the slot's route |
| `KeyIssue.ReplacedKeyLeavesUser` | app/api/iot/key/route.ts:28-32 | after issuing, no other key resolves to that user in the slot |
| `KeyIssue.OldKeyRevoked` | app/api/iot/key/route.ts:28-32 | a key that resolved to the caller before rotation is invalid afterwards |
| `KeyIssue.OtherSlotUnaffected` | app/api/emotion/key/route.ts:26-29 | issuing in one slot changes no resolution through the other slot's route |
| `KeyIssue.IssueKeepsSlotsUnique` | app/api/iot/key/route.ts:25-32 | issuing an unused key keeps digests unique in both slots |
| `KeyIssue.RotationRevokesPrevious` | app/api/emotion/key/route.ts:23-29 | after k1 then k2 are issued to one user, k2 resolves to them and k1 is invalid |
| `KeyIssue.Post` | app/api/iot/key/route.ts:14-36 | the handler's reply and new users equal the issue function's; readings untouched |
| `Sockets.Added` | lib/realtime.ts:24 | `Set.add` keeps the members and adds the handle once, at the end when new |
| `Sockets.Removed` | lib/realtime.ts:25-27 | `Set.delete` removes exactly that handle |
| `Sockets.AddThenClose` | lib/realtime.ts:23-28 | adding a new handle and closing it restores the registry |
| `Sockets.SurvivorsExactly` | lib/realtime.ts:39-48 | after a broadcast a handle remains iff it was registered and was not open with a throwing send |
| `Sockets.SurvivorsDistinct` | lib/realtime.ts:39-48 | the registry after a broadcast is distinct and no larger than before |
| `Sockets.DeliveriesExactly` | lib/realtime.ts:38-44 | a send goes to a handle iff it is registered, open and its send does not throw, always with the same message |
| `Sockets.DeliveriesOncePerClient` | lib/realtime.ts:39-44 | no handle receives the message twice |
| `Sockets.BroadcastStep` | lib/realtime.ts:40-47 | one loop turn extends the survivors and deliveries by that handle's outcome |
| `Sockets.ClientSet.constructor` | server.js:17 | the registry starts empty |
| `Sockets.ClientSet.AddClient` | server.js:19-24 | `addClient` adds the handle and sends nothing |
| `Sockets.ClientSet.Close` | server.js:21-23 | the close event removes the handle |
| `Sockets.ClientSet.Visit` | server.js:29-36 | one turn: send to an open handle, drop it when its send throws |
| `Sockets.ClientSet.Broadcast` | server.js:26-38 | the registry becomes the survivors, the sends are exactly the deliveries, and no exception escapes |
| `Realtime.Hub.constructor` | lib/realtime.ts:17-21 | the shared set is the server's `wsClients` when present, else the existing or a new fallback set |
| `Realtime.Hub.AddClient` | lib/realtime.ts:23-28 | the handle joins the shared set |
| `Realtime.Hub.Broadcast` | lib/realtime.ts:30-49 | delegated to the server's broadcaster when set, else the fallback loop; either way the target registry's survivors and deliveries |
| `Server.Dispatch` | server.js:74-89 | the emotion socket exactly for `/api/emotion/ws`; everything else goes to Next, and the socket is destroyed when that throws |
| `Server.TrailingSlashDelegated` | server.js:74 | `/api/emotion/ws/` is not the emotion socket |
| `Server.WsServer.constructor` | server.js:17-42 | the server's registry starts empty |
| `Server.WsServer.Upgrade` | server.js:70-90 | only an emotion-socket upgrade registers the connection |
| `Server.WsServer.Broadcast` | server.js:26-42 | `wsBroadcast` is the registry's broadcast |
| `Latest.Qualifying` | app/api/emotion/latest/route.ts:19 | exactly the user's rows with a non-null emotion |
| `Latest.LimitAsWritten` | app/api/emotion/latest/route.ts:16 | 50 when absent; otherwise undefined (NaN) exactly when `Number` fails, and min(x, 200) of the parsed x |
| `Latest.Limit` | app/api/emotion/latest/route.ts:16 | the corrected limit lies in 0..200 and equals the written one whenever that is not negative |
| `Latest.Selected` | app/api/emotion/latest/route.ts:18-22 | the query succeeds exactly for an integer `take` |
| `Latest.Get` | app/api/emotion/latest/route.ts:5-25 | the handler leaves the readings alone, sets the user table to the upsert's, and answers as the written route function |
| `Latest.UnauthorizedChangesNothing` | app/api/emotion/latest/route.ts:6-7 | without a clerk id the reply is 401 and no user is created, as written and with the corrected limit |
| `Latest.SelectedPrefix` | app/api/emotion/latest/route.ts:20-21 | a take of n is the first min(n, available) of the descending order |
| `Latest.SelectedNewest` | app/api/emotion/latest/route.ts:18-22 | the selected rows number min(n, available), are descending and all qualify |
| `Latest.SelectedMostRecent` | app/api/emotion/latest/route.ts:18-22 | no qualifying row left out is newer than one kept |
| `Latest.LatestReadingsSpec` | app/api/emotion/latest/route.ts:16-24 | corrected limit: a 200 reply holds min(limit, available) qualifying rows, limit in 0..200, oldest first, and none left out is newer; the route as written gives the same outcome whenever its limit is not negative |
| `Latest.NegativeLimitEscapesCap` | app/api/emotion/latest/route.ts:16-21 | as written, `?limit=-m` returns m rows for any m up to the number available |
| `Latest.NegativeLimitReturns300` | app/api/emotion/latest/route.ts:16-22 | as written, `?limit=-300` returns more than 200 rows |
| `Support.LabelsOf` | app/api/get-support/route.ts:24-25 | one label per observation, in order, and a string is read exactly when some observation carries it as its label |
| `Support.Keys` | app/api/get-support/route.ts:24-27 | the dictionary's keys are exactly the labels seen |
| `Support.Tally` | app/api/get-support/route.ts:21-27 | corrected (own-key) tally: an entry exactly for each label seen |
| `Support.TallyCounts` | app/api/get-support/route.ts:21-27 | corrected tally: each label's count is the number of observations carrying it |
| `Support.TallyTotal` | app/api/get-support/route.ts:21-27 | corrected tally: the counts sum to the number of observations |
| `Support.Record` | app/api/get-support/route.ts:25 | one loop turn updates the written dictionary as `(emotionCount[x] \|\| 0) + 1` does, and a new own key becomes the last key |
| `Support.Aggregate` | app/api/get-support/route.ts:21-27 | the loop throws iff an observation is missing; otherwise it ends with the written dictionary and its own keys in insertion order |
| `Support.EntryOrder` | app/api/get-support/route.ts:29 | `Object.entries` enumerates exactly the dictionary's keys |
| `Support.EntryOrderPlain` | app/api/get-support/route.ts:29 | with no array-index key the entries come in insertion order |
| `Support.EntryOrderIndicesFirst` | app/api/get-support/route.ts:29 | array-index keys come before all others |
| `Support.DominantFirstMaximal` | app/api/get-support/route.ts:29 | the dominant key is a key of maximal count, and every entry before it has a smaller count |
| `Support.DominantIsMostFrequent` | app/api/get-support/route.ts:29 | corrected tally: the dominant label is a label, and no label occurs more often |
| `Support.IndexLabelWinsTie` | app/api/get-support/route.ts:29 | corrected tally: when an array-index label ties for the maximum, an array-index label wins |
| `Support.PlainTieGoesToFirstSeen` | app/api/get-support/route.ts:24-29 | corrected tally: with no array-index label, a tie goes to the label first seen |
| `Support.SupportNamesMostFrequent` | app/api/get-support/route.ts:15-29 | a successful reply names one of the labels of a non-empty list, never "__proto__"; without inherited names among the labels it is a most frequent one |
| `Support.InputChecksFirst` | app/api/get-support/route.ts:11-18 | a missing model key gives 500 whatever the body; an empty or non-array `observations` gives 400 |
| `Support.Post` | app/api/get-support/route.ts:9-29 | the handler's reply equals the route function over the written dictionary, 500 when it has no entries |
| `Support.TallyAsWrittenAgrees` | app/api/get-support/route.ts:25 | without inherited names the written tally agrees with the own-key tally |
| `Support.PrototypeLabelsMiscounted` | app/api/get-support/route.ts:25 | as written, "constructor" counts as text and "__proto__" is not counted |
| `Support.AssignedMembers` | app/api/get-support/route.ts:25 | the labels that reach an own entry are exactly those other than "__proto__" |
| `Support.AssignedAll` | app/api/get-support/route.ts:25 | without "__proto__" every label reaches an own entry |
| `Support.TallyAsWrittenDomain` | app/api/get-support/route.ts:21-27 | the written dictionary has an entry exactly for each label other than "__proto__" |
| `Support.WrittenTallyIsNumeric` | app/api/get-support/route.ts:21-29 | without inherited names every count is a number and the counts are the fair tally |
| `Support.DominantAsWritten` | app/api/get-support/route.ts:29 | `[0][0]` fails exactly when there are no entries; any label named is one of the keys; with all counts numeric it is the stable sort's head and no key has a larger count; a text count among equal numeric counts keeps the first entry; otherwise the engine's pick among the entries |
| `Support.DominantAsWrittenAgrees` | app/api/get-support/route.ts:21-29 | without inherited names among the labels, the route as written names the dominant label of the corrected tally |
| `Support.ProtoLabelsAreServerError` | app/api/get-support/route.ts:25-29 | as written, observations all labelled "__proto__" leave no entries and the route answers 500 |
| `Support.ConstructorOutranksMajority` | app/api/get-support/route.ts:25-29 | as written, labels ["constructor", "a", "a"] give the reply "constructor", though "a" occurs more often |
| `EmotionChart.ScoreFromEmotion` | components/charts/emotion-chart.tsx:21-32 | 50 without an emotion; otherwise the table entry, which exists and equals the score the emotion ingest route stores; always in 0..100 |
| `EmotionChart.ChartScores` | components/charts/emotion-chart.tsx:21-32 | HAPPY 20, NEUTRAL 40, SAD 65, ANGRY 75, STRESSED 85, none 50 |
| `EmotionChart.Loaded` | components/charts/emotion-chart.tsx:46-47 | the route's uncaught server error has no JSON body, so the rows stay; a successful reply gives one row per reading, with the id, time and emotion sent, in the order sent; any other reply is not an array |
| `EmotionChart.Slice` | components/charts/emotion-chart.tsx:76 | `slice(start)` is a suffix; a negative start keeps min(-start, length) entries |
| `EmotionChart.Received` | components/charts/emotion-chart.tsx:70-79 | as written: a message failing the top-level-timestamp filter or naming another user leaves the rows unchanged; one passing it appends `msg.row` as sent, `undefined` included |
| `EmotionChart.ReceivedCorrected` | components/charts/emotion-chart.tsx:70-79 | with the filter reading the row's timestamp: a rejected message leaves the rows unchanged, an accepted one appends its row |
| `EmotionChart.Append` | components/charts/emotion-chart.tsx:76 | the new element goes last, min(n + 1, 200) entries remain and they are the newest; a non-array stays one |
| `EmotionChart.ChartData` | components/charts/emotion-chart.tsx:96-102 | points exist exactly when the rows are an array with no `undefined` element; then one point per row in the same order, each score in the 0..100 axis domain, "NONE" exactly for a row without an emotion |
| `EmotionChart.Chart.constructor` | components/charts/emotion-chart.tsx:36 | rows start empty |
| `EmotionChart.Chart.LoadInitial` | components/charts/emotion-chart.tsx:40-52 | the fetch result replaces the rows, discarding any that arrived first, unless the reply has no JSON body |
| `EmotionChart.Chart.OnMessage` | components/charts/emotion-chart.tsx:70-79 | the handler's new rows are `Received` (the as-written filter) of the old ones |
| `EmotionChart.AcceptedAppends` | components/charts/emotion-chart.tsx:73-76 | an envelope passing the written filter for this user puts its row, or `undefined`, last; at most 200 rows remain and they are the newest arrivals |
| `EmotionChart.MissingRowBreaksChart` | components/charts/emotion-chart.tsx:73-102 | as written, an envelope passing the filter without a row leaves an `undefined` that makes the chart's `map` throw |
| `EmotionChart.OtherUsersIgnored` | components/charts/emotion-chart.tsx:75 | an envelope for another signed-in user leaves the rows unchanged, with either filter |
| `EmotionChart.ReceivedBounded` | components/charts/emotion-chart.tsx:76 | with either filter, the rows never grow past 200 once they fit |
| `EmotionChart.IngestEnvelopesIgnoredAsWritten` | components/charts/emotion-chart.tsx:73 | as written, the filter rejects every envelope the emotion ingest route publishes, and the rows stay as they were |
| `EmotionChart.IngestEnvelopeShown` | components/charts/emotion-chart.tsx:73-76 | with the corrected filter, that envelope appears as the user's newest row |
| `EmotionChart.InitialLoad` | components/charts/emotion-chart.tsx:43-47 | a successful `limit=50` fetch of the route as written loads at most 50 rows, each defined and with an emotion, oldest first |

## Left out

- Floating point: numbers are exact reals, so NaN, Infinity, -0 and rounding error are not modelled. `confidence`, `avgConfidence` and the `toFixed` formatting of the support route are left out.
- Date string parsing, `Number(string)` and the clock are parameters. `toLocaleTimeString` in the chart is not modelled; a point keeps the time in milliseconds.
- SHA-256 is an injective digest and `crypto.randomBytes` a key parameter. A digest collision, and two users sharing one digest, are outside the model (`KeyIssue.Unused` states freshness as a requirement).
- Concurrency: the race between the merge-target search and the write, and concurrent key rotations, are not modelled. Each request is one atomic step.
- HTTP, Next request handling, WebSocket transport and JSON parsing are not modelled. Request bodies and socket messages arrive parsed; a body that fails to parse is one value.
- A socket's `readyState` is modelled as membership of the set `open`, and a throwing `send` as membership of `failing`. Both are parameters of each broadcast.
- The Gemini call of the support route (app/api/get-support/route.ts:32-75) and its `healthInfo` query are not modelled; the reply assumes the call succeeds.
- Prisma is modelled as filters and stable sorts over a table in insertion order. A tie in `orderBy` keeps table order, though the database promises none.
- `Support.EntryOrder`: the lemmas state that array-index keys come first and that other keys keep insertion order, but not that array-index keys are ascending among themselves.
- `Query.MaxWhere`: the contract does not say which of several equal-key rows is chosen.
- `EmotionIngest.UnknownLabelIsStressed`: the STRESSED fallback is promised of the route as written only for labels that do not lower-case to an inherited name; those give a 500 (`EmotionIngest.PrototypeLabelIsServerError`).
- `Latest.LatestReadingsSpec`: the bounds hold of the route as written only when its limit is not negative; a negative limit returns up to every qualifying row (`Latest.NegativeLimitEscapesCap`).
- `Support.Tally`: describes the corrected tally. As written, "__proto__" has no entry (`Support.TallyAsWrittenDomain`), and the two agree only without inherited names (`Support.TallyAsWrittenAgrees`).
- `Support.TallyCounts`: holds of the written dictionary only without inherited names, through `Support.TallyAsWrittenAgrees`; as written, "constructor" has a text count.
- `Support.TallyTotal`: holds of the written dictionary only without inherited names; as written, the numeric counts need not sum to the number of observations.
- `Support.DominantIsMostFrequent`: carries over to the route as written only without inherited names (`Support.DominantAsWrittenAgrees`); otherwise see `Support.ConstructorOutranksMajority`.
- `Support.IndexLabelWinsTie`: carries over to the route as written only without inherited names (`Support.DominantAsWrittenAgrees`).
- `Support.PlainTieGoesToFirstSeen`: carries over to the route as written only without inherited names (`Support.DominantAsWrittenAgrees`).
- `EmotionChart.Chart.LoadInitial`: the `active` flag that skips `setRows` after the component unmounts is not modelled.
- `Support.DominantAsWritten`: when a text count sits beside unequal numeric counts, the comparator is inconsistent and the engine's sort order is implementation-defined; the model takes the engine's pick as the parameter `choice` and does not model any particular engine.
- `Support.SupportNamesMostFrequent`: promises a most frequent label only when no label names an inherited member; with one, the written dictionary can name a less frequent label (`Support.ConstructorOutranksMajority`).
- `Latest.Selected`: a limit of Infinity or NaN is not modelled separately from the store's refusal of a non-integer `take`.
- `Js.ToLowerCase`: only ASCII capitals and the Kelvin sign are mapped. Other Unicode mappings, some of which change the length (U+0130 becomes two code units), are not modelled; none of them yields a key of the emotion table or an inherited name.
- `Js.Payload`: JSON arrays and objects are not modelled as field values, and the identifier fields (`deviceId`, `correlationId`, `source`) hold only strings. A body such as `emotion: ["fear"]`, `heartRate: {}` or `correlationId: 7` is outside the model.
- `Support.Observation`: a label that is not a string is taken to be its string form; object labels with custom `toString` are not modelled.
- The unified ingest route broadcasts nothing: that is the source's behaviour, not an omission.
- Other files (pages, the camera feed component, the assistant and insight routes, the simulate route, the middleware) are not part of this model.

## Findings

| source | as written | input that shows it | evidently intended | confidence | as-written member | corrected member |
|---|---|---|---|---|---|---|
| app/api/emotion/ingest/route.ts:47 | `EMOTION_MAP[label.toLowerCase()] ?? "STRESSED"` indexes a plain object, so inherited names return a member of `Object.prototype` | emotion "constructor" or "__proto__" | every label outside the table becomes STRESSED | not executed | `EmotionIngest.PrototypeLabelIsServerError` | `EmotionIngest.NormalizeLabelCorrectsOnlyPrototypeNames` |
| app/api/emotion/latest/route.ts:16 | `Math.min(Number(limit ?? 50), 200)` bounds the limit only from above, and a negative `take` counts from the end | `?limit=-300` with 300 qualifying readings returns 300 rows | at most 200 of the newest rows | not executed | `Latest.NegativeLimitReturns300` | `Latest.LatestReadingsSpec` |
| app/api/get-support/route.ts:25 | counting into a plain object `{}` reads inherited members | labels ["constructor", "a", "a"] name "constructor"; labels ["__proto__"] give 500 | each label counted by its own entry, and the most frequent named | not executed | `Support.ConstructorOutranksMajority` | `Support.DominantIsMostFrequent` |
| components/charts/emotion-chart.tsx:73 | the socket filter requires a top-level `timestamp` | every envelope from app/api/emotion/ingest/route.ts:73-82, which carries its timestamp only inside `row` | accept the envelope by its row's timestamp | not executed | `EmotionChart.IngestEnvelopesIgnoredAsWritten` | `EmotionChart.IngestEnvelopeShown` |
