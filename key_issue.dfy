/** Device-key issuance, shared by the IoT-key and emotion-key routes: a
    signed-in user is upserted, a fresh random key is generated, its digest
    overwrites one of the user's two key-hash slots, and the plaintext is
    returned once. Together with the two slot resolvers of the ingest routes
    this is a small credential state machine: issuing a key makes it resolve
    to the user, makes the key it replaced stop resolving, and leaves the
    other slot's resolution alone. */
module KeyIssue {
  import opened Js
  import opened Store
  import IotIngest
  import EmotionIngest

  /** The two key-hash columns of a user. */
  datatype Slot = IotSlot | EmotionSlot

  function Other(slot: Slot): Slot {
    match slot
    case IotSlot => EmotionSlot
    case EmotionSlot => IotSlot
  }

  function SlotHash(u: User, slot: Slot): Option<Digest> {
    match slot
    case IotSlot => u.apiKeyHash
    case EmotionSlot => u.emotionKeyHash
  }

  /** `user.update({ data: { <slot>: h } })` on one user: only that column changes. */
  function WithSlot(u: User, slot: Slot, h: Digest): (v: User)
    ensures SlotHash(v, slot) == Some(h)
    ensures SlotHash(v, Other(slot)) == SlotHash(u, Other(slot))
    ensures v.id == u.id && v.clerkId == u.clerkId && v.email == u.email
  {
    match slot
    case IotSlot => u.(apiKeyHash := Some(h))
    case EmotionSlot => u.(emotionKeyHash := Some(h))
  }

  /** The resolver that reads the slot: the IoT route's for `apiKeyHash`,
      the emotion route's for `emotionKeyHash`. */
  function Resolve(slot: Slot, users: seq<User>, key: Option<string>): (r: Auth)
    ensures r == MissingKey <==> !TruthyText(key)
    ensures r.Authenticated? ==> r.user < |users| && SlotHash(users[r.user], slot) == Some(HashKey(key.value))
    ensures r.Authenticated? ==> forall j :: 0 <= j < r.user ==> SlotHash(users[j], slot) != Some(HashKey(key.value))
    ensures r == InvalidKey ==> forall j :: 0 <= j < |users| ==> SlotHash(users[j], slot) != Some(HashKey(key.value))
  {
    match slot
    case IotSlot => IotIngest.ResolveKey(users, key)
    case EmotionSlot => EmotionIngest.ResolveKey(users, key)
  }

  /** No digest sits in the same slot of two users. */
  ghost predicate SlotsUnique(users: seq<User>) {
    forall i, j, slot :: 0 <= i < j < |users| && SlotHash(users[i], slot).Some? ==> SlotHash(users[i], slot) != SlotHash(users[j], slot)
  }

  /** No user holds the key's digest in the slot: what a 32-byte random key
      gives in practice. */
  ghost predicate Unused(users: seq<User>, slot: Slot, key: string) {
    forall j :: 0 <= j < |users| ==> SlotHash(users[j], slot) != Some(HashKey(key))
  }

  datatype Outcome = Outcome(reply: Reply, users: seq<User>)

  /** `POST /api/iot/key` (slot `IotSlot`) and `POST /api/emotion/key` (slot
      `EmotionSlot`) as one step: `clerkId` is the session's identity and
      `key` the freshly generated plaintext. */
  function Issue(users: seq<User>, clerkId: Option<string>, slot: Slot, key: string): Outcome {
    if !TruthyText(clerkId) then Outcome(Reply(401, Failure("Unauthorized")), users)
    else
      var (us, i) := Upsert(users, clerkId.value);
      Outcome(Reply(201, IssuedKey(key)), us[i := WithSlot(us[i], slot, HashKey(key))])
  }

  /** The route handler over the database. */
  method Post(db: Database, clerkId: Option<string>, slot: Slot, key: string) returns (reply: Reply)
    requires db.Valid()
    modifies db
    ensures db.Valid() && db.points == old(db.points)
    ensures var o := Issue(old(db.users), clerkId, slot, key);
      reply == o.reply && db.users == o.users
  {
    if !TruthyText(clerkId) {
      return Reply(401, Failure("Unauthorized"));
    }
    UpsertWellFormed(db.users, db.points, clerkId.value);
    var (us, i) := Upsert(db.users, clerkId.value);
    db.users := us;
    var keyHash := HashKey(key);
    var updated := WithSlot(db.users[i], slot, keyHash);
    SetHashesWellFormed(db.users, db.points, i, updated);
    db.users := db.users[i := updated];
    reply := Reply(201, IssuedKey(key));
  }

  // -------------------------------------------------------------- properties

  /** Without a signed-in identity the reply is 401 and no user is created or changed. */
  lemma UnauthorizedChangesNothing(users: seq<User>, clerkId: Option<string>, slot: Slot, key: string)
    requires !TruthyText(clerkId)
    ensures Issue(users, clerkId, slot, key) == Outcome(Reply(401, Failure("Unauthorized")), users)
  {
  }

  /** A signed-in call returns the plaintext with 201; the caller's user (the
      existing one, or one created with the placeholder email) now holds the
      key's digest in the slot, its other columns as before, and every other
      user is untouched. */
  lemma IssueEffect(users: seq<User>, clerkId: Option<string>, slot: Slot, key: string)
    requires TruthyText(clerkId)
    ensures var o := Issue(users, clerkId, slot, key);
      var i := Upsert(users, clerkId.value).1;
      && o.reply == Reply(201, IssuedKey(key))
      && i < |o.users| && o.users[i].clerkId == clerkId.value
      && SlotHash(o.users[i], slot) == Some(HashKey(key))
      && (forall j :: 0 <= j < |users| && j != i ==> o.users[j] == users[j])
      && (i < |users| ==>
            && |o.users| == |users| && users[i].clerkId == clerkId.value
            && o.users[i].id == users[i].id && o.users[i].email == users[i].email
            && SlotHash(o.users[i], Other(slot)) == SlotHash(users[i], Other(slot)))
      && (i == |users| ==>
            && |o.users| == |users| + 1
            && (forall j :: 0 <= j < |users| ==> users[j].clerkId != clerkId.value)
            && o.users[i].id == i && o.users[i].email == PlaceholderEmail(clerkId.value)
            && SlotHash(o.users[i], Other(slot)).None?)
  {
  }

  /** Issuing keeps ids, clerk ids and row owners well formed. */
  lemma IssueWellFormed(users: seq<User>, points: seq<DataPoint>, clerkId: Option<string>, slot: Slot, key: string)
    requires WellFormed(users, points)
    ensures WellFormed(Issue(users, clerkId, slot, key).users, points)
  {
    if TruthyText(clerkId) {
      UpsertWellFormed(users, points, clerkId.value);
      var (us, i) := Upsert(users, clerkId.value);
      SetHashesWellFormed(us, points, i, WithSlot(us[i], slot, HashKey(key)));
    }
  }

  /** An unused key, once issued, resolves to its user in the slot's route. */
  lemma NewKeyResolves(users: seq<User>, clerkId: Option<string>, slot: Slot, key: string)
    requires TruthyText(clerkId) && key != "" && Unused(users, slot, key)
    ensures Resolve(slot, Issue(users, clerkId, slot, key).users, Some(key))
            == Authenticated(Upsert(users, clerkId.value).1)
  {
    IssueEffect(users, clerkId, slot, key);
  }

  /** After issuing, the user no longer answers to any other key in the slot. */
  lemma ReplacedKeyLeavesUser(users: seq<User>, clerkId: Option<string>, slot: Slot, key: string, previous: string)
    requires TruthyText(clerkId) && previous != key
    ensures Resolve(slot, Issue(users, clerkId, slot, key).users, Some(previous))
            != Authenticated(Upsert(users, clerkId.value).1)
  {
    IssueEffect(users, clerkId, slot, key);
  }

  /** Rotation revokes: when the replaced key resolved to the caller and
      digests were unique in the slot, that key now resolves to nobody. */
  lemma {:induction false} OldKeyRevoked(users: seq<User>, clerkId: Option<string>, slot: Slot, key: string, previous: string)
    requires TruthyText(clerkId) && previous != key && SlotsUnique(users)
    requires Resolve(slot, users, Some(previous)) == Authenticated(Upsert(users, clerkId.value).1)
    ensures Resolve(slot, Issue(users, clerkId, slot, key).users, Some(previous)) == InvalidKey
  {
    var i := Upsert(users, clerkId.value).1;
    var o := Issue(users, clerkId, slot, key);
    IssueEffect(users, clerkId, slot, key);
    forall j | 0 <= j < |o.users| ensures SlotHash(o.users[j], slot) != Some(HashKey(previous)) {
      if j != i {
        assert SlotHash(users[i], slot) == Some(HashKey(previous));
        if j < i {
          assert SlotHash(users[j], slot) != SlotHash(users[i], slot);
        } else {
          assert SlotHash(users[i], slot) != SlotHash(users[j], slot);
        }
      }
    }
  }

  /** Two tables that agree on a slot, the longer one's extra users holding
      nothing there, resolve every key alike in that slot. */
  lemma {:induction false} SameSlotView(slot: Slot, s: seq<User>, t: seq<User>, key: Option<string>)
    requires |s| <= |t|
    requires forall j :: 0 <= j < |s| ==> SlotHash(s[j], slot) == SlotHash(t[j], slot)
    requires forall j :: |s| <= j < |t| ==> SlotHash(t[j], slot).None?
    ensures Resolve(slot, s, key) == Resolve(slot, t, key)
  {
    var a, b := Resolve(slot, s, key), Resolve(slot, t, key);
    if a.Authenticated? {
      assert SlotHash(t[a.user], slot) == Some(HashKey(key.value));
    }
  }

  /** Issuing a key in one slot changes no resolution in the other: the
      emotion-key route leaves IoT keys working, and the other way round. */
  lemma OtherSlotUnaffected(users: seq<User>, clerkId: Option<string>, slot: Slot, key: string, presented: Option<string>)
    ensures Resolve(Other(slot), Issue(users, clerkId, slot, key).users, presented)
            == Resolve(Other(slot), users, presented)
  {
    if TruthyText(clerkId) {
      IssueEffect(users, clerkId, slot, key);
      SameSlotView(Other(slot), users, Issue(users, clerkId, slot, key).users, presented);
    }
  }

  /** Issuing an unused key keeps digests unique in both slots. */
  lemma IssueKeepsSlotsUnique(users: seq<User>, clerkId: Option<string>, slot: Slot, key: string)
    requires SlotsUnique(users) && Unused(users, slot, key)
    ensures SlotsUnique(Issue(users, clerkId, slot, key).users)
  {
    if TruthyText(clerkId) {
      var o := Issue(users, clerkId, slot, key);
      var i := Upsert(users, clerkId.value).1;
      IssueEffect(users, clerkId, slot, key);
      forall a, b, sl | 0 <= a < b < |o.users| && SlotHash(o.users[a], sl).Some?
        ensures SlotHash(o.users[a], sl) != SlotHash(o.users[b], sl)
      {
        if a != i && b != i {
          assert SlotHash(users[a], sl) != SlotHash(users[b], sl);
        } else if sl != slot {
          assert sl == Other(slot);
        }
      }
    }
  }

  /** Rotating twice: after keys k1 and then k2 are issued to the same user,
      k2 resolves to that user and k1 to nobody. */
  lemma RotationRevokesPrevious(users: seq<User>, clerkId: Option<string>, slot: Slot, k1: string, k2: string)
    requires TruthyText(clerkId) && k1 != "" && k2 != "" && k1 != k2
    requires SlotsUnique(users) && Unused(users, slot, k1) && Unused(users, slot, k2)
    ensures var u1 := Issue(users, clerkId, slot, k1).users;
      var u2 := Issue(u1, clerkId, slot, k2).users;
      && Resolve(slot, u2, Some(k2)) == Authenticated(Upsert(users, clerkId.value).1)
      && Resolve(slot, u2, Some(k1)) == InvalidKey
  {
    var u1 := Issue(users, clerkId, slot, k1).users;
    var i := Upsert(users, clerkId.value).1;
    IssueEffect(users, clerkId, slot, k1);
    assert Upsert(u1, clerkId.value).1 == i;
    NewKeyResolves(users, clerkId, slot, k1);
    IssueKeepsSlotsUnique(users, clerkId, slot, k1);
    OldKeyRevoked(u1, clerkId, slot, k2, k1);
    assert Unused(u1, slot, k2) by {
      forall j | 0 <= j < |u1| ensures SlotHash(u1[j], slot) != Some(HashKey(k2)) {
        if j != i {
          assert u1[j] == users[j];
        }
      }
    }
    NewKeyResolves(u1, clerkId, slot, k2);
  }
}
