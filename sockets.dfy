/** The subscriber registry both the custom server and the realtime library
    keep: a set of open socket handles, in insertion order, that `addClient`
    grows, a close event shrinks, and `broadcast` walks, sending one
    serialised message to every open handle and dropping any handle whose
    send throws. */
module Sockets {
  import opened Js
  import opened Store

  /** A socket handle; only its identity is observed. */
  type Client = nat

  /** The `row` part of a realtime envelope. */
  datatype RowPayload = RowPayload(id: nat, timestamp: int, emotion: Option<Emotion>, stressScore: Option<int>)

  /** A realtime envelope, with the fields a subscriber reads; JSON
      serialisation is taken to be injective, so the envelope stands for the
      text sent. */
  datatype Message = Message(kind: Option<string>, userId: Option<string>, timestamp: Option<int>, row: Option<RowPayload>)

  /** One `ws.send(msg)` that went through. */
  datatype Delivery = Delivery(client: Client, message: Message)

  ghost predicate Distinct(s: seq<Client>) {
    forall i, j :: 0 <= i < j < |s| ==> s[i] != s[j]
  }

  /** `Set.add`: a new handle goes to the end, a present one stays where it is. */
  function Added(s: seq<Client>, c: Client): (r: seq<Client>)
    ensures forall x :: x in r <==> x in s || x == c
    ensures Distinct(s) ==> Distinct(r)
    ensures c in s ==> r == s
    ensures c !in s ==> r == s + [c]
  {
    if c in s then s else s + [c]
  }

  /** `Set.delete`: the order of the others is kept. */
  function Removed(s: seq<Client>, c: Client): (r: seq<Client>)
    ensures forall x :: x in r <==> x in s && x != c
    ensures |r| <= |s|
    ensures c !in s ==> r == s
  {
    if s == [] then []
    else (if s[0] == c then [] else [s[0]]) + Removed(s[1..], c)
  }

  lemma {:induction false} RemovedDistinct(s: seq<Client>, c: Client)
    requires Distinct(s)
    ensures Distinct(Removed(s, c))
  {
    if s != [] {
      RemovedDistinct(s[1..], c);
      var t := Removed(s[1..], c);
      assert s[0] !in t by {
        assert s[0] !in s[1..];
      }
    }
  }

  /** Deleting the handle that sits between two parts keeps both parts. */
  lemma {:induction false} RemovedMiddle(a: seq<Client>, c: Client, b: seq<Client>)
    requires c !in a && c !in b
    ensures Removed(a + [c] + b, c) == a + b
  {
    if a == [] {
      assert [c] + b == [c] + b;
      assert ([c] + b)[1..] == b;
    } else {
      assert (a + [c] + b)[0] == a[0];
      assert (a + [c] + b)[1..] == a[1..] + [c] + b;
      RemovedMiddle(a[1..], c, b);
      assert a + b == [a[0]] + (a[1..] + b);
    }
  }

  /** Adding a new handle and then closing it restores the registry. */
  lemma AddThenClose(s: seq<Client>, c: Client)
    requires c !in s
    ensures Removed(Added(s, c), c) == s
  {
    RemovedMiddle(s, c, []);
    assert s + [c] + [] == s + [c];
    assert s + [] == s;
  }

  /** A handle the broadcast drops: it is open and its send throws. */
  predicate Drops(c: Client, open: set<Client>, failing: set<Client>) {
    c in open && c in failing
  }

  /** The registry after a broadcast over the handles s, in order. */
  function Survivors(s: seq<Client>, open: set<Client>, failing: set<Client>): seq<Client> {
    if s == [] then []
    else
      var n := |s| - 1;
      Survivors(s[..n], open, failing) + (if Drops(s[n], open, failing) then [] else [s[n]])
  }

  /** The sends a broadcast of data over the handles s makes, in order. */
  function Deliveries(s: seq<Client>, data: Message, open: set<Client>, failing: set<Client>): seq<Delivery> {
    if s == [] then []
    else
      var n := |s| - 1;
      Deliveries(s[..n], data, open, failing)
        + (if s[n] in open && s[n] !in failing then [Delivery(s[n], data)] else [])
  }

  /** A handle survives exactly when it was registered and is not dropped:
      closed, connecting and closing handles stay; failing open ones go. */
  lemma {:induction false} SurvivorsExactly(s: seq<Client>, open: set<Client>, failing: set<Client>, x: Client)
    ensures x in Survivors(s, open, failing) <==> x in s && !Drops(x, open, failing)
  {
    if s != [] {
      var n := |s| - 1;
      SurvivorsExactly(s[..n], open, failing, x);
      assert s == s[..n] + [s[n]];
    }
  }

  /** The survivors keep their order and stay pairwise distinct. */
  lemma {:induction false} SurvivorsDistinct(s: seq<Client>, open: set<Client>, failing: set<Client>)
    requires Distinct(s)
    ensures Distinct(Survivors(s, open, failing))
    ensures |Survivors(s, open, failing)| <= |s|
  {
    if s != [] {
      var n := |s| - 1;
      assert Distinct(s[..n]);
      SurvivorsDistinct(s[..n], open, failing);
      SurvivorsExactly(s[..n], open, failing, s[n]);
      assert s[n] !in s[..n];
    }
  }

  /** A send goes to a handle exactly when it is registered, open and its
      send does not throw, and every send carries the one message. */
  lemma {:induction false} DeliveriesExactly(s: seq<Client>, data: Message, open: set<Client>,
                                             failing: set<Client>, c: Client, m: Message)
    ensures Delivery(c, m) in Deliveries(s, data, open, failing)
            <==> c in s && c in open && c !in failing && m == data
  {
    if s != [] {
      var n := |s| - 1;
      DeliveriesExactly(s[..n], data, open, failing, c, m);
      assert s == s[..n] + [s[n]];
    }
  }

  /** No handle is sent to twice. */
  lemma {:induction false} DeliveriesOncePerClient(s: seq<Client>, data: Message, open: set<Client>, failing: set<Client>)
    requires Distinct(s)
    ensures var d := Deliveries(s, data, open, failing);
      |d| <= |s| && forall i, j :: 0 <= i < j < |d| ==> d[i].client != d[j].client
  {
    if s != [] {
      var n := |s| - 1;
      assert Distinct(s[..n]);
      DeliveriesOncePerClient(s[..n], data, open, failing);
      assert s[n] !in s[..n];
      var d0 := Deliveries(s[..n], data, open, failing);
      forall i | 0 <= i < |d0| ensures d0[i].client != s[n] {
        assert d0[i] in d0;
        DeliveriesExactly(s[..n], data, open, failing, d0[i].client, d0[i].message);
      }
    }
  }

  /** One iteration of the broadcast loop over a snapshot of the handles:
      visiting handle i either deletes it from the live set (whose first part
      holds the survivors so far and whose rest is still to be visited) or
      leaves the set alone, and sends to it exactly when it is open and its
      send does not throw. */
  lemma BroadcastStep(snapshot: seq<Client>, i: nat, data: Message, open: set<Client>, failing: set<Client>)
    requires Distinct(snapshot) && i < |snapshot|
    ensures var ws := snapshot[i];
      var live := Survivors(snapshot[..i], open, failing) + snapshot[i..];
      && Survivors(snapshot[..i + 1], open, failing) + snapshot[i + 1..]
           == (if Drops(ws, open, failing) then Removed(live, ws) else live)
      && Deliveries(snapshot[..i + 1], data, open, failing)
           == Deliveries(snapshot[..i], data, open, failing)
              + (if ws in open && ws !in failing then [Delivery(ws, data)] else [])
  {
    var ws := snapshot[i];
    assert snapshot[..i + 1][..i] == snapshot[..i];
    assert snapshot[..i + 1][i] == ws;
    assert snapshot[i..] == [ws] + snapshot[i + 1..];
    var sv := Survivors(snapshot[..i], open, failing);
    if Drops(ws, open, failing) {
      assert ws !in snapshot[..i];
      SurvivorsExactly(snapshot[..i], open, failing, ws);
      assert ws !in snapshot[i + 1..];
      RemovedMiddle(sv, ws, snapshot[i + 1..]);
      assert sv + snapshot[i..] == sv + [ws] + snapshot[i + 1..];
    } else {
      assert sv + [ws] + snapshot[i + 1..] == sv + snapshot[i..];
    }
  }

  lemma AppendAssociates<T>(a: seq<T>, b: seq<T>, c: seq<T>)
    ensures a + b + c == a + (b + c)
  {
  }

  /** A set of socket handles with the sends made to them. */
  class ClientSet {
    var members: seq<Client>
    var outbox: seq<Delivery>

    ghost predicate Valid()
      reads this
    {
      Distinct(members)
    }

    constructor ()
      ensures Valid() && members == [] && outbox == []
    {
      members := [];
      outbox := [];
    }

    /** `addClient(ws)`: the handle joins the set. */
    method AddClient(ws: Client)
      requires Valid()
      modifies this
      ensures Valid() && members == Added(old(members), ws) && outbox == old(outbox)
    {
      if ws !in members {
        members := members + [ws];
      }
    }

    /** The handle's close event: it leaves the set. */
    method Close(ws: Client)
      requires Valid()
      modifies this
      ensures Valid() && members == Removed(old(members), ws) && outbox == old(outbox)
    {
      RemovedDistinct(members, ws);
      members := Removed(members, ws);
    }

    /** One turn of the broadcast loop: `try { if (ws.readyState === 1)
        ws.send(msg) } catch { clients.delete(ws) }`. */
    method Visit(ws: Client, data: Message, open: set<Client>, failing: set<Client>)
      modifies this
      ensures members == (if Drops(ws, open, failing) then Removed(old(members), ws) else old(members))
      ensures outbox == old(outbox) + (if ws in open && ws !in failing then [Delivery(ws, data)] else [])
    {
      if ws in open {
        if ws in failing {
          members := Removed(members, ws);
        } else {
          outbox := outbox + [Delivery(ws, data)];
        }
      }
    }

    /** `broadcast(data)`: serialise once, send to every open handle in
        insertion order, delete a handle whose send throws and go on; no
        error escapes. `open` holds the handles whose `readyState` is 1
        (OPEN) and `failing` those whose send throws. */
    method Broadcast(data: Message, open: set<Client>, failing: set<Client>)
      requires Valid()
      modifies this
      ensures Valid()
      ensures members == Survivors(old(members), open, failing)
      ensures outbox == old(outbox) + Deliveries(old(members), data, open, failing)
    {
      var snapshot := members;
      var i := 0;
      while i < |snapshot|
        invariant 0 <= i <= |snapshot| && snapshot == old(members)
        invariant members == Survivors(snapshot[..i], open, failing) + snapshot[i..]
        invariant outbox == old(outbox) + Deliveries(snapshot[..i], data, open, failing)
      {
        var ws := snapshot[i];
        BroadcastStep(snapshot, i, data, open, failing);
        AppendAssociates(old(outbox), Deliveries(snapshot[..i], data, open, failing),
                         if ws in open && ws !in failing then [Delivery(ws, data)] else []);
        Visit(ws, data, open, failing);
        i := i + 1;
      }
      assert snapshot[..i] == snapshot;
      SurvivorsDistinct(snapshot, open, failing);
    }
  }
}
