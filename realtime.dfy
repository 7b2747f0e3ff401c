/** The realtime library the routes call: the shared `clients` registry is the
    server's `wsClients` when the custom server runs, else a fallback set
    created once; `broadcast` hands the envelope to the server's `wsBroadcast`
    when it exists and otherwise runs the same loop over the fallback. */
module Realtime {
  import opened Sockets

  class Hub {
    /** `clients = wsClients ?? _emotionClients` */
    const clients: ClientSet
    /** The registry the global `wsBroadcast` walks, when the server set one. */
    const wsBroadcast: ClientSet?
    /** Every envelope handed to `broadcast`, in order. */
    ghost var published: seq<Message>

    /** The registry a broadcast goes to. */
    function Target(): ClientSet
      reads this
    {
      if wsBroadcast != null then wsBroadcast else clients
    }

    ghost predicate Valid()
      reads this, clients, wsBroadcast
    {
      clients.Valid() && (wsBroadcast != null ==> wsBroadcast.Valid())
    }

    /** Module initialisation, given the globals the server may have set:
        `wsClients`, an earlier `_emotionClients` and the set behind
        `wsBroadcast`. The fallback set is created only when none exists. */
    constructor (wsClients: ClientSet?, emotionClients: ClientSet?, serverBroadcast: ClientSet?)
      requires wsClients != null ==> wsClients.Valid()
      requires emotionClients != null ==> emotionClients.Valid()
      requires serverBroadcast != null ==> serverBroadcast.Valid()
      ensures Valid() && published == [] && wsBroadcast == serverBroadcast
      ensures wsClients != null ==> clients == wsClients
      ensures wsClients == null && emotionClients != null ==> clients == emotionClients
      ensures wsClients == null && emotionClients == null ==> fresh(clients) && clients.members == []
    {
      var fallback := emotionClients;
      if fallback == null {
        fallback := new ClientSet();
      }
      clients := if wsClients != null then wsClients else fallback;
      wsBroadcast := serverBroadcast;
      published := [];
    }

    /** `addClient(ws)`: the handle joins the shared set. */
    method AddClient(ws: Client)
      requires Valid()
      modifies clients
      ensures Valid() && clients.members == Added(old(clients.members), ws)
      ensures clients.outbox == old(clients.outbox)
    {
      clients.AddClient(ws);
    }

    /** `broadcast(data)`: delegated to the server's broadcaster when it
        exists, otherwise the fallback loop over `clients`; either way the
        registry walked is `Target()` and nothing else changes. */
    method Broadcast(data: Message, open: set<Client>, failing: set<Client>)
      requires Valid()
      modifies this, Target()
      ensures Valid() && published == old(published) + [data]
      ensures Target().members == Survivors(old(Target().members), open, failing)
      ensures Target().outbox == old(Target().outbox) + Deliveries(old(Target().members), data, open, failing)
    {
      published := published + [data];
      if wsBroadcast != null {
        wsBroadcast.Broadcast(data, open, failing);
        return;
      }
      clients.Broadcast(data, open, failing);
    }
  }
}
