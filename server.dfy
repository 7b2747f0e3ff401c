/** The custom HTTP server's realtime part: its own registry of socket
    handles, which it publishes as the global `wsClients` and whose broadcast
    it publishes as `wsBroadcast`, and the dispatch of upgrade requests. */
module Server {
  import opened Sockets

  /** The one upgrade path the server answers itself. */
  const EmotionSocketPath: string := "/api/emotion/ws"

  /** What happens to an upgrade request. */
  datatype UpgradeAction = EmotionSocket | DelegatedToNext | Destroyed

  /** The upgrade dispatch: the emotion socket for exactly its path; any
      other path goes to the framework's handler, and the socket is destroyed
      when that handler throws. */
  function Dispatch(pathname: string, nextThrows: bool): (a: UpgradeAction)
    ensures a == EmotionSocket <==> pathname == EmotionSocketPath
    ensures a == Destroyed <==> pathname != EmotionSocketPath && nextThrows
  {
    if pathname == EmotionSocketPath then EmotionSocket
    else if nextThrows then Destroyed
    else DelegatedToNext
  }

  /** A path that differs from the emotion socket path in any way, a trailing
      slash included, is never answered by the emotion socket. */
  lemma TrailingSlashDelegated(nextThrows: bool)
    ensures Dispatch(EmotionSocketPath + "/", nextThrows) != EmotionSocket
  {
    assert |EmotionSocketPath + "/"| != |EmotionSocketPath|;
  }

  class WsServer {
    /** `clients`, also published as `global.wsClients`. */
    const clients: ClientSet

    ghost predicate Valid()
      reads this, clients
    {
      clients.Valid()
    }

    constructor ()
      ensures Valid() && fresh(clients) && clients.members == [] && clients.outbox == []
    {
      clients := new ClientSet();
    }

    /** The `upgrade` handler: a connection on the emotion socket is
        registered with `addClient`; other paths leave the registry alone. */
    method Upgrade(pathname: string, nextThrows: bool, ws: Client) returns (a: UpgradeAction)
      requires Valid()
      modifies clients
      ensures Valid() && a == Dispatch(pathname, nextThrows)
      ensures a == EmotionSocket ==> clients.members == Added(old(clients.members), ws)
      ensures a != EmotionSocket ==> clients.members == old(clients.members)
      ensures clients.outbox == old(clients.outbox)
    {
      if pathname == EmotionSocketPath {
        clients.AddClient(ws);
        a := EmotionSocket;
      } else if nextThrows {
        a := Destroyed;
      } else {
        a := DelegatedToNext;
      }
    }

    /** `wsBroadcast`: the registry's broadcast. */
    method Broadcast(data: Message, open: set<Client>, failing: set<Client>)
      requires Valid()
      modifies clients
      ensures Valid()
      ensures clients.members == Survivors(old(clients.members), open, failing)
      ensures clients.outbox == old(clients.outbox) + Deliveries(old(clients.members), data, open, failing)
    {
      clients.Broadcast(data, open, failing);
    }
  }
}
