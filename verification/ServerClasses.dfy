/** The connection contexts and the server as they are in the program: objects that the handlers update in place
    (networking/Server.cpp, networking/ServerFrontendGrpc.cpp).  Every method computes the function of `Registry` with
    the same name. */
module ServerClasses {
  import opened CombatEvents
  import opened Order
  import opened Wire
  import Registry
  import opened Frontend

  type ServerEvent = Registry.ServerEvent
  type Error = Registry.Error

  /** A context together with its connection interface.  `tableEntry` is the key that the source's `Iterator` points to;
      the ghost fields are the history of what was handed to gRPC. */
  class ConnectionContext {
    var tableEntry: Option<seq<u8>>
    var instanceId: u16
    var peers: map<seq<u8>, u16>
    var lastCallTime: nat
    var forceDisconnected: bool
    var writePending: bool
    var queuedEvents: seq<ServerEvent>
    ghost var tags: nat
    ghost var accepted: seq<ServerEvent>
    ghost var written: seq<ServerEvent>
    ghost var finishes: nat

    ghost function Box(): Registry.Outbox
      reads this
    {
      Registry.Outbox(writePending, queuedEvents, tags, accepted, written)
    }

    ghost function View(): Registry.Conn
      reads this
    {
      Registry.Conn(tableEntry, instanceId, peers, lastCallTime, forceDisconnected, finishes, Box())
    }

    constructor ()
      ensures View() == Registry.NEW_CONN
    {
      tableEntry, instanceId, peers, lastCallTime, forceDisconnected := None, 0, map[], 0, false;
      writePending, queuedEvents, tags, accepted, written, finishes := false, [], 0, [], [], 0;
    }

    method SendEvent(e: ServerEvent)
      requires !writePending
      modifies this
      ensures View() == old(View()).(outbox := Registry.Write(old(Box()), e))
    {
      written := written + [e];
      tags := tags + 1;
      writePending := true;
    }

    method SendEventToClient(e: ServerEvent)
      modifies this
      ensures View() == old(View()).(outbox := Registry.Accept(old(Box()), e))
    {
      accepted := accepted + [e];
      if !writePending {
        SendEvent(e);
      } else {
        queuedEvents := queuedEvents + [e];
      }
    }

    method HandleWriteEvent()
      requires writePending && tags > 0
      modifies this
      ensures View() == old(View()).(outbox := Registry.WriteDone(old(Box())))
    {
      writePending := false;
      tags := tags - 1;
      if |queuedEvents| > 0 {
        SendEvent(queuedEvents[0]);
        queuedEvents := queuedEvents[1..];
      }
    }

    method ForceDisconnect(shuttingDown: bool)
      modifies this
      ensures View() == Registry.Disconnected(old(View()), shuttingDown)
    {
      if forceDisconnected {
        return;
      }
      forceDisconnected := true;
      if shuttingDown {
        return;
      }
      finishes := finishes + 1;
    }
  }

  class EvtcRpcServer {
    var registeredAgents: map<seq<u8>, ConnectionContext>
    var disconnectThreshold: nat
    var shuttingDown: bool                      // the frontend's IsShuttingDown
    ghost var contexts: set<ConnectionContext>

    ghost function View(): Registry.Server<ConnectionContext>
      reads this, contexts
    {
      Registry.Server(registeredAgents, map c | c in contexts :: c.View(), shuttingDown)
    }

    ghost predicate Valid()
      reads this, contexts
    {
      ServerInv(View())
    }

    /** The objects' fields are those of `s`. */
    ghost predicate Shows(s: Registry.Server<ConnectionContext>)
      reads this, contexts
    {
      && registeredAgents == s.agents && contexts == s.conns.Keys && shuttingDown == s.shuttingDown
      && forall c :: c in contexts ==> c.View() == s.conns[c]
    }

    lemma ViewShows()
      ensures Shows(View())
    {
    }

    lemma ValidShows()
      requires Valid()
      ensures Shows(View()) && ServerInv(View()) && Bijection(View())
    {
    }

    lemma ShowsView(s: Registry.Server<ConnectionContext>)
      requires Shows(s)
      ensures View() == s && (ServerInv(s) ==> Valid())
    {
      hide ServerInv;
      assert View().conns == s.conns;
    }

    constructor ()
      ensures Valid() && View() == Registry.Server(map[], map[], false) && disconnectThreshold == 30000
    {
      registeredAgents, disconnectThreshold, shuttingDown, contexts := map[], 30000, false, {};
    }

    /** The context that the frontend makes for the next connection. */
    method Connect() returns (client: ConnectionContext)
      requires Valid()
      modifies `contexts
      ensures fresh(client) && contexts == old(contexts) + {client}
      ensures Valid() && View() == old(View()).With(client, Registry.NEW_CONN)
    {
      hide View, Valid, ServerInv, Bijection, Registry.NEW_CONN;
      ghost var s := View();
      ValidShows();
      client := new ConnectionContext();
      NewConnInv(s, client);
      contexts := contexts + {client};
      ShowsView(s.With(client, Registry.NEW_CONN));
    }

    method HandleRegisterSelf(id: u16, name: seq<u8>, client: ConnectionContext, now: nat) returns (error: Option<Error>)
      requires Valid() && client in contexts
      modifies `registeredAgents, contexts
      ensures Valid() && (View(), error) == Registry.HandleRegisterSelf(old(View()), client, id, name, now, disconnectThreshold)
    {
      hide View, Valid, ServerInv, Registry.Elapsed, Bijection, ConnOk, Registry.HandleRegisterSelf, Registry.Disconnected, Registry.Registered;
      ghost var s := View();
      ValidShows();
      RegisterInv(s, client, id, name, now, disconnectThreshold);
      ghost var s' := Registry.HandleRegisterSelf(s, client, id, name, now, disconnectThreshold).0;
      RegisterOutcome(s, client, id, name, now, disconnectThreshold);
      if name in registeredAgents {
        OwnEntry(name);
      }
      if client.forceDisconnected {
        return Some(Registry.AlreadyDisconnected);
      }
      if client.tableEntry.Some? {
        return Some(Registry.AlreadyRegistered);
      }
      if name in registeredAgents {
        if Registry.Elapsed(now, registeredAgents[name].lastCallTime) < disconnectThreshold {
          return Some(Registry.NameCollision);
        }
        Replace(name, client, id, s);
      } else {
        Enter(name, client, id, s);
      }
      ShowsView(s');
      return None;
    }

    /** The part of `HandleRegisterSelf` that takes the name over from its holder. */
    method Replace(name: seq<u8>, client: ConnectionContext, id: u16, ghost s: Registry.Server<ConnectionContext>)
      requires name in registeredAgents && registeredAgents[name] in contexts && client in contexts && Shows(s)
      modifies `registeredAgents, client, registeredAgents[name]
      ensures var other := s.agents[name];
              Shows(Registry.Registered(s.With(other, Registry.Disconnected(s.conns[other].(tableEntry := None), s.shuttingDown)), client, id, name))
    {
      hide Registry.Registered, Registry.Disconnected;
      var oldClient := registeredAgents[name];
      ghost var s1 := s.With(oldClient, Registry.Disconnected(s.conns[oldClient].(tableEntry := None), shuttingDown));
      Unregister(oldClient, s);
      Enter(name, client, id, s1);
    }

    method Unregister(oldClient: ConnectionContext, ghost s: Registry.Server<ConnectionContext>)
      requires oldClient in contexts && Shows(s)
      modifies oldClient
      ensures Shows(s.With(oldClient, Registry.Disconnected(s.conns[oldClient].(tableEntry := None), shuttingDown)))
    {
      hide Registry.Disconnected;
      oldClient.tableEntry := None;
      oldClient.ForceDisconnect(shuttingDown);
    }

    method Enter(name: seq<u8>, client: ConnectionContext, id: u16, ghost s: Registry.Server<ConnectionContext>)
      requires client in contexts && Shows(s)
      modifies `registeredAgents, client
      ensures Shows(Registry.Registered(s, client, id, name))
    {
      registeredAgents := registeredAgents[name := client];
      client.tableEntry := Some(name);
      client.instanceId := id;
    }

    lemma OwnEntry(name: seq<u8>)
      requires Valid() && name in registeredAgents
      ensures registeredAgents[name] in contexts && registeredAgents[name].tableEntry == Some(name)
    {
      assert name in View().agents && View().agents[name] in View().conns;
    }

    method HandleSetSelfId(id: u16, client: ConnectionContext) returns (error: Option<Error>)
      requires Valid() && client in contexts
      modifies client
      ensures Valid() && (View(), error) == Registry.HandleSetSelfId(old(View()), client, id)
    {
      hide View, Valid, ServerInv, Bijection;
      ghost var s := View();
      ValidShows();
      SetSelfIdInv(s, client, id);
      if client.tableEntry == None {
        return Some(Registry.NotRegistered);
      }
      client.instanceId := id;
      ShowsView(Registry.HandleSetSelfId(s, client, id).0);
      return None;
    }

    method HandleAddPeer(id: u16, name: seq<u8>, client: ConnectionContext) returns (error: Option<Error>)
      requires Valid() && client in contexts
      modifies client
      ensures Valid() && (View(), error) == Registry.HandleAddPeer(old(View()), client, id, name)
    {
      hide View, Valid, ServerInv, Bijection;
      ghost var s := View();
      ValidShows();
      AddPeerInv(s, client, id, name);
      if client.tableEntry == None {
        return Some(Registry.NotRegistered);
      }
      if name !in client.peers {
        client.peers := client.peers[name := id];
      } else {
        client.peers := client.peers[name := id];
      }
      ShowsView(Registry.HandleAddPeer(s, client, id, name).0);
      return None;
    }

    method HandleRemovePeer(id: u16, client: ConnectionContext) returns (error: Option<Error>)
      requires Valid() && client in contexts
      modifies client
      ensures Valid() && (View(), error) == Registry.HandleRemovePeer(old(View()), client, id)
    {
      hide View, Valid, ServerInv, Bijection, Registry.WithoutPeer;
      ghost var s := View();
      ValidShows();
      RemovePeerInv(s, client, id);
      if client.tableEntry == None {
        return Some(Registry.NotRegistered);
      }
      client.peers := ErasePeer(client.peers, id);
      ShowsView(Registry.HandleRemovePeer(s, client, id).0);
      return None;
    }

    /** The loop over the peers, which stops at the first match. */
    static method ErasePeer(peers: map<seq<u8>, u16>, id: u16) returns (left: map<seq<u8>, u16>)
      ensures left == Registry.WithoutPeer(peers, id)
    {
      var todo := peers.Keys;
      while todo != {}
        invariant todo <= peers.Keys
        invariant forall name :: name in peers && name !in todo ==> peers[name] != id
        invariant forall name, later :: name in peers && name !in todo && later in todo ==> NameLeq(name, later)
        decreases |todo|
      {
        var name := FirstName(todo);
        if peers[name] == id {
          ghost var names := Registry.NamesWith(peers, id);
          assert names <= todo && IsLeast(NameLeq, name, names);
          NameOrder();
          LeastExists(NameLeq, names);
          forall first | IsLeast(NameLeq, first, names) ensures first == name {
            LeastUnique(NameLeq, names, first, name);
          }
          return peers - {name};
        }
        todo := todo - {name};
      }
      assert Registry.NamesWith(peers, id) == {};
      return peers;
    }

    method HandleCombatEvent(event: CbtEvent, client: ConnectionContext) returns (error: Option<Error>)
      requires Valid() && client in contexts
      modifies contexts
      ensures Valid() && (View(), error) == Registry.HandleCombatEvent(old(View()), client, event)
    {
      ghost var s := View();
      ViewShows();
      CombatInv(s, client, event);
      ghost var s' := Registry.HandleCombatEvent(s, client, event).0;
      if client.tableEntry == None {
        return Some(Registry.NotRegistered);
      }
      var e := Registry.ServerEvent(event, client.instanceId);
      var peers := Receivers(client);
      assert s' == s.(conns := s'.conns) && forall to :: to in contexts ==>
        s'.conns[to] == if to in peers then s.conns[to].(outbox := Registry.Accept(s.conns[to].outbox, e)) else s.conns[to];
      hide ServerInv, Valid, View, Registry.HandleCombatEvent, Registry.Accept, Registry.Receives;
      SendToAll(peers, e, s, s');
      ShowsView(s');
      return None;
    }

    method SendToAll(peers: seq<ConnectionContext>, e: ServerEvent, ghost s: Registry.Server<ConnectionContext>, ghost s': Registry.Server<ConnectionContext>)
      requires Shows(s) && (forall to :: to in peers ==> to in contexts)
      requires forall j, k :: 0 <= j < k < |peers| ==> peers[j] != peers[k]
      requires s' == s.(conns := s'.conns) && s'.conns.Keys == s.conns.Keys
      requires forall to :: to in contexts ==>
                 s'.conns[to] == if to in peers then s.conns[to].(outbox := Registry.Accept(s.conns[to].outbox, e)) else s.conns[to]
      modifies contexts
      ensures Shows(s')
    {
      hide Registry.Accept;
      var i := 0;
      while i < |peers|
        invariant 0 <= i <= |peers|
        invariant registeredAgents == s.agents && shuttingDown == s.shuttingDown && contexts == s.conns.Keys
        invariant forall to :: to in contexts ==> to.View() == if to in peers[..i] then s'.conns[to] else s.conns[to]
      {
        assert peers[i] in peers && peers[i] !in peers[..i];
        assert peers[i].View() == s.conns[peers[i]];
        peers[i].SendEventToClient(e);
        assert peers[..i + 1] == peers[..i] + [peers[i]];
        i := i + 1;
      }
      assert peers[..i] == peers;
    }

    /** The part of `HandleCombatEvent` under the lock: whom to send to, each once. */
    method Receivers(client: ConnectionContext) returns (peers: seq<ConnectionContext>)
      requires Valid() && client in contexts
      ensures forall to :: to in contexts ==> (to in peers <==> Registry.Receives(View(), client, to))
      ensures forall to :: to in peers ==> to in contexts
      ensures forall j, k :: 0 <= j < k < |peers| ==> peers[j] != peers[k]
    {
      hide Valid, View, ServerInv, Bijection;
      ghost var s := View();
      ValidShows();
      peers := [];
      var todo := client.peers.Keys;
      while todo != {}
        invariant todo <= client.peers.Keys
        invariant forall k :: 0 <= k < |peers| ==> FoundBefore(s, client, todo, peers[k])
        invariant forall name :: name !in todo && Reaches(s, client, name) ==> s.agents[name] in peers
        invariant forall j, k :: 0 <= j < k < |peers| ==> peers[j] != peers[k]
        decreases |todo|
      {
        var name := FirstName(todo);
        todo := todo - {name};
        if name in registeredAgents && registeredAgents[name].instanceId == client.peers[name] {
          assert Reaches(s, client, name);
          peers := peers + [registeredAgents[name]];
        }
      }
      FoundAll(s, client, peers);
    }

    /** A peer name under which a connection is registered with the expected instance id. */
    static ghost predicate Reaches(s: Registry.Server<ConnectionContext>, client: ConnectionContext, name: seq<u8>)
    {
      && client in s.conns && name in s.conns[client].peers && name in s.agents && s.agents[name] in s.conns
      && s.conns[s.agents[name]].instanceId == s.conns[client].peers[name]
    }

    /** `to` is the connection of a peer name that the loop has passed, which is its own name. */
    static ghost predicate FoundBefore(s: Registry.Server<ConnectionContext>, client: ConnectionContext, todo: set<seq<u8>>, to: ConnectionContext)
    {
      && to in s.conns && s.conns[to].tableEntry.Some?
      && (var name := s.conns[to].tableEntry.value; name !in todo && Reaches(s, client, name) && s.agents[name] == to)
    }

    static lemma FoundAll(s: Registry.Server<ConnectionContext>, client: ConnectionContext, peers: seq<ConnectionContext>)
      requires Bijection(s) && client in s.conns
      requires forall k :: 0 <= k < |peers| ==> FoundBefore(s, client, {}, peers[k])
      requires forall name :: Reaches(s, client, name) ==> s.agents[name] in peers
      ensures forall to :: to in s.conns ==> (to in peers <==> Registry.Receives(s, client, to))
    {
      forall to | to in s.conns && Registry.Receives(s, client, to) ensures to in peers {
        var name :| name in s.conns[client].peers && name in s.agents && s.agents[name] == to && s.conns[to].instanceId == s.conns[client].peers[name];
        assert Reaches(s, client, name);
      }
    }

    method ForceDisconnect(client: ConnectionContext)
      requires Valid() && client in contexts
      modifies `registeredAgents, client
      ensures Valid() && View() == Registry.ForceDisconnect(old(View()), client)
    {
      ghost var s := View();
      ViewShows();
      DisconnectInv(s, client);
      hide View, Valid, ServerInv;
      ghost var s' := Registry.ForceDisconnect(s, client);
      ghost var left := s.(agents := s'.agents);
      assert s' == left.With(client, Registry.Disconnected(left.conns[client].(tableEntry := None), shuttingDown));
      if client.tableEntry.Some? {
        registeredAgents := registeredAgents - {client.tableEntry.value};
      }
      hide Registry.ForceDisconnect, Registry.Disconnected;
      Unregister(client, left);
      ShowsView(s');
    }

    method Handle(msg: ClientMsg, client: ConnectionContext, now: nat) returns (error: Option<Error>)
      requires Valid() && client in contexts
      modifies `registeredAgents, contexts
      ensures Valid() && (View(), error) == Registry.Handle(old(View()), client, msg, now, disconnectThreshold)
    {
      match msg
      case RegisterSelf(id, name) => error := HandleRegisterSelf(id, name, client, now);
      case SetSelfId(id) => error := HandleSetSelfId(id, client);
      case AddPeer(id, name) => error := HandleAddPeer(id, name, client);
      case RemovePeer(id) => error := HandleRemovePeer(id, client);
      case CombatEvent(event, _) => error := HandleCombatEvent(event, client);
    }

    method HandleIncomingMessage(bytes: seq<u8>, client: ConnectionContext, now: nat)
      requires Valid() && client in contexts
      modifies `registeredAgents, contexts
      ensures Valid() && View() == Registry.HandleIncoming(old(View()), client, bytes, now, disconnectThreshold)
    {
      hide ServerInv, Decode, Registry.Answered, Registry.ForceDisconnect;
      match Decode(bytes)
      case Malformed(_) => ForceDisconnect(client);
      case Ignored =>
      case Message(msg) => Answer(msg, client, now);
    }

    /** The handler's verdict on a well-formed message. */
    method Answer(msg: ClientMsg, client: ConnectionContext, now: nat)
      requires Valid() && client in contexts
      modifies `registeredAgents, contexts
      ensures Valid() && View() == Registry.Answered(old(View()), client, msg, now, disconnectThreshold)
    {
      hide View, Valid, ServerInv, Bijection, Registry.Handle, Registry.ForceDisconnect;
      ValidShows();
      HandleInv(View(), client, msg, now, disconnectThreshold);
      var error := Handle(msg, client, now);
      if error.Some? {
        ForceDisconnect(client);
      } else {
        Touch(client, now);
      }
    }

    method Touch(client: ConnectionContext, now: nat)
      requires Valid() && client in contexts
      modifies client
      ensures Valid() && client in old(View()).conns
      ensures View() == old(View()).With(client, old(View()).conns[client].(lastCallTime := now))
    {
      hide View, Valid, ServerInv, Bijection;
      ghost var s := View();
      ValidShows();
      TouchInv(s, client, now);
      client.lastCallTime := now;
      ShowsView(s.With(client, s.conns[client].(lastCallTime := now)));
    }
  }
}
