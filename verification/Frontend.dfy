/** The server over whole runs of the single `Serve` loop (networking/ServerFrontendGrpc.cpp): connections, their
    messages, the completion queue's tags, and shutdown at any time. */
module Frontend {
  import opened CombatEvents
  import opened Order
  import opened Wire
  import opened Registry

  /** The table and the connections' back pointers are inverse to each other. */
  ghost predicate Bijection<C>(s: Server<C>) {
    && (forall name :: name in s.agents ==> s.agents[name] in s.conns && s.conns[s.agents[name]].tableEntry == Some(name))
    && (forall c :: c in s.conns && s.conns[c].tableEntry.Some? ==>
          s.conns[c].tableEntry.value in s.agents && s.agents[s.conns[c].tableEntry.value] == c)
  }

  /** A connection that was force-disconnected is not in the table; `Finish` was called at most once. */
  ghost predicate ConnOk(conn: Conn) {
    && (conn.forceDisconnected ==> conn.tableEntry == None)
    && conn.finishes <= (if conn.forceDisconnected then 1 else 0)
    && Fifo(conn.outbox)
  }

  ghost predicate ServerInv<C>(s: Server<C>) {
    Bijection(s) && forall c :: c in s.conns ==> ConnOk(s.conns[c])
  }

  lemma DisconnectInv<C>(s: Server<C>, c: C)
    requires ServerInv(s) && c in s.conns
    ensures ServerInv(ForceDisconnect(s, c)) && ForceDisconnect(s, c).conns.Keys == s.conns.Keys
    ensures ForceDisconnect(s, c).conns[c].forceDisconnected
  {
  }

  lemma RegisteredInv<C>(s: Server<C>, c: C, id: u16, name: seq<u8>)
    requires ServerInv(s) && c in s.conns && s.conns[c].tableEntry == None && !s.conns[c].forceDisconnected && name !in s.agents
    ensures ServerInv(Registered(s, c, id, name)) && Registered(s, c, id, name).conns.Keys == s.conns.Keys
  {
  }

  /** Taking a name over is taking it from its holder and then registering. */
  lemma RegisterOutcome<C>(s: Server<C>, c: C, id: u16, name: seq<u8>, now: nat, threshold: nat)
    requires Bijection(s) && c in s.conns
    ensures var (s', error) := HandleRegisterSelf(s, c, id, name, now, threshold);
            var conn := s.conns[c];
            && (conn.forceDisconnected ==> error == Some(AlreadyDisconnected))
            && (!conn.forceDisconnected && conn.tableEntry.Some? ==> error == Some(AlreadyRegistered))
            && (error.Some? ==> s' == s)
            && (!conn.forceDisconnected && conn.tableEntry == None ==>
                  if name !in s.agents then error == None && s' == Registered(s, c, id, name)
                  else
                    var other := s.agents[name];
                    && other != c
                    && error == (if Elapsed(now, s.conns[other].lastCallTime) < threshold then Some(NameCollision) else None)
                    && (error == None ==>
                          s' == Registered(s.With(other, Disconnected(s.conns[other].(tableEntry := None), s.shuttingDown)), c, id, name)))
  {
  }

  /** Taking a name over is disconnecting its holder, as for any error, and then registering a free name. */
  lemma TakeOverDisconnects<C>(s: Server<C>, c: C, id: u16, name: seq<u8>, now: nat, threshold: nat)
    requires ServerInv(s) && c in s.conns && name in s.agents && HandleRegisterSelf(s, c, id, name, now, threshold).1 == None
    ensures var s1 := ForceDisconnect(s, s.agents[name]);
            && name !in s1.agents && c in s1.conns && s1.conns[c] == s.conns[c]
            && HandleRegisterSelf(s, c, id, name, now, threshold).0 == Registered(s1, c, id, name)
  {
    RegisterOutcome(s, c, id, name, now, threshold);
    var s1 := ForceDisconnect(s, s.agents[name]);
    assert s1.agents == s.agents - {name} && s1.conns[c] == s.conns[c];
    assert s1.agents[name := c] == s.agents[name := c];
    hide HandleRegisterSelf;
  }

  lemma RegisterInv<C>(s: Server<C>, c: C, id: u16, name: seq<u8>, now: nat, threshold: nat)
    requires ServerInv(s) && c in s.conns
    ensures var s' := HandleRegisterSelf(s, c, id, name, now, threshold).0; ServerInv(s') && s'.conns.Keys == s.conns.Keys
  {
    var (s', error) := HandleRegisterSelf(s, c, id, name, now, threshold);
    if error == None {
      if name !in s.agents {
        RegisteredInv(s, c, id, name);
      } else {
        TakeOverDisconnects(s, c, id, name, now, threshold);
        DisconnectInv(s, s.agents[name]);
        RegisteredInv(ForceDisconnect(s, s.agents[name]), c, id, name);
      }
    } else {
      RegisterOutcome(s, c, id, name, now, threshold);
    }
    hide ServerInv, HandleRegisterSelf, Registered, ForceDisconnect;
  }

  lemma CombatInv<C>(s: Server<C>, c: C, event: CbtEvent)
    requires ServerInv(s) && c in s.conns
    ensures var s' := HandleCombatEvent(s, c, event).0; ServerInv(s') && s'.conns.Keys == s.conns.Keys
  {
    var s' := HandleCombatEvent(s, c, event).0;
    var e := ServerEvent(event, s.conns[c].instanceId);
    forall to | to in s.conns ensures ConnOk(s'.conns[to]) && s'.conns[to].tableEntry == s.conns[to].tableEntry {
      FifoKept(s.conns[to].outbox, e);
    }
  }

  lemma SetSelfIdInv<C>(s: Server<C>, c: C, id: u16)
    requires ServerInv(s) && c in s.conns
    ensures var s' := HandleSetSelfId(s, c, id).0; ServerInv(s') && s'.conns.Keys == s.conns.Keys
  {
  }

  lemma AddPeerInv<C>(s: Server<C>, c: C, id: u16, name: seq<u8>)
    requires ServerInv(s) && c in s.conns
    ensures var s' := HandleAddPeer(s, c, id, name).0; ServerInv(s') && s'.conns.Keys == s.conns.Keys
  {
  }

  lemma RemovePeerInv<C>(s: Server<C>, c: C, id: u16)
    requires ServerInv(s) && c in s.conns
    ensures var s' := HandleRemovePeer(s, c, id).0; ServerInv(s') && s'.conns.Keys == s.conns.Keys
  {
    hide WithoutPeer;
  }

  lemma HandleInv<C>(s: Server<C>, c: C, msg: ClientMsg, now: nat, threshold: nat)
    requires ServerInv(s) && c in s.conns
    ensures var s' := Handle(s, c, msg, now, threshold).0; ServerInv(s') && s'.conns.Keys == s.conns.Keys
  {
    hide ServerInv, HandleRegisterSelf, HandleSetSelfId, HandleAddPeer, HandleRemovePeer, HandleCombatEvent;
    match msg
    case RegisterSelf(id, name) => RegisterInv(s, c, id, name, now, threshold);
    case SetSelfId(id) => SetSelfIdInv(s, c, id);
    case AddPeer(id, name) => AddPeerInv(s, c, id, name);
    case RemovePeer(id) => RemovePeerInv(s, c, id);
    case CombatEvent(event, _) => CombatInv(s, c, event);
  }

  lemma AnsweredInv<C>(s: Server<C>, c: C, msg: ClientMsg, now: nat, threshold: nat)
    requires ServerInv(s) && c in s.conns
    ensures var s' := Answered(s, c, msg, now, threshold); ServerInv(s') && s'.conns.Keys == s.conns.Keys
  {
    HandleInv(s, c, msg, now, threshold);
    var (s', error) := Handle(s, c, msg, now, threshold);
    DisconnectInv(s', c);
    TouchInv(s', c, now);
    hide Handle, ServerInv, ForceDisconnect;
  }

  lemma TouchInv<C>(s: Server<C>, c: C, now: nat)
    requires ServerInv(s) && c in s.conns
    ensures ServerInv(s.With(c, s.conns[c].(lastCallTime := now)))
  {
  }

  lemma IncomingInv<C>(s: Server<C>, c: C, bytes: seq<u8>, now: nat, threshold: nat)
    requires ServerInv(s) && c in s.conns
    ensures var s' := HandleIncoming(s, c, bytes, now, threshold); ServerInv(s') && s'.conns.Keys == s.conns.Keys
  {
    hide Decode, Answered, ServerInv;
    match Decode(bytes)
    case Malformed(_) => DisconnectInv(s, c);
    case Ignored =>
    case Message(msg) => AnsweredInv(s, c, msg, now, threshold);
  }

  /** What an attempt at the name of a connection meets whose last message was just handled: a refusal within the threshold's time,
      and later the name, with its holder disconnected. */
  lemma RecentCallerKeepsName<C>(s: Server<C>, c: C, msg: ClientMsg, time: nat, d: C, id: u16, name: seq<u8>, now: nat, threshold: nat)
    requires ServerInv(s) && c in s.conns && d in s.conns && Handle(s, c, msg, time, threshold).1 == None
    requires var s' := Answered(s, c, msg, time, threshold);
             && c in s'.conns && s'.conns[c].tableEntry == Some(name)
             && d in s'.conns && s'.conns[d].tableEntry == None && !s'.conns[d].forceDisconnected
    requires 0 <= now - time < 0x1_0000_0000_0000_0000
    ensures ServerInv(Answered(s, c, msg, time, threshold))
    ensures var s' := Answered(s, c, msg, time, threshold);
            var (after, error) := HandleRegisterSelf(s', d, id, name, now, threshold);
            if now - time < threshold then error == Some(NameCollision) && after == s'
            else
              && error == None && name in after.agents && after.agents[name] == d
              && c in after.conns && after.conns[c].forceDisconnected && after.conns[c].tableEntry == None
  {
    hide Handle, Answered, ServerInv, Bijection, HandleRegisterSelf;
    HasEntry(s, c);
    AnsweredInv(s, c, msg, time, threshold);
    AnsweredTime(s, c, msg, time, threshold);
    var s' := Answered(s, c, msg, time, threshold);
    HasEntry(s', c);
    RegisterOutcome(s', d, id, name, now, threshold);
  }

  lemma HasEntry<C>(s: Server<C>, c: C)
    requires ServerInv(s) && c in s.conns
    ensures Bijection(s) && forall name :: name in s.agents ==> s.agents[name] in s.conns
    ensures s.conns[c].tableEntry.Some? ==> s.conns[c].tableEntry.value in s.agents && s.agents[s.conns[c].tableEntry.value] == c
  {
    hide ConnOk;
  }

  lemma AnsweredTime<C>(s: Server<C>, c: C, msg: ClientMsg, time: nat, threshold: nat)
    requires ServerInv(s) && c in s.conns && Handle(s, c, msg, time, threshold).1 == None
    ensures var s' := Answered(s, c, msg, time, threshold); c in s'.conns && s'.conns[c].lastCallTime == time
  {
    HandleInv(s, c, msg, time, threshold);
    hide Handle, ServerInv;
  }

  // ----- Routing

  /** With the bijection, an event of `c` goes to the connections whose own name is in the peers of `c`, with the
      instance id that they reported themselves. */
  lemma ReceiversExact<C>(s: Server<C>, c: C, to: C)
    requires ServerInv(s) && c in s.conns && to in s.conns
    ensures Receives(s, c, to) <==>
            (var entry := s.conns[to].tableEntry;
             entry.Some? && entry.value in s.conns[c].peers && s.conns[c].peers[entry.value] == s.conns[to].instanceId)
  {
  }

  /** A combat event of a registered connection is accepted exactly once by each receiver, tagged with the sender's current
      instance id, and by nobody else; nothing but write queues changes. */
  lemma RoutingExact<C>(s: Server<C>, c: C, event: CbtEvent, to: C)
    requires ServerInv(s) && c in s.conns && to in s.conns && s.conns[c].tableEntry.Some?
    ensures var (s', error) := HandleCombatEvent(s, c, event);
            && error == None && s'.agents == s.agents && to in s'.conns
            && s'.conns[to] == s.conns[to].(outbox := s'.conns[to].outbox)
            && (var entry := s.conns[to].tableEntry;
                if entry.Some? && entry.value in s.conns[c].peers && s.conns[c].peers[entry.value] == s.conns[to].instanceId
                then s'.conns[to].outbox.accepted == s.conns[to].outbox.accepted + [ServerEvent(event, s.conns[c].instanceId)]
                else s'.conns[to].outbox == s.conns[to].outbox)
  {
    ReceiversExact(s, c, to);
  }

  // ----- The Serve loop

  datatype ShutdownState = Online | ShouldShutdown | ShuttingDown

  /** `readTags` are the live ReadMessage tags, `connect` the context of the Connect tag; the WriteEvent tags are counted in the
      outboxes.  `dropped` (history) are the connections of which a WriteEvent tag came back in vain. */
  datatype Loop<C> = Loop(server: Server<C>, readTags: multiset<C>, connect: Option<C>, state: ShutdownState, dropped: set<C>)

  datatype Action<C> =
    | Shutdown
    | ConnectTag(ok: bool, newcomer: C)                      // `newcomer` is the context made for the next connection
    | ReadTag(c: C, ok: bool, bytes: seq<u8>, now: nat)
    | WriteTag(c: C, ok: bool)
    | OtherTag                                            // Disconnect and WakeUp tags are only deleted

  ghost predicate Enabled<C>(l: Loop<C>, a: Action<C>) {
    match a
    case ConnectTag(ok, newcomer) => l.connect.Some? && newcomer !in l.server.conns
    case ReadTag(c, _, _, _) => c in l.readTags
    case WriteTag(c, _) => c in l.server.conns && l.server.conns[c].outbox.tags > 0
    case _ => true
  }

  /** What the loop does before it looks at a tag. */
  ghost function NoticeShutdown<C>(l: Loop<C>): Loop<C> {
    if l.state == ShouldShutdown then l.(state := ShuttingDown, server := l.server.(shuttingDown := true)) else l
  }

  /** `HandleConnect`: the connection gets its ReadMessage tag, and a new context waits for the next connection. */
  ghost function Connected<C>(n: Loop<C>, newcomer: C): Loop<C>
    requires n.connect.Some?
  {
    n.(readTags := n.readTags + multiset{n.connect.value}, connect := Some(newcomer), server := n.server.With(newcomer, NEW_CONN))
  }

  /** The client closed, or the server shuts down. */
  ghost function ReadLost<C>(n: Loop<C>, c: C): Loop<C>
    requires c in n.server.conns
  {
    n.(readTags := n.readTags - multiset{c}, server := ForceDisconnect(n.server, c))
  }

  ghost function Do<C>(l: Loop<C>, a: Action<C>, threshold: nat): Loop<C>
    requires Enabled(l, a) && LoopInv(l)
  {
    var n := NoticeShutdown(l);
    var s := n.server;
    match a
    case Shutdown => if l.state == Online then l.(state := ShouldShutdown) else l
    case ConnectTag(ok, newcomer) =>
      if !ok || n.state == ShuttingDown then n.(connect := None) else Connected(n, newcomer)
    case ReadTag(c, ok, bytes, now) =>
      if !ok || n.state == ShuttingDown then ReadLost(n, c)
      else n.(server := HandleIncoming(s, c, bytes, now, threshold))
    case WriteTag(c, ok) =>
      var conn := s.conns[c];
      if !ok || n.state == ShuttingDown then
        n.(server := s.With(c, conn.(outbox := WriteDropped(conn.outbox))), dropped := n.dropped + {c})
      else n.(server := s.With(c, conn.(outbox := WriteDone(conn.outbox))))
    case OtherTag => n
  }

  ghost predicate LoopInv<C>(l: Loop<C>) {
    && ServerInv(l.server)
    && (forall c :: c in l.readTags ==> c in l.server.conns && l.readTags[c] == 1)
    && (forall c :: c in l.server.conns && l.server.conns[c].tableEntry.Some? ==> c in l.readTags)
    && (l.connect.Some? ==> l.connect.value in l.server.conns && l.connect.value !in l.readTags)
    && (forall c :: c in l.server.conns ==> (c in l.dropped <==> !Lively(l.server.conns[c].outbox)))
    && (forall c :: c in l.dropped ==> c in l.server.conns)
  }

  /** The loop starts with the Connect tag of a first context. */
  ghost predicate Start<C>(l: Loop<C>) {
    && l.connect.Some? && l.server == Server(map[], map[l.connect.value := NEW_CONN], false)
    && l.readTags == multiset{} && l.state == Online && l.dropped == {}
  }

  /** Messages change write queues only by accepting a combat event. */
  lemma HandleOutbox<C>(s: Server<C>, c: C, msg: ClientMsg, now: nat, threshold: nat, to: C)
    requires ServerInv(s) && c in s.conns && to in s.conns
    ensures var s' := Handle(s, c, msg, now, threshold).0;
            && to in s'.conns
            && (s'.conns[to].outbox == s.conns[to].outbox
                || exists e :: s'.conns[to].outbox == Accept(s.conns[to].outbox, e))
  {
  }

  /** Incoming messages change the outbox of `to` only by accepting a combat event. */
  lemma IncomingOutbox<C>(s: Server<C>, c: C, bytes: seq<u8>, now: nat, threshold: nat, to: C)
    requires ServerInv(s) && c in s.conns && to in s.conns
    ensures var s' := HandleIncoming(s, c, bytes, now, threshold);
            && to in s'.conns
            && (s'.conns[to].outbox == s.conns[to].outbox
                || exists e :: s'.conns[to].outbox == Accept(s.conns[to].outbox, e))
  {
    hide Decode, Handle, Accept;
    if Decode(bytes).Message? {
      HandleOutbox(s, c, Decode(bytes).msg, now, threshold, to);
    }
  }

  lemma IncomingLively<C>(s: Server<C>, c: C, bytes: seq<u8>, now: nat, threshold: nat, to: C)
    requires ServerInv(s) && c in s.conns && to in s.conns
    ensures var s' := HandleIncoming(s, c, bytes, now, threshold);
            to in s'.conns && (Lively(s'.conns[to].outbox) <==> Lively(s.conns[to].outbox))
  {
    IncomingOutbox(s, c, bytes, now, threshold, to);
    assert Fifo(s.conns[to].outbox);
    hide HandleIncoming, ServerInv;
  }

  /** Only a connection's own message can enter it into the table, and none clears a disconnection. */
  lemma HandleOthers<C>(s: Server<C>, c: C, msg: ClientMsg, now: nat, threshold: nat, to: C)
    requires ServerInv(s) && c in s.conns && to in s.conns
    ensures var s' := Handle(s, c, msg, now, threshold).0;
            && to in s'.conns
            && (to != c && s.conns[to].tableEntry == None ==> s'.conns[to].tableEntry == None)
            && (s.conns[to].forceDisconnected ==> s'.conns[to].forceDisconnected && s'.conns[to].finishes == s.conns[to].finishes)
  {
  }

  lemma IncomingOthers<C>(s: Server<C>, c: C, bytes: seq<u8>, now: nat, threshold: nat, to: C)
    requires ServerInv(s) && c in s.conns && to in s.conns
    ensures var s' := HandleIncoming(s, c, bytes, now, threshold);
            && to in s'.conns
            && (to != c && s.conns[to].tableEntry == None ==> s'.conns[to].tableEntry == None)
            && (s.conns[to].forceDisconnected ==> s'.conns[to].forceDisconnected && s'.conns[to].finishes == s.conns[to].finishes)
  {
    hide Decode, Handle;
    if Decode(bytes).Message? {
      HandleOthers(s, c, Decode(bytes).msg, now, threshold, to);
    }
  }

  lemma NoticeInv<C>(l: Loop<C>)
    requires LoopInv(l)
    ensures LoopInv(NoticeShutdown(l)) && NoticeShutdown(l).server.conns == l.server.conns
    ensures NoticeShutdown(l) == l.(state := NoticeShutdown(l).state, server := NoticeShutdown(l).server)
  {
  }

  lemma HandledInv<C>(n: Loop<C>, c: C, bytes: seq<u8>, now: nat, threshold: nat)
    requires LoopInv(n) && c in n.readTags
    ensures LoopInv(n.(server := HandleIncoming(n.server, c, bytes, now, threshold)))
  {
    IncomingInv(n.server, c, bytes, now, threshold);
    var s' := HandleIncoming(n.server, c, bytes, now, threshold);
    hide HandleIncoming, ServerInv, Lively;
    forall to | to in s'.conns ensures Lively(s'.conns[to].outbox) <==> Lively(n.server.conns[to].outbox) {
      IncomingLively(n.server, c, bytes, now, threshold, to);
    }
    forall to | to in s'.conns && s'.conns[to].tableEntry.Some? ensures to in n.readTags {
      IncomingOthers(n.server, c, bytes, now, threshold, to);
    }
  }

  lemma ReadLostInv<C>(n: Loop<C>, c: C)
    requires LoopInv(n) && c in n.readTags
    ensures LoopInv(ReadLost(n, c))
  {
    hide ServerInv, Lively, ForceDisconnect;
    DisconnectInv(n.server, c);
    DisconnectKeeps(n.server, c);
  }

  lemma DisconnectKeeps<C>(s: Server<C>, c: C)
    requires c in s.conns
    ensures var s' := ForceDisconnect(s, c);
            forall d :: d in s.conns ==>
              && d in s'.conns && s'.conns[d].outbox == s.conns[d].outbox
              && s'.conns[d].tableEntry == if d == c then None else s.conns[d].tableEntry
  {
  }

  lemma ReadInv<C>(l: Loop<C>, c: C, ok: bool, bytes: seq<u8>, now: nat, threshold: nat)
    requires LoopInv(l) && c in l.readTags
    ensures LoopInv(Do(l, ReadTag(c, ok, bytes, now), threshold))
  {
    NoticeInv(l);
    var n := NoticeShutdown(l);
    assert c in n.server.conns;
    hide HandleIncoming, NoticeShutdown, ReadLost, LoopInv;
    if !ok || n.state == ShuttingDown {
      ReadLostInv(n, c);
    } else {
      HandledInv(n, c, bytes, now, threshold);
    }
  }

  lemma OutboxInv<C>(s: Server<C>, c: C, box: Outbox)
    requires ServerInv(s) && c in s.conns && Fifo(box)
    ensures ServerInv(s.With(c, s.conns[c].(outbox := box)))
  {
    hide Fifo;
  }

  lemma WriteDoneInv<C>(n: Loop<C>, c: C)
    requires LoopInv(n) && c in n.server.conns && n.server.conns[c].outbox.tags > 0
    ensures LoopInv(n.(server := n.server.With(c, n.server.conns[c].(outbox := WriteDone(n.server.conns[c].outbox)))))
  {
    var box := n.server.conns[c].outbox;
    HasFifo(n.server, c);
    FifoKept(box, ServerEvent(AnyEvent(), 0));
    hide ServerInv, Fifo, WriteDone, WriteDropped, Lively, AnyEvent, Accept;
    OutboxInv(n.server, c, WriteDone(box));
  }

  lemma WriteLostInv<C>(n: Loop<C>, c: C)
    requires LoopInv(n) && c in n.server.conns && n.server.conns[c].outbox.tags > 0
    ensures LoopInv(n.(server := n.server.With(c, n.server.conns[c].(outbox := WriteDropped(n.server.conns[c].outbox))),
                       dropped := n.dropped + {c}))
  {
    var box := n.server.conns[c].outbox;
    HasFifo(n.server, c);
    FifoKept(box, ServerEvent(AnyEvent(), 0));
    assert !Lively(WriteDropped(box));
    hide ServerInv, Fifo, WriteDone, WriteDropped, Lively, AnyEvent, Accept;
    OutboxInv(n.server, c, WriteDropped(box));
  }

  lemma HasFifo<C>(s: Server<C>, c: C)
    requires ServerInv(s) && c in s.conns
    ensures Fifo(s.conns[c].outbox)
  {
    hide Fifo, Bijection;
  }

  lemma WriteInv<C>(l: Loop<C>, c: C, ok: bool, threshold: nat)
    requires LoopInv(l) && Enabled(l, WriteTag(c, ok))
    ensures LoopInv(Do(l, WriteTag(c, ok), threshold))
  {
    hide LoopInv, NoticeShutdown, WriteDone, WriteDropped;
    NoticeInv(l);
    var n := NoticeShutdown(l);
    if !ok || n.state == ShuttingDown {
      WriteLostInv(n, c);
    } else {
      WriteDoneInv(n, c);
    }
  }

  function AnyEvent(): CbtEvent {
    CbtEvent(0, 0, 0, 0, 0, 0, 0, 0, 0, 0, 0, 0, 0, 0, 0, 0, 0, 0, 0, 0, 0, 0, 0, 0, 0, 0, 0)
  }

  lemma NewConnInv<C>(s: Server<C>, newcomer: C)
    requires ServerInv(s) && newcomer !in s.conns
    ensures ServerInv(s.With(newcomer, NEW_CONN))
  {
  }

  lemma ConnectedInv<C>(n: Loop<C>, newcomer: C)
    requires LoopInv(n) && n.connect.Some? && newcomer !in n.server.conns
    ensures LoopInv(Connected(n, newcomer))
  {
    NewConnInv(n.server, newcomer);
    hide ServerInv;
  }

  lemma ConnectInv<C>(l: Loop<C>, ok: bool, newcomer: C, threshold: nat)
    requires LoopInv(l) && Enabled(l, ConnectTag(ok, newcomer))
    ensures LoopInv(Do(l, ConnectTag(ok, newcomer), threshold))
  {
    NoticeInv(l);
    var n := NoticeShutdown(l);
    assert LoopInv(n.(connect := None));
    hide NoticeShutdown, LoopInv, Connected;
    ConnectedInv(n, newcomer);
  }

  lemma StepInv<C>(l: Loop<C>, a: Action<C>, threshold: nat)
    requires LoopInv(l) && Enabled(l, a)
    ensures LoopInv(Do(l, a, threshold))
  {
    NoticeInv(l);
    hide LoopInv, NoticeShutdown;
    match a
    case Shutdown => ShutdownInv(l);
    case ReadTag(c, ok, bytes, now) => ReadInv(l, c, ok, bytes, now, threshold);
    case WriteTag(c, ok) => WriteInv(l, c, ok, threshold);
    case ConnectTag(ok, newcomer) => ConnectInv(l, ok, newcomer, threshold);
    case OtherTag =>
  }

  lemma ShutdownInv<C>(l: Loop<C>)
    requires LoopInv(l)
    ensures LoopInv(l.(state := ShouldShutdown))
  {
  }

  lemma StartInv<C>(l: Loop<C>)
    requires Start(l)
    ensures LoopInv(l)
  {
  }

  ghost predicate Legal<C>(l: Loop<C>, actions: seq<Action<C>>, threshold: nat)
    requires LoopInv(l)
    decreases |actions|
  {
    actions == [] ||
    (Enabled(l, actions[0]) &&
     (StepInv(l, actions[0], threshold); Legal(Do(l, actions[0], threshold), actions[1..], threshold)))
  }

  ghost function Perform<C>(l: Loop<C>, actions: seq<Action<C>>, threshold: nat): (l': Loop<C>)
    requires LoopInv(l) && Legal(l, actions, threshold)
    ensures LoopInv(l')
    decreases |actions|
  {
    if actions == [] then l
    else
      StepInv(l, actions[0], threshold);
      Perform(Do(l, actions[0], threshold), actions[1..], threshold)
  }

  /** Over every run: the table and the back pointers are inverse, a connection once force-disconnected is out of the table
      and was finished at most once, and every connection's writes are a FIFO with at most one outstanding. */
  lemma RegistryAlways<C>(l: Loop<C>, actions: seq<Action<C>>, threshold: nat)
    requires Start(l)
    ensures LoopInv(l)
    ensures Legal(l, actions, threshold) ==> ServerInv(Perform(l, actions, threshold).server)
  {
    StartInv(l);
  }

  /** Once the loop has retired all ReadMessage tags the table is empty, which the server's destructor asserts. */
  lemma DrainEmptiesTable<C>(l: Loop<C>, actions: seq<Action<C>>, threshold: nat)
    requires LoopInv(l) && Legal(l, actions, threshold)
    requires Perform(l, actions, threshold).readTags == multiset{}
    ensures Perform(l, actions, threshold).server.agents == map[]
  {
    var l' := Perform(l, actions, threshold);
    forall name ensures name !in l'.server.agents {
      if name in l'.server.agents {
        assert false;
      }
    }
  }

  /** What a disconnected connection keeps. */
  ghost predicate StaysOut<C>(s: Server<C>, s': Server<C>, c: C)
    requires c in s.conns
  {
    && c in s'.conns
    && (s.conns[c].forceDisconnected ==> s'.conns[c].forceDisconnected && s'.conns[c].finishes == s.conns[c].finishes)
  }

  lemma DisconnectedStep<C>(l: Loop<C>, a: Action<C>, threshold: nat, c: C)
    requires LoopInv(l) && Enabled(l, a) && c in l.server.conns
    ensures StaysOut(l.server, Do(l, a, threshold).server, c)
  {
    NoticeInv(l);
    var n := NoticeShutdown(l);
    hide HandleIncoming, NoticeShutdown, LoopInv, ServerInv, Connected, ReadLost, WriteDone, WriteDropped;
    match a
    case ReadTag(d, ok, bytes, now) =>
      if !ok || n.state == ShuttingDown {
        LostStaysOut(n, d, c);
      } else {
        IncomingOthers(n.server, d, bytes, now, threshold, c);
      }
    case ConnectTag(ok, newcomer) => ConnectedStaysOut(n, newcomer, c);
    case _ =>
  }

  lemma LostStaysOut<C>(n: Loop<C>, d: C, c: C)
    requires d in n.server.conns && c in n.server.conns
    ensures StaysOut(n.server, ReadLost(n, d).server, c)
  {
  }

  lemma ConnectedStaysOut<C>(n: Loop<C>, newcomer: C, c: C)
    requires n.connect.Some? && newcomer !in n.server.conns && c in n.server.conns
    ensures StaysOut(n.server, Connected(n, newcomer).server, c)
  {
  }

  /** Force-disconnection is final: the connection never returns to the table and is not finished again. */
  lemma {:induction false} DisconnectedForever<C>(l: Loop<C>, actions: seq<Action<C>>, threshold: nat, c: C)
    requires LoopInv(l) && Legal(l, actions, threshold) && c in l.server.conns && l.server.conns[c].forceDisconnected
    ensures var s' := Perform(l, actions, threshold).server;
            && c in s'.conns && s'.conns[c].forceDisconnected && s'.conns[c].tableEntry == None
            && s'.conns[c].finishes == l.server.conns[c].finishes
            && forall name :: name in s'.agents ==> s'.agents[name] != c
    decreases |actions|
  {
    if actions == [] {
      assert ConnOk(l.server.conns[c]);
    } else {
      StepInv(l, actions[0], threshold);
      DisconnectedStep(l, actions[0], threshold, c);
      DisconnectedForever(Do(l, actions[0], threshold), actions[1..], threshold, c);
    }
  }

  // ----- Failed writes

  /** In every run, the connections of which a write tag came back in vain are exactly those that are stalled. */
  lemma StalledExactlyIfDropped<C>(l: Loop<C>, actions: seq<Action<C>>, threshold: nat, c: C)
    requires LoopInv(l) && Legal(l, actions, threshold) && c in Perform(l, actions, threshold).server.conns
    ensures var l' := Perform(l, actions, threshold); c in l'.dropped <==> Stalled(l'.server.conns[c].outbox)
  {
    var l' := Perform(l, actions, threshold);
    assert Fifo(l'.server.conns[c].outbox);
  }

  /** What a stalled outbox keeps, and how it may grow. */
  ghost predicate OnlyQueues(box: Outbox, box': Outbox) {
    Stalled(box') && box'.written == box.written && box.accepted <= box'.accepted
  }

  lemma IncomingStalled<C>(s: Server<C>, d: C, bytes: seq<u8>, now: nat, threshold: nat, c: C)
    requires ServerInv(s) && d in s.conns && c in s.conns && Stalled(s.conns[c].outbox)
    ensures var s' := HandleIncoming(s, d, bytes, now, threshold); c in s'.conns && OnlyQueues(s.conns[c].outbox, s'.conns[c].outbox)
  {
    IncomingOutbox(s, d, bytes, now, threshold, c);
    hide HandleIncoming, ServerInv;
  }

  lemma StalledStep<C>(l: Loop<C>, a: Action<C>, threshold: nat, c: C)
    requires LoopInv(l) && Enabled(l, a) && c in l.server.conns && Stalled(l.server.conns[c].outbox)
    ensures var l' := Do(l, a, threshold); c in l'.server.conns && OnlyQueues(l.server.conns[c].outbox, l'.server.conns[c].outbox)
  {
    NoticeInv(l);
    var n := NoticeShutdown(l);
    assert ServerInv(n.server);
    hide HandleIncoming, NoticeShutdown, LoopInv, ServerInv, Connected, ReadLost, WriteDone, WriteDropped;
    match a
    case ReadTag(d, ok, bytes, now) =>
      LostOutbox(n, d, c);
      IncomingStalled(n.server, d, bytes, now, threshold, c);
    case ConnectTag(ok, newcomer) =>
      if n.connect.Some? {
        ConnectedOutbox(n, newcomer, c);
      }
    case _ =>
  }

  lemma LostOutbox<C>(n: Loop<C>, d: C, c: C)
    requires d in n.server.conns && c in n.server.conns
    ensures c in ReadLost(n, d).server.conns && ReadLost(n, d).server.conns[c].outbox == n.server.conns[c].outbox
  {
  }

  lemma ConnectedOutbox<C>(n: Loop<C>, newcomer: C, c: C)
    requires n.connect.Some? && newcomer !in n.server.conns && c in n.server.conns
    ensures c in Connected(n, newcomer).server.conns && Connected(n, newcomer).server.conns[c] == n.server.conns[c]
  {
  }

  /** A failed write stalls the connection for good: whatever the loop does afterwards, nothing more is written to it, and what it
      still accepts is queued behind the write that never comes back. */
  lemma {:induction false} FailedWriteStalls<C>(l: Loop<C>, actions: seq<Action<C>>, threshold: nat, c: C)
    requires LoopInv(l) && Legal(l, actions, threshold) && c in l.server.conns && Stalled(l.server.conns[c].outbox)
    ensures var l' := Perform(l, actions, threshold); c in l'.server.conns && OnlyQueues(l.server.conns[c].outbox, l'.server.conns[c].outbox)
    decreases |actions|
  {
    hide LoopInv, Do, Enabled;
    if actions != [] {
      StepInv(l, actions[0], threshold);
      StalledStep(l, actions[0], threshold, c);
      FailedWriteStalls(Do(l, actions[0], threshold), actions[1..], threshold, c);
    }
  }

  // ----- A run with a failed write

  datatype Two = First | Second

  function OneName(): seq<u8> {
    [97]
  }

  function Blobs(): seq<ClientMsg> {
    [RegisterSelf(1, OneName()), AddPeer(1, OneName()), CombatEvent(AnyEvent(), 0)]
  }

  /** A first client connects, registers, names itself as its peer and sends an event, and writing this event back to it fails. */
  function FailingRun(): seq<Action<Two>> {
    [ConnectTag(true, Second), ReadTag(First, true, Encode(Blobs()[0]), 0), ReadTag(First, true, Encode(Blobs()[1]), 0),
     ReadTag(First, true, Encode(Blobs()[2]), 0), WriteTag(First, false)]
  }

  /** The run's states: the first connection's, with the table that belongs to it. */
  function RunState(conn: Conn, dropped: set<Two>): Loop<Two> {
    Loop(Server(if conn.tableEntry.Some? then map[conn.tableEntry.value := First] else map[], map[First := conn, Second := NEW_CONN], false),
         multiset{First}, Some(Second), Online, dropped)
  }

  function ConnAfter(k: nat): Conn {
    var registered := NEW_CONN.(tableEntry := Some(OneName()), instanceId := 1);
    var peered := registered.(peers := map[OneName() := 1]);
    var e := ServerEvent(AnyEvent(), 1);
    if k == 0 then NEW_CONN
    else if k == 1 then registered
    else if k == 2 then peered
    else peered.(outbox := Outbox(true, [], if k == 3 then 1 else 0, [e], [e]))
  }

  lemma ReadsAsMessage(msg: ClientMsg, l: Loop<Two>, threshold: nat)
    requires NameLength(msg) < 256 && LoopInv(l) && l.state == Online && First in l.readTags
    ensures Do(l, ReadTag(First, true, Encode(msg), 0), threshold) == l.(server := Answered(l.server, First, msg, 0, threshold))
  {
    RoundTrip(msg);
    hide Decode, Encode, Answered, LoopInv;
  }

  lemma RegisterStep(threshold: nat)
    ensures Answered(RunState(ConnAfter(0), {}).server, First, Blobs()[0], 0, threshold) == RunState(ConnAfter(1), {}).server
  {
    var s, s' := RunState(ConnAfter(0), {}).server, RunState(ConnAfter(1), {}).server;
    assert HandleRegisterSelf(s, First, 1, OneName(), 0, threshold) == (Registered(s, First, 1, OneName()), None);
    assert Registered(s, First, 1, OneName()).agents == s'.agents;
    assert Registered(s, First, 1, OneName()).conns == s'.conns;
    assert Registered(s, First, 1, OneName()) == s';
    assert Handle(s, First, Blobs()[0], 0, threshold) == (s', None);
    assert s'.With(First, s'.conns[First].(lastCallTime := 0)) == s' by {
      assert s'.conns[First := s'.conns[First].(lastCallTime := 0)] == s'.conns;
    }
  }

  lemma PeerStep(threshold: nat)
    ensures Answered(RunState(ConnAfter(1), {}).server, First, Blobs()[1], 0, threshold) == RunState(ConnAfter(2), {}).server
  {
  }

  lemma EventStep(threshold: nat)
    ensures Answered(RunState(ConnAfter(2), {}).server, First, Blobs()[2], 0, threshold) == RunState(ConnAfter(3), {}).server
  {
    hide AnyEvent;
    var s, s' := RunState(ConnAfter(2), {}).server, RunState(ConnAfter(3), {}).server;
    assert OneName() in s.conns[First].peers && s.agents[OneName()] == First;
    assert Receives(s, First, First) && !Receives(s, First, Second);
    var (after, error) := HandleCombatEvent(s, First, AnyEvent());
    assert after.conns[First] == s'.conns[First] && after.conns[Second] == s'.conns[Second];
    assert after.conns == s'.conns;
    assert after == s' && Handle(s, First, Blobs()[2], 0, threshold) == (s', None);
    assert s'.With(First, s'.conns[First].(lastCallTime := 0)) == s' by {
      assert s'.conns[First := s'.conns[First].(lastCallTime := 0)] == s'.conns;
    }
  }

  lemma Prepend<C>(l: Loop<C>, a: Action<C>, l1: Loop<C>, rest: seq<Action<C>>, threshold: nat)
    requires LoopInv(l) && Enabled(l, a) && Do(l, a, threshold) == l1
    ensures LoopInv(l1)
    ensures Legal(l1, rest, threshold) ==>
              Legal(l, [a] + rest, threshold) && Perform(l, [a] + rest, threshold) == Perform(l1, rest, threshold)
  {
    StepInv(l, a, threshold);
    assert ([a] + rest)[1..] == rest;
    hide LoopInv, Do, Enabled;
  }

  function RunStart(): Loop<Two> {
    Loop(Server(map[], map[First := NEW_CONN], false), multiset{}, Some(First), Online, {})
  }

  lemma FirstStep(threshold: nat)
    ensures LoopInv(RunStart()) && Enabled(RunStart(), ConnectTag(true, Second))
    ensures Do(RunStart(), ConnectTag(true, Second), threshold) == RunState(ConnAfter(0), {})
  {
    StartInv(RunStart());
    hide LoopInv;
    assert RunStart().server.conns[Second := NEW_CONN] == map[First := NEW_CONN, Second := NEW_CONN];
  }

  lemma MessageStep(k: nat, threshold: nat)
    requires k < 3 && LoopInv(RunState(ConnAfter(k), {}))
    ensures var l, a := RunState(ConnAfter(k), {}), ReadTag(First, true, Encode(Blobs()[k]), 0);
            Enabled(l, a) && Do(l, a, threshold) == RunState(ConnAfter(k + 1), {})
  {
    MessageAnswered(k, threshold);
    hide LoopInv, Do, Answered, Encode, Blobs, ConnAfter;
    ReadsAsMessage(Blobs()[k], RunState(ConnAfter(k), {}), threshold);
  }

  lemma MessageAnswered(k: nat, threshold: nat)
    requires k < 3
    ensures |Blobs()| == 3 && NameLength(Blobs()[k]) < 256
    ensures Answered(RunState(ConnAfter(k), {}).server, First, Blobs()[k], 0, threshold) == RunState(ConnAfter(k + 1), {}).server
  {
    RegisterStep(threshold);
    PeerStep(threshold);
    EventStep(threshold);
    hide Answered, ConnAfter, RunState, AnyEvent;
  }

  lemma FailStep(threshold: nat)
    requires LoopInv(RunState(ConnAfter(3), {}))
    ensures var l, a := RunState(ConnAfter(3), {}), WriteTag(First, false);
            Enabled(l, a) && Do(l, a, threshold) == RunState(ConnAfter(4), {First})
  {
    hide LoopInv, AnyEvent;
    var s := RunState(ConnAfter(3), {}).server;
    assert s.With(First, ConnAfter(4)).conns == RunState(ConnAfter(4), {First}).server.conns;
  }

  /** Such a state is reachable, with the loop online and the connection still read. */
  lemma FailureIsReachable(threshold: nat)
    ensures Start(RunStart()) && LoopInv(RunStart()) && Legal(RunStart(), FailingRun(), threshold)
    ensures var l := Perform(RunStart(), FailingRun(), threshold);
            && l.state == Online && First in l.readTags && First in l.server.conns
            && l.server.conns[First].tableEntry.Some? && Stalled(l.server.conns[First].outbox)
  {
    hide *;
    RunParts();
    var rest4: seq<Action<Two>> := [];
    var rest3 := [WriteTag(First, false)] + rest4;
    var rest2 := [ReadTag(First, true, Encode(Blobs()[2]), 0)] + rest3;
    var rest1 := [ReadTag(First, true, Encode(Blobs()[1]), 0)] + rest2;
    var rest0 := [ReadTag(First, true, Encode(Blobs()[0]), 0)] + rest1;
    FirstStep(threshold);
    Prepend(RunStart(), ConnectTag(true, Second), RunState(ConnAfter(0), {}), rest0, threshold);
    MessageStep(0, threshold);
    Prepend(RunState(ConnAfter(0), {}), ReadTag(First, true, Encode(Blobs()[0]), 0), RunState(ConnAfter(1), {}), rest1, threshold);
    MessageStep(1, threshold);
    Prepend(RunState(ConnAfter(1), {}), ReadTag(First, true, Encode(Blobs()[1]), 0), RunState(ConnAfter(2), {}), rest2, threshold);
    MessageStep(2, threshold);
    Prepend(RunState(ConnAfter(2), {}), ReadTag(First, true, Encode(Blobs()[2]), 0), RunState(ConnAfter(3), {}), rest3, threshold);
    FailStep(threshold);
    Prepend(RunState(ConnAfter(3), {}), WriteTag(First, false), RunState(ConnAfter(4), {First}), rest4, threshold);
    NothingPerformed(RunState(ConnAfter(4), {First}), threshold);
  }

  lemma RunParts()
    ensures Start(RunStart()) && |Blobs()| == 3
    ensures FailingRun() == [ConnectTag(true, Second)] + ([ReadTag(First, true, Encode(Blobs()[0]), 0)]
                            + ([ReadTag(First, true, Encode(Blobs()[1]), 0)] + ([ReadTag(First, true, Encode(Blobs()[2]), 0)]
                            + ([WriteTag(First, false)] + []))))
    ensures var l := RunState(ConnAfter(4), {First});
            && l.state == Online && First in l.readTags && First in l.server.conns
            && l.server.conns[First].tableEntry.Some? && Stalled(l.server.conns[First].outbox)
  {
    hide Encode, AnyEvent;
  }

  lemma NothingPerformed<C>(l: Loop<C>, threshold: nat)
    requires LoopInv(l)
    ensures Legal(l, [], threshold) && Perform(l, [], threshold) == l
  {
    hide LoopInv;
  }

  // ----- Active holders keep their names

  /** `c` holds the name, and its last handled message was between `since` and `clock`. */
  ghost predicate Holds(conn: Conn, name: seq<u8>, since: nat, clock: nat) {
    conn.tableEntry == Some(name) && since <= conn.lastCallTime <= clock
  }

  lemma OthersKeepHolder<C>(s: Server<C>, d: C, msg: ClientMsg, now: nat, threshold: nat, c: C, name: seq<u8>, since: nat, clock: nat)
    requires ServerInv(s) && d in s.conns && c in s.conns && c != d
    requires Holds(s.conns[c], name, since, clock) && clock <= now < since + threshold
    ensures var s' := Handle(s, d, msg, now, threshold).0; c in s'.conns && Holds(s'.conns[c], name, since, clock)
  {
    hide WithoutPeer, Receives;
    if msg.RegisterSelf? && msg.name == name {
      var diff := now - s.conns[c].lastCallTime;
      ElapsedAtMost(now, s.conns[c].lastCallTime);
    }
    hide Elapsed;
  }

  lemma ElapsedAtMost(now: nat, lastCallTime: nat)
    requires lastCallTime <= now
    ensures Elapsed(now, lastCallTime) <= now - lastCallTime
  {
  }

  lemma OthersAnsweredKeepHolder<C>(s: Server<C>, d: C, msg: ClientMsg, now: nat, threshold: nat, c: C, name: seq<u8>, since: nat, clock: nat)
    requires ServerInv(s) && d in s.conns && c in s.conns && c != d
    requires Holds(s.conns[c], name, since, clock) && clock <= now < since + threshold
    ensures var s' := Answered(s, d, msg, now, threshold); c in s'.conns && Holds(s'.conns[c], name, since, clock)
  {
    OthersKeepHolder(s, d, msg, now, threshold, c, name, since, clock);
    hide Handle;
  }

  lemma OthersReadKeepHolder<C>(s: Server<C>, d: C, bytes: seq<u8>, now: nat, threshold: nat, c: C, name: seq<u8>, since: nat, clock: nat)
    requires ServerInv(s) && d in s.conns && c in s.conns && c != d
    requires Holds(s.conns[c], name, since, clock) && clock <= now < since + threshold
    ensures var s' := HandleIncoming(s, d, bytes, now, threshold); c in s'.conns && Holds(s'.conns[c], name, since, clock)
  {
    hide Decode, Answered, ServerInv;
    match Decode(bytes)
    case Message(msg) => OthersAnsweredKeepHolder(s, d, msg, now, threshold, c, name, since, clock);
    case _ =>
  }

  /** After a message of its own the holder still holds the name, or it is out of the table. */
  lemma OwnHandledKeepsHolder<C>(s: Server<C>, c: C, msg: ClientMsg, now: nat, threshold: nat, name: seq<u8>)
    requires ServerInv(s) && c in s.conns && s.conns[c].tableEntry == Some(name)
    ensures var (s', error) := Handle(s, c, msg, now, threshold);
            && c in s'.conns && (error == None ==> s'.conns[c].tableEntry == Some(name))
  {
    hide WithoutPeer, Receives, Elapsed;
  }

  lemma OwnReadKeepsHolder<C>(s: Server<C>, c: C, bytes: seq<u8>, now: nat, threshold: nat, name: seq<u8>, since: nat, clock: nat)
    requires ServerInv(s) && c in s.conns && Holds(s.conns[c], name, since, clock) && clock <= now
    ensures var s' := HandleIncoming(s, c, bytes, now, threshold);
            c in s'.conns && (s'.conns[c].tableEntry == None || Holds(s'.conns[c], name, since, now))
  {
    hide Decode, Handle;
    if Decode(bytes).Message? {
      OwnHandledKeepsHolder(s, c, Decode(bytes).msg, now, threshold, name);
    }
  }

  /** The clock that the reads of `actions` see: it never goes back, and stays before `until`. */
  ghost predicate Timely<C>(actions: seq<Action<C>>, clock: nat, until: nat)
    decreases |actions|
  {
    actions == [] ||
    (if actions[0].ReadTag? then clock <= actions[0].now < until && Timely(actions[1..], actions[0].now, until)
     else Timely(actions[1..], clock, until))
  }

  /** Reading the connection itself takes it out of the table: its client closed, or it sent something that is refused, or the server
      shuts down. */
  ghost predicate EndsItself<C>(l: Loop<C>, actions: seq<Action<C>>, threshold: nat, c: C)
    requires LoopInv(l) && Legal(l, actions, threshold) && c in l.server.conns
    decreases |actions|
  {
    actions != [] &&
    (StepInv(l, actions[0], threshold);
     DisconnectedStep(l, actions[0], threshold, c);
     var l1 := Do(l, actions[0], threshold);
     || (actions[0].ReadTag? && actions[0].c == c && l1.server.conns[c].tableEntry == None)
     || EndsItself(l1, actions[1..], threshold, c))
  }

  lemma HolderStep<C>(l: Loop<C>, a: Action<C>, threshold: nat, c: C, name: seq<u8>, since: nat, clock: nat)
    requires LoopInv(l) && Enabled(l, a) && c in l.server.conns && Holds(l.server.conns[c], name, since, clock)
    requires a.ReadTag? ==> clock <= a.now < since + threshold
    ensures var l1 := Do(l, a, threshold);
            && c in l1.server.conns
            && (Holds(l1.server.conns[c], name, since, if a.ReadTag? then a.now else clock)
                || (a.ReadTag? && a.c == c && l1.server.conns[c].tableEntry == None))
  {
    NoticeInv(l);
    var n := NoticeShutdown(l);
    assert ServerInv(n.server);
    hide HandleIncoming, NoticeShutdown, LoopInv, ServerInv, Connected, ReadLost, WriteDone, WriteDropped;
    match a
    case ReadTag(d, ok, bytes, now) =>
      LostKeepsHolder(n, d, c);
      if d == c {
        OwnReadKeepsHolder(n.server, c, bytes, now, threshold, name, since, clock);
      } else {
        OthersReadKeepHolder(n.server, d, bytes, now, threshold, c, name, since, clock);
      }
    case ConnectTag(ok, newcomer) =>
      if n.connect.Some? {
        ConnectedOutbox(n, newcomer, c);
      }
    case _ =>
  }

  lemma LostKeepsHolder<C>(n: Loop<C>, d: C, c: C)
    requires ServerInv(n.server) && d in n.server.conns && c in n.server.conns
    ensures var s' := ReadLost(n, d).server;
            && c in s'.conns && s'.conns[c].lastCallTime == n.server.conns[c].lastCallTime
            && s'.conns[c].tableEntry == if c == d then None else n.server.conns[c].tableEntry
  {
  }

  /** Within the threshold's time after its last handled message, nobody takes the name from a connection: through any actions of the
      loop it keeps the name, unless reading the connection itself ends it. */
  lemma {:induction false} ActiveHolderKeepsName<C>(l: Loop<C>, actions: seq<Action<C>>, threshold: nat, c: C, name: seq<u8>, since: nat, clock: nat)
    requires LoopInv(l) && Legal(l, actions, threshold) && c in l.server.conns && Holds(l.server.conns[c], name, since, clock)
    requires Timely(actions, clock, since + threshold) && !EndsItself(l, actions, threshold, c)
    ensures var s' := Perform(l, actions, threshold).server;
            c in s'.conns && s'.conns[c].tableEntry == Some(name) && name in s'.agents && s'.agents[name] == c
    decreases |actions|
  {
    if actions == [] {
      assert Bijection(l.server);
    } else {
      var a := actions[0];
      var l1 := Do(l, a, threshold);
      StepInv(l, a, threshold);
      HolderStep(l, a, threshold, c, name, since, clock);
      hide LoopInv, Do, Enabled;
      ActiveHolderKeepsName(l1, actions[1..], threshold, c, name, since, if a.ReadTag? then a.now else clock);
    }
  }
}
