/** What the server's handlers (networking/Server.cpp) and a connection's write queue (networking/ServerFrontendGrpc.cpp)
    do, as functions on values.  `C` identifies a connection; the classes of `ServerClasses` use the connection
    objects themselves. */
module Registry {
  import opened CombatEvents
  import opened Order
  import opened Wire

  /** An event that the server sends: the combat event, tagged with the sender's instance id. */
  datatype ServerEvent = ServerEvent(event: CbtEvent, senderId: u16)

  // ----- One connection's writes

  /** `WritePending` and `QueuedEvents`, the number of WriteEvent tags in the completion queue, and the
      history: the events accepted for this connection and those handed to `Stream.Write`. */
  datatype Outbox = Outbox(writePending: bool, queued: seq<ServerEvent>, tags: nat, accepted: seq<ServerEvent>, written: seq<ServerEvent>)

  const NEW_OUTBOX := Outbox(false, [], 0, [], [])

  /** `SendEvent`. */
  function Write(box: Outbox, e: ServerEvent): Outbox {
    box.(writePending := true, tags := box.tags + 1, written := box.written + [e])
  }

  /** `SendEventToClient`. */
  function Accept(box: Outbox, e: ServerEvent): Outbox {
    var box' := box.(accepted := box.accepted + [e]);
    if !box.writePending then Write(box', e) else box'.(queued := box.queued + [e])
  }

  /** `HandleWriteEvent`: the tag came back with ok. */
  function WriteDone(box: Outbox): Outbox
    requires box.tags > 0
  {
    var box' := box.(writePending := false, tags := box.tags - 1);
    if box.queued != [] then Write(box', box.queued[0]).(queued := box.queued[1..]) else box'
  }

  /** The tag came back with not-ok, or during shutdown: it is only deleted. */
  function WriteDropped(box: Outbox): Outbox
    requires box.tags > 0
  {
    box.(tags := box.tags - 1)
  }

  /** Events are written in the order in which they were accepted, none is skipped or repeated, and at most one
      write is outstanding; whatever is queued waits behind a write. */
  ghost predicate Fifo(box: Outbox) {
    && box.accepted == box.written + box.queued
    && box.tags <= 1
    && (box.tags == 1 ==> box.writePending)
    && (box.queued != [] ==> box.writePending)
  }

  /** Until a write fails, a pending write has its tag. */
  ghost predicate Lively(box: Outbox) {
    box.writePending ==> box.tags == 1
  }

  lemma FifoKept(box: Outbox, e: ServerEvent)
    requires Fifo(box)
    ensures Fifo(Accept(box, e)) && (Lively(box) ==> Lively(Accept(box, e)))
    ensures box.tags > 0 ==> Fifo(WriteDone(box)) && Lively(WriteDone(box)) && Fifo(WriteDropped(box))
  {
    if box.tags > 0 && box.queued != [] {
      assert box.queued == [box.queued[0]] + box.queued[1..];
      assert box.written + box.queued == (box.written + [box.queued[0]]) + box.queued[1..];
    }
  }

  /** A write is pending whose tag will not come back. */
  ghost predicate Stalled(box: Outbox) {
    box.writePending && box.tags == 0
  }

  // ----- Connections and the table of registered agents

  datatype Conn = Conn(tableEntry: Option<seq<u8>>, instanceId: u16, peers: map<seq<u8>, u16>, lastCallTime: nat,
                       forceDisconnected: bool, finishes: nat, outbox: Outbox)

  const NEW_CONN := Conn(None, 0, map[], 0, false, 0, NEW_OUTBOX)

  datatype Server<C(==)> = Server(agents: map<seq<u8>, C>, conns: map<C, Conn>, shuttingDown: bool) {
    function With(c: C, conn: Conn): Server<C> {
      this.(conns := conns[c := conn])
    }
  }

  datatype Error = AlreadyDisconnected | AlreadyRegistered | NameCollision | NotRegistered

  /** `ForceDisconnect` of the connection interface: once per connection, and no `Finish` during shutdown. */
  function Disconnected(conn: Conn, shuttingDown: bool): Conn {
    if conn.forceDisconnected then conn
    else conn.(forceDisconnected := true, finishes := conn.finishes + if shuttingDown then 0 else 1)
  }

  /** `ForceDisconnect` of the server. */
  function ForceDisconnect<C(==)>(s: Server<C>, c: C): Server<C>
    requires c in s.conns
  {
    var conn := s.conns[c];
    var agents := if conn.tableEntry.Some? then s.agents - {conn.tableEntry.value} else s.agents;
    s.(agents := agents).With(c, Disconnected(conn.(tableEntry := None), s.shuttingDown))
  }

  /** Milliseconds since the last call, as the unsigned 64-bit number that the source compares. */
  function Elapsed(now: nat, lastCallTime: nat): nat {
    (now - lastCallTime) % 0x1_0000_0000_0000_0000
  }

  function Registered<C(==)>(s: Server<C>, c: C, id: u16, name: seq<u8>): Server<C>
    requires c in s.conns
  {
    s.(agents := s.agents[name := c]).With(c, s.conns[c].(tableEntry := Some(name), instanceId := id))
  }

  /** `HandleRegisterSelf`: a name that another connection holds is refused while that connection is active, and
      otherwise taken over from it. */
  function HandleRegisterSelf<C(==)>(s: Server<C>, c: C, id: u16, name: seq<u8>, now: nat, threshold: nat): (Server<C>, Option<Error>)
    requires c in s.conns && (name in s.agents ==> s.agents[name] in s.conns)
  {
    var conn := s.conns[c];
    if conn.forceDisconnected then (s, Some(AlreadyDisconnected))
    else if conn.tableEntry.Some? then (s, Some(AlreadyRegistered))
    else if name !in s.agents then (Registered(s, c, id, name), None)
    else
      var other := s.agents[name];
      if Elapsed(now, s.conns[other].lastCallTime) < threshold then (s, Some(NameCollision))
      else (Registered(s.With(other, Disconnected(s.conns[other].(tableEntry := None), s.shuttingDown)), c, id, name), None)
  }

  function HandleSetSelfId<C(==)>(s: Server<C>, c: C, id: u16): (Server<C>, Option<Error>)
    requires c in s.conns
  {
    if s.conns[c].tableEntry == None then (s, Some(NotRegistered))
    else (s.With(c, s.conns[c].(instanceId := id)), None)
  }

  function HandleAddPeer<C(==)>(s: Server<C>, c: C, id: u16, name: seq<u8>): (Server<C>, Option<Error>)
    requires c in s.conns
  {
    if s.conns[c].tableEntry == None then (s, Some(NotRegistered))
    else (s.With(c, s.conns[c].(peers := s.conns[c].peers[name := id])), None)
  }

  function NamesWith(peers: map<seq<u8>, u16>, id: u16): set<seq<u8>> {
    set name | name in peers && peers[name] == id
  }

  /** The erasing loop of `HandleRemovePeer`: the first peer with the id, in name order, goes. */
  ghost function WithoutPeer(peers: map<seq<u8>, u16>, id: u16): map<seq<u8>, u16> {
    var names := NamesWith(peers, id);
    if names == {} then peers
    else
      NameOrder();
      LeastExists(NameLeq, names);
      var first :| IsLeast(NameLeq, first, names);
      peers - {first}
  }

  ghost function HandleRemovePeer<C>(s: Server<C>, c: C, id: u16): (Server<C>, Option<Error>)
    requires c in s.conns
  {
    if s.conns[c].tableEntry == None then (s, Some(NotRegistered))
    else (s.With(c, s.conns[c].(peers := WithoutPeer(s.conns[c].peers, id))), None)
  }

  /** The connections that an event of `c` goes to. */
  ghost predicate Receives<C>(s: Server<C>, c: C, to: C)
    requires c in s.conns && to in s.conns
  {
    exists name :: name in s.conns[c].peers && name in s.agents && s.agents[name] == to && s.conns[to].instanceId == s.conns[c].peers[name]
  }

  ghost function HandleCombatEvent<C>(s: Server<C>, c: C, event: CbtEvent): (Server<C>, Option<Error>)
    requires c in s.conns
  {
    if s.conns[c].tableEntry == None then (s, Some(NotRegistered))
    else
      var e := ServerEvent(event, s.conns[c].instanceId);
      (s.(conns := map to | to in s.conns ::
            if Receives(s, c, to) then s.conns[to].(outbox := Accept(s.conns[to].outbox, e)) else s.conns[to]), None)
  }

  ghost function Handle<C>(s: Server<C>, c: C, msg: ClientMsg, now: nat, threshold: nat): (Server<C>, Option<Error>)
    requires c in s.conns && forall name :: name in s.agents ==> s.agents[name] in s.conns
  {
    match msg
    case RegisterSelf(id, name) => HandleRegisterSelf(s, c, id, name, now, threshold)
    case SetSelfId(id) => HandleSetSelfId(s, c, id)
    case AddPeer(id, name) => HandleAddPeer(s, c, id, name)
    case RemovePeer(id) => HandleRemovePeer(s, c, id)
    case CombatEvent(event, _) => HandleCombatEvent(s, c, event)
  }

  /** Refused messages disconnect the client, handled ones refresh the time of its last call. */
  ghost function Answered<C>(s: Server<C>, c: C, msg: ClientMsg, now: nat, threshold: nat): Server<C>
    requires c in s.conns && forall name :: name in s.agents ==> s.agents[name] in s.conns
  {
    var (s', error) := Handle(s, c, msg, now, threshold);
    if c !in s'.conns then s'
    else if error.Some? then ForceDisconnect(s', c)
    else s'.With(c, s'.conns[c].(lastCallTime := now))
  }

  /** `HandleIncomingMessage`: malformed messages disconnect the client, unknown types are ignored. */
  ghost function HandleIncoming<C>(s: Server<C>, c: C, bytes: seq<u8>, now: nat, threshold: nat): Server<C>
    requires c in s.conns && forall name :: name in s.agents ==> s.agents[name] in s.conns
  {
    match Decode(bytes)
    case Malformed(_) => ForceDisconnect(s, c)
    case Ignored => s
    case Message(msg) => Answered(s, c, msg, now, threshold)
  }
}
