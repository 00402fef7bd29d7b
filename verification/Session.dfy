/** One connection end to end: the client (`Client`), the in-order stream of the bytes that it writes, and the server's whole
    `Serve` loop (`Frontend`) with any number of other connections. */
module Session {
  import opened CombatEvents
  import opened Wire
  import opened Peers
  import Client
  import Registry
  import F = Frontend

  // ----- What a stream of messages says

  /** The shape of a connection's stream: the registration first, and only once. */
  ghost predicate Conforms(msgs: seq<ClientMsg>) {
    forall k :: 0 <= k < |msgs| ==> (msgs[k].RegisterSelf? <==> k == 0)
  }

  function IdAfter(id: u16, msg: ClientMsg): u16 {
    if msg.RegisterSelf? || msg.SetSelfId? then msg.selfId else id
  }

  /** The instance id reported last. */
  function LastId(msgs: seq<ClientMsg>): u16 {
    if msgs == [] then 0 else IdAfter(LastId(msgs[..|msgs| - 1]), msgs[|msgs| - 1])
  }

  function EventOf(msg: ClientMsg): seq<CbtEvent> {
    if msg.CombatEvent? then [msg.event] else []
  }

  function EventsOf(msgs: seq<ClientMsg>): seq<CbtEvent> {
    if msgs == [] then [] else EventsOf(msgs[..|msgs| - 1]) + EventOf(msgs[|msgs| - 1])
  }

  ghost function Consume(known: map<seq<u8>, u16>, msgs: seq<ClientMsg>): map<seq<u8>, u16>
    decreases |msgs|
  {
    if msgs == [] then known else Consume(Apply(known, msgs[0]), msgs[1..])
  }

  lemma {:induction false} ConsumeRest(msgs: seq<ClientMsg>, k: nat)
    requires k <= |msgs|
    ensures Consume(Applied(msgs[..k]), msgs[k..]) == Applied(msgs)
    decreases |msgs| - k
  {
    if k == |msgs| {
      assert msgs[..k] == msgs;
    } else {
      ConsumeRest(msgs, k + 1);
      assert msgs[..k + 1][..k] == msgs[..k];
      assert msgs[k..][1..] == msgs[k + 1..];
    }
  }

  lemma Appended(msgs: seq<ClientMsg>, msg: ClientMsg)
    ensures LastId(msgs + [msg]) == IdAfter(LastId(msgs), msg)
    ensures EventsOf(msgs + [msg]) == EventsOf(msgs) + EventOf(msg)
    ensures Applied(msgs + [msg]) == Apply(Applied(msgs), msg)
  {
    assert (msgs + [msg])[..|msgs + [msg]| - 1] == msgs;
  }

  lemma Regrouped<T>(a: seq<T>, b: seq<T>, c: seq<T>)
    ensures (a + b) + c == a + (b + c)
  {
  }

  lemma LastSplit<T>(s: seq<T>)
    requires s != []
    ensures s == s[..|s| - 1] + [s[|s| - 1]]
  {
  }

  lemma {:induction false} EventsConcat(a: seq<ClientMsg>, b: seq<ClientMsg>)
    ensures EventsOf(a + b) == EventsOf(a) + EventsOf(b)
    decreases |b|
  {
    if b == [] {
      assert a + b == a;
    } else {
      hide EventsOf, EventOf;
      var less, last := b[..|b| - 1], b[|b| - 1];
      EventsConcat(a, less);
      LastSplit(b);
      Regrouped(a, less, [last]);
      Appended(a + less, last);
      Appended(less, last);
      Regrouped(EventsOf(a), EventsOf(less), EventOf(last));
    }
  }

  // ----- The joint state

  /** `sent` is everything written on the connection and `delivered` how much of it the server has read; `offered` are the
      combat events that the client's queue accepted, `offeredIds` the own ids at these times, and `outstanding` the client's write
      tags.  `selfSeen` and `peersSeen` are what the last check of the own id and the last check of the peers have seen. */
  datatype State<C> = State(client: Client.State, outstanding: nat, sent: seq<ClientMsg>, delivered: nat, offered: seq<CbtEvent>,
                            offeredIds: seq<u16>, selfSeen: u16, peersSeen: PeerMap, loop: F.Loop<C>)

  /** `Serve` is the next of the three parts of a round; callbacks and tags come in between. */
  datatype Move<C> =
    | Local(source: Client.Ag, destination: Client.Ag)
    | Area(source: Client.Ag, destination: Client.Ag)
    | Queue(event: CbtEvent)
    | Serve
    | WriteReturned
    | Server(action: F.Action<C>)

  /** The server's loop reads the next bytes of this connection. */
  ghost predicate OwnRead<C>(m: Move<C>, c: C) {
    m.Server? && m.action.ReadTag? && m.action.c == c && m.action.ok
  }

  ghost predicate Allowed<C>(s: State<C>, m: Move<C>, c: C) {
    match m
    case Local(source, destination) => Client.RegistersSelf(source, destination) ==> Client.PlayerOk(destination) && destination.id > 0
    case Area(source, destination) => Client.RegistersPeer(source, destination) ==> Client.PlayerOk(destination)
    case WriteReturned => s.outstanding > 0
    case Server(a) =>
      F.Enabled(s.loop, a) && (OwnRead(m, c) ==> s.delivered < |s.sent| && a.bytes == Encode(s.sent[s.delivered]))
    case _ => true
  }

  ghost function Do<C>(s: State<C>, m: Move<C>, c: C, threshold: nat): State<C>
    requires Allowed(s, m, c) && F.LoopInv(s.loop)
  {
    match m
    case Local(source, destination) => s.(client := Client.LocalEvent(s.client, source, destination))
    case Area(source, destination) => s.(client := Client.AreaEvent(s.client, source, destination))
    case Queue(event) => Queued(s, event)
    case Serve => Served(s)
    case WriteReturned => s.(client := Client.WriteReturned(s.client), outstanding := s.outstanding - 1)
    case Server(a) =>
      s.(loop := F.Do(s.loop, a, threshold), delivered := if OwnRead(m, c) then s.delivered + 1 else s.delivered)
  }

  ghost function Queued<C>(s: State<C>, event: CbtEvent): State<C> {
    var client := Client.Queued(s.client, event);
    if client == s.client then s
    else s.(client := client, offered := s.offered + [event], offeredIds := s.offeredIds + [s.client.instanceId])
  }

  ghost function Checked<C>(s: State<C>): State<C> {
    match s.client.round
    case SelfNext => if s.client.writePending then s else s.(selfSeen := s.client.instanceId)
    case PeersNext => s.(peersSeen := s.client.peers)
    case QueueNext => s
  }

  ghost function Served<C>(s: State<C>): State<C> {
    var (client, msg) := Client.ServePart(s.client);
    if msg.Some? then Sent(Checked(s), client, msg.value) else Checked(s).(client := client)
  }

  /** A new connection: connecting counts as a write, and the server has the context but no word from it. */
  ghost predicate Start<C>(s: State<C>, c: C) {
    && s.client.writePending && s.outstanding == 1 && s.client.registeredId == 0 && s.client.registeredPeers == map[]
    && SelfOk(s.client) && NamesOk(s.client.peers) && s.sent == [] && s.delivered == 0 && s.offered == s.client.queued
    && s.client.round.SelfNext? && |s.offeredIds| == |s.offered|
    && F.LoopInv(s.loop) && c in s.loop.server.conns && s.loop.server.conns[c] == Registry.NEW_CONN
  }

  // ----- The client's half of the invariant

  ghost predicate SelfOk(s: Client.State) {
    s.instanceId != 0 ==> 0 < |s.accountName| < 255
  }

  ghost predicate NamesOk(peers: PeerMap) {
    forall uid :: uid in peers ==> |peers[uid].accountName| < 255
  }

  ghost predicate ShortNames(msgs: seq<ClientMsg>) {
    forall k :: 0 <= k < |msgs| ==> NameLength(msgs[k]) < 255
  }

  ghost predicate ClientInv<C>(s: State<C>) {
    && s.outstanding == (if s.client.writePending then 1 else 0)
    && (s.client.registeredId == 0 <==> s.sent == []) && (s.client.registeredId != 0 ==> s.client.instanceId != 0)
    && SelfOk(s.client) && NamesOk(s.client.peers) && NamesOk(s.client.registeredPeers)
    && Conforms(s.sent) && ShortNames(s.sent)
    && LastId(s.sent) == s.client.registeredId
    && s.offered == EventsOf(s.sent) + s.client.queued && |s.offeredIds| == |s.offered|
    && SeenOk(s)
  }

  /** Within a round nothing is outstanding, and what it has checked is what the server has been told. */
  ghost predicate SeenOk<C>(s: State<C>) {
    && (!s.client.round.SelfNext? ==> !s.client.writePending && s.client.registeredId != 0 && s.client.registeredId == s.selfSeen)
    && (s.client.round.QueueNext? ==> s.client.registeredPeers == s.peersSeen)
  }

  /** The registered peers are what the server makes of the stream. */
  ghost predicate Mirrored<C>(s: State<C>) {
    Distinct(s.client.registeredPeers) && Applied(s.sent) == Image(s.client.registeredPeers)
  }

  lemma ReconcileNames(registered: PeerMap, peers: PeerMap)
    requires NamesOk(registered) && NamesOk(peers)
    ensures var (registered', msg) := Reconcile(registered, peers);
            && NamesOk(registered')
            && (msg.Some? ==> NameLength(msg.value) < 255 && (msg.value.AddPeer? || msg.value.RemovePeer?))
  {
  }

  ghost function Sent<C>(s: State<C>, client: Client.State, msg: ClientMsg): State<C> {
    s.(client := client, sent := s.sent + [msg], outstanding := s.outstanding + 1)
  }

  /** What a written message has to be for the stream to stay in order. */
  ghost predicate Fits(before: Client.State, after: Client.State, msg: ClientMsg) {
    && (msg.RegisterSelf? <==> before.registeredId == 0)
    && after == after.(instanceId := before.instanceId, accountName := before.accountName, peers := before.peers, writePending := true,
                            round := Client.SelfNext)
    && after.registeredId == IdAfter(before.registeredId, msg) && after.registeredId != 0 && after.instanceId != 0
    && NamesOk(after.registeredPeers) && NameLength(msg) < 255
    && before.queued == EventOf(msg) + after.queued
  }

  /** A part of a round without a message changes nothing but what is next. */
  lemma PartFits(s: Client.State)
    requires SelfOk(s) && NamesOk(s.peers) && NamesOk(s.registeredPeers) && (s.registeredId != 0 ==> s.instanceId != 0)
    requires !s.round.SelfNext? ==> s.registeredId != 0
    ensures var (s', msg) := Client.ServePart(s);
            && (msg == None ==> s' == s.(round := s'.round))
            && (msg.Some? ==> Fits(s, s', msg.value) && (s.round.SelfNext? ==> !s.writePending))
  {
    ReconcileNames(s.registeredPeers, s.peers);
    hide Reconcile, NamesOk;
    assert s.queued != [] ==> s.queued == [s.queued[0]] + s.queued[1..];
  }

  /** A part of a round without a message leaves what it has checked as it has been told. */
  lemma PartSeen<C>(s: State<C>)
    requires SeenOk(s) && Client.ServePart(s.client).1 == None
    ensures SeenOk(Checked(s).(client := Client.ServePart(s.client).0))
  {
    EachCallCounts(s.client.registeredPeers, s.client.peers);
    hide Reconcile, Work;
  }

  lemma SentInv<C>(s: State<C>, client: Client.State, msg: ClientMsg)
    requires ClientInv(s) && !s.client.writePending && Fits(s.client, client, msg)
    ensures ClientInv(Sent(Checked(s), client, msg))
  {
    Appended(s.sent, msg);
    Regrouped(EventsOf(s.sent), EventOf(msg), client.queued);
    hide LastId, EventsOf, NamesOk, EventOf;
  }

  lemma ServedInv<C>(s: State<C>)
    requires ClientInv(s)
    ensures ClientInv(Served(s)) && s.sent <= Served(s).sent
  {
    PartFits(s.client);
    var (client, msg) := Client.ServePart(s.client);
    if msg.Some? {
      hide Fits, Client.ServePart;
      SentInv(s, client, msg.value);
    } else {
      PartSeen(s);
      hide SeenOk, Client.ServePart, Conforms, ShortNames, NamesOk, SelfOk, EventsOf, LastId;
    }
  }

  /** A part of a round changes the registered peers only together with the message that says so. */
  lemma PartPeers(s: Client.State)
    ensures var (s', msg) := Client.ServePart(s);
            || (s'.registeredPeers, msg) == Reconcile(s.registeredPeers, s.peers)
            || (s'.registeredPeers == s.registeredPeers && (msg.Some? ==> !msg.value.AddPeer? && !msg.value.RemovePeer?))
  {
    hide Reconcile;
  }

  lemma PartTells(s: Client.State)
    requires Distinct(s.registeredPeers) && Distinct(s.peers)
    ensures var (s', msg) := Client.ServePart(s); Tells(s.registeredPeers, s'.registeredPeers, msg)
  {
    hide *;
    ReconcileTells(s.registeredPeers, s.peers);
    PartPeers(s);
    var (s', msg) := Client.ServePart(s);
    if (s'.registeredPeers, msg) != Reconcile(s.registeredPeers, s.peers) {
      OtherTells(s.registeredPeers, msg);
    }
  }

  lemma TellsOn(sent: seq<ClientMsg>, registered: PeerMap, registered': PeerMap, msg: Option<ClientMsg>)
    requires Tells(registered, registered', msg) && Applied(sent) == Image(registered)
    ensures Distinct(registered') && Applied(if msg.Some? then sent + [msg.value] else sent) == Image(registered')
  {
    hide Distinct, Image, Applied, Apply;
    if msg.Some? {
      Appended(sent, msg.value);
    }
  }

  lemma ServedMirrored<C>(s: State<C>)
    requires Mirrored(s) && Distinct(s.client.peers)
    ensures Mirrored(Served(s))
  {
    hide Distinct, Image, Applied, Tells, Client.ServePart;
    PartTells(s.client);
    TellsOn(s.sent, s.client.registeredPeers, Client.ServePart(s.client).0.registeredPeers, Client.ServePart(s.client).1);
  }

  lemma ClientStep<C>(s: State<C>, m: Move<C>, c: C, threshold: nat)
    requires ClientInv(s) && F.LoopInv(s.loop) && Allowed(s, m, c)
    ensures ClientInv(Do(s, m, c, threshold))
  {
    hide F.Do, F.LoopInv, F.Enabled;
    match m
    case Serve => ServedInv(s);
    case Queue(event) => QueuedInv(s, event);
    case _ =>
  }

  lemma QueuedInv<C>(s: State<C>, event: CbtEvent)
    requires ClientInv(s)
    ensures ClientInv(Queued(s, event))
  {
    if |s.client.queued| <= Client.QUEUE_LIMIT {
      assert (EventsOf(s.sent) + s.client.queued) + [event] == EventsOf(s.sent) + (s.client.queued + [event]);
    }
  }

  // ----- The server's half

  /** The connection is as the messages `msgs` leave it. */
  ghost predicate Knows(conn: Registry.Conn, msgs: seq<ClientMsg>) {
    && (msgs == [] ==> conn.tableEntry == None)
    && (msgs != [] ==> msgs[0].RegisterSelf? && conn.tableEntry == Some(msgs[0].name) && conn.instanceId == LastId(msgs))
    && conn.peers == Applied(msgs)
  }

  ghost predicate ServerSide<C>(s: State<C>, c: C) {
    && F.LoopInv(s.loop) && c in s.loop.server.conns && s.delivered <= |s.sent|
    && (s.loop.server.conns[c].forceDisconnected || Knows(s.loop.server.conns[c], s.sent[..s.delivered]))
  }

  /** Nothing that `Knows` speaks of changes, unless the connection is disconnected. */
  ghost predicate Untouched(conn: Registry.Conn, conn': Registry.Conn) {
    conn'.forceDisconnected
    || (conn'.tableEntry == conn.tableEntry && conn'.instanceId == conn.instanceId && conn'.peers == conn.peers && !conn.forceDisconnected)
  }

  lemma OthersHandled<C>(s: Registry.Server<C>, d: C, msg: ClientMsg, now: nat, threshold: nat, c: C)
    requires F.ServerInv(s) && d in s.conns && c in s.conns && c != d
    ensures var s' := Registry.Handle(s, d, msg, now, threshold).0; c in s'.conns && Untouched(s.conns[c], s'.conns[c])
  {
    hide Registry.WithoutPeer, Registry.Receives;
  }

  lemma OthersIncoming<C>(s: Registry.Server<C>, d: C, bytes: seq<u8>, now: nat, threshold: nat, c: C)
    requires F.ServerInv(s) && d in s.conns && c in s.conns && c != d
    ensures var s' := Registry.HandleIncoming(s, d, bytes, now, threshold); c in s'.conns && Untouched(s.conns[c], s'.conns[c])
  {
    hide Decode, Registry.Handle;
    if Decode(bytes).Message? {
      OthersHandled(s, d, Decode(bytes).msg, now, threshold, c);
    }
  }

  /** The server's reaction to the next message of a conforming stream: no protocol error. */
  lemma OwnHandled<C>(s: Registry.Server<C>, c: C, msgs: seq<ClientMsg>, msg: ClientMsg, now: nat, threshold: nat)
    requires F.ServerInv(s) && c in s.conns && !s.conns[c].forceDisconnected
    requires Knows(s.conns[c], msgs) && Conforms(msgs + [msg])
    ensures var (s', error) := Registry.Handle(s, c, msg, now, threshold);
            && (error.Some? ==> error.value == Registry.NameCollision && msg.RegisterSelf?)
            && c in s'.conns
            && (error == None ==> Knows(s'.conns[c], msgs + [msg]))
  {
    Appended(msgs, msg);
    assert (msgs + [msg])[|msgs|] == msg;
    assert msgs != [] ==> (msgs + [msg])[0] == msgs[0];
    hide Registry.WithoutPeer, Registry.Receives, Conforms, LastId, Applied;
  }

  lemma OwnIncoming<C>(s: Registry.Server<C>, c: C, msgs: seq<ClientMsg>, msg: ClientMsg, now: nat, threshold: nat)
    requires F.ServerInv(s) && c in s.conns && !s.conns[c].forceDisconnected
    requires Knows(s.conns[c], msgs) && Conforms(msgs + [msg]) && NameLength(msg) < 255
    ensures var s' := Registry.HandleIncoming(s, c, Encode(msg), now, threshold);
            c in s'.conns && (s'.conns[c].forceDisconnected || Knows(s'.conns[c], msgs + [msg]))
  {
    RoundTrip(msg);
    OwnHandled(s, c, msgs, msg, now, threshold);
    hide Decode, Encode, Registry.Handle, F.ServerInv, Conforms, LastId, Applied;
  }

  lemma LostUntouched<C>(n: F.Loop<C>, d: C, c: C)
    requires F.ServerInv(n.server) && d in n.server.conns && c in n.server.conns
    ensures c in F.ReadLost(n, d).server.conns && Untouched(n.server.conns[c], F.ReadLost(n, d).server.conns[c])
  {
  }

  /** Whatever the loop does apart from reading this connection leaves it alone or disconnects it. */
  lemma LoopUntouched<C>(l: F.Loop<C>, a: F.Action<C>, threshold: nat, c: C)
    requires F.LoopInv(l) && F.Enabled(l, a) && c in l.server.conns && !(a.ReadTag? && a.c == c && a.ok)
    ensures var l' := F.Do(l, a, threshold); c in l'.server.conns && Untouched(l.server.conns[c], l'.server.conns[c])
  {
    hide F.NoticeShutdown, F.LoopInv, F.ServerInv, Registry.HandleIncoming, F.ReadLost, Registry.WriteDone, Registry.WriteDropped;
    Noticed(l);
    var n := F.NoticeShutdown(l);
    match a
    case ReadTag(d, ok, bytes, now) =>
      LostUntouched(n, d, c);
      if c != d {
        OthersIncoming(n.server, d, bytes, now, threshold, c);
      }
    case _ =>
  }

  lemma Noticed<C>(l: F.Loop<C>)
    requires F.LoopInv(l)
    ensures var n := F.NoticeShutdown(l);
            && F.ServerInv(n.server) && n.server.conns == l.server.conns && n.readTags == l.readTags
            && forall d :: d in n.readTags ==> d in n.server.conns
  {
    F.NoticeInv(l);
    hide F.NoticeShutdown, F.ServerInv;
  }

  lemma LoopReads<C>(l: F.Loop<C>, c: C, msgs: seq<ClientMsg>, msg: ClientMsg, now: nat, threshold: nat)
    requires F.LoopInv(l) && c in l.readTags && Conforms(msgs + [msg]) && NameLength(msg) < 255
    requires l.server.conns[c].forceDisconnected || Knows(l.server.conns[c], msgs)
    ensures var l' := F.Do(l, F.ReadTag(c, true, Encode(msg), now), threshold);
            c in l'.server.conns && (l'.server.conns[c].forceDisconnected || Knows(l'.server.conns[c], msgs + [msg]))
  {
    F.DisconnectedStep(l, F.ReadTag(c, true, Encode(msg), now), threshold, c);
    F.NoticeInv(l);
    var n := F.NoticeShutdown(l);
    assert F.ServerInv(n.server);
    if !l.server.conns[c].forceDisconnected {
      F.DisconnectInv(n.server, c);
      OwnIncoming(n.server, c, msgs, msg, now, threshold);
    }
    hide F.NoticeShutdown, F.LoopInv, F.ServerInv, Registry.HandleIncoming, Registry.ForceDisconnect, Conforms, Knows;
  }

  lemma ReadStep<C>(s: State<C>, c: C, now: nat, threshold: nat)
    requires ClientInv(s) && ServerSide(s, c) && s.delivered < |s.sent| && c in s.loop.readTags
    ensures ServerSide(s.(loop := F.Do(s.loop, F.ReadTag(c, true, Encode(s.sent[s.delivered]), now), threshold), delivered := s.delivered + 1), c)
  {
    var msgs, msg := s.sent[..s.delivered], s.sent[s.delivered];
    assert msgs + [msg] == s.sent[..s.delivered + 1];
    assert Conforms(msgs + [msg]) && NameLength(msg) < 255;
    hide F.Do, F.LoopInv, Knows, ClientInv, Conforms, Encode, NameLength;
    F.StepInv(s.loop, F.ReadTag(c, true, Encode(msg), now), threshold);
    LoopReads(s.loop, c, msgs, msg, now, threshold);
  }

  lemma DoRead<C>(s: State<C>, m: Move<C>, c: C, threshold: nat)
    requires F.LoopInv(s.loop) && Allowed(s, m, c) && OwnRead(m, c)
    ensures s.delivered < |s.sent| && c in s.loop.readTags
    ensures Do(s, m, c, threshold)
            == s.(loop := F.Do(s.loop, F.ReadTag(c, true, Encode(s.sent[s.delivered]), m.action.now), threshold), delivered := s.delivered + 1)
  {
    assert m.action == F.ReadTag(c, true, Encode(s.sent[s.delivered]), m.action.now);
    hide F.Do, F.LoopInv, Encode;
  }

  lemma LoopStep<C>(s: State<C>, m: Move<C>, c: C, threshold: nat)
    requires ServerSide(s, c) && Allowed(s, m, c) && m.Server? && !OwnRead(m, c)
    ensures ServerSide(Do(s, m, c, threshold), c)
  {
    F.StepInv(s.loop, m.action, threshold);
    LoopUntouched(s.loop, m.action, threshold, c);
    hide F.Do, F.LoopInv, F.Enabled, Applied, LastId;
  }

  lemma ServerStep<C>(s: State<C>, m: Move<C>, c: C, threshold: nat)
    requires ClientInv(s) && ServerSide(s, c) && Allowed(s, m, c)
    ensures ServerSide(Do(s, m, c, threshold), c)
  {
    if OwnRead(m, c) {
      DoRead(s, m, c, threshold);
      hide Do, Allowed, F.Do, F.LoopInv, Knows, ClientInv, ServerSide, Encode;
      ReadStep(s, c, m.action.now, threshold);
    } else if m.Server? {
      LoopStep(s, m, c, threshold);
    } else {
      hide F.Do, F.LoopInv, F.Enabled, Served, ClientInv, ServerSide;
      ServedInv(s);
      SentGrows(s, m, c, threshold);
      SameServer(s, Do(s, m, c, threshold), c);
    }
  }

  lemma SentGrows<C>(s: State<C>, m: Move<C>, c: C, threshold: nat)
    requires F.LoopInv(s.loop) && Allowed(s, m, c) && !m.Server? && s.sent <= Served(s).sent
    ensures var s' := Do(s, m, c, threshold); s'.loop == s.loop && s'.delivered == s.delivered && s.sent <= s'.sent
  {
    hide F.Do, F.LoopInv, F.Enabled, Client.ServePart;
  }

  lemma SameServer<C>(s: State<C>, s': State<C>, c: C)
    requires ServerSide(s, c) && s'.loop == s.loop && s'.delivered == s.delivered && s.sent <= s'.sent
    ensures ServerSide(s', c)
  {
    hide F.LoopInv, Knows;
    assert s'.sent[..s.delivered] == s.sent[..s.delivered];
  }

  // ----- Whole runs

  ghost predicate Inv<C>(s: State<C>, c: C) {
    ClientInv(s) && ServerSide(s, c)
  }

  lemma StartClient<C>(s: State<C>, c: C)
    requires Start(s, c)
    ensures ClientInv(s)
  {
    assert EventsOf(s.sent) + s.client.queued == s.client.queued;
    hide F.LoopInv, Registry.NEW_CONN;
  }

  lemma StartServer<C>(s: State<C>, c: C)
    requires Start(s, c)
    ensures ServerSide(s, c)
  {
    assert Knows(Registry.NEW_CONN, s.sent[..0]);
    hide F.LoopInv, Knows, SelfOk, NamesOk;
  }

  lemma StartMirrored<C>(s: State<C>, c: C)
    requires Start(s, c)
    ensures Mirrored(s)
  {
    assert s.client.registeredPeers == map[] && s.sent == [] && Applied(s.sent) == map[];
    hide Start, F.LoopInv, Image, Distinct, Applied;
    EmptyImage(s.client.registeredPeers);
  }

  lemma StartInv<C>(s: State<C>, c: C)
    requires Start(s, c)
    ensures Inv(s, c) && Mirrored(s)
  {
    StartClient(s, c);
    StartServer(s, c);
    StartMirrored(s, c);
    hide ClientInv, ServerSide, Mirrored, Start;
  }

  lemma StepInv<C>(s: State<C>, m: Move<C>, c: C, threshold: nat)
    requires Inv(s, c) && Allowed(s, m, c)
    ensures Inv(Do(s, m, c, threshold), c)
  {
    ClientStep(s, m, c, threshold);
    ServerStep(s, m, c, threshold);
    hide ClientInv, ServerSide, Do, Allowed;
  }

  lemma OnlyServeTells<C>(s: State<C>, m: Move<C>, c: C, threshold: nat)
    requires F.LoopInv(s.loop) && Allowed(s, m, c) && !m.Serve?
    ensures var s' := Do(s, m, c, threshold); s'.client.registeredPeers == s.client.registeredPeers && s'.sent == s.sent
  {
    hide F.Do, F.Enabled, F.LoopInv;
  }

  lemma StepMirrored<C>(s: State<C>, m: Move<C>, c: C, threshold: nat)
    requires F.LoopInv(s.loop) && Mirrored(s) && Distinct(s.client.peers) && Allowed(s, m, c)
    ensures Mirrored(Do(s, m, c, threshold))
  {
    if m.Serve? {
      ServedMirrored(s);
      hide F.LoopInv, F.Do, Served, Mirrored;
    } else {
      OnlyServeTells(s, m, c, threshold);
      hide F.LoopInv, Do, Distinct, Image, Applied;
    }
  }

  ghost predicate Legal<C>(s: State<C>, moves: seq<Move<C>>, c: C, threshold: nat)
    requires Inv(s, c)
    decreases |moves|
  {
    moves == [] ||
    (Allowed(s, moves[0], c) && (StepInv(s, moves[0], c, threshold); Legal(Do(s, moves[0], c, threshold), moves[1..], c, threshold)))
  }

  ghost function Perform<C>(s: State<C>, moves: seq<Move<C>>, c: C, threshold: nat): (s': State<C>)
    requires Inv(s, c) && Legal(s, moves, c, threshold)
    ensures Inv(s', c)
    decreases |moves|
  {
    if moves == [] then s
    else
      StepInv(s, moves[0], c, threshold);
      Perform(Do(s, moves[0], c, threshold), moves[1..], c, threshold)
  }

  /** The known peers have pairwise distinct names and ids whenever a move is made. */
  ghost predicate AlwaysDistinct<C>(s: State<C>, moves: seq<Move<C>>, c: C, threshold: nat)
    requires Inv(s, c) && Legal(s, moves, c, threshold)
    decreases |moves|
  {
    moves == [] ||
    (Distinct(s.client.peers) &&
     (StepInv(s, moves[0], c, threshold); AlwaysDistinct(Do(s, moves[0], c, threshold), moves[1..], c, threshold)))
  }

  lemma {:induction false} RunMirrored<C>(s: State<C>, moves: seq<Move<C>>, c: C, threshold: nat)
    requires Inv(s, c) && Mirrored(s) && Legal(s, moves, c, threshold) && AlwaysDistinct(s, moves, c, threshold)
    ensures Mirrored(Perform(s, moves, c, threshold))
    decreases |moves|
  {
    hide Mirrored, Do, Allowed, Distinct, ClientInv, F.LoopInv, Knows;
    if moves != [] {
      StepInv(s, moves[0], c, threshold);
      StepMirrored(s, moves[0], c, threshold);
      RunMirrored(Do(s, moves[0], c, threshold), moves[1..], c, threshold);
    }
  }

  // ----- What holds on every run

  /** The stream is a registration followed by other messages only, with at most one write outstanding; and what the server
      read of the combat events, what is under way and what is queued are, in this order, the events that the queue accepted. */
  ghost predicate InOrder<C>(s: State<C>) {
    && Conforms(s.sent) && s.outstanding <= 1 && s.delivered <= |s.sent|
    && s.offered == EventsOf(s.sent[..s.delivered]) + EventsOf(s.sent[s.delivered..]) + s.client.queued
  }

  lemma InOrderAlways<C>(s: State<C>, c: C)
    requires Inv(s, c)
    ensures InOrder(s)
  {
    hide F.LoopInv, EventsOf, LastId, NamesOk, Knows;
    EventsConcat(s.sent[..s.delivered], s.sent[s.delivered..]);
    assert s.sent[..s.delivered] + s.sent[s.delivered..] == s.sent;
  }

  lemma StreamConforms<C>(s: State<C>, moves: seq<Move<C>>, c: C, threshold: nat)
    requires Start(s, c)
    ensures Inv(s, c)
    ensures Legal(s, moves, c, threshold) ==> InOrder(Perform(s, moves, c, threshold))
  {
    hide *;
    StartInv(s, c);
    if Legal(s, moves, c, threshold) {
      InOrderAlways(Perform(s, moves, c, threshold), c);
    }
  }

  /** A server that has not disconnected the client never answers its next message with "not registered yet" or "already
      registered": the only refusal is a name that somebody else holds. */
  lemma NoProtocolError<C>(s: State<C>, c: C, now: nat, threshold: nat)
    requires Inv(s, c) && s.delivered < |s.sent| && !s.loop.server.conns[c].forceDisconnected
    ensures Decode(Encode(s.sent[s.delivered])) == Message(s.sent[s.delivered])
    ensures Registry.Handle(s.loop.server, c, s.sent[s.delivered], now, threshold).1 in {None, Some(Registry.NameCollision)}
    ensures !s.sent[s.delivered].RegisterSelf? ==> Registry.Handle(s.loop.server, c, s.sent[s.delivered], now, threshold).1 == None
  {
    hide Decode, Encode, F.LoopInv, F.ServerInv, ClientInv, ServerSide, Conforms, Knows, LastId, Applied, Registry.Handle, NameLength;
    NextMessage(s, c);
    RoundTrip(s.sent[s.delivered]);
    OwnHandled(s.loop.server, c, s.sent[..s.delivered], s.sent[s.delivered], now, threshold);
  }

  lemma NextMessage<C>(s: State<C>, c: C)
    requires Inv(s, c) && s.delivered < |s.sent| && !s.loop.server.conns[c].forceDisconnected
    ensures var msgs, msg := s.sent[..s.delivered], s.sent[s.delivered];
            && Conforms(msgs + [msg]) && NameLength(msg) < 255
            && F.ServerInv(s.loop.server) && c in s.loop.server.conns && Knows(s.loop.server.conns[c], msgs)
  {
    var msgs, msg := s.sent[..s.delivered], s.sent[s.delivered];
    assert msgs + [msg] == s.sent[..s.delivered + 1];
    hide F.ServerInv, LastId, Applied, EventsOf, SeenOk;
  }

  /** What the server knows, once it has consumed what is under way, is the image of the registered peers; the handled
      part of the stream is what it knows now. */
  lemma ServerKnowsPeers<C>(s: State<C>, moves: seq<Move<C>>, c: C, threshold: nat)
    requires Start(s, c)
    ensures Inv(s, c)
    ensures Legal(s, moves, c, threshold) && AlwaysDistinct(s, moves, c, threshold) ==>
              var s' := Perform(s, moves, c, threshold);
              var conn := s'.loop.server.conns[c];
              && DistinctNames(s'.client.registeredPeers)
              && (!conn.forceDisconnected ==> Consume(conn.peers, s'.sent[s'.delivered..]) == Image(s'.client.registeredPeers))
  {
    StartInv(s, c);
    if Legal(s, moves, c, threshold) && AlwaysDistinct(s, moves, c, threshold) {
      RunMirrored(s, moves, c, threshold);
      var s' := Perform(s, moves, c, threshold);
      assert Mirrored(s') && ServerSide(s', c);
      hide Legal, AlwaysDistinct, Perform, Start, Inv, ClientInv, F.LoopInv;
      ConsumeRest(s'.sent, s'.delivered);
    }
  }

  /** End to end: when the client has nothing left to tell about itself and its peers and the server has read everything, the
      client's next combat event reaches exactly the connections of the peers that the client knows. */
  lemma EventsReachKnownPeers<C>(s: State<C>, c: C, event: CbtEvent, to: C)
    requires Inv(s, c) && Mirrored(s) && s.sent != [] && s.delivered == |s.sent|
    requires !s.loop.server.conns[c].forceDisconnected && to in s.loop.server.conns
    requires Reconcile(s.client.registeredPeers, s.client.peers).1 == None
    ensures var box := s.loop.server.conns[to].outbox;
            var (after, error) := Registry.HandleCombatEvent(s.loop.server, c, event);
            && error == None && to in after.conns
            && after.conns[to].outbox.accepted ==
               if IsPeer(s.loop.server.conns[to], s.client.peers) then box.accepted + [Registry.ServerEvent(event, s.client.registeredId)]
               else box.accepted
  {
    hide F.LoopInv, F.ServerInv, Registry.HandleCombatEvent, Image, Reconcile, ClientInv, ServerSide, Mirrored, LastId, Applied, IsPeer;
    CaughtUp(s, c);
    F.RoutingExact(s.loop.server, c, event, to);
    Addressed(s.loop.server.conns[to], s.client.peers);
  }

  lemma CaughtUp<C>(s: State<C>, c: C)
    requires Inv(s, c) && Mirrored(s) && s.sent != [] && s.delivered == |s.sent| && !s.loop.server.conns[c].forceDisconnected
    requires Reconcile(s.client.registeredPeers, s.client.peers).1 == None
    ensures DistinctNames(s.client.peers) && F.ServerInv(s.loop.server) && c in s.loop.server.conns
    ensures var conn := s.loop.server.conns[c];
            conn.tableEntry.Some? && conn.peers == Image(s.client.peers) && conn.instanceId == s.client.registeredId
  {
    hide F.ServerInv, Reconcile, Image, Applied, DistinctNames, DistinctIds, Work, EventsOf, LastId, NamesOk, SelfOk, SeenOk, ShortNames;
    EachCallCounts(s.client.registeredPeers, s.client.peers);
    assert s.sent[..s.delivered] == s.sent;
  }

  lemma Addressed(conn: Registry.Conn, peers: PeerMap)
    requires DistinctNames(peers)
    ensures IsPeer(conn, peers) <==>
            (conn.tableEntry.Some? && conn.tableEntry.value in Image(peers) && Image(peers)[conn.tableEntry.value] == conn.instanceId)
  {
    hide Image;
    if conn.tableEntry.Some? && conn.tableEntry.value in Image(peers) && Image(peers)[conn.tableEntry.value] == conn.instanceId {
      var uid :| uid in peers && peers[uid].accountName == conn.tableEntry.value;
    }
  }

  /** The connection is registered with the name and the instance id of one of `peers`. */
  ghost predicate IsPeer(conn: Registry.Conn, peers: PeerMap) {
    exists uid :: uid in peers && conn.tableEntry == Some(peers[uid].accountName) && conn.instanceId == peers[uid].instanceId
  }

  // ----- Order across all hops

  /** `a` is `b` with some elements left out. */
  ghost predicate Subsequence<T(!new)>(a: seq<T>, b: seq<T>)
    decreases |b|
  {
    a == [] || (b != [] && (Subsequence(a, b[..|b| - 1]) || (a[|a| - 1] == b[|b| - 1] && Subsequence(a[..|a| - 1], b[..|b| - 1]))))
  }

  lemma {:induction false} SubsequenceItself<T(!new)>(a: seq<T>)
    ensures Subsequence(a, a)
    decreases |a|
  {
    if a != [] {
      SubsequenceItself(a[..|a| - 1]);
    }
  }

  lemma {:induction false} SubsequenceConcat<T(!new)>(a1: seq<T>, b1: seq<T>, a2: seq<T>, b2: seq<T>)
    requires Subsequence(a1, b1) && Subsequence(a2, b2)
    ensures Subsequence(a1 + a2, b1 + b2)
    decreases |b2|
  {
    if b2 == [] {
      assert a1 + a2 == a1 && b1 + b2 == b1;
    } else {
      var less := b2[..|b2| - 1];
      assert (b1 + b2)[..|b1 + b2| - 1] == b1 + less;
      if Subsequence(a2, less) {
        SubsequenceConcat(a1, b1, a2, less);
      } else {
        SubsequenceConcat(a1, b1, a2[..|a2| - 1], less);
        assert (a1 + a2)[..|a1 + a2| - 1] == a1 + a2[..|a2| - 1];
      }
    }
  }

  function Payloads(events: seq<Registry.ServerEvent>): (r: seq<CbtEvent>)
    ensures |r| == |events|
  {
    seq(|events|, k requires 0 <= k < |events| => events[k].event)
  }

  /** What the connection `to` has accepted in `s'` beyond what it had accepted in `s`. */
  ghost function NewAt<C>(s: Registry.Server<C>, s': Registry.Server<C>, to: C): seq<CbtEvent> {
    if to in s.conns && to in s'.conns && s.conns[to].outbox.accepted <= s'.conns[to].outbox.accepted
    then Payloads(s'.conns[to].outbox.accepted[|s.conns[to].outbox.accepted|..])
    else []
  }

  lemma HandleAccepts<C>(s: Registry.Server<C>, c: C, msg: ClientMsg, now: nat, threshold: nat, to: C)
    requires F.ServerInv(s) && c in s.conns && to in s.conns
    ensures var accepted, s' := s.conns[to].outbox.accepted, Registry.Handle(s, c, msg, now, threshold).0;
            && to in s'.conns
            && (s'.conns[to].outbox.accepted == accepted
                || (msg.CombatEvent? && s'.conns[to].outbox.accepted == accepted + [Registry.ServerEvent(msg.event, s.conns[c].instanceId)]))
  {
    hide Registry.WithoutPeer, Registry.Receives, Registry.Elapsed;
  }

  lemma IncomingAccepts<C>(s: Registry.Server<C>, c: C, msg: ClientMsg, now: nat, threshold: nat, to: C)
    requires F.ServerInv(s) && c in s.conns && to in s.conns && NameLength(msg) < 255
    ensures var accepted, s' := s.conns[to].outbox.accepted, Registry.HandleIncoming(s, c, Encode(msg), now, threshold);
            && to in s'.conns
            && (s'.conns[to].outbox.accepted == accepted
                || (msg.CombatEvent? && s'.conns[to].outbox.accepted == accepted + [Registry.ServerEvent(msg.event, s.conns[c].instanceId)]))
  {
    hide Decode, Encode, Registry.Handle, Registry.Receives;
    RoundTrip(msg);
    HandleAccepts(s, c, msg, now, threshold, to);
  }

  /** Reading one message gives another connection its event, or nothing. */
  lemma ReadGives<C>(l: F.Loop<C>, c: C, msg: ClientMsg, now: nat, threshold: nat, to: C)
    requires F.LoopInv(l) && c in l.readTags && NameLength(msg) < 255
    ensures var added := NewAt(l.server, F.Do(l, F.ReadTag(c, true, Encode(msg), now), threshold).server, to);
            added == [] || added == EventOf(msg)
  {
    ReadOutcome(l, c, Encode(msg), now, threshold);
    hide F.LoopInv, F.ServerInv, F.NoticeShutdown, F.Do, Registry.HandleIncoming, F.ReadLost, Encode;
    var n := F.NoticeShutdown(l);
    if to in l.server.conns {
      F.LostOutbox(n, c, to);
      IncomingAccepts(n.server, c, msg, now, threshold, to);
    }
  }

  lemma ReadOutcome<C>(l: F.Loop<C>, c: C, bytes: seq<u8>, now: nat, threshold: nat)
    requires F.LoopInv(l) && c in l.readTags
    ensures var n := F.NoticeShutdown(l);
            && F.ServerInv(n.server) && c in n.server.conns && n.server.conns == l.server.conns
            && (var s' := F.Do(l, F.ReadTag(c, true, bytes, now), threshold).server;
                s' == F.ReadLost(n, c).server || s' == Registry.HandleIncoming(n.server, c, bytes, now, threshold))
  {
    F.NoticeInv(l);
    hide F.ServerInv, F.NoticeShutdown, Registry.HandleIncoming, F.ReadLost;
  }

  /** The events that `to` accepts while the server reads `c`, along a run. */
  ghost function Arrivals<C>(s: State<C>, moves: seq<Move<C>>, c: C, threshold: nat, to: C): seq<CbtEvent>
    requires Inv(s, c) && Legal(s, moves, c, threshold)
    decreases |moves|
  {
    if moves == [] then []
    else
      StepInv(s, moves[0], c, threshold);
      var s1 := Do(s, moves[0], c, threshold);
      (if OwnRead(moves[0], c) then NewAt(s.loop.server, s1.loop.server, to) else []) + Arrivals(s1, moves[1..], c, threshold, to)
  }

  /** A move delivers at most the next message, and what it adds to `to` is that message's event, if anything. */
  lemma MoveGives<C>(s: State<C>, m: Move<C>, c: C, threshold: nat, to: C)
    requires Inv(s, c) && Allowed(s, m, c)
    ensures var s1 := Do(s, m, c, threshold);
            && s.sent <= s1.sent
            && (if OwnRead(m, c) then s.delivered < |s.sent| && s1.delivered == s.delivered + 1 else s1.delivered == s.delivered)
            && (OwnRead(m, c) ==> var added := NewAt(s.loop.server, s1.loop.server, to); added == [] || added == EventOf(s.sent[s.delivered]))
  {
    if OwnRead(m, c) {
      DoRead(s, m, c, threshold);
      assert NameLength(s.sent[s.delivered]) < 255;
      hide ClientInv, ServerSide, Do, Allowed, Encode, NewAt;
      InvLoop(s, c);
      ReadGives(s.loop, c, s.sent[s.delivered], m.action.now, threshold, to);
    } else {
      ServedInv(s);
      hide ClientInv, F.LoopInv, F.Do, F.Enabled, Served, Knows;
    }
  }

  lemma InvLoop<C>(s: State<C>, c: C)
    requires Inv(s, c)
    ensures F.LoopInv(s.loop)
  {
  }

  lemma {:induction false} ArrivalsInOrder<C>(s: State<C>, moves: seq<Move<C>>, c: C, threshold: nat, to: C)
    requires Inv(s, c) && Legal(s, moves, c, threshold)
    ensures var s' := Perform(s, moves, c, threshold);
            && s.sent <= s'.sent && s.delivered <= s'.delivered <= |s'.sent|
            && Subsequence(Arrivals(s, moves, c, threshold, to), EventsOf(s'.sent[s.delivered..s'.delivered]))
    decreases |moves|
  {
    hide Do, Allowed, ClientInv, ServerSide, NewAt, Subsequence, EventsOf;
    if moves == [] {
      DeliveredBound(s, c);
      NoneArrives(s.sent, s.delivered);
    } else {
      var m := moves[0];
      InvLoop(s, c);
      StepInv(s, m, c, threshold);
      MoveGives(s, m, c, threshold, to);
      var s1, s' := Do(s, m, c, threshold), Perform(s, moves, c, threshold);
      ArrivalsInOrder(s1, moves[1..], c, threshold, to);
      assert s' == Perform(s1, moves[1..], c, threshold);
      var added := if OwnRead(m, c) then NewAt(s.loop.server, s1.loop.server, to) else [];
      var later := Arrivals(s1, moves[1..], c, threshold, to);
      assert Arrivals(s, moves, c, threshold, to) == added + later;
      hide *;
      if OwnRead(m, c) {
        OneMoreRead(s'.sent, s.delivered, s'.delivered, added, later);
      } else {
        assert added + later == later;
      }
    }
  }

  lemma NoneArrives(sent: seq<ClientMsg>, d: nat)
    requires d <= |sent|
    ensures Subsequence([], EventsOf(sent[d..d]))
  {
  }

  lemma OneMoreRead(sent: seq<ClientMsg>, d: nat, end: nat, added: seq<CbtEvent>, later: seq<CbtEvent>)
    requires d < end <= |sent| && (added == [] || added == EventOf(sent[d])) && Subsequence(later, EventsOf(sent[d + 1..end]))
    ensures Subsequence(added + later, EventsOf(sent[d..end]))
  {
    hide EventsOf, EventOf;
    var msg, rest := sent[d], sent[d + 1..end];
    assert sent[d..end] == [msg] + rest;
    EventsConcat([msg], rest);
    OneEvent(msg);
    SubsequenceItself(EventOf(msg));
    SubsequenceConcat(added, EventOf(msg), later, EventsOf(rest));
  }

  lemma DeliveredBound<C>(s: State<C>, c: C)
    requires Inv(s, c)
    ensures s.delivered <= |s.sent|
  {
  }

  lemma OneEvent(msg: ClientMsg)
    ensures EventsOf([msg]) == EventOf(msg)
  {
    Appended([], msg);
    assert [] + [msg] == [msg];
  }

  /** Over every run of a connection: what another connection accepted from it is, in order, a subsequence of the events that its
      client's queue accepted. */
  lemma EventsArriveInOrder<C>(s: State<C>, moves: seq<Move<C>>, c: C, threshold: nat, to: C)
    requires Start(s, c)
    ensures Inv(s, c)
    ensures Legal(s, moves, c, threshold) ==>
              Subsequence(Arrivals(s, moves, c, threshold, to), Perform(s, moves, c, threshold).offered)
  {
    StartInv(s, c);
    assert s.delivered == 0;
    hide *;
    if Legal(s, moves, c, threshold) {
      ArrivalsInOrder(s, moves, c, threshold, to);
      OrderedOffered(Perform(s, moves, c, threshold), c, Arrivals(s, moves, c, threshold, to));
    }
  }

  lemma OrderedOffered<C>(s: State<C>, c: C, arrived: seq<CbtEvent>)
    requires Inv(s, c) && s.delivered <= |s.sent| && Subsequence(arrived, EventsOf(s.sent[0..s.delivered]))
    ensures Subsequence(arrived, s.offered)
  {
    InOrderAlways(s, c);
    hide Inv, EventsOf;
    var read := EventsOf(s.sent[..s.delivered]);
    var rest := EventsOf(s.sent[s.delivered..]) + s.client.queued;
    assert s.sent[0..s.delivered] == s.sent[..s.delivered];
    assert Subsequence([], rest);
    SubsequenceConcat(arrived, read, [], rest);
    assert arrived + [] == arrived;
    Regrouped(read, EventsOf(s.sent[s.delivered..]), s.client.queued);
  }
}
