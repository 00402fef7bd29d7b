/** The life of a connection as its peer and the completion queue see it: when it is read, when it is finished, what gets it
    disconnected, and that what it is sent gets written (networking/Server.cpp, networking/ServerFrontendGrpc.cpp). */
module Lifecycle {
  import opened CombatEvents
  import opened Order
  import opened Bytes
  import opened Wire
  import opened Registry
  import opened Frontend

  // ----- Tags

  /** A tag of the connection comes back in vain, or while the server shuts down. */
  predicate LosesRead<C(==)>(l: Loop<C>, a: Action<C>, c: C) {
    a.ReadTag? && a.c == c && (!a.ok || !l.state.Online?)
  }

  /** The connection that was waited for is there. */
  predicate Arrives<C(==)>(l: Loop<C>, a: Action<C>, c: C) {
    a.ConnectTag? && a.ok && l.state.Online? && l.connect == Some(c)
  }

  /** What each action does to the loop itself: a connection is read from the moment that it is there until its read tag comes back in
      vain, there is always a context for the next connection, and the first tag after `Shutdown` starts the shutdown. */
  lemma TagsMean<C>(l: Loop<C>, a: Action<C>, threshold: nat, c: C)
    requires LoopInv(l) && Enabled(l, a)
    ensures var l' := Do(l, a, threshold);
            && (c in l'.readTags <==> (c in l.readTags && !LosesRead(l, a, c)) || Arrives(l, a, c))
            && (l'.connect == if a.ConnectTag? then (if a.ok && l.state.Online? then Some(a.newcomer) else None) else l.connect)
            && (a.ConnectTag? && a.ok && l.state.Online? ==> a.newcomer in l'.server.conns && l'.server.conns[a.newcomer] == NEW_CONN)
            && (l'.state == if a.Shutdown? then (if l.state.Online? then ShouldShutdown else l.state)
                            else if l.state.Online? then Online else ShuttingDown)
  {
    NoticeInv(l);
    hide HandleIncoming, ForceDisconnect, WriteDone, WriteDropped, ServerInv, Fifo, Lively;
  }

  /** What can happen: a shutdown, a wake-up and the like at any time; a read tag of whatever a connection that is read sends; a write tag
      of whatever connection is written to; and the next connection as long as one is waited for. */
  lemma CanHappen<C>(l: Loop<C>, c: C, ok: bool, bytes: seq<u8>, now: nat)
    ensures Enabled(l, Shutdown) && Enabled(l, OtherTag)
    ensures c in l.readTags ==> Enabled(l, ReadTag(c, ok, bytes, now))
    ensures c in l.server.conns && l.server.conns[c].outbox.tags > 0 ==> Enabled(l, WriteTag(c, ok))
    ensures l.connect.Some? && c !in l.server.conns ==> Enabled(l, ConnectTag(ok, c))
  {
  }

  /** The server knows that it shuts down exactly when the loop does. */
  ghost predicate KnowsState<C>(l: Loop<C>) {
    l.server.shuttingDown <==> l.state.ShuttingDown?
  }

  /** Until the shutdown, `Finish` was called once for each connection that is disconnected, and never for any other. */
  ghost predicate Finishes<C>(l: Loop<C>) {
    && KnowsState(l)
    && forall c :: c in l.server.conns ==>
         var conn := l.server.conns[c];
         && (!conn.forceDisconnected ==> conn.finishes == 0)
         && (conn.forceDisconnected && !l.server.shuttingDown ==> conn.finishes == 1)
  }

  /** A connection is disconnected now and was not before: it is finished now unless the server shuts down. */
  ghost predicate FinishedNow(conn: Conn, conn': Conn, shuttingDown: bool) {
    && conn'.finishes == conn.finishes + (if conn'.forceDisconnected && !conn.forceDisconnected && !shuttingDown then 1 else 0)
    && (conn.forceDisconnected ==> conn'.forceDisconnected)
  }

  ghost predicate AllFinishedNow<C>(s: Server<C>, s': Server<C>) {
    && s'.shuttingDown == s.shuttingDown && s'.conns.Keys == s.conns.Keys
    && forall c :: c in s.conns ==> FinishedNow(s.conns[c], s'.conns[c], s.shuttingDown)
  }

  lemma DisconnectFinishes<C>(s: Server<C>, c: C)
    requires c in s.conns
    ensures AllFinishedNow(s, ForceDisconnect(s, c))
  {
  }

  lemma RegisterFinishes<C>(s: Server<C>, c: C, id: u16, name: seq<u8>, now: nat, threshold: nat)
    requires c in s.conns && (name in s.agents ==> s.agents[name] in s.conns)
    ensures AllFinishedNow(s, HandleRegisterSelf(s, c, id, name, now, threshold).0)
  {
    hide Elapsed;
  }

  lemma HandleFinishes<C>(s: Server<C>, c: C, msg: ClientMsg, now: nat, threshold: nat)
    requires ServerInv(s) && c in s.conns
    ensures AllFinishedNow(s, Handle(s, c, msg, now, threshold).0)
  {
    if msg.RegisterSelf? {
      RegisterFinishes(s, c, msg.selfId, msg.name, now, threshold);
    }
    hide HandleRegisterSelf, WithoutPeer, Receives, Accept;
  }

  lemma FinishesTwice<C>(s: Server<C>, s1: Server<C>, s2: Server<C>)
    requires AllFinishedNow(s, s1) && AllFinishedNow(s1, s2)
    ensures AllFinishedNow(s, s2)
  {
  }

  lemma IncomingFinishes<C>(s: Server<C>, c: C, bytes: seq<u8>, now: nat, threshold: nat)
    requires ServerInv(s) && c in s.conns
    ensures AllFinishedNow(s, HandleIncoming(s, c, bytes, now, threshold))
  {
    hide Decode, Handle, ForceDisconnect, ServerInv, AllFinishedNow, Bijection;
    HasEntry(s, c);
    match Decode(bytes)
    case Malformed(_) => DisconnectFinishes(s, c);
    case Ignored => NothingFinishes(s);
    case Message(msg) =>
      HandleInv(s, c, msg, now, threshold);
      HandleFinishes(s, c, msg, now, threshold);
      var s1 := Handle(s, c, msg, now, threshold).0;
      DisconnectFinishes(s1, c);
      FinishesTwice(s, s1, ForceDisconnect(s1, c));
      TouchFinishes(s1, c, now);
      FinishesTwice(s, s1, s1.With(c, s1.conns[c].(lastCallTime := now)));
  }

  lemma NothingFinishes<C>(s: Server<C>)
    ensures AllFinishedNow(s, s)
  {
  }

  lemma TouchFinishes<C>(s: Server<C>, c: C, now: nat)
    requires c in s.conns
    ensures AllFinishedNow(s, s.With(c, s.conns[c].(lastCallTime := now)))
  {
  }

  lemma ReadFinishes<C>(n: Loop<C>, c: C, bytes: seq<u8>, now: nat, threshold: nat)
    requires LoopInv(n) && Finishes(n) && c in n.server.conns
    ensures Finishes(ReadLost(n, c))
    ensures Finishes(n.(server := HandleIncoming(n.server, c, bytes, now, threshold)))
  {
    hide HandleIncoming, ForceDisconnect, ServerInv;
    DisconnectFinishes(n.server, c);
    IncomingFinishes(n.server, c, bytes, now, threshold);
  }

  lemma StepFinishes<C>(l: Loop<C>, a: Action<C>, threshold: nat)
    requires LoopInv(l) && Enabled(l, a) && Finishes(l)
    ensures Finishes(Do(l, a, threshold))
  {
    hide HandleIncoming, ReadLost, WriteDone, WriteDropped, ServerInv, Fifo, Lively, NoticeShutdown;
    NoticeInv(l);
    NoticeFinishes(l);
    if a.ReadTag? {
      hide Finishes;
      ReadFinishes(NoticeShutdown(l), a.c, a.bytes, a.now, threshold);
    }
  }

  lemma NoticeFinishes<C>(l: Loop<C>)
    requires Finishes(l)
    ensures Finishes(NoticeShutdown(l))
  {
  }

  /** Over every run: as long as the server does not shut down, exactly the disconnected connections have been finished, each once. */
  lemma {:induction false} FinishedOnce<C>(l: Loop<C>, actions: seq<Action<C>>, threshold: nat)
    requires LoopInv(l) && Finishes(l) && Legal(l, actions, threshold)
    ensures Finishes(Perform(l, actions, threshold))
    decreases |actions|
  {
    hide LoopInv, Finishes, Do, Enabled;
    if actions != [] {
      StepInv(l, actions[0], threshold);
      StepFinishes(l, actions[0], threshold);
      FinishedOnce(Do(l, actions[0], threshold), actions[1..], threshold);
    }
  }

  lemma StartFinishes<C>(l: Loop<C>)
    requires Start(l)
    ensures Finishes(l)
  {
  }

  // ----- What an incoming message does

  /** The connection is disconnected and out of the table, and nobody else is touched. */
  ghost predicate ThrownOut<C>(s: Server<C>, s': Server<C>, c: C) {
    && c in s'.conns && s'.conns[c].forceDisconnected && s'.conns[c].tableEntry == None
    && s'.conns.Keys == s.conns.Keys && (forall d :: d in s.conns && d != c ==> s'.conns[d] == s.conns[d])
    && (forall name :: name in s'.agents <==> name in s.agents && s.agents[name] != c)
    && (forall name :: name in s'.agents ==> s'.agents[name] == s.agents[name])
  }

  lemma DisconnectThrowsOut<C>(s: Server<C>, c: C)
    requires ServerInv(s) && c in s.conns
    ensures ThrownOut(s, ForceDisconnect(s, c), c)
  {
    hide Fifo;
  }

  /** The server refuses the message: an own registration of somebody registered or disconnected already, or under the name of a
      connection that has called less than `threshold` ago; anything else of somebody who is not registered. */
  ghost predicate Refused<C>(s: Server<C>, c: C, msg: ClientMsg, now: nat, threshold: nat)
    requires c in s.conns && forall name :: name in s.agents ==> s.agents[name] in s.conns
  {
    if msg.RegisterSelf? then
      || s.conns[c].forceDisconnected || s.conns[c].tableEntry.Some?
      || (msg.name in s.agents && Elapsed(now, s.conns[s.agents[msg.name]].lastCallTime) < threshold)
    else s.conns[c].tableEntry == None
  }

  lemma RefusedMeans<C>(s: Server<C>, c: C, msg: ClientMsg, now: nat, threshold: nat)
    requires ServerInv(s) && c in s.conns && forall name :: name in s.agents ==> s.agents[name] in s.conns
    ensures var (s', error) := Handle(s, c, msg, now, threshold);
            && (error.Some? <==> Refused(s, c, msg, now, threshold)) && (error.Some? ==> s' == s)
  {
    hide WithoutPeer, Receives, Accept, Elapsed;
  }

  /** An unknown type behind a header of version 1. */
  predicate UnknownType(b: seq<u8>) {
    && |b| >= 8 && b[0] == 1 && b[1] == 0 && b[2] == 0 && b[3] == 0
    && !(1 <= b[4] <= 5 && b[5] == 0 && b[6] == 0 && b[7] == 0)
  }

  lemma SmallNumber(b: seq<u8>, n: nat)
    requires |b| == 4 && n < 256
    ensures FromBytes(b) == n <==> b[0] == n && b[1] == 0 && b[2] == 0 && b[3] == 0
  {
    FourBytes(b[0], b[1], b[2], b[3], []);
    assert b == [b[0], b[1], b[2], b[3]] + [] && FromBytes([]) == 0;
    hide FromBytes;
  }

  lemma Types(b: seq<u8>)
    requires |b| >= 8
    ensures FromBytes(b[0..4]) == 1 <==> b[0] == 1 && b[1] == 0 && b[2] == 0 && b[3] == 0
    ensures 1 <= FromBytes(b[4..8]) <= 5 <==> 1 <= b[4] <= 5 && b[5] == 0 && b[6] == 0 && b[7] == 0
  {
    SmallNumber(b[0..4], 1);
    SmallNumber(b[4..8], 1);
    SmallNumber(b[4..8], 2);
    SmallNumber(b[4..8], 3);
    SmallNumber(b[4..8], 4);
    SmallNumber(b[4..8], 5);
    hide FromBytes;
  }

  /** Somebody encoded these bytes from a message. */
  ghost predicate IsEncoding(b: seq<u8>) {
    exists msg :: NameLength(msg) < 256 && b == Encode(msg)
  }

  /** Ignored is what has an unknown type, a message is what was encoded from one, and everything else is malformed. */
  lemma DecodeMeans(b: seq<u8>)
    ensures Decode(b) == Ignored <==> UnknownType(b)
    ensures Decode(b).Message? <==> IsEncoding(b)
  {
    if |b| >= 8 {
      Types(b);
    }
    if Decode(b).Message? {
      OnlyEncodingsAccepted(b);
    }
    if msg :| NameLength(msg) < 256 && b == Encode(msg) {
      RoundTrip(msg);
    }
    hide FromBytes, Encode, EventFrom;
  }

  /** Bytes of an unknown type change nothing, and those that are no message at all get the client thrown out. */
  lemma OtherBytes<C>(s: Server<C>, c: C, bytes: seq<u8>, now: nat, threshold: nat)
    requires ServerInv(s) && c in s.conns && !IsEncoding(bytes)
    ensures forall name :: name in s.agents ==> s.agents[name] in s.conns
    ensures if UnknownType(bytes) then HandleIncoming(s, c, bytes, now, threshold) == s
            else ThrownOut(s, HandleIncoming(s, c, bytes, now, threshold), c)
  {
    hide Decode, Answered, ForceDisconnect, ServerInv, Bijection, ThrownOut, UnknownType, IsEncoding;
    HasEntry(s, c);
    DisconnectThrowsOut(s, c);
    DecodeMeans(bytes);
  }

  /** A message that is not refused is handled, and the time of the call kept; a refused one gets the client thrown out. */
  lemma MessageMeans<C>(s: Server<C>, c: C, msg: ClientMsg, now: nat, threshold: nat)
    requires ServerInv(s) && c in s.conns && NameLength(msg) < 256
    ensures forall name :: name in s.agents ==> s.agents[name] in s.conns
    ensures var s', handled := HandleIncoming(s, c, Encode(msg), now, threshold), Handle(s, c, msg, now, threshold).0;
            && c in handled.conns
            && if Refused(s, c, msg, now, threshold) then ThrownOut(s, s', c)
               else s' == handled.With(c, handled.conns[c].(lastCallTime := now))
  {
    hide Decode, Encode, Handle, ForceDisconnect, ServerInv, Bijection, ThrownOut, Refused, NameLength;
    HasEntry(s, c);
    RoundTrip(msg);
    RefusedMeans(s, c, msg, now, threshold);
    HandleInv(s, c, msg, now, threshold);
    DisconnectThrowsOut(s, c);
  }

  // ----- Writing

  /** `n` writes complete, one after the other. */
  function Completed(box: Outbox, n: nat): Outbox
    requires Fifo(box) && Lively(box)
    ensures Fifo(Completed(box, n)) && Lively(Completed(box, n))
  {
    if n == 0 then box
    else
      var before := Completed(box, n - 1);
      if before.tags > 0 then
        FifoKept(before, ServerEvent(AnyEvent(), 0));
        WriteDone(before)
      else before
  }

  lemma CompletesOne(box: Outbox)
    requires Fifo(box) && box.tags > 0
    ensures var box' := WriteDone(box);
            && box'.accepted == box.accepted
            && (if box.queued == [] then box' == box.(writePending := false, tags := 0)
                else box'.written == box.written + [box.queued[0]] && box'.queued == box.queued[1..] && box'.tags == 1)
  {
  }

  /** As long as writes complete, everything accepted is written: after as many completions as there are events queued, and the one
      under way, the connection is idle. */
  lemma {:induction false} WritesDrain(box: Outbox, n: nat)
    requires Fifo(box) && Lively(box) && box.writePending
    ensures var after := Completed(box, n);
            && after.accepted == box.accepted
            && (n <= |box.queued| ==> after.writePending && after.written == box.accepted[..|box.written| + n])
            && (n > |box.queued| ==> !after.writePending && after.written == box.accepted)
  {
    hide Fifo, Lively, WriteDone;
    if n == 0 {
      AcceptedSplit(box);
    } else {
      WritesDrain(box, n - 1);
      var before := Completed(box, n - 1);
      OneCompletion(box, before, n);
    }
  }

  lemma AcceptedSplit(box: Outbox)
    requires Fifo(box)
    ensures box.accepted[..|box.written|] == box.written && |box.accepted| == |box.written| + |box.queued|
  {
  }

  lemma OneCompletion(box: Outbox, before: Outbox, n: nat)
    requires n > 0 && Fifo(box) && Fifo(before) && Lively(before) && before.accepted == box.accepted
    requires n - 1 <= |box.queued| ==> before.writePending && before.written == box.accepted[..|box.written| + n - 1]
    requires n - 1 > |box.queued| ==> !before.writePending && before.written == box.accepted
    ensures before.tags > 0 <==> n - 1 <= |box.queued|
    ensures before.tags > 0 ==>
              var after := WriteDone(before);
              && (n <= |box.queued| ==> after.writePending && after.written == box.accepted[..|box.written| + n])
              && (n > |box.queued| ==> !after.writePending && after.written == box.accepted)
              && after.accepted == box.accepted
  {
    if before.tags > 0 {
      CompletesOne(before);
      assert |box.accepted| == |box.written| + |box.queued|;
      if n <= |box.queued| {
        assert before.queued[0] == box.accepted[|box.written| + n - 1];
      }
    }
    hide WriteDone;
  }

  // ----- What a tag sets off

  /** A write tag that comes back while the server is online starts the next write, if any event waits; one that comes back in vain, or
      during shutdown, starts nothing. */
  lemma WriteTagMeans<C>(l: Loop<C>, c: C, ok: bool, threshold: nat)
    requires LoopInv(l) && Enabled(l, WriteTag(c, ok))
    ensures var l' := Do(l, WriteTag(c, ok), threshold);
            var box := l.server.conns[c].outbox;
            && c in l'.server.conns
            && var box' := l'.server.conns[c].outbox;
            if ok && l.state.Online? then
              if box.queued == [] then box' == box.(writePending := false, tags := 0)
              else box'.written == box.written + [box.queued[0]] && box'.queued == box.queued[1..] && box'.tags == 1
            else box' == box.(tags := 0)
  {
    NoticeInv(l);
    HasFifo(l.server, c);
    CompletesOne(l.server.conns[c].outbox);
    hide LoopInv, WriteDone, NoticeShutdown;
    if ok && l.state.Online? {
      StaysOnline(l);
    }
    WriteState(l);
  }

  lemma WriteState<C>(l: Loop<C>)
    ensures NoticeShutdown(l).state == ShuttingDown <==> !l.state.Online?
  {
  }

  lemma StaysOnline<C>(l: Loop<C>)
    requires l.state.Online?
    ensures NoticeShutdown(l) == l
  {
  }

  /** What the loop reads while it is online is handled by the server, and a read that comes back in vain, or during shutdown,
      disconnects. */
  lemma ReadTagMeans<C>(l: Loop<C>, c: C, ok: bool, bytes: seq<u8>, now: nat, threshold: nat)
    requires LoopInv(l) && Enabled(l, ReadTag(c, ok, bytes, now))
    ensures c in l.server.conns && forall name :: name in l.server.agents ==> l.server.agents[name] in l.server.conns
    ensures var l' := Do(l, ReadTag(c, ok, bytes, now), threshold);
            if ok && l.state.Online? then l'.server == HandleIncoming(l.server, c, bytes, now, threshold)
            else c in l'.server.conns && l'.server.conns[c].forceDisconnected && l'.server.conns[c].tableEntry == None
  {
    NoticeInv(l);
    LostMeans(NoticeShutdown(l), c);
    HasEntry(l.server, c);
    WriteState(l);
    hide HandleIncoming, ReadLost, ServerInv, Bijection;
  }

  lemma LostMeans<C>(n: Loop<C>, c: C)
    requires c in n.server.conns && ServerInv(n.server)
    ensures c in ReadLost(n, c).server.conns
    ensures var conn := ReadLost(n, c).server.conns[c]; conn.forceDisconnected && conn.tableEntry == None
  {
  }

  // ----- What the client makes of the server's bytes

  lemma EventType(b: seq<u8>)
    requires |b| >= 8
    ensures FromBytes(b[0..4]) == 1 <==> b[0..4] == [1, 0, 0, 0]
    ensures FromBytes(b[4..8]) == 5 <==> b[4..8] == [5, 0, 0, 0]
  {
    SmallNumber(b[0..4], 1);
    SmallNumber(b[4..8], 5);
    hide FromBytes;
  }

  /** Delivered is what a server sends; another type is skipped; anything else drops the connection. */
  lemma ClientDecodeMeans(b: seq<u8>, event: CbtEvent, id: u16)
    ensures ClientDecode(b) == Deliver(event, id) <==> b == EncodeServerEvent(event, id)
    ensures ClientDecode(b) == Skip <==> |b| >= 8 && b[0..4] == [1, 0, 0, 0] && b[4..8] != [5, 0, 0, 0]
  {
    if |b| >= 8 {
      EventType(b);
    }
    ServerEventRoundTrip(event, id);
    if ClientDecode(b).Deliver? {
      DeliveredIsEncoding(b);
    }
    hide FromBytes, EncodeServerEvent, EventFrom;
  }

  lemma DeliveredIsEncoding(b: seq<u8>)
    requires ClientDecode(b).Deliver?
    ensures b == EncodeServerEvent(ClientDecode(b).event, ClientDecode(b).senderId)
  {
    DeliveredHeader(b);
    DeliveredBody(b);
    hide ToBytes, EventBytes, ClientDecode;
    FourParts(b);
  }

  lemma DeliveredHeader(b: seq<u8>)
    requires ClientDecode(b).Deliver?
    ensures |b| == 74 && b[0..4] == ToBytes(1, 4) && b[4..8] == ToBytes(5, 4)
  {
    EncodeDecode(b[0..4]);
    EncodeDecode(b[4..8]);
    hide FromBytes, ToBytes, EventFrom;
  }

  lemma DeliveredBody(b: seq<u8>)
    requires ClientDecode(b).Deliver?
    ensures |b| == 74 && b[8..][..64] == EventBytes(ClientDecode(b).event) && b[8..][64..] == ToBytes(ClientDecode(b).senderId, 2)
  {
    EventEncodeDecode(b[8..][..64]);
    EncodeDecode(b[8..][64..]);
    hide FromBytes, ToBytes, EventFrom, EventBytes;
  }

  lemma FourParts(b: seq<u8>)
    requires |b| == 74
    ensures b == (b[0..4] + b[4..8]) + (b[8..][..64] + b[8..][64..])
  {
    assert b[8..] == b[8..][..64] + b[8..][64..];
    assert b == b[..8] + b[8..] && b[..8] == b[0..4] + b[4..8];
  }
}
