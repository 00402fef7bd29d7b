/** What callbacks can change between the three parts of a round of `Serve`, and what that means for the combat events: which own
    id and which peers the server knows when one arrives (networking/Client.cpp:487-528, src/dllmain.cpp:403-444). */
module Timing {
  import opened CombatEvents
  import opened Wire
  import opened Peers
  import opened Session
  import Client
  import Registry
  import F = Frontend

  // ----- What an event follows

  /** What this round has checked so far is still so. */
  ghost predicate Present<C>(s: State<C>) {
    && (!s.client.round.SelfNext? ==> s.client.instanceId == s.selfSeen)
    && (s.client.round.QueueNext? ==> s.client.peers == s.peersSeen)
  }

  ghost predicate ChangesId<C>(s: State<C>, m: Move<C>) {
    m.Local? && Client.RegistersSelf(m.source, m.destination) && m.destination.id != s.client.instanceId
  }

  ghost predicate ChangesPeers<C>(s: State<C>, m: Move<C>, c: C)
    requires Allowed(s, m, c)
  {
    m.Area? && Client.AreaEvent(s.client, m.source, m.destination).peers != s.client.peers
  }

  /** A callback that changes what this round has checked already. */
  ghost predicate Overtakes<C>(s: State<C>, m: Move<C>, c: C)
    requires Allowed(s, m, c)
  {
    (!s.client.round.SelfNext? && ChangesId(s, m)) || (s.client.round.QueueNext? && ChangesPeers(s, m, c))
  }

  /** The moves that make a round's checks out of date are exactly these. */
  lemma PresentStep<C>(s: State<C>, m: Move<C>, c: C, threshold: nat)
    requires F.LoopInv(s.loop) && Allowed(s, m, c) && Present(s)
    ensures Present(Do(s, m, c, threshold)) <==> !Overtakes(s, m, c)
  {
    hide F.Do, F.Enabled, F.LoopInv, Reconcile;
  }

  ghost predicate Undisturbed<C>(s: State<C>, moves: seq<Move<C>>, c: C, threshold: nat)
    requires Inv(s, c) && Legal(s, moves, c, threshold)
    decreases |moves|
  {
    moves == [] ||
    (!Overtakes(s, moves[0], c) &&
     (StepInv(s, moves[0], c, threshold); Undisturbed(Do(s, moves[0], c, threshold), moves[1..], c, threshold)))
  }

  lemma {:induction false} RunPresent<C>(s: State<C>, moves: seq<Move<C>>, c: C, threshold: nat)
    requires Inv(s, c) && Present(s) && Legal(s, moves, c, threshold) && Undisturbed(s, moves, c, threshold)
    ensures Present(Perform(s, moves, c, threshold))
    decreases |moves|
  {
    hide Present, Do, Allowed, Overtakes, ClientInv, ServerSide;
    if moves != [] {
      InvLoop(s, c);
      StepInv(s, moves[0], c, threshold);
      PresentStep(s, moves[0], c, threshold);
      RunPresent(Do(s, moves[0], c, threshold), moves[1..], c, threshold);
    }
  }

  /** The combat event `event` is what is written next. */
  ghost predicate Writes<C>(s: State<C>, event: CbtEvent) {
    Served(s).sent == s.sent + [CombatEvent(event, 0)]
  }

  lemma WritesWhen<C>(s: State<C>, event: CbtEvent)
    requires NamesOk(s.client.peers) && NamesOk(s.client.registeredPeers)
    ensures Writes(s, event) <==> s.client.round.QueueNext? && s.client.queued != [] && s.client.queued[0] == event
  {
    ReconcileNames(s.client.registeredPeers, s.client.peers);
    var msg := Client.ServePart(s.client).1;
    assert msg.Some? ==> (s.sent + [msg.value])[|s.sent|] == msg.value;
    assert (s.sent + [CombatEvent(event, 0)])[|s.sent|] == CombatEvent(event, 0);
    hide Reconcile, NamesOk;
  }

  /** When an event is written, the server is going to know the id as of this round's check of it, and the peers as of this round's
      check of them; and these are the present ones exactly if they have not been overtaken. */
  lemma EventFollowsChecks<C>(s: State<C>, event: CbtEvent)
    requires ClientInv(s) && Mirrored(s) && Writes(s, event)
    ensures LastId(s.sent) == s.selfSeen
    ensures DistinctNames(s.peersSeen) && Applied(s.sent) == Image(s.peersSeen)
    ensures Present(s) <==> s.client.registeredId == s.client.instanceId && s.client.registeredPeers == s.client.peers
  {
    WritesWhen(s, event);
    hide Image, Applied, EventsOf, LastId, Writes, NamesOk, DistinctIds;
  }

  /** Over every run: an event goes out after everything that its round has checked, and if no callback changes the own id behind
      the check of it, or the peers behind theirs, after everything there is to tell. */
  lemma EventsFollowPeers<C>(s: State<C>, moves: seq<Move<C>>, c: C, threshold: nat, event: CbtEvent)
    requires Start(s, c)
    ensures Inv(s, c)
    ensures Legal(s, moves, c, threshold) && AlwaysDistinct(s, moves, c, threshold) && Writes(Perform(s, moves, c, threshold), event) ==>
              var s' := Perform(s, moves, c, threshold);
              && LastId(s'.sent) == s'.selfSeen && DistinctNames(s'.peersSeen) && Applied(s'.sent) == Image(s'.peersSeen)
              && (Present(s') <==> s'.client.registeredId == s'.client.instanceId && s'.client.registeredPeers == s'.client.peers)
              && (Undisturbed(s, moves, c, threshold) ==> s'.selfSeen == s'.client.instanceId && s'.peersSeen == s'.client.peers)
  {
    StartInv(s, c);
    assert Present(s);
    hide Start, ClientInv, ServerSide, Mirrored, Legal, AlwaysDistinct, Perform, Undisturbed, Writes;
    if Legal(s, moves, c, threshold) && AlwaysDistinct(s, moves, c, threshold) && Writes(Perform(s, moves, c, threshold), event) {
      RunMirrored(s, moves, c, threshold);
      var s' := Perform(s, moves, c, threshold);
      EventFollowsChecks(s', event);
      if Undisturbed(s, moves, c, threshold) {
        RunPresent(s, moves, c, threshold);
        InvNames(s', c);
        WritesWhen(s', event);
      }
    }
  }

  lemma InvNames<C>(s: State<C>, c: C)
    requires Inv(s, c)
    ensures NamesOk(s.client.peers) && NamesOk(s.client.registeredPeers)
  {
  }

  // ----- Under which id an event arrives

  /** How many events have been written before the message `j`. */
  ghost function EventsBefore(sent: seq<ClientMsg>, j: nat): nat
    requires j <= |sent|
  {
    |EventsOf(sent[..j])|
  }

  /** Each event of the stream is tagged with the own id of the time at which it was queued. */
  ghost predicate TagsMatch(sent: seq<ClientMsg>, ids: seq<u16>) {
    forall j :: 0 <= j < |sent| && sent[j].CombatEvent? ==>
      EventsBefore(sent, j) < |ids| && LastId(sent[..j]) == ids[EventsBefore(sent, j)]
  }

  lemma MatchesLonger(sent: seq<ClientMsg>, ids: seq<u16>, id: u16)
    requires TagsMatch(sent, ids)
    ensures TagsMatch(sent, ids + [id])
  {
    hide LastId, EventsBefore;
  }

  lemma MatchesOneMore(sent: seq<ClientMsg>, ids: seq<u16>, msg: ClientMsg)
    requires TagsMatch(sent, ids)
    requires msg.CombatEvent? ==> |EventsOf(sent)| < |ids| && LastId(sent) == ids[|EventsOf(sent)|]
    ensures TagsMatch(sent + [msg], ids)
  {
    hide LastId, EventsOf;
    var more := sent + [msg];
    forall j | 0 <= j < |more| && more[j].CombatEvent?
      ensures EventsBefore(more, j) < |ids| && LastId(more[..j]) == ids[EventsBefore(more, j)]
    {
      if j < |sent| {
        assert more[..j] == sent[..j] && sent[j].CombatEvent?;
        assert EventsBefore(sent, j) < |ids|;
      } else {
        assert more[..j] == sent;
      }
    }
  }

  /** The server tags an event with the id of the last check, so with the id under which it was queued exactly if these are equal. */
  lemma TagExact<C>(s: State<C>, event: CbtEvent)
    requires ClientInv(s) && Writes(s, event)
    ensures |EventsOf(s.sent)| < |s.offeredIds| && LastId(s.sent) == s.selfSeen && s.offered[|EventsOf(s.sent)|] == event
    ensures LastId(s.sent) == s.offeredIds[|EventsOf(s.sent)|] <==> s.offeredIds[|EventsOf(s.sent)|] == s.selfSeen
  {
    WritesWhen(s, event);
    hide EventsOf, LastId, Writes, NamesOk;
  }

  /** What is queued was queued under the present id, and that is the id that the server knows when it arrives. */
  ghost predicate Settled<C>(s: State<C>) {
    && TagsMatch(s.sent, s.offeredIds)
    && (forall k :: |EventsOf(s.sent)| <= k < |s.offeredIds| ==> s.offeredIds[k] == s.client.instanceId)
    && (!s.client.round.SelfNext? ==> s.client.instanceId == s.selfSeen)
  }

  /** The id changes only between two rounds and while no event is queued. */
  ghost predicate ChangesInTime<C>(s: State<C>, m: Move<C>) {
    ChangesId(s, m) ==> s.client.round.SelfNext? && s.client.queued == []
  }

  lemma SettledServed<C>(s: State<C>)
    requires ClientInv(s) && Settled(s)
    ensures Settled(Served(s))
  {
    var (client, msg) := Client.ServePart(s.client);
    PartFits(s.client);
    if msg.Some? {
      SentEvent(s);
      Appended(s.sent, msg.value);
      hide ClientInv, EventsOf, LastId, TagsMatch, Client.ServePart;
      MatchesOneMore(s.sent, s.offeredIds, msg.value);
    } else {
      hide ClientInv, EventsOf, LastId, TagsMatch, Reconcile;
    }
  }

  lemma SentEvent<C>(s: State<C>)
    requires ClientInv(s) && Settled(s)
    ensures var msg := Client.ServePart(s.client).1;
            msg.Some? && msg.value.CombatEvent? ==>
              |EventsOf(s.sent)| < |s.offeredIds| && LastId(s.sent) == s.offeredIds[|EventsOf(s.sent)|]
  {
    ReconcileNames(s.client.registeredPeers, s.client.peers);
    hide Reconcile, NamesOk, EventsOf, LastId, TagsMatch;
  }

  lemma SettledStep<C>(s: State<C>, m: Move<C>, c: C, threshold: nat)
    requires ClientInv(s) && F.LoopInv(s.loop) && Allowed(s, m, c) && Settled(s) && ChangesInTime(s, m)
    ensures Settled(Do(s, m, c, threshold))
  {
    hide F.Do, F.Enabled, F.LoopInv;
    if m.Serve? {
      SettledServed(s);
      hide Settled, ClientInv, Served;
    } else {
      if m.Queue? {
        MatchesLonger(s.sent, s.offeredIds, s.client.instanceId);
      }
      assert s.client.queued == [] ==> |EventsOf(s.sent)| == |s.offeredIds|;
      hide EventsOf, TagsMatch, ClientInv, Served;
    }
  }

  ghost predicate InTime<C>(s: State<C>, moves: seq<Move<C>>, c: C, threshold: nat)
    requires Inv(s, c) && Legal(s, moves, c, threshold)
    decreases |moves|
  {
    moves == [] ||
    (ChangesInTime(s, moves[0]) &&
     (StepInv(s, moves[0], c, threshold); InTime(Do(s, moves[0], c, threshold), moves[1..], c, threshold)))
  }

  lemma {:induction false} RunSettled<C>(s: State<C>, moves: seq<Move<C>>, c: C, threshold: nat)
    requires Inv(s, c) && Settled(s) && Legal(s, moves, c, threshold) && InTime(s, moves, c, threshold)
    ensures Settled(Perform(s, moves, c, threshold))
    decreases |moves|
  {
    hide Settled, Do, Allowed, ChangesInTime, ClientInv, ServerSide;
    if moves != [] {
      InvLoop(s, c);
      InvClient(s, c);
      StepInv(s, moves[0], c, threshold);
      SettledStep(s, moves[0], c, threshold);
      RunSettled(Do(s, moves[0], c, threshold), moves[1..], c, threshold);
    }
  }

  lemma InvClient<C>(s: State<C>, c: C)
    requires Inv(s, c)
    ensures ClientInv(s)
  {
  }

  lemma StartSettled<C>(s: State<C>, c: C)
    requires Start(s, c) && forall k :: 0 <= k < |s.offeredIds| ==> s.offeredIds[k] == s.client.instanceId
    ensures Settled(s)
  {
    hide F.LoopInv, Registry.NEW_CONN;
  }

  lemma SplitAt<T>(s: seq<T>, j: nat)
    requires j < |s|
    ensures s == (s[..j] + [s[j]]) + s[j + 1..]
  {
  }

  lemma Middle<T>(before: seq<T>, e: T, after: seq<T>)
    ensures |before| < |(before + [e]) + after| && ((before + [e]) + after)[|before|] == e
  {
  }

  lemma EventAt(sent: seq<ClientMsg>, j: nat)
    requires j < |sent| && sent[j].CombatEvent?
    ensures EventsBefore(sent, j) < |EventsOf(sent)| && EventsOf(sent)[EventsBefore(sent, j)] == sent[j].event
  {
    hide EventsOf, EventOf;
    SplitAt(sent, j);
    EventsConcat(sent[..j] + [sent[j]], sent[j + 1..]);
    Appended(sent[..j], sent[j]);
    OneEventOf(sent[j]);
    Middle(EventsOf(sent[..j]), sent[j].event, EventsOf(sent[j + 1..]));
  }

  /** The event at position `j` of the stream, among those that the queue accepted. */
  lemma EventIndex<C>(s: State<C>, j: nat)
    requires ClientInv(s) && j < |s.sent| && s.sent[j].CombatEvent?
    ensures EventsBefore(s.sent, j) < |s.offeredIds| == |s.offered| && s.offered[EventsBefore(s.sent, j)] == s.sent[j].event
  {
    EventAt(s.sent, j);
    hide EventsOf, EventsBefore, Conforms, ShortNames, NamesOk, SelfOk, SeenOk, LastId;
  }

  lemma OneEventOf(msg: ClientMsg)
    requires msg.CombatEvent?
    ensures EventOf(msg) == [msg.event]
  {
  }

  /** What `to` accepts from the next message is `event` under the id `id`, or nothing. */
  ghost predicate ArrivesAs<C>(s: State<C>, c: C, now: nat, threshold: nat, to: C, event: CbtEvent, id: u16)
    requires F.LoopInv(s.loop) && c in s.loop.server.conns && to in s.loop.server.conns && s.delivered < |s.sent|
  {
    var server' := Registry.HandleIncoming(s.loop.server, c, Encode(s.sent[s.delivered]), now, threshold);
    var accepted := s.loop.server.conns[to].outbox.accepted;
    to in server'.conns
    && (server'.conns[to].outbox.accepted == accepted || server'.conns[to].outbox.accepted == accepted + [Registry.ServerEvent(event, id)])
  }

  /** The next message is an event for the server to route. */
  ghost predicate Routes<C>(s: State<C>, c: C, to: C)
    requires F.LoopInv(s.loop)
  {
    && c in s.loop.server.conns && to in s.loop.server.conns && !s.loop.server.conns[c].forceDisconnected
    && s.delivered < |s.sent| && s.sent[s.delivered].CombatEvent?
  }

  lemma ArrivesUnderLastId<C>(s: State<C>, c: C, now: nat, threshold: nat, to: C)
    requires Inv(s, c) && Routes(s, c, to)
    ensures ArrivesAs(s, c, now, threshold, to, s.sent[s.delivered].event, LastId(s.sent[..s.delivered]))
  {
    var msg := s.sent[s.delivered];
    assert NameLength(msg) < 255 && s.delivered > 0;
    assert s.loop.server.conns[c].instanceId == LastId(s.sent[..s.delivered]);
    assert F.ServerInv(s.loop.server);
    hide F.LoopInv, F.ServerInv, ClientInv, Knows, Registry.HandleIncoming, Encode, LastId;
    IncomingAccepts(s.loop.server, c, msg, now, threshold, to);
  }

  /** Over every run in which the own id changes only between two rounds and while no event is queued: each event arrives under the id
      that was the client's own when the event was queued. */
  lemma EventsKeepTheirId<C>(s: State<C>, moves: seq<Move<C>>, c: C, now: nat, threshold: nat, to: C)
    requires Start(s, c) && forall k :: 0 <= k < |s.offeredIds| ==> s.offeredIds[k] == s.client.instanceId
    ensures Inv(s, c)
    ensures Legal(s, moves, c, threshold) && InTime(s, moves, c, threshold) ==>
              var s' := Perform(s, moves, c, threshold);
              && TagsMatch(s'.sent, s'.offeredIds)
              && (Routes(s', c, to) ==>
                    var k := EventsBefore(s'.sent, s'.delivered);
                    k < |s'.offeredIds| == |s'.offered| && ArrivesAs(s', c, now, threshold, to, s'.offered[k], s'.offeredIds[k]))
  {
    StartInv(s, c);
    StartSettled(s, c);
    hide Start, ClientInv, ServerSide, Settled, Legal, InTime, Perform, EventsBefore, LastId, ArrivesAs;
    if Legal(s, moves, c, threshold) && InTime(s, moves, c, threshold) {
      RunSettled(s, moves, c, threshold);
      var s' := Perform(s, moves, c, threshold);
      SettledMatch(s');
      InvLoop(s', c);
      if Routes(s', c, to) {
        InvClient(s', c);
        EventIndex(s', s'.delivered);
        ArrivesUnderLastId(s', c, now, threshold, to);
      }
    }
  }

  lemma SettledMatch<C>(s: State<C>)
    requires Settled(s)
    ensures TagsMatch(s.sent, s.offeredIds)
  {
  }

  // ----- Without a change of the id, what was queued before decides

  ghost predicate OnlyId<C>(moves: seq<Move<C>>, id: u16) {
    forall k :: 0 <= k < |moves| && moves[k].Local? && Client.RegistersSelf(moves[k].source, moves[k].destination) ==>
      moves[k].destination.id == id
  }

  /** `id` is the own id, and also what the round has seen. */
  ghost predicate Under<C>(s: State<C>, id: u16) {
    s.client.instanceId == id && (!s.client.round.SelfNext? ==> s.selfSeen == id)
  }

  lemma ServedUnder<C>(s: State<C>, id: u16)
    requires ClientInv(s) && Under(s, id)
    ensures var s1 := Served(s);
            && Under(s1, id) && s.sent <= s1.sent && |s1.sent| <= |s.sent| + 1
            && (|s1.sent| > |s.sent| && s1.sent[|s.sent|].CombatEvent? ==> LastId(s.sent) == id)
  {
    PartFits(s.client);
    ReconcileNames(s.client.registeredPeers, s.client.peers);
    hide Reconcile, NamesOk, EventsOf, LastId;
  }

  lemma StepUnder<C>(s: State<C>, m: Move<C>, c: C, threshold: nat, id: u16)
    requires ClientInv(s) && F.LoopInv(s.loop) && Allowed(s, m, c) && Under(s, id) && OnlyId([m], id)
    ensures var s1 := Do(s, m, c, threshold);
            && Under(s1, id) && s.sent <= s1.sent && |s1.sent| <= |s.sent| + 1
            && (|s1.sent| > |s.sent| && s1.sent[|s.sent|].CombatEvent? ==> LastId(s.sent) == id)
  {
    assert [m][0] == m;
    hide F.Do, F.Enabled, F.LoopInv, LastId;
    if m.Serve? {
      ServedUnder(s, id);
    }
    hide Served, ClientInv;
  }

  lemma {:induction false} UnderOneId<C>(s: State<C>, moves: seq<Move<C>>, c: C, threshold: nat, id: u16)
    requires Inv(s, c) && Legal(s, moves, c, threshold) && Under(s, id) && OnlyId(moves, id)
    ensures var s' := Perform(s, moves, c, threshold);
            && Under(s', id) && s.sent <= s'.sent
            && forall j :: |s.sent| <= j < |s'.sent| && s'.sent[j].CombatEvent? ==> LastId(s'.sent[..j]) == id
    decreases |moves|
  {
    hide Under, Do, Allowed, ClientInv, ServerSide, LastId;
    if moves != [] {
      InvLoop(s, c);
      InvClient(s, c);
      StepInv(s, moves[0], c, threshold);
      StepUnder(s, moves[0], c, threshold, id);
      var s1 := Do(s, moves[0], c, threshold);
      UnderOneId(s1, moves[1..], c, threshold, id);
      var sent := Perform(s1, moves[1..], c, threshold).sent;
      assert sent[..|s.sent|] == s.sent;
    }
  }

  /** While the own id stays as it is from a state between two rounds on, an event written arrives under the id under which it was
      queued if and only if that is the present one: whatever was queued before a change arrives under a wrong id. */
  lemma QueuedBeforeChange<C>(s: State<C>, moves: seq<Move<C>>, c: C, threshold: nat, j: nat)
    requires Inv(s, c) && Legal(s, moves, c, threshold) && s.client.round.SelfNext? && OnlyId(moves, s.client.instanceId)
    requires |s.sent| <= j < |Perform(s, moves, c, threshold).sent| && Perform(s, moves, c, threshold).sent[j].CombatEvent?
    ensures var s' := Perform(s, moves, c, threshold);
            var k := EventsBefore(s'.sent, j);
            && k < |s'.offeredIds| == |s'.offered| && s'.offered[k] == s'.sent[j].event
            && (LastId(s'.sent[..j]) == s'.offeredIds[k] <==> s'.offeredIds[k] == s.client.instanceId)
  {
    var s' := Perform(s, moves, c, threshold);
    UnderOneId(s, moves, c, threshold, s.client.instanceId);
    InvClient(s', c);
    hide Inv, Legal, Perform, OnlyId, ClientInv, EventsBefore, LastId;
    EventIndex(s', j);
  }

  // ----- Two runs in which it goes wrong

  const ME := [0x61]
  const OTHER := [0x62]

  function Source(): Client.Ag { Client.Ag(7, 1, 0, 0, None) }

  function Joining(): Client.Ag { Client.Ag(3, 0, 0, 0, Some(OTHER)) }

  function Self(id: u16): Client.Ag { Client.Ag(id, 0, 0, 1, Some(ME)) }

  function Joined(): PeerMap { map[7 := PeerInfo(3, OTHER)] }

  /** The client after some moves, told apart by what differs. */
  function ClientAt(id: u16, peers: PeerMap, queued: seq<CbtEvent>, pending: bool, registeredId: u16, round: Client.Round): Client.State {
    Client.State(id, ME, peers, queued, pending, registeredId, map[], round)
  }

  /** The own id changes to 2 and a peer joins behind the checks of a round, and then the event comes. */
  function RaceMove<C>(k: nat, event: CbtEvent): Move<C> {
    match k
    case 0 => WriteReturned
    case 2 => WriteReturned
    case 5 => Area(Source(), Joining())
    case 6 => Local(Source(), Self(2))
    case 7 => Queue(event)
    case _ => Serve
  }

  function RaceState<C>(k: nat, event: CbtEvent, l: F.Loop<C>): State<C> {
    var sent := if k < 2 then [] else [RegisterSelf(1, ME)] + if k < 9 then [] else [CombatEvent(event, 0)];
    var pending := k in {0, 2, 9};
    var round := if k == 4 then Client.PeersNext else if 5 <= k < 9 then Client.QueueNext else Client.SelfNext;
    var queued := if k == 8 then [event] else [];
    State(ClientAt(if k < 7 then 1 else 2, if k < 6 then map[] else Joined(), queued, pending, if k < 2 then 0 else 1, round),
          if pending then 1 else 0, sent, 0, if k < 8 then [] else [event], if k < 8 then [] else [2], if k < 2 then 0 else 1, map[], l)
  }

  /** The event comes, the own id changes to 2, and the next round tells the id first. */
  function LateMove<C>(k: nat, event: CbtEvent): Move<C> {
    match k
    case 0 => WriteReturned
    case 2 => WriteReturned
    case 3 => Queue(event)
    case 4 => Local(Source(), Self(2))
    case 6 => WriteReturned
    case _ => Serve
  }

  function LateState<C>(k: nat, event: CbtEvent, l: F.Loop<C>): State<C> {
    var sent := (if k < 2 then [] else [RegisterSelf(1, ME)]) + (if k < 6 then [] else [SetSelfId(2)])
                + (if k < 10 then [] else [CombatEvent(event, 0)]);
    var pending := k in {0, 2, 6, 10};
    var round := if k == 8 then Client.PeersNext else if k == 9 then Client.QueueNext else Client.SelfNext;
    var registeredId := if k < 2 then 0 else if k < 6 then 1 else 2;
    State(ClientAt(if k < 5 then 1 else 2, map[], if 4 <= k < 10 then [event] else [], pending, registeredId, round),
          if pending then 1 else 0, sent, 0, if k < 4 then [] else [event], if k < 4 then [] else [1], registeredId, map[], l)
  }

  function Beginning<C>(l: F.Loop<C>): State<C> {
    State(ClientAt(1, map[], [], true, 0, Client.SelfNext), 1, [], 0, [], [], 0, map[], l)
  }

  lemma BeginningStarts<C>(l: F.Loop<C>, c: C)
    requires F.LoopInv(l) && c in l.server.conns && l.server.conns[c] == Registry.NEW_CONN
    ensures Start(Beginning(l), c) && Inv(Beginning(l), c)
  {
    hide F.LoopInv, Registry.NEW_CONN, ClientInv, ServerSide;
    StartInv(Beginning(l), c);
  }

  lemma NothingToTell()
    ensures Reconcile(map[], map[]) == (map[], None)
  {
    EachCallCounts(map[], map[]);
  }

  lemma RaceStep<C>(k: nat, event: CbtEvent, l: F.Loop<C>, c: C, threshold: nat)
    requires k < 9 && F.LoopInv(l)
    ensures Allowed(RaceState(k, event, l), RaceMove(k, event), c)
    ensures Do(RaceState(k, event, l), RaceMove(k, event), c, threshold) == RaceState(k + 1, event, l)
  {
    hide F.Do, F.Enabled, F.LoopInv, Reconcile;
    NothingToTell();
  }

  lemma LateStep<C>(k: nat, event: CbtEvent, l: F.Loop<C>, c: C, threshold: nat)
    requires k < 10 && F.LoopInv(l)
    ensures Allowed(LateState(k, event, l), LateMove(k, event), c)
    ensures Do(LateState(k, event, l), LateMove(k, event), c, threshold) == LateState(k + 1, event, l)
  {
    hide F.Do, F.Enabled, F.LoopInv, Reconcile;
    NothingToTell();
  }

  function RaceMoves<C>(k: nat, event: CbtEvent): seq<Move<C>>
    decreases 9 - k
  {
    if k >= 9 then [] else [RaceMove(k, event)] + RaceMoves(k + 1, event)
  }

  function LateMoves<C>(k: nat, event: CbtEvent): seq<Move<C>>
    decreases 10 - k
  {
    if k >= 10 then [] else [LateMove(k, event)] + LateMoves(k + 1, event)
  }

  lemma Prepended<C>(s: State<C>, m: Move<C>, rest: seq<Move<C>>, c: C, threshold: nat)
    requires Inv(s, c) && Allowed(s, m, c)
    ensures Inv(Do(s, m, c, threshold), c)
    ensures Legal(Do(s, m, c, threshold), rest, c, threshold) ==>
              && Legal(s, [m] + rest, c, threshold)
              && Perform(s, [m] + rest, c, threshold) == Perform(Do(s, m, c, threshold), rest, c, threshold)
  {
    StepInv(s, m, c, threshold);
    assert ([m] + rest)[1..] == rest;
    hide ClientInv, ServerSide, Do, Allowed;
  }

  lemma {:induction false} RaceRun<C>(k: nat, event: CbtEvent, l: F.Loop<C>, c: C, threshold: nat)
    requires k <= 9 && F.LoopInv(l) && Inv(RaceState(k, event, l), c)
    ensures var s, moves := RaceState(k, event, l), RaceMoves(k, event);
            Legal(s, moves, c, threshold) && Perform(s, moves, c, threshold) == RaceState(9, event, l)
    decreases 9 - k
  {
    hide Inv, Do, Allowed, RaceState, RaceMove, F.LoopInv;
    if k < 9 {
      RaceStep(k, event, l, c, threshold);
      Prepended(RaceState(k, event, l), RaceMove(k, event), RaceMoves(k + 1, event), c, threshold);
      RaceRun(k + 1, event, l, c, threshold);
    }
  }

  lemma {:induction false} LateRun<C>(k: nat, event: CbtEvent, l: F.Loop<C>, c: C, threshold: nat)
    requires k <= 10 && F.LoopInv(l) && Inv(LateState(k, event, l), c)
    ensures var s, moves := LateState(k, event, l), LateMoves(k, event);
            Legal(s, moves, c, threshold) && Perform(s, moves, c, threshold) == LateState(10, event, l)
    decreases 10 - k
  {
    hide Inv, Do, Allowed, LateState, LateMove, F.LoopInv;
    if k < 10 {
      LateStep(k, event, l, c, threshold);
      Prepended(LateState(k, event, l), LateMove(k, event), LateMoves(k + 1, event), c, threshold);
      LateRun(k + 1, event, l, c, threshold);
    }
  }

  /** Whatever else the server does, there is a run in which an event is written while the server knows neither the own id nor the peer
      that the client knew before the event came. */
  lemma EventOvertakesId<C>(event: CbtEvent, l: F.Loop<C>, c: C, threshold: nat)
    requires F.LoopInv(l) && c in l.server.conns && l.server.conns[c] == Registry.NEW_CONN
    ensures var s, moves := RaceState(0, event, l), RaceMoves(0, event);
            Start(s, c) && Inv(s, c) && Legal(s, moves, c, threshold)
            && var s' := Perform(s, moves, c, threshold);
            && s'.sent == [RegisterSelf(1, ME), CombatEvent(event, 0)] && LastId(s'.sent[..1]) == 1 && Applied(s'.sent[..1]) == map[]
            && s'.client.instanceId == 2 && s'.offeredIds == [2] && s'.client.peers == Joined()
  {
    hide *;
    RaceEnds(event, l);
    BeginningStarts(l, c);
    RaceRun(0, event, l, c, threshold);
    OneRegistration(event);
  }

  lemma RaceEnds<C>(event: CbtEvent, l: F.Loop<C>)
    ensures RaceState(0, event, l) == Beginning(l)
    ensures var s' := RaceState(9, event, l);
            && s'.sent == [RegisterSelf(1, ME), CombatEvent(event, 0)]
            && s'.client.instanceId == 2 && s'.offeredIds == [2] && s'.client.peers == Joined()
  {
  }

  lemma OneRegistration(event: CbtEvent)
    ensures var sent := [RegisterSelf(1, ME), CombatEvent(event, 0)]; LastId(sent[..1]) == 1 && Applied(sent[..1]) == map[]
  {
    var sent := [RegisterSelf(1, ME), CombatEvent(event, 0)];
    Appended([], sent[0]);
    assert sent[..1] == [] + [sent[0]];
  }

  /** And one in which an event that came under the id 1 arrives under the id 2. */
  lemma IdOvertakesEvent<C>(event: CbtEvent, l: F.Loop<C>, c: C, threshold: nat)
    requires F.LoopInv(l) && c in l.server.conns && l.server.conns[c] == Registry.NEW_CONN
    ensures var s, moves := LateState(0, event, l), LateMoves(0, event);
            Start(s, c) && Inv(s, c) && Legal(s, moves, c, threshold)
            && var s' := Perform(s, moves, c, threshold);
            && s'.sent == [RegisterSelf(1, ME), SetSelfId(2), CombatEvent(event, 0)] && LastId(s'.sent[..2]) == 2
            && s'.offered == [event] && s'.offeredIds == [1]
  {
    hide *;
    LateEnds(event, l);
    BeginningStarts(l, c);
    LateRun(0, event, l, c, threshold);
    TwoIds(event);
  }

  lemma LateEnds<C>(event: CbtEvent, l: F.Loop<C>)
    ensures LateState(0, event, l) == Beginning(l)
    ensures var s' := LateState(10, event, l);
            && s'.sent == [RegisterSelf(1, ME), SetSelfId(2), CombatEvent(event, 0)] && s'.offered == [event] && s'.offeredIds == [1]
  {
  }

  lemma TwoIds(event: CbtEvent)
    ensures LastId([RegisterSelf(1, ME), SetSelfId(2), CombatEvent(event, 0)][..2]) == 2
  {
    Appended([RegisterSelf(1, ME)], SetSelfId(2));
    assert [RegisterSelf(1, ME), SetSelfId(2), CombatEvent(event, 0)][..2] == [RegisterSelf(1, ME)] + [SetSelfId(2)];
  }
}
