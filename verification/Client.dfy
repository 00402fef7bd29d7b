/** The client's state around one connection, and what its event handlers and the writing part of its `Serve` loop do
    with it (networking/Client.cpp). */
module Client {
  import opened CombatEvents
  import opened Order
  import opened Wire
  import opened Peers

  /** The fields of an agent that the handlers read; `name` is the account name of a destination agent. */
  datatype Ag = Ag(id: u64, prof: u32, elite: u32, self: u32, name: Option<seq<u8>>)

  /** What the thread of `Serve` looks at next.  Each of the three is under a lock of its own, and in between the callbacks run. */
  datatype Round = SelfNext | PeersNext | QueueNext

  datatype State = State(instanceId: u16, accountName: seq<u8>, peers: PeerMap, queued: seq<CbtEvent>,
                         writePending: bool, registeredId: u16, registeredPeers: PeerMap, round: Round)

  const QUEUE_LIMIT := 5000

  /** What the handlers assert of a player: an id of 16 bits, and a name whose length fits a byte. */
  predicate PlayerOk(agent: Ag) {
    agent.id < 0x1_0000 && agent.name.Some? && 0 < |agent.name.value| < 255
  }

  predicate RegistersPeer(source: Ag, destination: Ag) {
    && source.elite == 0 && source.prof != 0
    && destination.self == 0 && destination.name.Some? && destination.name.value != []
  }

  predicate RegistersSelf(source: Ag, destination: Ag) {
    source.elite == 0 && source.prof != 0 && destination.self != 0
  }

  /** The agent part of `ProcessLocalEvent`. */
  function LocalEvent(s: State, source: Ag, destination: Ag): State
    requires RegistersSelf(source, destination) ==> PlayerOk(destination) && destination.id > 0
  {
    if RegistersSelf(source, destination) then s.(accountName := destination.name.value, instanceId := destination.id) else s
  }

  /** The agent part of `ProcessAreaEvent`: a peer that is known already stays as it is. */
  function AreaEvent(s: State, source: Ag, destination: Ag): State
    requires RegistersPeer(source, destination) ==> PlayerOk(destination)
  {
    if source.elite != 0 then s
    else if source.prof == 0 then s.(peers := s.peers - {source.id})
    else if RegistersPeer(source, destination) && source.id !in s.peers then
      s.(peers := s.peers[source.id := PeerInfo(destination.id, destination.name.value)])
    else s
  }

  /** `QueueEvent` of a combat event. */
  function Queued(s: State, event: CbtEvent): State {
    if |s.queued| > QUEUE_LIMIT then s else s.(queued := s.queued + [event])
  }

  /** The tag of a write came back. */
  function WriteReturned(s: State): State {
    s.(writePending := false)
  }

  // ----- The three parts of a round of `Serve`

  function Registration(s: State): ClientMsg {
    if s.registeredId == 0 then RegisterSelf(s.instanceId, s.accountName) else SetSelfId(s.instanceId)
  }

  /** The own id, under the lock of the own information. */
  ghost function SelfChecked(s: State): (State, Option<ClientMsg>)
    requires s.round.SelfNext?
  {
    if s.writePending then (s, None)
    else if s.registeredId != s.instanceId then (s.(registeredId := s.instanceId, writePending := true), Some(Registration(s)))
    else if s.registeredId == 0 then (s, None)
    else (s.(round := PeersNext), None)
  }

  /** The peers, under their lock. */
  ghost function PeersChecked(s: State): (State, Option<ClientMsg>)
    requires s.round.PeersNext?
  {
    var (registered, msg) := Reconcile(s.registeredPeers, s.peers);
    if msg.Some? then (s.(registeredPeers := registered, writePending := true, round := SelfNext), msg)
    else (s.(round := QueueNext), None)
  }

  /** The queue, under its lock. */
  ghost function EventPopped(s: State): (State, Option<ClientMsg>)
    requires s.round.QueueNext?
  {
    if s.queued == [] then (s.(round := SelfNext), None)
    else (s.(queued := s.queued[1..], writePending := true, round := SelfNext), Some(CombatEvent(s.queued[0], 0)))
  }

  /** Whichever part is next. */
  ghost function ServePart(s: State): (State, Option<ClientMsg>) {
    match s.round
    case SelfNext => SelfChecked(s)
    case PeersNext => PeersChecked(s)
    case QueueNext => EventPopped(s)
  }

  /** A round in which no callback comes between the parts: the own registration first, then peers, then events, and nothing while a
      write is outstanding. */
  ghost function ServeWrite(s: State): (State, Option<ClientMsg>) {
    if s.writePending then (s, None)
    else if s.registeredId != s.instanceId then (s.(registeredId := s.instanceId, writePending := true), Some(Registration(s)))
    else if s.registeredId == 0 then (s, None)
    else
      var (registered, msg) := Reconcile(s.registeredPeers, s.peers);
      if msg.Some? then (s.(registeredPeers := registered, writePending := true), msg)
      else if s.queued != [] then (s.(queued := s.queued[1..], writePending := true), Some(CombatEvent(s.queued[0], 0)))
      else (s, None)
  }

  // ----- How long it takes

  /** What is left to say: the own id, the peers, the events. */
  ghost function Unsaid(s: State): nat {
    if s.instanceId == 0 then 0
    else (if s.registeredId != s.instanceId then 1 else 0) + Work(s.registeredPeers, s.peers) + |s.queued|
  }

  /** `n` rounds in which no callback comes, each after the last write has returned. */
  ghost function Rounds(s: State, n: nat): (State, seq<ClientMsg>) {
    if n == 0 then (s, [])
    else
      var (before, msgs) := Rounds(s, n - 1);
      var (after, msg) := ServeWrite(WriteReturned(before));
      (after, if msg.Some? then msgs + [msg.value] else msgs)
  }

  lemma OneRound(s: State)
    requires s.registeredId != 0 ==> s.instanceId != 0
    ensures var (s', msg) := ServeWrite(WriteReturned(s));
            && (msg.Some? <==> Unsaid(s) > 0) && Unsaid(s') == Unsaid(s) - (if msg.Some? then 1 else 0)
            && s' == s.(registeredId := s'.registeredId, registeredPeers := s'.registeredPeers, queued := s'.queued, writePending := msg.Some?)
            && (s'.registeredId != 0 ==> s'.instanceId != 0)
  {
    EachCallCounts(s.registeredPeers, s.peers);
    hide Reconcile, Work;
  }

  /** Left alone, the client says exactly what is left, one message a round, and then it is registered with its id, its registered peers
      are the known ones and its queue is empty. */
  lemma {:induction false} CatchesUp(s: State, n: nat)
    requires s.registeredId != 0 ==> s.instanceId != 0
    ensures var (after, msgs) := Rounds(s, n);
            && |msgs| == (if n <= Unsaid(s) then n else Unsaid(s)) && Unsaid(after) == Unsaid(s) - |msgs|
            && (after.registeredId != 0 ==> after.instanceId != 0) && after.instanceId == s.instanceId && after.peers == s.peers
            && (n >= Unsaid(s) && s.instanceId != 0 ==> after.registeredId == s.instanceId && after.registeredPeers == s.peers && after.queued == [])
  {
    hide ServeWrite, Unsaid;
    if n > 0 {
      CatchesUp(s, n - 1);
      OneRound(Rounds(s, n - 1).0);
    }
    if n >= Unsaid(s) && s.instanceId != 0 {
      AllSaid(Rounds(s, n).0);
    }
  }

  lemma AllSaid(s: State)
    requires Unsaid(s) == 0 && s.instanceId != 0
    ensures s.registeredId == s.instanceId && s.registeredPeers == s.peers && s.queued == []
  {
    EachCallCounts(s.registeredPeers, s.peers);
    hide Reconcile, Work;
  }

  class EvtcRpcClient {
    var instanceId: u16
    var accountName: seq<u8>
    var peers: PeerMap
    var queued: seq<CbtEvent>
    var writePending: bool
    var registeredId: u16
    var registeredPeers: PeerMap
    ghost var round: Round

    ghost function View(): State
      reads this
    {
      State(instanceId, accountName, peers, queued, writePending, registeredId, registeredPeers, round)
    }

    method ProcessLocalEvent(source: Ag, destination: Ag)
      requires RegistersSelf(source, destination) ==> PlayerOk(destination) && destination.id > 0
      modifies this
      ensures View() == LocalEvent(old(View()), source, destination)
    {
      if source.elite != 0 {
        return;
      }
      if source.prof != 0 {
        if destination.self != 0 {
          accountName := destination.name.value;
          instanceId := destination.id;
        }
      }
    }

    method ProcessAreaEvent(source: Ag, destination: Ag)
      requires RegistersPeer(source, destination) ==> PlayerOk(destination)
      modifies this
      ensures View() == AreaEvent(old(View()), source, destination)
    {
      if source.elite != 0 {
        return;
      }
      if source.prof != 0 {
        if destination.self == 0 && destination.name.Some? && |destination.name.value| > 0 {
          if source.id !in peers {
            peers := peers[source.id := PeerInfo(destination.id, destination.name.value)];
          }
        }
      } else {
        peers := peers - {source.id};
      }
    }

    method QueueEvent(event: CbtEvent) returns (queues: bool)
      modifies `queued
      ensures View() == Queued(old(View()), event)
      ensures queues <==> old(|queued|) <= 5000
      ensures queued == if queues then old(queued) + [event] else old(queued)
    {
      if |queued| > QUEUE_LIMIT {
        return false;
      }
      queued := queued + [event];
      return true;
    }

    /** The first loop deregisters, the second registers; the asserts are those of the source. */
    method TryGetPeerEvent() returns (msg: Option<ClientMsg>)
      modifies `registeredPeers
      ensures (registeredPeers, msg) == Reconcile(old(registeredPeers), peers)
    {
      IdOrder();
      var todo := registeredPeers.Keys;
      while todo != {}
        invariant todo <= registeredPeers.Keys && registeredPeers == old(registeredPeers)
        invariant Stale(registeredPeers, peers) <= todo
        decreases |todo|
      {
        var uid := FirstId(todo);
        var info := registeredPeers[uid];
        if uid !in peers || info.instanceId != peers[uid].instanceId || info.accountName != peers[uid].accountName {
          LeastUnique(IdLeq, Stale(registeredPeers, peers), uid, LeastId(Stale(registeredPeers, peers)));
          registeredPeers := registeredPeers - {uid};
          return Some(RemovePeer(info.instanceId));
        }
        todo := todo - {uid};
      }
      todo := peers.Keys;
      while todo != {}
        invariant todo <= peers.Keys && registeredPeers == old(registeredPeers)
        invariant Unregistered(registeredPeers, peers) <= todo
        decreases |todo|
      {
        var uid := FirstId(todo);
        if uid in registeredPeers {
          assert uid !in Stale(registeredPeers, peers);
          assert registeredPeers[uid].instanceId == peers[uid].instanceId;
          assert registeredPeers[uid].accountName == peers[uid].accountName;
        } else {
          LeastUnique(IdLeq, Unregistered(registeredPeers, peers), uid, LeastId(Unregistered(registeredPeers, peers)));
          registeredPeers := registeredPeers[uid := peers[uid]];
          return Some(AddPeer(peers[uid].instanceId, peers[uid].accountName));
        }
        todo := todo - {uid};
      }
      return None;
    }

    /** The registration part of `SendEvent`, which decides between the two messages. */
    method SendRegistration() returns (msg: ClientMsg)
      requires registeredId != instanceId
      modifies `registeredId
      ensures registeredId == instanceId && msg == Registration(old(View()))
    {
      if registeredId == 0 {
        msg := RegisterSelf(instanceId, accountName);
      } else {
        msg := SetSelfId(instanceId);
      }
      registeredId := instanceId;
    }

    method CheckSelf() returns (sent: Option<ClientMsg>)
      requires round.SelfNext? && !writePending
      modifies `registeredId, `writePending, `round
      ensures (View(), sent) == SelfChecked(old(View()))
    {
      sent := None;
      if registeredId != instanceId {
        var msg := SendRegistration();
        sent, writePending := Some(msg), true;
      } else {
        round := if registeredId != 0 then PeersNext else SelfNext;
      }
    }

    method CheckPeers() returns (sent: Option<ClientMsg>)
      requires round.PeersNext?
      modifies `registeredPeers, `writePending, `round
      ensures (View(), sent) == PeersChecked(old(View()))
    {
      hide Reconcile;
      sent := TryGetPeerEvent();
      if sent.Some? {
        writePending := true;
      } else {
        NothingChanged(old(registeredPeers), peers);
      }
      round := if sent.Some? then SelfNext else QueueNext;
    }

    method PopEvent() returns (sent: Option<ClientMsg>)
      requires round.QueueNext?
      modifies `queued, `writePending, `round
      ensures (View(), sent) == EventPopped(old(View()))
    {
      sent := None;
      if |queued| > 0 {
        sent, writePending := Some(CombatEvent(queued[0], 0)), true;
        queued := queued[1..];
      }
      round := SelfNext;
    }

    /** The three parts in a row. */
    method ServeOnce() returns (sent: Option<ClientMsg>)
      requires round.SelfNext?
      modifies this
      ensures (View(), sent) == ServeWrite(old(View()))
    {
      hide Reconcile;
      if writePending {
        return None;
      }
      sent := CheckSelf();
      if sent == None && registeredId != 0 {
        sent := CheckPeers();
      }
      if sent == None && registeredId != 0 {
        NothingChanged(old(registeredPeers), peers);
        sent := PopEvent();
      }
    }

    lemma NothingChanged(registered: PeerMap, peers: PeerMap)
      requires Reconcile(registered, peers).1 == None
      ensures Reconcile(registered, peers).0 == registered
    {
    }
  }
}
