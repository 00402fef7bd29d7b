/** The same combat events drive the player's own state and, after forwarding, a copy at every peer.  This module
    relates the two over whole runs: sender, bounded queue, stream and one receiver, with the receiver's other
    activity interleaved (src/EventProcessor.cpp, networking/Client.cpp, src/dllmain.cpp:433-450). */
module Replication {
  import opened Bytes
  import opened CombatEvents
  import opened PlayerStatistics
  import opened EventProcessing

  /** A local combat callback of the sender, and its own instance id at that time. */
  datatype LocalEvent = LocalEvent(ev: CbtEvent, src: Agent, dst: Agent, instId: u16)

  /** How the sender was configured while it sent: never in budget mode, always, or changing. */
  datatype Mode = Full | Budget | Mixed

  /** The sender's unique id at the receiver. */
  datatype Setup = Setup(uniqueId: u64, mode: Mode)

  const QUEUE_LIMIT := 5000

  /** `ProcessLocalEvent` of the client: what budget mode still sends. */
  predicate Sends(ev: CbtEvent, budget: bool) {
    !budget || GetEventType(ev, true) == Healing || ev.isStatechange == CBTS_ENTERCOMBAT || ev.isStatechange == CBTS_EXITCOMBAT
  }

  predicate ModeAllows(mode: Mode, budget: bool) {
    (mode == Full ==> !budget) && (mode == Budget ==> budget)
  }

  predicate IsOwnHeal(e: LocalEvent) {
    var ev := PreProcess(e.ev, true);
    ev.isStatechange != CBTS_ENTERCOMBAT && ev.isStatechange != CBTS_EXITCOMBAT && GetEventType(ev, true) == Healing
    && (e.src.self != 0 || ev.srcMasterInstId == e.instId)
  }

  /** What is assumed of a callback: the self flags agree with the instance ids. */
  predicate Faithful(e: LocalEvent) {
    && (e.src.self != 0 <==> e.ev.srcInstId == e.instId)
    && (e.dst.self != 0 <==> e.ev.dstInstId == e.instId)
  }

  /** The patched event `ev` is about the player with the instance id `id`: what both sides ask before they record it. */
  predicate Concerns(ev: CbtEvent, id: u16) {
    if ev.isStatechange == CBTS_ENTERCOMBAT || ev.isStatechange == CBTS_EXITCOMBAT then ev.srcInstId == id
    else
      match GetEventType(ev, true)
      case Other => false
      case Healing => ev.srcInstId == id || ev.srcMasterInstId == id
      case _ => ev.srcInstId == id || ev.dstInstId == id
  }

  /** The server tags an event with the sender's id as of its arrival.  Under that id it has to be about the sender exactly if it was
      when it happened. */
  predicate Suits(e: LocalEvent, tag: u16) {
    Concerns(PreProcess(e.ev, true), tag) <==> Concerns(PreProcess(e.ev, true), e.instId)
  }

  /** What is assumed of the receiver's agent table when it looks the sender up, by the id that the event is tagged with. */
  predicate FindsSender(setup: Setup, tag: u16, table: AgentTable) {
    table.GetUniqueId(tag, false) == Some(setup.uniqueId)
  }

  /** What is assumed of the table when the event is applied: the target of the sender's own heals is the agent that the sender saw. */
  predicate FindsTarget(e: LocalEvent, table: AgentTable) {
    IsOwnHeal(e) ==> table.GetUniqueId(e.ev.dstInstId, true) == Some(e.dst.id)
  }

  /** A forwarded event under way, with the sender's state when it was sent. */
  datatype Packet = Packet(cause: LocalEvent, before: Stats) {
    function Event(): CbtEvent {
      Forwarded(before, cause.ev, cause.src)
    }
    function After(): Stats {
      LocalStats(before, cause.instId, cause.ev, cause.src, cause.dst)
    }
    /** What it makes of the copy `r` when it arrives under the id `tag`. */
    function At(r: Stats, table: AgentTable, tag: u16): Stats {
      PeerStats(r, table, Event(), tag)
    }
  }

  /** `self` is the sender's own state, `pending` its queue, `wire` what was written but not received, `inFlight` the event
      between the two halves of the receiver's `PeerCombat` and `tag` the id it came with, `peers` the receiver's copies; the
      history variables are `shadow`, the sender's state just after the last event that the receiver has applied, and
      `lost`, whether the queue ever dropped an event. */
  datatype World = World(self: Stats, pending: seq<Packet>, wire: seq<Packet>, inFlight: Option<Packet>, tag: u16,
                         peers: map<u64, Stats>, shadow: Stats, lost: bool)
  {
    function Underway(): seq<Packet> {
      (if inFlight.Some? then [inFlight.value] else []) + wire + pending
    }
    function Copy(setup: Setup): Stats {
      if setup.uniqueId in peers then peers[setup.uniqueId] else NO_STATS
    }
  }

  const START := World(NO_STATS, [], [], None, 0, map[], NO_STATS, false)

  datatype Action =
    | Local(event: LocalEvent, budget: bool)           // a local callback at the sender
    | Transmit                                         // the client writes the head of its queue
    | BeginPeerCombat(tag: u16, table: AgentTable)     // the receiver looks the peer up in the table it has then
    | EndPeerCombat(table: AgentTable)                 // and applies the event to the state it found, with a later table
    | OtherPeer(ev: CbtEvent, instId: u16, table: AgentTable)   // an event of another peer
    | SelfEntersCombat(referenced: set<u64>)           // the receiver itself enters combat and resets its peers

  predicate Enabled(setup: Setup, w: World, a: Action) {
    match a
    case Local(event, budget) => Faithful(event) && ModeAllows(setup.mode, budget)
    case Transmit => w.pending != []
    case BeginPeerCombat(tag, table) => w.inFlight == None && w.wire != [] && Suits(w.wire[0].cause, tag) && FindsSender(setup, tag, table)
    case EndPeerCombat(table) => w.inFlight.Some? && FindsTarget(w.inFlight.value.cause, table)
    case OtherPeer(ev, instId, table) => w.inFlight == None && table.GetUniqueId(instId, false) != Some(setup.uniqueId)
    case SelfEntersCombat(_) => true
  }

  function Do(setup: Setup, w: World, a: Action): World
    requires Enabled(setup, w, a)
  {
    match a
    case Local(event, budget) =>
      var packet := Packet(event, w.self);
      var w' := w.(self := packet.After());
      if !Sends(packet.Event(), budget) then w'
      else if |w.pending| > QUEUE_LIMIT then w'.(lost := true)
      else w'.(pending := w.pending + [packet])
    case Transmit => w.(wire := w.wire + [w.pending[0]], pending := w.pending[1..])
    case BeginPeerCombat(tag, _) =>
      w.(inFlight := Some(w.wire[0]), tag := tag, wire := w.wire[1..], peers := Lookup(w.peers, setup.uniqueId))
    case EndPeerCombat(table) =>
      var packet := w.inFlight.value;
      var w' := w.(inFlight := None, shadow := packet.After());
      if setup.uniqueId !in w.peers then w'   // the state that was looked up is no longer in the map
      else w'.(peers := w.peers[setup.uniqueId := packet.At(w.peers[setup.uniqueId], table, w.tag)])
    case OtherPeer(ev, instId, table) => w.(peers := PeerCombatSpec(w.peers, table, ev, instId))
    case SelfEntersCombat(referenced) =>
      w.(peers := ResetPeersSpec(w.peers, referenced + if w.inFlight.Some? then {setup.uniqueId} else {}))
  }

  predicate Legal(setup: Setup, w: World, actions: seq<Action>)
    decreases |actions|
  {
    actions == [] || (Enabled(setup, w, actions[0]) && Legal(setup, Do(setup, w, actions[0]), actions[1..]))
  }

  function Perform(setup: Setup, w: World, actions: seq<Action>): World
    requires Legal(setup, w, actions)
    decreases |actions|
  {
    if actions == [] then w else Perform(setup, Do(setup, w, actions[0]), actions[1..])
  }

  // ----- The simulation relation

  predicate IsReset(r: Stats) {
    r.enteredCombatTime == 0 && r.exitedCombatTime == 0 && r.lastDamageEvent == 0 && r.events == []
  }

  /** The copy equals the original, up to the damage time while in combat. */
  predicate Mirrors(mode: Mode, s: Stats, r: Stats) {
    && r == s.(lastDamageEvent := r.lastDamageEvent)
    && (s.IsOutOfCombat() || mode == Full ==> r == s)
    && (!s.IsOutOfCombat() && mode == Budget ==> r.lastDamageEvent == 0)
    && r.lastDamageEvent <= s.lastDamageEvent
  }

  /** Either the copy mirrors the original, or both are out of combat and the copy was reset. */
  predicate Agree(mode: Mode, s: Stats, r: Stats) {
    Mirrors(mode, s, r) || (s.IsOutOfCombat() && IsReset(r))
  }

  /** `t` is `s` after events that were not forwarded. */
  predicate Drifts(mode: Mode, s: Stats, t: Stats) {
    && t == s.(lastDamageEvent := t.lastDamageEvent)
    && s.lastDamageEvent <= t.lastDamageEvent
    && (s.IsOutOfCombat() || mode == Full ==> t == s)
  }

  ghost predicate PacketOk(setup: Setup, p: Packet) {
    Faithful(p.cause) && exists budget :: ModeAllows(setup.mode, budget) && Sends(p.Event(), budget)
  }

  /** The packets lead from `s` to `t`. */
  ghost predicate Chain(setup: Setup, s: Stats, packets: seq<Packet>, t: Stats)
    decreases |packets|
  {
    if packets == [] then Drifts(setup.mode, s, t)
    else Drifts(setup.mode, s, packets[0].before) && PacketOk(setup, packets[0])
         && Chain(setup, packets[0].After(), packets[1..], t)
  }

  ghost predicate Inv(setup: Setup, w: World) {
    && (w.inFlight.Some? ==> setup.uniqueId in w.peers && Suits(w.inFlight.value.cause, w.tag))
    && (!w.lost ==> Chain(setup, w.shadow, w.Underway(), w.self) && Agree(setup.mode, w.shadow, w.Copy(setup)))
  }

  /** For the sender, an event is its own exactly if it is about the id that it had. */
  lemma OwnConcerns(e: LocalEvent)
    requires Faithful(e)
    ensures !Concerns(PreProcess(e.ev, true), e.instId) ==> forall s :: LocalStats(s, e.instId, e.ev, e.src, e.dst) == s
  {
  }

  lemma SameExit(mode: Mode, p: Packet, r: Stats, table: AgentTable, tag: u16)
    requires Agree(mode, p.before, r) && Faithful(p.cause) && Suits(p.cause, tag)
    requires PreProcess(p.cause.ev, true).isStatechange == CBTS_EXITCOMBAT
    ensures Agree(mode, p.After(), p.At(r, table, tag))
  {
    var ev := PreProcess(p.cause.ev, true);
    LastDamageRoundTrip(ev, ExitResult(p.before, ev.time, 0));
    assert PreProcess(p.Event(), true) == p.Event();
  }

  /** One forwarded event, handled by both sides, keeps them in agreement. */
  lemma SameEvent(setup: Setup, p: Packet, r: Stats, table: AgentTable, tag: u16)
    requires Agree(setup.mode, p.before, r) && PacketOk(setup, p) && Suits(p.cause, tag) && FindsTarget(p.cause, table)
    ensures Agree(setup.mode, p.After(), p.At(r, table, tag))
  {
    var ev := PreProcess(p.cause.ev, true);
    if ev.isStatechange == CBTS_EXITCOMBAT {
      SameExit(setup.mode, p, r, table, tag);
    } else {
      PreProcessStable(p.cause.ev, true);
      assert p.Event() == ev && PreProcess(ev, true) == ev;
      hide PreProcess, WriteLastDamage, ReadLastDamage;
    }
  }

  lemma DriftAgrees(mode: Mode, s: Stats, t: Stats, r: Stats)
    requires Agree(mode, s, r) && Drifts(mode, s, t)
    ensures Agree(mode, t, r)
  {
  }

  lemma UnsentDrifts(setup: Setup, s: Stats, e: LocalEvent, budget: bool)
    requires ModeAllows(setup.mode, budget) && !Sends(Packet(e, s).Event(), budget)
    ensures Drifts(setup.mode, s, Packet(e, s).After())
  {
  }

  lemma {:induction false} ChainDrift(setup: Setup, s: Stats, packets: seq<Packet>, t: Stats, u: Stats)
    requires Chain(setup, s, packets, t) && Drifts(setup.mode, t, u)
    ensures Chain(setup, s, packets, u)
    decreases |packets|
  {
    if packets != [] {
      ChainDrift(setup, packets[0].After(), packets[1..], t, u);
    }
  }

  lemma {:induction false} ChainSend(setup: Setup, s: Stats, packets: seq<Packet>, p: Packet)
    requires Chain(setup, s, packets, p.before) && PacketOk(setup, p)
    ensures Chain(setup, s, packets + [p], p.After())
    decreases |packets|
  {
    if packets == [] {
      assert packets + [p] == [p];
      assert Chain(setup, p.After(), [], p.After());
    } else {
      ChainSend(setup, packets[0].After(), packets[1..], p);
      assert (packets + [p])[1..] == packets[1..] + [p];
    }
  }

  lemma StepInv(setup: Setup, w: World, a: Action)
    requires Inv(setup, w) && Enabled(setup, w, a)
    ensures Inv(setup, Do(setup, w, a))
  {
    hide *;
    match a
    case Local(event, budget) => LocalInv(setup, w, event, budget);
    case Transmit => HandedOnInv(setup, w, a);
    case BeginPeerCombat(_, _) => HandedOnInv(setup, w, a);
    case EndPeerCombat(table) => EndInv(setup, w, table);
    case OtherPeer(_, _, _) => OtherInv(setup, w, a);
    case SelfEntersCombat(referenced) => ResetInv(setup, w, referenced);
  }

  lemma HandedOnInv(setup: Setup, w: World, a: Action)
    requires Inv(setup, w) && Enabled(setup, w, a) && (a.Transmit? || a.BeginPeerCombat?)
    ensures Inv(setup, Do(setup, w, a))
  {
    hide Chain, Agree, Suits;
    assert Do(setup, w, a).Underway() == w.Underway();
  }

  lemma OtherInv(setup: Setup, w: World, a: Action)
    requires Inv(setup, w) && Enabled(setup, w, a) && a.OtherPeer?
    ensures Inv(setup, Do(setup, w, a))
  {
    hide Chain, Agree, Suits, PeerStats;
  }

  lemma LocalInv(setup: Setup, w: World, event: LocalEvent, budget: bool)
    requires Inv(setup, w) && Enabled(setup, w, Local(event, budget))
    ensures Inv(setup, Do(setup, w, Local(event, budget)))
  {
    var w' := Do(setup, w, Local(event, budget));
    var packet := Packet(event, w.self);
    if !w'.lost {
      if Sends(packet.Event(), budget) {
        ChainSend(setup, w.shadow, w.Underway(), packet);
        assert w'.Underway() == w.Underway() + [packet];
      } else {
        UnsentDrifts(setup, w.self, event, budget);
        ChainDrift(setup, w.shadow, w.Underway(), w.self, w'.self);
      }
    }
  }

  lemma EndInv(setup: Setup, w: World, table: AgentTable)
    requires Inv(setup, w) && Enabled(setup, w, EndPeerCombat(table))
    ensures Inv(setup, Do(setup, w, EndPeerCombat(table)))
  {
    var w' := Do(setup, w, EndPeerCombat(table));
    var packet := w.inFlight.value;
    if !w'.lost {
      assert w.Underway()[0] == packet && w.Underway()[1..] == w'.Underway();
      DriftAgrees(setup.mode, w.shadow, packet.before, w.Copy(setup));
      SameEvent(setup, packet, w.Copy(setup), table, w.tag);
    }
  }

  lemma ResetInv(setup: Setup, w: World, referenced: set<u64>)
    requires Inv(setup, w)
    ensures Inv(setup, Do(setup, w, SelfEntersCombat(referenced)))
  {
  }

  lemma {:induction false} RunInv(setup: Setup, w: World, actions: seq<Action>)
    requires Inv(setup, w) && Legal(setup, w, actions)
    ensures Inv(setup, Perform(setup, w, actions))
    decreases |actions|
  {
    if actions != [] {
      StepInv(setup, w, actions[0]);
      RunInv(setup, Do(setup, w, actions[0]), actions[1..]);
    }
  }

  lemma StartInv(setup: Setup)
    ensures Inv(setup, START)
  {
    assert Chain(setup, NO_STATS, [], NO_STATS);
    assert START.Underway() == [];
  }

  /** Simulation over whole runs.  As long as the sender's queue dropped nothing, the copy agrees with the
      original as it was after the last event the receiver has applied, and once nothing is under way,
      with the original itself. */
  lemma Simulation(setup: Setup, actions: seq<Action>)
    requires Legal(setup, START, actions) && !Perform(setup, START, actions).lost
    ensures var w := Perform(setup, START, actions);
            && Agree(setup.mode, w.shadow, w.Copy(setup))
            && (w.Underway() == [] ==> Agree(setup.mode, w.self, w.Copy(setup)))
  {
    StartInv(setup);
    RunInv(setup, START, actions);
    var w := Perform(setup, START, actions);
    if w.Underway() == [] {
      DriftAgrees(setup.mode, w.shadow, w.self, w.Copy(setup));
    }
  }

  /** What agreement gives: both are in or both out of combat; in combat they have the same enter time, subgroup and event
      list, and the damage time is equal in full mode and 0 at the copy in budget mode; out of combat they are
      equal in everything, or the copy was reset. */
  lemma AgreementMeans(mode: Mode, s: Stats, r: Stats)
    requires Agree(mode, s, r)
    ensures s.IsOutOfCombat() <==> r.IsOutOfCombat()
    ensures !s.IsOutOfCombat() ==>
              && r.enteredCombatTime == s.enteredCombatTime && r.exitedCombatTime == s.exitedCombatTime
              && r.subGroup == s.subGroup && r.events == s.events
              && (mode == Full ==> r.lastDamageEvent == s.lastDamageEvent)
              && (mode == Budget ==> r.lastDamageEvent == 0)
    ensures s.IsOutOfCombat() ==> r == s || IsReset(r)
  {
  }

  /** No event is applied to a state that has been removed from the map: a reset between the two halves of
      `PeerCombat` sees the second reference and keeps the entry. */
  lemma NoOrphanedUpdate(setup: Setup, actions: seq<Action>)
    requires Legal(setup, START, actions)
    requires Perform(setup, START, actions).inFlight.Some?
    ensures setup.uniqueId in Perform(setup, START, actions).peers
  {
    StartInv(setup);
    RunInv(setup, START, actions);
  }

  /** The assumption on the agent table is exact: for a heal of the sender's own, in combat, the event lists stay equal if and
      only if the receiver resolves the target to the agent that the sender saw. */
  lemma TargetMustResolve(mode: Mode, p: Packet, r: Stats, table: AgentTable, tag: u16)
    requires Mirrors(mode, p.before, r) && !p.before.IsOutOfCombat() && IsOwnHeal(p.cause)
    requires p.cause.src.self != 0 <==> p.cause.ev.srcInstId == p.cause.instId
    requires Suits(p.cause, tag)
    ensures p.At(r, table, tag).events == p.After().events <==> table.GetUniqueId(p.cause.ev.dstInstId, true) == Some(p.cause.dst.id)
  {
    PreProcessStable(p.cause.ev, true);
    var ev := PreProcess(p.cause.ev, true);
    var dst := table.GetUniqueId(ev.dstInstId, true);
    var s := p.before;
    var sent := s.events + [HealEvent(ev.time, HealedAmount(ev), p.cause.dst.id, ev.skillId, ev.isShields != 0, ev.isOffcycle == 1)];
    assert p.After().events == sent;
    var got := p.At(r, table, tag).events;
    if dst.Some? {
      assert got[|s.events|].agentId == dst.value && sent[|s.events|].agentId == p.cause.dst.id;
    }
  }

  // ----- Nothing stays under way for good

  /** A table that resolves one instance id. */
  function Resolving(instId: u16, id: u64): AgentTable {
    AgentTable(map[instId := id], {instId})
  }

  lemma Delivers(setup: Setup, w: World)
    requires w.inFlight.Some? || w.wire != [] || w.pending != []
    ensures exists a :: Enabled(setup, w, a) && Left(Do(setup, w, a)) < Left(w)
  {
    hide LocalStats, PeerStats, Forwarded;
    if w.inFlight.Some? {
      var e := w.inFlight.value.cause;
      var a := EndPeerCombat(Resolving(e.ev.dstInstId, e.dst.id));
      assert Enabled(setup, w, a) && Left(Do(setup, w, a)) < Left(w);
    } else if w.wire != [] {
      var e := w.wire[0].cause;
      var a := BeginPeerCombat(e.instId, Resolving(e.instId, setup.uniqueId));
      assert Enabled(setup, w, a) && Left(Do(setup, w, a)) < Left(w);
    } else {
      assert Enabled(setup, w, Transmit) && Left(Do(setup, w, Transmit)) < Left(w);
    }
  }

  /** How many steps it takes until nothing is under way. */
  function Left(w: World): nat {
    3 * |w.pending| + 2 * |w.wire| + if w.inFlight.Some? then 1 else 0
  }

  /** From every state there is a way for everything under way to arrive. */
  lemma {:induction false} EverythingCanArrive(setup: Setup, w: World) returns (actions: seq<Action>)
    ensures Legal(setup, w, actions) && Perform(setup, w, actions).Underway() == []
    decreases Left(w)
  {
    if Left(w) == 0 {
      actions := [];
      assert w.Underway() == [];
    } else {
      Delivers(setup, w);
      var a :| Enabled(setup, w, a) && Left(Do(setup, w, a)) < Left(w);
      hide Do, Enabled;
      var rest := EverythingCanArrive(setup, Do(setup, w, a));
      actions := [a] + rest;
      assert actions[1..] == rest;
    }
  }

  // ----- Dropped packets

  /** What dropping a packet does: original and copy still agree if and only if the event had no effect but on the damage time of a
      mode that does not copy it, or it left the original out of combat and the copy is reset. */
  lemma DroppedPacket(mode: Mode, p: Packet, r: Stats)
    requires Agree(mode, p.before, r)
    ensures Agree(mode, p.After(), r) <==> Drifts(mode, p.before, p.After()) || (p.After().IsOutOfCombat() && IsReset(r))
  {
    if !p.before.IsOutOfCombat() {
      DamageTimeGrows(p);
    }
    var s, t := p.before, p.After();
    hide LocalStats;
    if r == s.(lastDamageEvent := r.lastDamageEvent) && r == t.(lastDamageEvent := r.lastDamageEvent) {
      assert t == r.(lastDamageEvent := t.lastDamageEvent) && s == r.(lastDamageEvent := s.lastDamageEvent);
      assert t == s.(lastDamageEvent := t.lastDamageEvent);
    }
    if Drifts(mode, s, t) {
      DriftAgrees(mode, s, t, r);
    }
  }

  lemma DamageTimeGrows(p: Packet)
    requires !p.before.IsOutOfCombat()
    ensures p.After() == p.before.(lastDamageEvent := p.After().lastDamageEvent) ==> p.before.lastDamageEvent <= p.After().lastDamageEvent
  {
  }

  /** By kind of event, when an event has no effect that the copy would need. */
  predicate NeedsNoCopy(mode: Mode, s: Stats, e: LocalEvent) {
    var ev := PreProcess(e.ev, true);
    if ev.isStatechange == CBTS_ENTERCOMBAT then
      e.src.self == 0 || !s.IsOutOfCombat() || s == Stats(ev.time, 0, 0, ev.dstAgent % 0x1_0000, [])
    else if ev.isStatechange == CBTS_EXITCOMBAT then e.src.self == 0 || !CanExit(s, ev.time)
    else
      match GetEventType(ev, true)
      case Other => true
      case Healing => !IsOwnHeal(e) || s.IsOutOfCombat()
      case _ =>
        || (e.src.self == 0 && e.dst.self == 0) || ev.iff != IFF_FOE || s.IsOutOfCombat()
        || mode != Full || ev.time <= s.lastDamageEvent
  }

  /** A dropped packet can be done without exactly for these events: combat enters that are not the sender's own or come in combat, exits
      that are not its own or not effective, others' heals and heals outside combat, and damage that is not new or need not be
      copied. */
  lemma DroppedByKind(mode: Mode, p: Packet)
    ensures Drifts(mode, p.before, p.After()) <==> NeedsNoCopy(mode, p.before, p.cause)
  {
    hide PreProcess;
  }

  /** In particular the packet of an effective combat exit cannot be dropped. */
  lemma LostExitDisagrees(mode: Mode, p: Packet, r: Stats)
    requires Mirrors(mode, p.before, r) && p.cause.src.self != 0
    requires p.cause.ev.isStatechange == CBTS_EXITCOMBAT && CanExit(p.before, p.cause.ev.time)
    ensures !Agree(mode, p.After(), r)
  {
    DroppedPacket(mode, p, r);
    DroppedByKind(mode, p);
    assert PreProcess(p.cause.ev, true) == p.cause.ev;
  }

  // ----- Events that arrive under another id

  /** What the receiver makes of an event that is about `tag` but was not about the sender does no harm. */
  predicate Harmless(mode: Mode, s: Stats, r: Stats, ev: CbtEvent, table: AgentTable) {
    if ev.isStatechange == CBTS_ENTERCOMBAT then !r.IsOutOfCombat() || ev.time == 0
    else if ev.isStatechange == CBTS_EXITCOMBAT then !CanExit(r, ev.time)
    else
      match GetEventType(ev, true)
      case Other => true
      case Healing => r.IsOutOfCombat() || table.GetUniqueId(ev.dstInstId, true) == None
      case _ => r.IsOutOfCombat() || ev.iff != IFF_FOE || ev.time <= if mode == Budget then 0 else s.lastDamageEvent
  }

  lemma Unconcerned(p: Packet, r: Stats, table: AgentTable, tag: u16)
    requires Faithful(p.cause) && !Concerns(PreProcess(p.cause.ev, true), tag)
    ensures p.At(r, table, tag) == r
  {
    PreProcessStable(p.cause.ev, true);
    hide ReadLastDamage, LocalStats, ToBytes;
  }

  lemma Misattributed(mode: Mode, p: Packet, r: Stats, table: AgentTable, tag: u16)
    requires Agree(mode, p.before, r) && Faithful(p.cause)
    requires !Concerns(PreProcess(p.cause.ev, true), p.cause.instId) && Concerns(PreProcess(p.cause.ev, true), tag)
    ensures Agree(mode, p.After(), p.At(r, table, tag)) <==> Harmless(mode, p.before, r, PreProcess(p.cause.ev, true), table)
  {
    OwnConcerns(p.cause);
    PreProcessStable(p.cause.ev, true);
    var ev := PreProcess(p.cause.ev, true);
    assert p.After() == p.before && p.Event() == ev;
    hide WriteLastDamage, ReadLastDamage, LocalStats, PreProcess;
  }

  /** Under whichever id an event arrives: original and copy still agree if and only if it is about that id exactly if it was about the
      sender's, or the copy can do without it, or it does the copy no harm. */
  lemma TagMatters(setup: Setup, p: Packet, r: Stats, table: AgentTable, tag: u16)
    requires Agree(setup.mode, p.before, r) && PacketOk(setup, p) && FindsTarget(p.cause, table)
    ensures var ev := PreProcess(p.cause.ev, true);
            Agree(setup.mode, p.After(), p.At(r, table, tag)) <==>
              if Concerns(ev, tag) then Concerns(ev, p.cause.instId) || Harmless(setup.mode, p.before, r, ev, table)
              else || !Concerns(ev, p.cause.instId) || NeedsNoCopy(setup.mode, p.before, p.cause)
                   || (p.After().IsOutOfCombat() && IsReset(r))
  {
    var ev := PreProcess(p.cause.ev, true);
    if Suits(p.cause, tag) {
      SameEvent(setup, p, r, table, tag);
    } else if Concerns(ev, tag) {
      Misattributed(setup.mode, p, r, table, tag);
    } else {
      Unconcerned(p, r, table, tag);
      DroppedPacket(setup.mode, p, r);
      DroppedByKind(setup.mode, p);
    }
    hide *;
  }

  /** A heal of the sender's own that arrives under an id that it does not name is lost. */
  lemma LateHealIsLost(setup: Setup, p: Packet, r: Stats, table: AgentTable, tag: u16)
    requires Agree(setup.mode, p.before, r) && PacketOk(setup, p) && FindsTarget(p.cause, table)
    requires IsOwnHeal(p.cause) && !p.before.IsOutOfCombat()
    requires p.cause.ev.srcInstId != tag && p.cause.ev.srcMasterInstId != tag
    ensures p.At(r, table, tag) == r && !Agree(setup.mode, p.After(), r)
  {
    var ev := PreProcess(p.cause.ev, true);
    assert GetEventType(ev, true) == Healing && ev.srcInstId != tag && ev.srcMasterInstId != tag;
    assert !Concerns(ev, tag);
    assert !NeedsNoCopy(setup.mode, p.before, p.cause);
    Unconcerned(p, r, table, tag);
    DroppedPacket(setup.mode, p, r);
    DroppedByKind(setup.mode, p);
    assert !p.After().IsOutOfCombat();
  }
}
