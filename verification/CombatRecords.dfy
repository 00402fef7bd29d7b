/** What the combat paths of sender and receiver record, from the fields of an event alone (src/Common.h:13-62,
    src/EventProcessor.cpp:297-602, src/PlayerStats.cpp). */
module CombatRecords {
  import opened CombatEvents
  import opened Bytes
  import opened PlayerStatistics
  import opened EventProcessing
  import Replication

  // ----- The shapes of events

  /** No state change, no activation, no buff removal. */
  predicate Plain(ev: CbtEvent) {
    ev.isStatechange == 0 && ev.isActivation == 0 && ev.isBuffremove == 0
  }

  /** A normal, critical or glancing strike. */
  predicate Strikes(ev: CbtEvent) {
    ev.result == 0 || ev.result == 1 || ev.result == 2
  }

  /** A strike or a buff with an amount for which `Sign` holds. */
  predicate Amounts(ev: CbtEvent, sign: i32 -> bool) {
    Plain(ev) && if ev.buff == 0 then Strikes(ev) && sign(ev.value) else sign(ev.buffDmg)
  }

  predicate Heals(ev: CbtEvent) {
    Amounts(ev, amount => amount > 0)
  }

  /** Neither a heal nor a skill cast: damage, and what only takes part in combat. */
  predicate Harms(ev: CbtEvent) {
    Plain(ev) && if ev.buff == 0 then (Strikes(ev) ==> ev.value <= 0) && ev.result != 11 else ev.buffDmg <= 0
  }

  /** What each classification stands for.  Local events have positive amounts for healing, area events negative ones. */
  lemma EventShapes(ev: CbtEvent, isLocal: bool)
    ensures GetEventType(ev, isLocal) == Healing <==> Amounts(ev, amount => if isLocal then amount > 0 else amount < 0)
    ensures GetEventType(ev, isLocal) == EventType.Damage <==> Amounts(ev, amount => if isLocal then amount < 0 else amount > 0)
    ensures GetEventType(ev, isLocal) == Other <==> !Plain(ev) || (ev.buff == 0 && ev.result == 11)
    ensures GetEventType(ev, isLocal) == SemiDamaging <==>
              Plain(ev) && if ev.buff == 0 then ev.result != 11 && (!Strikes(ev) || ev.value == 0) else ev.buffDmg == 0
  {
  }

  lemma LocalShapes(ev: CbtEvent)
    ensures GetEventType(ev, true) == Healing <==> Heals(ev)
    ensures GetEventType(ev, true) == EventType.Damage || GetEventType(ev, true) == SemiDamaging <==> Harms(ev)
    ensures GetEventType(ev, true) == Other <==> !Heals(ev) && !Harms(ev)
  {
    EventShapes(ev, true);
    hide GetEventType;
  }

  // ----- What is recorded

  predicate InCombat(st: Stats) {
    st.enteredCombatTime != 0 && st.exitedCombatTime == 0
  }

  /** Healing a downed target: so marked, or the one glyph that can do nothing else. */
  predicate HelpsUp(ev: CbtEvent) {
    ev.isOffcycle == 1 || (ev.buff != 0 && ev.skillId == 55026)
  }

  /** The amount of a heal.  Of a buff that comes with a direct value too, the value is taken, as 32 unsigned bits. */
  function Amount(ev: CbtEvent): int {
    if ev.buff == 0 then ev.value
    else if ev.value == 0 then ev.buffDmg
    else if ev.value > 0 then ev.value
    else ev.value + 0x1_0000_0000
  }

  /** The entry that a heal adds for a target. */
  predicate IsEntry(entry: HealEvent, ev: CbtEvent, target: u64) {
    && entry.time == ev.time && entry.size == Amount(ev) && entry.agentId == target && entry.skillId == ev.skillId
    && (entry.isBarrierGeneration <==> ev.isShields != 0) && (entry.isAgainstDowned <==> HelpsUp(ev))
  }

  /** `after` is `before` with one entry more. */
  predicate AddsEntry(before: Stats, after: Stats, ev: CbtEvent, target: u64) {
    && |after.events| == |before.events| + 1 && after.events[..|before.events|] == before.events
    && IsEntry(after.events[|before.events|], ev, target)
    && after == before.(events := after.events)
  }

  lemma PatchedFields(ev: CbtEvent)
    ensures var patched := PreProcess(ev, true);
            && patched == ev.(isOffcycle := patched.isOffcycle)
            && GetEventType(patched, true) == GetEventType(ev, true)
            && (GetEventType(ev, true) == Healing ==> (patched.isOffcycle == 1 <==> HelpsUp(ev)))
  {
    PreProcessStable(ev, true);
  }

  lemma HealAdds(st: Stats, ev: CbtEvent, target: u64)
    requires InCombat(st) && Heals(ev)
    ensures AddsEntry(st, RecordHeal(st, PreProcess(ev, true), target, ev.isShields != 0), ev, target)
  {
    PatchedFields(ev);
    LocalShapes(ev);
    hide GetEventType, PreProcess;
    var after := RecordHeal(st, PreProcess(ev, true), target, ev.isShields != 0);
    assert after.events[..|st.events|] == st.events;
  }

  /** The local combat path, for a callback that is no combat enter or exit: an own heal in combat adds its entry, and nothing else adds
      any; damage to or by the player and a foe moves the damage time forward, and nothing else moves it. */
  lemma LocalRecords(st: Stats, selfInstId: u16, ev: CbtEvent, src: Agent, dst: Agent)
    requires ev.isStatechange != 1 && ev.isStatechange != 2
    ensures var after := LocalStats(st, selfInstId, ev, src, dst);
            var heals := InCombat(st) && Heals(ev) && (src.self != 0 || ev.srcMasterInstId == selfInstId);
            var harms := InCombat(st) && Harms(ev) && (src.self != 0 || dst.self != 0) && ev.iff == 1;
            && (|after.events| > |st.events| <==> heals)
            && (heals ==> AddsEntry(st, after, ev, dst.id))
            && (after.lastDamageEvent > st.lastDamageEvent <==> harms && ev.time > st.lastDamageEvent)
            && (harms && ev.time > st.lastDamageEvent ==> after == st.(lastDamageEvent := ev.time))
            && (!heals && !(harms && ev.time > st.lastDamageEvent) ==> after == st)
  {
    PatchedFields(ev);
    LocalShapes(ev);
    if InCombat(st) && Heals(ev) {
      HealAdds(st, ev, dst.id);
    }
    hide GetEventType, PreProcess, HelpsUp, Amounts, Harms;
  }

  /** The same at a peer, for the player with the instance id `id`: the target has to be known, and is the agent that the table gives. */
  lemma PeerRecords(st: Stats, table: AgentTable, ev: CbtEvent, id: u16)
    requires ev.isStatechange != 1 && ev.isStatechange != 2
    ensures var after := PeerStats(st, table, ev, id);
            var heals := InCombat(st) && Heals(ev) && (ev.srcInstId == id || ev.srcMasterInstId == id) && ev.dstInstId in table.instanceIds;
            var harms := InCombat(st) && Harms(ev) && (ev.srcInstId == id || ev.dstInstId == id) && ev.iff == 1;
            && (|after.events| > |st.events| <==> heals)
            && (heals ==> AddsEntry(st, after, ev, table.instanceIds[ev.dstInstId]))
            && (after.lastDamageEvent > st.lastDamageEvent <==> harms && ev.time > st.lastDamageEvent)
            && (harms && ev.time > st.lastDamageEvent ==> after == st.(lastDamageEvent := ev.time))
            && (!heals && !(harms && ev.time > st.lastDamageEvent) ==> after == st)
  {
    PatchedFields(ev);
    LocalShapes(ev);
    if InCombat(st) && Heals(ev) && ev.dstInstId in table.instanceIds {
      HealAdds(st, ev, table.instanceIds[ev.dstInstId]);
    }
    hide GetEventType, PreProcess, HelpsUp, Amounts, Harms;
  }

  /** A buff's heal is recorded with the buff's own amount exactly if the event has no other value besides. */
  lemma BuffAmount(ev: CbtEvent)
    requires Heals(ev) && ev.buff != 0
    ensures Amount(ev) == ev.buffDmg <==> ev.value == 0 || ev.value == ev.buffDmg
  {
  }

  // ----- Entering and leaving combat

  /** Combat is entered by the own enter event, outside combat, at its time, with its subgroup and nothing recorded yet. */
  lemma EnterRecords(st: Stats, selfInstId: u16, table: AgentTable, ev: CbtEvent, src: Agent, dst: Agent)
    requires ev.isStatechange == 1
    ensures var entered := Stats(ev.time, 0, 0, ev.dstAgent % 0x1_0000, []);
            && LocalStats(st, selfInstId, ev, src, dst) == (if src.self != 0 && !InCombat(st) then entered else st)
            && PeerStats(st, table, ev, selfInstId) == (if ev.srcInstId == selfInstId && !InCombat(st) then entered else st)
  {
    PatchedFields(ev);
    LocalShapes(ev);
    hide GetEventType;
  }

  predicate Leaves(st: Stats, time: u64) {
    InCombat(st) && time > st.enteredCombatTime
  }

  /** The number in the eight bytes behind the instance ids, least significant byte first. */
  function LastDamageBytes(ev: CbtEvent): int {
    ev.iff + 0x100 * ev.buff + 0x1_0000 * ev.result + 0x100_0000 * ev.isActivation + 0x1_0000_0000 * ev.isBuffremove
    + 0x100_0000_0000 * ev.isNinety + 0x1_0000_0000_0000 * ev.isFifty + 0x100_0000_0000_0000 * ev.isMoving
  }

  lemma BytesAreNumber(ev: CbtEvent)
    ensures ReadLastDamage(ev) == LastDamageBytes(ev)
  {
    hide FromBytes;
    EightBytes(ev.iff, ev.buff, ev.result, ev.isActivation, ev.isBuffremove, ev.isNinety, ev.isFifty, ev.isMoving);
  }

  /** Combat is left by the own exit event, if it comes after the enter.  The sender tells the time of its last damage, and the
      receiver keeps the later one of that and its own. */
  lemma ExitRecords(st: Stats, selfInstId: u16, table: AgentTable, ev: CbtEvent, src: Agent, dst: Agent)
    requires ev.isStatechange == 2
    ensures LocalStats(st, selfInstId, ev, src, dst) == if src.self != 0 && Leaves(st, ev.time) then st.(exitedCombatTime := ev.time) else st
    ensures var after, told := PeerStats(st, table, ev, selfInstId), LastDamageBytes(ev);
            if ev.srcInstId == selfInstId && Leaves(st, ev.time) then
              && after == st.(exitedCombatTime := ev.time, lastDamageEvent := after.lastDamageEvent)
              && after.lastDamageEvent == if told > st.lastDamageEvent then told else st.lastDamageEvent
            else after == st
  {
    PatchedFields(ev);
    LocalShapes(ev);
    BytesAreNumber(ev);
    PlainPatch(ev);
    hide GetEventType, ReadLastDamage, PreProcess, LastDamageBytes;
  }

  lemma PlainPatch(ev: CbtEvent)
    requires ev.isStatechange != 0
    ensures PreProcess(ev, true) == ev
  {
  }

  /** What is sent on: the event itself, with the glyph's mark, and for the own exit the time of the last damage, or 0 if combat was not
      left by it. */
  lemma ForwardRecords(st: Stats, ev: CbtEvent, src: Agent)
    ensures var sent := Forwarded(st, ev, src);
            if ev.isStatechange == 2 && src.self != 0 then
              && sent == ev.(iff := sent.iff, buff := sent.buff, result := sent.result, isActivation := sent.isActivation,
                             isBuffremove := sent.isBuffremove, isNinety := sent.isNinety, isFifty := sent.isFifty, isMoving := sent.isMoving)
              && LastDamageBytes(sent) == if Leaves(st, ev.time) then st.lastDamageEvent else 0
            else if Heals(ev) && ev.buff != 0 && ev.skillId == 55026 then sent == ev.(isOffcycle := 1)
            else sent == ev
  {
    LocalShapes(ev);
    if ev.isStatechange == 2 && src.self != 0 {
      PlainPatch(ev);
      ExitForwards(st, ev);
    }
    hide GetEventType, WriteLastDamage, LastDamageBytes;
  }

  lemma ExitForwards(st: Stats, ev: CbtEvent)
    ensures var sent := WriteLastDamage(ev, ExitResult(st, ev.time, 0));
            LastDamageBytes(sent) == if Leaves(st, ev.time) then st.lastDamageEvent else 0
    ensures var sent := WriteLastDamage(ev, ExitResult(st, ev.time, 0));
            sent == ev.(iff := sent.iff, buff := sent.buff, result := sent.result, isActivation := sent.isActivation,
                        isBuffremove := sent.isBuffremove, isNinety := sent.isNinety, isFifty := sent.isFifty, isMoving := sent.isMoving)
  {
    LastDamageRoundTrip(ev, ExitResult(st, ev.time, 0));
    BytesAreNumber(WriteLastDamage(ev, ExitResult(st, ev.time, 0)));
    hide ReadLastDamage, LastDamageBytes, ToBytes;
  }

  /** In budget mode only heals, enters and exits are sent, and otherwise everything. */
  lemma SendsMeans(ev: CbtEvent, budget: bool)
    ensures Replication.Sends(ev, budget) <==> !budget || Heals(ev) || ev.isStatechange == 1 || ev.isStatechange == 2
  {
    LocalShapes(ev);
    hide GetEventType;
  }

  /** What an own callback does at the sender: its event is lost exactly if it is one to send and more than 5000 wait already. */
  lemma SenderMeans(setup: Replication.Setup, w: Replication.World, event: Replication.LocalEvent, budget: bool)
    requires Replication.Enabled(setup, w, Replication.Local(event, budget))
    ensures var after := Replication.Do(setup, w, Replication.Local(event, budget));
            var sent := Forwarded(w.self, event.ev, event.src);
            var sends := !budget || Heals(sent) || sent.isStatechange == 1 || sent.isStatechange == 2;
            && after.self == LocalStats(w.self, event.instId, event.ev, event.src, event.dst)
            && (after.lost <==> w.lost || (sends && |w.pending| > 5000))
            && after == w.(self := after.self, lost := after.lost,
                           pending := if sends && |w.pending| <= 5000 then w.pending + [Replication.Packet(event, w.self)] else w.pending)
  {
    SendsMeans(Forwarded(w.self, event.ev, event.src), budget);
    hide Replication.Sends, LocalStats, Forwarded, Amounts;
  }

  /** What the receiver's other activity does to its copies: another player's event leaves the sender's copy alone, and the reset
      removes exactly those out of combat that nobody holds, the one being updated not among them. */
  lemma ReceiverMeans(setup: Replication.Setup, w: Replication.World, a: Replication.Action)
    requires Replication.Enabled(setup, w, a) && (a.OtherPeer? || a.SelfEntersCombat?)
    ensures var after := Replication.Do(setup, w, a);
            && after == w.(peers := after.peers)
            && (a.OtherPeer? ==>
                  && after.peers == PeerCombatSpec(w.peers, a.table, a.ev, a.instId)
                  && (setup.uniqueId in after.peers <==> setup.uniqueId in w.peers)
                  && (setup.uniqueId in w.peers ==> after.peers[setup.uniqueId] == w.peers[setup.uniqueId]))
            && (a.SelfEntersCombat? ==>
                  forall id :: id in after.peers <==>
                    id in w.peers && (InCombat(w.peers[id]) || id in a.referenced || (w.inFlight.Some? && id == setup.uniqueId)))
  {
    if a.OtherPeer? {
      PeerTouched(w.peers, a.table, a.ev, a.instId);
    } else {
      PeersReset(w.peers, a.referenced + if w.inFlight.Some? then {setup.uniqueId} else {});
    }
    hide PeerStats, ResetPeersSpec;
  }

  // ----- The peers' states

  /** An event of a known player changes that player's state, which begins empty, and nobody else's; one of anybody else changes
      nothing. */
  lemma PeerTouched(peers: map<u64, Stats>, table: AgentTable, ev: CbtEvent, id: u16)
    ensures var after := PeerCombatSpec(peers, table, ev, id);
            if id in table.instanceIds && id in table.players then
              var uid := table.instanceIds[id];
              && after.Keys == peers.Keys + {uid} && (forall other :: other in peers && other != uid ==> after[other] == peers[other])
              && after[uid] == PeerStats(if uid in peers then peers[uid] else Stats(0, 0, 0, 0, []), table, ev, id)
            else after == peers
  {
    hide PeerStats;
  }

  /** The reset keeps who is in combat as it is; the others are removed, or kept empty but for their subgroup if somebody else holds
      them. */
  lemma PeersReset(peers: map<u64, Stats>, referenced: set<u64>)
    ensures var after := ResetPeersSpec(peers, referenced);
            && (forall id :: id in after <==> id in peers && (InCombat(peers[id]) || id in referenced))
            && (forall id :: id in after ==>
                  after[id] == if InCombat(peers[id]) then peers[id] else Stats(0, 0, 0, peers[id].subGroup, []))
  {
  }
}
