/** The combat event paths of `EventProcessor` (src/EventProcessor.cpp): the local player's events, the
    forwarded events of peers, and the reset of peers when combat is entered. */
module EventProcessing {
  import opened CombatEvents
  import opened Bytes
  import opened PlayerStatistics

  /** The eight bytes from `iff` to `is_moving`, which a combat exit reuses for a time stamp. */
  function OverlayBytes(ev: CbtEvent): seq<byte> {
    [ev.iff, ev.buff, ev.result, ev.isActivation, ev.isBuffremove, ev.isNinety, ev.isFifty, ev.isMoving]
  }

  function WriteLastDamage(ev: CbtEvent, time: u64): CbtEvent {
    var b := ToBytes(time, 8);
    ev.(iff := b[0], buff := b[1], result := b[2], isActivation := b[3],
        isBuffremove := b[4], isNinety := b[5], isFifty := b[6], isMoving := b[7])
  }

  function ReadLastDamage(ev: CbtEvent): u64 {
    Widths();
    FromBytes(OverlayBytes(ev))
  }

  lemma LastDamageRoundTrip(ev: CbtEvent, time: u64)
    ensures ReadLastDamage(WriteLastDamage(ev, time)) == time
    ensures var sent := WriteLastDamage(ev, time);
            sent.(iff := ev.iff, buff := ev.buff, result := ev.result, isActivation := ev.isActivation,
                  isBuffremove := ev.isBuffremove, isNinety := ev.isNinety, isFifty := ev.isFifty, isMoving := ev.isMoving) == ev
  {
    Widths();
    DecodeEncode(time, 8);
    assert OverlayBytes(WriteLastDamage(ev, time)) == ToBytes(time, 8);
  }

  /** What `LocalCombat` does to the local player's state. */
  function LocalStats(st: Stats, selfInstId: u16, event: CbtEvent, src: Agent, dst: Agent): Stats {
    var ev := PreProcess(event, true);
    if ev.isStatechange == CBTS_ENTERCOMBAT then
      if src.self != 0 then EnterCombat(st, ev.time, ev.dstAgent % 0x1_0000) else st
    else if ev.isStatechange == CBTS_EXITCOMBAT then
      if src.self != 0 then ExitCombat(st, ev.time, 0) else st
    else
      match GetEventType(ev, true)
      case Other => st
      case Healing =>
        if src.self == 0 && ev.srcMasterInstId != selfInstId then st
        else RecordHeal(st, ev, dst.id, ev.isShields != 0)
      case _ =>
        if (src.self != 0 || dst.self != 0) && ev.iff == IFF_FOE then RecordDamage(st, ev.time) else st
  }

  /** The event that the glue code hands to the network client afterwards: the patched event, with the time of the last
      damage written into it when it is the player's own combat exit. */
  function Forwarded(st: Stats, event: CbtEvent, src: Agent): CbtEvent {
    var ev := PreProcess(event, true);
    if ev.isStatechange == CBTS_EXITCOMBAT && src.self != 0 then WriteLastDamage(ev, ExitResult(st, ev.time, 0)) else ev
  }

  /** `AgentTable::GetUniqueId`; `players` are the instance ids known to belong to players. */
  datatype AgentTable = AgentTable(instanceIds: map<u16, u64>, players: set<u16>) {
    function GetUniqueId(instId: u16, allowNonPlayer: bool): Option<u64> {
      if instId in instanceIds && (allowNonPlayer || instId in players) then Some(instanceIds[instId]) else None
    }
  }

  /** What `PeerCombat` does to the state of the peer it looked up. */
  function PeerStats(st: Stats, table: AgentTable, event: CbtEvent, peerInstId: u16): Stats {
    var ev := PreProcess(event, true);
    if ev.isStatechange == CBTS_ENTERCOMBAT then
      if ev.srcInstId == peerInstId then EnterCombat(st, ev.time, ev.dstAgent % 0x1_0000) else st
    else if ev.isStatechange == CBTS_EXITCOMBAT then
      if ev.srcInstId == peerInstId then ExitCombat(st, ev.time, ReadLastDamage(ev)) else st
    else
      match GetEventType(ev, true)
      case Other => st
      case Healing =>
        var dst := table.GetUniqueId(ev.dstInstId, true);
        if dst == None then st
        else if ev.srcInstId != peerInstId && ev.srcMasterInstId != peerInstId then st
        else RecordHeal(st, ev, dst.value, ev.isShields != 0)
      case _ =>
        if (ev.srcInstId == peerInstId || ev.dstInstId == peerInstId) && ev.iff == IFF_FOE then RecordDamage(st, ev.time) else st
  }

  /** The first half of `PeerCombat`, under the lock: a peer that is not known yet gets an empty state. */
  function Lookup(peers: map<u64, Stats>, id: u64): map<u64, Stats> {
    if id in peers then peers else peers[id := NO_STATS]
  }

  function PeerCombatSpec(peers: map<u64, Stats>, table: AgentTable, ev: CbtEvent, peerInstId: u16): map<u64, Stats> {
    var id := table.GetUniqueId(peerInstId, false);
    if id == None then peers
    else Lookup(peers, id.value)[id.value := PeerStats(Lookup(peers, id.value)[id.value], table, ev, peerInstId)]
  }

  /** The reset of the peers: those out of combat are emptied, and removed unless somebody else still holds them. */
  function ResetPeersSpec(peers: map<u64, Stats>, referenced: set<u64>): map<u64, Stats> {
    map id | id in peers && !(peers[id].IsOutOfCombat() && id !in referenced) :: Reset(peers[id])
  }

  /** The keys of `mPeerStates` are the unique ids of agents. */
  class EventProcessor {
    var mSelfInstanceId: u32
    var mSelfUniqueId: u64
    const mLocalState: PlayerStats
    var mPeerStates: map<u64, PlayerStats>

    ghost predicate Valid()
      reads this
    {
      && (forall id :: id in mPeerStates ==> mPeerStates[id] != mLocalState)
      && (forall i, j :: i in mPeerStates && j in mPeerStates && i != j ==> mPeerStates[i] != mPeerStates[j])
    }

    ghost function Peers(): map<u64, Stats>
      reads this, mPeerStates.Values
    {
      map id | id in mPeerStates :: mPeerStates[id].myStats
    }

    constructor ()
      ensures Valid() && Peers() == map[] && fresh(mLocalState) && mLocalState.myStats == NO_STATS
      ensures mSelfInstanceId == 0xFFFF_FFFF && mSelfUniqueId == U64_MAX
    {
      mSelfInstanceId, mSelfUniqueId := 0xFFFF_FFFF, U64_MAX;
      mLocalState := new PlayerStats();
      mPeerStates := map[];
    }

    /** The peers outside `rest` have been dealt with, and `removed` are those of them that go. */
    ghost predicate Progress(before: map<u64, PlayerStats>, was: map<u64, Stats>, rest: set<u64>, removed: set<u64>, referenced: set<u64>)
      reads before.Values
    {
      && rest <= before.Keys <= was.Keys
      && (forall id :: id in before ==> before[id].myStats == if id in rest then was[id] else Reset(was[id]))
      && (forall id :: id in removed <==> id in before && id !in rest && was[id].IsOutOfCombat() && id !in referenced)
      && (forall id, other :: id in before && other in before && id != other ==> before[id] != before[other])
    }

    /** The loop over the peers; `removed` are the entries it erases while looping.  `referenced` are the peers whose
        state somebody else holds a shared pointer to. */
    method ResetLoop(referenced: set<u64>) returns (ghost removed: set<u64>)
      requires Valid()
      modifies this`mPeerStates, mPeerStates.Values
      ensures mPeerStates == old(mPeerStates) - removed
      ensures Progress(old(mPeerStates), old(Peers()), {}, removed, referenced)
    {
      var rest := mPeerStates.Keys;
      ghost var before, was := mPeerStates, Peers();
      removed := {};
      assert Progress(before, was, rest, removed, referenced);
      hide *;
      while rest != {}
        invariant rest <= mPeerStates.Keys && mPeerStates == before - removed
        invariant Progress(before, was, rest, removed, referenced)
        decreases rest
      {
        var id :| id in rest;
        assert before[id] in before.Values;
        var gone := ResetEntry(id, referenced, before, was, rest, removed);
        removed := if gone then removed + {id} else removed;
        rest := rest - {id};
      }
    }

    method ResetEntry(id: u64, referenced: set<u64>, ghost before: map<u64, PlayerStats>, ghost was: map<u64, Stats>,
                      ghost rest: set<u64>, ghost removed: set<u64>)
      returns (gone: bool)
      requires id in mPeerStates && id in rest && id in before && before[id] == mPeerStates[id]
      requires Progress(before, was, rest, removed, referenced)
      modifies this`mPeerStates, mPeerStates[id]
      ensures mPeerStates == if gone then old(mPeerStates) - {id} else old(mPeerStates)
      ensures Progress(before, was, rest - {id}, if gone then removed + {id} else removed, referenced)
    {
      var wasReset := mPeerStates[id].ResetIfNotInCombat();
      gone := wasReset && id !in referenced;
      if gone {
        mPeerStates := mPeerStates - {id};
      }
      forall other | other in before && other != id ensures before[other].myStats == old(before[other].myStats) {
        assert before[other] != before[id];
      }
    }

    method ResetPeers(referenced: set<u64>)
      requires Valid()
      modifies this`mPeerStates, mPeerStates.Values
      ensures Valid() && mPeerStates.Values <= old(mPeerStates.Values)
      ensures Peers() == ResetPeersSpec(old(Peers()), referenced)
    {
      ghost var before, was := mPeerStates, Peers();
      ghost var removed := ResetLoop(referenced);
      Reflects(before, was, removed, referenced);
    }

    lemma Reflects(before: map<u64, PlayerStats>, was: map<u64, Stats>, removed: set<u64>, referenced: set<u64>)
      requires was.Keys == before.Keys && mPeerStates == before - removed && Progress(before, was, {}, removed, referenced)
      ensures Peers() == ResetPeersSpec(was, referenced)
    {
    }

    /** Agent path of `LocalCombat`: the player's own registration stores both ids, and its deregistration exits combat at the
        machine's own time `now`. */
    method LocalAgent(src: Agent, dst: Agent, now: u32)
      requires Valid() && (src.elite == 0 && src.prof != 0 && dst.self != 0 ==> dst.id < 0x1_0000)
      modifies this`mSelfInstanceId, this`mSelfUniqueId, mLocalState
      ensures Valid() && Peers() == old(Peers())
      ensures (mSelfInstanceId, mSelfUniqueId) ==
              if src.elite == 0 && src.prof != 0 && dst.self != 0 then (dst.id, src.id) else old((mSelfInstanceId, mSelfUniqueId))
      ensures mLocalState.myStats ==
              if src.elite == 0 && src.prof == 0 && src.id == old(mSelfUniqueId) then ExitCombat(old(mLocalState.myStats), now, 0)
              else old(mLocalState.myStats)
    {
      if src.elite != 0 {
        return;
      }
      if src.prof != 0 {
        if dst.self != 0 {
          mSelfInstanceId := dst.id;
          mSelfUniqueId := src.id;
        }
      } else {
        if src.id == mSelfUniqueId {
          var _ := mLocalState.ExitedCombat(now, 0);
        }
      }
    }

    /** Combat event path of `LocalCombat`; the result is what the glue code forwards. */
    method LocalCombat(event: CbtEvent, src: Agent, dst: Agent, referenced: set<u64>) returns (forwarded: CbtEvent)
      requires Valid()
      modifies this`mPeerStates, mLocalState, mPeerStates.Values
      ensures Valid()
      ensures mLocalState.myStats == LocalStats(old(mLocalState.myStats), mSelfInstanceId % 0x1_0000, event, src, dst)
      ensures forwarded == Forwarded(old(mLocalState.myStats), event, src)
      ensures Peers() == if event.isStatechange == CBTS_ENTERCOMBAT then ResetPeersSpec(old(Peers()), referenced) else old(Peers())
    {
      var ev := event;
      if GetEventType(ev, true) == Healing && ev.buff != 0 && ev.skillId == GLYPH_OF_THE_STARS {
        ev := ev.(isOffcycle := 1);
      }
      forwarded := ev;
      if ev.isStatechange == CBTS_ENTERCOMBAT {
        if src.self != 0 {
          mLocalState.EnteredCombat(ev.time, ev.dstAgent % 0x1_0000);
        }
        ResetPeers(referenced);
        return;
      }
      if ev.isStatechange == CBTS_EXITCOMBAT {
        if src.self != 0 {
          var lastDamageEventTime := mLocalState.ExitedCombat(ev.time, 0);
          forwarded := WriteLastDamage(ev, lastDamageEventTime);
        }
        return;
      }
      var eventType := GetEventType(ev, true);
      if eventType == EventType.Damage || eventType == SemiDamaging {
        if (src.self != 0 || dst.self != 0) && ev.iff == IFF_FOE {
          mLocalState.DamageEvent(ev.time);
        }
        return;
      }
      if eventType == Other {
        return;
      }
      if src.self == 0 && ev.srcMasterInstId != mSelfInstanceId % 0x1_0000 {
        return;
      }
      if ev.isShields != 0 {
        mLocalState.BarrierGenerationEvent(ev, dst.id);
      } else {
        mLocalState.HealingEvent(ev, dst.id);
      }
    }

    method PeerCombat(event: CbtEvent, peerInstId: u16, table: AgentTable)
      requires Valid()
      modifies this`mPeerStates, mPeerStates.Values
      ensures Valid() && fresh(mPeerStates.Values - old(mPeerStates.Values))
      ensures Peers() == PeerCombatSpec(old(Peers()), table, event, peerInstId)
    {
      var peerUniqueId := table.GetUniqueId(peerInstId, false);
      if peerUniqueId == None {
        return;
      }
      var id := peerUniqueId.value;
      if id !in mPeerStates {
        var inserted := new PlayerStats();
        mPeerStates := mPeerStates[id := inserted];
      }
      ghost var known := Peers();
      assert known == Lookup(old(Peers()), id);
      PeerEvent(mPeerStates[id], event, peerInstId, table);
      assert Peers() == known[id := PeerStats(known[id], table, event, peerInstId)];
    }

    /** The second half of `PeerCombat`, on the state that the first half looked up. */
    static method PeerEvent(state: PlayerStats, event: CbtEvent, peerInstId: u16, table: AgentTable)
      modifies state
      ensures state.myStats == PeerStats(old(state.myStats), table, event, peerInstId)
    {
      var ev := PreProcess(event, true);
      if ev.isStatechange == CBTS_ENTERCOMBAT {
        if ev.srcInstId == peerInstId {
          state.EnteredCombat(ev.time, ev.dstAgent % 0x1_0000);
        }
        return;
      }
      if ev.isStatechange == CBTS_EXITCOMBAT {
        if ev.srcInstId == peerInstId {
          var _ := state.ExitedCombat(ev.time, ReadLastDamage(ev));
        }
        return;
      }
      var eventType := GetEventType(ev, true);
      if eventType == EventType.Damage || eventType == SemiDamaging {
        if (ev.srcInstId == peerInstId || ev.dstInstId == peerInstId) && ev.iff == IFF_FOE {
          state.DamageEvent(ev.time);
        }
        return;
      }
      if eventType == Other {
        return;
      }
      var dstUniqueId := table.GetUniqueId(ev.dstInstId, true);
      if dstUniqueId == None {
        return;
      }
      if ev.srcInstId != peerInstId && ev.srcMasterInstId != peerInstId {
        return;
      }
      if ev.isShields != 0 {
        state.BarrierGenerationEvent(ev, dstUniqueId.value);
      } else {
        state.HealingEvent(ev, dstUniqueId.value);
      }
    }
  }
}
