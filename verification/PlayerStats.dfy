/** `PlayerStats` (src/PlayerStats.cpp): the combat state machine of one player, local or remote. */
module PlayerStatistics {
  import opened CombatEvents

  datatype HealEvent = HealEvent(time: u64, size: u64, agentId: u64, skillId: u32, isBarrierGeneration: bool, isAgainstDowned: bool)

  /** `HealingStatsSlim`. */
  datatype Stats = Stats(enteredCombatTime: u64, exitedCombatTime: u64, lastDamageEvent: u64, subGroup: u16, events: seq<HealEvent>)
  {
    predicate IsOutOfCombat() {
      enteredCombatTime == 0 || exitedCombatTime != 0
    }
  }

  const NO_STATS := Stats(0, 0, 0, 0, [])

  function Max(a: u64, b: u64): u64 {
    if a < b then b else a
  }

  function EnterCombat(st: Stats, time: u64, subGroup: u16): Stats {
    if st.IsOutOfCombat() then Stats(time, 0, 0, subGroup, []) else st
  }

  predicate CanExit(st: Stats, time: u64) {
    !st.IsOutOfCombat() && time > st.enteredCombatTime
  }

  function ExitCombat(st: Stats, time: u64, lastDamage: u64): Stats {
    if CanExit(st, time) then st.(exitedCombatTime := time, lastDamageEvent := Max(st.lastDamageEvent, lastDamage)) else st
  }

  /** The value `ExitedCombat` returns: the time of the last damage event, or 0 if combat was not left. */
  function ExitResult(st: Stats, time: u64, lastDamage: u64): u64 {
    if CanExit(st, time) then Max(st.lastDamageEvent, lastDamage) else 0
  }

  function Reset(st: Stats): Stats {
    if st.IsOutOfCombat() then Stats(0, 0, 0, st.subGroup, []) else st
  }

  function RecordDamage(st: Stats, time: u64): Stats {
    if st.IsOutOfCombat() then st else st.(lastDamageEvent := Max(st.lastDamageEvent, time))
  }

  function RecordHeal(st: Stats, ev: CbtEvent, dst: u64, isBarrier: bool): Stats {
    if st.IsOutOfCombat() then st
    else st.(events := st.events + [HealEvent(ev.time, HealedAmount(ev), dst, ev.skillId, isBarrier, ev.isOffcycle == 1)])
  }

  class PlayerStats {
    var myStats: Stats

    constructor ()
      ensures myStats == NO_STATS
    {
      myStats := NO_STATS;
    }

    method EnteredCombat(time: u64, subGroup: u16)
      modifies this
      ensures myStats == EnterCombat(old(myStats), time, subGroup)
    {
      if myStats.IsOutOfCombat() {
        myStats := myStats.(enteredCombatTime := time, exitedCombatTime := 0, lastDamageEvent := 0);
        myStats := myStats.(events := [], subGroup := subGroup);
      }
    }

    method ExitedCombat(time: u64, lastDamage: u64) returns (result: u64)
      modifies this
      ensures myStats == ExitCombat(old(myStats), time, lastDamage)
      ensures result == ExitResult(old(myStats), time, lastDamage)
    {
      if myStats.IsOutOfCombat() {
        return 0;
      }
      if time <= myStats.enteredCombatTime {
        return 0;
      }
      myStats := myStats.(exitedCombatTime := time);
      myStats := myStats.(lastDamageEvent := Max(myStats.lastDamageEvent, lastDamage));
      return myStats.lastDamageEvent;
    }

    method ResetIfNotInCombat() returns (wasReset: bool)
      modifies this
      ensures myStats == Reset(old(myStats)) && wasReset == old(myStats).IsOutOfCombat()
    {
      if myStats.IsOutOfCombat() {
        myStats := myStats.(enteredCombatTime := 0, exitedCombatTime := 0, lastDamageEvent := 0, events := []);
        return true;
      }
      return false;
    }

    method DamageEvent(time: u64)
      modifies this
      ensures myStats == RecordDamage(old(myStats), time)
    {
      if myStats.IsOutOfCombat() {
        return;
      }
      myStats := myStats.(lastDamageEvent := Max(myStats.lastDamageEvent, time));
    }

    method HealingEvent(ev: CbtEvent, dst: u64)
      modifies this
      ensures myStats == RecordHeal(old(myStats), ev, dst, false)
    {
      var healedAmount := HealedAmount(ev);
      if myStats.IsOutOfCombat() {
        return;
      }
      myStats := myStats.(events := myStats.events + [HealEvent(ev.time, healedAmount, dst, ev.skillId, false, ev.isOffcycle == 1)]);
    }

    method BarrierGenerationEvent(ev: CbtEvent, dst: u64)
      modifies this
      ensures myStats == RecordHeal(old(myStats), ev, dst, true)
    {
      var amount := HealedAmount(ev);
      if myStats.IsOutOfCombat() {
        return;
      }
      myStats := myStats.(events := myStats.events + [HealEvent(ev.time, amount, dst, ev.skillId, true, ev.isOffcycle == 1)]);
    }
  }
}
