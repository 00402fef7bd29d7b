/** What a statistics window shows of one player's events (src/AggregatedStats.cpp), as functions of the collected data: the
    filters, the grouping by skill, by agent and by group preset, and the sums that all of them conserve. */
module Aggregation {
  import opened CombatEvents
  import opened Order
  import opened PlayerStatistics

  datatype HealedAgent = HealedAgent(name: seq<u8>, subgroup: u16, isMinion: bool)

  datatype CombatEndCondition = CombatExit | LastDamageEvent | LastHealEvent | LastDamageOrHealEvent

  /** The options that decide which agents count. */
  datatype AgentFilter = AgentFilter(excludeGroup: bool, excludeOffGroup: bool, excludeOffSquad: bool, excludeMinions: bool, excludeUnmapped: bool)

  datatype SortOrder =
    | AscendingAlphabetical | DescendingAlphabetical | AscendingTotalOutgoingSize | DescendingTotalOutgoingSize
    | AscendingHealSize | DescendingHealSize | AscendingBarrierGenerationSize | DescendingBarrierGenerationSize

  datatype Options = Options(agents: AgentFilter, excludeHealing: bool, excludeBarrierGeneration: bool,
                             excludeAgainstDowned: bool, excludeAgainstNonDowned: bool, includedSkills: seq<u32>,
                             combatEnd: CombatEndCondition, sortOrder: SortOrder)

  /** `HealingStats`: the player's statistics together with the agents and skills known when they were collected.  `indirect`
      holds the skills for which `IsSkillIndirectHealing` is true. */
  datatype Source = Source(stats: Stats, collectionTime: u64, agents: map<u64, HealedAgent>, skillNames: map<u64, seq<u8>>, indirect: set<u64>)

  /** A window's data: what it shows and how. */
  datatype Window = Window(src: Source, options: Options, debug: bool)

  // ----- Which events count

  function CombatEnd(w: Window): (end: u64)
    ensures end >= w.src.stats.enteredCombatTime
  {
    var st := w.src.stats;
    var lastHeal := if st.events != [] then st.events[|st.events| - 1].time else 0;
    var end := match w.options.combatEnd
      case CombatExit => st.exitedCombatTime
      case LastHealEvent => lastHeal
      case LastDamageEvent => st.lastDamageEvent
      case LastDamageOrHealEvent => if st.events != [] then Max(st.lastDamageEvent, lastHeal) else st.lastDamageEvent;
    var end' := if end != 0 then end else if st.exitedCombatTime != 0 then st.exitedCombatTime else w.src.collectionTime;
    if end' < st.enteredCombatTime then st.enteredCombatTime else end'
  }

  /** Combat time in milliseconds. */
  function CombatTime(w: Window): nat {
    if w.src.stats.enteredCombatTime == 0 then 0 else CombatEnd(w) - w.src.stats.enteredCombatTime
  }

  /** `FilterInternal`: true for agents that are filtered out. */
  predicate FilteredOut(src: Source, agentId: u64, f: AgentFilter) {
    if agentId !in src.agents || src.agents[agentId].name == [] then f.excludeUnmapped
    else
      var agent := src.agents[agentId];
      || (agent.isMinion && f.excludeMinions)
      || (agent.subgroup == 0 && src.stats.subGroup != 0 && f.excludeOffSquad)
      || (agent.subgroup != 0 && src.stats.subGroup != agent.subgroup && f.excludeOffGroup)
      || (agent.subgroup == src.stats.subGroup && f.excludeGroup)
  }

  predicate FilterSkill(skillId: u32, included: seq<u32>) {
    included != [] && skillId !in included
  }

  /** The filters that do not look at the agent. */
  predicate Passes(w: Window, e: HealEvent) {
    && e.time <= CombatEnd(w)
    && !(if e.isAgainstDowned then w.options.excludeAgainstDowned else w.options.excludeAgainstNonDowned)
    && !(if e.isBarrierGeneration then w.options.excludeBarrierGeneration else w.options.excludeHealing)
    && !FilterSkill(e.skillId, w.options.includedSkills)
  }

  /** The events behind a list of rows: of one agent or of those that the filter lets pass, of one skill or of all. */
  datatype Query = Query(agent: Option<u64>, filter: AgentFilter, skill: Option<u64>)

  predicate Counts(w: Window, q: Query, e: HealEvent) {
    && Passes(w, e)
    && (q.skill.Some? ==> e.skillId == q.skill.value)
    && (if q.agent.Some? then e.agentId == q.agent.value else !FilteredOut(w.src, e.agentId, q.filter))
  }

  function Everything(w: Window): Query {
    Query(None, w.options.agents, None)
  }

  function OfAgent(w: Window, agentId: u64): Query {
    Everything(w).(agent := Some(agentId))
  }

  function OfSkill(w: Window, skillId: u64): Query {
    Everything(w).(skill := Some(skillId))
  }

  // ----- Sums

  /** What a row shows; `healing` contains `barrier`. */
  datatype Sums = Sums(healing: nat, hits: nat, barrier: nat)

  function Nothing(): Sums {
    Sums(0, 0, 0)
  }

  function Plus(a: Sums, b: Sums): Sums {
    Sums(a.healing + b.healing, a.hits + b.hits, a.barrier + b.barrier)
  }

  function One(e: HealEvent): Sums {
    Sums(e.size, 1, if e.isBarrierGeneration then e.size else 0)
  }

  /** The sum over the counted events among the first `n`. */
  function Total(w: Window, q: Query, n: nat): Sums
    requires n <= |w.src.stats.events|
  {
    if n == 0 then Nothing()
    else
      var e := w.src.stats.events[n - 1];
      if Counts(w, q, e) then Plus(Total(w, q, n - 1), One(e)) else Total(w, q, n - 1)
  }

  function FullTotal(w: Window, q: Query): Sums {
    Total(w, q, |w.src.stats.events|)
  }

  // ----- Grouping

  datatype Grouping = BySkill | ByAgent

  function KeyOf(g: Grouping, e: HealEvent): u64 {
    match g
    case BySkill => e.skillId
    case ByAgent => e.agentId
  }

  function Added(tally: map<u64, Sums>, key: u64, e: HealEvent): map<u64, Sums> {
    tally[key := Plus(if key in tally then tally[key] else Nothing(), One(e))]
  }

  /** The map that the loop over the events has built after the first `n`. */
  function Tally(w: Window, q: Query, g: Grouping, n: nat): map<u64, Sums>
    requires n <= |w.src.stats.events|
  {
    if n == 0 then map[]
    else
      var e := w.src.stats.events[n - 1];
      if Counts(w, q, e) then Added(Tally(w, q, g, n - 1), KeyOf(g, e), e) else Tally(w, q, g, n - 1)
  }

  function FullTally(w: Window, q: Query, g: Grouping): map<u64, Sums> {
    Tally(w, q, g, |w.src.stats.events|)
  }

  /** The sum over the counted events with a key in `keys`. */
  ghost function TotalIn(w: Window, q: Query, g: Grouping, keys: set<u64>, n: nat): Sums
    requires n <= |w.src.stats.events|
  {
    if n == 0 then Nothing()
    else
      var e := w.src.stats.events[n - 1];
      if Counts(w, q, e) && KeyOf(g, e) in keys then Plus(TotalIn(w, q, g, keys, n - 1), One(e)) else TotalIn(w, q, g, keys, n - 1)
  }

  /** The entry of a key is the sum over its events, and only keys of counted events have one. */
  lemma {:induction false} TallyAt(w: Window, q: Query, g: Grouping, key: u64, n: nat)
    requires n <= |w.src.stats.events|
    ensures (key in Tally(w, q, g, n)) <==> TotalIn(w, q, g, {key}, n).hits > 0
    ensures key in Tally(w, q, g, n) ==> Tally(w, q, g, n)[key] == TotalIn(w, q, g, {key}, n)
    ensures key !in Tally(w, q, g, n) ==> TotalIn(w, q, g, {key}, n) == Nothing()
  {
    if n > 0 {
      TallyAt(w, q, g, key, n - 1);
    }
  }

  ghost function SumOver(tally: map<u64, Sums>, ids: seq<u64>): Sums
    requires forall k :: 0 <= k < |ids| ==> ids[k] in tally
  {
    if ids == [] then Nothing() else Plus(SumOver(tally, ids[..|ids| - 1]), tally[ids[|ids| - 1]])
  }

  ghost predicate NoRepeats(ids: seq<u64>) {
    forall j, k :: 0 <= j < k < |ids| ==> ids[j] != ids[k]
  }

  ghost function Elements(ids: seq<u64>): set<u64> {
    set k | 0 <= k < |ids| :: ids[k]
  }

  ghost predicate Extends(all: set<u64>, keys: set<u64>, key: u64) {
    key !in keys && forall other :: other in all <==> other in keys || other == key
  }

  lemma {:induction false} TotalInSplits(w: Window, q: Query, g: Grouping, all: set<u64>, keys: set<u64>, key: u64, n: nat)
    requires n <= |w.src.stats.events| && Extends(all, keys, key)
    ensures TotalIn(w, q, g, all, n) == Plus(TotalIn(w, q, g, keys, n), TotalIn(w, q, g, {key}, n))
  {
    if n > 0 {
      hide Counts, KeyOf;
      TotalInSplits(w, q, g, all, keys, key, n - 1);
    }
  }

  lemma {:induction false} TotalInNone(w: Window, q: Query, g: Grouping, n: nat)
    requires n <= |w.src.stats.events|
    ensures TotalIn(w, q, g, {}, n) == Nothing()
  {
    if n > 0 {
      TotalInNone(w, q, g, n - 1);
    }
  }

  /** Adding up the entries of any keys, each once, is adding up the events with these keys. */
  lemma {:induction false} EntriesAddUp(w: Window, q: Query, g: Grouping, ids: seq<u64>, n: nat)
    requires n <= |w.src.stats.events| && NoRepeats(ids)
    requires forall k :: 0 <= k < |ids| ==> ids[k] in Tally(w, q, g, n)
    ensures SumOver(Tally(w, q, g, n), ids) == TotalIn(w, q, g, Elements(ids), n)
    decreases |ids|
  {
    hide Tally, TotalIn;
    if ids == [] {
      TotalInNone(w, q, g, n);
      assert Elements(ids) == {};
    } else {
      var less, last := ids[..|ids| - 1], ids[|ids| - 1];
      EntriesAddUp(w, q, g, less, n);
      TallyAt(w, q, g, last, n);
      forall key ensures key in Elements(ids) <==> key in Elements(less) || key == last {
        if key in Elements(less) {
          var k :| 0 <= k < |less| && less[k] == key;
          assert ids[k] == key;
        }
      }
      TotalInSplits(w, q, g, Elements(ids), Elements(less), last, n);
    }
  }

  lemma {:induction false} TotalInAll(w: Window, q: Query, g: Grouping, keys: set<u64>, n: nat)
    requires n <= |w.src.stats.events| && Tally(w, q, g, n).Keys <= keys
    ensures TotalIn(w, q, g, keys, n) == Total(w, q, n)
  {
    if n > 0 {
      var e := w.src.stats.events[n - 1];
      assert Tally(w, q, g, n - 1).Keys <= Tally(w, q, g, n).Keys;
      assert Counts(w, q, e) ==> KeyOf(g, e) in Tally(w, q, g, n);
      TotalInAll(w, q, g, keys, n - 1);
    }
  }

  /** Only the keys that occur matter. */
  lemma {:induction false} TotalInOccurring(w: Window, q: Query, g: Grouping, keys: set<u64>, keys': set<u64>, n: nat)
    requires n <= |w.src.stats.events|
    requires forall key :: key in Tally(w, q, g, n) ==> (key in keys <==> key in keys')
    ensures TotalIn(w, q, g, keys, n) == TotalIn(w, q, g, keys', n)
  {
    if n > 0 {
      var e := w.src.stats.events[n - 1];
      assert Tally(w, q, g, n - 1).Keys <= Tally(w, q, g, n).Keys;
      assert Counts(w, q, e) ==> KeyOf(g, e) in Tally(w, q, g, n);
      TotalInOccurring(w, q, g, keys, keys', n - 1);
    }
  }

  /** The events of one skill, or of one agent that passes the filter, are those of the narrower query. */
  lemma {:induction false} NarrowedTotal(w: Window, q: Query, g: Grouping, key: u64, n: nat)
    requires n <= |w.src.stats.events|
    requires g == BySkill ==> q.skill == None
    requires g == ByAgent ==> q.agent == None && !FilteredOut(w.src, key, q.filter)
    ensures TotalIn(w, q, g, {key}, n)
            == Total(w, if g == BySkill then q.(skill := Some(key)) else q.(agent := Some(key)), n)
  {
    if n > 0 {
      NarrowedTotal(w, q, g, key, n - 1);
      hide FilteredOut, Passes;
    }
  }
}
