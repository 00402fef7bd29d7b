/** What the numbers of a window count: every sum as the sum over the events that it stands for, told by their fields
    (src/AggregatedStats.cpp). */
module WindowMeaning {
  import opened CombatEvents
  import opened Order
  import opened PlayerStatistics
  import opened Aggregation
  import opened Rows
  import opened WindowTotals
  import opened AggregatedStatistics
  import opened StatsCollection

  // ----- Sums over chosen events

  /** The events for which `p` holds, in their order. */
  function Where(events: seq<HealEvent>, p: HealEvent -> bool): seq<HealEvent> {
    if events == [] then []
    else
      var last := events[|events| - 1];
      Where(events[..|events| - 1], p) + if p(last) then [last] else []
  }

  function Sizes(events: seq<HealEvent>): int {
    if events == [] then 0 else Sizes(events[..|events| - 1]) + events[|events| - 1].size
  }

  function BarrierSizes(events: seq<HealEvent>): int {
    if events == [] then 0
    else BarrierSizes(events[..|events| - 1]) + if events[|events| - 1].isBarrierGeneration then events[|events| - 1].size else 0
  }

  /** Healing is the sum of all sizes, barrier that of the barrier events alone, and every event is a hit. */
  ghost predicate AddUp(sums: Sums, events: seq<HealEvent>) {
    sums.hits == |events| && sums.healing == Sizes(events) && sums.barrier == BarrierSizes(events)
  }

  lemma AddUpStep(sums: Sums, events: seq<HealEvent>, e: HealEvent)
    requires AddUp(sums, events)
    ensures AddUp(Plus(sums, One(e)), events + [e])
  {
    assert (events + [e])[..|events + [e]| - 1] == events;
  }

  lemma WhereStep(events: seq<HealEvent>, n: nat, p: HealEvent -> bool)
    requires 0 < n <= |events|
    ensures Where(events[..n], p) == Where(events[..n - 1], p) + if p(events[n - 1]) then [events[n - 1]] else []
  {
    assert events[..n][..n - 1] == events[..n - 1];
  }

  lemma {:induction false} WhereFinds(events: seq<HealEvent>, p: HealEvent -> bool, e: HealEvent)
    ensures e in Where(events, p) <==> e in events && p(e)
  {
    if events != [] {
      WhereFinds(events[..|events| - 1], p, e);
      assert events == events[..|events| - 1] + [events[|events| - 1]];
    }
  }

  lemma {:induction false} TotalAddsUp(w: Window, q: Query, n: nat, p: HealEvent -> bool)
    requires n <= |w.src.stats.events| && forall e :: p(e) <==> Counts(w, q, e)
    ensures AddUp(Total(w, q, n), Where(w.src.stats.events[..n], p))
  {
    hide Counts, AddUp, Plus, One;
    if n == 0 {
      NothingAddsUp();
    } else {
      TotalAddsUp(w, q, n - 1, p);
      WhereStep(w.src.stats.events, n, p);
      AddUpStep(Total(w, q, n - 1), Where(w.src.stats.events[..n - 1], p), w.src.stats.events[n - 1]);
      hide Where;
      assert Where(w.src.stats.events[..n - 1], p) + [] == Where(w.src.stats.events[..n - 1], p);
    }
  }

  lemma NothingAddsUp()
    ensures AddUp(Nothing(), [])
  {
  }

  lemma {:induction false} TotalInAddsUp(w: Window, q: Query, g: Grouping, keys: set<u64>, n: nat, p: HealEvent -> bool)
    requires n <= |w.src.stats.events| && forall e :: p(e) <==> Counts(w, q, e) && KeyOf(g, e) in keys
    ensures AddUp(TotalIn(w, q, g, keys, n), Where(w.src.stats.events[..n], p))
  {
    hide Counts, AddUp, Plus, One, KeyOf;
    if n == 0 {
      NothingAddsUp();
    } else {
      TotalInAddsUp(w, q, g, keys, n - 1, p);
      WhereStep(w.src.stats.events, n, p);
      AddUpStep(TotalIn(w, q, g, keys, n - 1), Where(w.src.stats.events[..n - 1], p), w.src.stats.events[n - 1]);
      hide Where;
      assert Where(w.src.stats.events[..n - 1], p) + [] == Where(w.src.stats.events[..n - 1], p);
    }
  }

  // ----- Which events a window counts

  /** The event passes what does not depend on its agent. */
  ghost predicate InWindow(w: Window, e: HealEvent) {
    && e.time <= CombatEnd(w)
    && (e.isAgainstDowned ==> !w.options.excludeAgainstDowned)
    && (!e.isAgainstDowned ==> !w.options.excludeAgainstNonDowned)
    && (e.isBarrierGeneration ==> !w.options.excludeBarrierGeneration)
    && (!e.isBarrierGeneration ==> !w.options.excludeHealing)
    && (w.options.includedSkills == [] || exists k :: 0 <= k < |w.options.includedSkills| && w.options.includedSkills[k] == e.skillId)
  }

  lemma PassesMeans(w: Window, e: HealEvent)
    ensures Passes(w, e) <==> InWindow(w, e)
  {
    hide CombatEnd;
  }

  predicate LastHealAt(events: seq<HealEvent>, time: u64) {
    if events == [] then time == 0 else time == events[|events| - 1].time
  }

  /** Where a window ends: at the chosen time, or if that is unknown with the combat exit, or if that is unknown too with the time at
      which the data was collected; but never before the enter. */
  lemma WindowEnd(w: Window, lastHeal: u64)
    requires LastHealAt(w.src.stats.events, lastHeal)
    ensures var st, end, choice := w.src.stats, CombatEnd(w), w.options.combatEnd;
            var unknown := if st.exitedCombatTime != 0 then st.exitedCombatTime else w.src.collectionTime;
            && (choice.CombatExit? ==> end == NotBefore(unknown, st.enteredCombatTime))
            && (choice.LastHealEvent? ==> end == NotBefore(if lastHeal != 0 then lastHeal else unknown, st.enteredCombatTime))
            && (choice.LastDamageEvent? ==>
                  end == NotBefore(if st.lastDamageEvent != 0 then st.lastDamageEvent else unknown, st.enteredCombatTime))
            && (choice.LastDamageOrHealEvent? ==>
                  var later := NotBefore(st.lastDamageEvent, lastHeal);
                  end == NotBefore(if later != 0 then later else unknown, st.enteredCombatTime))
            && CombatTime(w) == if st.enteredCombatTime == 0 then 0 else end - st.enteredCombatTime
  {
  }

  function NotBefore(a: int, b: int): int {
    if a >= b then a else b
  }

  // ----- Which agents a window counts

  predicate Known(src: Source, id: u64) {
    id in src.agents && |src.agents[id].name| > 0
  }

  /** With no flag set nobody is left out, and each flag leaves out exactly its class of agents, whatever the others are. */
  lemma EachFlag(src: Source, id: u64, f: AgentFilter)
    ensures !FilteredOut(src, id, AgentFilter(false, false, false, false, false))
    ensures FilteredOut(src, id, f.(excludeUnmapped := true)) <==> FilteredOut(src, id, f.(excludeUnmapped := false)) || !Known(src, id)
    ensures FilteredOut(src, id, f.(excludeMinions := true)) <==>
              FilteredOut(src, id, f.(excludeMinions := false)) || (Known(src, id) && src.agents[id].isMinion)
    ensures FilteredOut(src, id, f.(excludeOffSquad := true)) <==>
              FilteredOut(src, id, f.(excludeOffSquad := false))
              || (Known(src, id) && src.agents[id].subgroup == 0 && src.stats.subGroup != 0)
    ensures FilteredOut(src, id, f.(excludeOffGroup := true)) <==>
              FilteredOut(src, id, f.(excludeOffGroup := false))
              || (Known(src, id) && src.agents[id].subgroup != 0 && src.agents[id].subgroup != src.stats.subGroup)
    ensures FilteredOut(src, id, f.(excludeGroup := true)) <==>
              FilteredOut(src, id, f.(excludeGroup := false))
              || (Known(src, id) && src.agents[id].subgroup == src.stats.subGroup)
  {
  }

  /** The agents of the four group rows: the player's own subgroup; the squad, which is everybody if the player is in none; all
      that are no minions; all. */
  predicate InGroup(src: Source, group: nat, id: u64) {
    && Known(src, id)
    && (group < 3 ==> !src.agents[id].isMinion)
    && (group == 0 ==> src.agents[id].subgroup == src.stats.subGroup)
    && (group == 1 ==> src.agents[id].subgroup != 0 || src.stats.subGroup == 0)
  }

  lemma PresetMeans(src: Source, group: nat, id: u64)
    requires group < 4
    ensures !FilteredOut(src, id, Preset(group)) <==> InGroup(src, group, id)
  {
  }

  /** Each group row is the sum over the events of the window that went to its agents. */
  lemma GroupRowCounts(w: Window, group: nat, p: HealEvent -> bool)
    requires group < 4 && forall e :: p(e) <==> InWindow(w, e) && InGroup(w.src, group, e.agentId)
    ensures GroupVector(w).entries[group] == GroupRow(w, group)
    ensures AddUp(GroupRow(w, group).sums, Where(w.src.stats.events, p)) && GroupRow(w, group).time == CombatTime(w)
  {
    forall e ensures p(e) <==> Counts(w, GroupQuery(group), e) {
      PassesMeans(w, e);
      PresetMeans(w.src, group, e.agentId);
    }
    hide InWindow, InGroup, Counts, Total, AddUp, CombatTime, PresetLabel, Highest;
    assert w.src.stats.events[..|w.src.stats.events|] == w.src.stats.events;
    TotalAddsUp(w, GroupQuery(group), |w.src.stats.events|, p);
  }

  /** What a query of a window counts: of one agent or of the agents that the filter lets pass, of one skill or of all. */
  ghost predicate Asked(w: Window, q: Query, e: HealEvent) {
    && InWindow(w, e)
    && (match q.skill case Some(id) => e.skillId == id case None => true)
    && (match q.agent case Some(id) => e.agentId == id case None => !FilteredOut(w.src, e.agentId, q.filter))
  }

  lemma CountsMeans(w: Window, q: Query, e: HealEvent)
    ensures Counts(w, q, e) <==> Asked(w, q, e)
  {
    PassesMeans(w, e);
    hide Passes, InWindow, FilteredOut;
  }

  /** The total is the sum over the events of the window that went to agents that the filter lets pass, and in debug mode over the
      indirect ones once more. */
  lemma TotalRowCounts(w: Window, p: HealEvent -> bool, indirect: HealEvent -> bool)
    requires forall e :: p(e) <==> InWindow(w, e) && !FilteredOut(w.src, e.agentId, w.options.agents)
    requires forall e: HealEvent :: indirect(e) <==> p(e) && e.skillId as u64 in w.src.indirect
    ensures TotalRow(w).time == CombatTime(w)
    ensures var events := w.src.stats.events;
            AddUp(TotalRow(w).sums, if w.debug then Where(events, p) + Where(events, indirect) else Where(events, p))
  {
    var q, events := Everything(w), w.src.stats.events;
    forall e ensures (p(e) <==> Counts(w, q, e)) && (indirect(e) <==> Counts(w, q, e) && KeyOf(BySkill, e) in w.src.indirect) {
      CountsMeans(w, q, e);
    }
    Conservation(w);
    assert events[..|events|] == events;
    hide InWindow, FilteredOut, Counts, Total, TotalIn, AddUp, CombatTime, SumRows, SkillVector, AgentVector, Plus;
    TotalAddsUp(w, q, |events|, p);
    TotalInAddsUp(w, q, BySkill, w.src.indirect, |events|, indirect);
    BothAddUp(FullTotal(w, q), IndirectPart(w, q), Where(events, p), Where(events, indirect));
  }

  lemma {:induction false} SizesConcat(a: seq<HealEvent>, b: seq<HealEvent>)
    ensures Sizes(a + b) == Sizes(a) + Sizes(b) && BarrierSizes(a + b) == BarrierSizes(a) + BarrierSizes(b)
    decreases |b|
  {
    if b == [] {
      assert a + b == a;
    } else {
      SizesConcat(a, b[..|b| - 1]);
      assert (a + b)[..|a + b| - 1] == a + b[..|b| - 1];
    }
  }

  lemma BothAddUp(x: Sums, y: Sums, a: seq<HealEvent>, b: seq<HealEvent>)
    requires AddUp(x, a) && AddUp(y, b)
    ensures AddUp(Plus(x, y), a + b)
  {
    SizesConcat(a, b);
    hide Sizes, BarrierSizes;
  }

  // ----- The rows of a list

  ghost predicate Increasing(ids: seq<u64>) {
    forall j, k :: 0 <= j < k < |ids| ==> ids[j] < ids[k]
  }

  lemma LeastFirst(first: u64, ids: set<u64>, rest: seq<u64>)
    requires IsLeast(IdLeq, first, ids) && Elements(rest) == ids - {first} && Increasing(rest)
    ensures Increasing([first] + rest)
  {
    forall k | 0 <= k < |rest| ensures first < rest[k] {
      assert rest[k] in Elements(rest);
    }
  }

  lemma {:induction false} AscendingIncreases(ids: set<u64>)
    ensures Increasing(Ascending(ids))
    decreases |ids|
  {
    if ids != {} {
      IdOrder();
      LeastExists(IdLeq, ids);
      var first :| IsLeast(IdLeq, first, ids) && Ascending(ids) == [first] + Ascending(ids - {first});
      hide Ascending, Increasing, Elements, NoRepeats, TotalOrder;
      AscendingIncreases(ids - {first});
      LeastFirst(first, ids, Ascending(ids - {first}));
    }
  }

  lemma TallyCounts(w: Window, q: Query, g: Grouping, key: u64, p: HealEvent -> bool)
    requires forall e :: p(e) <==> Asked(w, q, e) && KeyOf(g, e) == key
    ensures key in FullTally(w, q, g) <==> Where(w.src.stats.events, p) != []
    ensures key in FullTally(w, q, g) ==> AddUp(FullTally(w, q, g)[key], Where(w.src.stats.events, p))
  {
    var events := w.src.stats.events;
    forall e ensures p(e) <==> Counts(w, q, e) && KeyOf(g, e) in {key} {
      CountsMeans(w, q, e);
    }
    assert events[..|events|] == events;
    TallyAt(w, q, g, key, |events|);
    hide Asked, Counts, Tally, TotalIn, KeyOf;
    TotalInAddsUp(w, q, g, {key}, |events|, p);
  }

  /** `row` is the row of a listed skill. */
  ghost predicate SkillRow(w: Window, tally: map<u64, Sums>, ids: seq<u64>, row: Entry) {
    && row.id in ids && row.id in tally && (w.debug || row.id !in w.src.indirect)
    && row == Entry(row.id, SkillLabel(w, row.id), CombatTime(w), tally[row.id])
  }

  lemma {:induction false} SkillEntryIds(w: Window, tally: map<u64, Sums>, ids: seq<u64>)
    requires AllIn(ids, tally) && Increasing(ids)
    ensures forall row :: row in SkillEntries(w, tally, ids) ==> SkillRow(w, tally, ids, row)
    ensures forall j, k :: 0 <= j < k < |SkillEntries(w, tally, ids)| ==> SkillEntries(w, tally, ids)[j].id < SkillEntries(w, tally, ids)[k].id
  {
    hide SkillLabel, CombatTime;
    if ids != [] {
      var less, last := ids[..|ids| - 1], ids[|ids| - 1];
      SkillEntryIds(w, tally, less);
      forall id | id in less ensures id in ids && id < last {
        var k :| 0 <= k < |less| && less[k] == id;
        assert ids[k] == id;
      }
      var before := SkillEntries(w, tally, less);
      assert forall row :: row in before ==> SkillRow(w, tally, less, row);
      forall k | 0 <= k < |before| ensures before[k].id < last {
        assert before[k] in before;
      }
      assert forall j, k :: 0 <= j < k < |before| ==> before[j].id < before[k].id;
    }
  }

  lemma {:induction false} SkillEntryOf(w: Window, tally: map<u64, Sums>, ids: seq<u64>, id: u64)
    requires AllIn(ids, tally) && id in ids && (w.debug || id !in w.src.indirect)
    ensures exists k :: 0 <= k < |SkillEntries(w, tally, ids)| && SkillEntries(w, tally, ids)[k].id == id
  {
    hide SkillLabel, CombatTime;
    var rows := SkillEntries(w, tally, ids);
    if ids[|ids| - 1] == id {
      assert rows[|rows| - 1].id == id;
    } else {
      SkillEntryOf(w, tally, ids[..|ids| - 1], id);
      var k :| 0 <= k < |SkillEntries(w, tally, ids[..|ids| - 1])| && SkillEntries(w, tally, ids[..|ids| - 1])[k].id == id;
      assert rows[k].id == id;
    }
  }

  lemma {:induction false} AgentEntryIds(w: Window, tally: map<u64, Sums>, ids: seq<u64>)
    requires AllIn(ids, tally)
    ensures var rows := AgentEntries(w, tally, ids);
            && |rows| == |ids|
            && forall k :: 0 <= k < |rows| ==> rows[k] == Entry(ids[k], AgentLabel(w, ids[k]), CombatTime(w), tally[ids[k]])
  {
    hide AgentLabel, CombatTime;
    if ids != [] {
      AgentEntryIds(w, tally, ids[..|ids| - 1]);
    }
  }

  lemma SkillEntriesAt(w: Window, tally: map<u64, Sums>, ids: seq<u64>, id: u64)
    requires AllIn(ids, tally) && Increasing(ids)
    ensures var rows := SkillEntries(w, tally, ids);
            && (forall j, k :: 0 <= j < k < |rows| ==> rows[j].id < rows[k].id)
            && ((exists k :: 0 <= k < |rows| && rows[k].id == id) <==> id in ids && (w.debug || id !in w.src.indirect))
            && (forall k :: 0 <= k < |rows| && rows[k].id == id ==>
                  id in tally && rows[k] == Entry(id, SkillLabel(w, id), CombatTime(w), tally[id]))
  {
    SkillEntryIds(w, tally, ids);
    if id in ids && (w.debug || id !in w.src.indirect) {
      SkillEntryOf(w, tally, ids, id);
    }
    var rows := SkillEntries(w, tally, ids);
    hide SkillEntries, SkillLabel, CombatTime, Increasing;
    forall k | 0 <= k < |rows| ensures SkillRow(w, tally, ids, rows[k]) {
      assert rows[k] in rows;
    }
  }

  /** The skill rows before the common one: exactly one for each skill with events, unless it is indirect and only shown in debug mode;
      each adds up the events of its skill. */
  lemma SkillRowsCount(w: Window, q: Query, id: u64, p: HealEvent -> bool)
    requires forall e :: p(e) <==> Asked(w, q, e) && e.skillId as u64 == id
    ensures var tally := FullTally(w, q, BySkill);
            AllIn(Ascending(tally.Keys), tally) && SkillEntries(w, tally, Ascending(tally.Keys)) <= SkillRows(w, q)
    ensures var tally := FullTally(w, q, BySkill);
            var rows := SkillEntries(w, tally, Ascending(tally.Keys));
            && (forall j, k :: 0 <= j < k < |rows| ==> rows[j].id < rows[k].id)
            && ((exists k :: 0 <= k < |rows| && rows[k].id == id) <==>
                  Where(w.src.stats.events, p) != [] && (w.debug || id !in w.src.indirect))
            && (forall k :: 0 <= k < |rows| && rows[k].id == id ==>
                  && AddUp(rows[k].sums, Where(w.src.stats.events, p))
                  && rows[k].name == SkillLabel(w, id) && rows[k].time == CombatTime(w))
  {
    hide FullTally, Ascending, SkillLabel, CombatTime, Asked, AddUp, Increasing, SkillEntries, Where, Elements, NoRepeats, IndirectSums, Lump;
    var tally := FullTally(w, q, BySkill);
    var ids := Ascending(tally.Keys);
    AllKeys(ids, tally);
    TallyCounts(w, q, BySkill, id, p);
    AscendingIncreases(tally.Keys);
    InIds(ids, id);
    SkillEntriesAt(w, tally, ids, id);
  }

  lemma InIds(ids: seq<u64>, id: u64)
    ensures id in Elements(ids) <==> id in ids
  {
  }

  /** The common row of the indirect skills is there exactly if any of them has an event and debug mode does not matter to it; it
      adds up their events. */
  lemma CommonRowCounts(w: Window, q: Query, p: HealEvent -> bool)
    requires forall e :: p(e) <==> Asked(w, q, e) && e.skillId as u64 in w.src.indirect
    ensures var tally := FullTally(w, q, BySkill);
            var n, rows := |SkillEntries(w, tally, Ascending(tally.Keys))|, SkillRows(w, q);
            if Where(w.src.stats.events, p) == [] then |rows| == n
            else |rows| == n + 1 && rows[n].id == 0 && rows[n].time == CombatTime(w) && AddUp(rows[n].sums, Where(w.src.stats.events, p))
  {
    var tally := FullTally(w, q, BySkill);
    var ids := Ascending(tally.Keys);
    AllKeys(ids, tally);
    var events := w.src.stats.events;
    forall e ensures p(e) <==> Counts(w, q, e) && KeyOf(BySkill, e) in w.src.indirect {
      CountsMeans(w, q, e);
    }
    assert events[..|events|] == events;
    IndirectConserves(w, q, ids);
    NoneTallied(w, q, BySkill, w.src.indirect, |events|);
    hide FullTally, Tally, TotalIn, Counts, Asked, CombatTime, Ascending, SkillEntries, IndirectLabel, Elements;
    TotalInAddsUp(w, q, BySkill, w.src.indirect, |events|, p);
  }

  /** The agent rows: exactly one for each agent with events, adding them up. */
  lemma AgentRowsCount(w: Window, q: Query, id: u64, p: HealEvent -> bool)
    requires forall e :: p(e) <==> Asked(w, q, e) && e.agentId == id
    ensures var rows := AgentRows(w, q);
            && (forall j, k :: 0 <= j < k < |rows| ==> rows[j].id < rows[k].id)
            && ((exists k :: 0 <= k < |rows| && rows[k].id == id) <==> Where(w.src.stats.events, p) != [])
            && (forall k :: 0 <= k < |rows| && rows[k].id == id ==>
                  && AddUp(rows[k].sums, Where(w.src.stats.events, p))
                  && rows[k].name == AgentLabel(w, id) && rows[k].time == CombatTime(w))
  {
    var tally := FullTally(w, q, ByAgent);
    var ids := Ascending(tally.Keys);
    AllKeys(ids, tally);
    TallyCounts(w, q, ByAgent, id, p);
    AscendingIncreases(tally.Keys);
    InIds(ids, id);
    hide FullTally, Ascending, AgentLabel, CombatTime, Asked, AddUp;
    AgentEntryIds(w, tally, ids);
    var rows := AgentRows(w, q);
    if id in ids {
      var k :| 0 <= k < |ids| && ids[k] == id;
      assert rows[k].id == id;
    }
  }

  // ----- The order of the rows

  /** What each sort order says of a row and any later one. */
  lemma SortedMeans(order: SortOrder, rows: seq<Entry>, j: nat, k: nat)
    requires j < k < |Sorted(order, rows)|
    ensures var a, b := Sorted(order, rows)[j], Sorted(order, rows)[k];
            match order
            case AscendingAlphabetical => NameLeq(a.name, b.name)
            case DescendingAlphabetical => NameLeq(b.name, a.name)
            case AscendingTotalOutgoingSize => a.sums.healing <= b.sums.healing
            case DescendingTotalOutgoingSize => a.sums.healing >= b.sums.healing
            case AscendingHealSize => HealSize(a) <= HealSize(b)
            case DescendingHealSize => HealSize(a) >= HealSize(b)
            case AscendingBarrierGenerationSize => a.sums.barrier <= b.sums.barrier
            case DescendingBarrierGenerationSize => a.sums.barrier >= b.sums.barrier
  {
    SortedPermutes(order, rows);
    NameOrder();
    hide Sorted, SumRows, HealSize, NameLeq;
  }

  /** No row has more healing than the number that the bars are drawn by, and with any healing some row has as much. */
  ghost predicate IsHighest(v: Vector) {
    && (forall row :: row in v.entries ==> row.sums.healing <= v.highestHealing)
    && (v.highestHealing > 0 ==> exists row :: row in v.entries && row.sums.healing == v.highestHealing)
  }

  lemma SortedHighest(order: SortOrder, rows: seq<Entry>)
    ensures IsHighest(Vector(Sorted(order, rows), Highest(rows)))
  {
    SortedPermutes(order, rows);
    hide Sorted, InOrder, SumRows, Highest;
    forall row ensures row in Sorted(order, rows) <==> row in rows {
      assert row in multiset(Sorted(order, rows)) <==> row in multiset(rows);
    }
    if Highest(rows) > 0 {
      var k :| 0 <= k < |rows| && rows[k].sums.healing == Highest(rows);
      assert rows[k] in Sorted(order, rows);
    }
  }

  /** The highest healing of every list is that of its rows. */
  lemma HighestMeans(w: Window, q: Query, p: Players)
    ensures IsHighest(SkillVector(w, q)) && IsHighest(AgentVector(w, q)) && IsHighest(GroupVector(w))
    ensures p.windows.Keys == p.names.Keys ==> IsHighest(PeersVector(p))
  {
    SortedHighest(w.options.sortOrder, SkillRows(w, q));
    SortedHighest(w.options.sortOrder, AgentRows(w, q));
    UnsortedHighest(GroupRows(w));
    hide Sorted, SkillRows, AgentRows, Highest, IsHighest, GroupRows, PlayerRows;
    if p.windows.Keys == p.names.Keys {
      var ids := Ascending(p.windows.Keys);
      AllKnown(p, ids);
      SortedHighest(p.sortOrder, PlayerRows(p, ids));
    }
  }

  lemma UnsortedHighest(rows: seq<Entry>)
    ensures IsHighest(Vector(rows, Highest(rows)))
  {
    hide Highest;
    if Highest(rows) > 0 {
      var k :| 0 <= k < |rows| && rows[k].sums.healing == Highest(rows);
      assert rows[k] in rows;
    }
  }

  // ----- Labels

  function Digits(text: seq<u8>): int {
    if text == [] then 0 else 10 * Digits(text[..|text| - 1]) + (text[|text| - 1] as int - 48)
  }

  lemma {:induction false} DecimalReads(n: nat)
    ensures Digits(Decimal(n)) == n && Decimal(n) != [] && forall k :: 0 <= k < |Decimal(n)| ==> 48 <= Decimal(n)[k] <= 57
  {
    if n < 10 {
      assert Decimal(n)[..0] == [];
    } else {
      DecimalReads(n / 10);
      var less := Decimal(n / 10);
      assert Decimal(n)[..|Decimal(n)| - 1] == less;
    }
  }

  /** Outside debug mode a row is labelled with the name, or if there is none with the decimal digits of the id. */
  lemma LabelsMean(w: Window, id: u64)
    requires !w.debug
    ensures if id in w.src.skillNames then SkillLabel(w, id) == w.src.skillNames[id] else Digits(SkillLabel(w, id)) == id
    ensures if id in w.src.agents then AgentLabel(w, id) == w.src.agents[id].name else Digits(AgentLabel(w, id)) == id
  {
    DecimalReads(id);
  }

  // ----- Which rows answer which question

  lemma SourcesMean(w: Window)
    ensures multiset(StatsOf(w, Skills).entries) == multiset(SkillRows(w, Everything(w)))
    ensures multiset(StatsOf(w, Agents).entries) == multiset(AgentRows(w, Everything(w)))
    ensures StatsOf(w, Totals).entries == StatsOf(w, Combined).entries == GroupRows(w)
    ensures forall e :: Asked(w, Everything(w), e) <==> InWindow(w, e) && !FilteredOut(w.src, e.agentId, w.options.agents)
  {
    SortedPermutes(w.options.sortOrder, SkillRows(w, Everything(w)));
    SortedPermutes(w.options.sortOrder, AgentRows(w, Everything(w)));
    hide Sorted, SkillRows, AgentRows, Highest, InOrder, SumRows, InWindow, FilteredOut, GroupRows;
  }

  /** Details of a skill are the agents that it went to, and details of an agent are the skills, of whatever filter. */
  lemma DetailsMean(w: Window, dataSource: DataSource, id: u64)
    ensures var details := DetailsOf(w, dataSource, id).entries;
            if dataSource.Skills? then multiset(details) == multiset(AgentRows(w, OfSkill(w, id % 0x1_0000_0000)))
            else multiset(details) == multiset(SkillRows(w, OfAgent(w, id)))
    ensures forall e :: Asked(w, OfSkill(w, id), e) <==> InWindow(w, e) && e.skillId == id && !FilteredOut(w.src, e.agentId, w.options.agents)
    ensures forall e :: Asked(w, OfAgent(w, id), e) <==> InWindow(w, e) && e.agentId == id
  {
    SortedPermutes(w.options.sortOrder, AgentRows(w, OfSkill(w, id % 0x1_0000_0000)));
    SortedPermutes(w.options.sortOrder, SkillRows(w, OfAgent(w, id)));
    hide Sorted, SkillRows, AgentRows, Highest, InOrder, SumRows, InWindow, FilteredOut;
  }

  lemma {:induction false} PlayerRowAt(p: Players, ids: seq<u64>)
    requires p.Known(ids)
    ensures var rows := PlayerRows(p, ids);
            && |rows| == |ids|
            && forall k :: 0 <= k < |ids| ==>
                 var w := p.windows[ids[k]]; rows[k] == Entry(ids[k], p.names[ids[k]], CombatTime(w), TotalRow(w).sums)
  {
    hide TotalRow, CombatTime;
    if ids != [] {
      PlayerRowAt(p, ids[..|ids| - 1]);
    }
  }

  /** The peers' list has exactly one row for each player, with the player's name, combat time and total; a player's details are the
      player's skills, and the peers' total has the local player's combat time. */
  lemma PlayersMean(p: Players, id: u64)
    requires p.windows.Keys == p.names.Keys && id in p.windows
    ensures var ids := Ascending(p.windows.Keys);
            && p.Known(ids) && Increasing(ids) && id in ids && |PlayerRows(p, ids)| == |ids|
            && multiset(PeersVector(p).entries) == multiset(PlayerRows(p, ids))
            && forall k :: 0 <= k < |ids| ==>
                 var w := p.windows[ids[k]]; PlayerRows(p, ids)[k] == Entry(ids[k], p.names[ids[k]], CombatTime(w), TotalRow(w).sums)
    ensures multiset(PeerDetails(p, id).entries) == multiset(SkillRows(p.windows[id], Everything(p.windows[id])))
    ensures PeersTotalRow(p, id).time == CombatTime(p.windows[id])
  {
    var ids := Ascending(p.windows.Keys);
    AllKnown(p, ids);
    InIds(ids, id);
    AscendingIncreases(p.windows.Keys);
    hide Sorted, TotalRow, CombatTime, Highest, InOrder, SumRows, SkillRows, StatsOf, PlayerRows, Increasing;
    PlayerRowAt(p, ids);
    SortedPermutes(p.sortOrder, PlayerRows(p, ids));
    SourcesMean(p.windows[id]);
  }
}
