/** The objects behind a statistics window, which compute their lists once and then answer from their caches
    (src/AggregatedStats.cpp, src/AggregatedStatsCollection.cpp). */
module AggregatedStatistics {
  import opened CombatEvents
  import opened Order
  import opened PlayerStatistics
  import opened Aggregation
  import opened Rows
  import opened WindowTotals

  /** The order in which a loop over a map meets its keys. */
  method AscendingIds(ids: set<u64>) returns (r: seq<u64>)
    ensures r == Ascending(ids)
  {
    IdOrder();
    r := [];
    var todo := ids;
    while todo != {}
      invariant r + Ascending(todo) == Ascending(ids)
      decreases |todo|
    {
      var id := FirstId(todo);
      AscendingFirst(todo, id);
      Moved(r, id, Ascending(todo - {id}));
      r := r + [id];
      todo := todo - {id};
    }
  }

  lemma Moved<T>(done: seq<T>, x: T, todo: seq<T>)
    ensures done + ([x] + todo) == (done + [x]) + todo
  {
  }

  lemma AscendingFirst(ids: set<u64>, first: u64)
    requires IsLeast(IdLeq, first, ids)
    ensures Ascending(ids) == [first] + Ascending(ids - {first})
  {
    IdOrder();
    forall other | IsLeast(IdLeq, other, ids) ensures other == first {
      LeastUnique(IdLeq, ids, other, first);
    }
  }

  lemma HighestAppend(rows: seq<Entry>, row: Entry)
    ensures Highest(rows + [row]) == if row.sums.healing > Highest(rows) then row.sums.healing else Highest(rows)
  {
    assert (rows + [row])[..|rows + [row]| - 1] == rows;
  }

  /** `AggregatedVector::Add`. */
  method Add(v: Vector, row: Entry) returns (v': Vector)
    requires v.highestHealing == Highest(v.entries)
    ensures v'.entries == v.entries + [row] && v'.highestHealing == Highest(v'.entries)
  {
    HighestAppend(v.entries, row);
    v' := Vector(v.entries + [row], if row.sums.healing > v.highestHealing then row.sums.healing else v.highestHealing);
  }

  datatype DataSource = Agents | Skills | Totals | Combined | PeersOutgoing

  ghost function StatsOf(w: Window, dataSource: DataSource): Vector {
    match dataSource
    case Skills => SkillVector(w, Everything(w))
    case Agents => AgentVector(w, Everything(w))
    case _ => GroupVector(w)
  }

  ghost function DetailsOf(w: Window, dataSource: DataSource, id: u64): Vector {
    if dataSource == Skills then AgentVector(w, OfSkill(w, id % 0x1_0000_0000)) else SkillVector(w, OfAgent(w, id))
  }

  class AggregatedStats {
    const w: Window
    var combatTime: Option<nat>
    var total: Option<Entry>
    var filteredAgents: Option<Vector>
    var skills: Option<Vector>
    var groupFilterTotals: Option<Vector>
    var agentsDetailed: map<u64, Vector>
    var skillsDetailed: map<u64, Vector>

    /** Whatever is cached is what a fresh computation gives. */
    ghost predicate Valid()
      reads this
    {
      && (combatTime.Some? ==> combatTime.value == CombatTime(w))
      && (total.Some? ==> total.value == TotalRow(w))
      && (filteredAgents.Some? ==> filteredAgents.value == AgentVector(w, Everything(w)))
      && (skills.Some? ==> skills.value == SkillVector(w, Everything(w)))
      && (groupFilterTotals.Some? ==> groupFilterTotals.value == GroupVector(w))
      && (forall id :: id in agentsDetailed ==> agentsDetailed[id] == SkillVector(w, OfAgent(w, id)))
      && (forall id :: id in skillsDetailed ==> skillsDetailed[id] == AgentVector(w, OfSkill(w, id)))
    }

    constructor (w: Window)
      ensures Valid() && this.w == w
    {
      this.w := w;
      combatTime, total, filteredAgents, skills, groupFilterTotals := None, None, None, None, None;
      agentsDetailed, skillsDetailed := map[], map[];
    }

    method GetCombatTime() returns (time: nat)
      requires Valid()
      modifies this
      ensures Valid() && time == CombatTime(w)
    {
      hide SkillVector, AgentVector, GroupVector, TotalRow;
      if combatTime.Some? {
        return combatTime.value;
      }
      if w.src.stats.enteredCombatTime == 0 {
        time := 0;
      } else {
        var end := CombatEnd(w);
        assert end >= w.src.stats.enteredCombatTime;
        time := end - w.src.stats.enteredCombatTime;
      }
      assert time == CombatTime(w);
      hide CombatTime, CombatEnd;
      combatTime := Some(time);
    }

    /** The loop over the events in `GetAgents` and `GetSkills`. */
    method Group(q: Query, g: Grouping) returns (tally: map<u64, Sums>)
      ensures tally == FullTally(w, q, g)
    {
      tally := map[];
      var events := w.src.stats.events;
      for n := 0 to |events|
        invariant tally == Tally(w, q, g, n)
      {
        if Counts(w, q, events[n]) {
          var key := KeyOf(g, events[n]);
          if key !in tally {
            tally := tally[key := Nothing()];
          }
          tally := tally[key := Plus(tally[key], One(events[n]))];
        }
      }
    }

    method ListSkills(q: Query) returns (v: Vector)
      ensures v == SkillVector(w, q)
    {
      var tally := Group(q, BySkill);
      var ids := AscendingIds(tally.Keys);
      AllKeys(ids, tally);
      assert SkillRows(w, q) == SkillEntries(w, tally, ids) + Lump(w, IndirectSums(w, tally, ids));
      hide SkillRows, FullTally, Ascending, Elements, NoRepeats, Sorted, Highest, CombatTime, IndirectSums;
      var rows, indirect := CollectSkills(tally, ids);
      if indirect != Nothing() {
        rows := Add(rows, Entry(INDIRECT_SKILL_ID, IndirectLabel(), CombatTime(w), indirect));
      }
      assert rows.entries == SkillRows(w, q);
      v := rows.(entries := Sorted(w.options.sortOrder, rows.entries));
    }

    method CollectSkills(tally: map<u64, Sums>, ids: seq<u64>) returns (v: Vector, indirect: Sums)
      requires AllIn(ids, tally)
      ensures v.entries == SkillEntries(w, tally, ids) && v.highestHealing == Highest(v.entries)
      ensures indirect == IndirectSums(w, tally, ids)
    {
      hide SkillLabel, CombatTime, Highest;
      v, indirect := Vector([], 0), Nothing();
      NoneHighest();
      for k := 0 to |ids|
        invariant v.entries == SkillEntries(w, tally, ids[..k]) && v.highestHealing == Highest(v.entries)
        invariant indirect == IndirectSums(w, tally, ids[..k])
      {
        var id := ids[k];
        assert ids[..k + 1][..k] == ids[..k];
        if id in w.src.indirect {
          indirect := Plus(indirect, tally[id]);
        }
        if !(id in w.src.indirect && !w.debug) {
          v := Add(v, Entry(id, SkillLabel(w, id), CombatTime(w), tally[id]));
        }
      }
      assert ids[..|ids|] == ids;
    }

    method ListAgents(q: Query) returns (v: Vector)
      ensures v == AgentVector(w, q)
    {
      var tally := Group(q, ByAgent);
      var ids := AscendingIds(tally.Keys);
      AllKeys(ids, tally);
      assert AgentRows(w, q) == AgentEntries(w, tally, ids);
      hide AgentRows, FullTally, Ascending, Elements, NoRepeats, Sorted, Highest;
      var rows := CollectAgents(tally, ids);
      v := rows.(entries := Sorted(w.options.sortOrder, rows.entries));
    }

    method CollectAgents(tally: map<u64, Sums>, ids: seq<u64>) returns (v: Vector)
      requires AllIn(ids, tally)
      ensures v.entries == AgentEntries(w, tally, ids) && v.highestHealing == Highest(v.entries)
    {
      hide AgentLabel, CombatTime, Highest;
      v := Vector([], 0);
      NoneHighest();
      for k := 0 to |ids|
        invariant v.entries == AgentEntries(w, tally, ids[..k]) && v.highestHealing == Highest(v.entries)
      {
        assert ids[..k + 1][..k] == ids[..k];
        v := Add(v, Entry(ids[k], AgentLabel(w, ids[k]), CombatTime(w), tally[ids[k]]));
      }
      assert ids[..|ids|] == ids;
    }

    method GetSkills(agent: Option<u64>) returns (v: Vector)
      requires Valid()
      modifies this
      ensures Valid() && v == SkillVector(w, if agent.Some? then OfAgent(w, agent.value) else Everything(w))
    {
      hide SkillVector, AgentVector, GroupVector, TotalRow, CombatTime;
      if agent.Some? {
        if agent.value in agentsDetailed {
          return agentsDetailed[agent.value];
        }
        v := ListSkills(OfAgent(w, agent.value));
        agentsDetailed := agentsDetailed[agent.value := v];
      } else {
        if skills.Some? {
          return skills.value;
        }
        v := ListSkills(Everything(w));
        skills := Some(v);
      }
    }

    method GetAgents(skill: Option<u32>) returns (v: Vector)
      requires Valid()
      modifies this
      ensures Valid() && v == AgentVector(w, if skill.Some? then OfSkill(w, skill.value) else Everything(w))
    {
      hide SkillVector, AgentVector, GroupVector, TotalRow, CombatTime;
      if skill.Some? {
        if skill.value in skillsDetailed {
          return skillsDetailed[skill.value];
        }
        v := ListAgents(OfSkill(w, skill.value));
        skillsDetailed := skillsDetailed[skill.value as u64 := v];
      } else {
        if filteredAgents.Some? {
          return filteredAgents.value;
        }
        v := ListAgents(Everything(w));
        filteredAgents := Some(v);
      }
    }

    method GetTotal() returns (row: Entry)
      requires Valid()
      modifies this
      ensures Valid() && row == TotalRow(w)
    {
      hide SkillVector, AgentVector, GroupVector, CombatTime;
      if total.Some? {
        return total.value;
      }
      var v := GetSkills(None);
      var sums := SumEntries(v.entries);
      var time := GetCombatTime();
      row := Entry(0, Ascii("__TOTAL__"), time, sums);
      total := Some(row);
    }

    method GetGroupFilterTotals() returns (v: Vector)
      requires Valid()
      modifies this
      ensures Valid() && v == GroupVector(w)
    {
      hide SkillVector, AgentVector, TotalRow, CombatTime;
      if groupFilterTotals.Some? {
        return groupFilterTotals.value;
      }
      hide GroupRows, Highest;
      v := ListGroups();
      groupFilterTotals := Some(v);
    }

    method ListGroups() returns (v: Vector)
      ensures v == GroupVector(w)
    {
      var sums := GroupSums();
      hide Total, Highest, CombatTime, PresetLabel, GroupQuery;
      v := Vector([], 0);
      NoneHighest();
      for i := 0 to 4
        invariant |v.entries| == i && v.highestHealing == Highest(v.entries)
        invariant forall j :: 0 <= j < i ==> v.entries[j] == GroupRow(w, j)
      {
        v := Add(v, Entry(0, PresetLabel(i), CombatTime(w), sums[i]));
      }
      hide GroupRow;
      assert v.entries == GroupRows(w);
    }

    /** Every event is offered to every preset. */
    method GroupSums() returns (sums: seq<Sums>)
      ensures |sums| == 4 && forall i :: 0 <= i < 4 ==> sums[i] == FullTotal(w, GroupQuery(i))
    {
      var events := w.src.stats.events;
      sums := seq(4, _ => Nothing());
      for n := 0 to |events|
        invariant |sums| == 4 && forall i :: 0 <= i < 4 ==> sums[i] == Total(w, GroupQuery(i), n)
      {
        var e := events[n];
        if Passes(w, e) {
          for i := 0 to 4
            invariant |sums| == 4
            invariant forall j :: 0 <= j < i ==> sums[j] == Total(w, GroupQuery(j), n + 1)
            invariant forall j :: i <= j < 4 ==> sums[j] == Total(w, GroupQuery(j), n)
          {
            if !FilteredOut(w.src, e.agentId, Preset(i)) {
              sums := sums[i := Plus(sums[i], One(e))];
            }
          }
        }
      }
    }

    method GetStats(dataSource: DataSource) returns (v: Vector)
      requires Valid()
      modifies this
      ensures Valid() && v == StatsOf(w, dataSource)
    {
      hide Valid;
      match dataSource {
        case Skills => v := GetSkills(None);
        case Agents => v := GetAgents(None);
        case _ => v := GetGroupFilterTotals();
      }
    }

    method GetDetails(dataSource: DataSource, id: u64) returns (v: Vector)
      requires Valid()
      modifies this
      ensures Valid() && v == DetailsOf(w, dataSource, id)
    {
      hide Valid, SkillVector, AgentVector;
      match dataSource {
        case Skills => v := GetAgents(Some(id % 0x1_0000_0000));
        case _ => v := GetSkills(Some(id));
      }
    }
  }

  lemma NoneHighest()
    ensures Highest([]) == 0
  {
  }

  method SumEntries(rows: seq<Entry>) returns (sums: Sums)
    ensures sums == SumRows(rows)
  {
    sums := Nothing();
    for k := 0 to |rows|
      invariant sums == SumRows(rows[..k])
    {
      assert rows[..k + 1][..k] == rows[..k];
      sums := Plus(sums, rows[k].sums);
    }
    assert rows[..|rows|] == rows;
  }
}
