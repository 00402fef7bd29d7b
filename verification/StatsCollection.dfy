/** The statistics of all players together (src/AggregatedStatsCollection.cpp). */
module StatsCollection {
  import opened CombatEvents
  import opened Order
  import opened Aggregation
  import opened Rows
  import opened WindowTotals
  import opened AggregatedStatistics

  /** The players that have a name and a window each. */
  datatype Players = Players(windows: map<u64, Window>, names: map<u64, seq<u8>>, sortOrder: SortOrder) {
    ghost predicate Known(ids: seq<u64>) {
      forall k :: 0 <= k < |ids| ==> ids[k] in windows && ids[k] in names
    }
  }

  ghost function PlayerRow(p: Players, id: u64): Entry
    requires id in p.windows && id in p.names
  {
    Entry(id, p.names[id], CombatTime(p.windows[id]), TotalRow(p.windows[id]).sums)
  }

  ghost function PlayerRows(p: Players, ids: seq<u64>): seq<Entry>
    requires p.Known(ids)
  {
    if ids == [] then [] else PlayerRows(p, ids[..|ids| - 1]) + [PlayerRow(p, ids[|ids| - 1])]
  }

  /** The players' events that pass their windows' filters, and in debug mode their indirect parts once more. */
  ghost function FilteredOf(w: Window): Sums {
    if w.debug then Plus(FullTotal(w, Everything(w)), IndirectPart(w, Everything(w))) else FullTotal(w, Everything(w))
  }

  ghost function SumPlayers(p: Players, ids: seq<u64>): Sums
    requires p.Known(ids)
  {
    if ids == [] then Nothing() else Plus(SumPlayers(p, ids[..|ids| - 1]), FilteredOf(p.windows[ids[|ids| - 1]]))
  }

  ghost function PeersVector(p: Players): Vector
    requires p.windows.Keys == p.names.Keys
  {
    var ids := Ascending(p.windows.Keys);
    AllKnown(p, ids);
    Vector(Sorted(p.sortOrder, PlayerRows(p, ids)), Highest(PlayerRows(p, ids)))
  }

  ghost function PeersTotalRow(p: Players, localId: u64): Entry
    requires p.windows.Keys == p.names.Keys && localId in p.windows
  {
    Entry(0, Ascii("__SUPERTOTAL__"), CombatTime(p.windows[localId]), SumRows(PeersVector(p).entries))
  }

  ghost function PeerDetails(p: Players, id: u64): Vector {
    if id in p.windows then StatsOf(p.windows[id], Skills) else Vector([], 0)
  }

  lemma AllKnown(p: Players, ids: seq<u64>)
    requires p.windows.Keys == p.names.Keys && Elements(ids) == p.windows.Keys
    ensures p.Known(ids)
  {
    forall k | 0 <= k < |ids| ensures ids[k] in p.windows {
      assert ids[k] in Elements(ids);
    }
  }

  lemma PlayerSum(p: Players, id: u64)
    requires id in p.windows && id in p.names
    ensures PlayerRow(p, id).sums == FilteredOf(p.windows[id])
  {
    Conservation(p.windows[id]);
    hide SumRows, TotalRow, SkillVector, AgentVector, FullTotal, IndirectPart, CombatTime;
  }

  lemma {:induction false} PlayerRowsSum(p: Players, ids: seq<u64>)
    requires p.Known(ids)
    ensures SumRows(PlayerRows(p, ids)) == SumPlayers(p, ids)
  {
    if ids != [] {
      var less, last := ids[..|ids| - 1], ids[|ids| - 1];
      PlayerRowsSum(p, less);
      PlayerSum(p, last);
      SumRowsAppend(PlayerRows(p, less), PlayerRow(p, last));
      hide SumRows, FilteredOf, PlayerRow;
    }
  }

  lemma NoRows(p: Players, ids: seq<u64>)
    ensures p.Known(ids[..0]) && PlayerRows(p, ids[..0]) == []
  {
  }

  lemma PlayerRowsStep(p: Players, ids: seq<u64>, k: nat)
    requires p.Known(ids) && k < |ids|
    ensures p.Known(ids[..k]) && p.Known(ids[..k + 1]) && ids[k] in p.windows && ids[k] in p.names
    ensures PlayerRows(p, ids[..k + 1]) == PlayerRows(p, ids[..k]) + [PlayerRow(p, ids[k])]
  {
    assert ids[..k + 1][..k] == ids[..k];
  }

  lemma {:induction false} PlayerRowsAre(p: Players, ids: seq<u64>)
    requires p.Known(ids)
    ensures forall k :: 0 <= k < |PlayerRows(p, ids)| ==>
              var row := PlayerRows(p, ids)[k]; row.id in p.windows && row.id in p.names && row == PlayerRow(p, row.id)
  {
    if ids != [] {
      PlayerRowsAre(p, ids[..|ids| - 1]);
      hide TotalRow, CombatTime;
    }
  }

  /** The peers' total is the sum over the players, each counted once, of the events that pass that player's filters. */
  lemma PeersTotalConserves(p: Players)
    requires p.windows.Keys == p.names.Keys
    ensures var ids := Ascending(p.windows.Keys);
            p.Known(ids) && SumRows(PeersVector(p).entries) == SumPlayers(p, ids)
  {
    var ids := Ascending(p.windows.Keys);
    AllKnown(p, ids);
    PlayerRowsSum(p, ids);
    SortedPermutes(p.sortOrder, PlayerRows(p, ids));
    hide SumRows, Sorted, PlayerRows, SumPlayers, InOrder;
  }

  /** Drilling down from a player: the skill rows add up to the player's row. */
  lemma PlayerDetailsAgree(p: Players, row: Entry)
    requires p.windows.Keys == p.names.Keys && row in PeersVector(p).entries
    ensures row.id in p.windows
    ensures var w := p.windows[row.id]; SumRows(SkillVector(w, Everything(w)).entries) == row.sums
  {
    var ids := Ascending(p.windows.Keys);
    AllKnown(p, ids);
    PlayerRowsAre(p, ids);
    SortedPermutes(p.sortOrder, PlayerRows(p, ids));
    assert row in multiset(PlayerRows(p, ids));
    hide SumRows, Sorted, PlayerRows, SumPlayers, InOrder, SkillVector;
  }

  lemma PlayerRowBarrier(p: Players, id: u64)
    requires id in p.windows && id in p.names
    ensures PlayerRow(p, id).sums.barrier <= PlayerRow(p, id).sums.healing
  {
    var w := p.windows[id];
    PlayerSum(p, id);
    TotalBarrier(w, Everything(w), |w.src.stats.events|);
    TotalInBarrier(w, Everything(w), BySkill, w.src.indirect, |w.src.stats.events|);
    hide PlayerRow, Total, TotalIn;
  }

  lemma {:induction false} PlayerRowsBarrier(p: Players, ids: seq<u64>)
    requires p.Known(ids)
    ensures BarrierWithin(PlayerRows(p, ids))
  {
    if ids != [] {
      PlayerRowsBarrier(p, ids[..|ids| - 1]);
      PlayerRowBarrier(p, ids[|ids| - 1]);
      hide PlayerRow;
    }
  }

  /** In every row of the peers' list barrier is at most healing, so its heal-size comparators do not wrap around either. */
  lemma PeersHealSizeDoesNotWrap(p: Players, row: Entry)
    requires p.windows.Keys == p.names.Keys && row in PeersVector(p).entries
    ensures row.sums.barrier <= row.sums.healing
    ensures row.sums.healing < U64_RANGE ==> HealSize(row) == row.sums.healing - row.sums.barrier
  {
    var ids := Ascending(p.windows.Keys);
    AllKnown(p, ids);
    hide Sorted, PlayerRows, BarrierWithin, HealSize, Ascending;
    PlayerRowsBarrier(p, ids);
    SortedHealSizes(p.sortOrder, PlayerRows(p, ids), row);
  }

  class AggregatedStatsCollection {
    const players: map<u64, AggregatedStats>
    const names: map<u64, seq<u8>>
    const localId: u64
    const sortOrder: SortOrder
    var peersOutgoingStats: Option<Vector>
    var peersOutgoingTotal: Option<Entry>

    ghost const p: Players                      // the players' windows and names
    ghost const objects: set<AggregatedStats>

    ghost predicate Describes() {
      && p.windows.Keys == p.names.Keys == players.Keys && localId in players && p.names == names && p.sortOrder == sortOrder
      && forall id :: id in players ==> p.windows[id] == players[id].w && players[id] in objects
    }

    ghost predicate Valid()
      reads this, objects
    {
      && Describes()
      && (forall id :: id in players ==> players[id].Valid())
      && (peersOutgoingStats.Some? ==> peersOutgoingStats.value == PeersVector(p))
      && (peersOutgoingTotal.Some? ==> peersOutgoingTotal.value == PeersTotalRow(p, localId))
    }

    constructor (players: map<u64, AggregatedStats>, names: map<u64, seq<u8>>, localId: u64, sortOrder: SortOrder)
      requires players.Keys == names.Keys && localId in players && forall id :: id in players ==> players[id].Valid()
      ensures Valid() && this.players == players && this.names == names && this.localId == localId && this.sortOrder == sortOrder
    {
      hide PeersVector, PeersTotalRow, AggregatedStats.Valid;
      this.players, this.names, this.localId, this.sortOrder := players, names, localId, sortOrder;
      p := Players(map id | id in players :: players[id].w, names, sortOrder);
      objects := players.Values;
      peersOutgoingStats, peersOutgoingTotal := None, None;
    }

    method GetStats(dataSource: DataSource) returns (v: Vector)
      requires Valid()
      modifies this, objects
      ensures Valid() && v == if dataSource == PeersOutgoing then PeersVector(p) else StatsOf(p.windows[localId], dataSource)
    {
      hide StatsOf, PeersVector, AggregatedStats.Valid;
      if dataSource != PeersOutgoing {
        v := players[localId].GetStats(dataSource);
        return;
      }
      if peersOutgoingStats.Some? {
        return peersOutgoingStats.value;
      }
      v := ListPlayers();
      peersOutgoingStats := Some(v);
    }

    method ListPlayers() returns (v: Vector)
      requires Valid()
      modifies objects
      ensures Valid() && v == PeersVector(p)
    {
      var ids := AscendingIds(players.Keys);
      AllKnown(p, ids);
      hide Valid, Sorted, Highest, PlayerRows, Ascending, Elements;
      v := CollectPlayers(ids);
      v := v.(entries := Sorted(sortOrder, v.entries));
    }

    /** One row for each player's total. */
    method CollectPlayers(ids: seq<u64>) returns (v: Vector)
      requires Valid() && p.Known(ids)
      modifies objects
      ensures Valid() && v.entries == PlayerRows(p, ids) && v.highestHealing == Highest(v.entries)
    {
      hide *;
      NoRows(p, ids);
      KnownPlayers(ids);
      v := Vector([], 0);
      NoneHighest();
      for k := 0 to |ids|
        invariant Valid()
        invariant p.Known(ids[..k]) && v.entries == PlayerRows(p, ids[..k]) && v.highestHealing == Highest(v.entries)
      {
        PlayerRowsStep(p, ids, k);
        var row := RowOf(ids[k]);
        v := Add(v, row);
      }
      assert ids[..|ids|] == ids;
    }

    lemma KnownPlayers(ids: seq<u64>)
      requires Valid() && p.Known(ids)
      ensures forall k :: 0 <= k < |ids| ==> ids[k] in players
    {
    }

    method RowOf(id: u64) returns (row: Entry)
      requires Valid() && id in players
      modifies objects
      ensures Valid() && row == PlayerRow(p, id)
    {
      hide PeersVector, TotalRow, CombatTime, AggregatedStats.Valid;
      var total := players[id].GetTotal();
      var time := players[id].GetCombatTime();
      row := Entry(id, names[id], time, total.sums);
    }

    method GetTotal(dataSource: DataSource) returns (row: Entry)
      requires Valid()
      modifies this, objects
      ensures Valid() && row == if dataSource == PeersOutgoing then PeersTotalRow(p, localId) else TotalRow(p.windows[localId])
    {
      hide PeersVector, TotalRow, CombatTime, AggregatedStats.Valid, StatsOf, SumRows, Ascii;
      if dataSource != PeersOutgoing {
        row := players[localId].GetTotal();
        return;
      }
      if peersOutgoingTotal.Some? {
        return peersOutgoingTotal.value;
      }
      var v := GetStats(dataSource);
      var sums := SumEntries(v.entries);
      var time := players[localId].GetCombatTime();
      row := Entry(0, Ascii("__SUPERTOTAL__"), time, sums);
      peersOutgoingTotal := Some(row);
    }

    method GetDetails(dataSource: DataSource, id: u64) returns (v: Vector)
      requires Valid()
      modifies this, objects
      ensures Valid() && v == if dataSource == PeersOutgoing then PeerDetails(p, id) else DetailsOf(p.windows[localId], dataSource, id)
    {
      hide StatsOf, DetailsOf, PeersVector, PeersTotalRow, AggregatedStats.Valid;
      if dataSource != PeersOutgoing {
        v := players[localId].GetDetails(dataSource, id);
        return;
      }
      if id !in players {
        return Vector([], 0);
      }
      v := players[id].GetStats(Skills);
    }
  }
}
