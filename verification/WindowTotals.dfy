/** The order of a window's rows, its totals, and how its lists, details and totals agree with each other
    (src/AggregatedStats.cpp). */
module WindowTotals {
  import opened CombatEvents
  import opened Order
  import opened PlayerStatistics
  import opened Aggregation
  import opened Rows

  // ----- `Sort`

  const U64_RANGE := 0x1_0000_0000_0000_0000

  /** Healing without barrier, as the unsigned difference that the comparators take. */
  function HealSize(e: Entry): nat {
    (e.sums.healing - e.sums.barrier) % U64_RANGE
  }

  predicate NameBefore(a: seq<u8>, b: seq<u8>) {
    NameLeq(a, b) && a != b
  }

  /** The comparator of each sort order. */
  predicate Before(order: SortOrder, a: Entry, b: Entry) {
    match order
    case AscendingAlphabetical => NameBefore(a.name, b.name)
    case DescendingAlphabetical => NameBefore(b.name, a.name)
    case AscendingTotalOutgoingSize => a.sums.healing < b.sums.healing
    case DescendingTotalOutgoingSize => a.sums.healing > b.sums.healing
    case AscendingHealSize => HealSize(a) < HealSize(b)
    case DescendingHealSize => HealSize(a) > HealSize(b)
    case AscendingBarrierGenerationSize => a.sums.barrier < b.sums.barrier
    case DescendingBarrierGenerationSize => a.sums.barrier > b.sums.barrier
  }

  function Insert(order: SortOrder, rows: seq<Entry>, row: Entry): seq<Entry> {
    if rows == [] then [row]
    else
      var last := rows[|rows| - 1];
      if Before(order, row, last) then Insert(order, rows[..|rows| - 1], row) + [last] else rows + [row]
  }

  function Sorted(order: SortOrder, rows: seq<Entry>): seq<Entry> {
    if rows == [] then [] else Insert(order, Sorted(order, rows[..|rows| - 1]), rows[|rows| - 1])
  }

  ghost predicate InOrder(order: SortOrder, rows: seq<Entry>) {
    forall j, k :: 0 <= j < k < |rows| ==> !Before(order, rows[k], rows[j])
  }

  /** The comparators are strict weak orders, which `std::sort` demands. */
  lemma StrictWeak(order: SortOrder, a: Entry, b: Entry, c: Entry)
    ensures Before(order, a, b) ==> !Before(order, b, a)
    ensures !Before(order, b, a) && !Before(order, c, b) ==> !Before(order, c, a)
  {
    NameOrder();
  }

  lemma Snoc<T>(front: seq<T>, x: T)
    ensures multiset(front + [x]) == multiset(front) + multiset{x}
  {
  }

  lemma {:induction false} InsertMultiset(order: SortOrder, rows: seq<Entry>, row: Entry)
    ensures multiset(Insert(order, rows, row)) == multiset(rows) + multiset{row}
  {
    Snoc(rows, row);
    if rows == [] {
      assert rows + [row] == [row];
    } else {
      var less, last := rows[..|rows| - 1], rows[|rows| - 1];
      assert rows == less + [last];
      InsertMultiset(order, less, row);
      Snoc(less, last);
      Snoc(Insert(order, less, row), last);
      hide Before;
    }
  }

  lemma {:induction false} InsertSum(order: SortOrder, rows: seq<Entry>, row: Entry)
    ensures SumRows(Insert(order, rows, row)) == Plus(SumRows(rows), row.sums)
  {
    SumRowsAppend(rows, row);
    if rows == [] {
      assert rows + [row] == [row];
    } else {
      var less, last := rows[..|rows| - 1], rows[|rows| - 1];
      InsertSum(order, less, row);
      assert SumRows(rows) == Plus(SumRows(less), last.sums);
      SumRowsAppend(Insert(order, less, row), last);
      hide Before, SumRows;
    }
  }

  lemma InsertElement(order: SortOrder, rows: seq<Entry>, row: Entry, x: Entry)
    requires x in Insert(order, rows, row)
    ensures x == row || x in rows
  {
    InsertMultiset(order, rows, row);
    hide Insert;
    assert x in multiset(Insert(order, rows, row));
  }

  lemma {:induction false} InsertOrdered(order: SortOrder, rows: seq<Entry>, row: Entry)
    requires InOrder(order, rows)
    ensures InOrder(order, Insert(order, rows, row))
  {
    hide Before;
    if rows != [] {
      var less, last := rows[..|rows| - 1], rows[|rows| - 1];
      if Before(order, row, last) {
        var front := Insert(order, less, row);
        InsertOrdered(order, less, row);
        forall x | x in front ensures !Before(order, last, x) {
          InsertElement(order, less, row, x);
          StrictWeak(order, row, last, row);
          if x != row {
            var k :| 0 <= k < |less| && less[k] == x;
            assert rows[k] == x;
          }
        }
        AppendOrdered(order, front, last);
      } else {
        forall x | x in rows ensures !Before(order, row, x) {
          var k :| 0 <= k < |rows| && rows[k] == x;
          StrictWeak(order, x, last, row);
        }
        AppendOrdered(order, rows, row);
      }
    }
  }

  lemma AppendOrdered(order: SortOrder, rows: seq<Entry>, row: Entry)
    requires InOrder(order, rows) && forall x :: x in rows ==> !Before(order, row, x)
    ensures InOrder(order, rows + [row])
  {
    hide Before;
  }

  /** Sorting reorders the rows and nothing else. */
  lemma {:induction false} SortedPermutes(order: SortOrder, rows: seq<Entry>)
    ensures InOrder(order, Sorted(order, rows))
    ensures multiset(Sorted(order, rows)) == multiset(rows)
    ensures SumRows(Sorted(order, rows)) == SumRows(rows)
  {
    if rows != [] {
      var less, last := rows[..|rows| - 1], rows[|rows| - 1];
      assert rows == less + [last];
      SortedPermutes(order, less);
      InsertOrdered(order, Sorted(order, less), last);
      InsertMultiset(order, Sorted(order, less), last);
      InsertSum(order, Sorted(order, less), last);
      Snoc(less, last);
      SumRowsAppend(less, last);
      hide InOrder, Insert, Before, SumRows;
    }
  }

  function Highest(rows: seq<Entry>): (highest: nat)
    ensures forall k :: 0 <= k < |rows| ==> rows[k].sums.healing <= highest
    ensures highest != 0 ==> exists k :: 0 <= k < |rows| && rows[k].sums.healing == highest
  {
    if rows == [] then 0
    else
      var last := rows[|rows| - 1].sums.healing;
      var before := Highest(rows[..|rows| - 1]);
      if last > before then last else before
  }

  // ----- The answers of a window

  ghost function SkillVector(w: Window, q: Query): Vector {
    Vector(Sorted(w.options.sortOrder, SkillRows(w, q)), Highest(SkillRows(w, q)))
  }

  ghost function AgentVector(w: Window, q: Query): Vector {
    Vector(Sorted(w.options.sortOrder, AgentRows(w, q)), Highest(AgentRows(w, q)))
  }

  ghost function TotalRow(w: Window): Entry {
    Entry(0, Ascii("__TOTAL__"), CombatTime(w), SumRows(SkillVector(w, Everything(w)).entries))
  }

  function Preset(group: nat): AgentFilter
    requires group < 4
  {
    AgentFilter(false, group == 0, group <= 1, group <= 2, true)
  }

  function PresetLabel(group: nat): seq<u8>
    requires group < 4
  {
    match group
    case 0 => [229, 176, 143, 233, 154, 138]
    case 1 => [229, 156, 152, 233, 154, 138]
    case 2 => [230, 137, 128, 230, 156, 137, 32, 40, 230, 142, 146, 233, 153, 164, 229, 143, 172, 229, 150, 154, 231, 137, 169, 41]
    case _ => [230, 137, 128, 230, 156, 137, 32, 40, 229, 140, 133, 230, 139, 172, 229, 143, 172, 229, 150, 154, 231, 137, 169, 41]
  }

  function GroupQuery(group: nat): Query
    requires group < 4
  {
    Query(None, Preset(group), None)
  }

  function GroupRow(w: Window, group: nat): Entry
    requires group < 4
  {
    Entry(0, PresetLabel(group), CombatTime(w), FullTotal(w, GroupQuery(group)))
  }

  function GroupRows(w: Window): seq<Entry> {
    [GroupRow(w, 0), GroupRow(w, 1), GroupRow(w, 2), GroupRow(w, 3)]
  }

  function GroupVector(w: Window): Vector {
    Vector(GroupRows(w), Highest(GroupRows(w)))
  }

  // ----- Lists, details and totals agree

  /** The total, the skill list and the agent list all add up to the events that pass the window's filters; in debug mode the
      total and the skill list exceed that by exactly the indirect part. */
  lemma Conservation(w: Window)
    ensures var q := Everything(w);
            var expected := if w.debug then Plus(FullTotal(w, q), IndirectPart(w, q)) else FullTotal(w, q);
            && TotalRow(w).sums == expected
            && SumRows(SkillVector(w, q).entries) == expected
            && SumRows(AgentVector(w, q).entries) == FullTotal(w, q)
  {
    var q := Everything(w);
    SkillRowsConserve(w, q);
    AgentRowsConserve(w, q);
    SortedPermutes(w.options.sortOrder, SkillRows(w, q));
    SortedPermutes(w.options.sortOrder, AgentRows(w, q));
    hide SumRows, SkillRows, AgentRows, Sorted, FullTotal, IndirectPart, InOrder;
  }

  lemma {:induction false} EntriesAreTally(w: Window, tally: map<u64, Sums>, ids: seq<u64>)
    requires AllIn(ids, tally)
    ensures forall k :: 0 <= k < |SkillEntries(w, tally, ids)| ==>
              var e := SkillEntries(w, tally, ids)[k]; e.id in tally && e.sums == tally[e.id]
    ensures forall k :: 0 <= k < |AgentEntries(w, tally, ids)| ==>
              var e := AgentEntries(w, tally, ids)[k]; e.id in tally && e.sums == tally[e.id]
  {
    if ids != [] {
      EntriesAreTally(w, tally, ids[..|ids| - 1]);
    }
  }

  lemma {:induction false} TalliedAgentPasses(w: Window, q: Query, id: u64, n: nat)
    requires n <= |w.src.stats.events| && q.agent == None && id in Tally(w, q, ByAgent, n)
    ensures !FilteredOut(w.src, id, q.filter)
  {
    if n > 0 && id in Tally(w, q, ByAgent, n - 1) {
      TalliedAgentPasses(w, q, id, n - 1);
    }
  }

  /** Drilling down from an agent: the agent's row is the sum of its skill details (with debug mode off; otherwise the details
      exceed it by the agent's indirect part). */
  lemma AgentDetailsAgree(w: Window, row: Entry)
    requires row in AgentVector(w, Everything(w)).entries
    ensures var q := OfAgent(w, row.id);
            SumRows(SkillVector(w, q).entries) == if w.debug then Plus(row.sums, IndirectPart(w, q)) else row.sums
  {
    var q, details, n := Everything(w), OfAgent(w, row.id), |w.src.stats.events|;
    SortedPermutes(w.options.sortOrder, AgentRows(w, q));
    assert row in multiset(AgentRows(w, q));
    var tally := FullTally(w, q, ByAgent);
    var ids := Ascending(tally.Keys);
    AllKeys(ids, tally);
    EntriesAreTally(w, tally, ids);
    TallyAt(w, q, ByAgent, row.id, n);
    TalliedAgentPasses(w, q, row.id, n);
    NarrowedTotal(w, q, ByAgent, row.id, n);
    SkillRowsConserve(w, details);
    SortedPermutes(w.options.sortOrder, SkillRows(w, details));
    hide SumRows, SkillRows, AgentEntries, Sorted, TotalIn, Total, Tally, InOrder, SkillEntries, FilteredOut, Highest, IndirectPart;
  }

  /** Drilling down from a skill: every row that stands for one skill is the sum of its agent details. */
  lemma SkillDetailsAgree(w: Window, k: nat)
    requires var tally := FullTally(w, Everything(w), BySkill);
             AllIn(Ascending(tally.Keys), tally) && k < |SkillEntries(w, tally, Ascending(tally.Keys))|
    ensures k < |SkillRows(w, Everything(w))|
    ensures var row := SkillRows(w, Everything(w))[k];
            SumRows(AgentVector(w, OfSkill(w, row.id)).entries) == row.sums
  {
    var q, n := Everything(w), |w.src.stats.events|;
    var tally := FullTally(w, q, BySkill);
    var ids := Ascending(tally.Keys);
    var row := SkillEntries(w, tally, ids)[k];
    assert SkillRows(w, q)[k] == row;
    EntriesAreTally(w, tally, ids);
    TallyAt(w, q, BySkill, row.id, n);
    NarrowedTotal(w, q, BySkill, row.id, n);
    AgentRowsConserve(w, OfSkill(w, row.id));
    SortedPermutes(w.options.sortOrder, AgentRows(w, OfSkill(w, row.id)));
    hide SumRows, SkillRows, AgentRows, Sorted, TotalIn, Total, Tally, InOrder, SkillEntries, Highest;
  }

  lemma {:induction false} NoneTallied(w: Window, q: Query, g: Grouping, keys: set<u64>, n: nat)
    requires n <= |w.src.stats.events|
    ensures TotalIn(w, q, g, keys, n) == Nothing() <==> forall key :: key in Tally(w, q, g, n) ==> key !in keys
    ensures TotalIn(w, q, g, keys, n).hits == 0 ==> TotalIn(w, q, g, keys, n) == Nothing()
  {
    if n > 0 {
      NoneTallied(w, q, g, keys, n - 1);
      var e := w.src.stats.events[n - 1];
      assert forall key :: key in Tally(w, q, g, n) <==> key in Tally(w, q, g, n - 1) || (Counts(w, q, e) && key == KeyOf(g, e));
      hide Counts;
    }
  }

  /** Drilling down from the common row of the indirect skills: its id is 0, so the details are those of skill 0.  If that skill is
      indirect itself they add up to the row exactly when it is the only indirect skill that occurs; if it is not, details and
      row have no event in common. */
  lemma IndirectRowDetails(w: Window)
    ensures var q, n := Everything(w), |w.src.stats.events|;
            var details := SumRows(AgentVector(w, OfSkill(w, INDIRECT_SKILL_ID)).entries);
            && details == TotalIn(w, q, BySkill, {INDIRECT_SKILL_ID}, n)
            && (INDIRECT_SKILL_ID in w.src.indirect ==>
                  (details == IndirectPart(w, q) <==>
                   forall id :: id in FullTally(w, q, BySkill) && id in w.src.indirect ==> id == INDIRECT_SKILL_ID))
            && (INDIRECT_SKILL_ID !in w.src.indirect ==>
                  Plus(details, IndirectPart(w, q)) == TotalIn(w, q, BySkill, w.src.indirect + {INDIRECT_SKILL_ID}, n))
  {
    hide *;
    DetailsOfSkill(w, INDIRECT_SKILL_ID);
    OnlyIndirect(w, Everything(w), INDIRECT_SKILL_ID);
  }

  lemma DetailsOfSkill(w: Window, id: u64)
    ensures SumRows(AgentVector(w, OfSkill(w, id)).entries) == TotalIn(w, Everything(w), BySkill, {id}, |w.src.stats.events|)
  {
    hide SumRows, AgentRows, Sorted, Total, TotalIn, InOrder, Highest;
    AgentRowsConserve(w, OfSkill(w, id));
    SortedPermutes(w.options.sortOrder, AgentRows(w, OfSkill(w, id)));
    NarrowedTotal(w, Everything(w), BySkill, id, |w.src.stats.events|);
  }

  lemma OnlyIndirect(w: Window, q: Query, id: u64)
    ensures var n, one := |w.src.stats.events|, TotalIn(w, q, BySkill, {id}, |w.src.stats.events|);
            && (id in w.src.indirect ==>
                  (one == IndirectPart(w, q) <==> forall other :: other in FullTally(w, q, BySkill) && other in w.src.indirect ==> other == id))
            && (id !in w.src.indirect ==> Plus(one, IndirectPart(w, q)) == TotalIn(w, q, BySkill, w.src.indirect + {id}, n))
  {
    var n := |w.src.stats.events|;
    var others := w.src.indirect - {id};
    hide TotalIn, Tally;
    NoneTallied(w, q, BySkill, others, n);
    if id in w.src.indirect {
      TotalInSplits(w, q, BySkill, w.src.indirect, others, id, n);
    } else {
      TotalInSplits(w, q, BySkill, w.src.indirect + {id}, w.src.indirect, id, n);
    }
  }

  // ----- What the filters mean

  function WithKinds(w: Window, excludeHealing: bool, excludeBarrier: bool): Window {
    w.(options := w.options.(excludeHealing := excludeHealing, excludeBarrierGeneration := excludeBarrier))
  }

  function WithDowned(w: Window, excludeDowned: bool, excludeNonDowned: bool): Window {
    w.(options := w.options.(excludeAgainstDowned := excludeDowned, excludeAgainstNonDowned := excludeNonDowned))
  }

  function WithSkills(w: Window, included: seq<u32>): Window {
    w.(options := w.options.(includedSkills := included))
  }

  /** Healing alone and barrier alone add up to both; there is no barrier in the one, and nothing else in the other. */
  lemma {:induction false} KindsAddUp(w: Window, q: Query, n: nat)
    requires n <= |w.src.stats.events|
    ensures var healing, barrier := Total(WithKinds(w, false, true), q, n), Total(WithKinds(w, true, false), q, n);
            && Plus(healing, barrier) == Total(WithKinds(w, false, false), q, n)
            && healing.barrier == 0 && barrier.barrier == barrier.healing
            && Total(WithKinds(w, true, true), q, n) == Nothing()
  {
    if n > 0 {
      KindsAddUp(w, q, n - 1);
      TotalStep(WithKinds(w, false, true), q, n);
      TotalStep(WithKinds(w, true, false), q, n);
      TotalStep(WithKinds(w, false, false), q, n);
      TotalStep(WithKinds(w, true, true), q, n);
      hide FilteredOut, FilterSkill, Total;
    }
  }

  lemma TotalStep(w: Window, q: Query, n: nat)
    requires 0 < n <= |w.src.stats.events|
    ensures var e := w.src.stats.events[n - 1];
            Total(w, q, n) == Plus(Total(w, q, n - 1), if Counts(w, q, e) then One(e) else Nothing())
  {
  }

  /** What went to downed targets and what went to others add up to everything. */
  lemma {:induction false} DownedAddsUp(w: Window, q: Query, n: nat)
    requires n <= |w.src.stats.events|
    ensures Plus(Total(WithDowned(w, true, false), q, n), Total(WithDowned(w, false, true), q, n)) == Total(WithDowned(w, false, false), q, n)
    ensures Total(WithDowned(w, true, true), q, n) == Nothing()
  {
    if n > 0 {
      DownedAddsUp(w, q, n - 1);
      TotalStep(WithDowned(w, true, false), q, n);
      TotalStep(WithDowned(w, false, true), q, n);
      TotalStep(WithDowned(w, false, false), q, n);
      TotalStep(WithDowned(w, true, true), q, n);
      hide FilteredOut, FilterSkill, Total;
    }
  }

  /** Lists of included skills without a common one add up; an empty list includes all skills. */
  lemma {:induction false} SkillListsAddUp(w: Window, q: Query, a: seq<u32>, b: seq<u32>, n: nat)
    requires n <= |w.src.stats.events| && a != [] && b != []
    requires forall j, k :: 0 <= j < |a| && 0 <= k < |b| ==> a[j] != b[k]
    ensures Plus(Total(WithSkills(w, a), q, n), Total(WithSkills(w, b), q, n)) == Total(WithSkills(w, a + b), q, n)
    ensures AtMost(Total(WithSkills(w, a), q, n), Total(WithSkills(w, []), q, n))
  {
    hide *;
    if n == 0 {
      NothingYet(WithSkills(w, a), q);
      NothingYet(WithSkills(w, b), q);
      NothingYet(WithSkills(w, a + b), q);
      NothingYet(WithSkills(w, []), q);
      NothingAdds();
    } else {
      SkillListsAddUp(w, q, a, b, n - 1);
      SkillListsStep(w, q, a, b, n);
    }
  }

  lemma NothingYet(w: Window, q: Query)
    ensures Total(w, q, 0) == Nothing()
  {
  }

  lemma NothingAdds()
    ensures Plus(Nothing(), Nothing()) == Nothing() && AtMost(Nothing(), Nothing())
  {
  }

  lemma SkillListsStep(w: Window, q: Query, a: seq<u32>, b: seq<u32>, n: nat)
    requires 0 < n <= |w.src.stats.events| && a != [] && b != []
    requires forall j, k :: 0 <= j < |a| && 0 <= k < |b| ==> a[j] != b[k]
    requires Plus(Total(WithSkills(w, a), q, n - 1), Total(WithSkills(w, b), q, n - 1)) == Total(WithSkills(w, a + b), q, n - 1)
    requires AtMost(Total(WithSkills(w, a), q, n - 1), Total(WithSkills(w, []), q, n - 1))
    ensures Plus(Total(WithSkills(w, a), q, n), Total(WithSkills(w, b), q, n)) == Total(WithSkills(w, a + b), q, n)
    ensures AtMost(Total(WithSkills(w, a), q, n), Total(WithSkills(w, []), q, n))
  {
    hide Counts, Total, WithSkills;
    OneMore(w, a, q, n);
    OneMore(w, b, q, n);
    OneMore(w, a + b, q, n);
    OneMore(w, [], q, n);
    SkillListsOf(w, q, a, b, w.src.stats.events[n - 1]);
  }

  lemma OneMore(w: Window, included: seq<u32>, q: Query, n: nat)
    requires 0 < n <= |w.src.stats.events|
    ensures var e, w' := w.src.stats.events[n - 1], WithSkills(w, included);
            w'.src == w.src && Total(w', q, n) == Plus(Total(w', q, n - 1), if Counts(w', q, e) then One(e) else Nothing())
  {
    TotalStep(WithSkills(w, included), q, n);
    hide Counts, Total;
  }

  lemma SkillListsOf(w: Window, q: Query, a: seq<u32>, b: seq<u32>, e: HealEvent)
    requires a != [] && b != [] && !(e.skillId in a && e.skillId in b)
    ensures !(Counts(WithSkills(w, a), q, e) && Counts(WithSkills(w, b), q, e))
    ensures Counts(WithSkills(w, a + b), q, e) <==> Counts(WithSkills(w, a), q, e) || Counts(WithSkills(w, b), q, e)
    ensures Counts(WithSkills(w, a), q, e) ==> Counts(WithSkills(w, []), q, e)
  {
    assert e.skillId in a + b <==> e.skillId in a || e.skillId in b;
    SameEnd(w, a);
    SameEnd(w, b);
    SameEnd(w, a + b);
    SameEnd(w, []);
    hide FilteredOut, CombatEnd;
  }

  lemma SameEnd(w: Window, included: seq<u32>)
    ensures CombatEnd(WithSkills(w, included)) == CombatEnd(w)
  {
  }

  /** A window that ends with the last heal cuts off none of the events, given that they came in order of time. */
  lemma LastHealCutsNothing(w: Window, e: HealEvent)
    requires w.options.combatEnd == LastHealEvent && e in w.src.stats.events && e.time > 0
    requires forall j, k :: 0 <= j < k < |w.src.stats.events| ==> w.src.stats.events[j].time <= w.src.stats.events[k].time
    ensures e.time <= CombatEnd(w)
  {
    var k :| 0 <= k < |w.src.stats.events| && w.src.stats.events[k] == e;
  }

  // ----- Group presets

  ghost predicate AtMost(a: Sums, b: Sums) {
    a.healing <= b.healing && a.hits <= b.hits && a.barrier <= b.barrier
  }

  lemma {:induction false} StricterCountsLess(w: Window, q: Query, q': Query, n: nat)
    requires n <= |w.src.stats.events|
    requires forall e: HealEvent :: Counts(w, q, e) ==> Counts(w, q', e)
    ensures AtMost(Total(w, q, n), Total(w, q', n))
  {
    hide Counts;
    if n > 0 {
      StricterCountsLess(w, q, q', n - 1);
    }
  }

  lemma PresetsNested(w: Window, group: nat)
    requires group < 3
    ensures AtMost(GroupRow(w, group).sums, GroupRow(w, group + 1).sums)
  {
    hide Passes, Total;
    StricterCountsLess(w, GroupQuery(group), GroupQuery(group + 1), |w.src.stats.events|);
  }

  /** Group, squad, all without minions and all contain each other, so the last row has the highest healing. */
  lemma GroupTotalsNested(w: Window)
    ensures var rows := GroupVector(w).entries;
            && |rows| == 4
            && AtMost(rows[0].sums, rows[1].sums) && AtMost(rows[1].sums, rows[2].sums) && AtMost(rows[2].sums, rows[3].sums)
            && GroupVector(w).highestHealing == rows[3].sums.healing
  {
    hide FullTotal, CombatTime;
    PresetsNested(w, 0);
    PresetsNested(w, 1);
    PresetsNested(w, 2);
    hide GroupRow;
    assert GroupRows(w)[3] == GroupRow(w, 3);
  }

  /** A window whose agent filter is a preset shows the preset's row as its total. */
  lemma PresetWindowTotal(w: Window, group: nat)
    requires group < 4 && w.options.agents == Preset(group) && !w.debug
    ensures TotalRow(w).sums == GroupVector(w).entries[group].sums
  {
    hide FullTotal, SumRows, SkillVector, AgentVector, CombatTime, TotalRow, IndirectPart, Highest, PresetLabel;
    Conservation(w);
    assert Everything(w) == GroupQuery(group);
  }

  // ----- Barrier is part of healing

  ghost predicate BarrierWithin(rows: seq<Entry>) {
    forall k :: 0 <= k < |rows| ==> rows[k].sums.barrier <= rows[k].sums.healing
  }

  lemma {:induction false} TallyBarrier(w: Window, q: Query, g: Grouping, n: nat)
    requires n <= |w.src.stats.events|
    ensures forall key :: key in Tally(w, q, g, n) ==> Tally(w, q, g, n)[key].barrier <= Tally(w, q, g, n)[key].healing
  {
    if n > 0 {
      TallyBarrier(w, q, g, n - 1);
    }
  }

  lemma {:induction false} IndirectBarrier(w: Window, tally: map<u64, Sums>, ids: seq<u64>)
    requires AllIn(ids, tally) && forall key :: key in tally ==> tally[key].barrier <= tally[key].healing
    ensures IndirectSums(w, tally, ids).barrier <= IndirectSums(w, tally, ids).healing
  {
    if ids != [] {
      IndirectBarrier(w, tally, ids[..|ids| - 1]);
    }
  }

  lemma SkillRowsBarrier(w: Window, q: Query)
    ensures BarrierWithin(SkillRows(w, q))
  {
    var tally := FullTally(w, q, BySkill);
    var ids := Ascending(tally.Keys);
    TallyBarrier(w, q, BySkill, |w.src.stats.events|);
    hide Tally, Elements, NoRepeats, CombatTime;
    AllKeys(ids, tally);
    EntriesAreTally(w, tally, ids);
    IndirectBarrier(w, tally, ids);
    hide FullTally, Ascending, SkillEntries, IndirectSums;
  }

  lemma AgentRowsBarrier(w: Window, q: Query)
    ensures BarrierWithin(AgentRows(w, q))
  {
    var tally := FullTally(w, q, ByAgent);
    var ids := Ascending(tally.Keys);
    TallyBarrier(w, q, ByAgent, |w.src.stats.events|);
    hide Tally, Elements, NoRepeats, CombatTime;
    AllKeys(ids, tally);
    EntriesAreTally(w, tally, ids);
    hide FullTally, Ascending, AgentEntries;
  }

  lemma {:induction false} TotalBarrier(w: Window, q: Query, n: nat)
    requires n <= |w.src.stats.events|
    ensures Total(w, q, n).barrier <= Total(w, q, n).healing
  {
    if n > 0 {
      TotalBarrier(w, q, n - 1);
      hide Counts;
    }
  }

  lemma {:induction false} TotalInBarrier(w: Window, q: Query, g: Grouping, keys: set<u64>, n: nat)
    requires n <= |w.src.stats.events|
    ensures TotalIn(w, q, g, keys, n).barrier <= TotalIn(w, q, g, keys, n).healing
  {
    if n > 0 {
      TotalInBarrier(w, q, g, keys, n - 1);
      hide Counts;
    }
  }

  lemma GroupRowsBarrier(w: Window)
    ensures BarrierWithin(GroupRows(w))
  {
    var n := |w.src.stats.events|;
    TotalBarrier(w, GroupQuery(0), n);
    TotalBarrier(w, GroupQuery(1), n);
    TotalBarrier(w, GroupQuery(2), n);
    TotalBarrier(w, GroupQuery(3), n);
    hide Total, CombatTime, PresetLabel;
  }

  /** Whenever barrier is within healing, so are the two in the sorted rows, and with sums of 64 bits the heal-size comparators
      do not wrap around. */
  lemma SortedHealSizes(order: SortOrder, rows: seq<Entry>, row: Entry)
    requires BarrierWithin(rows) && row in Sorted(order, rows)
    ensures row.sums.barrier <= row.sums.healing
    ensures row.sums.healing < U64_RANGE ==> HealSize(row) == row.sums.healing - row.sums.barrier
  {
    hide Sorted, HealSize;
    SortedElement(order, rows, row);
    SmallDifference(row);
  }

  lemma SortedElement(order: SortOrder, rows: seq<Entry>, row: Entry)
    requires row in Sorted(order, rows)
    ensures row in rows
  {
    hide *;
    SortedPermutes(order, rows);
    assert row in multiset(Sorted(order, rows));
  }

  lemma SmallDifference(row: Entry)
    ensures row.sums.barrier <= row.sums.healing < U64_RANGE ==> HealSize(row) == row.sums.healing - row.sums.barrier
  {
  }

  /** In every row of a window's lists, skills, agents and presets, barrier is at most healing, so with sums of 64 bits the
      heal-size comparators never wrap around. */
  lemma HealSizeDoesNotWrap(w: Window, q: Query)
    ensures BarrierWithin(SkillRows(w, q)) && BarrierWithin(AgentRows(w, q)) && BarrierWithin(GroupRows(w))
    ensures forall row :: row in SkillRows(w, q) || row in AgentRows(w, q) || row in GroupRows(w) ==>
              row.sums.healing < U64_RANGE ==> HealSize(row) == row.sums.healing - row.sums.barrier
  {
    SkillRowsBarrier(w, q);
    AgentRowsBarrier(w, q);
    GroupRowsBarrier(w);
    hide SkillRows, AgentRows, GroupRows;
  }
}
