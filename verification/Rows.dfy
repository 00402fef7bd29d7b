/** The rows that a window lists: how they come from the grouped sums, their order, and what they add up to
    (src/AggregatedStats.cpp). */
module Rows {
  import opened CombatEvents
  import opened Order
  import opened PlayerStatistics
  import opened Aggregation

  datatype Entry = Entry(id: u64, name: seq<u8>, time: nat, sums: Sums)

  /** `AggregatedVector`. */
  datatype Vector = Vector(entries: seq<Entry>, highestHealing: nat)

  // ----- Labels, in UTF-8

  function Ascii(s: string): seq<u8> {
    seq(|s|, k requires 0 <= k < |s| => (s[k] as int) % 0x100)
  }

  function Decimal(n: nat): seq<u8> {
    if n < 10 then [48 + n] else Decimal(n / 10) + [48 + n % 10]
  }

  /** What fits a buffer of 1024 characters. */
  function Printed(text: seq<u8>): seq<u8> {
    if |text| > 1023 then text[..1023] else text
  }

  function SkillLabel(w: Window, id: u64): seq<u8> {
    var name := if id in w.src.skillNames then w.src.skillNames[id] else Decimal(id);
    if !w.debug then name
    else Printed((if id in w.src.indirect then Ascii("(INDIRECT) ; ") else []) + Decimal(id) + Ascii(" ; ") + name)
  }

  function AgentLabel(w: Window, id: u64): seq<u8> {
    if id !in w.src.agents then (if w.debug then Printed(Decimal(id) + Ascii(" ; (UNMAPPED)")) else Decimal(id))
    else
      var agent := w.src.agents[id];
      if !w.debug then agent.name
      else Printed(Decimal(id) + Ascii(" ; ") + Decimal(agent.subgroup) + Ascii(" ; ") + Decimal(if agent.isMinion then 1 else 0)
                   + Ascii(" ; ") + agent.name)
  }

  /** "healing by doing damage (damage converted to healing)" */
  function IndirectLabel(): seq<u8> {
    [233, 128, 143, 233, 129, 142, 233, 128, 160, 230, 136, 144, 229, 130, 183, 229, 174, 179, 233, 128, 178, 232, 161, 140, 230, 178, 187,
     231, 153, 130, 40, 229, 130, 183, 229, 174, 179, 232, 189, 137, 230, 143, 155, 230, 136, 144, 230, 178, 187, 231, 153, 130, 41]
  }

  const INDIRECT_SKILL_ID: u64 := 0

  // ----- Rows in the order of their ids

  ghost function Ascending(ids: set<u64>): (r: seq<u64>)
    ensures Elements(r) == ids && NoRepeats(r)
  {
    if ids == {} then []
    else
      IdOrder();
      LeastExists(IdLeq, ids);
      var least :| IsLeast(IdLeq, least, ids);
      var rest := Ascending(ids - {least});
      ConsElements(least, rest);
      [least] + rest
  }

  lemma ConsElements(id: u64, rest: seq<u64>)
    ensures Elements([id] + rest) == {id} + Elements(rest)
    ensures NoRepeats(rest) && id !in Elements(rest) ==> NoRepeats([id] + rest)
  {
    var ids := [id] + rest;
    forall x ensures x in Elements(ids) <==> x in {id} + Elements(rest) {
      if x in Elements(rest) {
        var k :| 0 <= k < |rest| && rest[k] == x;
        assert ids[k + 1] == x;
      }
      if x == id {
        assert ids[0] == x;
      }
    }
    if NoRepeats(rest) && id !in Elements(rest) {
      forall j, k | 0 <= j < k < |ids| ensures ids[j] != ids[k] {
        assert rest[k - 1] in Elements(rest);
      }
    }
  }

  ghost predicate AllIn(ids: seq<u64>, tally: map<u64, Sums>) {
    forall k :: 0 <= k < |ids| ==> ids[k] in tally
  }

  /** One row a skill; indirect skills are only shown in debug mode. */
  function SkillEntries(w: Window, tally: map<u64, Sums>, ids: seq<u64>): seq<Entry>
    requires AllIn(ids, tally)
  {
    if ids == [] then []
    else
      var id := ids[|ids| - 1];
      var before := SkillEntries(w, tally, ids[..|ids| - 1]);
      if id in w.src.indirect && !w.debug then before
      else before + [Entry(id, SkillLabel(w, id), CombatTime(w), tally[id])]
  }

  function IndirectSums(w: Window, tally: map<u64, Sums>, ids: seq<u64>): Sums
    requires AllIn(ids, tally)
  {
    if ids == [] then Nothing()
    else
      var id := ids[|ids| - 1];
      var before := IndirectSums(w, tally, ids[..|ids| - 1]);
      if id in w.src.indirect then Plus(before, tally[id]) else before
  }

  /** All indirect skills together. */
  function Lump(w: Window, sums: Sums): seq<Entry> {
    if sums == Nothing() then [] else [Entry(INDIRECT_SKILL_ID, IndirectLabel(), CombatTime(w), sums)]
  }

  ghost function SkillRows(w: Window, q: Query): seq<Entry> {
    var tally := FullTally(w, q, BySkill);
    var ids := Ascending(tally.Keys);
    AllKeys(ids, tally);
    SkillEntries(w, tally, ids) + Lump(w, IndirectSums(w, tally, ids))
  }

  function AgentEntries(w: Window, tally: map<u64, Sums>, ids: seq<u64>): seq<Entry>
    requires AllIn(ids, tally)
  {
    if ids == [] then []
    else
      var id := ids[|ids| - 1];
      AgentEntries(w, tally, ids[..|ids| - 1]) + [Entry(id, AgentLabel(w, id), CombatTime(w), tally[id])]
  }

  ghost function AgentRows(w: Window, q: Query): seq<Entry> {
    var tally := FullTally(w, q, ByAgent);
    var ids := Ascending(tally.Keys);
    AllKeys(ids, tally);
    AgentEntries(w, tally, ids)
  }

  lemma AllKeys(ids: seq<u64>, tally: map<u64, Sums>)
    requires Elements(ids) == tally.Keys
    ensures AllIn(ids, tally)
  {
    forall k | 0 <= k < |ids| ensures ids[k] in tally {
      assert ids[k] in Elements(ids);
    }
  }

  // ----- What the rows add up to

  function SumRows(rows: seq<Entry>): Sums {
    if rows == [] then Nothing() else Plus(SumRows(rows[..|rows| - 1]), rows[|rows| - 1].sums)
  }

  lemma SumRowsAppend(rows: seq<Entry>, row: Entry)
    ensures SumRows(rows + [row]) == Plus(SumRows(rows), row.sums)
  {
    assert (rows + [row])[..|rows + [row]| - 1] == rows;
  }

  lemma {:induction false} SkillEntriesSum(w: Window, tally: map<u64, Sums>, ids: seq<u64>)
    requires AllIn(ids, tally)
    ensures w.debug ==> SumRows(SkillEntries(w, tally, ids)) == SumOver(tally, ids)
    ensures !w.debug ==> Plus(SumRows(SkillEntries(w, tally, ids)), IndirectSums(w, tally, ids)) == SumOver(tally, ids)
  {
    if ids != [] {
      var id := ids[|ids| - 1];
      SkillEntriesSum(w, tally, ids[..|ids| - 1]);
      SumRowsAppend(SkillEntries(w, tally, ids[..|ids| - 1]), Entry(id, SkillLabel(w, id), CombatTime(w), tally[id]));
      hide SumRows, SkillLabel, CombatTime;
    }
  }

  lemma {:induction false} AgentEntriesSum(w: Window, tally: map<u64, Sums>, ids: seq<u64>)
    requires AllIn(ids, tally)
    ensures SumRows(AgentEntries(w, tally, ids)) == SumOver(tally, ids)
  {
    if ids != [] {
      var id := ids[|ids| - 1];
      AgentEntriesSum(w, tally, ids[..|ids| - 1]);
      SumRowsAppend(AgentEntries(w, tally, ids[..|ids| - 1]), Entry(id, AgentLabel(w, id), CombatTime(w), tally[id]));
      hide SumRows, AgentLabel, CombatTime;
    }
  }

  /** The indirect ids among `ids`. */
  ghost function IndirectIn(w: Window, ids: seq<u64>): set<u64> {
    set id | id in Elements(ids) && id in w.src.indirect
  }

  lemma {:induction false} IndirectAddsUp(w: Window, q: Query, ids: seq<u64>, n: nat)
    requires n <= |w.src.stats.events| && NoRepeats(ids) && AllIn(ids, Tally(w, q, BySkill, n))
    ensures IndirectSums(w, Tally(w, q, BySkill, n), ids) == TotalIn(w, q, BySkill, IndirectIn(w, ids), n)
    decreases |ids|
  {
    hide Tally, TotalIn;
    if ids == [] {
      TotalInNone(w, q, BySkill, n);
      assert IndirectIn(w, ids) == {};
    } else {
      var less, last := ids[..|ids| - 1], ids[|ids| - 1];
      IndirectAddsUp(w, q, less, n);
      TallyAt(w, q, BySkill, last, n);
      LastElement(ids);
      if last in w.src.indirect {
        TotalInSplits(w, q, BySkill, IndirectIn(w, ids), IndirectIn(w, less), last, n);
      } else {
        assert IndirectIn(w, ids) == IndirectIn(w, less);
      }
    }
  }

  lemma LastElement(ids: seq<u64>)
    requires ids != [] && NoRepeats(ids)
    ensures forall x :: x in Elements(ids) <==> x in Elements(ids[..|ids| - 1]) || x == ids[|ids| - 1]
    ensures ids[|ids| - 1] !in Elements(ids[..|ids| - 1])
  {
    var less, last := ids[..|ids| - 1], ids[|ids| - 1];
    forall x ensures x in Elements(ids) <==> x in Elements(less) || x == last {
      if x in Elements(less) {
        var k :| 0 <= k < |less| && less[k] == x;
        assert ids[k] == x;
      }
    }
  }

  /** The part of a query that comes from indirect skills. */
  ghost function IndirectPart(w: Window, q: Query): Sums {
    TotalIn(w, q, BySkill, w.src.indirect, |w.src.stats.events|)
  }

  lemma LumpSum(w: Window, rows: seq<Entry>, lump: Sums)
    ensures SumRows(rows + Lump(w, lump)) == Plus(SumRows(rows), lump)
  {
    if lump == Nothing() {
      assert rows + Lump(w, lump) == rows;
    } else {
      SumRowsAppend(rows, Lump(w, lump)[0]);
    }
  }

  /** All entries of the map add up to the query's total. */
  lemma TallyConserves(w: Window, q: Query, g: Grouping, ids: seq<u64>)
    requires Elements(ids) == FullTally(w, q, g).Keys && NoRepeats(ids)
    ensures AllIn(ids, FullTally(w, q, g)) && SumOver(FullTally(w, q, g), ids) == FullTotal(w, q)
  {
    var n := |w.src.stats.events|;
    AllKeys(ids, FullTally(w, q, g));
    EntriesAddUp(w, q, g, ids, n);
    TotalInAll(w, q, g, Elements(ids), n);
    hide Tally, Total, TotalIn, Elements, NoRepeats, SumOver;
  }

  lemma IndirectConserves(w: Window, q: Query, ids: seq<u64>)
    requires Elements(ids) == FullTally(w, q, BySkill).Keys && NoRepeats(ids)
    ensures AllIn(ids, FullTally(w, q, BySkill)) && IndirectSums(w, FullTally(w, q, BySkill), ids) == IndirectPart(w, q)
  {
    var n := |w.src.stats.events|;
    AllKeys(ids, FullTally(w, q, BySkill));
    IndirectAddsUp(w, q, ids, n);
    hide Tally, TotalIn, NoRepeats, IndirectSums;
    TotalInOccurring(w, q, BySkill, IndirectIn(w, ids), w.src.indirect, n);
  }

  /** Conservation over skills: the skill rows add up to the counted events; debug mode shows the indirect part twice. */
  lemma SkillRowsConserve(w: Window, q: Query)
    ensures SumRows(SkillRows(w, q)) == if w.debug then Plus(FullTotal(w, q), IndirectPart(w, q)) else FullTotal(w, q)
  {
    var tally := FullTally(w, q, BySkill);
    var ids := Ascending(tally.Keys);
    TallyConserves(w, q, BySkill, ids);
    IndirectConserves(w, q, ids);
    hide FullTally, FullTotal, IndirectPart, SumRows, SkillEntries, IndirectSums, SumOver, Lump, NoRepeats, Elements, AllIn;
    SkillEntriesSum(w, tally, ids);
    LumpSum(w, SkillEntries(w, tally, ids), IndirectSums(w, tally, ids));
  }

  /** Conservation over agents. */
  lemma AgentRowsConserve(w: Window, q: Query)
    ensures SumRows(AgentRows(w, q)) == FullTotal(w, q)
  {
    var tally := FullTally(w, q, ByAgent);
    var ids := Ascending(tally.Keys);
    TallyConserves(w, q, ByAgent, ids);
    hide FullTally, FullTotal, SumRows, AgentEntries, SumOver, NoRepeats, Elements, AllIn;
    AgentEntriesSum(w, tally, ids);
  }
}
