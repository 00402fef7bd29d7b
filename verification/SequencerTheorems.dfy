/** What the sequencer guarantees in every state of every run. */
module SequencerTheorems {
  import opened CombatEvents
  import opened Sequencer
  import opened SequencerInvariant
  import opened SequencerSteps

  lemma NextInv(s: State, s': State)
    requires Inv(s) && Next(s, s') && s'.count <= MAX_QUEUED_EVENTS
    ensures Inv(s')
  {
    hide Inv;
    if id, args :| CanBegin(s, id) && s' == BeginCall(s, id, args) {
      BeginCallInv(s, id, args);
    } else if args :| s' == UnorderedCall(s, args) {
      UnorderedCallInv(s, args);
    } else {
      var t :| StepOf(s, t, s');
      StepInv(s, t, Step(s, t, true) == Some(s'), s');
    }
  }

  lemma {:induction false} RunInv(run: seq<State>, k: nat)
    requires Run(run) && k < |run|
    ensures Inv(run[k])
  {
    if k == 0 {
      InitInv(run[0]);
    } else {
      RunInv(run, k - 1);
      hide Inv;
      assert Next(run[k - 1], run[k - 1 + 1]);
      NextInv(run[k - 1], run[k]);
    }
  }

  /** The completed callbacks of the sequence are exactly p0, p0 + 1, and so on in that order, each with the
      arguments its caller passed, up to `mHighestId` and at most one more that is not committed yet. */
  ghost predicate InOrder(s: State) {
    s.first.Some? ==>
      var p0 := s.first.value;
      && s.highest + 1 - p0 <= |s.ordered| <= s.highest + 2 - p0
      && forall k :: 0 <= k < |s.ordered| ==>
           s.ordered[k].id == p0 + k && s.ordered[k].id in s.calls && s.ordered[k].args == s.calls[p0 + k].args
  }

  /** The callback that is running now, if any, is the one after the last completed one. */
  ghost predicate RunsNext(s: State)
    requires |s.slots| == MAX_QUEUED_EVENTS
  {
    forall t :: t in s.calls && s.first.Some? ==>
      && (s.calls[t].pc.FastCallback? ==> t == s.first.value + |s.ordered|)
      && (s.calls[t].pc.FlushCallback? && s.calls[t].pc.i < MAX_QUEUED_EVENTS ==>
            s.slots[s.calls[t].pc.i].id == s.first.value + |s.ordered|)
  }

  /** Immediate callbacks belong to ids below the first one (or to id 0), happen once, with the caller's arguments. */
  ghost predicate AtOnceBelowFirst(s: State) {
    && (forall k :: 0 <= k < |s.immediate| && s.immediate[k].id != 0 ==>
          var d := s.immediate[k];
          s.first.Some? && d.id < s.first.value && d.id in s.calls && d.args == s.calls[d.id].args)
    && (forall j, k :: 0 <= j < k < |s.immediate| && s.immediate[j].id != 0 ==> s.immediate[j].id != s.immediate[k].id)
  }

  ghost predicate NoOverlap(s: State) {
    forall t, u :: t in s.calls && u in s.calls && Ordering(s.calls[t].pc) && Ordering(s.calls[u].pc) ==> t == u
  }

  lemma InvOrders(s: State)
    requires Inv(s)
    ensures InOrder(s) && NoOverlap(s) && RunsNext(s)
  {
    forall t, u | t in s.calls && u in s.calls && Ordering(s.calls[t].pc) && Ordering(s.calls[u].pc) ensures t == u {
      OrderingUnique(s, t, u);
    }
    forall t | t in s.calls && s.first.Some? && (s.calls[t].pc.FastCallback? || s.calls[t].pc.FlushCallback?)
      ensures |s.ordered| == s.highest + 1 - s.first.value
    {
      NoOtherCommit(s, t);
    }
    forall t | t in s.calls && s.first.Some? && s.calls[t].pc.FlushCallback?
      ensures s.slots[s.calls[t].pc.i].id == s.highest + 1
    {
      assert FlusherAt(s, s.calls[t].pc);
    }
    forall t | t in s.calls && s.first.Some? && s.calls[t].pc.FastCallback? ensures t == s.highest + 1 {
      assert CallInv(s, t, s.calls[t].pc);
    }
  }

  lemma InvImmediate(s: State)
    requires Inv(s)
    ensures AtOnceBelowFirst(s)
  {
    forall k | 0 <= k < |s.immediate| && s.immediate[k].id != 0
      ensures s.first.Some? && s.immediate[k].id < s.first.value
    {
      var t := s.immediate[k].id;
      assert t in s.calls && s.calls[t].pc == Finished(DeliveredAtOnce);
      assert s.first.Some? ==> CallInv(s, t, s.calls[t].pc);
    }
  }

  /** Ordered delivery, in every state of every run. */
  lemma OrderedDelivery(run: seq<State>, k: nat)
    requires Run(run) && k < |run|
    ensures |run[k].slots| == MAX_QUEUED_EVENTS
    ensures InOrder(run[k]) && NoOverlap(run[k]) && RunsNext(run[k]) && AtOnceBelowFirst(run[k])
  {
    RunInv(run, k);
    InvOrders(run[k]);
    InvImmediate(run[k]);
  }

  /** What has been delivered stays delivered: the histories only grow. */
  lemma {:induction false} DeliveredStays(run: seq<State>, j: nat, k: nat)
    requires Run(run) && j <= k < |run|
    ensures run[j].ordered <= run[k].ordered && run[j].immediate <= run[k].immediate
    decreases k - j
  {
    hide Next, Init;
    if j < k {
      DeliveredStays(run, j, k - 1);
      assert Next(run[k - 1], run[k - 1 + 1]);
      NextDelivers(run[k - 1], run[k]);
    }
  }

  lemma NextDelivers(s: State, s': State)
    requires Next(s, s')
    ensures s.ordered <= s'.ordered && s.immediate <= s'.immediate
  {
    hide CanBegin, BeginCall, UnorderedCall, StepOf;
    if id, args :| CanBegin(s, id) && s' == BeginCall(s, id, args) {
      BeginDelivers(s, id, args);
    } else if args :| s' == UnorderedCall(s, args) {
      UnorderedDelivers(s, args);
    } else {
      var t :| StepOf(s, t, s');
      StepDelivers(s, t, s');
    }
  }

  lemma BeginDelivers(s: State, id: Id, args: Args)
    requires CanBegin(s, id)
    ensures s.ordered <= BeginCall(s, id, args).ordered && s.immediate <= BeginCall(s, id, args).immediate
  {
  }

  lemma UnorderedDelivers(s: State, args: Args)
    ensures s.ordered <= UnorderedCall(s, args).ordered && s.immediate <= UnorderedCall(s, args).immediate
  {
  }

  lemma StepDelivers(s: State, t: Id, s': State)
    requires StepOf(s, t, s')
    ensures s.ordered <= s'.ordered && s.immediate <= s'.immediate
  {
  }

  /** The source's assertions cannot fail: no compare-exchange after a callback fails, no slot index runs over
      or is held twice, slots beyond the count are empty, and the array is empty when the count is cleared. */
  lemma NoAssertionFails(run: seq<State>, k: nat, t: Id)
    requires Run(run) && k < |run| && t in run[k].calls
    ensures |run[k].slots| == MAX_QUEUED_EVENTS
    ensures !run[k].calls[t].pc.Failed?
    ensures Committing(run[k].calls[t].pc) ==> run[k].highest == run[k].calls[t].pc.cur
    ensures HasIndex(run[k].calls[t].pc) ==>
              && run[k].calls[t].pc.index < MAX_QUEUED_EVENTS
              && forall u :: u in run[k].calls && u != t && HasIndex(run[k].calls[u].pc) ==>
                   run[k].calls[u].pc.index != run[k].calls[t].pc.index
    ensures run[k].calls[t].pc == ClearCount ==> forall i :: 0 <= i < MAX_QUEUED_EVENTS ==> run[k].slots[i].id == 0
    ensures forall i :: run[k].count <= i < MAX_QUEUED_EVENTS ==> run[k].slots[i].id == 0
  {
    RunInv(run, k);
    var s := run[k];
    AtCall(s, t);
    forall i | s.count <= i < MAX_QUEUED_EVENTS ensures s.slots[i].id == 0 {
      assert !Occupied(s, i);
    }
    if s.calls[t].pc == ClearCount {
      forall i | 0 <= i < MAX_QUEUED_EVENTS ensures s.slots[i].id == 0 {
        assert !Occupied(s, i);
      }
    }
    if HasIndex(s.calls[t].pc) {
      assert s.calls[t].pc.index < s.count;
    }
  }

  /** No lost wakeup: whenever a slot holds the next id, some call is between its compare-exchange and a point of its
      flush from which it will still look at that slot. */
  lemma NoLostWakeup(run: seq<State>, k: nat, slot: nat)
    requires Run(run) && k < |run| && slot < MAX_QUEUED_EVENTS && slot < |run[k].slots|
    requires run[k].slots[slot].id != 0 && run[k].slots[slot].id == run[k].highest + 1
    ensures exists f :: f in run[k].calls && Flushing(run[k].calls[f].pc) && Covers(run[k].calls[f].pc, slot)
  {
    RunInv(run, k);
    var s := run[k];
    assert Occupied(s, slot);
    var f :| f in s.calls && Covers(s.calls[f].pc, slot);
    assert Flushing(s.calls[f].pc);
  }

  ghost predicate Quiescent(s: State) {
    forall t :: t in s.calls ==> s.calls[t].pc.Finished?
  }

  /** The calls at or above the first id form a block without gaps. */
  ghost predicate Contiguous(s: State) {
    s.first.Some? && forall id, j :: id in s.calls && s.first.value <= j <= id ==> j in s.calls
  }

  lemma NextIdIsMissing(s: State)
    requires Inv(s) && Quiescent(s) && s.first.Some?
    ensures s.highest + 1 !in s.calls
  {
    var id := s.highest + 1;
    if id in s.calls {
      AtCall(s, id);
    }
  }

  lemma AllBelowHighest(s: State, id: Id)
    requires Inv(s) && Quiescent(s) && Contiguous(s) && id in s.calls
    ensures id <= s.highest
  {
    NextIdIsMissing(s);
    AtCall(s, id);
  }

  lemma QuiescentEmpty(s: State)
    requires Inv(s) && Quiescent(s) && Contiguous(s)
    ensures s.count == 0 && forall k :: 0 <= k < MAX_QUEUED_EVENTS ==> s.slots[k].id == 0
  {
    forall k ensures !Occupied(s, k) {
      if Occupied(s, k) {
        AllBelowHighest(s, s.slots[k].id);
      }
    }
    assert !SomeoneKeepsCount(s);
  }

  function Ids(log: seq<Delivery>): (ids: seq<u64>)
    ensures |ids| == |log| && forall k :: 0 <= k < |log| ==> ids[k] == log[k].id
  {
    seq(|log|, k requires 0 <= k < |log| => log[k].id)
  }

  /** How often the callback has completed for `id`. */
  ghost function Deliveries(s: State, id: Id): nat {
    multiset(Ids(s.ordered))[id] + multiset(Ids(s.immediate))[id]
  }

  lemma OccursOnce(ids: seq<u64>, id: u64)
    requires forall j, k :: 0 <= j < k < |ids| && ids[j] == id ==> ids[k] != id
    ensures multiset(ids)[id] == if id in ids then 1 else 0
  {
    if id in ids {
      var k :| 0 <= k < |ids| && ids[k] == id;
      assert ids == ids[..k] + [ids[k]] + ids[k + 1..];
      assert id !in ids[..k] && id !in ids[k + 1..];
      assert multiset(ids)[id] == multiset(ids[..k])[id] + multiset([ids[k]])[id] + multiset(ids[k + 1..])[id];
    }
  }

  lemma InOrderedLog(s: State, id: Id)
    requires InOrder(s) && (s.first == None ==> s.ordered == [])
    ensures id in Ids(s.ordered) <==> s.first.Some? && s.first.value <= id < s.first.value + |s.ordered|
    ensures multiset(Ids(s.ordered))[id] == if id in Ids(s.ordered) then 1 else 0
  {
    OccursOnce(Ids(s.ordered), id);
    if s.first.Some? && s.first.value <= id < s.first.value + |s.ordered| {
      assert Ids(s.ordered)[id - s.first.value] == id;
    }
  }

  lemma InImmediateLog(s: State, id: Id)
    requires ImmediateInv(s) && id in s.calls && id > 0
    ensures id in Ids(s.immediate) <==> s.calls[id].pc == Finished(DeliveredAtOnce)
    ensures multiset(Ids(s.immediate))[id] == if id in Ids(s.immediate) then 1 else 0
  {
    OccursOnce(Ids(s.immediate), id);
    if s.calls[id].pc == Finished(DeliveredAtOnce) {
      assert LoggedImmediate(s, id);
      var k :| 0 <= k < |s.immediate| && s.immediate[k].id == id;
      assert Ids(s.immediate)[k] == id;
    }
  }

  lemma DeliveriesOf(s: State, id: Id)
    requires Inv(s) && id in s.calls
    ensures Deliveries(s, id) == (if id in Ids(s.ordered) then 1 else 0) + (if id in Ids(s.immediate) then 1 else 0)
    ensures id in Ids(s.ordered) <==> s.first.Some? && s.first.value <= id < s.first.value + |s.ordered|
    ensures id in Ids(s.immediate) <==> s.calls[id].pc == Finished(DeliveredAtOnce)
    ensures id in Ids(s.immediate) ==> s.first.Some? && id < s.first.value
  {
    InvOrders(s);
    AtCall(s, id);
    InImmediateLog(s, id);
    assert s.first == None ==> s.ordered == [];
    hide Inv;
    InOrderedLog(s, id);
  }

  /** No event reaches the callback twice. */
  lemma AtMostOnce(run: seq<State>, k: nat, id: Id)
    requires Run(run) && k < |run| && id in run[k].calls
    ensures Deliveries(run[k], id) <= 1
  {
    RunInv(run, k);
    DeliveriesOf(run[k], id);
  }

  /** Once all calls have returned, the id after the last delivered one has never arrived, so nothing deliverable
      is stranded; a call is undelivered exactly when its event waits in the queue behind that missing id. */
  lemma Quiescence(run: seq<State>, k: nat, id: Id)
    requires Run(run) && k < |run| && Quiescent(run[k]) && id in run[k].calls
    ensures |run[k].slots| == MAX_QUEUED_EVENTS
    ensures run[k].first.Some? && run[k].highest + 1 !in run[k].calls
    ensures Deliveries(run[k], id) == if InSlot(run[k], id) then 0 else 1
    ensures InSlot(run[k], id) ==> id > run[k].highest + 1
  {
    RunInv(run, k);
    hide Inv;
    QuiescentCall(run[k], id);
  }

  /** Once all calls have returned and the ids from the first one up have no gap, every event was delivered
      exactly once and the queue is empty with count 0 (`QueueIsEmpty`). */
  lemma QuiescenceWithoutGaps(run: seq<State>, k: nat)
    requires Run(run) && k < |run| && Quiescent(run[k]) && Contiguous(run[k])
    ensures |run[k].slots| == MAX_QUEUED_EVENTS && run[k].count == 0
    ensures forall id :: id in run[k].calls ==> Deliveries(run[k], id) == 1
  {
    RunInv(run, k);
    QuiescentEmpty(run[k]);
    assert forall id :: !InSlot(run[k], id);
    hide Inv;
    forall id | id in run[k].calls ensures Deliveries(run[k], id) == 1 {
      QuiescentCall(run[k], id);
    }
  }

  lemma QuiescentCall(s: State, id: Id)
    requires Inv(s) && Quiescent(s) && id in s.calls
    ensures Deliveries(s, id) == if InSlot(s, id) then 0 else 1
    ensures Shape(s) && s.first.Some? && s.highest + 1 !in s.calls
    ensures InSlot(s, id) ==> id > s.highest + 1
  {
    AtCall(s, id);
    DeliveriesOf(s, id);
    assert s.first.Some?;
    NextIdIsMissing(s);
    assert !SomeoneCommits(s);
    assert |s.ordered| == s.highest + 1 - s.first.value;
    if InSlot(s, id) {
      var k :| Occupied(s, k) && s.slots[k].id == id;
      assert id > s.highest;
    }
  }

  // ----- The flush loop terminates

  ghost function OccupiedSlots(s: State): set<int>
    requires |s.slots| == MAX_QUEUED_EVENTS
  {
    set k | 0 <= k < MAX_QUEUED_EVENTS && s.slots[k].id != 0
  }

  predicate InFlushLoop(pc: PC) {
    pc.Scan? || pc.FlushCallback? || pc.FlushCommit?
  }

  /** A bound on the steps the flusher at `pc` still takes in its loop: every repeating pass empties a slot. */
  ghost function FlushRank(s: State, pc: PC): int
    requires |s.slots| == MAX_QUEUED_EVENTS && InFlushLoop(pc)
  {
    RankAt(|OccupiedSlots(s)|, pc)
  }

  function RankAt(occupied: nat, pc: PC): int {
    match pc
    case Scan(i, n, removed, _) => (2 * occupied + if removed then 1 else 0) * 1024 + 3 * (n - i) + 3
    case FlushCallback(_, _, _, _) => 2 * occupied * 1024 + 2
    case FlushCommit(_, _, _, _) => 2 * occupied * 1024 + 1
    case _ => 0
  }

  lemma FlushCommitEmpties(s: State, t: Id, s': State)
    requires FlushCommits(s, t, s')
    ensures |s'.slots| == MAX_QUEUED_EVENTS && |OccupiedSlots(s')| == |OccupiedSlots(s)| - 1
  {
    var i := s.calls[t].pc.i;
    assert i in OccupiedSlots(s);
    assert OccupiedSlots(s') == OccupiedSlots(s) - {i};
  }

  /** The flusher's own steps lower the rank or leave the loop. */
  lemma FlushRankFalls(s: State, t: Id, s': State)
    requires Inv(s) && StepOf(s, t, s') && InFlushLoop(s.calls[t].pc) && s'.count <= MAX_QUEUED_EVENTS
    ensures |s'.slots| == MAX_QUEUED_EVENTS && FlushRank(s, s.calls[t].pc) > 0
    ensures InFlushLoop(s'.calls[t].pc) ==> FlushRank(s', s'.calls[t].pc) < FlushRank(s, s.calls[t].pc)
  {
    if s.calls[t].pc.FlushCommit? {
      CommitRank(s, t, s');
    } else {
      QuietRank(s, t, s', |OccupiedSlots(s)|);
      hide *;
    }
  }

  lemma CommitRank(s: State, t: Id, s': State)
    requires Inv(s) && StepOf(s, t, s') && s.calls[t].pc.FlushCommit? && s'.count <= MAX_QUEUED_EVENTS
    ensures |s'.slots| == MAX_QUEUED_EVENTS && FlushRank(s, s.calls[t].pc) > 0
    ensures InFlushLoop(s'.calls[t].pc) ==> FlushRank(s', s'.calls[t].pc) < FlushRank(s, s.calls[t].pc)
  {
    AtCall(s, t);
    hide Inv;
    FlushCommitEmpties(s, t, s');
  }

  lemma QuietRank(s: State, t: Id, s': State, occupied: nat)
    requires Inv(s) && StepOf(s, t, s') && InFlushLoop(s.calls[t].pc) && !s.calls[t].pc.FlushCommit? && s'.count <= MAX_QUEUED_EVENTS
    ensures s'.slots == s.slots && |s.slots| == MAX_QUEUED_EVENTS && RankAt(occupied, s.calls[t].pc) > 0
    ensures InFlushLoop(s'.calls[t].pc) ==> RankAt(occupied, s'.calls[t].pc) < RankAt(occupied, s.calls[t].pc)
  {
    hide RankAt;
    QuietNext(s, t, s');
    RankFalls(occupied, s.calls[t].pc, s'.calls[t].pc);
  }

  /** Where the flusher goes from `pc` without having emptied a slot. */
  predicate GoesTo(pc: PC, pc': PC) {
    match pc
    case Scan(i, n, removed, _) =>
      && i <= n <= MAX_QUEUED_EVENTS
      && (pc'.Scan? ==> (pc'.n == n && pc'.i == i + 1 <= n && pc'.removed == removed) || (removed && i == n && !pc'.removed && pc'.i <= pc'.n <= MAX_QUEUED_EVENTS))
      && (pc'.FlushCallback? ==> i < n) && !pc'.FlushCommit?
    case FlushCallback(_, _, _, _) => !pc'.Scan? && !pc'.FlushCallback?
    case _ => false
  }

  lemma RankFalls(occupied: nat, pc: PC, pc': PC)
    requires GoesTo(pc, pc')
    ensures RankAt(occupied, pc) > 0 && (InFlushLoop(pc') ==> RankAt(occupied, pc') < RankAt(occupied, pc))
  {
  }

  lemma QuietNext(s: State, t: Id, s': State)
    requires Inv(s) && StepOf(s, t, s') && InFlushLoop(s.calls[t].pc) && !s.calls[t].pc.FlushCommit? && s'.count <= MAX_QUEUED_EVENTS
    ensures t in s'.calls && s'.slots == s.slots && |s.slots| == MAX_QUEUED_EVENTS && GoesTo(s.calls[t].pc, s'.calls[t].pc)
  {
    LoopBounds(s, t);
    hide *;
    QuietMoves(s, t, s');
  }

  lemma LoopBounds(s: State, t: Id)
    requires Inv(s) && t in s.calls
    ensures InBounds(s.calls[t].pc)
  {
    AtCall(s, t);
    hide Inv;
  }

  predicate InBounds(pc: PC) {
    match pc
    case Scan(i, n, _, _) => i <= n <= MAX_QUEUED_EVENTS
    case FlushCallback(i, n, _, _) => i < n <= MAX_QUEUED_EVENTS
    case _ => true
  }

  lemma QuietMoves(s: State, t: Id, s': State)
    requires StepOf(s, t, s') && InFlushLoop(s.calls[t].pc) && !s.calls[t].pc.FlushCommit? && InBounds(s.calls[t].pc)
    ensures t in s'.calls && s'.slots == s.slots && |s.slots| == MAX_QUEUED_EVENTS && GoesTo(s.calls[t].pc, s'.calls[t].pc)
  {
    hide LoadArgs, StoreArgs;
  }

  lemma OutsideKeepsSlots(s: State, u: Id, s': State)
    requires StepOf(s, u, s') && !InShared(s.calls[u].pc) && !InExclusive(s.calls[u].pc)
    ensures s'.slots == s.slots && forall t :: t in s.calls && t != u ==> t in s'.calls && s'.calls[t] == s.calls[t]
  {
  }

  /** A step that is not the call's own: another call's, a call that begins, or one with id 0. */
  ghost predicate NextByOthers(s: State, t: Id, s': State) {
    || (exists id, args :: CanBegin(s, id) && s' == BeginCall(s, id, args))
    || (exists args :: s' == UnorderedCall(s, args))
    || (exists u :: u != t && StepOf(s, u, s'))
  }

  /** Nobody else touches the slots, or the flusher, while it holds the lock. */
  lemma FlushRankKept(s: State, t: Id, s': State)
    requires Inv(s) && t in s.calls && InFlushLoop(s.calls[t].pc) && NextByOthers(s, t, s')
    ensures |s'.slots| == MAX_QUEUED_EVENTS && t in s'.calls && s'.calls[t].pc == s.calls[t].pc
    ensures FlushRank(s', s'.calls[t].pc) == FlushRank(s, s.calls[t].pc)
  {
    OthersKeepSlots(s, t, s');
    hide *;
    SameRank(s, s', s.calls[t].pc);
  }

  lemma OthersKeepSlots(s: State, t: Id, s': State)
    requires Inv(s) && t in s.calls && InFlushLoop(s.calls[t].pc) && NextByOthers(s, t, s')
    ensures |s.slots| == MAX_QUEUED_EVENTS && s'.slots == s.slots && t in s'.calls && s'.calls[t] == s.calls[t]
  {
    AtCall(s, t);
    hide Inv, StepOf;
    if u :| u != t && StepOf(s, u, s') {
      StepperIsCall(s, u, s');
      AtCall(s, u);
      hide *;
      OutsideKeepsSlots(s, u, s');
    }
  }

  lemma StepperIsCall(s: State, u: Id, s': State)
    requires StepOf(s, u, s')
    ensures u in s.calls
  {
  }

  lemma SameRank(s: State, s': State, pc: PC)
    requires |s.slots| == MAX_QUEUED_EVENTS && s'.slots == s.slots && InFlushLoop(pc)
    ensures FlushRank(s', pc) == FlushRank(s, pc)
  {
    assert OccupiedSlots(s') == OccupiedSlots(s);
  }

  // ----- No deadlock

  /** In every reachable state in which some call has not returned, some call can take a step: the holder of the exclusive lock, or
      else a holder of the shared lock, or else any of the others. */
  lemma NeverStuck(run: seq<State>, k: nat)
    requires Run(run) && k < |run| && !Quiescent(run[k])
    ensures exists t, s' :: StepOf(run[k], t, s')
  {
    RunInv(run, k);
    var s := run[k];
    hide Inv, Run;
    var t :| t in s.calls && !s.calls[t].pc.Finished?;
    InvParts(s);
    if s.exclusive.Some? {
      HolderSteps(s, s.exclusive.value);
    } else if u :| u in s.shared {
      HolderSteps(s, u);
    } else {
      FreeSteps(s, t);
    }
  }

  lemma InvParts(s: State)
    requires Inv(s)
    ensures LockInv(s)
  {
  }

  lemma HolderSteps(s: State, t: Id)
    requires Inv(s) && t in s.calls && (InExclusive(s.calls[t].pc) || InShared(s.calls[t].pc))
    ensures exists s' :: StepOf(s, t, s')
  {
    AtCall(s, t);
    hide Inv;
    assert StepOf(s, t, Step(s, t, false).value);
  }

  lemma FreeSteps(s: State, t: Id)
    requires Inv(s) && t in s.calls && !s.calls[t].pc.Finished? && s.exclusive == None && s.shared == {}
    ensures exists s' :: StepOf(s, t, s')
  {
    AtCall(s, t);
    hide Inv;
    assert StepOf(s, t, Step(s, t, false).value);
  }
}
