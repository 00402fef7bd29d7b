/** Every step of the sequencer keeps the invariant, and none reaches an `assert(false)`. */
module SequencerSteps {
  import opened CombatEvents
  import opened Sequencer
  import opened SequencerInvariant

  ghost predicate Steps(s: State, t: Id, spurious: bool, s': State) {
    Inv(s) && t in s.calls && Step(s, t, spurious) == Some(s') && s'.count <= MAX_QUEUED_EVENTS
  }

  lemma BeginCallInv(s: State, id: Id, args: Args)
    requires Inv(s) && CanBegin(s, id)
    ensures Inv(BeginCall(s, id, args))
  {
    var s' := BeginCall(s, id, args);
    BeginCallQueue(s, id, args, s');
    BeginCallCalls(s, id, args, s');
    BeginCallWake(s, id, args, s');
    BeginCallLogs(s, id, args, s');
    hide *;
    Whole(s');
  }

  lemma BeginCallQueue(s: State, id: Id, args: Args, s': State)
    requires Inv(s) && CanBegin(s, id) && s' == BeginCall(s, id, args)
    ensures Shape(s') && LockInv(s') && IndexInv(s') && SlotInv(s')
  {
    hide *;
    BeginCallSlots(s, id, args, s');
    BeginCallLocks(s, id, args, s');
    BeginCallIndices(s, id, args, s');
  }

  lemma BeginCallLocks(s: State, id: Id, args: Args, s': State)
    requires Inv(s) && CanBegin(s, id) && s' == BeginCall(s, id, args)
    ensures Shape(s') && LockInv(s')
  {
    hide SlotInv, IndexInv, CallsInv, OrderedInv, FirstInv, FlusherInv;
  }

  lemma BeginCallIndices(s: State, id: Id, args: Args, s': State)
    requires Inv(s) && CanBegin(s, id) && s' == BeginCall(s, id, args)
    ensures Shape(s') && IndexInv(s')
  {
    hide SlotInv, LockInv, CallsInv, OrderedInv, FirstInv, FlusherInv;
    forall k ensures Occupied(s', k) == Occupied(s, k) {}
  }

  lemma BeginCallSlots(s: State, id: Id, args: Args, s': State)
    requires Inv(s) && CanBegin(s, id) && s' == BeginCall(s, id, args)
    ensures Shape(s') && SlotInv(s')
  {
    hide LockInv, IndexInv;
    forall k ensures Occupied(s', k) == Occupied(s, k) {}
  }

  /** Every id between the first one and `mHighestId` belongs to a call. */
  lemma SequencedIsCall(s: State, id: Id)
    requires Shape(s) && OrderedInv(s) && s.first.Some? && s.first.value <= id <= s.highest
    ensures id in s.calls
  {
    assert s.ordered[id - s.first.value].id == id;
  }

  lemma BeginCallCalls(s: State, id: Id, args: Args, s': State)
    requires Inv(s) && CanBegin(s, id) && s' == BeginCall(s, id, args)
    ensures Shape(s') && FirstInv(s') && CallsInv(s') && FlusherInv(s')
  {
    hide *;
    BeginCallFlushers(s, id, args, s');
    BeginCallIds(s, id, args, s');
  }

  lemma BeginCallFlushers(s: State, id: Id, args: Args, s': State)
    requires Inv(s) && CanBegin(s, id) && s' == BeginCall(s, id, args)
    ensures Shape(s') && FlusherInv(s')
  {
    QuietPrefix(s, s');
    hide LockInv, IndexInv, SlotInv, WakeInv, CountInv, OrderedInv, ImmediateInv, CallsInv, FirstInv;
    forall x | FlusherAt(s, x) ensures FlusherAt(s', x) {}
  }

  lemma BeginCallIds(s: State, id: Id, args: Args, s': State)
    requires Inv(s) && CanBegin(s, id) && s' == BeginCall(s, id, args)
    ensures Shape(s') && FirstInv(s') && CallsInv(s')
  {
    if s.first.Some? && s.first.value <= id <= s.highest {
      SequencedIsCall(s, id);
    }
    hide LockInv, IndexInv, SlotInv, WakeInv, CountInv, OrderedInv, ImmediateInv, FlusherInv;
    forall u, x | s.first.Some? && CallInv(s, u, x) ensures CallInv(s', u, x) {}
  }

  lemma BeginCallWake(s: State, id: Id, args: Args, s': State)
    requires Inv(s) && CanBegin(s, id) && s' == BeginCall(s, id, args)
    ensures Shape(s') && WakeInv(s') && CountInv(s')
  {
    QuietPrefix(s, s');
    forall k | Occupied(s', k) && s'.slots[k].id == s'.highest + 1 ensures SomeoneCovers(s', k) {
      assert Occupied(s, k);
      var f :| f in s.calls && Covers(s.calls[f].pc, k);
      assert f in s'.calls && Covers(s'.calls[f].pc, k);
    }
    forall u | u in s'.calls && s'.calls[u].pc.Store? && u == s'.highest + 1 ensures SomeoneAboutToFlush(s') {
      assert u in s.calls && s.calls[u].pc.Store?;
      var f :| f in s.calls && AboutToFlush(s.calls[f].pc);
      assert f in s'.calls && AboutToFlush(s'.calls[f].pc);
    }
    if s.count > 0 && !OccupiedBelow(s', MAX_QUEUED_EVENTS) {
      var u :| u in s.calls && KeepsCount(s, u, s.calls[u].pc);
      assert u in s'.calls && KeepsCount(s', u, s'.calls[u].pc);
    }
  }

  lemma BeginCallLogs(s: State, id: Id, args: Args, s': State)
    requires Inv(s) && CanBegin(s, id) && s' == BeginCall(s, id, args)
    ensures OrderedInv(s') && ImmediateInv(s')
  {
    assert SomeoneCommits(s) == SomeoneCommits(s') by {
      if SomeoneCommits(s) {
        var u :| u in s.calls && Committing(s.calls[u].pc);
        assert u in s'.calls && Committing(s'.calls[u].pc);
      }
      if SomeoneCommits(s') {
        var u :| u in s'.calls && Committing(s'.calls[u].pc);
        assert u in s.calls && Committing(s.calls[u].pc);
      }
    }
    forall u | u in s'.calls && s'.calls[u].pc == Finished(DeliveredAtOnce) ensures LoggedImmediate(s', u) {
      assert u in s.calls && LoggedImmediate(s, u);
      var k :| 0 <= k < |s.immediate| && s.immediate[k].id == u;
      assert s'.immediate[k].id == u;
    }
  }

  lemma UnorderedCallInv(s: State, args: Args)
    requires Inv(s)
    ensures Inv(UnorderedCall(s, args))
  {
    var s' := UnorderedCall(s, args);
    UnorderedCallQueue(s, args, s');
    UnorderedCallLogs(s, args, s');
    UnorderedCallWake(s, args, s');
    hide *;
    Whole(s');
  }

  lemma UnorderedCallQueue(s: State, args: Args, s': State)
    requires Inv(s) && s' == UnorderedCall(s, args)
    ensures Shape(s') && LockInv(s') && IndexInv(s') && SlotInv(s') && FirstInv(s') && CallsInv(s') && FlusherInv(s')
  {
    QuietPrefix(s, s');
    forall u, x | s.first.Some? && CallInv(s, u, x) ensures CallInv(s', u, x) {}
    forall x | FlusherAt(s, x) ensures FlusherAt(s', x) {}
  }

  lemma UnorderedCallWake(s: State, args: Args, s': State)
    requires Inv(s) && s' == UnorderedCall(s, args)
    ensures Shape(s') && WakeInv(s') && CountInv(s')
  {
    QuietPrefix(s, s');
    forall k | Occupied(s', k) && s'.slots[k].id == s'.highest + 1 ensures SomeoneCovers(s', k) {
      assert Occupied(s, k);
      var f :| f in s.calls && Covers(s.calls[f].pc, k);
      assert f in s'.calls && Covers(s'.calls[f].pc, k);
    }
    if SomeoneAboutToFlush(s) {
      var f :| f in s.calls && AboutToFlush(s.calls[f].pc);
      assert f in s'.calls && AboutToFlush(s'.calls[f].pc);
    }
    if SomeoneKeepsCount(s) {
      var u :| u in s.calls && KeepsCount(s, u, s.calls[u].pc);
      assert u in s'.calls && KeepsCount(s', u, s'.calls[u].pc);
    }
  }

  lemma UnorderedCallLogs(s: State, args: Args, s': State)
    requires Inv(s) && s' == UnorderedCall(s, args)
    ensures OrderedInv(s') && ImmediateInv(s')
  {
    assert SomeoneCommits(s) == SomeoneCommits(s');
    forall u | u in s'.calls && s'.calls[u].pc == Finished(DeliveredAtOnce) ensures LoggedImmediate(s', u) {
      assert LoggedImmediate(s, u);
      var k :| 0 <= k < |s.immediate| && s.immediate[k].id == u;
      assert s'.immediate[k].id == u;
    }
  }

  /** What the invariant says about the call that moves. */
  lemma AtCall(s: State, t: Id)
    requires Inv(s) && t in s.calls
    ensures Shape(s) && 0 < t < UNSET && FlusherAt(s, s.calls[t].pc)
    ensures s.first == None ==> s.calls[t].pc == Begin || s.calls[t].pc == Decide(UNSET) || s.calls[t].pc == Reload
    ensures s.first.Some? ==> CallInv(s, t, s.calls[t].pc) && 0 < s.first.value <= s.highest + 1 && s.highest != UNSET
    ensures s.first == None <==> s.highest == UNSET
    ensures t in s.shared <==> InShared(s.calls[t].pc)
    ensures s.exclusive == Some(t) <==> InExclusive(s.calls[t].pc)
    ensures HasIndex(s.calls[t].pc) ==> s.calls[t].pc.index < s.count && !Occupied(s, s.calls[t].pc.index)
    ensures s.exclusive.Some? ==> s.shared == {}
    ensures forall k :: Occupied(s, k) ==> k < s.count && s.slots[k].id in s.calls && LoadArgs(s.slots[k]) == s.calls[s.slots[k].id].args
  {
  }

  lemma StartStep(s: State, t: Id, spurious: bool, s': State)
    requires Steps(s, t, spurious, s') && (s.calls[t].pc.Begin? || s.calls[t].pc.Reload?)
    ensures Inv(s')
  {
    hide Inv;
    AtCall(s, t);
    SilentStep(s, t, Decide(s.highest), s');
  }

  lemma DecideStep(s: State, t: Id, spurious: bool, s': State)
    requires Steps(s, t, spurious, s') && s.calls[t].pc.Decide?
    ensures Inv(s')
  {
    hide Inv;
    AtCall(s, t);
    var cur := s.calls[t].pc.cur;
    if cur == UNSET && s.highest == cur && !spurious {
      RegisterStep(s, t, s');
    } else if cur == t || (cur != UNSET && cur > t - 1) {
      SilentStep(s, t, Immediate, s');
    } else if cur == UNSET {
      SilentStep(s, t, Reload, s');
    } else if cur == t - 1 {
      SilentStep(s, t, FastCallback(cur), s');
    } else {
      LockingStep(s, t, Recheck1(cur), s');
    }
  }

  lemma CallbackSteps(s: State, t: Id, spurious: bool, s': State)
    requires Steps(s, t, spurious, s')
    requires s.calls[t].pc.Immediate? || s.calls[t].pc.FastCallback? || s.calls[t].pc.FlushCallback?
    ensures Inv(s')
  {
    hide Inv;
    AtCall(s, t);
    match s.calls[t].pc
    case Immediate => ImmediateStep(s, t, s');
    case FastCallback(cur) => CallbackStep(s, t, FastCommit(cur), t, s');
    case FlushCallback(i, n, nonZero, cur) => CallbackStep(s, t, FlushCommit(i, n, nonZero, cur), s.slots[i].id, s');
  }

  lemma CommitSteps(s: State, t: Id, spurious: bool, s': State)
    requires Steps(s, t, spurious, s') && (s.calls[t].pc.FastCommit? || s.calls[t].pc.FlushCommit? || s.calls[t].pc.ClearCount?)
    ensures Inv(s')
  {
    hide Inv;
    AtCall(s, t);
    match s.calls[t].pc
    case FastCommit(cur) => FastCommitStep(s, t, s');
    case FlushCommit(i, n, nonZero, cur) => FlushCommitStep(s, t, s');
    case ClearCount => ClearStep(s, t, s');
  }

  lemma RecheckSteps(s: State, t: Id, spurious: bool, s': State)
    requires Steps(s, t, spurious, s') && (s.calls[t].pc.Recheck1? || s.calls[t].pc.Recheck2?)
    ensures Inv(s')
  {
    hide Inv;
    AtCall(s, t);
    SilentStep(s, t, s'.calls[t].pc, s');
  }

  lemma SlotSteps(s: State, t: Id, spurious: bool, s': State)
    requires Steps(s, t, spurious, s') && (s.calls[t].pc.Reserve? || s.calls[t].pc.Store? || s.calls[t].pc.Abandon?)
    ensures Inv(s')
  {
    hide Inv;
    AtCall(s, t);
    match s.calls[t].pc
    case Reserve(cur) => ReserveStep(s, t, s');
    case Store(cur, index) => StoreStep(s, t, s');
    case Abandon(newer, index) => SilentStep(s, t, ReleaseShared(Some(newer)), s');
  }

  lemma LockSteps(s: State, t: Id, spurious: bool, s': State)
    requires Steps(s, t, spurious, s') && (s.calls[t].pc.ReleaseShared? || s.calls[t].pc.WaitExclusive? || s.calls[t].pc.ReleaseExclusive?)
    ensures Inv(s')
  {
    hide Inv;
    AtCall(s, t);
    LockingStep(s, t, s'.calls[t].pc, s');
  }

  lemma CountSteps(s: State, t: Id, spurious: bool, s': State)
    requires Steps(s, t, spurious, s') && (s.calls[t].pc.CheckCount? || s.calls[t].pc.LoadCount?)
    ensures Inv(s')
  {
    hide Inv;
    AtCall(s, t);
    SilentStep(s, t, s'.calls[t].pc, s');
  }

  /** One slot further in the flush loop. */
  lemma ScanAdvances(s: State, i: nat, nonZero: nat)
    requires Shape(s) && i < MAX_QUEUED_EVENTS && ScanPrefix(s, i, nonZero)
    ensures !Occupied(s, i) ==> ScanPrefix(s, i + 1, nonZero)
    ensures Occupied(s, i) ==> ScanPrefix(s, i + 1, nonZero + 1)
  {
    if nonZero > 0 {
      var k :| 0 <= k < i && Occupied(s, k);
      assert 0 <= k < i + 1 && Occupied(s, k);
    }
    if Occupied(s, i) {
      assert OccupiedBelow(s, i + 1);
    }
  }

  /** At the end of a pass that removed nothing and skipped nothing the whole array is empty: the assertion
      before the clearing of the count holds. */
  lemma ScanEnds(s: State, t: Id)
    requires Inv(s) && t in s.calls && s.calls[t].pc.Scan? && s.calls[t].pc.i == s.calls[t].pc.n
    ensures s.calls[t].pc.nonZero == 0 ==> EmptyUpTo(s, MAX_QUEUED_EVENTS)
    ensures s.calls[t].pc.nonZero > 0 ==> OccupiedBelow(s, MAX_QUEUED_EVENTS)
  {
    AtCall(s, t);
    hide Inv;
    if s.calls[t].pc.nonZero > 0 {
      var k :| 0 <= k < s.calls[t].pc.i && Occupied(s, k);
      assert 0 <= k < MAX_QUEUED_EVENTS && Occupied(s, k);
    }
  }

  /** The scan's position behind a slot that holds no deliverable event. */
  ghost function Skipped(s: State, pc: PC): PC
    requires Shape(s) && pc.Scan?
  {
    Scan(pc.i + 1, pc.n, pc.removed, if Occupied(s, pc.i) then pc.nonZero + 1 else pc.nonZero)
  }

  lemma SkippedQuiet(s: State, t: Id)
    requires Inv(s) && t in s.calls && s.calls[t].pc.Scan? && s.calls[t].pc.i < s.calls[t].pc.n
    requires !Occupied(s, s.calls[t].pc.i) || s.highest != s.slots[s.calls[t].pc.i].id - 1
    ensures Shape(s) && QuietPC(s, t, Skipped(s, s.calls[t].pc))
  {
    hide Inv;
    AtCall(s, t);
    ScanAdvances(s, s.calls[t].pc.i, s.calls[t].pc.nonZero);
  }

  lemma SkippedMoves(s: State, t: Id, spurious: bool, s': State)
    requires Steps(s, t, spurious, s') && s.calls[t].pc.Scan? && s.calls[t].pc.i < s.calls[t].pc.n
    requires !Occupied(s, s.calls[t].pc.i) || s.highest != s.slots[s.calls[t].pc.i].id - 1
    ensures Shape(s) && Shape(s') && Moves(s, t, Skipped(s, s.calls[t].pc), s') && SameQueue(s, s')
    ensures s'.shared == s.shared && s'.exclusive == s.exclusive && s'.ordered == s.ordered && s'.immediate == s.immediate
  {
    hide Inv;
    AtCall(s, t);
  }

  lemma ScanSkipStep(s: State, t: Id, spurious: bool, s': State)
    requires Steps(s, t, spurious, s') && s.calls[t].pc.Scan? && s.calls[t].pc.i < s.calls[t].pc.n
    requires !Occupied(s, s.calls[t].pc.i) || s.highest != s.slots[s.calls[t].pc.i].id - 1
    ensures Inv(s')
  {
    SkippedMoves(s, t, spurious, s');
    hide Inv, QuietPC, SameQueue, Occupied;
    SkippedQuiet(s, t);
    SilentStep(s, t, Skipped(s, s.calls[t].pc), s');
  }

  lemma NextSlotUnique(s: State, i: nat)
    requires Inv(s) && Occupied(s, i) && s.slots[i].id == s.highest + 1
    ensures forall k :: Occupied(s, k) && s.slots[k].id == s.highest + 1 ==> k == i
  {
  }

  lemma ScanFoundStep(s: State, t: Id, spurious: bool, s': State)
    requires Steps(s, t, spurious, s') && s.calls[t].pc.Scan? && s.calls[t].pc.i < s.calls[t].pc.n
    requires Occupied(s, s.calls[t].pc.i) && s.highest == s.slots[s.calls[t].pc.i].id - 1
    ensures Inv(s')
  {
    hide Inv;
    AtCall(s, t);
    var Scan(i, n, removed, nonZero) := s.calls[t].pc;
    NextSlotUnique(s, i);
    SilentStep(s, t, FlushCallback(i, n, nonZero, s.highest), s');
  }

  lemma ScanEndStep(s: State, t: Id, spurious: bool, s': State)
    requires Steps(s, t, spurious, s') && s.calls[t].pc.Scan? && s.calls[t].pc.i >= s.calls[t].pc.n
    ensures Inv(s')
  {
    hide Inv;
    AtCall(s, t);
    var Scan(i, n, removed, nonZero) := s.calls[t].pc;
    if removed {
      SilentStep(s, t, Scan(0, n, false, 0), s');
    } else {
      ScanEnds(s, t);
      if nonZero == 0 {
        assert forall k | 0 <= k < MAX_QUEUED_EVENTS :: !Occupied(s, k);
        SilentStep(s, t, ClearCount, s');
      } else {
        SilentStep(s, t, ReleaseExclusive, s');
      }
    }
  }

  /** The invariant is inductive. */
  lemma StepInv(s: State, t: Id, spurious: bool, s': State)
    requires Steps(s, t, spurious, s')
    ensures Inv(s')
  {
    hide Inv;
    match s.calls[t].pc
    case Begin => StartStep(s, t, spurious, s');
    case Reload => StartStep(s, t, spurious, s');
    case Decide(_) => DecideStep(s, t, spurious, s');
    case Immediate => CallbackSteps(s, t, spurious, s');
    case FastCallback(_) => CallbackSteps(s, t, spurious, s');
    case FlushCallback(_, _, _, _) => CallbackSteps(s, t, spurious, s');
    case FastCommit(_) => CommitSteps(s, t, spurious, s');
    case FlushCommit(_, _, _, _) => CommitSteps(s, t, spurious, s');
    case ClearCount => CommitSteps(s, t, spurious, s');
    case Recheck1(_) => RecheckSteps(s, t, spurious, s');
    case Recheck2(_, _) => RecheckSteps(s, t, spurious, s');
    case Reserve(_) => SlotSteps(s, t, spurious, s');
    case Store(_, _) => SlotSteps(s, t, spurious, s');
    case Abandon(_, _) => SlotSteps(s, t, spurious, s');
    case ReleaseShared(_) => LockSteps(s, t, spurious, s');
    case WaitExclusive => LockSteps(s, t, spurious, s');
    case ReleaseExclusive => LockSteps(s, t, spurious, s');
    case CheckCount => CountSteps(s, t, spurious, s');
    case LoadCount => CountSteps(s, t, spurious, s');
    case Scan(i, n, _, _) =>
      AtCall(s, t);
      if i < n && (!Occupied(s, i) || s.highest != s.slots[i].id - 1) {
        ScanSkipStep(s, t, spurious, s');
      } else if i < n {
        ScanFoundStep(s, t, spurious, s');
      } else {
        ScanEndStep(s, t, spurious, s');
      }
    case Finished(_) =>
    case Failed =>
  }
}
