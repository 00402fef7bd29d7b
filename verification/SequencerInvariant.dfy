/** The inductive invariant of the sequencer and its preservation by every step. */
module SequencerInvariant {
  import opened CombatEvents
  import opened Sequencer

  predicate InShared(pc: PC) {
    pc.Recheck1? || pc.Reserve? || pc.Recheck2? || pc.Store? || pc.Abandon? || pc.ReleaseShared?
  }

  predicate InExclusive(pc: PC) {
    pc.LoadCount? || pc.Scan? || pc.FlushCallback? || pc.FlushCommit? || pc.ClearCount? || pc.ReleaseExclusive?
  }

  /** The call has not been delivered and is not in the queue. */
  predicate Early(pc: PC) {
    pc.Begin? || pc.Decide? || pc.Reload? || pc.FastCallback? || pc.FastCommit?
    || (InShared(pc) && !(pc.ReleaseShared? && pc.next == None))
  }

  predicate IsQueued(pc: PC) {
    pc == ReleaseShared(None) || pc == Finished(Queued)
  }

  /** Between a successful compare-exchange of the call and the end of its flush. */
  predicate Flushing(pc: PC) {
    pc.CheckCount? || pc.WaitExclusive? || InExclusive(pc)
  }

  predicate HasIndex(pc: PC) {
    pc.Recheck2? || pc.Store? || pc.Abandon?
  }

  predicate Committing(pc: PC) {
    pc.FastCommit? || pc.FlushCommit?
  }

  /** A callback of the sequence is running, or has returned and is not committed yet. */
  predicate Ordering(pc: PC) {
    pc.FastCallback? || pc.FlushCallback? || Committing(pc)
  }

  ghost predicate Occupied(s: State, k: int)
    requires |s.slots| == MAX_QUEUED_EVENTS
  {
    0 <= k < MAX_QUEUED_EVENTS && s.slots[k].id != 0
  }

  ghost predicate EmptyUpTo(s: State, n: nat)
    requires |s.slots| == MAX_QUEUED_EVENTS
  {
    forall k :: 0 <= k < n ==> !Occupied(s, k)
  }

  ghost predicate OccupiedBelow(s: State, n: nat)
    requires |s.slots| == MAX_QUEUED_EVENTS
  {
    exists k :: 0 <= k < n && Occupied(s, k)
  }

  ghost predicate Shape(s: State) {
    && |s.slots| == MAX_QUEUED_EVENTS && s.count <= MAX_QUEUED_EVENTS
    && (forall t :: t in s.calls ==> 0 < t < UNSET)
  }

  ghost predicate LockInv(s: State) {
    && (forall t :: t in s.shared <==> t in s.calls && InShared(s.calls[t].pc))
    && (forall t :: t in s.calls ==> (InExclusive(s.calls[t].pc) <==> s.exclusive == Some(t)))
    && (s.exclusive.Some? ==> s.exclusive.value in s.calls && s.shared == {})
  }

  ghost predicate FirstInv(s: State) {
    && (s.first == None <==> s.highest == UNSET)
    && (s.first == None ==>
          s.count == 0 && s.ordered == []
          && forall t :: t in s.calls ==> s.calls[t].pc == Begin || s.calls[t].pc == Decide(UNSET) || s.calls[t].pc == Reload)
    && (s.first.Some? ==> 0 < s.first.value <= s.highest + 1)
  }

  ghost predicate InSlot(s: State, t: Id)
    requires |s.slots| == MAX_QUEUED_EVENTS
  {
    exists k :: Occupied(s, k) && s.slots[k].id == t
  }

  /** Where the id of a call lies relative to the first id and to `mHighestId`, by program counter. */
  ghost predicate CallInv(s: State, t: Id, pc: PC)
    requires Shape(s) && s.first.Some?
  {
    var p, h := s.first.value, s.highest;
    match pc
    case Begin => t < p || t > h
    case Reload => t < p || t > h
    case Decide(cur) => (cur == UNSET || p - 1 <= cur <= h) && (t < p || t > h)
    case Immediate => t < p
    case FastCallback(cur) => cur == h == t - 1
    case FastCommit(cur) => cur == h == t - 1
    case Recheck1(cur) => p - 1 <= cur <= h < t && cur + 1 < t
    case Reserve(cur) => p - 1 <= cur <= h < t && cur + 1 < t
    case Recheck2(cur, _) => p - 1 <= cur <= h < t && cur + 1 < t
    case Store(cur, _) => p - 1 <= cur <= h < t && cur + 1 < t
    case Abandon(newer, _) => p - 1 <= newer <= h < t
    case ReleaseShared(next) =>
      if next.Some? then p - 1 <= next.value <= h < t else p <= t && (t > h ==> InSlot(s, t))
    case Finished(how) =>
      (match how
       case DeliveredAtOnce => t < p
       case Queued => p <= t && (t > h ==> InSlot(s, t))
       case Sequenced => p <= t <= h)
    case Failed => false
    case _ => p <= t <= h
  }

  ghost predicate CallsInv(s: State)
    requires Shape(s)
  {
    s.first.Some? ==> forall t :: t in s.calls ==> CallInv(s, t, s.calls[t].pc)
  }

  ghost predicate IndexInv(s: State)
    requires Shape(s)
  {
    && (forall t :: t in s.calls && HasIndex(s.calls[t].pc) ==>
          s.calls[t].pc.index < s.count && !Occupied(s, s.calls[t].pc.index))
    && (forall t, u :: t in s.calls && u in s.calls && t != u && HasIndex(s.calls[t].pc) && HasIndex(s.calls[u].pc) ==>
          s.calls[t].pc.index != s.calls[u].pc.index)
    && (forall k :: Occupied(s, k) ==> k < s.count)
  }

  ghost predicate SlotInv(s: State)
    requires Shape(s)
  {
    && (forall k :: Occupied(s, k) ==>
          s.slots[k].id in s.calls && IsQueued(s.calls[s.slots[k].id].pc) && s.slots[k].id > s.highest
          && LoadArgs(s.slots[k]) == s.calls[s.slots[k].id].args)
    && (forall j, k :: Occupied(s, j) && Occupied(s, k) && s.slots[j].id == s.slots[k].id ==> j == k)
  }

  ghost predicate ScanPrefix(s: State, i: nat, nonZero: nat)
    requires Shape(s)
  {
    && (nonZero == 0 ==> EmptyUpTo(s, i))
    && (nonZero > 0 ==> OccupiedBelow(s, i))
  }

  ghost predicate FlusherAt(s: State, pc: PC)
    requires Shape(s)
  {
    match pc
    case Scan(i, n, removed, nonZero) => n == s.count && i <= n && ScanPrefix(s, i, nonZero)
    case FlushCallback(i, n, nonZero, cur) =>
      n == s.count && i < n && Occupied(s, i) && cur == s.highest == s.slots[i].id - 1 && ScanPrefix(s, i, nonZero)
    case FlushCommit(i, n, nonZero, cur) =>
      n == s.count && i < n && Occupied(s, i) && cur == s.highest == s.slots[i].id - 1 && ScanPrefix(s, i, nonZero)
    case ClearCount => EmptyUpTo(s, MAX_QUEUED_EVENTS)
    case ReleaseExclusive => s.count == 0 || OccupiedBelow(s, MAX_QUEUED_EVENTS)
    case _ => true
  }

  ghost predicate FlusherInv(s: State)
    requires Shape(s)
  {
    forall t :: t in s.calls ==> FlusherAt(s, s.calls[t].pc)
  }

  /** A flusher at `pc` will still look at slot `k`. */
  predicate Covers(pc: PC, k: int) {
    match pc
    case CheckCount => true
    case WaitExclusive => true
    case LoadCount => true
    case Scan(i, n, removed, nonZero) => k < n && (i <= k || removed)
    case FlushCallback(i, n, nonZero, cur) => k == i
    case FlushCommit(i, n, nonZero, cur) => k == i
    case _ => false
  }

  ghost predicate SomeoneCovers(s: State, k: int) {
    exists f :: f in s.calls && Covers(s.calls[f].pc, k)
  }

  predicate AboutToFlush(pc: PC) {
    pc.CheckCount? || pc.WaitExclusive?
  }

  ghost predicate SomeoneAboutToFlush(s: State) {
    exists f :: f in s.calls && AboutToFlush(s.calls[f].pc)
  }

  /** No lost wakeup: the slot that holds the next id is covered by a flusher, also while it is being filled. */
  ghost predicate WakeInv(s: State)
    requires Shape(s)
  {
    && (forall k :: Occupied(s, k) && s.slots[k].id == s.highest + 1 ==> SomeoneCovers(s, k))
    && (forall t :: t in s.calls && s.calls[t].pc.Store? && t == s.highest + 1 ==> SomeoneAboutToFlush(s))
  }

  /** A call at `pc` is on its way to a flush, or in one, that ends with the count cleared or a slot occupied. */
  ghost predicate KeepsCount(s: State, t: Id, pc: PC) {
    s.first.Some? && s.first.value <= t && (Early(pc) || (Flushing(pc) && !pc.ReleaseExclusive?))
  }

  ghost predicate SomeoneKeepsCount(s: State) {
    exists t :: t in s.calls && KeepsCount(s, t, s.calls[t].pc)
  }

  ghost predicate CountInv(s: State)
    requires Shape(s)
  {
    s.count > 0 ==> OccupiedBelow(s, MAX_QUEUED_EVENTS) || SomeoneKeepsCount(s)
  }

  ghost predicate SomeoneCommits(s: State) {
    exists t :: t in s.calls && Committing(s.calls[t].pc)
  }

  ghost predicate OrderedInv(s: State) {
    s.first.Some? ==>
      && |s.ordered| == s.highest + 1 - s.first.value + (if SomeoneCommits(s) then 1 else 0)
      && forall k :: 0 <= k < |s.ordered| ==>
        var d := s.ordered[k];
        d.id == s.first.value + k && d.id in s.calls && d.args == s.calls[d.id].args
  }

  ghost predicate LoggedImmediate(s: State, t: Id) {
    exists k :: 0 <= k < |s.immediate| && s.immediate[k].id == t
  }

  ghost predicate ImmediateInv(s: State) {
    && (forall k :: 0 <= k < |s.immediate| && s.immediate[k].id != 0 ==>
          var d := s.immediate[k];
          d.id in s.calls && s.calls[d.id].pc == Finished(DeliveredAtOnce) && d.args == s.calls[d.id].args)
    && (forall j, k :: 0 <= j < k < |s.immediate| && s.immediate[j].id != 0 ==> s.immediate[j].id != s.immediate[k].id)
    && (forall t :: t in s.calls && s.calls[t].pc == Finished(DeliveredAtOnce) ==>
          LoggedImmediate(s, t))
  }

  ghost predicate Inv(s: State) {
    && Shape(s) && LockInv(s) && FirstInv(s) && CallsInv(s) && IndexInv(s) && SlotInv(s) && FlusherInv(s)
    && WakeInv(s) && CountInv(s) && OrderedInv(s) && ImmediateInv(s)
  }

  lemma Parts(s: State)
    requires Inv(s)
    ensures Shape(s)
    ensures LockInv(s) && FirstInv(s) && CallsInv(s) && IndexInv(s) && SlotInv(s) && FlusherInv(s)
    ensures WakeInv(s) && CountInv(s) && OrderedInv(s) && ImmediateInv(s)
  {
  }

  lemma Whole(s: State)
    requires Shape(s) && LockInv(s) && FirstInv(s) && CallsInv(s) && IndexInv(s) && SlotInv(s) && FlusherInv(s)
    requires WakeInv(s) && CountInv(s) && OrderedInv(s) && ImmediateInv(s)
    ensures Inv(s)
  {
  }

  lemma InitInv(s: State)
    requires Init(s)
    ensures Inv(s)
  {
  }

  /** `s'` differs from `s` in the program counter of `t`, and perhaps in memory. */
  ghost predicate Moves(s: State, t: Id, pc: PC, s': State) {
    && Shape(s) && Shape(s') && t in s.calls
    && s'.calls == s.calls[t := s.calls[t].(pc := pc)]
  }

  ghost predicate SameQueue(s: State, s': State)
    requires Shape(s) && Shape(s')
  {
    && s'.highest == s.highest && s'.first == s.first && s'.count == s.count
    && forall k :: 0 <= k < MAX_QUEUED_EVENTS ==> s'.slots[k] == s.slots[k] || (s'.slots[k].id == 0 && s.slots[k].id == 0)
  }

  /** What a step that leaves the queue alone owes about its own program counter. */
  ghost predicate QuietPC(s: State, t: Id, pc: PC)
    requires Shape(s) && t in s.calls
  {
    var was := s.calls[t].pc;
    && (s.first == None ==> pc == Begin || pc == Decide(UNSET) || pc == Reload)
    && (s.first.Some? ==> CallInv(s, t, pc))
    && (HasIndex(pc) ==> HasIndex(was) && pc.index == was.index)
    && (IsQueued(was) ==> IsQueued(pc))
    && FlusherAt(s, pc)
    && (forall k :: Covers(was, k) && Occupied(s, k) && s.slots[k].id == s.highest + 1 ==> Covers(pc, k))
    && !(pc.Store? && t == s.highest + 1)
    && (AboutToFlush(was) && !AboutToFlush(pc) ==> s.count == 0 || s.shared == {})
    && (KeepsCount(s, t, was) ==> KeepsCount(s, t, pc) || s.count == 0 || OccupiedBelow(s, MAX_QUEUED_EVENTS))
  }

  lemma LockMove(s: State, t: Id, pc: PC, s': State)
    requires Moves(s, t, pc, s') && LockInv(s)
    requires s'.shared == if InShared(pc) then s.shared + {t} else s.shared - {t}
    requires s'.exclusive == if InExclusive(pc) then Some(t) else if s.exclusive == Some(t) then None else s.exclusive
    requires InShared(pc) && !InShared(s.calls[t].pc) ==> s.exclusive == None
    requires InExclusive(pc) && !InExclusive(s.calls[t].pc) ==> s.exclusive == None && s.shared == {}
    ensures LockInv(s')
  {
  }

  lemma UnlockedMove(s: State, t: Id, pc: PC, s': State)
    requires Moves(s, t, pc, s') && LockInv(s) && s'.shared == s.shared && s'.exclusive == s.exclusive
    requires InShared(pc) == InShared(s.calls[t].pc) && InExclusive(pc) == InExclusive(s.calls[t].pc)
    ensures LockInv(s')
  {
  }

  lemma QuietSlots(s: State, t: Id, pc: PC, s': State)
    requires Moves(s, t, pc, s') && SameQueue(s, s') && QuietPC(s, t, pc)
    requires IndexInv(s) && SlotInv(s)
    ensures IndexInv(s') && SlotInv(s')
  {
    forall k | Occupied(s', k) ensures Occupied(s, k) && s'.slots[k] == s.slots[k] {}
  }

  lemma QuietPrefix(s: State, s': State)
    requires Shape(s) && Shape(s') && SameQueue(s, s')
    ensures forall k :: Occupied(s, k) <==> Occupied(s', k)
    ensures forall i :: EmptyUpTo(s, i) == EmptyUpTo(s', i)
    ensures forall i :: OccupiedBelow(s, i) == OccupiedBelow(s', i)
    ensures forall t :: InSlot(s, t) == InSlot(s', t)
  {
    forall k ensures Occupied(s, k) <==> Occupied(s', k) {}
    forall i: nat ensures OccupiedBelow(s, i) == OccupiedBelow(s', i) {
      if OccupiedBelow(s, i) {
        var k :| 0 <= k < i && Occupied(s, k);
        assert Occupied(s', k);
      }
      if OccupiedBelow(s', i) {
        var k :| 0 <= k < i && Occupied(s', k);
        assert Occupied(s, k);
      }
    }
    forall t ensures InSlot(s, t) == InSlot(s', t) {
      if InSlot(s, t) {
        var k :| Occupied(s, k) && s.slots[k].id == t;
        assert Occupied(s', k) && s'.slots[k].id == t;
      }
      if InSlot(s', t) {
        var k :| Occupied(s', k) && s'.slots[k].id == t;
        assert Occupied(s, k) && s.slots[k].id == t;
      }
    }
  }

  lemma QuietCalls(s: State, t: Id, pc: PC, s': State)
    requires Moves(s, t, pc, s') && SameQueue(s, s') && QuietPC(s, t, pc)
    requires FirstInv(s) && CallsInv(s) && FlusherInv(s) && (s.first == None ==> s'.ordered == s.ordered)
    ensures FirstInv(s') && CallsInv(s') && FlusherInv(s')
  {
    QuietPrefix(s, s');
    forall u, x | s.first.Some? && CallInv(s, u, x) ensures CallInv(s', u, x) {}
    forall x | FlusherAt(s, x) ensures FlusherAt(s', x) {}
  }

  lemma QuietWake(s: State, t: Id, pc: PC, s': State)
    requires Moves(s, t, pc, s') && SameQueue(s, s') && QuietPC(s, t, pc)
    requires LockInv(s) && IndexInv(s) && WakeInv(s) && CountInv(s)
    ensures WakeInv(s') && CountInv(s')
  {
    QuietPrefix(s, s');
    forall k | Occupied(s', k) && s'.slots[k].id == s'.highest + 1
      ensures SomeoneCovers(s', k)
    {
      assert Occupied(s, k);
      var f :| f in s.calls && Covers(s.calls[f].pc, k);
      assert f in s'.calls && Covers(s'.calls[f].pc, k);
    }
    forall u | u in s'.calls && s'.calls[u].pc.Store? && u == s'.highest + 1
      ensures SomeoneAboutToFlush(s')
    {
      assert u != t && s.calls[u].pc.Store?;
      var f :| f in s.calls && AboutToFlush(s.calls[f].pc);
      assert u in s.shared && s.calls[u].pc.index < s.count;
      assert f in s'.calls && AboutToFlush(s'.calls[f].pc);
    }
    if s.count > 0 && !OccupiedBelow(s', MAX_QUEUED_EVENTS) {
      var u :| u in s.calls && KeepsCount(s, u, s.calls[u].pc);
      assert u in s'.calls && KeepsCount(s', u, s'.calls[u].pc);
    }
  }

  /** A step that leaves the queue alone keeps everything but the lock and the two histories, which
      other lemmas look after. */
  lemma QuietMove(s: State, t: Id, pc: PC, s': State)
    requires Moves(s, t, pc, s') && SameQueue(s, s') && Inv(s) && QuietPC(s, t, pc)
    requires s.first == None ==> s'.ordered == s.ordered
    ensures FirstInv(s') && CallsInv(s') && IndexInv(s') && SlotInv(s') && FlusherInv(s') && WakeInv(s') && CountInv(s')
  {
    hide *;
    Parts(s);
    QuietSlots(s, t, pc, s');
    QuietCalls(s, t, pc, s');
    QuietWake(s, t, pc, s');
  }

  lemma QuietLogs(s: State, t: Id, pc: PC, s': State)
    requires Moves(s, t, pc, s') && OrderedInv(s) && ImmediateInv(s)
    requires s'.ordered == s.ordered && s'.immediate == s.immediate && s'.highest == s.highest && s'.first == s.first
    requires Committing(pc) == Committing(s.calls[t].pc)
    requires s.calls[t].pc != Finished(DeliveredAtOnce) && pc != Finished(DeliveredAtOnce)
    ensures OrderedInv(s') && ImmediateInv(s')
  {
    assert SomeoneCommits(s) == SomeoneCommits(s') by {
      if SomeoneCommits(s) {
        var u :| u in s.calls && Committing(s.calls[u].pc);
        assert u in s'.calls && Committing(s'.calls[u].pc);
      }
      if SomeoneCommits(s') {
        var u :| u in s'.calls && Committing(s'.calls[u].pc);
        assert u in s.calls && Committing(s.calls[u].pc);
      }
    }
    forall u | u in s'.calls && s'.calls[u].pc == Finished(DeliveredAtOnce) ensures LoggedImmediate(s', u) {
      assert u != t && LoggedImmediate(s, u);
      var k :| 0 <= k < |s.immediate| && s.immediate[k].id == u;
      assert s'.immediate[k].id == u;
    }
  }

  /** A step that touches neither the queue nor the lock nor the histories. */
  lemma SilentStep(s: State, t: Id, pc: PC, s': State)
    requires Inv(s) && t in s.calls && QuietPC(s, t, pc) && Moves(s, t, pc, s') && SameQueue(s, s')
    requires s'.shared == s.shared && s'.exclusive == s.exclusive && s'.ordered == s.ordered && s'.immediate == s.immediate
    requires InShared(pc) == InShared(s.calls[t].pc) && InExclusive(pc) == InExclusive(s.calls[t].pc)
    requires Committing(pc) == Committing(s.calls[t].pc)
    requires s.calls[t].pc != Finished(DeliveredAtOnce) && pc != Finished(DeliveredAtOnce)
    ensures Inv(s')
  {
    Parts(s);
    UnlockedMove(s, t, pc, s');
    QuietLogs(s, t, pc, s');
    hide *;
    QuietMove(s, t, pc, s');
    Whole(s');
  }

  ghost predicate LocksOnly(s: State, t: Id, pc: PC, s': State)
    requires t in s.calls
  {
    var shared := if InShared(pc) then s.shared + {t} else s.shared - {t};
    var exclusive := if InExclusive(pc) then Some(t) else if s.exclusive == Some(t) then None else s.exclusive;
    && s' == s.(shared := shared, exclusive := exclusive).Goto(t, pc)
    && (InShared(pc) && !InShared(s.calls[t].pc) ==> s.exclusive == None)
    && (InExclusive(pc) && !InExclusive(s.calls[t].pc) ==> s.exclusive == None && s.shared == {})
  }

  lemma LockMoveBy(s: State, t: Id, pc: PC, s': State)
    requires Shape(s) && LockInv(s) && t in s.calls && LocksOnly(s, t, pc, s')
    ensures LockInv(s')
  {
    LockMove(s, t, pc, s');
  }

  lemma LockLogs(s: State, t: Id, pc: PC, s': State)
    requires Shape(s) && OrderedInv(s) && ImmediateInv(s) && t in s.calls && LocksOnly(s, t, pc, s')
    requires Committing(pc) == Committing(s.calls[t].pc)
    requires s.calls[t].pc != Finished(DeliveredAtOnce) && pc != Finished(DeliveredAtOnce)
    ensures Moves(s, t, pc, s') && OrderedInv(s') && ImmediateInv(s')
  {
    QuietLogs(s, t, pc, s');
  }

  lemma LocksSameQueue(s: State, t: Id, pc: PC, s': State)
    requires Shape(s) && t in s.calls && LocksOnly(s, t, pc, s')
    ensures Shape(s') && SameQueue(s, s') && s'.ordered == s.ordered
  {
  }

  lemma LockingStep(s: State, t: Id, pc: PC, s': State)
    requires Inv(s) && t in s.calls && QuietPC(s, t, pc)
    requires LocksOnly(s, t, pc, s')
    requires Committing(pc) == Committing(s.calls[t].pc)
    requires s.calls[t].pc != Finished(DeliveredAtOnce) && pc != Finished(DeliveredAtOnce)
    ensures Inv(s')
  {
    hide *;
    Parts(s);
    LocksSameQueue(s, t, pc, s');
    LockMoveBy(s, t, pc, s');
    LockLogs(s, t, pc, s');
    QuietMove(s, t, pc, s');
    Whole(s');
  }

  lemma ScanPrefixSame(s: State, s': State)
    requires Shape(s) && Shape(s') && s'.slots == s.slots
    ensures forall i, n :: ScanPrefix(s, i, n) == ScanPrefix(s', i, n)
    ensures OccupiedBelow(s, MAX_QUEUED_EVENTS) == OccupiedBelow(s', MAX_QUEUED_EVENTS)
  {
    forall k ensures Occupied(s, k) == Occupied(s', k) {}
    forall i: nat ensures EmptyUpTo(s, i) == EmptyUpTo(s', i) && OccupiedBelow(s, i) == OccupiedBelow(s', i) {
      if OccupiedBelow(s, i) {
        var k :| 0 <= k < i && Occupied(s, k);
        assert Occupied(s', k);
      }
      if OccupiedBelow(s', i) {
        var k :| 0 <= k < i && Occupied(s', k);
        assert Occupied(s, k);
      }
    }
  }

  lemma QuietImmediate(s: State, t: Id, pc: PC, s': State)
    requires Moves(s, t, pc, s') && ImmediateInv(s) && s'.immediate == s.immediate
    requires s.calls[t].pc != Finished(DeliveredAtOnce) && pc != Finished(DeliveredAtOnce)
    ensures ImmediateInv(s')
  {
    forall u | u in s'.calls && s'.calls[u].pc == Finished(DeliveredAtOnce) ensures LoggedImmediate(s', u) {
      assert u != t && LoggedImmediate(s, u);
      var k :| 0 <= k < |s.immediate| && s.immediate[k].id == u;
      assert s'.immediate[k].id == u;
    }
  }

  // ----- The first registration: mHighestId moves from UINT64_MAX to t - 1

  ghost predicate Registers(s: State, t: Id, s': State) {
    && Shape(s) && t in s.calls && s.calls[t].pc == Decide(UNSET) && s.highest == UNSET
    && s' == s.(highest := t - 1, first := Some(t)).Goto(t, Reload)
  }

  lemma RegisterQueue(s: State, t: Id, s': State)
    requires Registers(s, t, s') && FirstInv(s) && IndexInv(s)
    ensures Shape(s') && FirstInv(s') && IndexInv(s') && SlotInv(s') && CountInv(s')
    ensures WakeInv(s')
  {
    forall k ensures !Occupied(s', k) { assert !Occupied(s, k); }
    assert forall u :: u in s'.calls ==> !HasIndex(s'.calls[u].pc) && !s'.calls[u].pc.Store?;
  }

  lemma RegisterCalls(s: State, t: Id, s': State)
    requires Registers(s, t, s') && Shape(s') && FirstInv(s) && OrderedInv(s)
    ensures CallsInv(s') && FlusherInv(s') && OrderedInv(s')
  {
    forall u | u in s'.calls
      ensures CallInv(s', u, s'.calls[u].pc) && FlusherAt(s', s'.calls[u].pc)
      ensures !Committing(s'.calls[u].pc)
    {
      var pc := s'.calls[u].pc;
      assert pc == Begin || pc == Decide(UNSET) || pc == Reload;
    }
  }

  lemma RegisterStep(s: State, t: Id, s': State)
    requires Inv(s) && Registers(s, t, s')
    ensures Inv(s')
  {
    UnlockedMove(s, t, Reload, s');
    QuietImmediate(s, t, Reload, s');
    hide *;
    Parts(s);
    RegisterQueue(s, t, s');
    RegisterCalls(s, t, s');
    Whole(s');
  }

  // ----- The fast path commits: mHighestId moves from t - 1 to t

  ghost predicate FastCommits(s: State, t: Id, s': State) {
    && Shape(s) && s.first.Some? && t in s.calls && s.calls[t].pc.FastCommit?
    && CallInv(s, t, s.calls[t].pc)
    && s' == s.(highest := t).Goto(t, CheckCount)
  }

  lemma FastCommitSlots(s: State, t: Id, s': State)
    requires FastCommits(s, t, s') && FirstInv(s) && IndexInv(s) && SlotInv(s)
    ensures Shape(s') && FirstInv(s') && IndexInv(s') && SlotInv(s')
    ensures forall k :: Occupied(s, k) ==> s.slots[k].id > t
  {
    forall k ensures Occupied(s', k) == Occupied(s, k) {}
    forall k | Occupied(s, k) ensures s.slots[k].id > t {}
  }

  lemma FastCommitCall(s: State, t: Id, s': State, u: Id)
    requires FastCommits(s, t, s') && Shape(s') && u in s.calls && u != t
    requires CallInv(s, u, s.calls[u].pc) && FlusherAt(s, s.calls[u].pc)
    requires forall k :: Occupied(s, k) ==> s.slots[k].id > t
    ensures CallInv(s', u, s.calls[u].pc) && FlusherAt(s', s.calls[u].pc) && !Committing(s.calls[u].pc)
  {
    ScanPrefixSame(s, s');
    if InSlot(s, u) {
      var k :| Occupied(s, k) && s.slots[k].id == u;
      assert Occupied(s', k) && s'.slots[k].id == u;
    }
  }

  lemma FastCommitCalls(s: State, t: Id, s': State)
    requires FastCommits(s, t, s') && Shape(s') && FirstInv(s) && CallsInv(s) && FlusherInv(s) && OrderedInv(s)
    requires forall k :: Occupied(s, k) ==> s.slots[k].id > t
    ensures CallsInv(s') && FlusherInv(s') && OrderedInv(s')
  {
    forall u | u in s'.calls && u != t
      ensures CallInv(s', u, s'.calls[u].pc) && FlusherAt(s', s'.calls[u].pc) && !Committing(s'.calls[u].pc)
    {
      FastCommitCall(s, t, s', u);
    }
    assert SomeoneCommits(s) by { assert Committing(s.calls[t].pc); }
    assert !SomeoneCommits(s');
  }

  lemma FastCommitWake(s: State, t: Id, s': State)
    requires FastCommits(s, t, s') && Shape(s') && FirstInv(s)
    ensures WakeInv(s') && CountInv(s')
  {
    var pc := s'.calls[t].pc;
    assert AboutToFlush(pc) && KeepsCount(s', t, pc);
    forall k | Occupied(s', k) ensures SomeoneCovers(s', k) {
      assert Covers(pc, k);
    }
  }

  lemma FastCommitUnlocked(s: State, t: Id, s': State)
    requires FastCommits(s, t, s') && Shape(s') && LockInv(s) && ImmediateInv(s)
    ensures LockInv(s') && ImmediateInv(s')
  {
    UnlockedMove(s, t, CheckCount, s');
    QuietImmediate(s, t, CheckCount, s');
  }

  lemma FastCommitStep(s: State, t: Id, s': State)
    requires Inv(s) && FastCommits(s, t, s')
    ensures Inv(s')
  {
    hide *;
    Parts(s);
    FastCommitSlots(s, t, s');
    FastCommitCalls(s, t, s');
    FastCommitWake(s, t, s');
    FastCommitUnlocked(s, t, s');
    Whole(s');
  }

  // ----- fetch_add hands out the next slot

  ghost predicate Reserves(s: State, t: Id, s': State) {
    && Shape(s) && s.first.Some? && s.count < MAX_QUEUED_EVENTS
    && t in s.calls && s.calls[t].pc.Reserve?
    && CallInv(s, t, s.calls[t].pc)
    && s' == s.(count := s.count + 1).Goto(t, Recheck2(s.calls[t].pc.cur, s.count))
  }

  lemma ReserveSlots(s: State, t: Id, s': State)
    requires Reserves(s, t, s') && FirstInv(s) && IndexInv(s) && SlotInv(s)
    ensures Shape(s') && FirstInv(s') && IndexInv(s') && SlotInv(s')
  {
    forall k ensures Occupied(s', k) == Occupied(s, k) {}
  }

  lemma ReserveCalls(s: State, t: Id, s': State)
    requires Reserves(s, t, s') && Shape(s') && CallsInv(s) && LockInv(s)
    ensures CallsInv(s') && FlusherInv(s')
  {
    forall k ensures Occupied(s', k) == Occupied(s, k) {}
    forall u | u in s'.calls ensures CallInv(s', u, s'.calls[u].pc) && !InExclusive(s'.calls[u].pc) {
      assert CallInv(s, u, s.calls[u].pc) && t in s.shared;
      if InSlot(s, u) {
        var k :| Occupied(s, k) && s.slots[k].id == u;
        assert Occupied(s', k) && s'.slots[k].id == u;
      }
    }
  }

  lemma ReserveWake(s: State, t: Id, s': State)
    requires Reserves(s, t, s') && Shape(s') && WakeInv(s)
    ensures WakeInv(s') && CountInv(s')
  {
    forall k | Occupied(s', k) && s'.slots[k].id == s'.highest + 1 ensures SomeoneCovers(s', k) {
      assert Occupied(s, k);
      var f :| f in s.calls && Covers(s.calls[f].pc, k);
      assert f in s'.calls && Covers(s'.calls[f].pc, k);
    }
    forall u | u in s'.calls && s'.calls[u].pc.Store? && u == s'.highest + 1 ensures SomeoneAboutToFlush(s') {
      assert u != t && s.calls[u].pc.Store?;
      var f :| f in s.calls && AboutToFlush(s.calls[f].pc);
      assert f in s'.calls && AboutToFlush(s'.calls[f].pc);
    }
    assert KeepsCount(s', t, s'.calls[t].pc);
  }

  lemma ReserveStep(s: State, t: Id, s': State)
    requires Inv(s) && Reserves(s, t, s')
    ensures Inv(s')
  {
    UnlockedMove(s, t, s'.calls[t].pc, s');
    QuietLogs(s, t, s'.calls[t].pc, s');
    hide *;
    Parts(s);
    ReserveSlots(s, t, s');
    ReserveCalls(s, t, s');
    ReserveWake(s, t, s');
    Whole(s');
  }

  // ----- The reserved slot is filled

  ghost predicate Stores(s: State, t: Id, s': State) {
    && Shape(s) && s.first.Some? && t in s.calls && s.calls[t].pc.Store?
    && CallInv(s, t, s.calls[t].pc)
    && s.calls[t].pc.index < s.count && !Occupied(s, s.calls[t].pc.index)
    && (var index := s.calls[t].pc.index;
        s' == s.(slots := s.slots[index := StoreArgs(s.slots[index], t, s.calls[t].args)]).Goto(t, ReleaseShared(None)))
  }

  lemma StoreOccupies(s: State, t: Id, s': State)
    requires Stores(s, t, s')
    ensures Shape(s') && LoadArgs(s'.slots[s.calls[t].pc.index]) == s.calls[t].args
    ensures forall k :: Occupied(s', k) <==> Occupied(s, k) || k == s.calls[t].pc.index
    ensures forall k :: Occupied(s, k) ==> s'.slots[k] == s.slots[k]
  {
  }

  lemma StoreSlots(s: State, t: Id, s': State)
    requires Stores(s, t, s') && FirstInv(s) && IndexInv(s) && SlotInv(s)
    ensures Shape(s') && FirstInv(s') && IndexInv(s') && SlotInv(s')
  {
    StoreOccupies(s, t, s');
    hide Occupied, StoreArgs, LoadArgs;
  }

  lemma StoreCalls(s: State, t: Id, s': State)
    requires Stores(s, t, s') && CallsInv(s) && LockInv(s)
    ensures Shape(s') && CallsInv(s') && FlusherInv(s')
  {
    StoreOccupies(s, t, s');
    forall u | u in s'.calls ensures CallInv(s', u, s'.calls[u].pc) && !InExclusive(s'.calls[u].pc) {
      assert CallInv(s, u, s.calls[u].pc) && t in s.shared;
      if u == t {
        assert Occupied(s', s.calls[t].pc.index) && s'.slots[s.calls[t].pc.index].id == t;
      }
      if InSlot(s, u) {
        var k :| Occupied(s, k) && s.slots[k].id == u;
        assert Occupied(s', k) && s'.slots[k].id == u;
      }
    }
  }

  lemma StoreWake(s: State, t: Id, s': State)
    requires Stores(s, t, s') && WakeInv(s)
    ensures Shape(s') && WakeInv(s') && CountInv(s')
  {
    StoreOccupies(s, t, s');
    forall k | Occupied(s', k) && s'.slots[k].id == s'.highest + 1 ensures SomeoneCovers(s', k) {
      if Occupied(s, k) {
        var f :| f in s.calls && Covers(s.calls[f].pc, k);
        assert f in s'.calls && Covers(s'.calls[f].pc, k);
      } else {
        assert t == s.highest + 1 && SomeoneAboutToFlush(s);
        var f :| f in s.calls && AboutToFlush(s.calls[f].pc);
        assert f in s'.calls && Covers(s'.calls[f].pc, k);
      }
    }
    forall u | u in s'.calls && s'.calls[u].pc.Store? && u == s'.highest + 1 ensures SomeoneAboutToFlush(s') {
      assert u != t && s.calls[u].pc.Store?;
      var f :| f in s.calls && AboutToFlush(s.calls[f].pc);
      assert f in s'.calls && AboutToFlush(s'.calls[f].pc);
    }
    assert Occupied(s', s.calls[t].pc.index);
  }

  lemma StoreStep(s: State, t: Id, s': State)
    requires Inv(s) && Stores(s, t, s')
    ensures Inv(s')
  {
    UnlockedMove(s, t, ReleaseShared(None), s');
    QuietLogs(s, t, ReleaseShared(None), s');
    hide *;
    Parts(s);
    StoreSlots(s, t, s');
    StoreCalls(s, t, s');
    StoreWake(s, t, s');
    Whole(s');
  }

  // ----- Callbacks of the sequence

  /** No two callbacks of the sequence are in progress at the same time. */
  lemma OrderingUnique(s: State, t: Id, u: Id)
    requires Shape(s) && s.first.Some? && LockInv(s) && CallsInv(s) && SlotInv(s) && FlusherInv(s)
    requires t in s.calls && u in s.calls && Ordering(s.calls[t].pc) && Ordering(s.calls[u].pc)
    ensures t == u
  {
    assert CallInv(s, t, s.calls[t].pc) && CallInv(s, u, s.calls[u].pc);
    assert FlusherAt(s, s.calls[t].pc) && FlusherAt(s, s.calls[u].pc);
  }

  lemma OrderedAppend(s: State, t: Id, pc: PC, s': State, id: Id)
    requires Moves(s, t, pc, s') && s.first.Some? && OrderedInv(s) && FirstInv(s)
    requires !SomeoneCommits(s) && Committing(pc) && id == s.highest + 1 && id in s.calls
    requires s'.ordered == s.ordered + [Delivery(id, s.calls[id].args)] && s'.highest == s.highest && s'.first == s.first
    ensures OrderedInv(s')
  {
    assert Committing(s'.calls[t].pc);
    assert SomeoneCommits(s');
  }

  lemma NoOtherCommit(s: State, t: Id)
    requires Shape(s) && s.first.Some? && LockInv(s) && CallsInv(s) && SlotInv(s) && FlusherInv(s)
    requires t in s.calls && Ordering(s.calls[t].pc) && !Committing(s.calls[t].pc)
    ensures !SomeoneCommits(s)
  {
    if SomeoneCommits(s) {
      var u :| u in s.calls && Committing(s.calls[u].pc);
      OrderingUnique(s, t, u);
    }
  }

  lemma CallbackStep(s: State, t: Id, pc: PC, id: Id, s': State)
    requires Inv(s) && s.first.Some? && t in s.calls && QuietPC(s, t, pc)
    requires (s.calls[t].pc.FastCallback? && pc.FastCommit?) || (s.calls[t].pc.FlushCallback? && pc.FlushCommit?)
    requires id == s.highest + 1 && id in s.calls
    requires s' == s.(ordered := s.ordered + [Delivery(id, s.calls[id].args)]).Goto(t, pc)
    ensures Inv(s')
  {
    UnlockedMove(s, t, pc, s');
    QuietImmediate(s, t, pc, s');
    assert Ordering(s.calls[t].pc) && !Committing(s.calls[t].pc) && Committing(pc);
    assert SameQueue(s, s');
    hide *;
    Parts(s);
    NoOtherCommit(s, t);
    OrderedAppend(s, t, pc, s', id);
    QuietMove(s, t, pc, s');
    Whole(s');
  }

  lemma ImmediateLogged(s: State, t: Id, s': State)
    requires Shape(s) && t in s.calls && s.calls[t].pc == Immediate && ImmediateInv(s)
    requires s' == s.(immediate := s.immediate + [Delivery(t, s.calls[t].args)]).Goto(t, Finished(DeliveredAtOnce))
    ensures ImmediateInv(s')
  {
    forall k | 0 <= k < |s.immediate| ensures s.immediate[k].id != t {
      assert t != 0;
    }
    forall u | u in s'.calls && s'.calls[u].pc == Finished(DeliveredAtOnce) ensures LoggedImmediate(s', u) {
      if u == t {
        assert s'.immediate[|s.immediate|].id == t;
      } else {
        assert LoggedImmediate(s, u);
        var k :| 0 <= k < |s.immediate| && s.immediate[k].id == u;
        assert s'.immediate[k].id == u;
      }
    }
  }

  lemma QuietOrdered(s: State, t: Id, pc: PC, s': State)
    requires Moves(s, t, pc, s') && OrderedInv(s)
    requires s'.ordered == s.ordered && s'.highest == s.highest && s'.first == s.first
    requires Committing(pc) == Committing(s.calls[t].pc)
    ensures OrderedInv(s')
  {
    assert SomeoneCommits(s) == SomeoneCommits(s') by {
      if SomeoneCommits(s) {
        var u :| u in s.calls && Committing(s.calls[u].pc);
        assert u in s'.calls && Committing(s'.calls[u].pc);
      }
      if SomeoneCommits(s') {
        var u :| u in s'.calls && Committing(s'.calls[u].pc);
        assert u in s.calls && Committing(s.calls[u].pc);
      }
    }
  }

  lemma ImmediateStep(s: State, t: Id, s': State)
    requires Inv(s) && t in s.calls && s.calls[t].pc == Immediate && QuietPC(s, t, Finished(DeliveredAtOnce))
    requires s' == s.(immediate := s.immediate + [Delivery(t, s.calls[t].args)]).Goto(t, Finished(DeliveredAtOnce))
    ensures Inv(s')
  {
    UnlockedMove(s, t, Finished(DeliveredAtOnce), s');
    QuietOrdered(s, t, Finished(DeliveredAtOnce), s');
    assert SameQueue(s, s');
    hide *;
    Parts(s);
    ImmediateLogged(s, t, s');
    QuietMove(s, t, Finished(DeliveredAtOnce), s');
    Whole(s');
  }

  // ----- The flusher commits the event of slot i

  ghost predicate FlushCommits(s: State, t: Id, s': State) {
    && Shape(s) && s.first.Some? && t in s.calls && s.calls[t].pc.FlushCommit?
    && FlusherAt(s, s.calls[t].pc) && CallInv(s, t, s.calls[t].pc)
    && (var FlushCommit(i, n, nonZero, cur) := s.calls[t].pc;
        s' == s.(highest := s.slots[i].id, slots := s.slots[i := s.slots[i].(id := 0)]).Goto(t, Scan(i + 1, n, true, nonZero)))
  }

  lemma FlushOccupies(s: State, t: Id, s': State)
    requires FlushCommits(s, t, s')
    ensures Shape(s') && s'.highest == s.highest + 1
    ensures forall k :: Occupied(s', k) <==> Occupied(s, k) && k != s.calls[t].pc.i
    ensures forall k :: Occupied(s', k) ==> s'.slots[k] == s.slots[k]
  {
  }

  lemma FlushSlots(s: State, t: Id, s': State)
    requires FlushCommits(s, t, s') && FirstInv(s) && IndexInv(s) && SlotInv(s)
    ensures Shape(s') && FirstInv(s') && IndexInv(s') && SlotInv(s')
  {
    FlushOccupies(s, t, s');
  }

  lemma FlushCalls(s: State, t: Id, s': State)
    requires FlushCommits(s, t, s') && CallsInv(s) && LockInv(s) && SlotInv(s)
    ensures Shape(s') && CallsInv(s')
  {
    FlushOccupies(s, t, s');
    forall u | u in s'.calls ensures CallInv(s', u, s'.calls[u].pc) {
      assert CallInv(s, u, s.calls[u].pc);
      if InSlot(s, u) && u > s'.highest {
        var k :| Occupied(s, k) && s.slots[k].id == u;
        assert Occupied(s', k) && s'.slots[k].id == u;
      }
    }
  }

  lemma FlushScan(s: State, t: Id, s': State)
    requires FlushCommits(s, t, s') && LockInv(s)
    ensures Shape(s') && FlusherInv(s')
  {
    FlushOccupies(s, t, s');
    var FlushCommit(i, n, nonZero, cur) := s.calls[t].pc;
    if nonZero > 0 {
      var k :| 0 <= k < i && Occupied(s, k);
      assert Occupied(s', k);
    }
    forall u | u in s'.calls && u != t ensures !InExclusive(s'.calls[u].pc) {
      assert s.exclusive == Some(t);
    }
  }

  lemma FlushWake(s: State, t: Id, s': State)
    requires FlushCommits(s, t, s') && LockInv(s) && IndexInv(s)
    ensures Shape(s') && WakeInv(s') && CountInv(s')
  {
    FlushOccupies(s, t, s');
    forall k | Occupied(s', k) ensures SomeoneCovers(s', k) {
      assert Covers(s'.calls[t].pc, k);
    }
    forall u | u in s'.calls ensures !s'.calls[u].pc.Store? {
      assert s.exclusive == Some(t) && u !in s.shared;
    }
    assert KeepsCount(s', t, s'.calls[t].pc);
  }

  lemma FlushOrdered(s: State, t: Id, s': State)
    requires FlushCommits(s, t, s') && LockInv(s) && CallsInv(s) && SlotInv(s) && FlusherInv(s) && OrderedInv(s)
    ensures Shape(s') && OrderedInv(s')
  {
    FlushOccupies(s, t, s');
    assert SomeoneCommits(s) by { assert Committing(s.calls[t].pc); }
    forall u | u in s'.calls ensures !Committing(s'.calls[u].pc) {
      if u != t && Committing(s.calls[u].pc) {
        OrderingUnique(s, t, u);
      }
    }
  }

  lemma FlushCommitStep(s: State, t: Id, s': State)
    requires Inv(s) && FlushCommits(s, t, s')
    ensures Inv(s')
  {
    UnlockedMove(s, t, s'.calls[t].pc, s');
    QuietImmediate(s, t, s'.calls[t].pc, s');
    hide *;
    Parts(s);
    FlushSlots(s, t, s');
    FlushCalls(s, t, s');
    FlushScan(s, t, s');
    FlushWake(s, t, s');
    FlushOrdered(s, t, s');
    Whole(s');
  }

  // ----- The flusher clears the count

  ghost predicate Clears(s: State, t: Id, s': State) {
    && Shape(s) && s.first.Some? && t in s.calls && s.calls[t].pc.ClearCount?
    && FlusherAt(s, s.calls[t].pc) && CallInv(s, t, s.calls[t].pc)
    && s' == s.(count := 0).Goto(t, ReleaseExclusive)
  }

  lemma ClearQueue(s: State, t: Id, s': State)
    requires Clears(s, t, s') && FirstInv(s) && LockInv(s)
    ensures Shape(s') && FirstInv(s') && IndexInv(s') && SlotInv(s') && FlusherInv(s') && WakeInv(s') && CountInv(s')
  {
    forall k ensures !Occupied(s', k) {
      assert !Occupied(s, k);
    }
    forall u | u in s'.calls ensures !InShared(s'.calls[u].pc) && (u == t || !InExclusive(s'.calls[u].pc)) {
      assert s.exclusive == Some(t) && u !in s.shared;
    }
  }

  lemma ClearCalls(s: State, t: Id, s': State)
    requires Clears(s, t, s') && CallsInv(s)
    ensures Shape(s') && CallsInv(s')
  {
    forall u | u in s'.calls ensures CallInv(s', u, s'.calls[u].pc) {
      assert CallInv(s, u, s.calls[u].pc);
      if InSlot(s, u) {
        var k :| Occupied(s, k) && s.slots[k].id == u;
        assert Occupied(s', k) && s'.slots[k].id == u;
      }
    }
  }

  lemma ClearStep(s: State, t: Id, s': State)
    requires Inv(s) && Clears(s, t, s')
    ensures Inv(s')
  {
    UnlockedMove(s, t, ReleaseExclusive, s');
    QuietLogs(s, t, ReleaseExclusive, s');
    hide *;
    Parts(s);
    ClearQueue(s, t, s');
    ClearCalls(s, t, s');
    Whole(s');
  }
}
