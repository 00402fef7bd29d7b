/** Every call of the sequencer returns: how many steps it can still take, whatever the other calls do. */
module SequencerTermination {
  import opened CombatEvents
  import opened Sequencer
  import opened SequencerInvariant
  import opened SequencerSteps
  import opened SequencerTheorems

  // ----- The rank of a call

  /** How far `mHighestId` is below the call's id. */
  function Distance(highest: u64, t: Id): nat {
    if highest == UNSET then t + 1 else if highest < t then t - highest else 0
  }

  /** The call's `current` is not the present `mHighestId`, and that makes a difference to it. */
  predicate Outdated(highest: u64, t: Id, cur: u64) {
    cur != highest && (cur == UNSET || cur < t)
  }

  /** The steps that are left of the retry loop as long as `mHighestId` does not change. */
  function Retries(highest: u64, t: Id, pc: PC): nat {
    match pc
    case Begin => 7
    case Reload => 7
    case Decide(cur) => if Outdated(highest, t, cur) then 13 else 6
    case Recheck1(cur) => if Outdated(highest, t, cur) then 12 else 5
    case Reserve(cur) => if Outdated(highest, t, cur) then 11 else 4
    case Recheck2(cur, _) => if Outdated(highest, t, cur) then 10 else 3
    case Abandon(newer, _) => if Outdated(highest, t, newer) then 15 else 8
    case ReleaseShared(next) => if next.Some? && Outdated(highest, t, next.value) then 14 else 7
    case Store(_, _) => 2
    case FastCallback(_) => 2
    case _ => 1
  }

  predicate Retrying(pc: PC) {
    Early(pc) || pc.Immediate?
  }

  /** More than the steps of any flush. */
  const FLUSH := 600_000

  /** A bound on the steps that the call `t` still takes. */
  ghost function CallRank(s: State, t: Id): int
    requires |s.slots| == MAX_QUEUED_EVENTS && t in s.calls
  {
    var pc := s.calls[t].pc;
    if Retrying(pc) then FLUSH + 4 + 16 * Distance(s.highest, t) + Retries(s.highest, t, pc)
    else if InFlushLoop(pc) then FlushRank(s, pc) + 2
    else LockRank(pc)
  }

  function LockRank(pc: PC): nat {
    match pc
    case CheckCount => FLUSH + 3
    case WaitExclusive => FLUSH + 2
    case LoadCount => FLUSH + 1
    case ClearCount => 2
    case ReleaseExclusive => 1
    case ReleaseShared(_) => 1
    case _ => 0
  }

  /** A step of `t` in which the weak compare-exchange does not fail for no reason. */
  ghost predicate Advances(s: State, t: Id, s': State) {
    t in s.calls && t > 0 && |s.slots| == MAX_QUEUED_EVENTS && Step(s, t, false) == Some(s')
  }

  // ----- The call's own steps

  /** Where a call that is not delivered yet goes from `pc`, and what `mHighestId` is then. */
  predicate RetriesTo(t: Id, highest: u64, pc: PC, highest': u64, pc': PC) {
    match pc
    case Begin => highest' == highest && pc' == Decide(highest)
    case Reload => highest' == highest && pc' == Decide(highest)
    case Decide(cur) =>
      || (cur == highest == UNSET && t > 0 && highest' == t - 1 && pc' == Reload)
      || (highest' == highest && (pc' == Immediate || pc' == FastCallback(cur) || pc' == Recheck1(cur)))
      || (highest' == highest && pc' == Reload && cur == UNSET != highest)
    case Recheck1(cur) => highest' == highest && cur < t && pc' == if cur == highest then Reserve(cur) else ReleaseShared(Some(highest))
    case Reserve(cur) => highest' == highest && pc'.Recheck2? && pc'.cur == cur
    case Recheck2(cur, index) =>
      highest' == highest && cur < t && pc' == if cur == highest then Store(cur, index) else Abandon(highest, index)
    case Abandon(newer, _) => highest' == highest && pc' == ReleaseShared(Some(newer))
    case ReleaseShared(next) => highest' == highest && next.Some? && pc' == Decide(next.value)
    case FastCallback(cur) => highest' == highest && pc' == FastCommit(cur)
    case _ => !Retrying(pc') && !InFlushLoop(pc')
  }

  predicate CurrentOk(t: Id, pc: PC) {
    (pc.Recheck1? || pc.Recheck2? ==> pc.cur < t) && (HasIndex(pc) ==> pc.index < MAX_QUEUED_EVENTS)
  }

  lemma RetryMove(s: State, t: Id, s': State)
    requires Advances(s, t, s') && Retrying(s.calls[t].pc) && s'.count <= MAX_QUEUED_EVENTS
    requires CurrentOk(t, s.calls[t].pc)
    ensures |s'.slots| == MAX_QUEUED_EVENTS && t in s'.calls && RetriesTo(t, s.highest, s.calls[t].pc, s'.highest, s'.calls[t].pc)
  {
    hide StoreArgs, LoadArgs;
  }

  lemma RetryStep(s: State, t: Id, s': State)
    requires Inv(s) && Advances(s, t, s') && Retrying(s.calls[t].pc) && s'.count <= MAX_QUEUED_EVENTS
    ensures |s'.slots| == MAX_QUEUED_EVENTS && t in s'.calls && RetriesTo(t, s.highest, s.calls[t].pc, s'.highest, s'.calls[t].pc)
  {
    RetryCurrent(s, t);
    hide *;
    RetryMove(s, t, s');
  }

  lemma RetryCurrent(s: State, t: Id)
    requires Inv(s) && t in s.calls
    ensures CurrentOk(t, s.calls[t].pc)
  {
    AtCall(s, t);
    hide Inv;
  }

  lemma RetriesFall(t: Id, highest: u64, pc: PC, highest': u64, pc': PC)
    requires RetriesTo(t, highest, pc, highest', pc') && Retrying(pc)
    ensures Retrying(pc') ==>
              16 * Distance(highest', t) + Retries(highest', t, pc') < 16 * Distance(highest, t) + Retries(highest, t, pc)
    ensures !InFlushLoop(pc') && (Retrying(pc') || LockRank(pc') <= FLUSH + 3)
  {
  }

  /** A flush takes fewer steps than `FLUSH`. */
  lemma FlushIsBounded(s: State, t: Id, s': State)
    requires Inv(s) && Advances(s, t, s') && s.calls[t].pc.LoadCount? && s'.count <= MAX_QUEUED_EVENTS
    ensures |s'.slots| == MAX_QUEUED_EVENTS && t in s'.calls && s'.calls[t].pc.Scan? && FlushRank(s', s'.calls[t].pc) + 2 < FLUSH
  {
    hide Inv;
    assert s'.slots == s.slots && s'.calls[t].pc == Scan(0, s.count, false, 0);
    OccupiedBound(s');
  }

  lemma OccupiedBound(s: State)
    requires |s.slots| == MAX_QUEUED_EVENTS
    ensures |OccupiedSlots(s)| <= MAX_QUEUED_EVENTS
  {
    IndexCount(OccupiedSlots(s), MAX_QUEUED_EVENTS);
  }

  lemma {:induction false} IndexCount(indices: set<int>, n: nat)
    requires forall k :: k in indices ==> 0 <= k < n
    ensures |indices| <= n
  {
    if n == 0 {
      assert forall k :: k !in indices;
    } else {
      IndexCount(indices - {n - 1}, n - 1);
      if n - 1 in indices {
        assert indices == (indices - {n - 1}) + {n - 1};
      } else {
        assert indices == indices - {n - 1};
      }
    }
  }

  lemma LoopExit(s: State, t: Id, s': State)
    requires Inv(s) && Advances(s, t, s') && InFlushLoop(s.calls[t].pc)
    ensures t in s'.calls && (InFlushLoop(s'.calls[t].pc) || (!Retrying(s'.calls[t].pc) && LockRank(s'.calls[t].pc) <= 2))
  {
    hide Inv;
  }

  lemma LockFalls(s: State, t: Id, s': State)
    requires Inv(s) && Advances(s, t, s') && !Retrying(s.calls[t].pc) && !InFlushLoop(s.calls[t].pc) && !s.calls[t].pc.LoadCount?
    ensures |s'.slots| == MAX_QUEUED_EVENTS && t in s'.calls
    ensures !Retrying(s'.calls[t].pc) && !InFlushLoop(s'.calls[t].pc) && LockRank(s'.calls[t].pc) < LockRank(s.calls[t].pc)
  {
    hide Inv;
  }

  /** Every step of a call lowers its rank. */
  lemma CallRankFalls(s: State, t: Id, s': State)
    requires Inv(s) && Advances(s, t, s') && s'.count <= MAX_QUEUED_EVENTS
    ensures |s'.slots| == MAX_QUEUED_EVENTS && t in s'.calls && CallRank(s', t) < CallRank(s, t)
  {
    var pc := s.calls[t].pc;
    hide Inv, Step, RankAt, Retries, LockRank;
    if Retrying(pc) {
      RetryStep(s, t, s');
      RetriesFall(t, s.highest, pc, s'.highest, s'.calls[t].pc);
      hide RetriesTo;
    } else if InFlushLoop(pc) {
      FlushRankFalls(s, t, s');
      LoopExit(s, t, s');
    } else if pc.LoadCount? {
      FlushIsBounded(s, t, s');
      LoadRank();
    } else {
      LockFalls(s, t, s');
    }
  }

  lemma LoadRank()
    ensures LockRank(LoadCount) > FLUSH
  {
  }

  // ----- The steps of others

  ghost predicate Grows(highest: u64, highest': u64) {
    highest' == highest || (highest' != UNSET && (highest == UNSET || highest < highest'))
  }

  lemma HighestGrows(s: State, u: Id, s': State)
    requires Inv(s) && StepOf(s, u, s')
    ensures Grows(s.highest, s'.highest)
  {
    AtCall(s, u);
    hide Inv, StoreArgs, LoadArgs;
  }

  /** Where the local variable `current` of a call that is not delivered yet can be. */
  predicate CurrentBehind(highest: u64, t: Id, pc: PC) {
    match pc
    case Decide(cur) => highest == UNSET || highest < t || cur == UNSET || cur >= t
    case Begin => true
    case Reload => true
    case Immediate => true
    case _ => highest < t
  }

  lemma RetriesKept(t: Id, highest: u64, highest': u64, pc: PC)
    requires 0 < t < UNSET && Grows(highest, highest') && Retrying(pc) && CurrentBehind(highest, t, pc)
    ensures 16 * Distance(highest', t) + Retries(highest', t, pc) <= 16 * Distance(highest, t) + Retries(highest, t, pc)
  {
  }

  lemma RetryBehind(s: State, t: Id)
    requires Inv(s) && t in s.calls && Retrying(s.calls[t].pc)
    ensures 0 < t < UNSET && CurrentBehind(s.highest, t, s.calls[t].pc)
  {
    AtCall(s, t);
    hide Inv;
  }

  lemma OthersLeave(s: State, t: Id, s': State)
    requires Inv(s) && t in s.calls && NextByOthers(s, t, s')
    ensures |s.slots| == |s'.slots| == MAX_QUEUED_EVENTS && t in s'.calls && s'.calls[t] == s.calls[t] && Grows(s.highest, s'.highest)
  {
    AtCall(s, t);
    hide Inv, StepOf, Grows;
    if u :| u != t && StepOf(s, u, s') {
      HighestGrows(s, u, s');
      hide *;
      OtherStep(s, u, s', t);
    } else {
      SameGrows(s.highest);
    }
  }

  lemma SameGrows(highest: u64)
    ensures Grows(highest, highest)
  {
  }

  lemma OnlyRetrierMoves(s: State, u: Id, spurious: bool, s': State)
    requires u in s.calls && u > 0 && |s.slots| == MAX_QUEUED_EVENTS && Step(s, u, spurious) == Some(s') && Early(s.calls[u].pc)
    ensures |s'.slots| == MAX_QUEUED_EVENTS && u in s'.calls && s'.calls == s.calls[u := s'.calls[u]]
    ensures s'.calls[u].args == s.calls[u].args
  {
    hide StoreArgs, LoadArgs;
  }

  lemma OnlyFlusherMoves(s: State, u: Id, spurious: bool, s': State)
    requires u in s.calls && u > 0 && |s.slots| == MAX_QUEUED_EVENTS && Step(s, u, spurious) == Some(s') && !Early(s.calls[u].pc)
    ensures |s'.slots| == MAX_QUEUED_EVENTS && u in s'.calls && s'.calls == s.calls[u := s'.calls[u]]
    ensures s'.calls[u].args == s.calls[u].args
  {
    hide StoreArgs, LoadArgs;
  }

  lemma OnlyMover(s: State, u: Id, spurious: bool, s': State)
    requires u in s.calls && u > 0 && |s.slots| == MAX_QUEUED_EVENTS && Step(s, u, spurious) == Some(s')
    ensures |s'.slots| == MAX_QUEUED_EVENTS && u in s'.calls && s'.calls == s.calls[u := s'.calls[u]]
    ensures s'.calls[u].args == s.calls[u].args
  {
    hide *;
    if Early(s.calls[u].pc) {
      OnlyRetrierMoves(s, u, spurious, s');
    } else {
      OnlyFlusherMoves(s, u, spurious, s');
    }
  }

  lemma OtherStep(s: State, u: Id, s': State, t: Id)
    requires t in s.calls && u != t && StepOf(s, u, s')
    ensures |s.slots| == |s'.slots| == MAX_QUEUED_EVENTS && t in s'.calls && s'.calls[t] == s.calls[t]
  {
    hide Step;
    OnlyMover(s, u, Step(s, u, true) == Some(s'), s');
  }

  /** Nobody else raises it, be it another call, a beginning call or one with id 0: if `mHighestId` advances and the call has to try
      again, it is one id nearer to its own. */
  lemma CallRankKept(s: State, t: Id, s': State)
    requires Inv(s) && t in s.calls && NextByOthers(s, t, s')
    ensures |s.slots| == |s'.slots| == MAX_QUEUED_EVENTS && t in s'.calls && CallRank(s', t) <= CallRank(s, t)
  {
    OthersLeave(s, t, s');
    var pc := s.calls[t].pc;
    hide Inv, RankAt, Retries, LockRank, NextByOthers, Grows;
    if Retrying(pc) {
      RetryBehind(s, t);
      RetriesKept(t, s.highest, s'.highest, pc);
    } else if InFlushLoop(pc) {
      FlushRankKept(s, t, s');
    }
  }

  // ----- Over whole runs

  /** What can happen apart from a weak compare-exchange that fails for no reason. */
  ghost predicate Firm(s: State, s': State) {
    || (exists id, args :: CanBegin(s, id) && s' == BeginCall(s, id, args))
    || (exists args :: s' == UnorderedCall(s, args))
    || (exists t :: Advances(s, t, s'))
  }

  /** How often the call `t` moves from `run[k]` on. */
  ghost function OwnSteps(run: seq<State>, k: nat, t: Id): nat
    requires k < |run|
    decreases |run| - k
  {
    if k == |run| - 1 then 0
    else
      (if t in run[k].calls && t in run[k + 1].calls && run[k + 1].calls[t] != run[k].calls[t] then 1 else 0) + OwnSteps(run, k + 1, t)
  }

  lemma RankNonneg(s: State, t: Id)
    requires Inv(s) && t in s.calls
    ensures |s.slots| == MAX_QUEUED_EVENTS && CallRank(s, t) >= 0
  {
    AtCall(s, t);
    hide Inv;
  }

  lemma FirmOthers(s: State, t: Id, s': State)
    requires Firm(s, s') && !Advances(s, t, s')
    ensures NextByOthers(s, t, s')
  {
    if u :| Advances(s, u, s') {
      assert u != t && StepOf(s, u, s');
    }
    hide Advances, StepOf, CanBegin;
  }

  lemma FirmRank(s: State, t: Id, s': State)
    requires Inv(s) && Firm(s, s') && s'.count <= MAX_QUEUED_EVENTS && t in s.calls
    ensures |s.slots| == |s'.slots| == MAX_QUEUED_EVENTS && t in s'.calls && CallRank(s', t) <= CallRank(s, t)
    ensures s'.calls[t] != s.calls[t] ==> CallRank(s', t) < CallRank(s, t)
  {
    RankNonneg(s, t);
    hide *;
    if Advances(s, t, s') {
      CallRankFalls(s, t, s');
    } else {
      FirmOthers(s, t, s');
      CallRankKept(s, t, s');
      OthersLeave(s, t, s');
    }
  }

  /** Whatever other calls do, and however many begin: a call takes at most as many further steps as its rank says. */
  lemma {:induction false} CallReturns(run: seq<State>, k: nat, t: Id)
    requires Run(run) && k < |run| && t in run[k].calls
    requires forall j :: k <= j < |run| - 1 ==> Firm(run[j], run[j + 1])
    ensures |run[k].slots| == MAX_QUEUED_EVENTS && OwnSteps(run, k, t) <= CallRank(run[k], t)
    decreases |run| - k
  {
    RunInv(run, k);
    RankNonneg(run[k], t);
    hide Inv, CallRank, Firm, Next, Init;
    if k < |run| - 1 {
      assert Firm(run[k], run[k + 1]);
      FirmRank(run[k], t, run[k + 1]);
      CallReturns(run, k + 1, t);
    }
  }

  /** The ranks of the calls `ids` together. */
  ghost function Total(s: State, ids: set<Id>): int
    requires |s.slots| == MAX_QUEUED_EVENTS && ids <= s.calls.Keys
    decreases |ids|
  {
    if ids == {} then 0
    else
      var t :| t in ids;
      CallRank(s, t) + Total(s, ids - {t})
  }

  lemma {:induction false} TotalWithout(s: State, ids: set<Id>, t: Id)
    requires |s.slots| == MAX_QUEUED_EVENTS && ids <= s.calls.Keys && t in ids
    ensures Total(s, ids) == CallRank(s, t) + Total(s, ids - {t})
    decreases |ids|
  {
    hide CallRank;
    var u :| u in ids && Total(s, ids) == CallRank(s, u) + Total(s, ids - {u});
    if u != t {
      TotalWithout(s, ids - {u}, t);
      TotalWithout(s, ids - {t}, u);
      assert ids - {u} - {t} == ids - {t} - {u};
    }
  }

  lemma {:induction false} TotalKept(s: State, s': State, ids: set<Id>)
    requires |s.slots| == |s'.slots| == MAX_QUEUED_EVENTS && ids <= s.calls.Keys && ids <= s'.calls.Keys
    requires forall t :: t in ids ==> CallRank(s', t) <= CallRank(s, t)
    ensures Total(s', ids) <= Total(s, ids)
    decreases |ids|
  {
    hide CallRank;
    if t :| t in ids {
      TotalKept(s, s', ids - {t});
      TotalWithout(s, ids, t);
      TotalWithout(s', ids, t);
    }
  }

  lemma {:induction false} TotalNonneg(s: State, ids: set<Id>)
    requires Inv(s) && |s.slots| == MAX_QUEUED_EVENTS && ids <= s.calls.Keys
    ensures Total(s, ids) >= 0
    decreases |ids|
  {
    hide Inv, CallRank;
    if t :| t in ids {
      RankNonneg(s, t);
      TotalNonneg(s, ids - {t});
      TotalWithout(s, ids, t);
    }
  }

  lemma SameCalls(s: State, t: Id, s': State)
    requires Advances(s, t, s')
    ensures s'.calls.Keys == s.calls.Keys
  {
    hide Step;
    OnlyMover(s, t, false, s');
  }

  lemma TotalFalls(s: State, t: Id, s': State)
    requires Inv(s) && Advances(s, t, s') && s'.count <= MAX_QUEUED_EVENTS
    ensures |s.slots| == |s'.slots| == MAX_QUEUED_EVENTS && Total(s', s'.calls.Keys) < Total(s, s.calls.Keys)
  {
    SameCalls(s, t, s');
    CallRankFalls(s, t, s');
    assert t in s.calls && |s.slots| == MAX_QUEUED_EVENTS && Firm(s, s');
    hide *;
    var ids := s.calls.Keys;
    forall u | u in ids - {t} ensures CallRank(s', u) <= CallRank(s, u) {
      FirmRank(s, u, s');
    }
    TotalKept(s, s', ids - {t});
    TotalWithout(s, ids, t);
    TotalWithout(s', ids, t);
  }

  /** Only calls that are under way move, and without a compare-exchange that fails for no reason. */
  ghost predicate Settles(s: State, s': State) {
    exists t :: Advances(s, t, s')
  }

  lemma {:induction false} SettlingEnds(run: seq<State>, k: nat)
    requires Run(run) && k < |run| && forall j :: k <= j < |run| - 1 ==> Settles(run[j], run[j + 1])
    ensures |run[k].slots| == MAX_QUEUED_EVENTS && |run| - 1 - k <= Total(run[k], run[k].calls.Keys)
    decreases |run| - k
  {
    RunInv(run, k);
    RunShape(run[k]);
    hide Inv, Next, Init, Total, Advances;
    TotalNonneg(run[k], run[k].calls.Keys);
    if k < |run| - 1 {
      assert Settles(run[k], run[k + 1]);
      var t :| Advances(run[k], t, run[k + 1]);
      TotalFalls(run[k], t, run[k + 1]);
      SettlingEnds(run, k + 1);
    }
  }

  lemma RunShape(s: State)
    requires Inv(s)
    ensures |s.slots| == MAX_QUEUED_EVENTS
  {
  }

  ghost predicate CanMove(s: State) {
    exists t, s' :: StepOf(s, t, s')
  }

  /** Once no more calls begin, every schedule ends, after a number of steps that is known from the start, and where it cannot go on
      all calls have returned. */
  lemma AllCallsReturn(run: seq<State>, k: nat)
    requires Run(run) && k < |run| && forall j :: k <= j < |run| - 1 ==> Settles(run[j], run[j + 1])
    ensures |run[k].slots| == MAX_QUEUED_EVENTS && |run| - 1 - k <= Total(run[k], run[k].calls.Keys)
    ensures Quiescent(run[|run| - 1]) || CanMove(run[|run| - 1])
  {
    hide StepOf, Inv, Run, Settles, Quiescent, Total;
    SettlingEnds(run, k);
    if !Quiescent(run[|run| - 1]) {
      NeverStuck(run, |run| - 1);
    }
  }
}
