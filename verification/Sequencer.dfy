/** `EventSequencer` (src/EventSequencer.cpp): combat events arrive on any number of threads, each with its own
    number, and have to reach one callback in order.

    The sequencer is an interleaved step system.  Every call of `ProcessEvent` with a nonzero id is a process,
    named by its id, with its own program counter; a step of the system is one atomic operation, one lock
    transition, or the beginning or the end of one callback, of one process. */
module Sequencer {
  import opened CombatEvents

  type Id = u64

  const MAX_QUEUED_EVENTS := 256
  const UNSET: u64 := U64_MAX

  /** The arguments of one `ProcessEvent` call; null pointers are `None`. */
  datatype Args = Args(ev: Option<CbtEvent>, src: Option<Agent>, dst: Option<Agent>, skillName: Option<string>, revision: u64)

  /** One element of `mQueuedEvents`.  A part that is not present keeps whatever an earlier event left there. */
  datatype Slot = Slot(id: u64, evPresent: bool, ev: CbtEvent, srcPresent: bool, src: Agent, dstPresent: bool, dst: Agent,
                       skillName: Option<string>, revision: u64)

  function StoreArgs(slot: Slot, id: Id, args: Args): Slot {
    Slot(id,
         args.ev.Some?, if args.ev.Some? then args.ev.value else slot.ev,
         args.src.Some?, if args.src.Some? then args.src.value else slot.src,
         args.dst.Some?, if args.dst.Some? then args.dst.value else slot.dst,
         args.skillName, args.revision)
  }

  function LoadArgs(slot: Slot): Args {
    Args(if slot.evPresent then Some(slot.ev) else None,
         if slot.srcPresent then Some(slot.src) else None,
         if slot.dstPresent then Some(slot.dst) else None,
         slot.skillName, slot.revision)
  }

  /** How a call of `ProcessEvent` ended. */
  datatype Outcome = DeliveredAtOnce | Queued | Sequenced

  /** Program counters.  `cur` is the local variable `current`, `index` the reserved slot; in the flush
      loop `i`, `n`, `removed` and `nonZero` are `i`, `eventCount`, `removed` and `nonZeroEvents`. */
  datatype PC =
    | Begin                                                     // about to load mHighestId for the first time
    | Decide(cur: u64)                                          // at the head of the retry loop
    | Reload                                                    // after the weak compare-exchange, about to load again
    | Immediate                                                 // inside an out-of-order callback
    | FastCallback(cur: u64)                                    // inside the callback of the fast path
    | FastCommit(cur: u64)                                      // callback returned, about to compare-exchange
    | Recheck1(cur: u64)                                        // got the shared lock, about to load mHighestId (Race1)
    | Reserve(cur: u64)                                         // about to fetch_add mQueuedEventCount
    | Recheck2(cur: u64, index: nat)                            // about to load mHighestId again (Race2)
    | Store(cur: u64, index: nat)                               // about to fill the reserved slot
    | Abandon(newer: u64, index: nat)                           // about to mark the reserved slot empty
    | ReleaseShared(next: Option<u64>)                          // about to unlock; then retry with `next` or return
    | CheckCount                                                // TryFlushEvents: about to load the count without the lock
    | WaitExclusive                                             // about to take the exclusive lock
    | LoadCount                                                 // has it, about to load the count
    | Scan(i: nat, n: nat, removed: bool, nonZero: nat)         // at the head of the for loop
    | FlushCallback(i: nat, n: nat, nonZero: nat, cur: u64)     // inside the callback of slot i
    | FlushCommit(i: nat, n: nat, nonZero: nat, cur: u64)       // callback returned, about to compare-exchange
    | ClearCount                                                // about to exchange the count with 0
    | ReleaseExclusive                                          // about to unlock and return
    | Finished(how: Outcome)
    | Failed                                                    // an assert(false) of the source was reached

  datatype Call = Call(args: Args, pc: PC)
  datatype Delivery = Delivery(id: u64, args: Args)

  /** Shared memory, the lock, all calls, and the history of completed callbacks: `ordered` holds those
      that go through the sequence, `immediate` those made at once; `first` is the id that registered first. */
  datatype State = State(
    highest: u64, count: nat, slots: seq<Slot>,
    shared: set<Id>, exclusive: Option<Id>,
    calls: map<Id, Call>,
    ordered: seq<Delivery>, immediate: seq<Delivery>, first: Option<Id>)
  {
    function Goto(t: Id, pc: PC): State
      requires t in calls
    {
      this.(calls := calls[t := calls[t].(pc := pc)])
    }
  }

  ghost predicate Init(s: State) {
    && s.highest == UNSET && s.count == 0
    && |s.slots| == MAX_QUEUED_EVENTS && (forall k | 0 <= k < MAX_QUEUED_EVENTS :: s.slots[k].id == 0)
    && s.shared == {} && s.exclusive == None && s.calls == map[]
    && s.ordered == [] && s.immediate == [] && s.first == None
  }

  /** A thread calls `ProcessEvent` with a nonzero id below `UINT64_MAX` that no other call carries. */
  ghost predicate CanBegin(s: State, id: Id) {
    0 < id < UNSET && id !in s.calls
  }

  function BeginCall(s: State, id: Id, args: Args): State {
    s.(calls := s.calls[id := Call(args, Begin)])
  }

  /** A call with id 0: the callback runs at once and nothing else is touched. */
  function UnorderedCall(s: State, args: Args): State {
    s.(immediate := s.immediate + [Delivery(0, args)])
  }

  /** The step that call `t` can take now, or `None` when it is blocked or done.  `spurious` decides
      whether the weak compare-exchange fails for no reason. */
  function Step(s: State, t: Id, spurious: bool): Option<State>
    requires t in s.calls && t > 0 && |s.slots| == MAX_QUEUED_EVENTS
  {
    var args := s.calls[t].args;
    match s.calls[t].pc
    case Begin => Some(s.Goto(t, Decide(s.highest)))
    case Decide(cur) =>
      if cur == t then Some(s.Goto(t, Immediate))
      else if cur == UNSET then
        if s.highest == cur && !spurious
        then Some(s.(highest := t - 1, first := Some(t)).Goto(t, Reload))
        else Some(s.Goto(t, Reload))
      else if cur > t - 1 then Some(s.Goto(t, Immediate))
      else if cur == t - 1 then Some(s.Goto(t, FastCallback(cur)))
      else if s.exclusive.Some? then None
      else Some(s.(shared := s.shared + {t}).Goto(t, Recheck1(cur)))
    case Reload => Some(s.Goto(t, Decide(s.highest)))
    case Immediate => Some(s.(immediate := s.immediate + [Delivery(t, args)]).Goto(t, Finished(DeliveredAtOnce)))
    case FastCallback(cur) => Some(s.(ordered := s.ordered + [Delivery(t, args)]).Goto(t, FastCommit(cur)))
    case FastCommit(cur) =>
      if s.highest == cur then Some(s.(highest := t).Goto(t, CheckCount)) else Some(s.Goto(t, Failed))
    case Recheck1(cur) =>
      Some(s.Goto(t, if s.highest != cur then ReleaseShared(Some(s.highest)) else Reserve(cur)))
    case Reserve(cur) =>
      Some(s.(count := s.count + 1).Goto(t, if s.count >= MAX_QUEUED_EVENTS then Failed else Recheck2(cur, s.count)))
    case Recheck2(cur, index) =>
      Some(s.Goto(t, if s.highest != cur then Abandon(s.highest, index) else Store(cur, index)))
    case Abandon(newer, index) =>
      if index >= MAX_QUEUED_EVENTS then Some(s.Goto(t, Failed))
      else Some(s.(slots := s.slots[index := s.slots[index].(id := 0)]).Goto(t, ReleaseShared(Some(newer))))
    case Store(cur, index) =>
      if index >= MAX_QUEUED_EVENTS then Some(s.Goto(t, Failed))
      else Some(s.(slots := s.slots[index := StoreArgs(s.slots[index], t, args)]).Goto(t, ReleaseShared(None)))
    case ReleaseShared(next) =>
      Some(s.(shared := s.shared - {t}).Goto(t, if next.Some? then Decide(next.value) else Finished(Queued)))
    case CheckCount => Some(s.Goto(t, if s.count == 0 then Finished(Sequenced) else WaitExclusive))
    case WaitExclusive =>
      if s.exclusive.Some? || s.shared != {} then None
      else Some(s.(exclusive := Some(t)).Goto(t, LoadCount))
    case LoadCount =>
      Some(s.Goto(t, Scan(0, if s.count > MAX_QUEUED_EVENTS then MAX_QUEUED_EVENTS else s.count, false, 0)))
    case Scan(i, n, removed, nonZero) =>
      if i < n && i < MAX_QUEUED_EVENTS then
        if s.slots[i].id == 0 then Some(s.Goto(t, Scan(i + 1, n, removed, nonZero)))
        else if s.highest != s.slots[i].id - 1 then Some(s.Goto(t, Scan(i + 1, n, removed, nonZero + 1)))
        else Some(s.Goto(t, FlushCallback(i, n, nonZero, s.highest)))
      else if removed then Some(s.Goto(t, Scan(0, n, false, 0)))
      else if nonZero == 0 then
        Some(s.Goto(t, if forall k | 0 <= k < MAX_QUEUED_EVENTS :: s.slots[k].id == 0 then ClearCount else Failed))
      else Some(s.Goto(t, ReleaseExclusive))
    case FlushCallback(i, n, nonZero, cur) =>
      if i >= MAX_QUEUED_EVENTS then Some(s.Goto(t, Failed))
      else Some(s.(ordered := s.ordered + [Delivery(s.slots[i].id, LoadArgs(s.slots[i]))]).Goto(t, FlushCommit(i, n, nonZero, cur)))
    case FlushCommit(i, n, nonZero, cur) =>
      if i >= MAX_QUEUED_EVENTS || s.highest != cur then Some(s.Goto(t, Failed))
      else Some(s.(highest := s.slots[i].id, slots := s.slots[i := s.slots[i].(id := 0)]).Goto(t, Scan(i + 1, n, true, nonZero)))
    case ClearCount => Some(s.(count := 0).Goto(t, ReleaseExclusive))
    case ReleaseExclusive => Some(s.(exclusive := None).Goto(t, Finished(Sequenced)))
    case Finished(_) => None
    case Failed => None
  }

  ghost predicate StepOf(s: State, t: Id, s': State) {
    && t in s.calls && t > 0 && |s.slots| == MAX_QUEUED_EVENTS
    && (Step(s, t, false) == Some(s') || Step(s, t, true) == Some(s'))
  }

  ghost predicate Next(s: State, s': State) {
    || (exists id, args :: CanBegin(s, id) && s' == BeginCall(s, id, args))
    || (exists args :: s' == UnorderedCall(s, args))
    || (exists t :: StepOf(s, t, s'))
  }

  /** A run in which fewer than 257 slots are reserved between two clears. */
  ghost predicate Run(run: seq<State>) {
    && |run| > 0 && Init(run[0])
    && (forall k | 0 <= k < |run| - 1 :: Next(run[k], run[k + 1]))
    && (forall k | 0 <= k < |run| :: run[k].count <= MAX_QUEUED_EVENTS)
  }
}
