/** The sequencer seen from its callers: what they passed in, told apart from what the sequencer keeps of it. */
module SequencerCallers {
  import opened CombatEvents
  import opened Sequencer
  import opened SequencerInvariant
  import opened SequencerSteps
  import opened SequencerTheorems
  import opened SequencerTermination

  /** What happens in one step: a call with a nonzero id begins, one with id 0 is made, or a call that has begun takes a step. */
  datatype Move = Begins(id: Id, args: Args) | Unordered(args: Args) | Steps(t: Id)

  ghost predicate Makes(s: State, m: Move, s': State) {
    match m
    case Begins(id, args) => CanBegin(s, id) && s' == BeginCall(s, id, args)
    case Unordered(args) => s' == UnorderedCall(s, args)
    case Steps(t) => StepOf(s, t, s')
  }

  /** The run `run` comes from the callers' `moves`. */
  ghost predicate Played(run: seq<State>, moves: seq<Move>) {
    Run(run) && |run| == |moves| + 1 && forall k :: 0 <= k < |moves| ==> Makes(run[k], moves[k], run[k + 1])
  }

  lemma NextIsMove(s: State, s': State)
    ensures Next(s, s') <==> exists m :: Makes(s, m, s')
  {
    hide CanBegin, StepOf;
    if Next(s, s') {
      if id, args :| CanBegin(s, id) && s' == BeginCall(s, id, args) {
        assert Makes(s, Begins(id, args), s');
      } else if args :| s' == UnorderedCall(s, args) {
        assert Makes(s, Unordered(args), s');
      } else {
        var t :| StepOf(s, t, s');
        assert Makes(s, Steps(t), s');
      }
    }
  }

  /** Every run comes from some moves of its callers. */
  lemma {:induction false} EveryRunIsPlayed(run: seq<State>) returns (moves: seq<Move>)
    requires Run(run)
    ensures Played(run, moves)
  {
    hide Makes, Next, Init;
    moves := [];
    while |moves| < |run| - 1
      invariant |moves| <= |run| - 1
      invariant forall k :: 0 <= k < |moves| ==> Makes(run[k], moves[k], run[k + 1])
    {
      var k := |moves|;
      assert Next(run[k], run[k + 1]);
      NextIsMove(run[k], run[k + 1]);
      var m :| Makes(run[k], m, run[k + 1]);
      moves := moves + [m];
    }
  }

  /** Whatever the state, a call with a fresh id can begin, and one with id 0 can be made. */
  lemma CallersAreFree(s: State, id: Id, args: Args)
    requires id != 0 && id != 0xFFFF_FFFF_FFFF_FFFF && id !in s.calls
    ensures Next(s, BeginCall(s, id, args)) && Next(s, UnorderedCall(s, args))
  {
    assert CanBegin(s, id);
  }

  // ----- Calls with id 0

  /** The arguments of the calls with id 0 so far. */
  function UnorderedArgs(moves: seq<Move>): seq<Args> {
    if moves == [] then []
    else UnorderedArgs(moves[..|moves| - 1]) + if moves[|moves| - 1].Unordered? then [moves[|moves| - 1].args] else []
  }

  /** The arguments of the deliveries with id 0. */
  function ZeroArgs(log: seq<Delivery>): seq<Args> {
    if log == [] then []
    else ZeroArgs(log[..|log| - 1]) + if log[|log| - 1].id == 0 then [log[|log| - 1].args] else []
  }

  lemma ZeroAppend(log: seq<Delivery>, d: Delivery)
    ensures ZeroArgs(log + [d]) == ZeroArgs(log) + if d.id == 0 then [d.args] else []
  {
    assert (log + [d])[..|log + [d]| - 1] == log;
  }

  lemma StepLogs(s: State, t: Id, s': State)
    requires StepOf(s, t, s')
    ensures ZeroArgs(s'.immediate) == ZeroArgs(s.immediate)
  {
    hide StoreArgs, LoadArgs, ZeroArgs;
    ZeroAppend(s.immediate, Delivery(t, s.calls[t].args));
  }

  lemma MoveLogs(s: State, m: Move, s': State)
    requires Makes(s, m, s')
    ensures ZeroArgs(s'.immediate) == ZeroArgs(s.immediate) + if m.Unordered? then [m.args] else []
    ensures m.Unordered? ==> s' == s.(immediate := s'.immediate)
  {
    hide ZeroArgs, StepOf, CanBegin;
    match m
    case Begins(_, _) =>
    case Unordered(args) => ZeroAppend(s.immediate, Delivery(0, args));
    case Steps(t) => StepLogs(s, t, s');
  }

  /** In every state of every run, the callbacks with id 0 are those of the calls with id 0, in their order, each once and with the
      caller's arguments; and a call with id 0 changes nothing that is shared but the log. */
  lemma {:induction false} UnorderedDelivered(run: seq<State>, moves: seq<Move>, k: nat)
    requires Played(run, moves) && k < |run|
    ensures ZeroArgs(run[k].immediate) == UnorderedArgs(moves[..k])
    ensures k < |moves| && moves[k].Unordered? ==> run[k + 1] == run[k].(immediate := run[k + 1].immediate)
  {
    hide Makes, Next, ZeroArgs;
    if k < |moves| {
      MoveLogs(run[k], moves[k], run[k + 1]);
    }
    if k == 0 {
      NothingLogged(run[0]);
    } else {
      UnorderedDelivered(run, moves, k - 1);
      MoveLogs(run[k - 1], moves[k - 1], run[k - 1 + 1]);
      assert moves[..k][..k - 1] == moves[..k - 1];
    }
  }

  lemma NothingLogged(s: State)
    requires Init(s)
    ensures ZeroArgs(s.immediate) == []
  {
  }

  // ----- Calls with other ids

  /** A call with the id and these arguments has begun. */
  ghost predicate Given(moves: seq<Move>, id: Id, args: Args) {
    exists j :: 0 <= j < |moves| && moves[j] == Begins(id, args)
  }

  lemma StepKeepsCalls(s: State, t: Id, s': State)
    requires StepOf(s, t, s')
    ensures s'.calls.Keys == s.calls.Keys && forall id :: id in s.calls ==> s'.calls[id].args == s.calls[id].args
  {
    hide Step;
    OnlyMover(s, t, Step(s, t, true) == Some(s'), s');
  }

  lemma MoveCalls(s: State, m: Move, s': State)
    requires Makes(s, m, s')
    ensures forall id :: id in s'.calls <==> id in s.calls || (m.Begins? && m.id == id)
    ensures forall id :: id in s.calls ==> s'.calls[id].args == s.calls[id].args && !(m.Begins? && m.id == id)
    ensures m.Begins? ==> s'.calls[m.id].args == m.args
  {
    if m.Steps? {
      StepKeepsCalls(s, m.t, s');
    }
    hide StepOf;
  }

  /** The calls are those that have begun, each with the arguments that its caller passed. */
  lemma {:induction false} CallsAsGiven(run: seq<State>, moves: seq<Move>, k: nat, id: Id, args: Args)
    requires Played(run, moves) && k < |run|
    ensures Given(moves[..k], id, args) <==> id in run[k].calls && run[k].calls[id].args == args
  {
    hide Makes, Next;
    if k > 0 {
      CallsAsGiven(run, moves, k - 1, id, args);
      MoveCalls(run[k - 1], moves[k - 1], run[k - 1 + 1]);
      GivenOneMore(moves, k, id, args);
    }
  }

  lemma GivenOneMore(moves: seq<Move>, k: nat, id: Id, args: Args)
    requires 0 < k <= |moves|
    ensures Given(moves[..k], id, args) <==> Given(moves[..k - 1], id, args) || moves[k - 1] == Begins(id, args)
  {
    if Given(moves[..k - 1], id, args) {
      var j :| 0 <= j < k - 1 && moves[..k - 1][j] == Begins(id, args);
      assert moves[..k][j] == Begins(id, args);
    }
    if moves[k - 1] == Begins(id, args) {
      assert moves[..k][k - 1] == Begins(id, args);
    }
  }

  /** Whatever is delivered was passed in: every callback of the sequence, and every one made at once, has the id and the arguments of a
      call. */
  lemma DeliveredAsGiven(run: seq<State>, moves: seq<Move>, k: nat, d: Delivery)
    requires Played(run, moves) && k < |run| && (d in run[k].ordered || (d in run[k].immediate && d.id != 0))
    ensures Given(moves[..k], d.id, d.args)
  {
    RunInv(run, k);
    LoggedCall(run[k], d);
    hide *;
    CallsAsGiven(run, moves, k, d.id, d.args);
  }

  lemma LoggedCall(s: State, d: Delivery)
    requires Inv(s) && (d in s.ordered || (d in s.immediate && d.id != 0))
    ensures d.id in s.calls && s.calls[d.id].args == d.args
  {
    hide Shape, LockInv, CallsInv, IndexInv, SlotInv, FlusherInv, WakeInv, CountInv;
    assert s.first == None ==> s.ordered == [];
  }

  /** When all calls have returned, the call of every id that began has been delivered once, with its caller's arguments and nobody
      else's, unless it waits behind an id that never arrived. */
  lemma GivenIsDelivered(run: seq<State>, moves: seq<Move>, k: nat, id: Id, args: Args)
    requires Played(run, moves) && k < |run| && Quiescent(run[k]) && Given(moves[..k], id, args)
    ensures |run[k].slots| == MAX_QUEUED_EVENTS
    ensures Deliveries(run[k], id) == if InSlot(run[k], id) then 0 else 1
    ensures forall d: Delivery :: d.id == id && (d in run[k].ordered || d in run[k].immediate) ==> d.args == args
  {
    RunInv(run, k);
    CallsAsGiven(run, moves, k, id, args);
    QuiescentCall(run[k], id);
    NonzeroId(run[k], id);
    hide Inv, Played, Deliveries, InSlot, Quiescent, Given;
    forall d: Delivery | d.id == id && (d in run[k].ordered || d in run[k].immediate) ensures d.args == args {
      LoggedCall(run[k], d);
    }
  }

  lemma NonzeroId(s: State, id: Id)
    requires Inv(s) && id in s.calls
    ensures id != 0 && |s.slots| == MAX_QUEUED_EVENTS
  {
  }
}
