/** Who is there, by the callbacks that arcdps makes: which peers the client knows, under which name and id it reports itself, and
    whom its events reach (networking/Client.cpp:142-270, networking/Server.cpp:350-390). */
module Presence {
  import opened CombatEvents
  import opened Wire
  import opened Peers
  import opened Session
  import Client
  import Registry
  import F = Frontend

  /** An agent callback: no combat event, but an agent that comes or goes. */
  datatype Callback = Callback(source: Client.Ag, destination: Client.Ag)

  // ----- Peers

  /** A player other than oneself comes, with an account name. */
  predicate Joins(cb: Callback, uid: u64) {
    && cb.source.elite == 0 && cb.source.prof != 0 && cb.source.id == uid
    && cb.destination.self == 0 && cb.destination.name.Some? && |cb.destination.name.value| > 0
  }

  predicate Leaves(cb: Callback, uid: u64) {
    cb.source.elite == 0 && cb.source.prof == 0 && cb.source.id == uid
  }

  /** What the source asserts of a player: an instance id of 16 bits, and a name that is not empty and fits a message. */
  predicate IsPlayer(agent: Client.Ag) {
    agent.id <= 0xFFFF && agent.name.Some? && 0 < |agent.name.value| < 255
  }

  /** The source's assertions hold of the callbacks. */
  predicate Sound(cbs: seq<Callback>) {
    forall k :: 0 <= k < |cbs| && Joins(cbs[k], cbs[k].source.id) ==> IsPlayer(cbs[k].destination)
  }

  /** The client after area callbacks. */
  ghost function AfterArea(s: Client.State, cbs: seq<Callback>): Client.State
    requires Sound(cbs)
    decreases |cbs|
  {
    if cbs == [] then s
    else
      var last := cbs[|cbs| - 1];
      Client.AreaEvent(AfterArea(s, cbs[..|cbs| - 1]), last.source, last.destination)
  }

  ghost predicate StaysAfter(cbs: seq<Callback>, uid: u64, k: nat) {
    forall j :: k < j < |cbs| ==> !Leaves(cbs[j], uid)
  }

  ghost predicate GoneBetween(cbs: seq<Callback>, uid: u64, j: nat, k: nat)
    requires k <= |cbs|
  {
    exists i :: j < i < k && Leaves(cbs[i], uid)
  }

  /** The callback `k` is the first one by which the player has come since it left last. */
  ghost predicate JoinedAt(cbs: seq<Callback>, uid: u64, k: nat) {
    && k < |cbs| && Joins(cbs[k], uid) && StaysAfter(cbs, uid, k)
    && forall j :: 0 <= j < k && Joins(cbs[j], uid) ==> GoneBetween(cbs, uid, j, k)
  }

  lemma JoinedBefore(cbs: seq<Callback>, cb: Callback, uid: u64, k: nat)
    requires k < |cbs|
    ensures JoinedAt(cbs + [cb], uid, k) <==> JoinedAt(cbs, uid, k) && !Leaves(cb, uid)
  {
    var more := cbs + [cb];
    assert more[k] == cbs[k];
    assert forall j :: 0 <= j < |cbs| ==> more[j] == cbs[j];
    forall j | 0 <= j < k ensures GoneBetween(more, uid, j, k) <==> GoneBetween(cbs, uid, j, k) {
    }
    if StaysAfter(cbs, uid, k) && !Leaves(cb, uid) {
      assert StaysAfter(more, uid, k);
    }
    if StaysAfter(more, uid, k) {
      assert !Leaves(more[|cbs|], uid);
      forall j | k < j < |cbs| ensures !Leaves(cbs[j], uid) {
        assert !Leaves(more[j], uid);
      }
    }
  }

  lemma JoinedNow(cbs: seq<Callback>, cb: Callback, uid: u64)
    requires Joins(cb, uid)
    ensures JoinedAt(cbs + [cb], uid, |cbs|) <==> forall j :: 0 <= j < |cbs| && Joins(cbs[j], uid) ==> !StaysAfter(cbs, uid, j)
  {
    var more := cbs + [cb];
    assert more[|cbs|] == cb;
    assert forall j :: 0 <= j < |cbs| ==> more[j] == cbs[j];
    forall j: nat | j < |cbs| ensures GoneBetween(more, uid, j, |cbs|) <==> !StaysAfter(cbs, uid, j) {
      if !StaysAfter(cbs, uid, j) {
        var i :| j < i < |cbs| && Leaves(cbs[i], uid);
        assert Leaves(more[i], uid);
      }
    }
  }

  /** `peers` is right about `uid` after the callbacks: the player is in it if and only if it has come and not left since, with the id
      and the name of the first time that it came. */
  ghost predicate RightAbout(peers: PeerMap, cbs: seq<Callback>, uid: u64)
    requires Sound(cbs)
  {
    && (uid in peers <==> exists k: nat :: JoinedAt(cbs, uid, k))
    && (uid in peers <==> exists k: nat :: k < |cbs| && Joins(cbs[k], uid) && StaysAfter(cbs, uid, k))
    && forall k: nat :: JoinedAt(cbs, uid, k) ==>
         uid in peers && peers[uid] == PeerInfo(cbs[k].destination.id, cbs[k].destination.name.value)
  }

  lemma StaysLonger(cbs: seq<Callback>, cb: Callback, uid: u64, k: nat)
    requires k < |cbs|
    ensures StaysAfter(cbs + [cb], uid, k) <==> StaysAfter(cbs, uid, k) && !Leaves(cb, uid)
  {
    var more := cbs + [cb];
    assert more[|cbs|] == cb && forall j :: 0 <= j < |cbs| ==> more[j] == cbs[j];
    if StaysAfter(more, uid, k) {
      assert !Leaves(more[|cbs|], uid);
      forall j | k < j < |cbs| ensures !Leaves(cbs[j], uid) {
        assert !Leaves(more[j], uid);
      }
    }
  }

  lemma AfterLeaving(peers: PeerMap, cbs: seq<Callback>, cb: Callback, uid: u64)
    requires Sound(cbs + [cb]) && Leaves(cb, uid)
    ensures uid !in peers ==> RightAbout(peers, cbs + [cb], uid)
  {
    var more := cbs + [cb];
    forall k: nat | k < |more| ensures !JoinedAt(more, uid, k) && !(Joins(more[k], uid) && StaysAfter(more, uid, k)) {
      assert more[|cbs|] == cb;
      if k < |cbs| {
        StaysLonger(cbs, cb, uid, k);
      }
    }
  }

  lemma AfterJoining(peers: PeerMap, cbs: seq<Callback>, cb: Callback, uid: u64)
    requires Sound(cbs + [cb]) && Sound(cbs) && Joins(cb, uid) && Client.PlayerOk(cb.destination) && uid !in peers && RightAbout(peers, cbs, uid)
    ensures RightAbout(peers[uid := PeerInfo(cb.destination.id, cb.destination.name.value)], cbs + [cb], uid)
  {
    var more := cbs + [cb];
    assert more[|cbs|] == cb;
    JoinedNow(cbs, cb, uid);
    assert JoinedAt(more, uid, |cbs|);
    assert StaysAfter(more, uid, |cbs|);
    forall k: nat | JoinedAt(more, uid, k) ensures k == |cbs| {
      if k < |cbs| {
        JoinedBefore(cbs, cb, uid, k);
      }
    }
    hide JoinedAt, StaysAfter;
  }

  /** A callback that does not make the player leave, and does not bring it when it is not there. */
  lemma AfterOther(peers: PeerMap, cbs: seq<Callback>, cb: Callback, uid: u64)
    requires Sound(cbs + [cb]) && Sound(cbs) && !Leaves(cb, uid) && (Joins(cb, uid) ==> uid in peers) && RightAbout(peers, cbs, uid)
    ensures RightAbout(peers, cbs + [cb], uid)
  {
    var more := cbs + [cb];
    assert more[|cbs|] == cb && forall j :: 0 <= j < |cbs| ==> more[j] == cbs[j];
    if Joins(cb, uid) {
      JoinedNow(cbs, cb, uid);
    }
    forall k: nat | k < |cbs|
      ensures (JoinedAt(more, uid, k) <==> JoinedAt(cbs, uid, k)) && (StaysAfter(more, uid, k) <==> StaysAfter(cbs, uid, k))
    {
      JoinedBefore(cbs, cb, uid, k);
      StaysLonger(cbs, cb, uid, k);
    }
    assert !JoinedAt(more, uid, |cbs|);
    AfterOtherFrom(peers, cbs, cb, uid);
  }

  lemma AfterOtherFrom(peers: PeerMap, cbs: seq<Callback>, cb: Callback, uid: u64)
    requires Sound(cbs + [cb]) && Sound(cbs) && (Joins(cb, uid) ==> uid in peers) && RightAbout(peers, cbs, uid)
    requires !JoinedAt(cbs + [cb], uid, |cbs|)
    requires forall k: nat :: k < |cbs| ==> (JoinedAt(cbs + [cb], uid, k) <==> JoinedAt(cbs, uid, k))
    requires forall k: nat :: k < |cbs| ==> (StaysAfter(cbs + [cb], uid, k) <==> StaysAfter(cbs, uid, k))
    ensures RightAbout(peers, cbs + [cb], uid)
  {
    var more := cbs + [cb];
    assert more[|cbs|] == cb && forall j :: 0 <= j < |cbs| ==> more[j] == cbs[j];
    forall k: nat | JoinedAt(more, uid, k) ensures JoinedAt(cbs, uid, k) && more[k] == cbs[k] {
      assert k < |more|;
    }
    if uid in peers {
      var j: nat :| JoinedAt(cbs, uid, j);
      assert JoinedAt(more, uid, j);
      var k: nat :| k < |cbs| && Joins(cbs[k], uid) && StaysAfter(cbs, uid, k);
      assert Joins(more[k], uid) && StaysAfter(more, uid, k);
    } else {
      forall k: nat | k < |more| ensures !(Joins(more[k], uid) && StaysAfter(more, uid, k)) {
        assert k < |cbs| ==> !(Joins(cbs[k], uid) && StaysAfter(cbs, uid, k));
      }
    }
    hide JoinedAt, StaysAfter;
  }

  lemma OneMoreCallback(s: Client.State, cbs: seq<Callback>, cb: Callback, uid: u64)
    requires Sound(cbs + [cb]) && Sound(cbs) && RightAbout(s.peers, cbs, uid)
    requires Client.RegistersPeer(cb.source, cb.destination) ==> Client.PlayerOk(cb.destination)
    ensures RightAbout(Client.AreaEvent(s, cb.source, cb.destination).peers, cbs + [cb], uid)
  {
    hide RightAbout, Sound;
    var s' := Client.AreaEvent(s, cb.source, cb.destination);
    if Leaves(cb, uid) {
      AfterLeaving(s'.peers, cbs, cb, uid);
    } else if Joins(cb, uid) && uid !in s.peers {
      AfterJoining(s.peers, cbs, cb, uid);
    } else {
      AfterOther(s.peers, cbs, cb, uid);
      assert uid in s'.peers <==> uid in s.peers;
      assert uid in s.peers ==> s'.peers[uid] == s.peers[uid];
      SameAbout(s.peers, s'.peers, cbs + [cb], uid);
    }
  }

  lemma SameAbout(peers: PeerMap, peers': PeerMap, cbs: seq<Callback>, uid: u64)
    requires Sound(cbs) && RightAbout(peers, cbs, uid) && (uid in peers' <==> uid in peers) && (uid in peers ==> peers'[uid] == peers[uid])
    ensures RightAbout(peers', cbs, uid)
  {
    hide JoinedAt, StaysAfter;
  }

  lemma NobodyYet(uid: u64)
    ensures RightAbout(map[], [], uid)
  {
  }

  /** The client's peers after any area callbacks, nobody having been known before. */
  lemma {:induction false} KnownPeers(s: Client.State, cbs: seq<Callback>, uid: u64)
    requires Sound(cbs) && s.peers == map[]
    ensures RightAbout(AfterArea(s, cbs).peers, cbs, uid)
    decreases |cbs|
  {
    hide RightAbout;
    if cbs == [] {
      NobodyYet(uid);
    } else {
      var less, cb := cbs[..|cbs| - 1], cbs[|cbs| - 1];
      assert cbs == less + [cb];
      KnownPeers(s, less, uid);
      OneMoreCallback(AfterArea(s, less), less, cb, uid);
    }
  }

  lemma {:induction false} AfterBoth(s: Client.State, a: seq<Callback>, b: seq<Callback>)
    requires Sound(a) && Sound(b) && Sound(a + b)
    ensures AfterArea(s, a + b) == AfterArea(AfterArea(s, a), b)
    decreases |b|
  {
    if b == [] {
      assert a + b == a;
    } else {
      var less := b[..|b| - 1];
      assert (a + b)[..|a + b| - 1] == a + less;
      AfterBoth(s, a, less);
      hide Client.AreaEvent;
    }
  }

  lemma {:induction false} SamePeers(s: Client.State, s': Client.State, cbs: seq<Callback>)
    requires Sound(cbs) && s'.peers == s.peers
    ensures AfterArea(s', cbs).peers == AfterArea(s, cbs).peers
    decreases |cbs|
  {
    if cbs != [] {
      SamePeers(s, s', cbs[..|cbs| - 1]);
    }
  }

  // ----- Oneself

  predicate IsOwn(cb: Callback) {
    cb.source.elite == 0 && cb.source.prof != 0 && cb.destination.self != 0
  }

  predicate SoundOwn(cbs: seq<Callback>) {
    forall k :: 0 <= k < |cbs| && IsOwn(cbs[k]) ==> IsPlayer(cbs[k].destination) && cbs[k].destination.id > 0
  }

  ghost function AfterLocal(s: Client.State, cbs: seq<Callback>): Client.State
    requires SoundOwn(cbs)
    decreases |cbs|
  {
    if cbs == [] then s
    else
      var last := cbs[|cbs| - 1];
      assert IsOwn(last) <==> Client.RegistersSelf(last.source, last.destination);
      Client.LocalEvent(AfterLocal(s, cbs[..|cbs| - 1]), last.source, last.destination)
  }

  /** The own id and name are those of the last own registration, and nothing else changes. */
  lemma {:induction false} KnownSelf(s: Client.State, cbs: seq<Callback>, k: nat)
    requires SoundOwn(cbs) && k < |cbs| && IsOwn(cbs[k]) && forall j :: k < j < |cbs| ==> !IsOwn(cbs[j])
    ensures AfterLocal(s, cbs) == s.(instanceId := cbs[k].destination.id, accountName := cbs[k].destination.name.value)
    decreases |cbs|
  {
    var less := cbs[..|cbs| - 1];
    if k == |cbs| - 1 {
      OnlySelf(s, less);
    } else {
      KnownSelf(s, less, k);
      assert !IsOwn(cbs[|cbs| - 1]);
    }
  }

  lemma {:induction false} OnlySelf(s: Client.State, cbs: seq<Callback>)
    requires SoundOwn(cbs)
    ensures var after := AfterLocal(s, cbs);
            && after == s.(instanceId := after.instanceId, accountName := after.accountName)
            && ((forall k :: 0 <= k < |cbs| ==> !IsOwn(cbs[k])) ==> after == s)
    decreases |cbs|
  {
    if cbs != [] {
      OnlySelf(s, cbs[..|cbs| - 1]);
    }
  }

  // ----- Runs

  /** What can happen in a session: sound callbacks, events and parts of a round at any time, the tag of a write that is outstanding, and
      whatever the server's loop can do; what it reads of this connection is the next message. */
  lemma CanHappen<C>(s: State<C>, cb: Callback, event: CbtEvent, a: F.Action<C>, c: C, now: nat)
    ensures SoundOwn([cb]) ==> Allowed(s, Local(cb.source, cb.destination), c)
    ensures Sound([cb]) ==> Allowed(s, Area(cb.source, cb.destination), c)
    ensures Allowed(s, Queue(event), c) && Allowed(s, Serve, c) && (s.outstanding > 0 ==> Allowed(s, WriteReturned, c))
    ensures F.Enabled(s.loop, a) && !(a.ReadTag? && a.c == c && a.ok) ==> Allowed(s, Server(a), c)
    ensures c in s.loop.readTags && s.delivered < |s.sent| ==>
              Allowed(s, Server(F.ReadTag(c, true, Encode(s.sent[s.delivered]), now)), c)
  {
    assert [cb][0] == cb;
    assert IsOwn(cb) <==> Client.RegistersSelf(cb.source, cb.destination);
    hide Encode;
  }

  /** The area callbacks of a run. */
  function AreaCalls<C>(moves: seq<Move<C>>): seq<Callback> {
    if moves == [] then []
    else (if moves[0].Area? then [Callback(moves[0].source, moves[0].destination)] else []) + AreaCalls(moves[1..])
  }

  lemma MovePeers<C>(s: State<C>, m: Move<C>, c: C, threshold: nat)
    requires F.LoopInv(s.loop) && Allowed(s, m, c)
    ensures m.Area? ==> Sound([Callback(m.source, m.destination)])
    ensures Do(s, m, c, threshold).client.peers ==
            if m.Area? then Client.AreaEvent(s.client, m.source, m.destination).peers else s.client.peers
  {
    hide F.Do, F.Enabled, F.LoopInv, Reconcile;
  }

  lemma OneCall(s: Client.State, cb: Callback)
    requires Sound([cb])
    ensures Client.RegistersPeer(cb.source, cb.destination) ==> Client.PlayerOk(cb.destination)
    ensures AfterArea(s, [cb]) == Client.AreaEvent(s, cb.source, cb.destination)
  {
    assert [cb][0] == cb && [cb][..0] == [];
    assert AfterArea(s, []) == s;
  }

  lemma SoundBoth(a: seq<Callback>, b: seq<Callback>)
    requires Sound(a) && Sound(b)
    ensures Sound(a + b)
  {
  }

  lemma {:induction false} RunPeers<C>(s: State<C>, moves: seq<Move<C>>, c: C, threshold: nat)
    requires Inv(s, c) && Legal(s, moves, c, threshold)
    ensures Sound(AreaCalls(moves))
    ensures Perform(s, moves, c, threshold).client.peers == AfterArea(s.client, AreaCalls(moves)).peers
    decreases |moves|
  {
    hide Do, Allowed, ClientInv, ServerSide, AfterArea, Sound;
    if moves == [] {
      NoCalls(s.client);
    } else {
      var m := moves[0];
      InvLoop(s, c);
      StepInv(s, m, c, threshold);
      MovePeers(s, m, c, threshold);
      var s1 := Do(s, m, c, threshold);
      RunPeers(s1, moves[1..], c, threshold);
      var later := AreaCalls(moves[1..]);
      if m.Area? {
        var cb := Callback(m.source, m.destination);
        OneCall(s.client, cb);
        SoundBoth([cb], later);
        AfterBoth(s.client, [cb], later);
        SamePeers(AfterArea(s.client, [cb]), s1.client, later);
      } else {
        assert [] + later == later;
        SamePeers(s.client, s1.client, later);
      }
    }
  }

  lemma NoCalls(s: Client.State)
    ensures Sound([]) && AfterArea(s, []) == s
  {
  }

  // ----- Oneself over runs

  /** The local agent callbacks of a run. */
  function LocalCalls<C>(moves: seq<Move<C>>): seq<Callback> {
    if moves == [] then []
    else (if moves[0].Local? then [Callback(moves[0].source, moves[0].destination)] else []) + LocalCalls(moves[1..])
  }

  ghost predicate SameSelf(s: Client.State, s': Client.State) {
    s'.instanceId == s.instanceId && s'.accountName == s.accountName
  }

  lemma {:induction false} SelfAfter(s: Client.State, s': Client.State, cbs: seq<Callback>)
    requires SoundOwn(cbs) && SameSelf(s, s')
    ensures SameSelf(AfterLocal(s, cbs), AfterLocal(s', cbs))
    decreases |cbs|
  {
    if cbs != [] {
      SelfAfter(s, s', cbs[..|cbs| - 1]);
    }
  }

  lemma {:induction false} SelfAfterBoth(s: Client.State, cb: Callback, cbs: seq<Callback>)
    requires SoundOwn([cb]) && SoundOwn(cbs) && SoundOwn([cb] + cbs)
    ensures AfterLocal(s, [cb] + cbs) == AfterLocal(AfterLocal(s, [cb]), cbs)
    decreases |cbs|
  {
    if cbs == [] {
      assert [cb] + cbs == [cb];
    } else {
      assert ([cb] + cbs)[..|[cb] + cbs| - 1] == [cb] + cbs[..|cbs| - 1];
      SelfAfterBoth(s, cb, cbs[..|cbs| - 1]);
      hide Client.LocalEvent;
    }
  }

  lemma MoveSelf<C>(s: State<C>, m: Move<C>, c: C, threshold: nat)
    requires F.LoopInv(s.loop) && Allowed(s, m, c)
    ensures m.Local? ==> SoundOwn([Callback(m.source, m.destination)])
    ensures SameSelf(if m.Local? then Client.LocalEvent(s.client, m.source, m.destination) else s.client, Do(s, m, c, threshold).client)
  {
    hide F.Do, F.Enabled, F.LoopInv, Served;
    ServedSelf(s);
  }

  lemma ServedSelf<C>(s: State<C>)
    ensures SameSelf(s.client, Served(s).client)
  {
    hide Reconcile;
  }

  lemma OneOwnCall(s: Client.State, cb: Callback)
    requires SoundOwn([cb])
    ensures Client.RegistersSelf(cb.source, cb.destination) ==> Client.PlayerOk(cb.destination) && cb.destination.id > 0
    ensures AfterLocal(s, [cb]) == Client.LocalEvent(s, cb.source, cb.destination)
  {
    assert [cb][0] == cb && [cb][..0] == [];
    assert AfterLocal(s, []) == s;
  }

  /** Over every run, the own id and name are what the local callbacks make of them. */
  lemma {:induction false} RunSelf<C>(s: State<C>, moves: seq<Move<C>>, c: C, threshold: nat)
    requires Inv(s, c) && Legal(s, moves, c, threshold)
    ensures SoundOwn(LocalCalls(moves))
    ensures SameSelf(AfterLocal(s.client, LocalCalls(moves)), Perform(s, moves, c, threshold).client)
    decreases |moves|
  {
    hide Do, Allowed, ClientInv, ServerSide, AfterLocal;
    if moves == [] {
      NoLocalCalls(s.client);
    } else {
      var m := moves[0];
      InvLoop(s, c);
      StepInv(s, m, c, threshold);
      MoveSelf(s, m, c, threshold);
      var s1 := Do(s, m, c, threshold);
      RunSelf(s1, moves[1..], c, threshold);
      var later := LocalCalls(moves[1..]);
      if m.Local? {
        var cb := Callback(m.source, m.destination);
        OneOwnCall(s.client, cb);
        SelfAfterBoth(s.client, cb, later);
        SelfAfter(AfterLocal(s.client, [cb]), s1.client, later);
      } else {
        assert [] + later == later;
        SelfAfter(s.client, s1.client, later);
      }
    }
  }

  lemma NoLocalCalls(s: Client.State)
    ensures SoundOwn([]) && AfterLocal(s, []) == s
  {
  }

  /** The connection is registered under the name and the id with which a player that is there has come. */
  ghost predicate IsThere(conn: Registry.Conn, cbs: seq<Callback>)
    requires Sound(cbs)
  {
    exists uid: u64, k: nat :: JoinedAt(cbs, uid, k) && CarriesName(conn, cbs[k])
  }

  predicate CarriesName(conn: Registry.Conn, cb: Callback) {
    conn.tableEntry == cb.destination.name && conn.instanceId as int == cb.destination.id as int
  }

  lemma ThereIsPeer(s: Client.State, cbs: seq<Callback>, conn: Registry.Conn)
    requires Sound(cbs) && s.peers == map[]
    ensures IsThere(conn, cbs) <==> IsPeer(conn, AfterArea(s, cbs).peers)
  {
    var peers := AfterArea(s, cbs).peers;
    forall uid: u64 ensures RightAbout(peers, cbs, uid) {
      KnownPeers(s, cbs, uid);
    }
    ThereIsKnown(peers, cbs, conn);
  }

  lemma ThereIsKnown(peers: PeerMap, cbs: seq<Callback>, conn: Registry.Conn)
    requires Sound(cbs) && forall uid: u64 :: RightAbout(peers, cbs, uid)
    ensures IsThere(conn, cbs) <==> IsPeer(conn, peers)
  {
    if uid: u64, k: nat :| JoinedAt(cbs, uid, k) && CarriesName(conn, cbs[k]) {
      assert RightAbout(peers, cbs, uid);
      hide JoinedAt, StaysAfter;
      assert uid in peers;
    }
    if uid :| uid in peers && conn.tableEntry == Some(peers[uid].accountName) && conn.instanceId == peers[uid].instanceId {
      assert RightAbout(peers, cbs, uid);
      var k: nat :| JoinedAt(cbs, uid, k);
      assert CarriesName(conn, cbs[k]);
    }
  }

  /** The client has told all it knows, and the server has read it without disconnecting anybody it should not. */
  ghost predicate CaughtUpWith<C>(s: State<C>, c: C) {
    && s.sent != [] && s.delivered == |s.sent| && c in s.loop.server.conns && !s.loop.server.conns[c].forceDisconnected
    && s.client.registeredPeers == s.client.peers
  }

  /** `to` accepts the event if it is that of somebody present, and else nothing. */
  ghost predicate ReachesThose<C>(s: State<C>, c: C, event: CbtEvent, to: C, cbs: seq<Callback>)
    requires Sound(cbs) && c in s.loop.server.conns && to in s.loop.server.conns
  {
    var conn := s.loop.server.conns[to];
    var (after, error) := Registry.HandleCombatEvent(s.loop.server, c, event);
    && error == None && to in after.conns
    && after.conns[to].outbox.accepted ==
       if IsThere(conn, cbs) then conn.outbox.accepted + [Registry.ServerEvent(event, s.client.registeredId)] else conn.outbox.accepted
  }

  lemma CaughtUpReaches<C>(s: State<C>, c: C, event: CbtEvent, to: C, before: Client.State, cbs: seq<Callback>)
    requires Inv(s, c) && Mirrored(s) && CaughtUpWith(s, c) && to in s.loop.server.conns
    requires Sound(cbs) && before.peers == map[] && s.client.peers == AfterArea(before, cbs).peers
    ensures ReachesThose(s, c, event, to, cbs)
  {
    hide Inv, Mirrored, AfterArea, Sound, IsThere, IsPeer, Reconcile, Registry.HandleCombatEvent;
    ThereIsPeer(before, cbs, s.loop.server.conns[to]);
    EachCallCounts(s.client.registeredPeers, s.client.peers);
    EventsReachKnownPeers(s, c, event, to);
  }

  lemma RunPresence<C>(s: State<C>, moves: seq<Move<C>>, c: C, threshold: nat, before: Client.State, earlier: seq<Callback>)
    requires Inv(s, c) && Legal(s, moves, c, threshold)
    requires Sound(earlier) && s.client.peers == AfterArea(before, earlier).peers
    ensures Sound(earlier + AreaCalls(moves))
    ensures Perform(s, moves, c, threshold).client.peers == AfterArea(before, earlier + AreaCalls(moves)).peers
  {
    hide *;
    RunPeers(s, moves, c, threshold);
    SoundBoth(earlier, AreaCalls(moves));
    AfterBoth(before, earlier, AreaCalls(moves));
    SamePeers(AfterArea(before, earlier), s.client, AreaCalls(moves));
  }

  /** End to end, by the callbacks: `earlier` are the area callbacks before the connection began.  Once client and server have caught up,
      the next event reaches exactly the connections of the players that have come and not left since. */
  lemma EventsReachThosePresent<C>(s: State<C>, moves: seq<Move<C>>, c: C, threshold: nat,
                                   before: Client.State, earlier: seq<Callback>, event: CbtEvent, to: C)
    requires Start(s, c) && Sound(earlier) && before.peers == map[] && s.client.peers == AfterArea(before, earlier).peers
    ensures Inv(s, c)
    ensures Legal(s, moves, c, threshold) ==> Sound(earlier + AreaCalls(moves))
    ensures Legal(s, moves, c, threshold) && AlwaysDistinct(s, moves, c, threshold) ==>
              var s' := Perform(s, moves, c, threshold);
              CaughtUpWith(s', c) && to in s'.loop.server.conns ==> ReachesThose(s', c, event, to, earlier + AreaCalls(moves))
  {
    hide *;
    StartInv(s, c);
    if Legal(s, moves, c, threshold) {
      RunPresence(s, moves, c, threshold, before, earlier);
      if AlwaysDistinct(s, moves, c, threshold) {
        RunMirrored(s, moves, c, threshold);
        var s' := Perform(s, moves, c, threshold);
        if CaughtUpWith(s', c) && to in s'.loop.server.conns {
          CaughtUpReaches(s', c, event, to, before, earlier + AreaCalls(moves));
        }
      }
    }
  }

  // ----- The name

  /** All own registrations of the run carry the account name. */
  ghost predicate OneName<C>(moves: seq<Move<C>>, name: seq<u8>) {
    forall k :: 0 <= k < |moves| && moves[k].Local? && Client.RegistersSelf(moves[k].source, moves[k].destination) ==>
      moves[k].destination.name == Some(name)
  }

  ghost predicate Named<C>(s: State<C>, name: seq<u8>) {
    && (s.client.instanceId != 0 ==> s.client.accountName == name)
    && (s.sent != [] ==> s.sent[0].RegisterSelf? && s.sent[0].name == name)
  }

  lemma MoveNamed<C>(s: State<C>, m: Move<C>, c: C, threshold: nat, name: seq<u8>)
    requires ClientInv(s) && F.LoopInv(s.loop) && Allowed(s, m, c) && Named(s, name) && OneName([m], name)
    ensures Named(Do(s, m, c, threshold), name)
  {
    assert [m][0] == m;
    hide F.Do, F.Enabled, F.LoopInv;
    if m.Serve? {
      ServedNamed(s, name);
    }
    hide ClientInv, Served;
  }

  lemma ServedNamed<C>(s: State<C>, name: seq<u8>)
    requires ClientInv(s) && Named(s, name)
    ensures Named(Served(s), name)
  {
    PartFits(s.client);
    hide Reconcile, EventsOf, LastId, NamesOk, Conforms, ShortNames;
  }

  lemma {:induction false} RunNamed<C>(s: State<C>, moves: seq<Move<C>>, c: C, threshold: nat, name: seq<u8>)
    requires Inv(s, c) && Legal(s, moves, c, threshold) && Named(s, name) && OneName(moves, name)
    ensures Named(Perform(s, moves, c, threshold), name)
    decreases |moves|
  {
    hide Named, Do, Allowed, ClientInv, ServerSide;
    if moves != [] {
      InvLoop(s, c);
      StepInv(s, moves[0], c, threshold);
      InvHalf(s, c);
      MoveNamed(s, moves[0], c, threshold, name);
      RunNamed(Do(s, moves[0], c, threshold), moves[1..], c, threshold, name);
    }
  }

  lemma InvHalf<C>(s: State<C>, c: C)
    requires Inv(s, c)
    ensures ClientInv(s)
  {
  }

  /** Over every run of a player with one account name: once the server has read anything of a client that it has not disconnected,
      the client is registered under this name, with the id that it reported last. */
  lemma RegisteredAsOneself<C>(s: State<C>, moves: seq<Move<C>>, c: C, threshold: nat, name: seq<u8>)
    requires Start(s, c) && OneName(moves, name) && (s.client.instanceId != 0 ==> s.client.accountName == name)
    ensures Inv(s, c)
    ensures Legal(s, moves, c, threshold) ==>
              var s' := Perform(s, moves, c, threshold);
              var conn := s'.loop.server.conns[c];
              !conn.forceDisconnected && s'.delivered > 0 ==>
                conn.tableEntry == Some(name) && conn.instanceId == LastId(s'.sent[..s'.delivered])
  {
    hide *;
    StartInv(s, c);
    StartNamed(s, c, name);
    if Legal(s, moves, c, threshold) {
      RunNamed(s, moves, c, threshold, name);
      ServerHasName(Perform(s, moves, c, threshold), c, name);
    }
  }

  lemma StartNamed<C>(s: State<C>, c: C, name: seq<u8>)
    requires Start(s, c) && (s.client.instanceId != 0 ==> s.client.accountName == name)
    ensures Named(s, name)
  {
    hide F.LoopInv, Registry.NEW_CONN, NamesOk;
  }

  lemma ServerHasName<C>(s: State<C>, c: C, name: seq<u8>)
    requires Inv(s, c) && Named(s, name)
    ensures c in s.loop.server.conns && s.delivered <= |s.sent|
    ensures var conn := s.loop.server.conns[c];
            !conn.forceDisconnected && s.delivered > 0 ==>
              conn.tableEntry == Some(name) && conn.instanceId == LastId(s.sent[..s.delivered])
  {
    hide F.LoopInv, ClientInv, LastId, Applied;
    assert s.delivered > 0 ==> s.sent[..s.delivered][0] == s.sent[0];
  }
}
