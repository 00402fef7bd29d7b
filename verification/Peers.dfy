/** The client's bookkeeping of the peers that it has told the server about (networking/Client.cpp). */
module Peers {
  import opened CombatEvents
  import opened Order
  import opened Wire
  import Registry

  datatype PeerInfo = PeerInfo(instanceId: u16, accountName: seq<u8>)

  type PeerMap = map<u64, PeerInfo>

  /** Registered with the server but gone, or registered with a name or id that has changed. */
  function Stale(registered: PeerMap, peers: PeerMap): set<u64> {
    set uid | uid in registered && (uid !in peers || registered[uid] != peers[uid])
  }

  function Unregistered(registered: PeerMap, peers: PeerMap): set<u64> {
    set uid | uid in peers && uid !in registered
  }

  /** Known, but not registered in this form. */
  function Missing(registered: PeerMap, peers: PeerMap): set<u64> {
    set uid | uid in peers && (uid !in registered || registered[uid] != peers[uid])
  }

  ghost function LeastId(ids: set<u64>): (least: u64)
    requires ids != {}
    ensures IsLeast(IdLeq, least, ids)
  {
    IdOrder();
    LeastExists(IdLeq, ids);
    var least :| IsLeast(IdLeq, least, ids);
    least
  }

  /** `TryGetPeerEvent`: at most one message, and removals before additions. */
  ghost function Reconcile(registered: PeerMap, peers: PeerMap): (PeerMap, Option<ClientMsg>) {
    if Stale(registered, peers) != {} then
      var uid := LeastId(Stale(registered, peers));
      (registered - {uid}, Some(RemovePeer(registered[uid].instanceId)))
    else if Unregistered(registered, peers) != {} then
      var uid := LeastId(Unregistered(registered, peers));
      (registered[uid := peers[uid]], Some(AddPeer(peers[uid].instanceId, peers[uid].accountName)))
    else (registered, None)
  }

  /** The registered peer is gone, or known with another name or id. */
  predicate OutOfDate(registered: PeerMap, peers: PeerMap, uid: u64) {
    && uid in registered
    && (uid !in peers || registered[uid].instanceId != peers[uid].instanceId || registered[uid].accountName != peers[uid].accountName)
  }

  predicate NotTold(registered: PeerMap, peers: PeerMap, uid: u64) {
    uid in peers && uid !in registered
  }

  /** A call deregisters the first peer that is out of date, or if there is none registers the first one not told yet, or if there is
      none either does nothing. */
  lemma ReconcileMeans(registered: PeerMap, peers: PeerMap, uid: u64)
    ensures var (after, msg) := Reconcile(registered, peers);
            && (OutOfDate(registered, peers, uid) && (forall other: u64 :: other < uid ==> !OutOfDate(registered, peers, other)) ==>
                  msg == Some(RemovePeer(registered[uid].instanceId)) && after == registered - {uid})
            && ((forall other: u64 :: !OutOfDate(registered, peers, other)) && NotTold(registered, peers, uid)
                && (forall other: u64 :: other < uid ==> !NotTold(registered, peers, other)) ==>
                  msg == Some(AddPeer(peers[uid].instanceId, peers[uid].accountName)) && after == registered[uid := peers[uid]])
            && ((forall other: u64 :: !OutOfDate(registered, peers, other) && !NotTold(registered, peers, other)) ==>
                  msg == None && after == registered)
  {
    forall other: u64
      ensures (other in Stale(registered, peers) <==> OutOfDate(registered, peers, other))
              && (other in Unregistered(registered, peers) <==> NotTold(registered, peers, other))
    {
    }
    IdOrder();
    if IsLeast(IdLeq, uid, Stale(registered, peers)) {
      LeastUnique(IdLeq, Stale(registered, peers), uid, LeastId(Stale(registered, peers)));
    }
    if IsLeast(IdLeq, uid, Unregistered(registered, peers)) {
      LeastUnique(IdLeq, Unregistered(registered, peers), uid, LeastId(Unregistered(registered, peers)));
    }
    hide Stale, Unregistered, OutOfDate, NotTold;
  }

  // ----- How many messages it takes

  ghost function Work(registered: PeerMap, peers: PeerMap): nat {
    |Stale(registered, peers)| + |Missing(registered, peers)|
  }

  lemma RemovalCounts(registered: PeerMap, peers: PeerMap, uid: u64)
    requires uid in Stale(registered, peers)
    ensures Work(registered - {uid}, peers) == Work(registered, peers) - 1
  {
    assert Stale(registered - {uid}, peers) == Stale(registered, peers) - {uid};
    assert Missing(registered - {uid}, peers) == Missing(registered, peers);
  }

  lemma AdditionCounts(registered: PeerMap, peers: PeerMap, uid: u64)
    requires Stale(registered, peers) == {} && uid in Unregistered(registered, peers)
    ensures Work(registered[uid := peers[uid]], peers) == Work(registered, peers) - 1
    ensures Stale(registered[uid := peers[uid]], peers) == {}
  {
    var registered' := registered[uid := peers[uid]];
    forall other | other in registered' ensures other !in Stale(registered', peers) {
      assert other == uid || other !in Stale(registered, peers);
    }
    assert Stale(registered', peers) == {};
    assert Missing(registered', peers) == Missing(registered, peers) - {uid};
  }

  /** Every call that yields a message takes one unit of work away, and only a finished reconciliation yields none. */
  lemma EachCallCounts(registered: PeerMap, peers: PeerMap)
    ensures var (registered', msg) := Reconcile(registered, peers);
            && (msg == None <==> registered == peers)
            && (msg == None <==> Work(registered, peers) == 0)
            && (msg == None ==> registered' == registered)
            && (msg.Some? ==> Work(registered', peers) == Work(registered, peers) - 1)
  {
    if Stale(registered, peers) != {} {
      RemovalCounts(registered, peers, LeastId(Stale(registered, peers)));
    } else if Unregistered(registered, peers) != {} {
      AdditionCounts(registered, peers, LeastId(Unregistered(registered, peers)));
    } else {
      forall uid ensures (uid in registered <==> uid in peers) && (uid in registered ==> registered[uid] == peers[uid]) {
        assert uid !in Stale(registered, peers) && uid !in Unregistered(registered, peers);
      }
      assert registered == peers;
    }
    if registered == peers {
      assert Stale(registered, peers) == {} && Missing(registered, peers) == {};
    }
  }

  /** `n` calls in a row while the peers stay the same. */
  ghost function Calls(registered: PeerMap, peers: PeerMap, n: nat): (PeerMap, seq<ClientMsg>) {
    if n == 0 then (registered, [])
    else
      var (before, msgs) := Calls(registered, peers, n - 1);
      var (after, msg) := Reconcile(before, peers);
      (after, if msg.Some? then msgs + [msg.value] else msgs)
  }

  /** With the peers frozen, exactly stale-or-changed plus missing-or-changed calls yield a message, and then the
      registered peers are the known ones. */
  lemma {:induction false} FrozenPeers(registered: PeerMap, peers: PeerMap, n: nat)
    ensures var work := Work(registered, peers);
            var (after, msgs) := Calls(registered, peers, n);
            && |msgs| == (if n <= work then n else work)
            && Work(after, peers) == work - |msgs|
            && (n >= work <==> after == peers)
  {
    EachCallCounts(registered, peers);
    if n > 0 {
      FrozenPeers(registered, peers, n - 1);
      var (before, msgs) := Calls(registered, peers, n - 1);
      EachCallCounts(before, peers);
      EachCallCounts(Reconcile(before, peers).0, peers);
    }
  }

  // ----- What the server knows after these messages

  /** What the server's handlers make of a client's messages: its map from account names to instance ids. */
  ghost function Applied(msgs: seq<ClientMsg>): map<seq<u8>, u16> {
    if msgs == [] then map[] else Apply(Applied(msgs[..|msgs| - 1]), msgs[|msgs| - 1])
  }

  ghost function Apply(known: map<seq<u8>, u16>, msg: ClientMsg): map<seq<u8>, u16> {
    match msg
    case AddPeer(id, name) => known[name := id]
    case RemovePeer(id) => Registry.WithoutPeer(known, id)
    case _ => known
  }

  ghost predicate DistinctNames(peers: PeerMap) {
    forall a, b :: a in peers && b in peers && a != b ==> peers[a].accountName != peers[b].accountName
  }

  ghost predicate DistinctIds(peers: PeerMap) {
    forall a, b :: a in peers && b in peers && a != b ==> peers[a].instanceId != peers[b].instanceId
  }

  ghost predicate Distinct(peers: PeerMap) {
    DistinctNames(peers) && DistinctIds(peers)
  }

  /** The map from account names to instance ids that belongs to `peers`. */
  ghost predicate IsImage(known: map<seq<u8>, u16>, peers: PeerMap) {
    && (forall uid :: uid in peers ==> peers[uid].accountName in known && known[peers[uid].accountName] == peers[uid].instanceId)
    && (forall name :: name in known ==> exists uid :: uid in peers && peers[uid].accountName == name)
  }

  ghost function Image(peers: PeerMap): (known: map<seq<u8>, u16>)
    requires DistinctNames(peers)
    ensures IsImage(known, peers)
  {
    map uid | uid in peers :: peers[uid].accountName := peers[uid].instanceId
  }

  lemma ImageUnique(known: map<seq<u8>, u16>, peers: PeerMap)
    requires DistinctNames(peers) && IsImage(known, peers)
    ensures known == Image(peers)
  {
    var image := Image(peers);
    hide Image;
    forall name ensures name in known <==> name in image {
    }
    forall name | name in known ensures known[name] == image[name] {
      var uid :| uid in peers && peers[uid].accountName == name;
    }
  }

  lemma EmptyImage(none: PeerMap)
    requires none == map[]
    ensures Distinct(none) && Image(none) == map[]
  {
    ImageUnique(map[], none);
  }

  lemma ImageWithout(peers: PeerMap, uid: u64)
    requires DistinctNames(peers) && uid in peers
    ensures DistinctNames(peers - {uid}) && Image(peers - {uid}) == Image(peers) - {peers[uid].accountName}
  {
    hide Image;
    var known := Image(peers) - {peers[uid].accountName};
    forall name | name in known ensures exists other :: other in peers - {uid} && (peers - {uid})[other].accountName == name {
      var other :| other in peers && peers[other].accountName == name;
      assert other in peers - {uid};
    }
    assert IsImage(known, peers - {uid});
    ImageUnique(known, peers - {uid});
  }

  lemma ImageWith(peers: PeerMap, uid: u64, info: PeerInfo)
    requires DistinctNames(peers) && uid !in peers && DistinctNames(peers[uid := info])
    ensures Image(peers[uid := info]) == Image(peers)[info.accountName := info.instanceId]
  {
    hide Image;
    var more := peers[uid := info];
    var known := Image(peers)[info.accountName := info.instanceId];
    forall name | name in known ensures exists other :: other in more && more[other].accountName == name {
      if name == info.accountName {
        assert more[uid].accountName == name;
      } else {
        var other :| other in peers && peers[other].accountName == name;
        assert more[other].accountName == name;
      }
    }
    forall other | other in more ensures more[other].accountName in known && known[more[other].accountName] == more[other].instanceId {
      assert other != uid ==> more[other].accountName != more[uid].accountName;
    }
    ImageUnique(known, more);
  }

  /** No peer with a lesser name has the id. */
  ghost predicate FirstWithId(registered: PeerMap, uid: u64)
    requires uid in registered
  {
    forall other :: other in registered && registered[other].instanceId == registered[uid].instanceId
                    ==> NameLeq(registered[uid].accountName, registered[other].accountName)
  }

  /** A removal message hits the peer that it means exactly when no peer with a lesser name has the same id. */
  lemma RemovalHits(registered: PeerMap, uid: u64)
    requires DistinctNames(registered) && uid in registered
    ensures DistinctNames(registered - {uid})
    ensures Apply(Image(registered), RemovePeer(registered[uid].instanceId)) == Image(registered - {uid}) <==> FirstWithId(registered, uid)
  {
    hide *;
    ImageWithout(registered, uid);
    ImageAt(registered, uid);
    var known, name, id := Image(registered), registered[uid].accountName, registered[uid].instanceId;
    var first := FirstNamed(known, id, name);
    RemoveOne(known, first, name);
    LeastMeansFirst(registered, uid);
    NameOrder();
    if FirstWithId(registered, uid) {
      LeastUnique(NameLeq, Registry.NamesWith(known, id), first, name);
    }
  }

  lemma ImageAt(peers: PeerMap, uid: u64)
    requires DistinctNames(peers) && uid in peers
    ensures peers[uid].accountName in Image(peers) && Image(peers)[peers[uid].accountName] == peers[uid].instanceId
  {
    hide Image;
  }

  lemma RemoveOne(known: map<seq<u8>, u16>, a: seq<u8>, b: seq<u8>)
    requires a in known && b in known
    ensures known - {a} == known - {b} <==> a == b
  {
    assert a !in known - {a} && (a != b ==> a in known - {b});
  }

  lemma FirstNamed(known: map<seq<u8>, u16>, id: u16, name: seq<u8>) returns (first: seq<u8>)
    requires name in known && known[name] == id
    ensures first in known && IsLeast(NameLeq, first, Registry.NamesWith(known, id))
    ensures Apply(known, RemovePeer(id)) == known - {first}
  {
    var names := Registry.NamesWith(known, id);
    assert name in names;
    NameOrder();
    LeastExists(NameLeq, names);
    hide NameLeq;
    first :| IsLeast(NameLeq, first, names) && Registry.WithoutPeer(known, id) == known - {first};
  }

  lemma LeastMeansFirst(registered: PeerMap, uid: u64)
    requires DistinctNames(registered) && uid in registered
    ensures IsLeast(NameLeq, registered[uid].accountName, Registry.NamesWith(Image(registered), registered[uid].instanceId))
            <==> FirstWithId(registered, uid)
  {
    hide Image, NameLeq;
    var names := Registry.NamesWith(Image(registered), registered[uid].instanceId);
    if FirstWithId(registered, uid) {
      forall name | name in names ensures NameLeq(registered[uid].accountName, name) {
        var other :| other in registered && registered[other].accountName == name;
      }
    }
    if IsLeast(NameLeq, registered[uid].accountName, names) {
      forall other | other in registered && registered[other].instanceId == registered[uid].instanceId
        ensures NameLeq(registered[uid].accountName, registered[other].accountName)
      {
        assert registered[other].accountName in names;
      }
    }
  }

  lemma DistinctAfter(registered: PeerMap, peers: PeerMap)
    requires Distinct(registered) && Distinct(peers)
    ensures Distinct(Reconcile(registered, peers).0)
  {
    if Stale(registered, peers) == {} && Unregistered(registered, peers) != {} {
      var uid := LeastId(Unregistered(registered, peers));
      forall other | other in registered ensures other in peers && peers[other] == registered[other] {
        assert other !in Stale(registered, peers);
      }
    }
  }

  /** `msg` does to the server's map what was done to the registered peers. */
  ghost predicate Tells(registered: PeerMap, registered': PeerMap, msg: Option<ClientMsg>) {
    && Distinct(registered) && Distinct(registered')
    && Image(registered') == if msg.Some? then Apply(Image(registered), msg.value) else Image(registered)
  }

  lemma RemovalTells(registered: PeerMap, uid: u64)
    requires Distinct(registered) && uid in registered
    ensures Tells(registered, registered - {uid}, Some(RemovePeer(registered[uid].instanceId)))
  {
    assert Distinct(registered - {uid});
    NameOrder();
    assert FirstWithId(registered, uid);
    RemovalHits(registered, uid);
    hide Image, Apply, DistinctNames, DistinctIds, FirstWithId, NameLeq;
  }

  lemma AdditionTells(registered: PeerMap, uid: u64, info: PeerInfo)
    requires Distinct(registered) && uid !in registered && Distinct(registered[uid := info])
    ensures Tells(registered, registered[uid := info], Some(AddPeer(info.instanceId, info.accountName)))
  {
    hide Image, DistinctNames, DistinctIds;
    ImageWith(registered, uid, info);
  }

  lemma OtherTells(registered: PeerMap, msg: Option<ClientMsg>)
    requires Distinct(registered) && (msg.Some? ==> !msg.value.AddPeer? && !msg.value.RemovePeer?)
    ensures Tells(registered, registered, msg)
  {
    hide Image, DistinctNames, DistinctIds;
  }

  lemma ReconcileTells(registered: PeerMap, peers: PeerMap)
    requires Distinct(registered) && Distinct(peers)
    ensures var (registered', msg) := Reconcile(registered, peers); Tells(registered, registered', msg)
  {
    DistinctAfter(registered, peers);
    hide Tells, Distinct;
    if Stale(registered, peers) != {} {
      RemovalTells(registered, LeastId(Stale(registered, peers)));
    } else if Unregistered(registered, peers) != {} {
      var uid := LeastId(Unregistered(registered, peers));
      AdditionTells(registered, uid, peers[uid]);
    } else {
      OtherTells(registered, None);
    }
  }

  const TWINS: PeerMap := map[1 := PeerInfo(5, [97]), 2 := PeerInfo(5, [98])]
  const LEFT: PeerMap := map[1 := PeerInfo(5, [97])]

  lemma TwinImages()
    ensures DistinctNames(TWINS) && Image(TWINS) == map[[97] := 5, [98] := 5]
    ensures DistinctNames(LEFT) && Image(LEFT) == map[[97] := 5]
  {
    hide *;
    TwinsImage();
    LeftImage();
    ImageUnique(map[[97] := 5, [98] := 5], TWINS);
    ImageUnique(map[[97] := 5], LEFT);
  }

  lemma TwinsImage()
    ensures DistinctNames(TWINS) && IsImage(map[[97] := 5, [98] := 5], TWINS)
  {
    assert [97][0] != [98][0];
    assert TWINS[1].accountName == [97] && TWINS[2].accountName == [98];
  }

  lemma LeftImage()
    ensures DistinctNames(LEFT) && IsImage(map[[97] := 5], LEFT)
  {
    assert LEFT[1].accountName == [97];
  }

  lemma FirstTwin(first: seq<u8>)
    requires IsLeast(NameLeq, first, Registry.NamesWith(map[[97] := 5, [98] := 5], 5))
    ensures first == [97]
  {
    assert [97] in Registry.NamesWith(map[[97] := 5, [98] := 5], 5);
    assert NameLeq([97], [98]) && !NameLeq([98], [97]);
  }

  /** Without distinct ids the wrong peer goes: the second of two peers with one id leaves, and the server drops the first. */
  lemma SharedIdDropsTheWrongPeer()
    ensures LEFT == TWINS - {2} && Reconcile(TWINS, LEFT) == (LEFT, Some(RemovePeer(5)))
    ensures DistinctNames(TWINS) && Apply(Image(TWINS), RemovePeer(5)) == map[[98] := 5]
    ensures DistinctNames(LEFT) && Image(LEFT) == map[[97] := 5]
  {
    hide DistinctNames, Image, Registry.WithoutPeer, Registry.NamesWith;
    TwinImages();
    assert Stale(TWINS, LEFT) == {2};
    assert LeastId({2}) == 2;
    var known := Image(TWINS);
    var first := FirstNamed(known, 5, [97]);
    assert first == [97] by {
      FirstTwin(first);
    }
    hide Apply, NameLeq;
    assert known - {[97]} == map[[98] := 5];
  }
}
