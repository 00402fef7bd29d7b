/** Anchoring windows to each other, and how the program keeps the anchors free of cycles
    (`FindAndResolveCyclicDependencies` in src/GUI.cpp). */
module AnchorGraph {
  import opened CombatEvents

  datatype HealWindow = HealWindow(windowId: u32, anchorWindowId: u32)

  // ----- The graph of anchors

  /** The first window with the id, as the loop that fills `windowIdToWindowIndex` finds it. */
  function Lookup(ws: seq<HealWindow>, id: u32): (i: Option<nat>)
    ensures i.Some? ==> i.value < |ws| && ws[i.value].windowId == id
  {
    if ws == [] then None
    else
      var before := Lookup(ws[..|ws| - 1], id);
      if before.Some? then before else if ws[|ws| - 1].windowId == id then Some(|ws| - 1) else None
  }

  /** `i` is the least index of a window with the id. */
  ghost predicate IsFirst(ws: seq<HealWindow>, id: u32, i: nat) {
    i < |ws| && ws[i].windowId == id && forall j :: 0 <= j < i ==> ws[j].windowId != id
  }

  lemma {:induction false} LookupFindsFirst(ws: seq<HealWindow>, id: u32, i: nat)
    ensures Lookup(ws, id) == Some(i) <==> IsFirst(ws, id, i)
    ensures Lookup(ws, id) == None <==> forall j :: 0 <= j < |ws| ==> ws[j].windowId != id
  {
    if ws != [] {
      LookupFindsFirst(ws[..|ws| - 1], id, i);
      assert forall j :: 0 <= j < |ws| - 1 ==> ws[..|ws| - 1][j] == ws[j];
    }
  }

  /** The window that window `i` is anchored to, if it is one of ours. */
  function Next(ws: seq<HealWindow>, i: nat): (j: Option<nat>)
    requires i < |ws|
    ensures j.Some? ==> j.value < |ws|
  {
    if ws[i].anchorWindowId == 0 then None else Lookup(ws, ws[i].anchorWindowId)
  }

  /** Where the chain from `start` is after `k` steps. */
  function Walk(ws: seq<HealWindow>, start: nat, k: nat): (j: Option<nat>)
    requires start < |ws|
    ensures j.Some? ==> j.value < |ws|
  {
    if k == 0 then Some(start)
    else
      var before := Walk(ws, start, k - 1);
      if before == None then None else Next(ws, before.value)
  }

  ghost predicate Endless(ws: seq<HealWindow>, start: nat)
    requires start < |ws|
  {
    forall k: nat :: Walk(ws, start, k).Some?
  }

  ghost predicate OnCycle(ws: seq<HealWindow>, i: nat)
    requires i < |ws|
  {
    exists k: nat :: k > 0 && Walk(ws, i, k) == Some(i)
  }

  ghost predicate Acyclic(ws: seq<HealWindow>) {
    forall i: nat :: i < |ws| ==> !OnCycle(ws, i)
  }

  function SetAnchor(ws: seq<HealWindow>, i: nat, anchor: u32): seq<HealWindow>
    requires i < |ws|
  {
    ws[i := ws[i].(anchorWindowId := anchor)]
  }

  /** What the program makes of the windows: an endless chain is cut at its start. */
  ghost function Resolved(ws: seq<HealWindow>, start: nat): seq<HealWindow>
    requires start < |ws|
  {
    if Endless(ws, start) then SetAnchor(ws, start, 0) else ws
  }

  // ----- Walks

  lemma {:induction false} WalkAdds(ws: seq<HealWindow>, i: nat, j: nat, k: nat)
    requires i < |ws| && Walk(ws, i, j).Some?
    ensures Walk(ws, i, j + k) == Walk(ws, Walk(ws, i, j).value, k)
  {
    if k > 0 {
      WalkAdds(ws, i, j, k - 1);
    }
  }

  lemma {:induction false} WalkPrefix(ws: seq<HealWindow>, i: nat, j: nat, k: nat)
    requires i < |ws| && j <= k && Walk(ws, i, k).Some?
    ensures Walk(ws, i, j).Some?
  {
    if j < k {
      WalkPrefix(ws, i, j, k - 1);
    }
  }

  /** A chain that comes to a window for the second time never ends. */
  lemma {:induction false} RevisitMeansEndless(ws: seq<HealWindow>, start: nat, j: nat, k: nat, m: nat)
    requires start < |ws| && j < k && Walk(ws, start, k).Some? && Walk(ws, start, j) == Walk(ws, start, k)
    ensures Walk(ws, start, m).Some?
    decreases m
  {
    if m <= k {
      WalkPrefix(ws, start, m, k);
    } else {
      WalkAdds(ws, start, k, m - k);
      WalkAdds(ws, start, j, m - k);
      RevisitMeansEndless(ws, start, j, k, j + (m - k));
    }
  }

  lemma RevisitedEndless(ws: seq<HealWindow>, start: nat, j: nat, k: nat)
    requires start < |ws| && j < k && Walk(ws, start, k).Some? && Walk(ws, start, j) == Walk(ws, start, k)
    ensures Endless(ws, start)
  {
    forall m: nat ensures Walk(ws, start, m).Some? {
      RevisitMeansEndless(ws, start, j, k, m);
    }
  }

  lemma EndingChain(ws: seq<HealWindow>, start: nat, k: nat)
    requires start < |ws| && Walk(ws, start, k) == None
    ensures !Endless(ws, start)
  {
  }

  lemma CycleIsEndless(ws: seq<HealWindow>, i: nat)
    requires i < |ws| && OnCycle(ws, i)
    ensures Endless(ws, i)
  {
    var k: nat :| k > 0 && Walk(ws, i, k) == Some(i);
    RevisitedEndless(ws, i, 0, k);
  }

  lemma {:induction false} LookupByIdOnly(ws: seq<HealWindow>, i: nat, anchor: u32, id: u32)
    requires i < |ws|
    ensures Lookup(SetAnchor(ws, i, anchor), id) == Lookup(ws, id)
  {
    var last := |ws| - 1;
    if i == last {
      assert SetAnchor(ws, i, anchor)[..last] == ws[..last];
    } else {
      LookupByIdOnly(ws[..last], i, anchor, id);
      assert SetAnchor(ws, i, anchor)[..last] == SetAnchor(ws[..last], i, anchor);
    }
  }

  lemma NextElsewhere(ws: seq<HealWindow>, s: nat, anchor: u32, i: nat)
    requires s < |ws| && i < |ws|
    ensures i != s ==> Next(SetAnchor(ws, s, anchor), i) == Next(ws, i)
    ensures anchor == 0 ==> Next(SetAnchor(ws, s, anchor), s) == None
  {
    LookupByIdOnly(ws, s, anchor, ws[i].anchorWindowId);
  }

  /** A walk that does not leave `s` is the same in both graphs. */
  lemma {:induction false} WalkElsewhere(ws: seq<HealWindow>, s: nat, anchor: u32, i: nat, k: nat)
    requires s < |ws| && i < |ws| && forall m: nat :: m < k ==> Walk(ws, i, m) != Some(s)
    ensures Walk(SetAnchor(ws, s, anchor), i, k) == Walk(ws, i, k)
  {
    if k > 0 {
      WalkElsewhere(ws, s, anchor, i, k - 1);
      assert Walk(ws, i, k - 1) != Some(s);
      if Walk(ws, i, k - 1).Some? {
        NextElsewhere(ws, s, anchor, Walk(ws, i, k - 1).value);
      }
    }
  }

  lemma {:induction false} CutWalk(ws: seq<HealWindow>, s: nat, i: nat, k: nat)
    requires s < |ws| && i < |ws| && Walk(SetAnchor(ws, s, 0), i, k).Some?
    ensures Walk(ws, i, k) == Walk(SetAnchor(ws, s, 0), i, k)
  {
    if k > 0 {
      CutWalk(ws, s, i, k - 1);
      NextElsewhere(ws, s, 0, Walk(ws, i, k - 1).value);
    }
  }

  // ----- Acyclicity

  lemma CutKeepsAcyclic(ws: seq<HealWindow>, s: nat)
    requires s < |ws| && Acyclic(ws)
    ensures Acyclic(SetAnchor(ws, s, 0))
  {
    var cut := SetAnchor(ws, s, 0);
    forall i: nat | i < |cut| ensures !OnCycle(cut, i) {
      if OnCycle(cut, i) {
        var k: nat :| k > 0 && Walk(cut, i, k) == Some(i);
        CutWalk(ws, s, i, k);
        assert OnCycle(ws, i);
      }
    }
  }

  lemma EndingChainAddsNoCycle(ws: seq<HealWindow>, s: nat)
    requires s < |ws| && !Endless(ws, s) && Acyclic(SetAnchor(ws, s, 0))
    ensures Acyclic(ws)
  {
    var cut := SetAnchor(ws, s, 0);
    forall i: nat | i < |ws| ensures !OnCycle(ws, i) {
      if OnCycle(ws, i) {
        CycleIsEndless(ws, i);
        var k: nat :| k > 0 && Walk(ws, i, k) == Some(i);
        if m: nat :| m < k && Walk(ws, i, m) == Some(s) {
          forall j: nat ensures Walk(ws, s, j).Some? {
            WalkAdds(ws, i, m, j);
          }
          assert false;
        } else {
          WalkElsewhere(ws, s, 0, i, k);
          assert OnCycle(cut, i);
        }
      }
    }
  }

  /** Resolving from a window leaves no cycle if and only if the links of the other windows form none. */
  lemma ResolvedAcyclic(ws: seq<HealWindow>, start: nat)
    requires start < |ws|
    ensures Acyclic(Resolved(ws, start)) <==> Acyclic(SetAnchor(ws, start, 0))
  {
    if !Endless(ws, start) {
      if Acyclic(SetAnchor(ws, start, 0)) {
        EndingChainAddsNoCycle(ws, start);
      }
      if Acyclic(ws) {
        CutKeepsAcyclic(ws, start);
      }
    }
  }

  /** Given anchors without a cycle, the new link is removed exactly when it closes one. */
  lemma CutExactlyOnCycle(ws: seq<HealWindow>, start: nat, anchor: u32)
    requires start < |ws| && Acyclic(ws)
    ensures var linked := SetAnchor(ws, start, anchor);
            (Resolved(linked, start) != linked <==> OnCycle(linked, start)) && (OnCycle(linked, start) <==> !Acyclic(linked))
  {
    var linked := SetAnchor(ws, start, anchor);
    CutKeepsAcyclic(ws, start);
    assert SetAnchor(linked, start, 0) == SetAnchor(ws, start, 0);
    if OnCycle(linked, start) {
      CycleIsEndless(linked, start);
      assert Walk(linked, start, 1).Some?;
    } else {
      if Endless(linked, start) {
        EndlessCloses(ws, start, anchor);
        assert false;
      }
      EndingChainAddsNoCycle(linked, start);
    }
  }

  /** Old links alone do not make an endless chain, so one comes back to `start`. */
  lemma EndlessCloses(ws: seq<HealWindow>, start: nat, anchor: u32)
    requires start < |ws| && Acyclic(ws) && Endless(SetAnchor(ws, start, anchor), start)
    ensures OnCycle(SetAnchor(ws, start, anchor), start)
  {
    var linked := SetAnchor(ws, start, anchor);
    var j, k := Repeats(linked, start);
    var x := Walk(linked, start, j).value;
    WalkAdds(linked, start, j, k - j);
    if m: nat :| m < k - j && Walk(linked, x, m) == Some(start) {
      WalkAdds(linked, start, j, m);
      assert Walk(linked, start, if j + m > 0 then j + m else k) == Some(start);
    } else {
      assert SetAnchor(linked, start, ws[start].anchorWindowId) == ws && !OnCycle(ws, x);
      WalkElsewhere(linked, start, ws[start].anchorWindowId, x, k - j);
      assert false;
    }
  }

  function WalkSeq(ws: seq<HealWindow>, start: nat, n: nat): (r: seq<nat>)
    requires start < |ws| && forall k: nat :: k < n ==> Walk(ws, start, k).Some?
    ensures |r| == n && forall k :: 0 <= k < n ==> r[k] == Walk(ws, start, k).value
  {
    seq(n, k requires 0 <= k < n => Walk(ws, start, k).value)
  }

  ghost predicate Distinct(s: seq<nat>) {
    forall j, k :: 0 <= j < k < |s| ==> s[j] != s[k]
  }

  /** There are at most `n` different numbers below `n`. */
  lemma {:induction false} Pigeonhole(s: seq<nat>, n: nat)
    requires Distinct(s) && forall k :: 0 <= k < |s| ==> s[k] < n
    ensures |s| <= n
  {
    var seen := set k | 0 <= k < |s| :: s[k];
    SizeOf(s, seen);
    assert seen <= Below(n);
    SubsetSize(seen, Below(n));
  }

  lemma {:induction false} SizeOf(s: seq<nat>, seen: set<nat>)
    requires Distinct(s) && seen == set k | 0 <= k < |s| :: s[k]
    ensures |seen| == |s|
    decreases |s|
  {
    if s != [] {
      var less, last := s[..|s| - 1], s[|s| - 1];
      var rest := set k | 0 <= k < |less| :: less[k];
      SizeOf(less, rest);
      forall x ensures x in seen <==> x in rest || x == last {
        if x in rest {
          var k :| 0 <= k < |less| && less[k] == x;
          assert s[k] == x;
        }
      }
      assert seen == rest + {last};
    }
  }

  ghost function Below(n: nat): (r: set<nat>)
    ensures |r| == n && forall x: nat :: x in r <==> x < n
  {
    if n == 0 then {} else Below(n - 1) + {n - 1}
  }

  lemma {:induction false} SubsetSize(a: set<nat>, b: set<nat>)
    requires a <= b
    ensures |a| <= |b|
    decreases |a|
  {
    if a != {} {
      var x :| x in a;
      SubsetSize(a - {x}, b - {x});
    }
  }

  lemma Repeats(ws: seq<HealWindow>, start: nat) returns (j: nat, k: nat)
    requires start < |ws| && Endless(ws, start)
    ensures j < k && Walk(ws, start, j).Some? && Walk(ws, start, k) == Walk(ws, start, j)
  {
    var chain := WalkSeq(ws, start, |ws| + 1);
    if Distinct(chain) {
      Pigeonhole(chain, |ws|);
      assert false;
    }
    j, k :| 0 <= j < k < |chain| && chain[j] == chain[k];
  }

  /** A change that the user makes: anchor window `index`, and resolve. */
  datatype Edit = Edit(index: nat, anchor: u32)

  ghost function Edited(ws: seq<HealWindow>, edits: seq<Edit>): (ws': seq<HealWindow>)
    requires forall k :: 0 <= k < |edits| ==> edits[k].index < |ws|
    ensures |ws'| == |ws|
  {
    if edits == [] then ws
    else
      var before := Edited(ws, edits[..|edits| - 1]);
      var e := edits[|edits| - 1];
      Resolved(SetAnchor(before, e.index, e.anchor), e.index)
  }

  /** With fixed window ids, anchors without a cycle have none after any number of changes. */
  lemma {:induction false} AcyclicForever(ws: seq<HealWindow>, edits: seq<Edit>)
    requires Acyclic(ws) && forall k :: 0 <= k < |edits| ==> edits[k].index < |ws|
    ensures Acyclic(Edited(ws, edits))
  {
    if edits != [] {
      AcyclicForever(ws, edits[..|edits| - 1]);
      var before := Edited(ws, edits[..|edits| - 1]);
      var e := edits[|edits| - 1];
      var linked := SetAnchor(before, e.index, e.anchor);
      CutKeepsAcyclic(before, e.index);
      assert SetAnchor(linked, e.index, 0) == SetAnchor(before, e.index, 0);
      ResolvedAcyclic(linked, e.index);
    }
  }

  // ----- Cycles told by the windows' fields

  /** No two windows have the same id, and none has the id 0. */
  ghost predicate OwnIds(ws: seq<HealWindow>) {
    && (forall i :: 0 <= i < |ws| ==> ws[i].windowId != 0)
    && (forall i, j :: 0 <= i < j < |ws| ==> ws[i].windowId != ws[j].windowId)
  }

  /** Each window of `path` is anchored to the next one, and the last one to the first. */
  ghost predicate Ring(ws: seq<HealWindow>, path: seq<nat>) {
    && path != [] && (forall k :: 0 <= k < |path| ==> path[k] < |ws|)
    && (forall k :: 0 <= k < |path| - 1 ==> ws[path[k]].anchorWindowId == ws[path[k + 1]].windowId)
    && ws[path[|path| - 1]].anchorWindowId == ws[path[0]].windowId
  }

  lemma AnchoredTo(ws: seq<HealWindow>, i: nat, j: nat)
    requires OwnIds(ws) && i < |ws| && j < |ws|
    ensures Next(ws, i) == Some(j) <==> ws[i].anchorWindowId == ws[j].windowId
  {
    LookupFindsFirst(ws, ws[i].anchorWindowId, j);
    hide Lookup;
  }

  lemma {:induction false} RingWalks(ws: seq<HealWindow>, path: seq<nat>, k: nat)
    requires OwnIds(ws) && Ring(ws, path) && k < |path|
    ensures Walk(ws, path[0], k) == Some(path[k])
  {
    if k > 0 {
      RingWalks(ws, path, k - 1);
      AnchoredTo(ws, path[k - 1], path[k]);
      assert ws[path[k - 1]].anchorWindowId == ws[path[k - 1 + 1]].windowId;
      hide Next;
    }
  }

  /** With ids of their own, the windows form a ring if and only if some chain of anchors comes back. */
  lemma AcyclicMeansNoRing(ws: seq<HealWindow>)
    requires OwnIds(ws)
    ensures Acyclic(ws) <==> forall path :: !Ring(ws, path)
  {
    hide Walk, Next, OwnIds, Lookup;
    forall path | Ring(ws, path) ensures !Acyclic(ws) {
      RingIsCycle(ws, path);
    }
    if !Acyclic(ws) {
      var i: nat :| i < |ws| && OnCycle(ws, i);
      CycleIsRing(ws, i);
    }
  }

  lemma RingIsCycle(ws: seq<HealWindow>, path: seq<nat>)
    requires OwnIds(ws) && Ring(ws, path)
    ensures path[0] < |ws| && OnCycle(ws, path[0])
  {
    var last := |path| - 1;
    RingWalks(ws, path, last);
    AnchoredTo(ws, path[last], path[0]);
    assert Walk(ws, path[0], last + 1) == Some(path[0]);
    hide OwnIds, Next, Lookup;
  }

  lemma CycleIsRing(ws: seq<HealWindow>, i: nat)
    requires OwnIds(ws) && i < |ws| && OnCycle(ws, i)
    ensures exists path :: Ring(ws, path)
  {
    var n: nat :| n > 0 && Walk(ws, i, n) == Some(i);
    assert Walk(ws, i, 0) == Some(i);
    hide OwnIds, Walk, Next;
    forall k: nat | k <= n ensures Walk(ws, i, k).Some? {
      WalkPrefix(ws, i, k, n);
    }
    var path := WalkSeq(ws, i, n);
    forall k: nat | k < n ensures ws[path[k]].anchorWindowId == ws[Walk(ws, i, k + 1).value].windowId {
      WalkAnchored(ws, i, k);
    }
    assert ws[path[n - 1]].anchorWindowId == ws[Walk(ws, i, n - 1 + 1).value].windowId;
    assert Ring(ws, path);
  }

  lemma WalkAnchored(ws: seq<HealWindow>, i: nat, k: nat)
    requires OwnIds(ws) && i < |ws| && Walk(ws, i, k).Some? && Walk(ws, i, k + 1).Some?
    ensures ws[Walk(ws, i, k).value].anchorWindowId == ws[Walk(ws, i, k + 1).value].windowId
  {
    hide OwnIds, Next;
    AnchoredTo(ws, Walk(ws, i, k).value, Walk(ws, i, k + 1).value);
  }

  lemma {:induction false} EditedIds(ws: seq<HealWindow>, edits: seq<Edit>)
    requires forall k :: 0 <= k < |edits| ==> edits[k].index < |ws|
    ensures forall i :: 0 <= i < |ws| ==> Edited(ws, edits)[i].windowId == ws[i].windowId
  {
    if edits != [] {
      EditedIds(ws, edits[..|edits| - 1]);
    }
  }

  /** With ids of their own, windows whose anchors form no ring form none after any number of changes. */
  lemma NoRingForever(ws: seq<HealWindow>, edits: seq<Edit>, path: seq<nat>)
    requires OwnIds(ws) && (forall p :: !Ring(ws, p)) && forall k :: 0 <= k < |edits| ==> edits[k].index < |ws|
    ensures !Ring(Edited(ws, edits), path)
  {
    EditedIds(ws, edits);
    assert OwnIds(Edited(ws, edits));
    hide OwnIds, Ring, Edited, Acyclic;
    AcyclicMeansNoRing(ws);
    AcyclicForever(ws, edits);
    AcyclicMeansNoRing(Edited(ws, edits));
  }

  /** A change takes effect as it is, unless it closes a ring through the window: then the window ends up without an anchor.  Other
      windows never change. */
  lemma EditMeans(ws: seq<HealWindow>, e: Edit)
    requires OwnIds(ws) && (forall p :: !Ring(ws, p)) && e.index < |ws|
    ensures var linked := SetAnchor(ws, e.index, e.anchor);
            var after := Resolved(linked, e.index);
            && |after| == |ws| && (forall i :: 0 <= i < |ws| && i != e.index ==> after[i] == ws[i])
            && after[e.index].windowId == ws[e.index].windowId
            && after[e.index].anchorWindowId == if exists p :: Ring(linked, p) then 0 else e.anchor
  {
    var linked := SetAnchor(ws, e.index, e.anchor);
    assert OwnIds(linked);
    hide OwnIds, Ring, Acyclic, OnCycle, Endless;
    AcyclicMeansNoRing(ws);
    AcyclicMeansNoRing(linked);
    CutExactlyOnCycle(ws, e.index, e.anchor);
  }

  // ----- The algorithm

  method IndexById(windows: array<HealWindow>) returns (index: map<u32, nat>)
    ensures forall id: u32 :: id in index <==> id != 0 && Lookup(windows[..], id).Some?
    ensures forall id: u32 :: id in index ==> Lookup(windows[..], id) == Some(index[id]) && IsFirst(windows[..], id, index[id])
    ensures forall i :: 0 <= i < windows.Length && windows[i].windowId != 0 ==> windows[i].windowId in index
  {
    index := map[];
    for i := 0 to windows.Length
      invariant forall id: u32 :: id in index <==> id != 0 && Lookup(windows[..i], id).Some?
      invariant forall id: u32 :: id in index ==> Lookup(windows[..i], id) == Some(index[id])
    {
      assert windows[..i + 1][..i] == windows[..i];
      var id := windows[i].windowId;
      if id != 0 && id !in index {
        index := index[id := i];
      }
    }
    assert windows[..windows.Length] == windows[..];
    forall id: u32, i: nat ensures Lookup(windows[..], id) == Some(i) <==> IsFirst(windows[..], id, i) {
      LookupFindsFirst(windows[..], id, i);
    }
    forall i | 0 <= i < windows.Length ensures Lookup(windows[..], windows[i].windowId).Some? {
      LookupFindsFirst(windows[..], windows[i].windowId, i);
      assert windows[..][i] == windows[i];
    }
  }

  /** The chain from `start` has passed `traversed`, all different, and is at `cur`. */
  ghost predicate Traversed(ws: seq<HealWindow>, start: nat, traversed: seq<nat>, cur: nat)
    requires start < |ws|
  {
    && cur < |ws| && Walk(ws, start, |traversed|) == Some(cur) && Distinct(traversed)
    && forall k :: 0 <= k < |traversed| ==> Walk(ws, start, k) == Some(traversed[k]) && traversed[k] < |ws|
  }

  lemma CameBack(ws: seq<HealWindow>, start: nat, traversed: seq<nat>, cur: nat)
    requires start < |ws| && Traversed(ws, start, traversed, cur) && cur in traversed
    ensures Endless(ws, start)
  {
    var j :| 0 <= j < |traversed| && traversed[j] == cur;
    RevisitedEndless(ws, start, j, |traversed|);
  }

  lemma GoesOn(ws: seq<HealWindow>, start: nat, traversed: seq<nat>, cur: nat)
    requires start < |ws| && Traversed(ws, start, traversed, cur)
    ensures Next(ws, cur) == None ==> !Endless(ws, start)
    ensures cur !in traversed ==> |traversed| < |ws|
    ensures cur !in traversed && Next(ws, cur).Some? ==> Traversed(ws, start, traversed + [cur], Next(ws, cur).value)
  {
    assert Walk(ws, start, |traversed| + 1) == Next(ws, cur);
    hide Lookup, Next, Endless;
    if cur !in traversed {
      assert Distinct(traversed + [cur]);
      Pigeonhole(traversed + [cur], |ws|);
    }
    if Next(ws, cur) == None {
      EndingChain(ws, start, |traversed| + 1);
    }
  }

  /** Terminates after at most one step more than there are windows, and changes at most the start window's anchor: it is
      cleared exactly if the chain from there does not end. */
  method FindAndResolveCyclicDependencies(windows: array<HealWindow>, start: nat) returns (ghost steps: nat)
    requires start < windows.Length
    modifies windows
    ensures windows[..] == Resolved(old(windows[..]), start)
    ensures steps <= windows.Length + 1
  {
    ghost var ws := windows[..];
    var index := IndexById(windows);
    var traversed: seq<nat> := [];
    var cur: nat := start;
    steps := 0;
    assert Traversed(ws, start, traversed, cur);
    hide Traversed, Endless, Lookup;
    while windows[cur].anchorWindowId != 0
      invariant cur < windows.Length && windows[..] == ws && steps == |traversed| <= windows.Length
      invariant Traversed(ws, start, traversed, cur)
      decreases windows.Length - |traversed|
    {
      steps := steps + 1;
      if cur in traversed {
        CameBack(ws, start, traversed, cur);
        windows[start] := windows[start].(anchorWindowId := 0);
        return;
      }
      GoesOn(ws, start, traversed, cur);
      traversed := traversed + [cur];
      if windows[cur].anchorWindowId !in index {
        return;
      }
      cur := index[windows[cur].anchorWindowId];
    }
    GoesOn(ws, start, traversed, cur);
  }
}
