// A captured tree as a restore point: what it holds, and what restoring it does.
module Undo {
  import opened Wrappers
  import opened Keys
  import opened FractionalIndex
  import opened Positions
  import opened BookmarkForest
  import opened Planner
  import opened Snapshot
  import opened Restore

  ghost function UnmanagedIds(f: Forest): set<Id>
  {
    set x | x in f && !f[x].managed
  }

  /** A capture says what the forest says, save perhaps for positions. */
  ghost predicate SaysTheSame(n: PointNode, f: Forest)
  {
    && n.o in f && !f[n.o].managed
    && f[n.o] == Node(n.k, n.t, n.u, n.p, f[n.o].position, false)
  }

  lemma ListingSource(live: seq<LiveNode>, f: Forest)
    requires WellFormed(f) && Lists(live, f)
    ensures TreeSource(live, []) && SourceForest(live, []) == f
  {
    ListingIsForest(live, f);
  }

  lemma CapturedFrom(live: seq<LiveNode>, f: Forest, out: seq<PointNode>, positions: map<Id, seq<Key>>, n: PointNode)
      returns (j: nat)
    requires WellFormed(f) && Lists(live, f) && Captures(KidsOf(live, []), out, positions)
    requires n in out
    ensures SaysTheSame(n, f) && n.x != []
    ensures n.p in positions && Normalized(PositionsOf(Kids(live, [], n.p)), positions[n.p])
    ensures j < |positions[n.p]| == |Kids(live, [], n.p)|
    ensures n == NodeFor(Kids(live, [], n.p)[j], positions[n.p][j]) && In(Kids(live, [], n.p)[j], f)
  {
    ListingSource(live, f);
    var kids := KidsOf(live, []);
    assert kids(n.p) == Kids(live, [], n.p);
    assert FromFolder(kids(n.p), positions[n.p], |kids(n.p)|, n);
    assert Opened(kids(n.p), positions[n.p], |kids(n.p)|, out);
    j :| 0 <= j < |kids(n.p)| && n == NodeFor(kids(n.p)[j], positions[n.p][j]);
    KidsAt(live, [], n.p);
    assert kids(n.p)[j] in Kids(live, [], n.p);
    NormalizedIncreases(PositionsOf(kids(n.p)), positions[n.p]);
    assert positions[n.p][j] in positions[n.p];
  }

  lemma OpenedOut(kids: seq<LiveNode>, keys: seq<Key>, out: seq<PointNode>, j: nat)
    requires Opened(kids, keys, |kids|, out) && j < |kids|
    ensures kids[j].objectId in PointIds(out)
  {
    assert NodeFor(kids[j], keys[j]) in out;
  }

  lemma {:induction false} CaptureReaches(live: seq<LiveNode>, f: Forest, out: seq<PointNode>,
      positions: map<Id, seq<Key>>, x: Id, k: nat)
    requires WellFormed(f) && Lists(live, f) && Captures(KidsOf(live, []), out, positions)
    requires x in f && !f[x].managed && GroundedIn(f, x, k)
    ensures x in PointIds(out)
    decreases k
  {
    var p, kids := f[x].parent, KidsOf(live, []);
    ListingSource(live, f);
    hide Opened, FromFolder, Lists, ParentsEarlier;
    assert p in positions by {
      if !IsRoot(p) {
        CaptureReaches(live, f, out, positions, p, k - 1);
        var n :| n in out && n.o == p;
        var _ := CapturedFrom(live, f, out, positions, n);
      }
    }
    KidsAt(live, [], p);
    var e := LiveNode(x, f[x]);
    assert In(e, f) && e in kids(p);
    var j :| 0 <= j < |kids(p)| && kids(p)[j] == e;
    OpenedOut(kids(p), positions[p], out, j);
  }

  /** A capture of a well-formed tree holds exactly its unmanaged nodes, says
      what the tree says, and passes the checks made on restore points. */
  lemma CaptureIsFaithful(live: seq<LiveNode>, f: Forest, out: seq<PointNode>, positions: map<Id, seq<Key>>)
    requires WellFormed(f) && Lists(live, f) && Captures(KidsOf(live, []), out, positions)
    ensures PointIds(out) == UnmanagedIds(f)
    ensures forall n :: n in out ==> SaysTheSame(n, f)
    ensures Compatible(out, f)
  {
    hide TreeSource, SourceForest, Opened, FromFolder, Lists, ParentsEarlier;
    assert ParentsEarlier(out);
    forall n | n in out ensures SaysTheSame(n, f) && n.x != [] && (n.u.Some? <==> n.k.Bookmark?) {
      var _ := CapturedFrom(live, f, out, positions, n);
    }
    forall x ensures x in PointIds(out) <==> x in UnmanagedIds(f) {
      if x in UnmanagedIds(f) {
        var k: nat :| GroundedIn(f, x, k);
        CaptureReaches(live, f, out, positions, x, k);
      }
    }
    forall i | 0 <= i < |out| ensures out[i].x != [] && (out[i].u.Some? <==> out[i].k.Bookmark?) {
      assert out[i] in out;
    }
    CaptureIsValid(out);
    forall i, j | 0 <= i < |out| && 0 <= j < |out| && out[i].p == out[j].o ensures out[j].k.Folder? {
      assert out[i] in out && out[j] in out;
    }
  }

  lemma CaptureIsValid(out: seq<PointNode>)
    requires ParentsEarlier(out)
    requires forall i :: 0 <= i < |out| ==> out[i].x != [] && (out[i].u.Some? <==> out[i].k.Bookmark?)
    ensures ValidNodes(out)
  {
  }

  /** Sibling positions recorded for every node, in the browser's order. */
  ghost predicate SiblingsInOrder(live: seq<LiveNode>)
  {
    forall p :: AlreadyIncreasing(PositionsOf(Kids(live, [], p)))
  }

  lemma CaptureKeepsPosition(live: seq<LiveNode>, f: Forest, out: seq<PointNode>, positions: map<Id, seq<Key>>,
      n: PointNode)
    requires WellFormed(f) && Lists(live, f) && Captures(KidsOf(live, []), out, positions)
    requires SiblingsInOrder(live) && n in out
    ensures n.o in f && f[n.o] == Node(n.k, n.t, n.u, n.p, Some(n.x), false)
  {
    var j := CapturedFrom(live, f, out, positions, n);
    var own := PositionsOf(Kids(live, [], n.p));
    NormalizedKeeps(own, positions[n.p], j);
    assert own[j] == Kids(live, [], n.p)[j].node.position == f[n.o].position;
  }

  /** What planning a capture over its own tree asks of each node. */
  lemma CapturedNodeNeedsLittle(n: PointNode, f: Forest, c: Cover)
    requires SaysTheSame(n, f) && n.o in c.covered
    ensures OpsFor(Restoring, n, f, c) == [] && OpsFor(Updating, n, f, c) == []
    ensures OpsFor(Moving, n, f, c) == if f[n.o].position == Some(n.x) then [] else [Move(n.o, n.k, n.p, n.x)]
  {
  }

  /** Planning a just-captured tree against itself finds nothing to restore, edit
      or delete, and moves only what had its position normalized. */
  lemma CaptureMatchesItself(live: seq<LiveNode>, f: Forest, out: seq<PointNode>, positions: map<Id, seq<Key>>,
      mode: Mode)
    requires WellFormed(f) && Lists(live, f) && Captures(KidsOf(live, []), out, positions)
    ensures PlanFor(out, live, mode, All).restores == []
    ensures PlanFor(out, live, mode, All).updates == []
    ensures PlanFor(out, live, mode, All).deletes == []
    ensures forall op :: op in PlanFor(out, live, mode, All).moves ==>
      op.Move? && op.id in f && f[op.id].position != Some(op.position)
    ensures SiblingsInOrder(live) ==> PlanFor(out, live, mode, All).moves == []
  {
    CaptureIsFaithful(live, f, out, positions);
    ListingIsForest(live, f);
    var c := Everything(out);
    forall i | 0 <= i < |out|
      ensures out[i].o in f && OpsFor(Restoring, out[i], f, c) == [] && OpsFor(Updating, out[i], f, c) == []
      ensures OpsFor(Moving, out[i], f, c) == if f[out[i].o].position == Some(out[i].x) then []
        else [Move(out[i].o, out[i].k, out[i].p, out[i].x)]
    {
      assert out[i] in out;
      CapturedNodeNeedsLittle(out[i], f, c);
    }
    PhaseEmpty(Restoring, out, f, c);
    PhaseEmpty(Updating, out, f, c);
    MovesOnlyMoved(out, f, c);
    if mode.Exact? {
      forall x ensures x !in Unwanted(out, live, All) {
        if x in f { assert x in PointIds(out) <==> x in UnmanagedIds(f); }
      }
      NothingUnwanted(live, Unwanted(out, live, All));
    }
    if SiblingsInOrder(live) {
      forall i | 0 <= i < |out| ensures OpsFor(Moving, out[i], f, c) == [] {
        CaptureKeepsPosition(live, f, out, positions, out[i]);
      }
      PhaseEmpty(Moving, out, f, c);
    }
  }

  lemma {:induction false} MovesOnlyMoved(out: seq<PointNode>, f: Forest, c: Cover)
    requires forall i :: 0 <= i < |out| ==> out[i].o in f
    requires forall i :: 0 <= i < |out| ==>
      OpsFor(Moving, out[i], f, c) == (if f[out[i].o].position == Some(out[i].x) then []
        else [Move(out[i].o, out[i].k, out[i].p, out[i].x)])
    ensures forall op :: op in PhaseOps(Moving, out, f, c) ==>
      op.Move? && op.id in f && f[op.id].position != Some(op.position)
  {
    if out == [] {
      PhaseEmpty(Moving, out, f, c);
    } else {
      var n := |out| - 1;
      MovesOnlyMoved(out[..n], f, c);
      PhaseExtend(Moving, out, n, f, c);
      assert out[..n + 1] == out;
    }
  }

  lemma {:induction false} NothingUnwanted(live: seq<LiveNode>, unwanted: set<Id>)
    requires unwanted == {}
    ensures DeletesFrom(live, unwanted) == []
  {
    if live != [] { NothingUnwanted(live[..|live| - 1], unwanted); }
  }

  /** The URLs a restore would write can be written. */
  ghost predicate AllSyncable(f: Forest)
  {
    forall x :: x in f && !f[x].managed && f[x].kind.Bookmark? ==> IsSyncableUrl(f[x].url)
  }

  /** A restore can be undone: capture the tree, restore any other point exactly,
      then restore the capture exactly, and the tree is what it was. */
  lemma RestoreIsUndone(live: seq<LiveNode>, f: Forest, capture: seq<PointNode>, positions: map<Id, seq<Key>>,
                        point: seq<PointNode>, live': seq<LiveNode>, f': Forest)
    requires Compatible(point, f) && Lists(live, f) && AllSyncable(f)
    requires SiblingsInOrder(live) && Captures(KidsOf(live, []), capture, positions)
    requires f' == Target(point, f, Exact) && Lists(live', f')
    ensures CanApplyAll(f, PlanFor(point, live, Exact, All).Operations())
    ensures ApplyAll(f, PlanFor(point, live, Exact, All).Operations()) == f'
    ensures CanApplyAll(f', PlanFor(capture, live', Exact, All).Operations())
    ensures ApplyAll(f', PlanFor(capture, live', Exact, All).Operations()) == f
  {
    RestoreReachesThePoint(point, live, f, Exact);
    CaptureIsFaithful(live, f, capture, positions);
    forall n | n in capture ensures n.o in f && f[n.o] == Node(n.k, n.t, n.u, n.p, Some(n.x), false) {
      CaptureKeepsPosition(live, f, capture, positions, n);
    }
    CompatibleAfter(capture, f, point);
    RestoreReachesThePoint(capture, live', f', Exact);
    CaptureTarget(capture, f, point);
  }

  lemma CompatibleAfter(capture: seq<PointNode>, f: Forest, point: seq<PointNode>)
    requires Compatible(capture, f) && Compatible(point, f) && WellFormed(Target(point, f, Exact))
    requires forall n :: n in capture ==> n.o in f && !f[n.o].managed && f[n.o].parent == n.p
    ensures Compatible(capture, Target(point, f, Exact))
  {
    var g := Target(point, f, Exact);
    forall n | n in capture && n.o in g ensures g[n.o].kind == n.k {
      if n.o in PointIds(point) { var i := NodeOf(point, n.o); assert point[i] in point; }
    }
    forall n | n in capture ensures !(n.p in g && g[n.p].managed) {
      if n.p in g && n.p in PointIds(point) { var i := NodeOf(point, n.p); }
    }
  }

  lemma CaptureTarget(capture: seq<PointNode>, f: Forest, point: seq<PointNode>)
    requires Compatible(capture, f) && Compatible(point, f) && AllSyncable(f)
    requires PointIds(capture) == UnmanagedIds(f)
    requires forall n :: n in capture ==> n.o in f && f[n.o] == Node(n.k, n.t, n.u, n.p, Some(n.x), false)
    ensures Target(capture, Target(point, f, Exact), Exact) == f
  {
    assert ValidNodes(capture);
    hide Compatible, AllSyncable, Stays, Restored, UnmanagedIds, WellFormed, ValidNodes, Target;
    var g := Target(point, f, Exact);
    forall x ensures EndsAs(capture, g, x, f) { BackAgain(capture, f, point, x); }
    TargetKeys(capture, g, f);
    TargetNodes(capture, g, f);
  }

  /** At `x` an exact restore of `nodes` over `g` ends with what `f` has there. */
  ghost predicate EndsAs(nodes: seq<PointNode>, g: Forest, x: Id, f: Forest)
  {
    && ((x in PointForest(nodes) || x in g) && Stays(nodes, g, Exact, x) <==> x in f)
    && (x in f ==> (x in PointForest(nodes) || x in g) && Restored(nodes, g, x) == f[x])
  }

  lemma TargetKeys(nodes: seq<PointNode>, g: Forest, f: Forest)
    requires forall x :: EndsAs(nodes, g, x, f)
    ensures Target(nodes, g, Exact).Keys == f.Keys
  {
    hide Stays, Restored;
    forall x ensures x in Target(nodes, g, Exact) <==> x in f { assert EndsAs(nodes, g, x, f); }
  }

  lemma TargetNodes(nodes: seq<PointNode>, g: Forest, f: Forest)
    requires forall x :: EndsAs(nodes, g, x, f)
    requires Target(nodes, g, Exact).Keys == f.Keys
    ensures Target(nodes, g, Exact) == f
  {
    hide Stays, Restored;
    forall x | x in f ensures Target(nodes, g, Exact)[x] == f[x] { assert EndsAs(nodes, g, x, f); }
  }

  lemma BackAgain(capture: seq<PointNode>, f: Forest, point: seq<PointNode>, x: Id)
    requires ValidNodes(capture) && Compatible(point, f) && AllSyncable(f)
    requires PointIds(capture) == UnmanagedIds(f)
    requires forall n :: n in capture ==> n.o in f && f[n.o] == Node(n.k, n.t, n.u, n.p, Some(n.x), false)
    ensures EndsAs(capture, Target(point, f, Exact), x, f)
  {
    hide Compatible, AllSyncable, Stays, Restored, Target, ValidNodes;
    if x in UnmanagedIds(f) {
      var i := NodeOf(capture, x);
      assert capture[i] in capture;
      CapturedComesBack(capture, f, point, x);
    } else {
      OthersStay(capture, f, point, x);
    }
  }

  lemma CapturedComesBack(capture: seq<PointNode>, f: Forest, point: seq<PointNode>, x: Id)
    requires Compatible(point, f) && AllSyncable(f) && x in f && !f[x].managed
    requires x in PointIds(capture) && PointForest(capture)[x] == f[x]
    ensures var g := Target(point, f, Exact); Stays(capture, g, Exact, x) && Restored(capture, g, x) == f[x]
  {
    if x in PointIds(point) { var j := NodeOf(point, x); }
  }

  lemma OthersStay(capture: seq<PointNode>, f: Forest, point: seq<PointNode>, x: Id)
    requires Compatible(point, f) && x !in UnmanagedIds(f) && x !in PointIds(capture)
    ensures var g := Target(point, f, Exact);
      (Stays(capture, g, Exact, x) <==> x in f) && (x in f ==> x in g && Restored(capture, g, x) == f[x])
  {
    if x in PointIds(point) { var j := NodeOf(point, x); }
  }
}
