// An exact restore of one folder also deletes, and what it deletes may hold nodes
// that the point keeps outside the folder. This is exactly when the restore gets to
// its end and exactly what it loses.
module FolderDeletes {
  import opened Wrappers
  import opened Keys
  import opened BookmarkForest
  import opened Descent
  import opened Planner
  import opened Restore
  import opened PartialScope

  // --- What goes with a deleted folder ---

  /** The restore puts this node in its place. */
  ghost predicate PutInPlace(f: Forest, c: Cover, x: Id)
  {
    x in c.covered && x in f && !f[x].managed
  }

  /** `x` is inside `d` now, and nothing on the way up is put in its place. */
  ghost predicate GoesWithIn(f: Forest, c: Cover, x: Id, d: Id, n: nat)
    decreases n
  {
    x == d || (n > 0 && x in f && !PutInPlace(f, c, x) && GoesWithIn(f, c, f[x].parent, d, n - 1))
  }

  ghost predicate GoesWith(f: Forest, c: Cover, x: Id, d: Id)
  {
    exists n: nat :: GoesWithIn(f, c, x, d, n)
  }

  ghost predicate Lost(f: Forest, c: Cover, ds: seq<Op>, x: Id)
  {
    exists k :: 0 <= k < |ds| && GoesWith(f, c, x, ds[k].id)
  }

  // --- Carrying out a plan ---

  /** Deleting a node that is gone is no error: it has lost its browser node with
      the folder it was in, and is passed over. */
  ghost predicate CanPerform(f: Forest, op: Op)
  {
    (op.Delete? && op.id !in f) || CanApply(f, op)
  }

  ghost function Perform(f: Forest, op: Op): Forest
    requires CanPerform(f, op)
  {
    if op.Delete? && op.id !in f then f else Apply(f, op)
  }

  ghost predicate CanPerformAll(f: Forest, ops: seq<Op>)
    decreases |ops|
  {
    ops != [] ==> CanPerform(f, ops[0]) && CanPerformAll(Perform(f, ops[0]), ops[1..])
  }

  ghost function PerformAll(f: Forest, ops: seq<Op>): Forest
    requires CanPerformAll(f, ops)
    decreases |ops|
  {
    if ops == [] then f else PerformAll(Perform(f, ops[0]), ops[1..])
  }

  /** What can be applied without passing anything over is performed as it is. */
  lemma {:induction false} PerformedAsApplied(f: Forest, first: seq<Op>, rest: seq<Op>)
    requires forall op :: op in first ==> !op.Delete?
    ensures CanPerformAll(f, first + rest) <==> CanApplyAll(f, first) && CanPerformAll(ApplyAll(f, first), rest)
    ensures CanPerformAll(f, first + rest) ==> PerformAll(f, first + rest) == PerformAll(ApplyAll(f, first), rest)
    decreases |first|
  {
    if first == [] {
      assert first + rest == rest;
    } else {
      assert (first + rest)[1..] == first[1..] + rest && first[0] in first;
      if CanApply(f, first[0]) { PerformedAsApplied(Apply(f, first[0]), first[1..], rest); }
    }
  }

  // --- Deleting one after another ---

  ghost predicate Deletions(f: Forest, ds: seq<Op>)
  {
    forall k :: 0 <= k < |ds| ==> ds[k].Delete? && (ds[k].id in f ==> !f[ds[k].id].managed)
  }

  /** `x` is inside one of the deleted nodes. */
  ghost predicate Gone(f: Forest, ds: seq<Op>, x: Id)
  {
    exists k :: 0 <= k < |ds| && ds[k].id in f && Under(f, x, ds[k].id)
  }

  lemma DeletePossible(f: Forest, op: Op)
    requires WellFormed(f) && op.Delete? && op.id in f && !f[op.id].managed
    ensures CanApply(f, op)
  {
    forall x | x in f && Under(f, x, op.id) ensures !f[x].managed {
      var n: nat :| UnderIn(f, x, op.id, n);
      if f[x].managed { ManagedAbove(f, x, op.id, n); }
    }
  }

  lemma {:induction false} UpAmongTheRest(f: Forest, d: Id, x: Id, e: Id, n: nat)
    requires WellFormed(f) && d in f && CanApply(f, Delete(d, f[d].kind))
    requires (IsRoot(x) || x in Apply(f, Delete(d, f[d].kind)))
    ensures UnderIn(f, x, e, n) <==> UnderIn(Apply(f, Delete(d, f[d].kind)), x, e, n)
    decreases n
  {
    var g := Apply(f, Delete(d, f[d].kind));
    if x != e && n > 0 && x in f {
      var p := f[x].parent;
      if p in f && Under(f, p, d) { UnderStep(f, x, d); }
      UpAmongTheRest(f, d, p, e, n - 1);
    }
  }

  lemma UnderAmongTheRest(f: Forest, op: Op, x: Id, e: Id)
    requires WellFormed(f) && op.Delete? && op.id in f && CanApply(f, op) && x in Apply(f, op)
    ensures Under(f, x, e) <==> Under(Apply(f, op), x, e)
  {
    var g := Apply(f, op);
    assert g == Apply(f, Delete(op.id, f[op.id].kind));
    if Under(f, x, e) {
      var n: nat :| UnderIn(f, x, e, n);
      UpAmongTheRest(f, op.id, x, e, n);
    }
    if Under(g, x, e) {
      var n: nat :| UnderIn(g, x, e, n);
      UpAmongTheRest(f, op.id, x, e, n);
    }
  }

  /** A node inside one that has gone with an earlier deletion has gone too. */
  lemma GoneAmongTheRest(f: Forest, op: Op, rest: seq<Op>, x: Id)
    requires WellFormed(f) && op.Delete? && op.id in f && CanApply(f, op) && x in Apply(f, op)
    requires forall k :: 0 <= k < |rest| ==> rest[k].Delete?
    ensures Gone(f, rest, x) <==> Gone(Apply(f, op), rest, x)
  {
    var g := Apply(f, op);
    forall k | 0 <= k < |rest|
      ensures rest[k].id in f && Under(f, x, rest[k].id) <==> rest[k].id in g && Under(g, x, rest[k].id)
    {
      UnderAmongTheRest(f, op, x, rest[k].id);
      if rest[k].id in f && rest[k].id !in g && Under(f, x, rest[k].id) {
        var n: nat :| UnderIn(f, x, rest[k].id, n);
        UnderTransitive(f, x, rest[k].id, op.id, n);
      }
    }
  }

  lemma GoneStep(f: Forest, ds: seq<Op>)
    requires ds != []
    ensures forall x :: Gone(f, ds, x) <==> (ds[0].id in f && Under(f, x, ds[0].id)) || Gone(f, ds[1..], x)
  {
    forall x | Gone(f, ds[1..], x) ensures Gone(f, ds, x) {
      var k :| 0 <= k < |ds[1..]| && ds[1..][k].id in f && Under(f, x, ds[1..][k].id);
      assert ds[k + 1] == ds[1..][k];
    }
    forall x | Gone(f, ds, x) && !(ds[0].id in f && Under(f, x, ds[0].id)) ensures Gone(f, ds[1..], x) {
      var k :| 0 <= k < |ds| && ds[k].id in f && Under(f, x, ds[k].id);
      assert ds[1..][k - 1] == ds[k];
    }
  }

  /** A run of deletions always gets to its end, and what was inside one of the
      deleted nodes is gone, whichever of them were inside one another. */
  lemma {:induction false} DeletionsRemove(f: Forest, ds: seq<Op>)
    requires WellFormed(f) && Deletions(f, ds)
    ensures CanPerformAll(f, ds)
    ensures forall x :: x in PerformAll(f, ds) <==> x in f && !Gone(f, ds, x)
    ensures forall x :: x in PerformAll(f, ds) ==> PerformAll(f, ds)[x] == f[x]
    decreases |ds|
  {
    if ds != [] {
      GoneStep(f, ds);
      if ds[0].id in f {
        DeletePossible(f, ds[0]);
        DeleteKeeps(f, ds[0]);
        var g := Apply(f, ds[0]);
        assert Deletions(g, ds[1..]);
        DeletionsRemove(g, ds[1..]);
        hide WellFormed, Under, CanApply, Gone;
        forall x | x in g ensures Gone(g, ds[1..], x) <==> Gone(f, ds[1..], x) {
          GoneAmongTheRest(f, ds[0], ds[1..], x);
        }
      } else {
        DeletionsRemove(f, ds[1..]);
      }
    }
  }

  // --- What the edits before them leave alone ---

  /** `x` is inside something the restore puts in place. */
  ghost predicate InsideCover(f: Forest, c: Cover, x: Id)
  {
    exists s :: Holds(f, c, x, s)
  }

  ghost predicate SameWay(f: Forest, g: Forest, c: Cover, x: Id, d: Id)
  {
    && (GoesWith(f, c, x, d) <==> GoesWith(g, c, x, d))
    && (InsideCover(f, c, d) ==> InsideCover(g, c, d))
  }

  /** From `f` to `g` by edits to nodes of the point. */
  ghost predicate Led(nodes: seq<PointNode>, f: Forest, g: Forest, c: Cover)
  {
    && (forall x :: x in f ==> x in g && g[x].managed == f[x].managed)
    && (forall x :: x !in PointIds(nodes) ==> SameAt(f, g, x))
    && (forall x, d :: x in f && d in f && d !in PointIds(nodes) ==> SameWay(f, g, c, x, d))
  }

  /** A step of the edits: a node of the point is made, or its place changes and
      it is one that the restore puts in place. */
  ghost predicate Edited(nodes: seq<PointNode>, f: Forest, g: Forest, c: Cover, id: Id)
  {
    && id in PointIds(nodes) && !IsRoot(id)
    && (forall x :: x != id ==> SameAt(f, g, x))
    && id in g && (id in f ==> PutInPlace(f, c, id) && g[id].managed == f[id].managed)
  }

  lemma {:induction false} SameWayUp(nodes: seq<PointNode>, f: Forest, g: Forest, c: Cover, id: Id, x: Id, d: Id,
      n: nat)
    requires WellFormed(f) && Edited(nodes, f, g, c, id) && (x in f || IsRoot(x)) && d in f && d !in PointIds(nodes)
    ensures GoesWithIn(f, c, x, d, n) <==> GoesWithIn(g, c, x, d, n)
    decreases n
  {
    assert SameAt(f, g, x) || x == id;
    if x != d && n > 0 && x in f && !PutInPlace(f, c, x) { SameWayUp(nodes, f, g, c, id, f[x].parent, d, n - 1); }
  }

  lemma EditKeepsWays(nodes: seq<PointNode>, f: Forest, g: Forest, c: Cover, id: Id, x: Id, d: Id)
    requires WellFormed(f) && Edited(nodes, f, g, c, id) && x in f && d in f && d !in PointIds(nodes)
    ensures SameWay(f, g, c, x, d)
  {
    if GoesWith(f, c, x, d) {
      var n: nat :| GoesWithIn(f, c, x, d, n);
      SameWayUp(nodes, f, g, c, id, x, d, n);
    }
    if GoesWith(g, c, x, d) {
      var n: nat :| GoesWithIn(g, c, x, d, n);
      SameWayUp(nodes, f, g, c, id, x, d, n);
    }
    if InsideCover(f, c, d) {
      var s :| Holds(f, c, d, s);
      InsideStays(nodes, f, g, c, id, d, s);
    }
  }

  lemma InsideStays(nodes: seq<PointNode>, f: Forest, g: Forest, c: Cover, id: Id, d: Id, s: Id)
    requires Edited(nodes, f, g, c, id) && Holds(f, c, d, s)
    ensures InsideCover(g, c, d)
  {
    forall y | y in f ensures y in g && g[y].managed == f[y].managed && (y != id ==> g[y] == f[y]) {
      assert y == id || SameAt(f, g, y);
    }
    var n: nat :| UnderIn(f, d, s, n);
    if id in f {
      UpStaysOrMeets(f, g, d, s, id, n);
      assert Holds(g, c, d, s) || Holds(g, c, d, id);
    } else {
      UpStays(f, g, d, s, n);
      assert Holds(g, c, d, s);
    }
  }

  lemma StepLeads(ph: Phase, nodes: seq<PointNode>, f: Forest, c: Cover, k: nat, op: Op)
    requires Compatible(nodes, f) && k < |nodes| && OpsFor(ph, nodes[k], f, c) == [op] && CanApply(f, op)
    ensures Led(nodes, f, Apply(f, op), c)
  {
    var g, id := Apply(f, op), nodes[k].o;
    assert nodes[k] in nodes;
    assert Edited(nodes, f, g, c, id);
    assert WellFormed(f);
    hide Compatible, WellFormed, CanApply, OpsFor, SameWay;
    forall x, d | x in f && d in f && d !in PointIds(nodes) ensures SameWay(f, g, c, x, d) {
      EditKeepsWays(nodes, f, g, c, id, x, d);
    }
    forall x | x in f ensures x in g && g[x].managed == f[x].managed { assert x == id || SameAt(f, g, x); }
  }

  lemma LedOn(nodes: seq<PointNode>, f: Forest, g: Forest, h: Forest, c: Cover)
    requires Led(nodes, f, g, c) && Led(nodes, g, h, c)
    ensures Led(nodes, f, h, c)
  {
    forall x | x !in PointIds(nodes) ensures SameAt(f, h, x) { assert SameAt(f, g, x) && SameAt(g, h, x); }
    forall x, d | x in f && d in f && d !in PointIds(nodes) ensures SameWay(f, h, c, x, d) {
      assert SameWay(f, g, c, x, d) && SameWay(g, h, c, x, d);
    }
  }

  /** All the edits: they end with the folder as the point has it, and lead there
      without touching what is not the point's. */
  lemma {:induction false} EditsLead(nodes: seq<PointNode>, f: Forest, i: nat, c: Cover)
    requires Compatible(nodes, f) && Covers(nodes, i, c) && CanApplyAll(f, PartEdits(nodes, f, c))
    ensures var g := ApplyAll(f, PartEdits(nodes, f, c));
            Compatible(nodes, g) && PartEdits(nodes, g, c) == [] && Led(nodes, f, g, c)
    decreases |PartEdits(nodes, f, c)|
  {
    var edits := PartEdits(nodes, f, c);
    if edits != [] {
      var ph, k := FirstOf(nodes, f, c);
      hide Compatible, Covers, Trapped, PartEdits, CanApply, Led, OpsFor;
      var op := OpsFor(ph, nodes[k], f, c)[0];
      PartStep(ph, nodes, f, i, c, k, op);
      var g := Apply(f, op);
      StepLeads(ph, nodes, f, c, k, op);
      assert edits[1..] == PartEdits(nodes, g, c);
      EditsLead(nodes, g, i, c);
      LedOn(nodes, f, g, ApplyAll(g, PartEdits(nodes, g, c)), c);
    }
  }

  // --- Once everything covered is in place ---

  lemma {:induction false} UnderTransitive(f: Forest, x: Id, d: Id, s: Id, n: nat)
    requires UnderIn(f, x, d, n) && Under(f, d, s)
    ensures Under(f, x, s)
    decreases n
  {
    if x != d {
      UnderTransitive(f, f[x].parent, d, s, n - 1);
      UnderStep(f, x, s);
    }
  }

  /** Where the folder hangs is not inside what is inside it. */
  lemma FolderHangsFree(nodes: seq<PointNode>, g: Forest, i: nat, c: Cover, d: Id)
    requires Compatible(nodes, g) && Covers(nodes, i, c) && PartEdits(nodes, g, c) == [] && InsideCover(g, c, d)
    ensures !Under(g, nodes[i].p, d)
  {
    PhaseEmpty(Restoring, nodes, g, c);
    PhaseEmpty(Moving, nodes, g, c);
    assert i < |nodes|;
    var s :| Holds(g, c, d, s);
    hide Compatible, Covers, PartEdits, OpsFor;
    DoneMeansFreeOf(nodes, g, i, c, s);
    if Under(g, nodes[i].p, d) {
      var n: nat :| UnderIn(g, nodes[i].p, d, n);
      UnderTransitive(g, nodes[i].p, d, s, n);
    }
  }

  lemma PlacedParent(nodes: seq<PointNode>, g: Forest, i: nat, c: Cover, j: nat) returns (k: nat)
    requires Compatible(nodes, g) && Covers(nodes, i, c) && PartEdits(nodes, g, c) == []
    requires j < |nodes| && PutInPlace(g, c, nodes[j].o)
    ensures g[nodes[j].o].parent == nodes[j].p
    ensures j != i ==> k < j && nodes[k].o == nodes[j].p && PutInPlace(g, c, nodes[k].o)
  {
    PhaseEmpty(Moving, nodes, g, c);
    StandsThere(nodes, g, c, j);
    k := 0;
    if j != i {
      k :| 0 <= k < |nodes| && nodes[k].o == nodes[j].p;
      CoveredParentEarlier(nodes, j, k);
      assert WellFormed(g);
    }
  }

  /** A node of the folder in its place is inside nothing that is inside the
      folder and not the point's. */
  lemma {:induction false} PlacedIsFree(nodes: seq<PointNode>, g: Forest, i: nat, c: Cover, j: nat, d: Id)
    requires Compatible(nodes, g) && Covers(nodes, i, c) && PartEdits(nodes, g, c) == []
    requires j < |nodes| && PutInPlace(g, c, nodes[j].o)
    requires d in g && d !in PointIds(nodes) && InsideCover(g, c, d)
    ensures !Under(g, nodes[j].o, d)
    decreases j
  {
    assert nodes[j] in nodes && nodes[j].o != d;
    hide Compatible, Covers, PartEdits, InsideCover;
    var k := PlacedParent(nodes, g, i, c, j);
    if Under(g, nodes[j].o, d) {
      UnderParent(g, nodes[j].o, d);
      if j == i { FolderHangsFree(nodes, g, i, c, d); } else { PlacedIsFree(nodes, g, i, c, k, d); }
    }
  }

  lemma {:induction false} GoingUpFreely(nodes: seq<PointNode>, g: Forest, i: nat, c: Cover, x: Id, d: Id, n: nat)
    requires Compatible(nodes, g) && Covers(nodes, i, c) && PartEdits(nodes, g, c) == []
    requires d in g && d !in PointIds(nodes) && InsideCover(g, c, d) && UnderIn(g, x, d, n)
    ensures GoesWithIn(g, c, x, d, n)
    decreases n
  {
    if x != d {
      if PutInPlace(g, c, x) {
        var j :| 0 <= j < |nodes| && nodes[j].o == x;
        PlacedIsFree(nodes, g, i, c, j, d);
      }
      GoingUpFreely(nodes, g, i, c, g[x].parent, d, n - 1);
    }
  }

  lemma {:induction false} GoingWithIsUnder(g: Forest, c: Cover, x: Id, d: Id, n: nat)
    requires GoesWithIn(g, c, x, d, n)
    ensures UnderIn(g, x, d, n)
    decreases n
  {
    if x != d { GoingWithIsUnder(g, c, g[x].parent, d, n - 1); }
  }

  /** So what a deletion takes along can be told before the restore. */
  lemma GoesWithFromTheStart(nodes: seq<PointNode>, f: Forest, g: Forest, i: nat, c: Cover, x: Id, d: Id)
    requires Compatible(nodes, g) && Covers(nodes, i, c) && PartEdits(nodes, g, c) == [] && Led(nodes, f, g, c)
    requires x in f && d in f && d !in PointIds(nodes) && InsideCover(f, c, d)
    ensures Under(g, x, d) <==> GoesWith(f, c, x, d)
  {
    assert SameWay(f, g, c, x, d);
    hide Compatible, Covers, PartEdits, Led;
    if Under(g, x, d) {
      var n: nat :| UnderIn(g, x, d, n);
      GoingUpFreely(nodes, g, i, c, x, d, n);
    }
    if GoesWith(g, c, x, d) {
      var n: nat :| GoesWithIn(g, c, x, d, n);
      GoingWithIsUnder(g, c, x, d, n);
    }
  }

  // --- The planned deletions ---

  lemma {:induction false} BelowIsUnder(live: seq<LiveNode>, f: Forest, start: Id, k: nat)
    requires Lists(live, f) && k <= |live|
    ensures forall x :: x in Below(LiveLinks(live)[..k], start).seen + Below(LiveLinks(live)[..k], start).open ==>
      Under(f, x, start)
  {
    var links := LiveLinks(live);
    UnderSelf(f, start);
    if k > 0 {
      BelowIsUnder(live, f, start, k - 1);
      assert links[..k][..k - 1] == links[..k - 1] && live[k - 1] in live;
      var l := links[k - 1];
      if l.parent in Below(links[..k - 1], start).open { UnderStep(f, l.id, start); }
    }
  }

  /** What an exact restore of a folder deletes is inside it and not the point's. */
  lemma PlannedAre(nodes: seq<PointNode>, live: seq<LiveNode>, f: Forest, i: nat)
    requires Compatible(nodes, f) && Lists(live, f) && i < |nodes|
    ensures var ds, c := PlanFor(nodes, live, Exact, Within(nodes[i].o)).deletes, CoverOf(nodes, Within(nodes[i].o));
            forall k :: 0 <= k < |ds| ==>
              ds[k].Delete? && ds[k].id in f && !f[ds[k].id].managed && ds[k].id !in PointIds(nodes)
              && InsideCover(f, c, ds[k].id)
  {
    var folder := nodes[i].o;
    var unwanted := Unwanted(nodes, live, Within(folder));
    var ds := DeletesFrom(live, unwanted);
    ListingIsForest(live, f);
    assert forall e :: e in live ==> !IsRoot(e.objectId);
    DeletesFromList(live, f, unwanted);
    hide DeletesFrom, Compatible, WellFormed, InsideCover, CoverOf;
    forall k | 0 <= k < |ds|
      ensures ds[k].Delete? && ds[k].id in f && !f[ds[k].id].managed && ds[k].id !in PointIds(nodes)
      ensures InsideCover(f, CoverOf(nodes, Within(folder)), ds[k].id)
    {
      assert ds[k].id in TopIds(live, unwanted);
      UnwantedIs(nodes, live, f, i, ds[k].id);
    }
  }

  lemma UnwantedIs(nodes: seq<PointNode>, live: seq<LiveNode>, f: Forest, i: nat, x: Id)
    requires Compatible(nodes, f) && Lists(live, f) && i < |nodes| && x in Unwanted(nodes, live, Within(nodes[i].o))
    ensures x in f && !f[x].managed && x !in PointIds(nodes) && InsideCover(f, CoverOf(nodes, Within(nodes[i].o)), x)
  {
    var folder := nodes[i].o;
    ListingIsForest(live, f);
    assert folder in f && x in Below(LiveLinks(live), folder).seen;
    BelowIsUnder(live, f, folder, |live|);
    assert LiveLinks(live)[..|live|] == LiveLinks(live);
    assert x in Below(LiveLinks(live), folder).seen + Below(LiveLinks(live), folder).open;
    hide Below;
    assert Under(f, x, folder);
    var n: nat :| UnderIn(f, x, folder, n);
    if f[folder].managed { ManagedBelow(f, x, folder, n); }
    assert Holds(f, CoverOf(nodes, Within(folder)), x, folder);
  }

  /** The part of the forest below a managed node is managed. */
  lemma {:induction false} ManagedBelow(f: Forest, x: Id, d: Id, n: nat)
    requires WellFormed(f) && x in f && d in f && f[d].managed && UnderIn(f, x, d, n)
    ensures f[x].managed
    decreases n
  {
    if x != d {
      ManagedBelow(f, f[x].parent, d, n - 1);
    }
  }

  lemma EditsDeleteNothing(nodes: seq<PointNode>, f: Forest, c: Cover)
    ensures forall op :: op in PartEdits(nodes, f, c) ==> !op.Delete?
  {
    PhaseDeletesNothing(Restoring, nodes, f, c);
    PhaseDeletesNothing(Updating, nodes, f, c);
    PhaseDeletesNothing(Moving, nodes, f, c);
  }

  lemma {:induction false} PhaseDeletesNothing(ph: Phase, nodes: seq<PointNode>, f: Forest, c: Cover)
    ensures forall op :: op in PhaseOps(ph, nodes, f, c) ==> !op.Delete?
  {
    if nodes != [] {
      var n := |nodes| - 1;
      PhaseDeletesNothing(ph, nodes[..n], f, c);
      PhaseExtend(ph, nodes, n, f, c);
      assert nodes[..n + 1] == nodes;
    }
  }

  /** A node of the point that could be restored is there, and unless a policy
      manages it, with the point's title, parent and position, and URL if that is one
      that is restored. */
  ghost predicate AsInThePoint(n: PointNode, g: Forest)
  {
    n.k.Folder? || IsSyncableUrl(n.u) ==>
      && n.o in g
      && (!g[n.o].managed ==> g[n.o] == Node(n.k, n.t, n.u, n.p, Some(n.x), false))
  }

  lemma CoveredIsInPlace(nodes: seq<PointNode>, g: Forest, i: nat, c: Cover, j: nat)
    requires Compatible(nodes, g) && Covers(nodes, i, c) && PartEdits(nodes, g, c) == []
    requires j < |nodes| && nodes[j].o in c.covered
    ensures AsInThePoint(nodes[j], g)
  {
    PhaseEmpty(Restoring, nodes, g, c);
    PhaseEmpty(Updating, nodes, g, c);
    PhaseEmpty(Moving, nodes, g, c);
    assert nodes[j] in nodes && OpsFor(Restoring, nodes[j], g, c) == [] && OpsFor(Updating, nodes[j], g, c) == []
      && OpsFor(Moving, nodes[j], g, c) == [];
  }

  /** No deletion takes along what is in its place. */
  lemma CoveredStays(nodes: seq<PointNode>, g: Forest, i: nat, c: Cover, ds: seq<Op>, j: nat)
    requires Compatible(nodes, g) && Covers(nodes, i, c) && PartEdits(nodes, g, c) == []
    requires forall k :: 0 <= k < |ds| ==>
      ds[k].Delete? && ds[k].id in g && !g[ds[k].id].managed && ds[k].id !in PointIds(nodes)
      && InsideCover(g, c, ds[k].id)
    requires j < |nodes| && nodes[j].o in c.covered && nodes[j].o in g
    ensures !Gone(g, ds, nodes[j].o)
  {
    forall k | 0 <= k < |ds| ensures !Under(g, nodes[j].o, ds[k].id) {
      if g[nodes[j].o].managed {
        if Under(g, nodes[j].o, ds[k].id) {
          var n: nat :| UnderIn(g, nodes[j].o, ds[k].id, n);
          ManagedAbove(g, nodes[j].o, ds[k].id, n);
        }
      } else {
        PlacedIsFree(nodes, g, i, c, j, ds[k].id);
      }
    }
  }

  /** An exact restore of one folder gets to its end if and only if the folder is
      not trapped. Then the folder is as the point has it, and what is lost is
      exactly what goes with a deleted node, be it a node the point keeps outside
      the folder. */
  lemma ExactRestoreOfAFolder(nodes: seq<PointNode>, live: seq<LiveNode>, f: Forest, i: nat)
    requires Compatible(nodes, f) && Lists(live, f) && i < |nodes|
    ensures var c, plan := CoverOf(nodes, Within(nodes[i].o)), PlanFor(nodes, live, Exact, Within(nodes[i].o));
            && (CanPerformAll(f, plan.Operations()) <==> !Trapped(nodes, i, f, c))
            && (CanPerformAll(f, plan.Operations()) ==> forall x :: x in f ==>
              (x in PerformAll(f, plan.Operations()) <==> !Lost(f, c, plan.deletes, x)))
            && (CanPerformAll(f, plan.Operations()) ==> forall j :: 0 <= j < |nodes| && nodes[j].o in c.covered ==>
              AsInThePoint(nodes[j], PerformAll(f, plan.Operations())))
  {
    var c, plan := CoverOf(nodes, Within(nodes[i].o)), PlanFor(nodes, live, Exact, Within(nodes[i].o));
    var edits, ds := PartEdits(nodes, f, c), plan.deletes;
    ListingIsForest(live, f);
    ScopeCovers(nodes, i);
    EditsApplyIff(nodes, f, i, c);
    PlannedAre(nodes, live, f, i);
    assert plan.Operations() == edits + ds;
    EditsDeleteNothing(nodes, f, c);
    hide Compatible, Covers, PartEdits, Trapped, Lists, Unwanted, DeletesFrom;
    PerformedAsApplied(f, edits, ds);
    if CanApplyAll(f, edits) {
      EditsLead(nodes, f, i, c);
      AfterTheEdits(nodes, f, ApplyAll(f, edits), i, c, ds);
    }
  }

  lemma AfterTheEdits(nodes: seq<PointNode>, f: Forest, g: Forest, i: nat, c: Cover, ds: seq<Op>)
    requires Compatible(nodes, g) && Covers(nodes, i, c) && PartEdits(nodes, g, c) == [] && Led(nodes, f, g, c)
    requires forall k :: 0 <= k < |ds| ==>
      ds[k].Delete? && ds[k].id in f && !f[ds[k].id].managed && ds[k].id !in PointIds(nodes)
      && InsideCover(f, c, ds[k].id)
    ensures CanPerformAll(g, ds)
    ensures forall x :: x in f ==> (x in PerformAll(g, ds) <==> !Lost(f, c, ds, x))
    ensures forall j :: 0 <= j < |nodes| && nodes[j].o in c.covered ==> AsInThePoint(nodes[j], PerformAll(g, ds))
  {
    forall k | 0 <= k < |ds| ensures ds[k].id in g && !g[ds[k].id].managed && InsideCover(g, c, ds[k].id) {
      assert SameWay(f, g, c, ds[k].id, ds[k].id);
    }
    assert WellFormed(g);
    forall x, k | x in f && 0 <= k < |ds| ensures Under(g, x, ds[k].id) <==> GoesWith(f, c, x, ds[k].id) {
      GoesWithFromTheStart(nodes, f, g, i, c, x, ds[k].id);
    }
    hide WellFormed, Compatible, Covers, PartEdits, Led, Under, GoesWith;
    DeletionsRemove(g, ds);
    forall x | x in f ensures x in g && (Gone(g, ds, x) <==> Lost(f, c, ds, x)) {}
    forall j | 0 <= j < |nodes| && nodes[j].o in c.covered ensures AsInThePoint(nodes[j], PerformAll(g, ds)) {
      CoveredIsInPlace(nodes, g, i, c, j);
      if nodes[j].o in g { CoveredStays(nodes, g, i, c, ds, j); }
    }
  }

  // --- A node kept elsewhere is lost ---

  ghost predicate Crossed(nodes: seq<PointNode>, live: seq<LiveNode>, f: Forest)
  {
    && nodes == [FolderNode(4, 0, "a"), FolderNode(5, 0, "b")]
    && live == [LiveNode(4, LiveFolder(0, "a")), LiveNode(6, LiveFolder(4, "a")), LiveNode(5, LiveFolder(6, "a")),
      LiveNode(7, LiveFolder(5, "a"))]
    && f == map[4 := LiveFolder(0, "a"), 6 := LiveFolder(4, "a"), 5 := LiveFolder(6, "a"), 7 := LiveFolder(5, "a")]
  }

  lemma CrossedIsCompatible(nodes: seq<PointNode>, live: seq<LiveNode>, f: Forest)
    requires Crossed(nodes, live, f)
    ensures Compatible(nodes, f) && Lists(live, f)
  {
    assert GroundedIn(f, 4, 1) && GroundedIn(f, 6, 2) && GroundedIn(f, 5, 3) && GroundedIn(f, 7, 4);
    assert live[0] in live && live[1] in live && live[2] in live && live[3] in live;
    assert ValidNodes(nodes) && WellFormed(f);
  }

  lemma CrossedCovers(nodes: seq<PointNode>, live: seq<LiveNode>, f: Forest)
    requires Crossed(nodes, live, f)
    ensures CoverOf(nodes, Within(4)).covered == {4}
  {
    var links := PointLinks(nodes);
    assert links == [Link(4, 0, true), Link(5, 0, true)];
    assert links[..1] == [Link(4, 0, true)] && links[..1][..0] == [];
    assert Below(links[..1], 4) == Reach({}, {4});
  }

  lemma CrossedBelow(nodes: seq<PointNode>, live: seq<LiveNode>, f: Forest)
    requires Crossed(nodes, live, f)
    ensures Below(LiveLinks(live), 4).seen == {6, 5, 7}
  {
    var below := LiveLinks(live);
    assert below == [Link(4, 0, true), Link(6, 4, true), Link(5, 6, true), Link(7, 5, true)];
    hide Crossed, LiveLinks;
    assert below[..3][..2] == below[..2] && below[..2][..1] == below[..1] && below[..1][..0] == [];
    assert Below(below[..1], 4) == Reach({}, {4});
    assert Below(below[..2], 4) == Reach({6}, {4, 6});
    assert Below(below[..3], 4) == Reach({6, 5}, {4, 6, 5});
  }

  lemma CrossedDeletes(nodes: seq<PointNode>, live: seq<LiveNode>, f: Forest)
    requires Crossed(nodes, live, f)
    ensures PlanFor(nodes, live, Exact, Within(4)).deletes == [Delete(6, Folder), Delete(7, Folder)]
  {
    hide Unwanted, Below, CoverOf, PhaseOps, Skipped;
    CrossedBelow(nodes, live, f);
    CrossedUnwanted(nodes, live, f);
    assert live[..3][..2] == live[..2] && live[..2][..1] == live[..1] && live[..1][..0] == [];
    assert DeletesFrom(live[..1], {6, 7}) == [];
    assert DeletesFrom(live[..2], {6, 7}) == [Delete(6, Folder)];
    assert DeletesFrom(live[..3], {6, 7}) == [Delete(6, Folder)];
  }

  lemma CrossedUnwanted(nodes: seq<PointNode>, live: seq<LiveNode>, f: Forest)
    requires Crossed(nodes, live, f) && Below(LiveLinks(live), 4).seen == {6, 5, 7}
    ensures Unwanted(nodes, live, Within(4)) == {6, 7}
  {
    CrossedIsCompatible(nodes, live, f);
    ListingIsForest(live, f);
    hide Compatible, Lists, Below;
    assert PointIds(nodes) == {4, 5} by { assert nodes[0].o == 4 && nodes[1].o == 5; }
    assert live[1] in live && live[3] in live;
  }

  lemma CrossedIsFree(nodes: seq<PointNode>, live: seq<LiveNode>, f: Forest)
    requires Crossed(nodes, live, f)
    ensures !Trapped(nodes, 0, f, CoverOf(nodes, Within(4)))
  {
    var c := CoverOf(nodes, Within(4));
    assert nodes[0].p == 0 && IsRoot(0);
    forall d ensures !Holds(f, c, 0, d) {
      CrossedIsCompatible(nodes, live, f);
      if d in f { RootUnderNothing(f, 0, d); }
    }
    hide Crossed, Holds;
  }

  lemma CrossedLoses(nodes: seq<PointNode>, live: seq<LiveNode>, f: Forest, c: Cover, ds: seq<Op>)
    requires Crossed(nodes, live, f) && c.covered == {4} && ds == [Delete(6, Folder), Delete(7, Folder)]
    ensures !Lost(f, c, ds, 4) && Lost(f, c, ds, 6) && Lost(f, c, ds, 5) && Lost(f, c, ds, 7)
  {
    assert GoesWithIn(f, c, 6, 6, 0) && GoesWithIn(f, c, 5, 6, 1) && GoesWithIn(f, c, 7, 6, 2);
    assert GoesWith(f, c, 6, 6) && GoesWith(f, c, 5, 6) && GoesWith(f, c, 7, 6);
    assert PutInPlace(f, c, 4);
    assert ds[0].id == 6;
  }

  /** In the point folders 4 and 5 stand side by side. Now 4 holds an unknown folder
      6, which holds 5, which holds an unknown folder 7. An exact restore of 4 gets
      to its end, passing over the second of its two deletions, and 5 is lost. */
  lemma KeptElsewhereButLost(nodes: seq<PointNode>, live: seq<LiveNode>, f: Forest)
    requires Crossed(nodes, live, f)
    ensures 5 in PointIds(nodes)
    ensures PlanFor(nodes, live, Exact, Within(4)).deletes == [Delete(6, Folder), Delete(7, Folder)]
    ensures CanPerformAll(f, PlanFor(nodes, live, Exact, Within(4)).Operations())
    ensures forall x :: x in f ==> (x in PerformAll(f, PlanFor(nodes, live, Exact, Within(4)).Operations()) <==> x == 4)
  {
    hide Compatible, Lists, Trapped, Lost, CoverOf, PlanFor;
    CrossedNodes(nodes, live, f);
    CrossedIsCompatible(nodes, live, f);
    CrossedCovers(nodes, live, f);
    CrossedDeletes(nodes, live, f);
    CrossedIsFree(nodes, live, f);
    CrossedLoses(nodes, live, f, CoverOf(nodes, Within(4)), PlanFor(nodes, live, Exact, Within(4)).deletes);
    LosesAllBut(nodes, live, f, 0, 4);
  }

  lemma LosesAllBut(nodes: seq<PointNode>, live: seq<LiveNode>, f: Forest, i: nat, kept: Id)
    requires Compatible(nodes, f) && Lists(live, f) && i < |nodes|
    requires !Trapped(nodes, i, f, CoverOf(nodes, Within(nodes[i].o)))
    requires forall x :: x in f ==>
      (Lost(f, CoverOf(nodes, Within(nodes[i].o)), PlanFor(nodes, live, Exact, Within(nodes[i].o)).deletes, x) <==>
        x != kept)
    ensures var ops := PlanFor(nodes, live, Exact, Within(nodes[i].o)).Operations();
            CanPerformAll(f, ops) && forall x :: x in f ==> (x in PerformAll(f, ops) <==> x == kept)
  {
    hide Compatible, Lists, PlanFor, Trapped, Lost, AsInThePoint, CoverOf;
    ExactRestoreOfAFolder(nodes, live, f, i);
  }

  lemma CrossedNodes(nodes: seq<PointNode>, live: seq<LiveNode>, f: Forest)
    requires Crossed(nodes, live, f)
    ensures |nodes| == 2 && nodes[0].o == 4 && 5 in PointIds(nodes) && f.Keys == {4, 5, 6, 7}
  {
    assert nodes[1] in nodes && nodes[1].o == 5;
  }
}
