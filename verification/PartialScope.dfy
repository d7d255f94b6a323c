// A restore limited to one folder may plan what the browser refuses: the folder's
// ancestors are never edited, even where one of them is inside the folder now.
// This is exactly when.
module PartialScope {
  import opened Wrappers
  import opened Keys
  import opened BookmarkForest
  import opened Descent
  import opened Flatten
  import opened Planner
  import opened Restore

  // --- What a folder's restore is about ---

  /** The folder at `i` of a point, its ancestors and what it covers. */
  ghost predicate Covers(nodes: seq<PointNode>, i: nat, c: Cover)
  {
    && ValidNodes(nodes) && i < |nodes|
    && (forall j :: 0 <= j < i ==> nodes[j].o !in c.covered)
    && (forall j :: i <= j < |nodes| ==> nodes[j].o !in c.ancestors)
    && nodes[i].o in c.covered && c.covered + c.ancestors <= PointIds(nodes)
    && (forall j :: i < j < |nodes| && nodes[j].o in c.covered ==> nodes[j].p in c.covered)
    && (IsRoot(nodes[i].p) || nodes[i].p in c.ancestors)
    && (forall j :: 0 <= j < |nodes| && nodes[j].o in c.ancestors ==> IsRoot(nodes[j].p) || nodes[j].p in c.ancestors)
  }

  lemma {:induction false} SeenAfterStart(links: seq<Link>, start: nat, i: nat, k: nat)
    requires ParentsFirst(links) && i < |links| && links[i].id == start && k <= |links|
    ensures forall j :: 0 <= j < i ==> links[j].id !in Below(links[..k], start).seen
    decreases k
  {
    if k > 0 {
      SeenAfterStart(links, start, i, k - 1);
      assert links[..k][..k - 1] == links[..k - 1];
      if k <= i { BelowBasics(links, start, k); }
    }
  }

  lemma AncestorsBefore(nodes: seq<PointNode>, i: nat, j: nat)
    requires ValidNodes(nodes) && i < |nodes| && j < |nodes|
    requires Under(PointForest(nodes), nodes[i].p, nodes[j].o)
    ensures j < i
  {
    var n: nat :| UnderIn(PointForest(nodes), nodes[i].p, nodes[j].o, n);
    assert !IsRoot(nodes[i].p);
    var k :| 0 <= k < i && nodes[k].o == nodes[i].p;
    PointAncestorsEarlier(nodes, k, j, n);
  }

  /** Covered nodes come from the folder on, each after its parent. */
  lemma CoveredAre(nodes: seq<PointNode>, i: nat, j: nat)
    requires ValidNodes(nodes) && i < |nodes| && j < |nodes|
    ensures var covered := {nodes[i].o} + Below(PointLinks(nodes), nodes[i].o).seen;
            (j < i ==> nodes[j].o !in covered) && (j > i && nodes[j].o in covered ==> nodes[j].p in covered)
  {
    var links := PointLinks(nodes);
    PointLinksParentsFirst(nodes);
    assert links[..|links|] == links && links[j] == Link(nodes[j].o, nodes[j].p, nodes[j].k.Folder?)
      && links[i].id == nodes[i].o;
    hide ValidNodes;
    SeenAfterStart(links, nodes[i].o, i, |links|);
    BelowBasics(links, nodes[i].o, |links|);
    BelowMember(links, nodes[i].o, j, |links|);
    assert j != i ==> links[j].id != links[i].id;
    hide Below;
  }

  lemma CoveredInPoint(nodes: seq<PointNode>, i: nat)
    requires ValidNodes(nodes) && i < |nodes|
    ensures {nodes[i].o} + Below(PointLinks(nodes), nodes[i].o).seen <= PointIds(nodes)
  {
    var links := PointLinks(nodes);
    PointLinksParentsFirst(nodes);
    assert links[..|links|] == links;
    BelowBasics(links, nodes[i].o, |links|);
    forall x | x in Below(links, nodes[i].o).seen ensures x in PointIds(nodes) {
      var j :| 0 <= j < |links| && links[j].id == x;
      assert nodes[j] in nodes;
    }
  }

  lemma ParentInPoint(nodes: seq<PointNode>, j: nat)
    requires ValidNodes(nodes) && j < |nodes|
    ensures IsRoot(nodes[j].p) || nodes[j].p in PointForest(nodes)
  {
    if !IsRoot(nodes[j].p) {
      var k :| 0 <= k < j && nodes[k].o == nodes[j].p;
    }
  }

  lemma AncestorsAre(nodes: seq<PointNode>, i: nat, j: nat)
    requires ValidNodes(nodes) && i < |nodes| && j < |nodes|
    ensures var pf := PointForest(nodes); var ancestors := set x | x in pf.Keys && Under(pf, nodes[i].p, x);
            && (j >= i ==> nodes[j].o !in ancestors)
            && (nodes[j].o in ancestors ==> IsRoot(nodes[j].p) || nodes[j].p in ancestors)
            && (IsRoot(nodes[i].p) || nodes[i].p in ancestors)
  {
    var pf := PointForest(nodes);
    ParentInPoint(nodes, i);
    ParentInPoint(nodes, j);
    PointForestAt(nodes, j);
    UnderSelf(pf, nodes[i].p);
    if Under(pf, nodes[i].p, nodes[j].o) {
      AncestorsBefore(nodes, i, j);
      assert nodes[j].o in pf;
      hide ValidNodes, Under;
      UnderTransitiveStep(pf, nodes[i].p, nodes[j].o);
    }
  }

  lemma ScopeCovers(nodes: seq<PointNode>, i: nat)
    requires ValidNodes(nodes) && i < |nodes|
    ensures Covers(nodes, i, CoverOf(nodes, Within(nodes[i].o)))
  {
    var c := CoverOf(nodes, Within(nodes[i].o));
    PointForestAt(nodes, i);
    CoveredInPoint(nodes, i);
    hide Under, Below, PointForest;
    forall j | 0 <= j < |nodes|
      ensures (j < i ==> nodes[j].o !in c.covered) && (j > i && nodes[j].o in c.covered ==> nodes[j].p in c.covered)
      ensures (j >= i ==> nodes[j].o !in c.ancestors)
      ensures (nodes[j].o in c.ancestors ==> IsRoot(nodes[j].p) || nodes[j].p in c.ancestors)
      ensures IsRoot(nodes[i].p) || nodes[i].p in c.ancestors
    {
      CoveredAre(nodes, i, j);
      AncestorsAre(nodes, i, j);
    }
    assert 0 <= i < |nodes|;
  }

  // --- When the folder cannot go where it belongs ---

  /** From `x`, a place in the point, the nearest one above that is live. */
  ghost predicate Anchored(pf: Forest, f: Forest, x: Id, a: Id, n: nat)
    decreases n
  {
    if IsRoot(x) || x in f then x == a
    else n > 0 && x in pf && Anchored(pf, f, pf[x].parent, a, n - 1)
  }

  /** The nearest live folder above the restored one, in the point, is inside
      something the restore covers. */
  ghost predicate Trapped(nodes: seq<PointNode>, i: nat, f: Forest, c: Cover)
    requires i < |nodes|
  {
    exists a, n: nat, d :: Anchored(PointForest(nodes), f, nodes[i].p, a, n) && Holds(f, c, a, d)
  }

  ghost predicate Holds(f: Forest, c: Cover, a: Id, d: Id)
  {
    d in c.covered && d in f && !f[d].managed && Under(f, a, d)
  }

  // --- Steps of a plan ---

  function PartEdits(nodes: seq<PointNode>, f: Forest, c: Cover): seq<Op>
  {
    PhaseOps(Restoring, nodes, f, c) + PhaseOps(Updating, nodes, f, c) + PhaseOps(Moving, nodes, f, c)
  }

  lemma PartEditsStep(ph: Phase, nodes: seq<PointNode>, f: Forest, k: nat, c: Cover, op: Op)
    requires ValidNodes(nodes) && k < |nodes| && (nodes[k].o in c.covered || ph == Restoring)
    requires OpsFor(ph, nodes[k], f, c) == [op] && CanApply(f, op)
    requires forall j :: 0 <= j < k ==> OpsFor(ph, nodes[j], f, c) == []
    requires ph != Restoring ==> PhaseOps(Restoring, nodes, f, c) == []
    requires ph == Moving ==> PhaseOps(Updating, nodes, f, c) == []
    ensures PartEdits(nodes, f, c) == [op] + PartEdits(nodes, Apply(f, op), c)
    ensures forall x :: x != nodes[k].o ==> SameAt(f, Apply(f, op), x)
  {
    var g := Apply(f, op);
    EditLocal(ph, nodes[k], f, c);
    EditStep(ph, nodes, f, g, k, c);
    EditsHead(ph, PhaseOps(Restoring, nodes, f, c), PhaseOps(Updating, nodes, f, c), PhaseOps(Moving, nodes, f, c),
              PhaseOps(Restoring, nodes, g, c), PhaseOps(Updating, nodes, g, c), PhaseOps(Moving, nodes, g, c), op);
  }

  /** Within its cover, a partial restore does to a node what a full one would. */
  lemma SameOps(ph: Phase, nodes: seq<PointNode>, k: nat, f: Forest, c: Cover)
    requires k < |nodes| && (nodes[k].o in c.covered || (ph == Restoring && nodes[k].o in c.ancestors))
    ensures OpsFor(ph, nodes[k], f, c) == OpsFor(ph, nodes[k], f, Everything(nodes))
  {
    assert nodes[k] in nodes;
  }

  /** A node of the cover whose predecessors need no restoring has its parent. */
  lemma PartParentLives(nodes: seq<PointNode>, f: Forest, i: nat, c: Cover, k: nat)
    requires Compatible(nodes, f) && Covers(nodes, i, c) && k < |nodes|
    requires (nodes[k].o in c.covered || nodes[k].o in c.ancestors)
    requires forall j :: 0 <= j < k ==> OpsFor(Restoring, nodes[j], f, c) == []
    ensures ValidParent(f, nodes[k].p)
    ensures IsRoot(nodes[k].p) || nodes[k].p in c.covered || nodes[k].p in c.ancestors
  {
    if !IsRoot(nodes[k].p) {
      var j :| 0 <= j < k && nodes[j].o == nodes[k].p;
      assert OpsFor(Restoring, nodes[j], f, c) == [];
      assert nodes[j] in nodes && nodes[j].k.Folder?;
    }
  }

  lemma PartRestore(nodes: seq<PointNode>, f: Forest, i: nat, c: Cover, k: nat)
    requires Compatible(nodes, f) && Covers(nodes, i, c) && k < |nodes|
    requires forall j :: 0 <= j < k ==> OpsFor(Restoring, nodes[j], f, c) == []
    requires OpsFor(Restoring, nodes[k], f, c) != []
    ensures var op := OpsFor(Restoring, nodes[k], f, c)[0]; CanApply(f, op) && Compatible(nodes, Apply(f, op))
  {
    var n, op := nodes[k], OpsFor(Restoring, nodes[k], f, c)[0];
    assert n in nodes && !IsRoot(n.o);
    PartParentLives(nodes, f, i, c, k);
    hide Covers, Compatible, ValidParent;
    RestoreStaysCompatible(nodes, f, k, op);
  }

  lemma RestoreStaysCompatible(nodes: seq<PointNode>, f: Forest, k: nat, op: Op)
    requires Compatible(nodes, f) && k < |nodes| && CanApply(f, op)
    requires var n := nodes[k]; op == Restore(n.o, n.k, n.t, if n.k.Bookmark? then n.u else None, n.p, n.x)
    ensures Compatible(nodes, Apply(f, op))
  {
    assert nodes[k] in nodes && WellFormed(f);
    assert op.parent in f ==> !f[op.parent].managed;
    SameNodeSameKind(nodes, k);
    hide WellFormed;
    RestoreKeeps(f, op);
  }

  lemma SameNodeSameKind(nodes: seq<PointNode>, k: nat)
    requires ValidNodes(nodes) && k < |nodes|
    ensures forall m :: m in nodes && m.o == nodes[k].o ==> m == nodes[k]
  {
    forall m | m in nodes && m.o == nodes[k].o ensures m == nodes[k] {
      var j :| 0 <= j < |nodes| && nodes[j] == m;
    }
  }

  // --- Going up before and after a step ---

  /** Where parents stay, ways up stay. */
  lemma {:induction false} UpStays(f: Forest, g: Forest, x: Id, d: Id, n: nat)
    requires UnderIn(f, x, d, n) && forall y :: y in f ==> y in g && g[y].parent == f[y].parent
    ensures UnderIn(g, x, d, n)
    decreases n
  {
    if x != d { UpStays(f, g, f[x].parent, d, n - 1); }
  }

  /** Where one node's parent changes, a way up stays or passes that node. */
  lemma {:induction false} UpStaysOrMeets(f: Forest, g: Forest, x: Id, d: Id, moved: Id, n: nat)
    requires UnderIn(f, x, d, n) && forall y :: y in f && y != moved ==> y in g && g[y].parent == f[y].parent
    ensures Under(g, x, d) || Under(g, x, moved)
    decreases n
  {
    if x == d {
      UnderSelf(g, d);
    } else if x == moved {
      UnderSelf(g, moved);
    } else {
      UpStaysOrMeets(f, g, f[x].parent, d, moved, n - 1);
      if Under(g, g[x].parent, d) { UnderStep(g, x, d); } else { UnderStep(g, x, moved); }
    }
  }

  /** In a tree no two nodes are each under the other. */
  lemma {:induction false} NoCycle(f: Forest, x: Id, y: Id, n: nat, m: nat)
    requires WellFormed(f) && x in f && y in f && UnderIn(f, x, y, n) && Under(f, y, x) && GroundedIn(f, x, m)
    ensures x == y
    decreases m
  {
    if x != y {
      var p := f[x].parent;
      UnderTransitiveStep(f, y, x);
      if p == y {
        var k: nat :| UnderIn(f, y, x, k);
        assert GroundedIn(f, y, m - 1);
        UpFrom(f, y, x);
        NoCycle(f, y, x, k, m - 1);
      } else {
        NoCycle(f, p, y, n - 1, m - 1);
      }
    }
  }

  lemma UpFrom(f: Forest, y: Id, x: Id)
    requires x in f && f[x].parent == y
    ensures Under(f, x, y)
  {
    UnderSelf(f, y);
    UnderStep(f, x, y);
  }

  // --- The trap is there before a step exactly when it is there after ---

  lemma HoldsStays(f: Forest, g: Forest, c: Cover, a: Id, d: Id)
    requires Holds(f, c, a, d) && forall y :: y in f ==>
      y in g && g[y].parent == f[y].parent && g[y].managed == f[y].managed
    ensures Holds(g, c, a, d)
  {
    var n: nat :| UnderIn(f, a, d, n);
    UpStays(f, g, a, d, n);
  }

  lemma {:induction false} AnchoredStays(pf: Forest, f: Forest, g: Forest, x: Id, a: Id, n: nat)
    requires Anchored(pf, f, x, a, n) && f.Keys == g.Keys
    ensures Anchored(pf, g, x, a, n)
    decreases n
  {
    if !IsRoot(x) && x !in f { AnchoredStays(pf, f, g, pf[x].parent, a, n - 1); }
  }

  lemma HoldsMoved(f: Forest, g: Forest, c: Cover, a: Id, d: Id, moved: Id)
    requires Holds(f, c, a, d) && f.Keys == g.Keys && moved in f && moved in c.covered && !g[moved].managed
    requires forall y :: y in f ==> g[y].managed == f[y].managed && (y != moved ==> g[y].parent == f[y].parent)
    ensures Holds(g, c, a, d) || Holds(g, c, a, moved)
  {
    var n: nat :| UnderIn(f, a, d, n);
    UpStaysOrMeets(f, g, a, d, moved, n);
  }

  lemma TrappedMoved(nodes: seq<PointNode>, i: nat, f: Forest, g: Forest, c: Cover, moved: Id)
    requires i < |nodes| && Trapped(nodes, i, f, c) && f.Keys == g.Keys && moved in f && moved in c.covered
    requires !g[moved].managed
    requires forall y :: y in f ==> g[y].managed == f[y].managed && (y != moved ==> g[y].parent == f[y].parent)
    ensures Trapped(nodes, i, g, c)
  {
    var a, n: nat, d :| Anchored(PointForest(nodes), f, nodes[i].p, a, n) && Holds(f, c, a, d);
    AnchoredStays(PointForest(nodes), f, g, nodes[i].p, a, n);
    HoldsMoved(f, g, c, a, d, moved);
  }

  /** Restoring a node on the way up to the anchor makes it the anchor. */
  lemma {:induction false} AnchoredRestored(pf: Forest, f: Forest, g: Forest, x: Id, a: Id, id: Id, n: nat)
    requires Anchored(pf, f, x, a, n) && id !in f && !IsRoot(id) && g.Keys == f.Keys + {id}
    requires id in pf && (IsRoot(pf[id].parent) || pf[id].parent in f)
    ensures Anchored(pf, g, x, a, n) || (Anchored(pf, g, x, id, n) && a == pf[id].parent)
    decreases n
  {
    if !IsRoot(x) && x !in f && x != id { AnchoredRestored(pf, f, g, pf[x].parent, a, id, n - 1); }
  }

  /** And without it the anchor is its parent. */
  lemma {:induction false} AnchoredBefore(pf: Forest, f: Forest, g: Forest, x: Id, a: Id, id: Id, n: nat)
    requires Anchored(pf, g, x, a, n) && id !in f && !IsRoot(id) && g.Keys == f.Keys + {id}
    requires id in pf && (IsRoot(pf[id].parent) || pf[id].parent in f)
    ensures if a == id then Anchored(pf, f, x, pf[id].parent, n + 1) else Anchored(pf, f, x, a, n)
    decreases n
  {
    if x == id {
      assert Anchored(pf, f, pf[id].parent, pf[id].parent, n);
    } else if !IsRoot(x) && x !in g {
      AnchoredBefore(pf, f, g, pf[x].parent, a, id, n - 1);
    }
  }

  lemma AncestorNotCovered(nodes: seq<PointNode>, i: nat, c: Cover, x: Id)
    requires Covers(nodes, i, c) && x in c.ancestors
    ensures x !in c.covered
  {
    var j :| 0 <= j < |nodes| && nodes[j].o == x;
    assert j < i;
  }

  lemma {:induction false} AnchorAbove(nodes: seq<PointNode>, i: nat, c: Cover, f: Forest, x: Id, a: Id, n: nat)
    requires Covers(nodes, i, c) && Anchored(PointForest(nodes), f, x, a, n) && (IsRoot(x) || x in c.ancestors)
    ensures IsRoot(a) || (a in c.ancestors && a in f)
    decreases n
  {
    if !IsRoot(x) && x !in f {
      var j :| 0 <= j < |nodes| && nodes[j].o == x;
      PointForestAt(nodes, j);
      AnchorAbove(nodes, i, c, f, nodes[j].p, a, n - 1);
    }
  }

  // --- A restore ---

  /** `g` is `f` with one more node, under a parent that `f` has. */
  ghost predicate OneMore(f: Forest, g: Forest, id: Id)
  {
    && WellFormed(f) && id !in f && !IsRoot(id) && g.Keys == f.Keys + {id}
    && (forall y :: y in f ==> g[y] == f[y])
    && (IsRoot(g[id].parent) || g[id].parent in f)
  }

  lemma TrappedRestored(nodes: seq<PointNode>, i: nat, f: Forest, g: Forest, c: Cover, id: Id)
    requires i < |nodes| && Trapped(nodes, i, f, c) && OneMore(f, g, id)
    requires id in PointForest(nodes) && PointForest(nodes)[id].parent == g[id].parent
    ensures Trapped(nodes, i, g, c)
  {
    var pf := PointForest(nodes);
    var a, n: nat, d :| Anchored(pf, f, nodes[i].p, a, n) && Holds(f, c, a, d);
    AnchoredRestored(pf, f, g, nodes[i].p, a, id, n);
    HoldsStays(f, g, c, a, d);
    UnderStepIf(g, id, d);
    assert Holds(g, c, a, d);
    if Anchored(pf, g, nodes[i].p, id, n) && a == g[id].parent { assert Holds(g, c, id, d); }
  }

  lemma UnderStepIf(f: Forest, x: Id, d: Id)
    requires x in f
    ensures Under(f, f[x].parent, d) ==> Under(f, x, d)
  {
    if Under(f, f[x].parent, d) { UnderStep(f, x, d); }
  }

  lemma {:induction false} UpBefore(f: Forest, g: Forest, id: Id, x: Id, d: Id, n: nat)
    requires OneMore(f, g, id) && UnderIn(g, x, d, n) && (IsRoot(x) || x in f)
    ensures d != id && UnderIn(f, x, d, n)
    decreases n
  {
    if x != d { UpBefore(f, g, id, f[x].parent, d, n - 1); }
  }

  lemma TrappedBeforeRestore(nodes: seq<PointNode>, i: nat, f: Forest, g: Forest, c: Cover, id: Id)
    requires Covers(nodes, i, c) && Trapped(nodes, i, g, c) && OneMore(f, g, id)
    requires id in PointForest(nodes) && PointForest(nodes)[id].parent == g[id].parent
    ensures Trapped(nodes, i, f, c)
  {
    var pf := PointForest(nodes);
    var a, n: nat, d :| Anchored(pf, g, nodes[i].p, a, n) && Holds(g, c, a, d);
    AnchoredBefore(pf, f, g, nodes[i].p, a, id, n);
    AnchorAbove(nodes, i, c, g, nodes[i].p, a, n);
    if a == id {
      AncestorNotCovered(nodes, i, c, id);
      UnderParent(g, id, d);
      var m: nat :| UnderIn(g, g[id].parent, d, m);
      UpBefore(f, g, id, g[id].parent, d, m);
      assert Holds(f, c, g[id].parent, d);
    } else {
      var m: nat :| UnderIn(g, a, d, m);
      UpBefore(f, g, id, a, d, m);
      assert Holds(f, c, a, d);
    }
  }

  // --- Every step ---

  lemma MakesOneMore(f: Forest, op: Op)
    requires WellFormed(f) && op.Restore? && CanApply(f, op)
    ensures OneMore(f, Apply(f, op), op.id)
  {
  }

  lemma RestoreKeepsTrap(nodes: seq<PointNode>, f: Forest, i: nat, c: Cover, k: nat, op: Op)
    requires WellFormed(f) && Covers(nodes, i, c) && k < |nodes|
    requires OpsFor(Restoring, nodes[k], f, c) == [op] && CanApply(f, op)
    ensures Trapped(nodes, i, f, c) <==> Trapped(nodes, i, Apply(f, op), c)
  {
    var g, id := Apply(f, op), nodes[k].o;
    PointForestAt(nodes, k);
    assert nodes[k] in nodes && g[id].parent == nodes[k].p;
    MakesOneMore(f, op);
    hide Trapped, WellFormed, OneMore, Covers, CanApply;
    if Trapped(nodes, i, f, c) { TrappedRestored(nodes, i, f, g, c, id); }
    if Trapped(nodes, i, g, c) { TrappedBeforeRestore(nodes, i, f, g, c, id); }
  }

  lemma EditKeepsTrap(ph: Phase, nodes: seq<PointNode>, f: Forest, i: nat, c: Cover, k: nat, op: Op)
    requires ph != Restoring && k < |nodes| && i < |nodes|
    requires OpsFor(ph, nodes[k], f, c) == [op] && CanApply(f, op)
    ensures Trapped(nodes, i, f, c) <==> Trapped(nodes, i, Apply(f, op), c)
  {
    var g, id := Apply(f, op), nodes[k].o;
    assert g.Keys == f.Keys && id in f && id in c.covered && !g[id].managed;
    assert forall y :: y in f ==> g[y].managed == f[y].managed && (y != id ==> g[y].parent == f[y].parent);
    hide Trapped, OpsFor, CanApply, Apply;
    if Trapped(nodes, i, f, c) { TrappedMoved(nodes, i, f, g, c, id); }
    if Trapped(nodes, i, g, c) { TrappedMoved(nodes, i, g, f, c, id); }
  }

  /** A step that the browser takes neither springs nor frees the trap. */
  lemma StepKeepsTrap(ph: Phase, nodes: seq<PointNode>, f: Forest, i: nat, c: Cover, k: nat, op: Op)
    requires WellFormed(f) && Covers(nodes, i, c) && k < |nodes|
    requires OpsFor(ph, nodes[k], f, c) == [op] && CanApply(f, op)
    ensures Trapped(nodes, i, f, c) <==> Trapped(nodes, i, Apply(f, op), c)
  {
    if ph == Restoring { RestoreKeepsTrap(nodes, f, i, c, k, op); } else { EditKeepsTrap(ph, nodes, f, i, c, k, op); }
  }

  lemma CoveredParentEarlier(nodes: seq<PointNode>, j: nat, k: nat)
    requires ValidNodes(nodes) && j < |nodes| && k < |nodes| && nodes[k].o == nodes[j].p
    ensures k < j
  {
    assert !IsRoot(nodes[k].o);
    var m :| 0 <= m < j && nodes[m].o == nodes[j].p;
    assert m == k;
  }

  lemma FolderParentFree(nodes: seq<PointNode>, f: Forest, i: nat, c: Cover, d: Id)
    requires Compatible(nodes, f) && Covers(nodes, i, c) && !Trapped(nodes, i, f, c)
    requires forall m :: 0 <= m < |nodes| ==> OpsFor(Restoring, nodes[m], f, c) == []
    requires d in c.covered && d in f && !f[d].managed
    ensures !Under(f, nodes[i].p, d)
  {
    FolderParent(nodes, f, i, c);
    hide Compatible, Covers, OpsFor, Under;
    assert Anchored(PointForest(nodes), f, nodes[i].p, nodes[i].p, 0);
    assert !Holds(f, c, nodes[i].p, d);
  }

  /** A covered node of the point that needs no move stands where the point has
      it. */
  lemma StandsThere(nodes: seq<PointNode>, f: Forest, c: Cover, j: nat)
    requires j < |nodes| && nodes[j].o in c.covered && OpsFor(Moving, nodes[j], f, c) == []
    ensures nodes[j].o in f && !f[nodes[j].o].managed ==> f[nodes[j].o].parent == nodes[j].p
  {
  }

  lemma {:induction false} CoveredAbove(nodes: seq<PointNode>, f: Forest, i: nat, c: Cover, k: nat, j: nat, n: nat)
    requires Compatible(nodes, f) && Covers(nodes, i, c) && !Trapped(nodes, i, f, c)
    requires forall m :: 0 <= m < |nodes| ==> OpsFor(Restoring, nodes[m], f, c) == []
    requires i <= j < k < |nodes| && forall m :: 0 <= m < k ==> OpsFor(Moving, nodes[m], f, c) == []
    requires nodes[j].o in c.covered && nodes[k].o in c.covered && nodes[k].o in f && !f[nodes[k].o].managed
    ensures !UnderIn(f, nodes[j].o, nodes[k].o, n)
    decreases n
  {
    var x, d := nodes[j].o, nodes[k].o;
    assert x != d && WellFormed(f);
    StandsThere(nodes, f, c, j);
    FolderParentFree(nodes, f, i, c, d);
    if n > 0 && x in f {
      if f[x].managed {
        if UnderIn(f, x, d, n) { ManagedAbove(f, x, d, n); }
      } else if j > i {
        var m :| 0 <= m < |nodes| && nodes[m].o == nodes[j].p;
        CoveredParentEarlier(nodes, j, m);
        CoveredAbove(nodes, f, i, c, k, m, n - 1);
      }
    }
  }

  lemma FolderParent(nodes: seq<PointNode>, f: Forest, i: nat, c: Cover)
    requires Compatible(nodes, f) && Covers(nodes, i, c)
    requires forall m :: 0 <= m < |nodes| ==> OpsFor(Restoring, nodes[m], f, c) == []
    ensures IsRoot(nodes[i].p) || nodes[i].p in f
  {
    PartParentLives(nodes, f, i, c, i);
  }

  lemma NotInsideItself(nodes: seq<PointNode>, f: Forest, i: nat, c: Cover, k: nat)
    requires Compatible(nodes, f) && Covers(nodes, i, c) && k < |nodes| && !Trapped(nodes, i, f, c)
    requires forall m :: 0 <= m < |nodes| ==> OpsFor(Restoring, nodes[m], f, c) == []
    requires forall m :: 0 <= m < k ==> OpsFor(Moving, nodes[m], f, c) == []
    requires nodes[k].o in c.covered && nodes[k].o in f && !f[nodes[k].o].managed
    ensures !Under(f, nodes[k].p, nodes[k].o)
  {
    if k == i {
      FolderParentFree(nodes, f, i, c, nodes[k].o);
    } else {
      var j :| 0 <= j < |nodes| && nodes[j].o == nodes[k].p;
      CoveredParentEarlier(nodes, k, j);
      hide Trapped;
      forall n: nat ensures !UnderIn(f, nodes[k].p, nodes[k].o, n) { CoveredAbove(nodes, f, i, c, k, j, n); }
    }
  }

  /** Unless the folder is trapped, every move is possible in its turn. */
  lemma PartMove(nodes: seq<PointNode>, f: Forest, i: nat, c: Cover, k: nat, op: Op)
    requires Compatible(nodes, f) && Covers(nodes, i, c) && k < |nodes|
    requires forall m :: 0 <= m < |nodes| ==> OpsFor(Restoring, nodes[m], f, c) == []
    requires forall m :: 0 <= m < k ==> OpsFor(Moving, nodes[m], f, c) == []
    requires OpsFor(Moving, nodes[k], f, c) == [op]
    ensures !Trapped(nodes, i, f, c) ==> CanApply(f, op)
    ensures CanApply(f, op) ==> Compatible(nodes, Apply(f, op))
  {
    assert nodes[k] in nodes;
    hide Trapped, Covers, Under, Compatible;
    PartParentLives(nodes, f, i, c, k);
    if !Trapped(nodes, i, f, c) { NotInsideItself(nodes, f, i, c, k); }
    if CanApply(f, op) { MoveStaysCompatible(nodes, f, k, op); }
  }

  lemma MoveStaysCompatible(nodes: seq<PointNode>, f: Forest, k: nat, op: Op)
    requires Compatible(nodes, f) && k < |nodes| && op == Move(nodes[k].o, nodes[k].k, nodes[k].p, nodes[k].x)
    requires CanApply(f, op)
    ensures Compatible(nodes, Apply(f, op))
  {
    assert nodes[k] in nodes && WellFormed(f);
    hide WellFormed, Under;
    assert op.parent in f ==> !f[op.parent].managed;
    MoveKeeps(f, op);
  }

  // --- The whole plan ---

  /** What a step leaves: a restore of the same folder, with the same trap. */
  lemma PartStep(ph: Phase, nodes: seq<PointNode>, f: Forest, i: nat, c: Cover, k: nat, op: Op)
    requires Compatible(nodes, f) && Covers(nodes, i, c) && k < |nodes| && OpsFor(ph, nodes[k], f, c) == [op]
    requires forall j :: 0 <= j < k ==> OpsFor(ph, nodes[j], f, c) == []
    requires ph != Restoring ==> PhaseOps(Restoring, nodes, f, c) == []
    requires ph == Moving ==> PhaseOps(Updating, nodes, f, c) == []
    ensures PartEdits(nodes, f, c) != [] && PartEdits(nodes, f, c)[0] == op
    ensures !Trapped(nodes, i, f, c) ==> CanApply(f, op)
    ensures CanApply(f, op) ==>
              && Compatible(nodes, Apply(f, op)) && PartEdits(nodes, f, c) == [op] + PartEdits(nodes, Apply(f, op), c)
              && (Trapped(nodes, i, f, c) <==> Trapped(nodes, i, Apply(f, op), c))
  {
    HeadOf(ph, nodes, f, c, k, op);
    assert WellFormed(f) && ValidNodes(nodes);
    assert nodes[k].o in c.covered || ph == Restoring;
    hide Compatible, WellFormed, ValidNodes, Covers, OpsFor, PhaseOps, Trapped, CanApply;
    PartCanApply(ph, nodes, f, i, c, k, op);
    if CanApply(f, op) {
      PartEditsStep(ph, nodes, f, k, c, op);
      StepKeepsTrap(ph, nodes, f, i, c, k, op);
    }
  }

  lemma PartCanApply(ph: Phase, nodes: seq<PointNode>, f: Forest, i: nat, c: Cover, k: nat, op: Op)
    requires Compatible(nodes, f) && Covers(nodes, i, c) && k < |nodes| && OpsFor(ph, nodes[k], f, c) == [op]
    requires forall j :: 0 <= j < k ==> OpsFor(ph, nodes[j], f, c) == []
    requires ph == Moving ==> PhaseOps(Restoring, nodes, f, c) == []
    ensures !Trapped(nodes, i, f, c) ==> CanApply(f, op)
    ensures CanApply(f, op) ==> Compatible(nodes, Apply(f, op))
  {
    PhaseEmpty(Restoring, nodes, f, c);
    assert ph != Restoring ==> nodes[k].o in c.covered;
    hide Compatible, Covers, Trapped, CanApply;
    match ph
    case Restoring => PartRestore(nodes, f, i, c, k);
    case Updating =>
      SameOps(Updating, nodes, k, f, c);
      UpdateCompatible(nodes, f, k);
    case Moving => PartMove(nodes, f, i, c, k, op);
  }

  lemma HeadOf(ph: Phase, nodes: seq<PointNode>, f: Forest, c: Cover, k: nat, op: Op)
    requires k < |nodes| && OpsFor(ph, nodes[k], f, c) == [op]
    requires forall j :: 0 <= j < k ==> OpsFor(ph, nodes[j], f, c) == []
    requires ph != Restoring ==> PhaseOps(Restoring, nodes, f, c) == []
    requires ph == Moving ==> PhaseOps(Updating, nodes, f, c) == []
    ensures PartEdits(nodes, f, c) != [] && PartEdits(nodes, f, c)[0] == op
  {
    ConcatStep(Each(ph, nodes, f, c), k);
    assert forall j :: 0 <= j < k ==> Each(ph, nodes, f, c)[j] == OpsFor(ph, nodes[j], f, c);
  }

  lemma {:induction false} CoveredUnderFolder(nodes: seq<PointNode>, f: Forest, i: nat, c: Cover, j: nat)
    requires Compatible(nodes, f) && Covers(nodes, i, c) && j < |nodes|
    requires nodes[j].o in c.covered && nodes[j].o in f && !f[nodes[j].o].managed
    requires forall m :: 0 <= m < |nodes| ==>
      OpsFor(Restoring, nodes[m], f, c) == [] && OpsFor(Moving, nodes[m], f, c) == []
    ensures Under(f, nodes[j].o, nodes[i].o) && nodes[i].o in f && f[nodes[i].o].parent == nodes[i].p
    decreases j
  {
    assert nodes[j] in nodes && OpsFor(Moving, nodes[j], f, c) == [];
    if j == i {
      UnderSelf(f, nodes[i].o);
    } else {
      PartParentLives(nodes, f, i, c, j);
      var k :| 0 <= k < |nodes| && nodes[k].o == nodes[j].p;
      CoveredParentEarlier(nodes, j, k);
      CoveredUnderFolder(nodes, f, i, c, k);
      UnderStep(f, nodes[j].o, nodes[i].o);
    }
  }

  /** With nothing left to do the folder is not trapped. */
  lemma DoneMeansFreeOf(nodes: seq<PointNode>, f: Forest, i: nat, c: Cover, d: Id)
    requires Compatible(nodes, f) && Covers(nodes, i, c) && d in c.covered && d in f && !f[d].managed
    requires forall m :: 0 <= m < |nodes| ==>
      OpsFor(Restoring, nodes[m], f, c) == [] && OpsFor(Moving, nodes[m], f, c) == []
    ensures !Under(f, nodes[i].p, d)
  {
    var p, folder := nodes[i].p, nodes[i].o;
    var j :| 0 <= j < |nodes| && nodes[j].o == d;
    FolderParent(nodes, f, i, c);
    CoveredUnderFolder(nodes, f, i, c, j);
    if IsRoot(p) {
      RootUnderNothing(f, p, d);
    } else if Under(f, p, d) {
      UnderTransitiveStep(f, d, folder);
      var n: nat :| UnderIn(f, p, d, n);
      var m: nat :| GroundedIn(f, p, m);
      NoCycle(f, p, d, n, m);
      AncestorNotCovered(nodes, i, c, p);
    }
  }

  lemma DoneMeansFree(nodes: seq<PointNode>, f: Forest, i: nat, c: Cover)
    requires Compatible(nodes, f) && Covers(nodes, i, c) && PartEdits(nodes, f, c) == []
    ensures !Trapped(nodes, i, f, c)
  {
    PhaseEmpty(Restoring, nodes, f, c);
    PhaseEmpty(Moving, nodes, f, c);
    FolderParent(nodes, f, i, c);
    assert forall a, n: nat :: Anchored(PointForest(nodes), f, nodes[i].p, a, n) ==> a == nodes[i].p;
    forall d ensures !Holds(f, c, nodes[i].p, d) {
      if d in c.covered && d in f && !f[d].managed { DoneMeansFreeOf(nodes, f, i, c, d); }
    }
    hide Compatible, Covers, Holds, Anchored;
  }

  /** A restore of one folder can be carried out, in order and to the end, exactly
      when the nearest live folder above it in the point is not inside anything the
      restore covers. */
  lemma {:induction false} EditsApplyIff(nodes: seq<PointNode>, f: Forest, i: nat, c: Cover)
    requires Compatible(nodes, f) && Covers(nodes, i, c)
    ensures CanApplyAll(f, PartEdits(nodes, f, c)) <==> !Trapped(nodes, i, f, c)
    decreases |PartEdits(nodes, f, c)|
  {
    var edits := PartEdits(nodes, f, c);
    if edits == [] {
      DoneMeansFree(nodes, f, i, c);
    } else {
      var ph, k := FirstOf(nodes, f, c);
      var op := OpsFor(ph, nodes[k], f, c)[0];
      PartStep(ph, nodes, f, i, c, k, op);
      hide Compatible, Covers, Trapped, PartEdits, CanApply;
      if CanApply(f, op) {
        var g := Apply(f, op);
        assert edits[1..] == PartEdits(nodes, g, c);
        EditsApplyIff(nodes, g, i, c);
      }
    }
  }

  lemma FirstOf(nodes: seq<PointNode>, f: Forest, c: Cover) returns (ph: Phase, k: nat)
    requires PartEdits(nodes, f, c) != []
    ensures k < |nodes| && |OpsFor(ph, nodes[k], f, c)| == 1
    ensures forall j :: 0 <= j < k ==> OpsFor(ph, nodes[j], f, c) == []
    ensures ph != Restoring ==> PhaseOps(Restoring, nodes, f, c) == []
    ensures ph == Moving ==> PhaseOps(Updating, nodes, f, c) == []
  {
    if PhaseOps(Restoring, nodes, f, c) != [] {
      ph := Restoring;
    } else if PhaseOps(Updating, nodes, f, c) != [] {
      ph := Updating;
    } else {
      ph := Moving;
    }
    k := PhaseFirst(ph, nodes, f, c);
  }

  lemma MergingPlan(nodes: seq<PointNode>, live: seq<LiveNode>, f: Forest, scope: Scope)
    requires Lists(live, f)
    ensures PlanFor(nodes, live, Merge, scope).Operations() == PartEdits(nodes, f, CoverOf(nodes, scope))
  {
    hide PhaseOps, CoverOf, Skipped;
    ListingIsForest(live, f);
    var edits := PartEdits(nodes, f, CoverOf(nodes, scope));
    assert PlanFor(nodes, live, Merge, scope).Operations() == edits + [] == edits;
  }

  /** A merging restore of one folder can be carried out to the end exactly when
      the nearest live folder above it in the point is not inside anything the
      restore covers. */
  lemma PartialRestoreAppliesIff(nodes: seq<PointNode>, live: seq<LiveNode>, f: Forest, i: nat)
    requires Compatible(nodes, f) && Lists(live, f) && i < |nodes|
    ensures CanApplyAll(f, PlanFor(nodes, live, Merge, Within(nodes[i].o)).Operations())
            <==> !Trapped(nodes, i, f, CoverOf(nodes, Within(nodes[i].o)))
  {
    assert ValidNodes(nodes);
    hide Compatible, Trapped, Covers, WellFormed, Lists, ValidNodes, PlanFor, PartEdits, CoverOf, CanApplyAll;
    ScopeCovers(nodes, i);
    EditsApplyIff(nodes, f, i, CoverOf(nodes, Within(nodes[i].o)));
    MergingPlan(nodes, live, f, Within(nodes[i].o));
  }

  // --- A folder that cannot go where it belongs ---

  function FolderNode(o: Id, p: Id, x: Key): PointNode
  {
    PointNode(o, Folder, "", None, p, x)
  }

  function LiveFolder(p: Id, x: Key): Node
  {
    Node(Folder, "", None, p, Some(x), false)
  }

  /** In the point folder 4 holds folder 5; now 5 holds 4. Restoring 5 alone would
      move it into itself. */
  lemma TrappedFolder(nodes: seq<PointNode>, live: seq<LiveNode>, f: Forest)
    requires nodes == [FolderNode(4, 0, "a"), FolderNode(5, 4, "a")]
    requires live == [LiveNode(5, LiveFolder(0, "a")), LiveNode(4, LiveFolder(5, "a"))]
    requires f == map[5 := LiveFolder(0, "a"), 4 := LiveFolder(5, "a")]
    ensures Compatible(nodes, f) && Lists(live, f)
    ensures Trapped(nodes, 1, f, CoverOf(nodes, Within(5)))
    ensures !CanApplyAll(f, PlanFor(nodes, live, Merge, Within(5)).Operations())
  {
    assert GroundedIn(f, 5, 1) && GroundedIn(f, 4, 2);
    assert nodes[0].o == 4 && nodes[1].o == 5;
    var c := CoverOf(nodes, Within(5));
    assert live[0] in live && live[1] in live;
    assert Compatible(nodes, f);
    assert Lists(live, f);
    assert UnderIn(f, 4, 5, 1);
    assert Holds(f, c, 4, 5);
    assert Anchored(PointForest(nodes), f, nodes[1].p, 4, 0);
    hide Compatible, Lists, Trapped, Holds;
    assert Trapped(nodes, 1, f, c) by { TrappedBy(nodes, 1, f, c, 4, 0, 5); }
    PartialRestoreAppliesIff(nodes, live, f, 1);
  }

  lemma TrappedBy(nodes: seq<PointNode>, i: nat, f: Forest, c: Cover, a: Id, n: nat, d: Id)
    requires i < |nodes| && Anchored(PointForest(nodes), f, nodes[i].p, a, n) && Holds(f, c, a, d)
    ensures Trapped(nodes, i, f, c)
  {
  }
}
