// What a restore of everything does, from the first operation to the last:
// every step is possible, an interrupted run resumes, and the end is the
// restore point.
module Restore {
  import opened Wrappers
  import opened Keys
  import opened BookmarkForest
  import opened Descent
  import opened Planner
  import opened Flatten

  ghost function Everything(nodes: seq<PointNode>): Cover
  {
    Cover(PointIds(nodes), {})
  }

  /** What a point captured from the same account and the browser's tree agree
      on: parents are folders, an object is always of one kind, and what hangs
      off a policy's folder is the policy's too. */
  ghost predicate Compatible(nodes: seq<PointNode>, f: Forest)
  {
    && ValidNodes(nodes)
    && WellFormed(f)
    && (forall i, j :: 0 <= i < |nodes| && 0 <= j < |nodes| && nodes[i].p == nodes[j].o ==> nodes[j].k.Folder?)
    && (forall n :: n in nodes && n.o in f ==> f[n.o].kind == n.k)
    && (forall n :: n in nodes && n.p in f && f[n.p].managed ==> n.o in f && f[n.o].managed)
  }

  predicate Surplus(nodes: seq<PointNode>, f: Forest, x: Id)
  {
    x in f && x !in PointIds(nodes) && !f[x].managed
  }

  ghost function TopmostSurplus(nodes: seq<PointNode>, f: Forest, mode: Mode): set<Id>
  {
    set x | x in f && mode.Exact? && Surplus(nodes, f, x) && !Surplus(nodes, f, f[x].parent)
  }

  /** Each of `ids`, once, as a deletion. */
  ghost predicate DeletesAll(ds: seq<Op>, f: Forest, ids: set<Id>)
  {
    && (forall i :: 0 <= i < |ds| ==>
      ds[i].Delete? && ds[i].id in ids && ds[i].id in f && ds[i].kind == f[ds[i].id].kind)
    && (forall i, j :: 0 <= i < j < |ds| ==> ds[i].id != ds[j].id)
    && (forall x :: x in ids ==> exists i :: 0 <= i < |ds| && ds[i].id == x)
  }

  ghost function Edits(nodes: seq<PointNode>, f: Forest): seq<Op>
  {
    var c := Everything(nodes);
    PhaseOps(Restoring, nodes, f, c) + PhaseOps(Updating, nodes, f, c) + PhaseOps(Moving, nodes, f, c)
  }

  /** A plan for everything over `f`, its deletions in some order. */
  ghost predicate IsPlan(nodes: seq<PointNode>, f: Forest, mode: Mode, ops: seq<Op>)
  {
    var e := Edits(nodes, f);
    e <= ops && DeletesAll(ops[|e|..], f, TopmostSurplus(nodes, f, mode))
  }

  // --- Where a restore is going ---

  predicate Stays(nodes: seq<PointNode>, f: Forest, mode: Mode, x: Id)
  {
    if x in PointForest(nodes)
    then x in f || PointForest(nodes)[x].kind.Folder? || IsSyncableUrl(PointForest(nodes)[x].url)
    else x in f && (mode.Merge? || f[x].managed)
  }

  function Restored(nodes: seq<PointNode>, f: Forest, x: Id): Node
    requires x in PointForest(nodes) || x in f
  {
    if x !in PointForest(nodes) || (x in f && f[x].managed) then f[x]
    else
      var n := PointForest(nodes)[x];
      if x in f && n.kind.Bookmark? && !IsSyncableUrl(n.url) then n.(url := f[x].url) else n
  }

  /** The forest a restore ends with: the point's nodes as the point has them,
      except for URLs that are not restored, and what the mode leaves alone. */
  ghost function Target(nodes: seq<PointNode>, f: Forest, mode: Mode): Forest
  {
    map x | x in PointForest(nodes).Keys + f.Keys && Stays(nodes, f, mode, x) :: Restored(nodes, f, x)
  }

  // --- Phases as sequences ---

  lemma PhaseSame(ph: Phase, nodes: seq<PointNode>, f: Forest, g: Forest, c: Cover)
    requires forall i :: 0 <= i < |nodes| ==> OpsFor(ph, nodes[i], f, c) == OpsFor(ph, nodes[i], g, c)
    ensures PhaseOps(ph, nodes, f, c) == PhaseOps(ph, nodes, g, c)
  {
    assert Each(ph, nodes, f, c) == Each(ph, nodes, g, c);
  }

  lemma PhaseEmpty(ph: Phase, nodes: seq<PointNode>, f: Forest, c: Cover)
    ensures PhaseOps(ph, nodes, f, c) == [] <==> forall i :: 0 <= i < |nodes| ==> OpsFor(ph, nodes[i], f, c) == []
  {
    ConcatEmpty(Each(ph, nodes, f, c));
    assert forall i :: 0 <= i < |nodes| ==> Each(ph, nodes, f, c)[i] == OpsFor(ph, nodes[i], f, c);
  }

  /** The node a phase starts with. */
  lemma PhaseFirst(ph: Phase, nodes: seq<PointNode>, f: Forest, c: Cover) returns (i: nat)
    requires PhaseOps(ph, nodes, f, c) != []
    ensures i < |nodes| && OpsFor(ph, nodes[i], f, c) == [PhaseOps(ph, nodes, f, c)[0]]
    ensures forall j :: 0 <= j < i ==> OpsFor(ph, nodes[j], f, c) == []
  {
    i := ConcatFirst(Each(ph, nodes, f, c));
    assert forall j :: 0 <= j < |nodes| ==> Each(ph, nodes, f, c)[j] == OpsFor(ph, nodes[j], f, c);
  }

  /** Carrying out a phase's first operation leaves the rest of the phase. */
  lemma PhaseStep(ph: Phase, nodes: seq<PointNode>, f: Forest, g: Forest, c: Cover, i: nat)
    requires i < |nodes| && OpsFor(ph, nodes[i], g, c) == []
    requires forall j :: 0 <= j < i ==> OpsFor(ph, nodes[j], f, c) == []
    requires forall j :: 0 <= j < |nodes| && j != i ==> OpsFor(ph, nodes[j], g, c) == OpsFor(ph, nodes[j], f, c)
    ensures PhaseOps(ph, nodes, f, c) == OpsFor(ph, nodes[i], f, c) + PhaseOps(ph, nodes, g, c)
  {
    ConcatStep(Each(ph, nodes, f, c), i);
    assert Each(ph, nodes, f, c)[i := []] == Each(ph, nodes, g, c);
  }

  // --- One step of each kind ---

  lemma NodeOf(nodes: seq<PointNode>, x: Id) returns (i: nat)
    requires ValidNodes(nodes) && x in PointIds(nodes)
    ensures i < |nodes| && nodes[i].o == x
    ensures PointForest(nodes)[x] == Node(nodes[i].k, nodes[i].t, nodes[i].u, nodes[i].p, Some(nodes[i].x), false)
  {
    i :| 0 <= i < |nodes| && nodes[i].o == x;
    PointForestAt(nodes, i);
  }

  /** The head of the plan is possible, and what is left is a plan for the
      result, with the same target. */
  ghost predicate GoodStep(nodes: seq<PointNode>, f: Forest, mode: Mode, ops: seq<Op>)
    requires ops != []
  {
    && CanApply(f, ops[0])
    && var g := Apply(f, ops[0]);
    && Compatible(nodes, g)
    && IsPlan(nodes, g, mode, ops[1..])
    && Target(nodes, g, mode) == Target(nodes, f, mode)
    && (forall x :: x in PointIds(nodes) && x in f ==> x in g)
    && (forall x :: x in f && f[x].managed ==> x in g && g[x] == f[x])
  }

  ghost predicate SameAt(f: Forest, g: Forest, x: Id)
  {
    (x in f <==> x in g) && (x in f ==> f[x] == g[x])
  }

  /** An operation on the node a phase starts with, touching nothing else, takes
      that operation off the plan. */
  lemma EditStep(ph: Phase, nodes: seq<PointNode>, f: Forest, g: Forest, i: nat, c: Cover)
    requires ValidNodes(nodes) && i < |nodes|
    requires forall x :: x != nodes[i].o ==> SameAt(f, g, x)
    requires forall j :: 0 <= j < i ==> OpsFor(ph, nodes[j], f, c) == []
    requires OpsFor(ph, nodes[i], g, c) == []
    requires forall q :: q != ph ==> OpsFor(q, nodes[i], g, c) == OpsFor(q, nodes[i], f, c)
    ensures PhaseOps(ph, nodes, f, c) == OpsFor(ph, nodes[i], f, c) + PhaseOps(ph, nodes, g, c)
    ensures forall q :: q != ph ==> PhaseOps(q, nodes, g, c) == PhaseOps(q, nodes, f, c)
  {
    forall j, q | 0 <= j < |nodes| && j != i ensures OpsFor(q, nodes[j], g, c) == OpsFor(q, nodes[j], f, c) {
      assert SameAt(f, g, nodes[j].o);
    }
    PhaseStep(ph, nodes, f, g, c, i);
    forall q | q != ph ensures PhaseOps(q, nodes, g, c) == PhaseOps(q, nodes, f, c) {
      PhaseSame(q, nodes, f, g, c);
    }
  }

  /** What exact mode deletes does not depend on the point's own nodes. */
  lemma SurplusSame(nodes: seq<PointNode>, f: Forest, g: Forest, mode: Mode, ds: seq<Op>)
    requires forall x :: x !in PointIds(nodes) ==> SameAt(f, g, x)
    requires DeletesAll(ds, f, TopmostSurplus(nodes, f, mode))
    ensures DeletesAll(ds, g, TopmostSurplus(nodes, g, mode))
  {
    forall x ensures Surplus(nodes, f, x) == Surplus(nodes, g, x) { assert x !in PointIds(nodes) ==> SameAt(f, g, x); }
    forall x ensures x in TopmostSurplus(nodes, g, mode) <==> x in TopmostSurplus(nodes, f, mode) {
      assert x !in PointIds(nodes) ==> SameAt(f, g, x);
    }
    assert TopmostSurplus(nodes, g, mode) == TopmostSurplus(nodes, f, mode);
    forall i | 0 <= i < |ds| ensures ds[i].id in g && ds[i].kind == g[ds[i].id].kind {
      assert SameAt(f, g, ds[i].id);
    }
  }

  lemma TargetSame(nodes: seq<PointNode>, f: Forest, g: Forest, mode: Mode, id: Id)
    requires forall x :: x != id ==> SameAt(f, g, x)
    requires Stays(nodes, f, mode, id) <==> Stays(nodes, g, mode, id)
    requires Stays(nodes, f, mode, id) && (id in PointForest(nodes) || id in f) && (id in PointForest(nodes) || id in g)
      ==> Restored(nodes, f, id) == Restored(nodes, g, id)
    requires id in PointForest(nodes)
    ensures Target(nodes, f, mode) == Target(nodes, g, mode)
  {
    var s, t := Target(nodes, f, mode), Target(nodes, g, mode);
    forall x ensures (x in s <==> x in t) && (x in s ==> s[x] == t[x]) {
      if x != id { assert SameAt(f, g, x); }
    }
  }

  /** Taking the head off a plan whose head is an edit. */
  lemma EditsLeft(nodes: seq<PointNode>, f: Forest, g: Forest, mode: Mode, ops: seq<Op>)
    requires IsPlan(nodes, f, mode, ops) && ops != []
    requires Edits(nodes, f) == [ops[0]] + Edits(nodes, g)
    requires forall x :: x !in PointIds(nodes) ==> SameAt(f, g, x)
    ensures IsPlan(nodes, g, mode, ops[1..])
  {
    hide DeletesAll, Edits, TopmostSurplus;
    var e := Edits(nodes, g);
    assert ops[1..][..|e|] == e by { assert ops[..|e| + 1] == [ops[0]] + e; }
    assert ops[1..][|e|..] == ops[|e| + 1..];
    SurplusSame(nodes, f, g, mode, ops[|e| + 1..]);
  }

  lemma EarlierParentLives(nodes: seq<PointNode>, f: Forest, i: nat)
    requires Compatible(nodes, f) && i < |nodes|
    requires forall j :: 0 <= j < i ==> OpsFor(Restoring, nodes[j], f, Everything(nodes)) == []
    ensures ValidParent(f, nodes[i].p)
  {
    if !IsRoot(nodes[i].p) {
      var j :| 0 <= j < i && nodes[j].o == nodes[i].p;
      assert OpsFor(Restoring, nodes[j], f, Everything(nodes)) == [];
      assert nodes[j] in nodes && nodes[j].k.Folder?;
    }
  }

  lemma RestoreCompatible(nodes: seq<PointNode>, f: Forest, i: nat)
    requires Compatible(nodes, f) && i < |nodes|
    requires forall j :: 0 <= j < i ==> OpsFor(Restoring, nodes[j], f, Everything(nodes)) == []
    requires OpsFor(Restoring, nodes[i], f, Everything(nodes)) != []
    ensures CanApply(f, OpsFor(Restoring, nodes[i], f, Everything(nodes))[0])
    ensures Compatible(nodes, Apply(f, OpsFor(Restoring, nodes[i], f, Everything(nodes))[0]))
  {
    var n := nodes[i];
    assert n in nodes;
    var op := OpsFor(Restoring, n, f, Everything(nodes))[0];
    EarlierParentLives(nodes, f, i);
    RestoreKeeps(f, op);
    var g := Apply(f, op);
    forall m | m in nodes && m.o in g ensures g[m.o].kind == m.k {
      if m.o == n.o { var j :| 0 <= j < |nodes| && nodes[j] == m; assert j == i; }
    }
  }

  lemma EditLocal(ph: Phase, n: PointNode, f: Forest, c: Cover)
    requires n.o in c.covered || ph == Restoring
    requires OpsFor(ph, n, f, c) != [] && CanApply(f, OpsFor(ph, n, f, c)[0])
    ensures forall x :: x != n.o ==> SameAt(f, Apply(f, OpsFor(ph, n, f, c)[0]), x)
    ensures OpsFor(ph, n, Apply(f, OpsFor(ph, n, f, c)[0]), c) == []
    ensures forall q :: q != ph ==> OpsFor(q, n, Apply(f, OpsFor(ph, n, f, c)[0]), c) == OpsFor(q, n, f, c)
  {
  }

  lemma EditTarget(ph: Phase, nodes: seq<PointNode>, f: Forest, mode: Mode, i: nat)
    requires ValidNodes(nodes) && i < |nodes|
    requires OpsFor(ph, nodes[i], f, Everything(nodes)) != []
    requires CanApply(f, OpsFor(ph, nodes[i], f, Everything(nodes))[0])
    requires nodes[i].o in f ==> f[nodes[i].o].kind == nodes[i].k
    ensures Target(nodes, Apply(f, OpsFor(ph, nodes[i], f, Everything(nodes))[0]), mode) == Target(nodes, f, mode)
  {
    var n, op := nodes[i], OpsFor(ph, nodes[i], f, Everything(nodes))[0];
    EditLocal(ph, n, f, Everything(nodes));
    PointForestAt(nodes, i);
    TargetSame(nodes, f, Apply(f, op), mode, n.o);
  }

  /** The three phases in order: only the head goes. */
  lemma EditsHead(ph: Phase, r: seq<Op>, u: seq<Op>, m: seq<Op>, r': seq<Op>, u': seq<Op>, m': seq<Op>, op: Op)
    requires ph == Restoring ==> r == [op] + r' && u == u' && m == m'
    requires ph == Updating ==> r == r' == [] && u == [op] + u' && m == m'
    requires ph == Moving ==> r == r' == [] && u == u' == [] && m == [op] + m'
    ensures r + u + m == [op] + (r' + u' + m')
  {
  }

  lemma EditsStep(ph: Phase, nodes: seq<PointNode>, f: Forest, i: nat)
    requires ValidNodes(nodes) && i < |nodes|
    requires PhaseOps(ph, nodes, f, Everything(nodes)) != []
    requires OpsFor(ph, nodes[i], f, Everything(nodes)) == [PhaseOps(ph, nodes, f, Everything(nodes))[0]]
    requires forall j :: 0 <= j < i ==> OpsFor(ph, nodes[j], f, Everything(nodes)) == []
    requires ph != Restoring ==> PhaseOps(Restoring, nodes, f, Everything(nodes)) == []
    requires ph == Moving ==> PhaseOps(Updating, nodes, f, Everything(nodes)) == []
    requires CanApply(f, OpsFor(ph, nodes[i], f, Everything(nodes))[0])
    ensures Edits(nodes, f) == OpsFor(ph, nodes[i], f, Everything(nodes)) + Edits(nodes,
      Apply(f, OpsFor(ph, nodes[i], f, Everything(nodes))[0]))
  {
    var c := Everything(nodes);
    var n, op := nodes[i], OpsFor(ph, nodes[i], f, c)[0];
    assert n in nodes;
    var g := Apply(f, op);
    EditLocal(ph, n, f, c);
    EditStep(ph, nodes, f, g, i, c);
    EditsHead(ph, PhaseOps(Restoring, nodes, f, c), PhaseOps(Updating, nodes, f, c), PhaseOps(Moving, nodes, f, c),
              PhaseOps(Restoring, nodes, g, c), PhaseOps(Updating, nodes, g, c), PhaseOps(Moving, nodes, g, c), op);
  }

  /** An operation on a node of the point leads to the same target and leaves
      the rest of the plan to do. */
  lemma EditSpares(ph: Phase, n: PointNode, f: Forest, c: Cover)
    requires OpsFor(ph, n, f, c) != [] && CanApply(f, OpsFor(ph, n, f, c)[0])
    ensures var g := Apply(f, OpsFor(ph, n, f, c)[0]); n.o in f ==> n.o in g && (f[n.o].managed ==> g[n.o] == f[n.o])
  {
  }

  lemma PlanHead(nodes: seq<PointNode>, f: Forest, mode: Mode, ops: seq<Op>, op: Op, rest: seq<Op>)
    requires IsPlan(nodes, f, mode, ops) && Edits(nodes, f) == [op] + rest
    ensures ops != [] && ops[0] == op
  {
    assert Edits(nodes, f)[0] == op;
  }

  /** What is left to do, and where it leads, after an edit. */
  lemma EditEffect(ph: Phase, nodes: seq<PointNode>, f: Forest, mode: Mode, i: nat, op: Op, g: Forest)
    requires Compatible(nodes, f) && i < |nodes|
    requires PhaseOps(ph, nodes, f, Everything(nodes)) != [] && PhaseOps(ph, nodes, f, Everything(nodes))[0] == op
    requires OpsFor(ph, nodes[i], f, Everything(nodes)) == [op] && CanApply(f, op) && g == Apply(f, op)
    requires forall j :: 0 <= j < i ==> OpsFor(ph, nodes[j], f, Everything(nodes)) == []
    requires ph != Restoring ==> PhaseOps(Restoring, nodes, f, Everything(nodes)) == []
    requires ph == Moving ==> PhaseOps(Updating, nodes, f, Everything(nodes)) == []
    ensures Edits(nodes, f) == [op] + Edits(nodes, g) && Target(nodes, g, mode) == Target(nodes, f, mode)
    ensures nodes[i].o in PointIds(nodes) && forall x :: x != nodes[i].o ==> SameAt(f, g, x)
    ensures forall x :: x in f ==> x in g && (f[x].managed ==> g[x] == f[x])
  {
    var n, c := nodes[i], Everything(nodes);
    assert n in nodes && n.o in PointIds(nodes);
    assert ValidNodes(nodes) && (n.o in f ==> f[n.o].kind == n.k);
    hide Compatible, OpsFor, PhaseOps, Edits, Target, CanApply, Apply, ValidNodes;
    EditLocal(ph, n, f, c);
    EditsStep(ph, nodes, f, i);
    EditTarget(ph, nodes, f, mode, i);
    EditSpares(ph, n, f, c);
    forall x | x in f ensures x in g && (f[x].managed ==> g[x] == f[x]) { assert x != n.o ==> SameAt(f, g, x); }
  }

  lemma EditIsGood(ph: Phase, nodes: seq<PointNode>, f: Forest, mode: Mode, ops: seq<Op>, i: nat, op: Op)
    requires Compatible(nodes, f) && IsPlan(nodes, f, mode, ops) && i < |nodes|
    requires PhaseOps(ph, nodes, f, Everything(nodes)) != [] && PhaseOps(ph, nodes, f, Everything(nodes))[0] == op
    requires OpsFor(ph, nodes[i], f, Everything(nodes)) == [op] && CanApply(f, op) && Compatible(nodes, Apply(f, op))
    requires forall j :: 0 <= j < i ==> OpsFor(ph, nodes[j], f, Everything(nodes)) == []
    requires ph != Restoring ==> PhaseOps(Restoring, nodes, f, Everything(nodes)) == []
    requires ph == Moving ==> PhaseOps(Updating, nodes, f, Everything(nodes)) == []
    ensures ops != [] && GoodStep(nodes, f, mode, ops)
  {
    hide Compatible, IsPlan, OpsFor, PhaseOps, Edits, Target, CanApply, Apply, ValidNodes, Everything;
    var g := Apply(f, op);
    EditEffect(ph, nodes, f, mode, i, op, g);
    PlanHead(nodes, f, mode, ops, op, Edits(nodes, g));
    EditsLeft(nodes, f, g, mode, ops);
  }

  lemma UpdateCompatible(nodes: seq<PointNode>, f: Forest, i: nat)
    requires Compatible(nodes, f) && i < |nodes|
    requires OpsFor(Updating, nodes[i], f, Everything(nodes)) != []
    ensures CanApply(f, OpsFor(Updating, nodes[i], f, Everything(nodes))[0])
    ensures Compatible(nodes, Apply(f, OpsFor(Updating, nodes[i], f, Everything(nodes))[0]))
  {
    assert nodes[i] in nodes;
    UpdateKeeps(f, OpsFor(Updating, nodes[i], f, Everything(nodes))[0]);
  }

  /** Once everything up to node `i` is in place, nothing above such a node is
      node `i` itself. */
  lemma {:induction false} AboveIsEarlier(nodes: seq<PointNode>, f: Forest, i: nat, j: nat, n: nat)
    requires Compatible(nodes, f) && j < i < |nodes|
    requires nodes[i].o in f && !f[nodes[i].o].managed
    requires forall k :: 0 <= k < i ==> OpsFor(Moving, nodes[k], f, Everything(nodes)) == []
    ensures !UnderIn(f, nodes[j].o, nodes[i].o, n)
    decreases n
  {
    var x := nodes[j].o;
    assert nodes[j] in nodes;
    if n > 0 && x in f {
      if f[x].managed {
        if UnderIn(f, x, nodes[i].o, n) { ManagedAbove(f, x, nodes[i].o, n); }
      } else {
        assert OpsFor(Moving, nodes[j], f, Everything(nodes)) == [];
        if !IsRoot(nodes[j].p) {
          var k :| 0 <= k < j && nodes[k].o == nodes[j].p;
          AboveIsEarlier(nodes, f, i, k, n - 1);
        }
      }
    }
  }

  lemma MoveCompatible(nodes: seq<PointNode>, f: Forest, i: nat)
    requires Compatible(nodes, f) && i < |nodes|
    requires forall j :: 0 <= j < |nodes| ==> OpsFor(Restoring, nodes[j], f, Everything(nodes)) == []
    requires forall j :: 0 <= j < i ==> OpsFor(Moving, nodes[j], f, Everything(nodes)) == []
    requires OpsFor(Moving, nodes[i], f, Everything(nodes)) != []
    ensures CanApply(f, OpsFor(Moving, nodes[i], f, Everything(nodes))[0])
    ensures Compatible(nodes, Apply(f, OpsFor(Moving, nodes[i], f, Everything(nodes))[0]))
  {
    var n := nodes[i];
    assert n in nodes;
    EarlierParentLives(nodes, f, i);
    assert !Under(f, n.p, n.o) by {
      if Under(f, n.p, n.o) {
        var k: nat :| UnderIn(f, n.p, n.o, k);
        if IsRoot(n.p) { RootUnderNothing(f, n.p, n.o); } else {
          var j :| 0 <= j < i && nodes[j].o == n.p;
          AboveIsEarlier(nodes, f, i, j, k);
        }
      }
    }
    MoveKeeps(f, OpsFor(Moving, n, f, Everything(nodes))[0]);
  }

  lemma PlacedNodesParent(nodes: seq<PointNode>, f: Forest, x: Id)
    requires Compatible(nodes, f) && x in f && x in PointIds(nodes) && !f[x].managed
    requires forall j :: 0 <= j < |nodes| ==> OpsFor(Moving, nodes[j], f, Everything(nodes)) == []
    ensures IsRoot(f[x].parent) || f[x].parent in PointIds(nodes)
  {
    var i := NodeOf(nodes, x);
    assert OpsFor(Moving, nodes[i], f, Everything(nodes)) == [];
    if !IsRoot(nodes[i].p) {
      var j :| 0 <= j < i && nodes[j].o == nodes[i].p;
      assert nodes[j] in nodes;
    }
  }

  /** With everything of the point in place, only surplus nodes are under a
      surplus one. */
  lemma {:induction false} BelowSurplus(nodes: seq<PointNode>, f: Forest, x: Id, d: Id, n: nat)
    requires Compatible(nodes, f) && Surplus(nodes, f, d)
    requires forall j :: 0 <= j < |nodes| ==> OpsFor(Moving, nodes[j], f, Everything(nodes)) == []
    requires x in f && UnderIn(f, x, d, n)
    ensures Surplus(nodes, f, x)
    decreases n
  {
    if x != d {
      var p := f[x].parent;
      assert ValidParent(f, p) && !IsRoot(d);
      BelowSurplus(nodes, f, p, d, n - 1);
      if x in PointIds(nodes) { PlacedNodesParent(nodes, f, x); }
    }
  }

  lemma DeleteRest(nodes: seq<PointNode>, f: Forest, d: Id, ds: seq<Op>)
    requires Compatible(nodes, f)
    requires forall j :: 0 <= j < |nodes| ==> OpsFor(Moving, nodes[j], f, Everything(nodes)) == []
    requires ds != [] && ds[0].id == d && DeletesAll(ds, f, TopmostSurplus(nodes, f, Exact))
    requires CanApply(f, ds[0])
    ensures DeletesAll(ds[1..], Apply(f, ds[0]), TopmostSurplus(nodes, Apply(f, ds[0]), Exact))
  {
    var g := Apply(f, ds[0]);
    forall x | x in TopmostSurplus(nodes, f, Exact) && x != d
      ensures x in g && x in TopmostSurplus(nodes, g, Exact)
    {
      if Under(f, x, d) {
        UnderParent(f, x, d);
        var n: nat :| UnderIn(f, f[x].parent, d, n);
        if f[x].parent in f { BelowSurplus(nodes, f, f[x].parent, d, n); }
      }
    }
    forall x | x in TopmostSurplus(nodes, g, Exact)
      ensures x in TopmostSurplus(nodes, f, Exact) && x != d
    {
      UnderSelf(f, d);
      var p := f[x].parent;
      if Surplus(nodes, f, p) && Under(f, p, d) { UnderStep(f, x, d); }
    }
    forall x | x in TopmostSurplus(nodes, g, Exact) ensures exists i :: 0 <= i < |ds[1..]| && ds[1..][i].id == x {
      var i :| 0 <= i < |ds| && ds[i].id == x;
      assert ds[1..][i - 1].id == x;
    }
  }

  /** With the point's nodes in place, only surplus nodes go with a deletion. */
  lemma DeletePossible(nodes: seq<PointNode>, f: Forest, op: Op)
    requires Compatible(nodes, f) && op.Delete? && Surplus(nodes, f, op.id)
    requires forall j :: 0 <= j < |nodes| ==> OpsFor(Moving, nodes[j], f, Everything(nodes)) == []
    ensures CanApply(f, op) && Compatible(nodes, Apply(f, op))
    ensures forall x :: x in Apply(f, op) ==> SameAt(f, Apply(f, op), x)
    ensures forall x :: x in f && x !in Apply(f, op) ==> Surplus(nodes, f, x)
  {
    forall x | x in f && Under(f, x, op.id) ensures Surplus(nodes, f, x) {
      var n: nat :| UnderIn(f, x, op.id, n);
      BelowSurplus(nodes, f, x, op.id, n);
    }
    DeleteKeeps(f, op);
  }

  lemma DeleteEdits(nodes: seq<PointNode>, f: Forest, g: Forest)
    requires forall x :: x in g ==> SameAt(f, g, x)
    requires forall x :: x in f && x !in g ==> Surplus(nodes, f, x)
    requires Edits(nodes, f) == []
    ensures Edits(nodes, g) == []
  {
    var c := Everything(nodes);
    forall q, i | 0 <= i < |nodes| ensures OpsFor(q, nodes[i], g, c) == OpsFor(q, nodes[i], f, c) {
      assert nodes[i].o in PointIds(nodes);
    }
    PhaseSame(Restoring, nodes, f, g, c);
    PhaseSame(Updating, nodes, f, g, c);
    PhaseSame(Moving, nodes, f, g, c);
  }

  lemma DeleteTarget(nodes: seq<PointNode>, f: Forest, g: Forest)
    requires forall x :: x in g ==> SameAt(f, g, x)
    requires forall x :: x in f && x !in g ==> Surplus(nodes, f, x)
    ensures Target(nodes, g, Exact) == Target(nodes, f, Exact)
  {
    var s, t := Target(nodes, f, Exact), Target(nodes, g, Exact);
    forall x ensures (x in s <==> x in t) && (x in s ==> s[x] == t[x]) {
      if x in g { assert SameAt(f, g, x); }
      else if x in f { assert Surplus(nodes, f, x); }
    }
  }

  lemma FirstDeletion(nodes: seq<PointNode>, f: Forest, mode: Mode, ds: seq<Op>)
    requires DeletesAll(ds, f, TopmostSurplus(nodes, f, mode)) && ds != []
    ensures mode == Exact && ds[0].Delete? && ds[0].id in TopmostSurplus(nodes, f, mode)
  {
  }

  /** Nothing of the point or of a policy goes with a deleted folder, and the
      other deletions are still to come. */
  lemma DeleteIsGood(nodes: seq<PointNode>, f: Forest, mode: Mode, ops: seq<Op>)
    requires Compatible(nodes, f) && IsPlan(nodes, f, mode, ops) && ops != []
    requires Edits(nodes, f) == []
    ensures GoodStep(nodes, f, mode, ops)
  {
    PhaseEmpty(Moving, nodes, f, Everything(nodes));
    assert ops[0..] == ops;
    FirstDeletion(nodes, f, mode, ops);
    DeletePossible(nodes, f, ops[0]);
    var g := Apply(f, ops[0]);
    DeleteEdits(nodes, f, g);
    DeleteRest(nodes, f, ops[0].id, ops);
    assert ops[1..][0..] == ops[1..];
    DeleteTarget(nodes, f, g);
  }

  /** Every step of a plan is possible and leaves the rest of it to do. */
  lemma StepIsGood(nodes: seq<PointNode>, f: Forest, mode: Mode, ops: seq<Op>)
    requires Compatible(nodes, f) && IsPlan(nodes, f, mode, ops) && ops != []
    ensures GoodStep(nodes, f, mode, ops)
  {
    var c := Everything(nodes);
    if PhaseOps(Restoring, nodes, f, c) != [] {
      var i := PhaseFirst(Restoring, nodes, f, c);
      RestoreCompatible(nodes, f, i);
      EditIsGood(Restoring, nodes, f, mode, ops, i, PhaseOps(Restoring, nodes, f, c)[0]);
    } else if PhaseOps(Updating, nodes, f, c) != [] {
      var i := PhaseFirst(Updating, nodes, f, c);
      UpdateCompatible(nodes, f, i);
      EditIsGood(Updating, nodes, f, mode, ops, i, PhaseOps(Updating, nodes, f, c)[0]);
    } else if PhaseOps(Moving, nodes, f, c) != [] {
      PhaseEmpty(Restoring, nodes, f, c);
      var i := PhaseFirst(Moving, nodes, f, c);
      MoveCompatible(nodes, f, i);
      EditIsGood(Moving, nodes, f, mode, ops, i, PhaseOps(Moving, nodes, f, c)[0]);
    } else {
      DeleteIsGood(nodes, f, mode, ops);
    }
  }

  // --- Whole runs ---

  lemma ApplyOneMore(f: Forest, ops: seq<Op>, k: nat)
    requires 0 < k <= |ops| && CanApply(f, ops[0]) && CanApplyAll(Apply(f, ops[0]), ops[1..][..k - 1])
    ensures ops[k..] == ops[1..][k - 1..]
    ensures CanApplyAll(f, ops[..k]) && ApplyAll(f, ops[..k]) == ApplyAll(Apply(f, ops[0]), ops[1..][..k - 1])
  {
    assert ops[..k][0] == ops[0] && ops[..k][1..] == ops[1..][..k - 1];
  }

  /** Any prefix of a plan can be applied; what is left of the plan is a plan
      for the result, and no node of the point or of a policy is lost. */
  lemma {:induction false} RunPrefix(nodes: seq<PointNode>, f: Forest, mode: Mode, ops: seq<Op>, k: nat)
    requires Compatible(nodes, f) && IsPlan(nodes, f, mode, ops) && k <= |ops|
    ensures CanApplyAll(f, ops[..k])
    ensures Compatible(nodes, ApplyAll(f, ops[..k]))
    ensures IsPlan(nodes, ApplyAll(f, ops[..k]), mode, ops[k..])
    ensures Target(nodes, ApplyAll(f, ops[..k]), mode) == Target(nodes, f, mode)
    ensures forall x :: x in PointIds(nodes) && x in f ==> x in ApplyAll(f, ops[..k])
    ensures forall x :: x in f && f[x].managed ==> x in ApplyAll(f, ops[..k]) && ApplyAll(f, ops[..k])[x] == f[x]
    decreases k
  {
    if k > 0 {
      StepIsGood(nodes, f, mode, ops);
      RunPrefix(nodes, Apply(f, ops[0]), mode, ops[1..], k - 1);
      ApplyOneMore(f, ops, k);
    } else {
      assert ops[0..] == ops;
    }
  }

  /** Surplus nodes hang off a topmost one. */
  lemma {:induction false} SurplusHasTop(nodes: seq<PointNode>, f: Forest, x: Id, n: nat)
    requires WellFormed(f) && Surplus(nodes, f, x) && GroundedIn(f, x, n)
    ensures TopmostSurplus(nodes, f, Exact) != {}
    decreases n
  {
    if Surplus(nodes, f, f[x].parent) {
      SurplusHasTop(nodes, f, f[x].parent, n - 1);
    } else {
      assert x in TopmostSurplus(nodes, f, Exact);
    }
  }

  lemma NothingToDoAt(nodes: seq<PointNode>, f: Forest, mode: Mode, i: nat)
    requires Compatible(nodes, f) && i < |nodes|
    requires forall q :: OpsFor(q, nodes[i], f, Everything(nodes)) == []
    ensures nodes[i].o in f <==> Stays(nodes, f, mode, nodes[i].o)
    ensures nodes[i].o in f ==> Restored(nodes, f, nodes[i].o) == f[nodes[i].o]
  {
    PointForestAt(nodes, i);
    assert nodes[i] in nodes && nodes[i].o in PointIds(nodes);
    assert OpsFor(Restoring, nodes[i], f, Everything(nodes)) == [];
    assert OpsFor(Updating, nodes[i], f, Everything(nodes)) == [];
    assert OpsFor(Moving, nodes[i], f, Everything(nodes)) == [];
  }

  lemma NothingToDoElsewhere(nodes: seq<PointNode>, f: Forest, mode: Mode, x: Id)
    requires WellFormed(f) && TopmostSurplus(nodes, f, mode) == {} && x !in PointIds(nodes)
    ensures x in f <==> Stays(nodes, f, mode, x)
  {
    if mode.Exact? && Surplus(nodes, f, x) {
      var n: nat :| GroundedIn(f, x, n);
      SurplusHasTop(nodes, f, x, n);
    }
  }

  lemma NothingPlanned(nodes: seq<PointNode>, f: Forest, mode: Mode)
    requires IsPlan(nodes, f, mode, [])
    ensures forall q, i :: 0 <= i < |nodes| ==> OpsFor(q, nodes[i], f, Everything(nodes)) == []
    ensures TopmostSurplus(nodes, f, mode) == {}
  {
    var c := Everything(nodes);
    assert Edits(nodes, f) == [];
    forall q, i | 0 <= i < |nodes| ensures OpsFor(q, nodes[i], f, c) == [] {
      PhaseEmpty(q, nodes, f, c);
      assert q == Restoring || q == Updating || q == Moving;
    }
  }

  /** Nothing left to do means being there. */
  lemma NothingToDo(nodes: seq<PointNode>, f: Forest, mode: Mode)
    requires Compatible(nodes, f) && IsPlan(nodes, f, mode, [])
    ensures f == Target(nodes, f, mode)
  {
    var t := Target(nodes, f, mode);
    NothingPlanned(nodes, f, mode);
    assert WellFormed(f) && PointForest(nodes).Keys == PointIds(nodes);
    hide Compatible, WellFormed, IsPlan, Stays, Restored, OpsFor, TopmostSurplus;
    forall x ensures (x in f <==> x in t) && (x in f ==> f[x] == t[x]) {
      if x in PointIds(nodes) {
        var i :| 0 <= i < |nodes| && nodes[i].o == x;
        NothingToDoAt(nodes, f, mode, i);
      } else {
        NothingToDoElsewhere(nodes, f, mode, x);
      }
    }
  }

  // --- The planner's output ---

  function TopIds(live: seq<LiveNode>, unwanted: set<Id>): (ids: set<Id>)
    ensures forall x :: x in ids <==>
      exists e :: e in live && e.objectId == x && x in unwanted && e.node.parent !in unwanted
  {
    set e | e in live && e.objectId in unwanted && e.node.parent !in unwanted :: e.objectId
  }

  lemma {:induction false} DeletesFromList(live: seq<LiveNode>, f: Forest, unwanted: set<Id>)
    requires forall i, j :: 0 <= i < j < |live| ==> live[i].objectId != live[j].objectId
    requires forall e :: e in live ==> e.objectId in f && f[e.objectId] == e.node && !IsRoot(e.objectId)
    ensures DeletesAll(DeletesFrom(live, unwanted), f, TopIds(live, unwanted))
  {
    if live != [] {
      var rest, e := live[..|live| - 1], live[|live| - 1];
      DeletesFromList(rest, f, unwanted);
      assert live == rest + [e];
      assert e in live;
      if e.objectId in unwanted && e.node.parent !in unwanted {
        assert TopIds(live, unwanted) == TopIds(rest, unwanted) + {e.objectId};
        assert e.objectId !in TopIds(rest, unwanted);
        DeletesOneMore(DeletesFrom(rest, unwanted), f, TopIds(rest, unwanted), Delete(e.objectId, e.node.kind));
      } else {
        assert TopIds(live, unwanted) == TopIds(rest, unwanted);
        assert DeletesFrom(live, unwanted) == DeletesFrom(rest, unwanted);
      }
    }
  }

  lemma DeletesOneMore(ds: seq<Op>, f: Forest, ids: set<Id>, d: Op)
    requires DeletesAll(ds, f, ids) && d.Delete? && d.id !in ids && d.id in f && d.kind == f[d.id].kind
    ensures DeletesAll(ds + [d], f, ids + {d.id})
  {
    var all := ds + [d];
    forall x | x in ids + {d.id} ensures exists i :: 0 <= i < |all| && all[i].id == x {
      if x == d.id { assert all[|ds|].id == x; } else {
        var i :| 0 <= i < |ds| && ds[i].id == x;
        assert all[i].id == x;
      }
    }
  }

  lemma PlanParts(nodes: seq<PointNode>, live: seq<LiveNode>, f: Forest, mode: Mode)
    requires WellFormed(f) && Lists(live, f)
    ensures var plan := PlanFor(nodes, live, mode, All);
            && plan.restores + plan.updates + plan.moves == Edits(nodes, f)
            && plan.Operations()[|Edits(nodes, f)|..] == plan.deletes
            && |plan.Operations()| == |Edits(nodes, f)| + |plan.deletes|
  {
    ListingIsForest(live, f);
    assert CoverOf(nodes, All) == Everything(nodes);
  }

  lemma PlanIsPlan(nodes: seq<PointNode>, live: seq<LiveNode>, f: Forest, mode: Mode)
    requires WellFormed(f) && Lists(live, f)
    ensures IsPlan(nodes, f, mode, PlanFor(nodes, live, mode, All).Operations())
  {
    ListingIsForest(live, f);
    var plan := PlanFor(nodes, live, mode, All);
    PlanParts(nodes, live, f, mode);
    assert plan.Operations() == Edits(nodes, f) + plan.deletes;
    PlanDeletesAll(nodes, live, f, mode);
    hide DeletesAll, Edits, TopmostSurplus, WellFormed, Lists;
  }

  lemma PlanDeletesAll(nodes: seq<PointNode>, live: seq<LiveNode>, f: Forest, mode: Mode)
    requires WellFormed(f) && Lists(live, f)
    ensures DeletesAll(PlanFor(nodes, live, mode, All).deletes, f, TopmostSurplus(nodes, f, mode))
  {
    ListingIsForest(live, f);
    assert CoverOf(nodes, All) == Everything(nodes);
    var unwanted := Unwanted(nodes, live, All);
    forall x ensures x in unwanted <==> Surplus(nodes, f, x) {
      if Surplus(nodes, f, x) { assert LiveNode(x, f[x]) in live; }
    }
    if mode.Exact? {
      DeletesFromList(live, f, unwanted);
      var top := TopIds(live, unwanted);
      forall x ensures x in top <==> x in TopmostSurplus(nodes, f, mode) {
        if x in TopmostSurplus(nodes, f, mode) { assert LiveNode(x, f[x]) in live; }
      }
      assert top == TopmostSurplus(nodes, f, mode);
    } else {
      assert TopmostSurplus(nodes, f, mode) == {};
    }
  }

  /** A restore of everything can be carried out to the end, in order, and ends
      with the point: in exact mode with its ids and the policy's nodes only. */
  lemma RestoreReachesThePoint(nodes: seq<PointNode>, live: seq<LiveNode>, f: Forest, mode: Mode)
    requires Compatible(nodes, f) && Lists(live, f)
    ensures CanApplyAll(f, PlanFor(nodes, live, mode, All).Operations())
    ensures ApplyAll(f, PlanFor(nodes, live, mode, All).Operations()) == Target(nodes, f, mode)
    ensures WellFormed(Target(nodes, f, mode))
  {
    var ops := PlanFor(nodes, live, mode, All).Operations();
    PlanIsPlan(nodes, live, f, mode);
    hide Compatible, Target, IsPlan;
    assert ops[..|ops|] == ops && ops[|ops|..] == [];
    RunPrefix(nodes, f, mode, ops, |ops|);
    CompatibleForest(nodes, ApplyAll(f, ops));
    NothingToDo(nodes, ApplyAll(f, ops), mode);
  }

  lemma TargetAt(nodes: seq<PointNode>, f: Forest, mode: Mode, i: nat)
    requires ValidNodes(nodes) && i < |nodes|
    requires nodes[i].k.Bookmark? ==> IsSyncableUrl(nodes[i].u)
    ensures nodes[i].o in Target(nodes, f, mode)
    ensures Target(nodes, f, mode)[nodes[i].o] == if nodes[i].o in f && f[nodes[i].o].managed then f[nodes[i].o]
              else Node(nodes[i].k, nodes[i].t, nodes[i].u, nodes[i].p, Some(nodes[i].x), false)
  {
    PointForestAt(nodes, i);
    assert nodes[i] in nodes && nodes[i].o in PointIds(nodes);
  }

  /** The target in plain terms, for a point whose URLs can all be restored: the
      point's nodes with its titles, URLs, parents and positions, except that a
      node the policy manages stays as it is, and next to them only the policy's
      nodes (in merge mode, everything else as it was). */
  lemma TargetContents(nodes: seq<PointNode>, f: Forest, mode: Mode)
    requires ValidNodes(nodes)
    requires forall n :: n in nodes && n.k.Bookmark? ==> IsSyncableUrl(n.u)
    ensures Target(nodes, f, mode).Keys == PointIds(nodes) + set x | x in f && (mode.Merge? || f[x].managed)
    ensures forall i :: 0 <= i < |nodes| ==>
              Target(nodes, f, mode)[nodes[i].o] == if nodes[i].o in f && f[nodes[i].o].managed then f[nodes[i].o]
                else Node(nodes[i].k, nodes[i].t, nodes[i].u, nodes[i].p, Some(nodes[i].x), false)
    ensures forall x :: x in Target(nodes, f, mode) && x !in PointIds(nodes) ==>
      x in f && Target(nodes, f, mode)[x] == f[x]
  {
    var t := Target(nodes, f, mode);
    forall i | 0 <= i < |nodes|
      ensures nodes[i].o in t
      ensures t[nodes[i].o] == if nodes[i].o in f && f[nodes[i].o].managed then f[nodes[i].o]
                else Node(nodes[i].k, nodes[i].t, nodes[i].u, nodes[i].p, Some(nodes[i].x), false)
    {
      assert nodes[i] in nodes;
      TargetAt(nodes, f, mode, i);
    }
    forall x ensures x in t <==> x in PointIds(nodes) || (x in f && (mode.Merge? || f[x].managed)) {
      if x in PointIds(nodes) { var i :| 0 <= i < |nodes| && nodes[i].o == x; }
    }
  }

  lemma {:induction false} CountOnce(s: seq<Op>, x: Op)
    requires forall i, j :: 0 <= i < j < |s| ==> s[i] != s[j]
    ensures multiset(s)[x] == if x in s then 1 else 0
  {
    if s != [] {
      CountOnce(s[..|s| - 1], x);
      assert s == s[..|s| - 1] + [s[|s| - 1]];
    }
  }

  lemma DeletesShare(ds: seq<Op>, es: seq<Op>, f: Forest, ids: set<Id>, d: Op)
    requires DeletesAll(ds, f, ids) && DeletesAll(es, f, ids) && d in ds
    ensures d in es
  {
    var i :| 0 <= i < |es| && es[i].id == d.id;
    assert es[i] == d;
  }

  lemma DeletesBothWays(ds: seq<Op>, es: seq<Op>, f: Forest, ids: set<Id>)
    requires DeletesAll(ds, f, ids) && DeletesAll(es, f, ids)
    ensures multiset(ds) == multiset(es) && |ds| == |es|
  {
    forall d ensures multiset(ds)[d] == multiset(es)[d] {
      CountOnce(ds, d);
      CountOnce(es, d);
      assert d in ds <==> d in es by {
        if d in ds { DeletesShare(ds, es, f, ids, d); }
        if d in es { DeletesShare(es, ds, f, ids, d); }
      }
    }
    assert |multiset(ds)| == |ds| && |multiset(es)| == |es|;
  }

  lemma CompatibleForest(nodes: seq<PointNode>, f: Forest)
    requires Compatible(nodes, f)
    ensures WellFormed(f)
  {
  }

  /** Two plans for the same forest differ in the order of deletions only. */
  lemma TwoPlans(nodes: seq<PointNode>, f: Forest, mode: Mode, a: seq<Op>, b: seq<Op>)
    requires IsPlan(nodes, f, mode, a) && IsPlan(nodes, f, mode, b)
    ensures |a| == |b| && Edits(nodes, f) <= a && Edits(nodes, f) <= b
    ensures multiset(a[|Edits(nodes, f)|..]) == multiset(b[|Edits(nodes, f)|..])
  {
    hide DeletesAll, Edits, TopmostSurplus;
    var e := Edits(nodes, f);
    DeletesBothWays(a[|e|..], b[|e|..], f, TopmostSurplus(nodes, f, mode));
  }

  lemma ReplanMatches(nodes: seq<PointNode>, live: seq<LiveNode>, f: Forest, mode: Mode, left: seq<Op>)
    requires Compatible(nodes, f) && Lists(live, f) && IsPlan(nodes, f, mode, left)
    ensures
      var again := PlanFor(nodes, live, mode, All);
      && |again.Operations()| == |left|
      && again.restores + again.updates + again.moves <= left
      && multiset(again.deletes) == multiset(left[|again.Operations()| - |again.deletes|..])
      && CanApplyAll(f, again.Operations())
      && ApplyAll(f, again.Operations()) == Target(nodes, f, mode)
  {
    PlanIsPlan(nodes, live, f, mode);
    PlanParts(nodes, live, f, mode);
    hide Compatible, Target, IsPlan, Lists, WellFormed;
    TwoPlans(nodes, f, mode, left, PlanFor(nodes, live, mode, All).Operations());
    RestoreReachesThePoint(nodes, live, f, mode);
  }

  /** Planning again after the first `k` operations, from whatever listing the
      browser then gives, plans exactly the operations that were left: the same
      edits in the same order, then the same deletions. So progress counted as
      total minus what is planned is right, and finishing leads to the place the
      whole run would have led to. */
  lemma ReplanningResumes(nodes: seq<PointNode>, live: seq<LiveNode>, f: Forest, mode: Mode, k: nat,
      live': seq<LiveNode>, f': Forest)
    requires Compatible(nodes, f) && Lists(live, f)
    requires k <= |PlanFor(nodes, live, mode, All).Operations()|
    requires CanApplyAll(f, PlanFor(nodes, live, mode, All).Operations()[..k])
    requires f' == ApplyAll(f, PlanFor(nodes, live, mode, All).Operations()[..k]) && Lists(live', f')
    ensures
      var first, again := PlanFor(nodes, live, mode, All), PlanFor(nodes, live', mode, All);
      var left := first.Operations()[k..];
      && |again.Operations()| == |first.Operations()| - k
      && again.restores + again.updates + again.moves <= left
      && multiset(again.deletes) == multiset(left[|again.Operations()| - |again.deletes|..])
      && CanApplyAll(f', again.Operations())
      && ApplyAll(f', again.Operations()) == Target(nodes, f, mode)
  {
    var ops := PlanFor(nodes, live, mode, All).Operations();
    PlanIsPlan(nodes, live, f, mode);
    RunPrefix(nodes, f, mode, ops, k);
    ReplanMatches(nodes, live', f', mode, ops[k..]);
  }
}
