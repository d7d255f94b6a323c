// A restore cut short: a slice's positions are recorded before its moves are made, so
// some of what is recorded may not have been made.
module RestoreCrash {
  import opened Wrappers
  import opened Keys
  import opened BookmarkForest
  import opened Flatten
  import opened Planner
  import opened Restore
  import opened RestoreRun
  import Moves = MoveBatch

  /** The forest once these positions are recorded, whether or not the moves are made. */
  function Noted(f: Forest, places: Moves.Positions): Forest
  {
    map x | x in f :: if x in places then f[x].(position := Some(places[x])) else f[x]
  }

  /** The first `made` operations are made, and what the first `recorded` ones record is
      recorded. */
  ghost function CutShort(f: Forest, ops: seq<Op>, made: nat, recorded: nat): Forest
    requires made <= recorded <= |ops| && CanApplyAll(f, ops[..made])
  {
    Noted(ApplyAll(f, ops[..made]), PlacesOf(ops[made..recorded]))
  }

  /** Moves within a folder that are recorded over `f`: nothing tells any more that they
      have not been made. */
  function LostMoves(f: Forest, ops: seq<Op>): set<Id>
  {
    set op | op in ops && op.Move? && op.id in f && f[op.id].parent == op.parent :: op.id
  }

  function WithoutMoves(ops: seq<Op>, lost: set<Id>): seq<Op>
  {
    if ops == [] then []
    else
      var last := ops[|ops| - 1];
      WithoutMoves(ops[..|ops| - 1], lost) + if last.Move? && last.id in lost then [] else [last]
  }

  lemma {:induction false} WithoutMovesAre(ops: seq<Op>, lost: set<Id>)
    ensures forall op :: op in WithoutMoves(ops, lost) ==> op in ops && !(op.Move? && op.id in lost)
  {
    if ops != [] { WithoutMovesAre(ops[..|ops| - 1], lost); }
  }

  lemma {:induction false} WithoutMovesApart(a: seq<Op>, b: seq<Op>, lost: set<Id>)
    ensures WithoutMoves(a + b, lost) == WithoutMoves(a, lost) + WithoutMoves(b, lost)
    decreases |b|
  {
    if b == [] {
      assert a + b == a;
    } else {
      var n := |b| - 1;
      assert (a + b)[..|a + b| - 1] == a + b[..n] && (a + b)[|a + b| - 1] == b[n];
      WithoutMovesApart(a, b[..n], lost);
    }
  }

  lemma {:induction false} NoMovesWithout(ops: seq<Op>, lost: set<Id>)
    requires forall op :: op in ops ==> !op.Move?
    ensures WithoutMoves(ops, lost) == ops
  {
    if ops != [] {
      assert ops[|ops| - 1] in ops && forall op :: op in ops[..|ops| - 1] ==> op in ops;
      NoMovesWithout(ops[..|ops| - 1], lost);
    }
  }

  /** What is recorded ahead are nodes of the point that may be moved, at the point's
      positions. */
  ghost predicate AheadOf(nodes: seq<PointNode>, f: Forest, places: Moves.Positions)
  {
    forall x: Id :: x in places && x in f ==>
      !f[x].managed && exists i :: 0 <= i < |nodes| && nodes[i].o == x && nodes[i].x == places[x]
  }

  lemma PlacesAhead(nodes: seq<PointNode>, f: Forest, ops: seq<Op>)
    requires OnceEach(ops) && forall op :: op in ops ==> FromPhases(op, nodes, f)
    ensures AheadOf(nodes, f, PlacesOf(ops))
    ensures forall x: Id :: x in PlacesOf(ops) && x in f ==> exists op :: op in ops && op.Move? && op.id == x
  {
    PlacesAre(ops);
    hide OnceEach, PlacesOf;
    forall x: Id | x in PlacesOf(ops) && x in f
      ensures !f[x].managed && exists i :: 0 <= i < |nodes| && nodes[i].o == x && nodes[i].x == PlacesOf(ops)[x]
      ensures exists op :: op in ops && op.Move? && op.id == x
    {
      assert x in PutBy(ops);
      var op :| op in ops && Puts(op) && op.id == x;
      assert FromPhases(op, nodes, f);
    }
  }

  lemma AheadAreThePoints(nodes: seq<PointNode>, f: Forest, places: Moves.Positions)
    requires ValidNodes(nodes) && AheadOf(nodes, f, places)
    ensures forall x: Id :: x in f && x in places ==> x in PointIds(nodes) && x in PointForest(nodes) && !f[x].managed
  {
    forall x: Id | x in f && x in places ensures x in PointIds(nodes) && x in PointForest(nodes) && !f[x].managed {
      var i :| 0 <= i < |nodes| && nodes[i].o == x && nodes[i].x == places[x];
      assert nodes[i] in nodes;
    }
  }

  lemma NotedAt(nodes: seq<PointNode>, f: Forest, g: Forest, mode: Mode, x: Id)
    requires (x in g <==> x in f) && (x in f ==> g[x] == f[x].(position := g[x].position))
    requires x in f && g[x] != f[x] ==> x in PointForest(nodes) && !f[x].managed
    ensures Stays(nodes, f, mode, x) <==> Stays(nodes, g, mode, x)
    ensures x in PointForest(nodes) || x in f ==> Restored(nodes, f, x) == Restored(nodes, g, x)
  {
    hide PointForest;
  }

  lemma SameTarget(nodes: seq<PointNode>, f: Forest, g: Forest, mode: Mode)
    requires f.Keys == g.Keys && forall x: Id :: Stays(nodes, f, mode, x) <==> Stays(nodes, g, mode, x)
    requires forall x: Id :: x in PointForest(nodes) || x in f ==> Restored(nodes, f, x) == Restored(nodes, g, x)
    ensures Target(nodes, f, mode) == Target(nodes, g, mode)
  {
    hide PointForest, Stays, Restored;
  }

  lemma NotedSame(nodes: seq<PointNode>, f: Forest, mode: Mode, places: Moves.Positions)
    requires ValidNodes(nodes) && AheadOf(nodes, f, places)
    ensures Target(nodes, Noted(f, places), mode) == Target(nodes, f, mode)
    ensures forall x :: x !in PointIds(nodes) ==> SameAt(f, Noted(f, places), x)
  {
    AheadAreThePoints(nodes, f, places);
    hide ValidNodes, AheadOf, PointForest, PointIds, Stays, Restored, Target;
    var g := Noted(f, places);
    forall x: Id
      ensures Stays(nodes, f, mode, x) <==> Stays(nodes, g, mode, x)
      ensures x in PointForest(nodes) || x in f ==> Restored(nodes, f, x) == Restored(nodes, g, x)
    {
      NotedAt(nodes, f, g, mode, x);
    }
    SameTarget(nodes, f, g, mode);
  }

  lemma {:induction false} UnderNoted(f: Forest, places: Moves.Positions, x: Id, n: nat)
    requires GroundedIn(f, x, n)
    ensures GroundedIn(Noted(f, places), x, n)
    decreases n
  {
    if n > 0 && !IsRoot(x) { UnderNoted(f, places, f[x].parent, n - 1); }
  }

  lemma NotedCompatible(nodes: seq<PointNode>, f: Forest, places: Moves.Positions)
    requires Compatible(nodes, f)
    ensures Compatible(nodes, Noted(f, places))
  {
    var g := Noted(f, places);
    forall x | x in g ensures Grounded(g, x) {
      var n: nat :| GroundedIn(f, x, n);
      UnderNoted(f, places, x, n);
    }
    hide ValidNodes;
    assert WellFormed(g);
  }

  lemma WithoutOne(op: Op, lost: set<Id>)
    ensures WithoutMoves([op], lost) == if op.Move? && op.id in lost then [] else [op]
  {
    assert [op][..0] == [];
  }

  /** What is still planned for a node once its position is recorded. */
  lemma NotedOps(ph: Phase, n: PointNode, f: Forest, places: Moves.Positions, lost: set<Id>, c: Cover)
    requires n.o in c.covered && (n.o in places && n.o in f ==> places[n.o] == n.x && !f[n.o].managed)
    requires n.o in lost <==> n.o in places && n.o in f && f[n.o].parent == n.p
    ensures OpsFor(ph, n, Noted(f, places), c) == WithoutMoves(OpsFor(ph, n, f, c), lost)
  {
    var before := OpsFor(ph, n, f, c);
    if before != [] {
      WithoutOne(before[0], lost);
      assert before == [before[0]];
    }
    hide WithoutMoves;
  }

  lemma {:induction false} NotedPhase(ph: Phase, nodes: seq<PointNode>, f: Forest, places: Moves.Positions,
      lost: set<Id>, c: Cover)
    requires forall n :: n in nodes ==>
      && n.o in c.covered && (n.o in places && n.o in f ==> places[n.o] == n.x && !f[n.o].managed)
      && (n.o in lost <==> n.o in places && n.o in f && f[n.o].parent == n.p)
    ensures PhaseOps(ph, nodes, Noted(f, places), c) == WithoutMoves(PhaseOps(ph, nodes, f, c), lost)
  {
    if nodes != [] {
      var i := |nodes| - 1;
      var n := nodes[i];
      assert n in nodes && nodes[..i + 1] == nodes && forall m :: m in nodes[..i] ==> m in nodes;
      PhaseExtend(ph, nodes, i, f, c);
      PhaseExtend(ph, nodes, i, Noted(f, places), c);
      hide PhaseOps, OpsFor, WithoutMoves, Noted;
      NotedPhase(ph, nodes[..i], f, places, lost, c);
      NotedOps(ph, n, f, places, lost, c);
      WithoutMovesApart(PhaseOps(ph, nodes[..i], f, c), OpsFor(ph, n, f, c), lost);
    }
  }

  lemma NodesAhead(nodes: seq<PointNode>, f: Forest, places: Moves.Positions)
    requires ValidNodes(nodes) && AheadOf(nodes, f, places)
    ensures forall n :: n in nodes && n.o in places && n.o in f ==> places[n.o] == n.x && !f[n.o].managed
  {
    forall n | n in nodes && n.o in places && n.o in f ensures places[n.o] == n.x && !f[n.o].managed {
      var i :| 0 <= i < |nodes| && nodes[i] == n;
      var j :| 0 <= j < |nodes| && nodes[j].o == n.o && nodes[j].x == places[n.o];
      assert i == j;
    }
  }

  lemma NotedEdits(nodes: seq<PointNode>, f: Forest, places: Moves.Positions, lost: set<Id>)
    requires ValidNodes(nodes) && AheadOf(nodes, f, places)
    requires forall n :: n in nodes ==> (n.o in lost <==> n.o in places && n.o in f && f[n.o].parent == n.p)
    ensures Edits(nodes, Noted(f, places)) == WithoutMoves(Edits(nodes, f), lost)
  {
    var c := Everything(nodes);
    NodesAhead(nodes, f, places);
    assert forall n :: n in nodes ==> n.o in c.covered;
    hide ValidNodes, AheadOf, Noted, PhaseOps, WithoutMoves;
    NotedPhase(Restoring, nodes, f, places, lost, c);
    NotedPhase(Updating, nodes, f, places, lost, c);
    NotedPhase(Moving, nodes, f, places, lost, c);
    var r, u, m := PhaseOps(Restoring, nodes, f, c), PhaseOps(Updating, nodes, f, c), PhaseOps(Moving, nodes, f, c);
    WithoutMovesApart(r + u, m, lost);
    WithoutMovesApart(r, u, lost);
  }

  lemma NodeIs(nodes: seq<PointNode>, f: Forest, op: Op, n: PointNode)
    requires ValidNodes(nodes) && op.Move? && FromPhases(op, nodes, f) && n in nodes && n.o == op.id
    ensures op.parent == n.p
  {
    var i :| 0 <= i < |nodes| && ForNode(Moving, op, nodes[i], f);
    var j :| 0 <= j < |nodes| && nodes[j] == n;
    assert i == j;
  }

  /** The moves of `ops` that are lost are those of the point's nodes recorded ahead
      that already stand in their folders. */
  lemma LostAre(nodes: seq<PointNode>, f: Forest, ops: seq<Op>)
    requires OnceEach(ops) && ValidNodes(nodes) && forall op :: op in ops ==> FromPhases(op, nodes, f)
    ensures forall n :: n in nodes ==>
      (n.o in LostMoves(f, ops) <==> n.o in PlacesOf(ops) && n.o in f && f[n.o].parent == n.p)
  {
    PlacesAre(ops);
    PlacesAhead(nodes, f, ops);
    hide OnceEach, PlacesOf;
    forall n | n in nodes ensures n.o in LostMoves(f, ops) <==>
      n.o in PlacesOf(ops) && n.o in f && f[n.o].parent == n.p {
      if n.o in LostMoves(f, ops) {
        var op :| op in ops && op.Move? && op.id == n.o && n.o in f && f[n.o].parent == op.parent;
        assert n.o in PutBy(ops);
        hide FromPhases, ValidNodes;
        NodeIs(nodes, f, op, n);
      }
      if n.o in PlacesOf(ops) && n.o in f && f[n.o].parent == n.p {
        var op :| op in ops && op.Move? && op.id == n.o;
        hide FromPhases, ValidNodes;
        NodeIs(nodes, f, op, n);
      }
    }
  }

  lemma NotedPlan(nodes: seq<PointNode>, f: Forest, mode: Mode, ops: seq<Op>, places: Moves.Positions, lost: set<Id>)
    requires ValidNodes(nodes) && AheadOf(nodes, f, places) && IsPlan(nodes, f, mode, ops)
    requires forall n :: n in nodes ==> (n.o in lost <==> n.o in places && n.o in f && f[n.o].parent == n.p)
    ensures IsPlan(nodes, Noted(f, places), mode, WithoutMoves(ops, lost))
  {
    var e, g := Edits(nodes, f), Noted(f, places);
    var ds := ops[|e|..];
    assert ops == e + ds;
    NotedEdits(nodes, f, places, lost);
    NotedSame(nodes, f, mode, places);
    assert forall op :: op in ds ==> op.Delete?;
    hide ValidNodes, AheadOf, Noted, Edits, WithoutMoves, TopmostSurplus;
    SurplusSame(nodes, f, g, mode, ds);
    hide DeletesAll;
    WithoutMovesApart(e, ds, lost);
    NoMovesWithout(ds, lost);
    assert WithoutMoves(ops, lost)[|Edits(nodes, g)|..] == ds;
  }

  lemma {:induction false} LostCount(ops: seq<Op>, lost: set<Id>)
    requires OnceEach(ops) && forall x :: x in lost ==> exists op :: op in ops && op.Move? && op.id == x
    ensures |WithoutMoves(ops, lost)| + |lost| == |ops|
  {
    if ops == [] {
      assert lost == {};
    } else {
      var n := |ops| - 1;
      var last := ops[n];
      SliceShapeButLast(ops);
      LastApart(ops);
      assert ops == ops[..n] + [last];
      var before := if last.Move? && last.id in lost then lost - {last.id} else lost;
      hide OnceEach;
      forall x | x in before ensures exists op :: op in ops[..n] && op.Move? && op.id == x {
        var op :| op in ops && op.Move? && op.id == x;
        assert op != last;
      }
      LostCount(ops[..n], before);
      if last.Move? && last.id in lost { AlreadyWithout(ops[..n], lost, last.id); }
    }
  }

  lemma {:induction false} AlreadyWithout(ops: seq<Op>, lost: set<Id>, x: Id)
    requires forall op :: op in ops && op.Move? ==> op.id != x
    ensures WithoutMoves(ops, lost - {x}) == WithoutMoves(ops, lost)
  {
    if ops != [] {
      assert ops[|ops| - 1] in ops && forall op :: op in ops[..|ops| - 1] ==> op in ops;
      AlreadyWithout(ops[..|ops| - 1], lost, x);
    }
  }

  lemma AheadFromPhases(nodes: seq<PointNode>, f: Forest, ops: seq<Op>, n: nat)
    requires n <= |ops| && InPhases(ops) && OnceEach(ops) && forall op :: op in ops ==> FromPhases(op, nodes, f)
    ensures OnceEach(ops[..n]) && forall op :: op in ops[..n] ==> FromPhases(op, nodes, f)
  {
    SliceShape(ops, n);
    hide FromPhases, InPhases, OnceEach;
    assert forall op :: op in ops[..n] ==> op in ops;
  }

  lemma LostApart(ops: seq<Op>, lost: set<Id>)
    requires OnceEach(ops) && forall x :: x in lost ==> exists op :: op in ops && op.Move? && op.id == x
    ensures PutBy(WithoutMoves(ops, lost)) !! lost
  {
    WithoutMovesAre(ops, lost);
    forall x | x in PutBy(WithoutMoves(ops, lost)) ensures x !in lost {
      var o :| o in WithoutMoves(ops, lost) && Puts(o) && o.id == x;
      assert forall op :: op in ops && op.Move? && o.Restore? ==> op.id != o.id;
    }
  }

  lemma LostCountAhead(f: Forest, ops: seq<Op>, n: nat)
    requires n <= |ops| && OnceEach(ops)
    ensures var lost := LostMoves(f, ops[..n]);
      |WithoutMoves(ops, lost)| + |lost| == |ops| && PutBy(WithoutMoves(ops, lost)) !! lost
  {
    var lost := LostMoves(f, ops[..n]);
    forall x | x in lost ensures exists op :: op in ops && op.Move? && op.id == x {
      var op :| op in ops[..n] && op.Move? && op.id == x;
    }
    LostApart(ops, lost);
    hide LostMoves, OnceEach, WithoutMoves, PutBy;
    LostCount(ops, lost);
  }

  lemma NotedLeaves(nodes: seq<PointNode>, f: Forest, mode: Mode, ops: seq<Op>, n: nat)
    requires Compatible(nodes, f) && IsPlan(nodes, f, mode, ops) && n <= |ops|
    ensures var h, lost := Noted(f, PlacesOf(ops[..n])), LostMoves(f, ops[..n]);
      && Compatible(nodes, h) && Target(nodes, h, mode) == Target(nodes, f, mode)
      && IsPlan(nodes, h, mode, WithoutMoves(ops, lost)) && |WithoutMoves(ops, lost)| + |lost| == |ops|
      && PutBy(WithoutMoves(ops, lost)) !! lost
  {
    assert ValidNodes(nodes);
    hide Compatible, IsPlan, Target, ValidNodes, PlacesOf, PutBy, Noted, FromPhases, InPhases, OnceEach, LostMoves,
      WithoutMoves, AheadOf;
    var places, lost := PlacesOf(ops[..n]), LostMoves(f, ops[..n]);
    PlanShape(nodes, f, mode, ops);
    AheadFromPhases(nodes, f, ops, n);
    PlacesAhead(nodes, f, ops[..n]);
    LostAre(nodes, f, ops[..n]);
    NotedCompatible(nodes, f, places);
    NotedSame(nodes, f, mode, places);
    NotedPlan(nodes, f, mode, ops, places, lost);
    LostCountAhead(f, ops, n);
  }

  /** A restore cut short can be resumed: the target is what it was, and what is left
      of the plan is planned again, except for the moves within a folder that were
      recorded and not made. Those nodes are never put in their places. */
  lemma CutShortLeaves(nodes: seq<PointNode>, f: Forest, mode: Mode, ops: seq<Op>, made: nat, recorded: nat)
    requires Compatible(nodes, f) && IsPlan(nodes, f, mode, ops) && made <= recorded <= |ops|
    ensures CanApplyAll(f, ops[..made])
    ensures var g, h := ApplyAll(f, ops[..made]), CutShort(f, ops, made, recorded);
      var lost := LostMoves(g, ops[made..recorded]);
      && Compatible(nodes, h) && Target(nodes, h, mode) == Target(nodes, f, mode)
      && IsPlan(nodes, h, mode, WithoutMoves(ops[made..], lost))
      && |WithoutMoves(ops[made..], lost)| + |lost| == |ops| - made
      && PutBy(WithoutMoves(ops[made..], lost)) !! lost
  {
    hide Compatible, IsPlan, Target, PlacesOf, PutBy, Noted, LostMoves, WithoutMoves;
    RunPrefix(nodes, f, mode, ops, made);
    assert ops[made..recorded] == ops[made..][..recorded - made];
    NotedLeaves(nodes, ApplyAll(f, ops[..made]), mode, ops[made..], recorded - made);
  }
}
