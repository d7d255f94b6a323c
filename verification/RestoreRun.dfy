// A planned restore as it is carried out in the browser: slice by slice, each with its
// own batch of moves, and the placement of re-created nodes at the end of a slice.
module RestoreRun {
  import opened Wrappers
  import opened Keys
  import opened Flatten
  import opened BookmarkForest
  import opened Planner
  import opened Restore
  import opened PartialScope
  import Siblings
  import Moves = MoveBatch
  import Order = MoveOrder
  import Run = MoveRun

  const RESTORE_CHUNK_SIZE := 500

  // --- The order of a plan's operations ---

  function Rank(op: Op): (rank: nat)
    ensures rank <= 3
  {
    match op
    case Restore(_, _, _, _, _, _) => 0
    case Update(_, _, _, _) => 1
    case Move(_, _, _, _) => 2
    case Delete(_, _) => 3
  }

  /** Restores, then updates, then moves, then deletions. */
  ghost predicate InPhases(ops: seq<Op>)
  {
    forall i, j :: 0 <= i < j < |ops| ==> Rank(ops[i]) <= Rank(ops[j])
  }

  /** The operations of one rank. */
  function Only(ops: seq<Op>, rank: nat): (r: seq<Op>)
    ensures forall op :: op in r <==> op in ops && Rank(op) == rank
  {
    if ops == [] then [] else (if Rank(ops[0]) == rank then [ops[0]] else []) + Only(ops[1..], rank)
  }

  lemma {:induction false} OnlyNone(ops: seq<Op>, rank: nat)
    requires forall op :: op in ops ==> Rank(op) != rank
    ensures Only(ops, rank) == []
  {
    if ops != [] {
      assert ops[0] in ops && forall op :: op in ops[1..] ==> op in ops;
      OnlyNone(ops[1..], rank);
    }
  }

  lemma RestInPhases(ops: seq<Op>)
    requires InPhases(ops) && ops != []
    ensures InPhases(ops[1..])
    ensures Rank(ops[0]) > 0 ==> Only(ops[1..], 0) == []
    ensures Rank(ops[0]) > 1 ==> Only(ops[1..], 1) == []
    ensures Rank(ops[0]) > 2 ==> Only(ops[1..], 2) == []
  {
    var rest, k := ops[1..], Rank(ops[0]);
    assert forall i :: 0 <= i < |rest| ==> rest[i] == ops[i + 1];
    forall op | op in rest ensures Rank(op) >= k { var i :| 0 <= i < |rest| && rest[i] == op; }
    hide Rank, InPhases, Only;
    if k > 0 { OnlyNone(rest, 0); }
    if k > 1 { OnlyNone(rest, 1); }
    if k > 2 { OnlyNone(rest, 2); }
  }

  /** Sorted by rank, a list is its ranks one after the other. */
  lemma {:induction false} PhasesApart(ops: seq<Op>)
    requires InPhases(ops)
    ensures ops == Only(ops, 0) + Only(ops, 1) + Only(ops, 2) + Only(ops, 3)
  {
    if ops != [] {
      var rest, k := ops[1..], Rank(ops[0]);
      hide InPhases, Rank, Only;
      RestInPhases(ops);
      PhasesApart(rest);
      OnlyFirst(ops, 0);
      OnlyFirst(ops, 1);
      OnlyFirst(ops, 2);
      OnlyFirst(ops, 3);
      FrontInto([ops[0]], k, Only(rest, 0), Only(rest, 1), Only(rest, 2), Only(rest, 3));
      assert ops == [ops[0]] + rest;
    }
  }

  lemma FrontInto(h: seq<Op>, k: nat, a: seq<Op>, b: seq<Op>, c: seq<Op>, d: seq<Op>)
    requires k <= 3 && (k > 0 ==> a == []) && (k > 1 ==> b == []) && (k > 2 ==> c == [])
    ensures h + (a + b + c + d) ==
      (if k == 0 then h + a else a) + (if k == 1 then h + b else b) + (if k == 2 then h + c else c) + (if k == 3
        then h + d else d)
  {
  }

  lemma OnlyFirst(ops: seq<Op>, rank: nat)
    requires ops != []
    ensures Only(ops, rank) == if Rank(ops[0]) == rank then [ops[0]] + Only(ops[1..], rank) else Only(ops[1..], rank)
  {
    assert [] + Only(ops[1..], rank) == Only(ops[1..], rank);
  }

  /** A restore or move puts its node where the point has it. */
  predicate Puts(op: Op)
  {
    op.Restore? || op.Move?
  }

  function PlaceOf(op: Op): Key
    requires Puts(op)
  {
    op.position
  }

  /** No node is put twice, none that is re-created is edited too, and none that is
      put is deleted. */
  ghost predicate OnceEach(ops: seq<Op>)
  {
    && (forall i, j :: 0 <= i < j < |ops| && Puts(ops[i]) && Puts(ops[j]) ==> ops[i].id != ops[j].id)
    && (forall i, j :: 0 <= i < |ops| && 0 <= j < |ops| && ops[i].Restore? && ops[j].Update? ==> ops[i].id != ops[j].id)
    && (forall i, j :: 0 <= i < |ops| && 0 <= j < |ops| && Puts(ops[i]) && ops[j].Delete? ==> ops[i].id != ops[j].id)
    && (forall i :: 0 <= i < |ops| && Puts(ops[i]) ==> PlaceOf(ops[i]) != [])
  }

  lemma SliceShape(ops: seq<Op>, k: nat)
    requires k <= |ops| && InPhases(ops) && OnceEach(ops)
    ensures InPhases(ops[..k]) && OnceEach(ops[..k]) && InPhases(ops[k..]) && OnceEach(ops[k..])
  {
  }

  /** The nodes that operations put in their places. */
  function PutBy(ops: seq<Op>): set<Id>
  {
    set op | op in ops && Puts(op) :: op.id
  }

  lemma PutApart(ops: seq<Op>, k: nat)
    requires k <= |ops| && OnceEach(ops)
    ensures PutBy(ops) == PutBy(ops[..k]) + PutBy(ops[k..]) && PutBy(ops[..k]) !! PutBy(ops[k..])
  {
    assert ops == ops[..k] + ops[k..];
    forall x | x in PutBy(ops[..k]) ensures x !in PutBy(ops[k..]) {
      var op :| op in ops[..k] && Puts(op) && op.id == x;
      var i :| 0 <= i < k && ops[i] == op;
      forall m | m in ops[k..] && Puts(m) ensures m.id != x {
        var j :| 0 <= j < |ops[k..]| && ops[k..][j] == m;
        assert ops[k + j] == m;
      }
    }
  }

  // --- A plan has that order ---

  /** One phase: operations of one rank, each for a node of the point of its own. */
  ghost predicate OfPhase(ph: Phase, ops: seq<Op>, nodes: seq<PointNode>, f: Forest)
  {
    && (forall k :: 0 <= k < |ops| ==> exists i :: 0 <= i < |nodes| && ForNode(ph, ops[k], nodes[i], f))
    && (forall j, k :: 0 <= j < k < |ops| ==> ops[j].id != ops[k].id)
  }

  ghost predicate ForNode(ph: Phase, op: Op, n: PointNode, f: Forest)
  {
    && op.id == n.o
    && match ph
       case Restoring => op.Restore? && op.position == n.x && n.o !in f
       case Updating => op.Update? && n.o in f
       case Moving => op.Move? && op.parent == n.p && op.position == n.x && n.o in f && !f[n.o].managed
  }

  lemma {:induction false} PhaseIs(ph: Phase, nodes: seq<PointNode>, f: Forest, c: Cover)
    requires forall i, j :: 0 <= i < j < |nodes| ==> nodes[i].o != nodes[j].o
    ensures OfPhase(ph, PhaseOps(ph, nodes, f, c), nodes, f)
  {
    if nodes != [] {
      var n := |nodes| - 1;
      PhaseIs(ph, nodes[..n], f, c);
      PhaseExtend(ph, nodes, n, f, c);
      assert nodes[..n + 1] == nodes;
      var before, ops := PhaseOps(ph, nodes[..n], f, c), PhaseOps(ph, nodes, f, c);
      forall k | 0 <= k < |ops| ensures exists i :: 0 <= i < |nodes| && ForNode(ph, ops[k], nodes[i], f) {
        if k < |before| {
          var i :| 0 <= i < n && ForNode(ph, before[k], nodes[..n][i], f);
          assert ForNode(ph, ops[k], nodes[i], f);
        } else {
          assert ForNode(ph, ops[k], nodes[n], f);
        }
      }
      forall j, k | 0 <= j < k < |ops| ensures ops[j].id != ops[k].id {
        var i :| 0 <= i < n && ForNode(ph, before[j], nodes[..n][i], f);
      }
    }
  }

  /** What of a plan is a restore, update or move comes from its phase. */
  ghost predicate FromPhases(op: Op, nodes: seq<PointNode>, f: Forest)
  {
    match op
    case Restore(_, _, _, _, _, _) => exists i :: 0 <= i < |nodes| && ForNode(Restoring, op, nodes[i], f)
    case Update(_, _, _, _) => exists i :: 0 <= i < |nodes| && ForNode(Updating, op, nodes[i], f)
    case Move(_, _, _, _) => exists i :: 0 <= i < |nodes| && ForNode(Moving, op, nodes[i], f)
    case Delete(id, _) => id in f && id !in PointIds(nodes) && !f[id].managed
  }

  lemma PlanShape(nodes: seq<PointNode>, f: Forest, mode: Mode, ops: seq<Op>)
    requires ValidNodes(nodes) && IsPlan(nodes, f, mode, ops)
    ensures InPhases(ops) && OnceEach(ops)
    ensures forall op :: op in ops ==> FromPhases(op, nodes, f)
  {
    var c := Everything(nodes);
    var r, u, m := PhaseOps(Restoring, nodes, f, c), PhaseOps(Updating, nodes, f, c), PhaseOps(Moving, nodes, f, c);
    var ds := ops[|Edits(nodes, f)|..];
    PhaseIs(Restoring, nodes, f, c);
    PhaseIs(Updating, nodes, f, c);
    PhaseIs(Moving, nodes, f, c);
    assert ops == r + u + m + ds;
    DeletesSpare(nodes, f, mode, ds);
    hide PhaseOps, IsPlan, DeletesAll;
    ShapeOf(nodes, f, r, u, m, ds);
  }

  lemma DeletesSpare(nodes: seq<PointNode>, f: Forest, mode: Mode, ds: seq<Op>)
    requires DeletesAll(ds, f, TopmostSurplus(nodes, f, mode))
    ensures forall i :: 0 <= i < |ds| ==> ds[i].Delete? && FromPhases(ds[i], nodes, f)
  {
  }

  lemma ShapeOf(nodes: seq<PointNode>, f: Forest, r: seq<Op>, u: seq<Op>, m: seq<Op>, ds: seq<Op>)
    requires ValidNodes(nodes)
    requires OfPhase(Restoring, r, nodes, f) && OfPhase(Updating, u, nodes, f) && OfPhase(Moving, m, nodes, f)
    requires forall i :: 0 <= i < |ds| ==> ds[i].Delete? && FromPhases(ds[i], nodes, f)
    ensures InPhases(r + u + m + ds) && OnceEach(r + u + m + ds)
    ensures forall op :: op in r + u + m + ds ==> FromPhases(op, nodes, f)
  {
    var ops := r + u + m + ds;
    assert forall i :: 0 <= i < |nodes| ==> nodes[i].o in PointIds(nodes) && nodes[i].x != [] by {
      assert forall i :: 0 <= i < |nodes| ==> nodes[i] in nodes;
    }
    hide ValidNodes, PointIds;
    forall k | 0 <= k < |ops|
      ensures FromPhases(ops[k], nodes, f)
      ensures k < |r| <==> ops[k].Restore?
      ensures |r| <= k < |r| + |u| <==> ops[k].Update?
      ensures |r| + |u| <= k < |r| + |u| + |m| <==> ops[k].Move?
      ensures ops[k].Delete? ==> ops[k].id in f
      ensures !ops[k].Delete? ==> ops[k].id in PointIds(nodes) && (ops[k].Restore? <==> ops[k].id !in f)
      ensures Puts(ops[k]) ==> PlaceOf(ops[k]) != []
    {
      if k < |r| {
        assert ops[k] == r[k];
      } else if k < |r| + |u| {
        assert ops[k] == u[k - |r|];
      } else if k < |r| + |u| + |m| {
        assert ops[k] == m[k - |r| - |u|];
      } else {
        assert ops[k] == ds[k - |r| - |u| - |m|];
      }
    }
    PutOnce(r, u, m, ds);
  }

  lemma PutOnce(r: seq<Op>, u: seq<Op>, m: seq<Op>, ds: seq<Op>)
    requires forall j, k :: 0 <= j < k < |r| ==> r[j].id != r[k].id
    requires forall j, k :: 0 <= j < k < |m| ==> m[j].id != m[k].id
    requires var ops := r + u + m + ds; forall k :: 0 <= k < |ops| ==>
      (k < |r| <==> ops[k].Restore?) && (|r| + |u| <= k < |r| + |u| + |m| <==> ops[k].Move?)
    requires forall j, k :: 0 <= j < |r| && 0 <= k < |m| ==> r[j].id != m[k].id
    ensures var ops := r + u + m + ds;
      forall i, j :: 0 <= i < j < |ops| && Puts(ops[i]) && Puts(ops[j]) ==> ops[i].id != ops[j].id
  {
    var ops, n := r + u + m + ds, |r| + |u|;
    forall i, j | 0 <= i < j < |ops| && Puts(ops[i]) && Puts(ops[j]) ensures ops[i].id != ops[j].id {
      if i < |r| {
        assert ops[i] == r[i];
        if j < |r| { assert ops[j] == r[j]; } else { assert ops[j] == m[j - n]; }
      } else {
        assert ops[i] == m[i - n] && ops[j] == m[j - n];
      }
    }
  }
  // --- The browser's tree and the forest ---

  /** The browser's tree holds the nodes of the forest where the forest has them. */
  ghost predicate Mirrors(t: Moves.Tree, f: Forest)
  {
    && (forall p: Id :: p in t.children <==> IsRoot(p) || (p in f && f[p].kind.Folder?))
    && (forall p: Siblings.Id :: p in t.children ==> p >= 0)
    && (forall x: Id :: x in t.parentOf <==> x in f)
    && (forall x: Siblings.Id :: x in t.parentOf ==> x >= 0)
    && (forall x :: x in f ==> t.parentOf[x] == f[x].parent)
  }

  /** The positions recorded for the nodes of the forest. */
  function RecordedIn(f: Forest): Moves.Positions
  {
    map x | x in f && f[x].position.Some? && f[x].position.value != [] :: f[x].position.value
  }

  /** What is recorded is right for the nodes of the forest. */
  ghost predicate Records(recorded: Moves.Positions, f: Forest)
  {
    forall x :: x in f ==>
      (x in recorded <==> x in RecordedIn(f)) && (x in recorded ==> recorded[x] == RecordedIn(f)[x])
  }

  lemma {:induction false} InsideIsUnder(t: Moves.Tree, f: Forest, x: Id, d: Id, n: nat)
    requires Mirrors(t, f) && Moves.Inside(t, x, d, n)
    ensures UnderIn(f, x, d, n)
    decreases n
  {
    if x != d { InsideIsUnder(t, f, f[x].parent, d, n - 1); }
  }

  /** A move that the forest allows is one that the browser takes. */
  lemma TakesMove(t: Moves.Tree, f: Forest, op: Op)
    requires Moves.WellFormed(t) && Mirrors(t, f) && op.Move? && CanApply(f, op)
    ensures Moves.CanMove(t, op.id, op.parent)
  {
    if Moves.Inside(t, op.parent, op.id, |t.parentOf|) { InsideIsUnder(t, f, op.parent, op.id, |t.parentOf|); }
  }

  // --- The stages of a slice ---

  function MoveOf(op: Op): Moves.RemoteMove
    requires Puts(op)
  {
    Moves.RemoteMove(Some(op.id), Some(op.parent), op.position)
  }

  function MovesOf(ops: seq<Op>): (moves: seq<Moves.RemoteMove>)
    requires forall op :: op in ops ==> Puts(op)
    ensures |moves| == |ops| && forall i :: 0 <= i < |ops| ==> moves[i] == MoveOf(ops[i])
  {
    seq(|ops|, i requires 0 <= i < |ops| => MoveOf(ops[i]))
  }

  /** The positions that operations record. */
  function PlacesOf(ops: seq<Op>): Moves.Positions
  {
    if ops == [] then map[]
    else
      var rest, last := PlacesOf(ops[..|ops| - 1]), ops[|ops| - 1];
      if Puts(last) then rest[last.id := last.position] else rest
  }

  function CreateOf(op: Op): Run.Stage
    requires op.Restore?
  {
    Run.Create(op.id, op.parent, op.kind.Folder?)
  }

  function CreatesOf(ops: seq<Op>): seq<Run.Stage>
    requires forall op :: op in ops ==> op.Restore?
  {
    if ops == [] then [] else [CreateOf(ops[0])] + CreatesOf(ops[1..])
  }

  /** What the deletions of a slice take away. */
  ghost function GoneWith(f: Forest, slice: seq<Op>): set<Id>
    requires CanApplyAll(f, slice)
  {
    f.Keys - ApplyAll(f, slice).Keys
  }

  /** A slice: everything it records, the new nodes, the moves together, the
      deletions, and then the new nodes' places together. */
  ghost function StagesOf(f: Forest, slice: seq<Op>): seq<Run.Stage>
    requires CanApplyAll(f, slice)
  {
    [Run.Record(PlacesOf(slice))] + CreatesOf(Only(slice, 0))
    + [Run.Batch(MovesOf(Only(slice, 2))), Run.Remove(GoneWith(f, slice)), Run.Batch(MovesOf(Only(slice, 0)))]
  }

  function SliceLength(ops: seq<Op>): (n: nat)
    ensures n <= |ops| && (ops != [] ==> n > 0)
  {
    if |ops| <= RESTORE_CHUNK_SIZE then |ops| else RESTORE_CHUNK_SIZE
  }

  /** The whole restore, slice by slice. */
  ghost function RunOf(f: Forest, ops: seq<Op>): seq<Run.Stage>
    requires CanApplyAll(f, ops)
    decreases |ops|
  {
    if ops == [] then []
    else
      var k := SliceLength(ops);
      ApplySplit(f, ops, k);
      StagesOf(f, ops[..k]) + RunOf(ApplyAll(f, ops[..k]), ops[k..])
  }

  // --- Stages one after the other ---

  lemma {:induction false} ReadyApart(s: Run.Site, a: seq<Run.Stage>, b: seq<Run.Stage>)
    requires Run.AllReady(s, a) && Run.AllReady(Run.End(s, a), b)
    ensures Run.AllReady(s, a + b) && Run.End(s, a + b) == Run.End(Run.End(s, a), b)
    ensures Run.SparesAll(s, a) && Run.SparesAll(Run.End(s, a), b) ==> Run.SparesAll(s, a + b)
    decreases |a|
  {
    if a == [] {
      assert a + b == b;
    } else {
      assert (a + b)[0] == a[0] && (a + b)[1..] == a[1..] + b;
      hide Run.Ready, Run.Spares;
      ReadyApart(Run.After(s, a[0]), a[1..], b);
    }
  }

  lemma OneStage(s: Run.Site, stage: Run.Stage)
    requires Run.Ready(s, stage)
    ensures Run.AllReady(s, [stage]) && Run.End(s, [stage]) == Run.After(s, stage)
    ensures Run.Spares(s, stage) ==> Run.SparesAll(s, [stage])
  {
    assert [stage][1..] == [];
    hide Run.Ready, Run.Spares;
    var next := Run.After(s, stage);
    assert Run.AllReady(next, []) && Run.End(next, []) == next && Run.SparesAll(next, []);
  }

  // --- The new nodes ---

  lemma CreateMirrors(s: Run.Site, f: Forest, op: Op)
    requires op.Restore? && CanApply(f, op) && Mirrors(s.tree, f) && op.id in s.out
    ensures Run.Ready(s, CreateOf(op)) && Run.Spares(s, CreateOf(op))
    ensures Mirrors(Run.After(s, CreateOf(op)).tree, Apply(f, op))
  {
  }

  lemma {:induction false} CreatesMirror(s: Run.Site, f: Forest, ops: seq<Op>)
    requires CanApplyAll(f, ops) && Mirrors(s.tree, f)
    requires forall op :: op in ops ==> op.Restore? && op.id in s.out
    ensures var e := ApplyAll(f, ops); var stages := CreatesOf(ops);
      && Run.AllReady(s, stages) && Run.SparesAll(s, stages)
      && var end := Run.End(s, stages); end == s.(tree := end.tree) && Mirrors(end.tree, e)
    decreases |ops|
  {
    if ops != [] {
      var op := ops[0];
      assert op in ops && forall o :: o in ops[1..] ==> o in ops;
      CreateMirrors(s, f, op);
      var stages := CreatesOf(ops);
      assert stages[0] == CreateOf(op) && stages[1..] == CreatesOf(ops[1..]);
      hide Run.Ready, Run.Spares, CanApply, Mirrors;
      CreatesMirror(Run.After(s, CreateOf(op)), Apply(f, op), ops[1..]);
    }
  }

  lemma {:induction false} UpdatesMirror(t: Moves.Tree, f: Forest, ops: seq<Op>)
    requires CanApplyAll(f, ops) && Mirrors(t, f) && forall op :: op in ops ==> op.Update?
    ensures Mirrors(t, ApplyAll(f, ops))
    decreases |ops|
  {
    if ops != [] {
      assert ops[0] in ops && forall o :: o in ops[1..] ==> o in ops;
      assert Mirrors(t, Apply(f, ops[0]));
      hide Mirrors, CanApply;
      UpdatesMirror(t, Apply(f, ops[0]), ops[1..]);
    }
  }

  // --- A batch of moves ---

  lemma MoveShape(l: Moves.Layout, id: Siblings.Id, parent: Siblings.Id, position: Key, known: Moves.Positions)
    requires Moves.SoundLayout(l) && Moves.CanMove(l.tree, id, parent)
    ensures var u := Moves.StepMove(l, id, parent, position, known).tree;
      u.children.Keys == l.tree.children.Keys && u.parentOf == l.tree.parentOf[id := parent]
  {
    assert Moves.WellFormed(l.tree) && Moves.CacheAgrees(l);
    hide Moves.StepMove, Moves.WellFormed, Siblings.Without, Siblings.InsertBefore, Moves.CacheAgrees,
      Moves.SoundLayout;
    Moves.StepKeepsCache(l, id, parent, position, known);
  }

  lemma MirrorsMoved(t: Moves.Tree, u: Moves.Tree, f: Forest, op: Op)
    requires Mirrors(t, f) && op.Move? && CanApply(f, op)
    requires u.children.Keys == t.children.Keys && u.parentOf == t.parentOf[op.id := op.parent]
    ensures Mirrors(u, Apply(f, op))
  {
  }

  lemma MoveMirrors(l: Moves.Layout, f: Forest, op: Op, known: Moves.Positions)
    requires Moves.SoundLayout(l) && Mirrors(l.tree, f) && op.Move? && CanApply(f, op)
    requires Moves.CanMove(l.tree, op.id, op.parent)
    ensures Mirrors(Moves.StepMove(l, op.id, op.parent, op.position, known).tree, Apply(f, op))
  {
    hide Moves.StepMove, Moves.SoundLayout, Moves.CanMove, Mirrors, CanApply;
    MoveShape(l, op.id, op.parent, op.position, known);
    MirrorsMoved(l.tree, Moves.StepMove(l, op.id, op.parent, op.position, known).tree, f, op);
  }

  /** Where the movers land. */
  function Landed(moves: seq<Moves.RemoteMove>): (placed: seq<Siblings.Sibling>)
    ensures |placed| == |moves|
    ensures forall i :: 0 <= i < |moves| && moves[i].mover.Some? ==>
      placed[i] == Siblings.Sibling(moves[i].mover.value, moves[i].position)
  {
    seq(|moves|, i requires 0 <= i < |moves| => Siblings.Sibling(if moves[i].mover.Some? then moves[i].mover.value
      else 0, moves[i].position))
  }

  lemma LandedApart(moves: seq<Moves.RemoteMove>)
    requires moves != []
    ensures Landed(moves) == Landed(moves[..1]) + Landed(moves[1..])
  {
  }

  lemma MoveIsMade(a: Moves.Applied, f: Forest, op: Op, known: Moves.Positions)
    requires Moves.SoundLayout(a.layout) && !a.failed && Mirrors(a.layout.tree, f) && op.Move? && CanApply(f, op)
    ensures var b := Moves.ApplyOne(a, MoveOf(op), known);
      && !b.failed && Moves.SoundLayout(b.layout) && Mirrors(b.layout.tree, Apply(f, op))
      && b.placed == a.placed + [Siblings.Sibling(op.id, op.position)]
  {
    TakesMove(a.layout.tree, f, op);
    MoveMirrors(a.layout, f, op, known);
    hide Moves.StepMove, Moves.WellFormed, Moves.SoundLayout, Mirrors, Moves.CanMove, Moves.CacheAgrees;
    Moves.ApplyOneKeeps(a, MoveOf(op), known);
  }

  lemma LandedStep(placed: seq<Siblings.Sibling>, moves: seq<Moves.RemoteMove>, op: Op)
    requires moves != [] && Puts(op) && moves[0] == MoveOf(op)
    ensures placed + [Siblings.Sibling(op.id, op.position)] + Landed(moves[1..]) == placed + Landed(moves)
  {
    LandedApart(moves);
    assert Landed(moves[..1]) == [Siblings.Sibling(op.id, op.position)];
  }

  lemma {:induction false} MovesAreMade(a: Moves.Applied, f: Forest, ops: seq<Op>, moves: seq<Moves.RemoteMove>,
      changes: seq<Option<Moves.Tree>>, known: Moves.Positions)
    requires |changes| == |moves| && Order.Undisturbed(changes) && Moves.SoundLayout(a.layout) && !a.failed
    requires Mirrors(a.layout.tree, f)
    requires CanApplyAll(f, ops) && (forall op :: op in ops ==> op.Move?) && moves == MovesOf(ops)
    ensures var r := Moves.ApplyMoves(a, moves, changes, known);
      !r.failed && r.placed == a.placed + Landed(moves) && Mirrors(r.layout.tree, ApplyAll(f, ops))
    decreases |ops|
  {
    if ops == [] {
      assert a.placed + Landed(moves) == a.placed;
    } else {
      hide Moves.ApplyOne, Moves.SoundLayout, Mirrors, Landed, CanApply, Moves.CanMove;
      var op := ops[0];
      assert op in ops && forall o :: o in ops[1..] ==> o in ops;
      assert changes[0] in changes && Moves.Observe(a.layout, changes[0]) == a.layout && a.(layout := a.layout) == a;
      assert forall c :: c in changes[1..] ==> c in changes;
      assert moves[0] == MoveOf(op) && moves[1..] == MovesOf(ops[1..]);
      MoveIsMade(a, f, op, known);
      var b := Moves.ApplyOne(a, moves[0], known);
      MovesAreMade(b, Apply(f, op), ops[1..], moves[1..], changes[1..], known);
      LandedStep(a.placed, moves, op);
    }
  }

  lemma LandedIds(moves: seq<Moves.RemoteMove>)
    requires forall m :: m in moves ==> m.mover.Some?
    ensures Order.IdsOf(Landed(moves)) == Moves.Movers(moves)
  {
    var placed := Landed(moves);
    forall i | 0 <= i < |moves| ensures moves[i].mover == Some(placed[i].id) { assert moves[i] in moves; }
    forall x | x in Order.IdsOf(placed) ensures x in Moves.Movers(moves) {
      var i :| 0 <= i < |placed| && placed[i].id == x;
      assert moves[i] in moves;
    }
    forall x | x in Moves.Movers(moves) ensures x in Order.IdsOf(placed) {
      var i :| 0 <= i < |moves| && moves[i].mover == Some(x);
      assert placed[i] in placed;
    }
  }

  lemma MoversAre(ops: seq<Op>)
    requires forall op :: op in ops ==> Puts(op)
    ensures Moves.Movers(MovesOf(ops)) == PutBy(ops)
    ensures OnceEach(ops) ==> Order.DistinctMovers(MovesOf(ops))
  {
    var moves := MovesOf(ops);
    forall x | x in PutBy(ops) ensures x in Moves.Movers(moves) {
      var op :| op in ops && op.id == x;
      var i :| 0 <= i < |ops| && ops[i] == op;
      assert moves[i] in moves;
    }
    forall x | x in Moves.Movers(moves) ensures x in PutBy(ops) {
      var m :| m in moves && m.mover == Some(x);
      var i :| 0 <= i < |moves| && moves[i] == m;
      assert ops[i] in ops;
    }
  }

  lemma BatchIsOfRecorded(s: Run.Site, ops: seq<Op>)
    requires OnceEach(ops) && PutBy(ops) <= s.out
    requires forall op :: op in ops ==> Puts(op) && op.id in s.recorded && s.recorded[op.id] == op.position
    ensures Run.OfRecorded(s, MovesOf(ops)) && Moves.Movers(MovesOf(ops)) == PutBy(ops)
    ensures forall m :: m in MovesOf(ops) ==> m.mover.Some?
  {
    var moves := MovesOf(ops);
    MoversAre(ops);
    hide OnceEach, PutBy, Moves.Movers, Order.DistinctMovers;
    forall m | m in moves
      ensures m.mover.Some? && m.parent.Some? && m.mover.value in s.recorded
      && s.recorded[m.mover.value] == m.position {
      var i :| 0 <= i < |moves| && moves[i] == m;
      assert ops[i] in ops;
    }
  }

  lemma QuietIsUndisturbed(n: nat)
    ensures Order.Undisturbed(Run.Quiet(n))
  {
  }

  /** `ops`, read as moves, make a batch. */
  lemma BatchMirrors(s: Run.Site, f: Forest, ops: seq<Op>, moved: seq<Op>)
    requires Run.Sound(s) && Mirrors(s.tree, f) && OnceEach(ops) && PutBy(ops) <= s.out
    requires forall op :: op in ops ==> Puts(op) && op.id in s.recorded && s.recorded[op.id] == op.position
    requires CanApplyAll(f, moved) && (forall op :: op in moved ==> op.Move?) && MovesOf(moved) == MovesOf(ops)
    ensures var stage := Run.Batch(MovesOf(ops));
      && Run.Ready(s, stage) && Run.Spares(s, stage)
      && var e := Run.After(s, stage);
        e == Run.Site(e.tree, s.recorded, s.out - PutBy(ops)) && Mirrors(e.tree, ApplyAll(f, moved))
  {
    var moves := MovesOf(ops);
    assert Moves.WellFormed(s.tree);
    hide Run.Sound, Moves.SoundLayout, Mirrors, Moves.WellFormed, OnceEach, PutBy, Run.OfRecorded;
    BatchIsOfRecorded(s, ops);
    hide Landed, Moves.Movers, MovesOf;
    Moves.StartsSound(s.tree, 0);
    QuietIsUndisturbed(|moves|);
    LandedIds(moves);
    MovesAreMade(Order.Start(s.tree, 0, {}), f, moved, moves, Run.Quiet(|moves|),
      Moves.EffectivePositions(s.recorded, moves));
    assert [] + Landed(moves) == Landed(moves);
  }

  // --- Deletions ---

  /** `g` is `f` without some subtrees. */
  ghost predicate Cut(f: Forest, g: Forest)
  {
    && (forall x :: x in g ==> x in f && g[x] == f[x])
    && (forall x :: x in g && f[x].parent in f ==> f[x].parent in g)
  }

  lemma DeleteCuts(f: Forest, op: Op)
    requires op.Delete? && CanApply(f, op)
    ensures Cut(f, Apply(f, op))
  {
    var g := Apply(f, op);
    forall x | x in g && f[x].parent in f ensures f[x].parent in g {
      if Under(f, f[x].parent, op.id) { UnderStep(f, x, op.id); }
    }
  }

  lemma {:induction false} DeletesCut(f: Forest, ops: seq<Op>)
    requires CanApplyAll(f, ops) && forall op :: op in ops ==> op.Delete?
    ensures Cut(f, ApplyAll(f, ops))
    decreases |ops|
  {
    if ops != [] {
      assert ops[0] in ops && forall o :: o in ops[1..] ==> o in ops;
      DeleteCuts(f, ops[0]);
      DeletesCut(Apply(f, ops[0]), ops[1..]);
    }
  }

  lemma RemoveMirrors(s: Run.Site, f: Forest, g: Forest, gone: set<Id>)
    requires Mirrors(s.tree, f) && Cut(f, g) && (forall x :: x in gone ==> !IsRoot(x))
    requires forall x :: x in f ==> !IsRoot(x) && (IsRoot(f[x].parent) || f[x].parent in f)
    requires forall x :: x in f ==> (x in gone <==> x !in g)
    ensures Run.Ready(s, Run.Remove(gone)) && Mirrors(Run.After(s, Run.Remove(gone)).tree, g)
  {
    hide Run.Kept;
  }

  // --- What operations leave of a node ---

  /** `op` has put its node in its place. */
  ghost predicate InPlace(g: Forest, op: Op)
    requires Puts(op)
  {
    op.id in g && g[op.id].parent == op.parent && g[op.id].position == Some(op.position) && !g[op.id].managed
  }

  lemma {:induction false} PutAfter(f: Forest, ops: seq<Op>, op: Op)
    requires CanApplyAll(f, ops) && OnceEach(ops) && op in ops && Puts(op) && op.id in ApplyAll(f, ops)
    ensures InPlace(ApplyAll(f, ops), op)
    decreases |ops|
  {
    SliceShapeRest(ops);
    if op in ops[1..] {
      PutAfter(Apply(f, ops[0]), ops[1..], op);
    } else {
      assert op == ops[0] && InPlace(Apply(f, op), op);
      forall o | o in ops[1..] && Puts(o) ensures o.id != op.id {
        var j :| 0 <= j < |ops[1..]| && ops[1..][j] == o;
        assert ops[j + 1] == o;
      }
      StaysPut(Apply(f, op), ops[1..], op.id);
    }
  }

  lemma SliceShapeRest(ops: seq<Op>)
    requires OnceEach(ops) && ops != []
    ensures OnceEach(ops[1..])
  {
  }

  /** Nothing but restores and moves changes a node's place. */
  lemma {:induction false} StaysPut(f: Forest, ops: seq<Op>, x: Id)
    requires CanApplyAll(f, ops) && x in ApplyAll(f, ops) && x !in PutBy(ops)
    ensures x in f
    ensures var n := ApplyAll(f, ops)[x];
      n.parent == f[x].parent && n.position == f[x].position && n.managed == f[x].managed
    decreases |ops|
  {
    if ops != [] {
      assert ops[0] in ops && forall o :: o in ops[1..] ==> o in ops;
      StaysPut(Apply(f, ops[0]), ops[1..], x);
    }
  }

  lemma {:induction false} NothingNew(f: Forest, ops: seq<Op>)
    requires CanApplyAll(f, ops)
    ensures ApplyAll(f, ops).Keys <= f.Keys + PutBy(ops)
    decreases |ops|
  {
    if ops != [] {
      assert ops[0] in ops && forall o :: o in ops[1..] ==> o in ops;
      NothingNew(Apply(f, ops[0]), ops[1..]);
      assert PutBy(ops[1..]) <= PutBy(ops);
      hide CanApply;
    }
  }

  // --- What is recorded ---

  lemma PutByOneMore(ops: seq<Op>)
    requires ops != []
    ensures var last := ops[|ops| - 1];
      PutBy(ops) == PutBy(ops[..|ops| - 1]) + if Puts(last) then {last.id} else {}
  {
    var n := |ops| - 1;
    assert ops == ops[..n] + [ops[n]];
    assert forall op :: op in ops <==> op in ops[..n] || op == ops[n];
  }

  lemma LastApart(ops: seq<Op>)
    requires OnceEach(ops) && ops != []
    ensures var n := |ops| - 1; forall op :: op in ops[..n] && Puts(op) && Puts(ops[n]) ==> op.id != ops[n].id
  {
    var n := |ops| - 1;
    forall op | op in ops[..n] && Puts(op) && Puts(ops[n]) ensures op.id != ops[n].id {
      var i :| 0 <= i < n && ops[..n][i] == op;
      assert ops[i] == op;
    }
  }

  lemma {:induction false} PlacesAre(ops: seq<Op>)
    requires OnceEach(ops)
    ensures PlacesOf(ops).Keys == PutBy(ops)
    ensures RecordsEach(ops, PlacesOf(ops))
  {
    if ops != [] {
      var n := |ops| - 1;
      SliceShapeButLast(ops);
      LastApart(ops);
      PutByOneMore(ops);
      PlacesAre(ops[..n]);
      hide OnceEach, PutBy, RecordsEach;
      PlacesStep(ops[..n], ops[n], PlacesOf(ops[..n]));
      assert ops == ops[..n] + [ops[n]];
    }
  }

  /** What is recorded for operations is what they say. */
  ghost predicate RecordsEach(ops: seq<Op>, places: Moves.Positions)
  {
    forall op :: op in ops && Puts(op) ==> op.id in places && places[op.id] == op.position
  }

  lemma PlacesStep(ops: seq<Op>, last: Op, places: Moves.Positions)
    requires RecordsEach(ops, places)
    requires forall op :: op in ops && Puts(op) && Puts(last) ==> op.id != last.id
    ensures RecordsEach(ops + [last], if Puts(last) then places[last.id := last.position] else places)
  {
  }

  lemma SliceShapeButLast(ops: seq<Op>)
    requires OnceEach(ops) && ops != []
    ensures OnceEach(ops[..|ops| - 1])
  {
  }

  lemma RecordsAfter(f: Forest, ops: seq<Op>, recorded: Moves.Positions)
    requires CanApplyAll(f, ops) && OnceEach(ops) && Records(recorded, f)
    ensures Records(recorded + PlacesOf(ops), ApplyAll(f, ops))
  {
    var g, r := ApplyAll(f, ops), recorded + PlacesOf(ops);
    PlacesAre(ops);
    forall x | x in g ensures (x in r <==> x in RecordedIn(g)) && (x in r ==> r[x] == RecordedIn(g)[x]) {
      if x in PutBy(ops) {
        var op :| op in ops && Puts(op) && op.id == x;
        var i :| 0 <= i < |ops| && ops[i] == op;
        assert op.position != [];
        hide OnceEach;
        PutAfter(f, ops, op);
      } else {
        StaysPut(f, ops, x);
      }
    }
  }

  // --- Putting the new nodes in their places ---

  function PlaceAgain(op: Op): Op
    requires op.Restore?
  {
    Move(op.id, op.kind, op.parent, op.position)
  }

  function PlacesAgain(ops: seq<Op>): (r: seq<Op>)
    requires forall op :: op in ops ==> op.Restore?
    ensures |r| == |ops| && forall i :: 0 <= i < |ops| ==> r[i] == PlaceAgain(ops[i])
  {
    seq(|ops|, i requires 0 <= i < |ops| => PlaceAgain(ops[i]))
  }

  lemma {:induction false} SelfParent(f: Forest, x: Id, n: nat)
    requires x in f && f[x].parent == x && !IsRoot(x)
    ensures !GroundedIn(f, x, n)
    decreases n
  {
    if n > 0 { SelfParent(f, x, n - 1); }
  }

  lemma NotInsideOwnChild(f: Forest, x: Id)
    requires WellFormed(f) && x in f
    ensures !Under(f, f[x].parent, x)
  {
    var p := f[x].parent;
    if IsRoot(p) {
      RootUnderNothing(f, p, x);
    } else if Under(f, p, x) {
      var n: nat :| UnderIn(f, p, x, n);
      var m: nat :| GroundedIn(f, p, m);
      UpFrom(f, p, x);
      NoCycle(f, p, x, n, m);
      SelfParent(f, x, m);
    }
  }

  lemma PlaceAgainApplies(g: Forest, op: Op)
    requires WellFormed(g) && op.Restore? && InPlace(g, op)
    ensures CanApply(g, PlaceAgain(op)) && Apply(g, PlaceAgain(op)) == g
  {
    NotInsideOwnChild(g, op.id);
    assert ValidParent(g, op.parent);
    hide WellFormed, Under;
  }

  lemma {:induction false} PlacesAgainApply(g: Forest, ops: seq<Op>)
    requires WellFormed(g) && forall op :: op in ops ==> op.Restore? && InPlace(g, op)
    ensures CanApplyAll(g, PlacesAgain(ops)) && ApplyAll(g, PlacesAgain(ops)) == g
    ensures MovesOf(PlacesAgain(ops)) == MovesOf(ops)
    decreases |ops|
  {
    if ops != [] {
      assert ops[0] in ops && forall o :: o in ops[1..] ==> o in ops;
      PlaceAgainApplies(g, ops[0]);
      hide WellFormed, CanApply;
      PlacesAgainApply(g, ops[1..]);
      assert PlacesAgain(ops)[0] == PlaceAgain(ops[0]) && PlacesAgain(ops)[1..] == PlacesAgain(ops[1..]);
    }
  }

  // --- A slice, stage by stage ---

  /** The forest after part of `ops`. */
  ghost predicate StaysWellFormed(f: Forest, ops: seq<Op>)
  {
    forall k :: 0 <= k <= |ops| ==> CanApplyAll(f, ops[..k]) && WellFormed(ApplyAll(f, ops[..k]))
  }

  lemma ApplyTwo(f: Forest, a: seq<Op>, b: seq<Op>)
    requires CanApplyAll(f, a + b)
    ensures CanApplyAll(f, a) && CanApplyAll(ApplyAll(f, a), b) && ApplyAll(ApplyAll(f, a), b) == ApplyAll(f, a + b)
  {
    ApplySplit(f, a + b, |a|);
    assert (a + b)[..|a|] == a && (a + b)[|a|..] == b;
  }

  lemma PartsApart(a: seq<Op>, b: seq<Op>)
    requires InPhases(a + b) && OnceEach(a + b)
    ensures InPhases(a) && OnceEach(a) && InPhases(b) && OnceEach(b)
    ensures PutBy(a + b) == PutBy(a) + PutBy(b) && PutBy(a) !! PutBy(b)
  {
    SliceShape(a + b, |a|);
    PutApart(a + b, |a|);
    assert (a + b)[..|a|] == a && (a + b)[|a|..] == b;
  }

  lemma NonePut(ops: seq<Op>)
    requires forall op :: op in ops ==> !Puts(op)
    ensures PutBy(ops) == {}
  {
  }

  /** A slice in its four phases. */
  ghost predicate Phased(slice: seq<Op>, r: seq<Op>, u: seq<Op>, m: seq<Op>, d: seq<Op>)
  {
    && slice == r + u + m + d
    && (forall op :: op in r ==> op.Restore?) && (forall op :: op in u ==> op.Update?)
    && (forall op :: op in m ==> op.Move?) && (forall op :: op in d ==> op.Delete?)
  }

  lemma SlicePhases(slice: seq<Op>)
    requires InPhases(slice)
    ensures Phased(slice, Only(slice, 0), Only(slice, 1), Only(slice, 2), Only(slice, 3))
  {
    PhasesApart(slice);
  }

  lemma PutByPhases(slice: seq<Op>, r: seq<Op>, u: seq<Op>, m: seq<Op>, d: seq<Op>)
    requires Phased(slice, r, u, m, d) && InPhases(slice) && OnceEach(slice)
    ensures OnceEach(r) && OnceEach(m) && PutBy(slice) == PutBy(r) + PutBy(m) && PutBy(r) !! PutBy(m)
    ensures PutBy(r + u + m) == PutBy(slice)
  {
    NonePut(u);
    NonePut(d);
    hide OnceEach, InPhases, PutBy;
    PartsApart(r + u + m, d);
    PartsApart(r + u, m);
    PartsApart(r, u);
  }

  /** The new nodes are at the ends of their folders and every position is recorded. */
  lemma SliceStarts(s: Run.Site, f: Forest, slice: seq<Op>, r: seq<Op>)
    requires Run.Sound(s) && Mirrors(s.tree, f) && OnceEach(slice) && PutBy(slice) <= s.out
    requires CanApplyAll(f, r) && (forall op :: op in r ==> op.Restore? && op in slice)
    ensures var stages := [Run.Record(PlacesOf(slice))] + CreatesOf(r);
      && Run.AllReady(s, stages) && Run.SparesAll(s, stages)
      && var e := Run.End(s, stages);
        e == Run.Site(e.tree, s.recorded + PlacesOf(slice), s.out) && Run.Sound(e) && Mirrors(e.tree, ApplyAll(f, r))
  {
    PlacesAre(slice);
    var record := Run.Record(PlacesOf(slice));
    RecordReady(s, slice);
    OneStage(s, record);
    var t := s.(recorded := s.recorded + PlacesOf(slice));
    assert Run.After(s, record) == t;
    assert forall op :: op in r ==> op.id in t.out by {
      assert forall op :: op in r ==> op.id in PutBy(slice);
    }
    hide Run.Ready, Run.Sound, Mirrors, OnceEach, PutBy, PlacesOf;
    CreatesMirror(t, f, r);
    ReadyApart(s, [record], CreatesOf(r));
    Run.RunKeepsSound(s, [record] + CreatesOf(r));
  }

  lemma RecordReady(s: Run.Site, slice: seq<Op>)
    requires OnceEach(slice) && PutBy(slice) <= s.out
    requires PlacesOf(slice).Keys == PutBy(slice) && RecordsEach(slice, PlacesOf(slice))
    ensures Run.Ready(s, Run.Record(PlacesOf(slice))) && Run.Spares(s, Run.Record(PlacesOf(slice)))
  {
    forall x | x in PlacesOf(slice) ensures PlacesOf(slice)[x] != [] {
      assert x in PutBy(slice);
      var op :| op in slice && Puts(op) && op.id == x;
      var i :| 0 <= i < |slice| && slice[i] == op;
      assert PlaceOf(slice[i]) != [];
      hide OnceEach, PutBy;
    }
  }

  lemma ThreeStages(s: Run.Site, a: Run.Stage, b: Run.Stage, c: Run.Stage)
    requires Run.Ready(s, a) && Run.Ready(Run.After(s, a), b) && Run.Ready(Run.After(Run.After(s, a), b), c)
    ensures Run.AllReady(s, [a, b, c]) && Run.End(s, [a, b, c]) == Run.After(Run.After(Run.After(s, a), b), c)
    ensures Run.Spares(s, a) && Run.Spares(Run.After(s, a), b) && Run.Spares(Run.After(Run.After(s, a), b), c)
      ==> Run.SparesAll(s, [a, b, c])
  {
    var t := Run.After(s, a);
    var u := Run.After(t, b);
    hide Run.Ready, Run.Spares;
    OneStage(s, a);
    OneStage(t, b);
    OneStage(u, c);
    hide Run.After;
    ReadyApart(t, [b], [c]);
    ReadyApart(s, [a], [b] + [c]);
    assert [a] + ([b] + [c]) == [a, b, c];
  }

  /** The moves of a slice, made together. */
  lemma SliceMoves(s: Run.Site, f: Forest, slice: seq<Op>, m: seq<Op>)
    requires Run.Sound(s) && Mirrors(s.tree, f) && OnceEach(slice) && OnceEach(m) && PutBy(m) <= s.out
    requires CanApplyAll(f, m) && (forall op :: op in m ==> op.Move? && op in slice) && RecordsEach(slice, s.recorded)
    ensures var stage := Run.Batch(MovesOf(m));
      && Run.Ready(s, stage) && Run.Spares(s, stage)
      && var e := Run.After(s, stage);
        e == Run.Site(e.tree, s.recorded, s.out - PutBy(m)) && Run.Sound(e) && Mirrors(e.tree, ApplyAll(f, m))
  {
    hide OnceEach, PutBy, Mirrors, Run.Sound;
    BatchMirrors(s, f, m, m);
    hide Run.Ready;
    Run.StageKeepsSound(s, Run.Batch(MovesOf(m)));
  }

  /** What a slice deletes is gone at once. */
  lemma SliceRemoves(s: Run.Site, f: Forest, g: Forest, ds: seq<Op>, gone: set<Id>)
    requires Run.Sound(s) && Mirrors(s.tree, f) && WellFormed(f) && CanApplyAll(f, ds) && g == ApplyAll(f, ds)
    requires (forall op :: op in ds ==> op.Delete?) && gone !! g.Keys && f.Keys - g.Keys <= gone
    requires (forall x :: x in gone ==> !IsRoot(x))
    ensures var stage := Run.Remove(gone);
      && Run.Ready(s, stage) && (gone <= s.out ==> Run.Spares(s, stage))
      && var e := Run.After(s, stage);
        e == Run.Site(e.tree, s.recorded, s.out) && Run.Sound(e) && Mirrors(e.tree, g)
  {
    hide Run.Sound, Mirrors;
    DeletesCut(f, ds);
    assert forall x :: x in f ==> !IsRoot(x) && (IsRoot(f[x].parent) || f[x].parent in f);
    hide WellFormed, CanApplyAll;
    RemoveMirrors(s, f, g, gone);
    hide Run.Ready;
    Run.StageKeepsSound(s, Run.Remove(gone));
  }

  /** The new nodes of a slice, put in their places together. */
  lemma SlicePlaces(s: Run.Site, g: Forest, slice: seq<Op>, r: seq<Op>)
    requires Run.Sound(s) && Mirrors(s.tree, g) && OnceEach(r) && PutBy(r) <= s.out && RecordsEach(slice, s.recorded)
    requires WellFormed(g) && (forall op :: op in r ==> op.Restore? && op in slice && InPlace(g, op))
    ensures var stage := Run.Batch(MovesOf(r));
      && Run.Ready(s, stage) && Run.Spares(s, stage)
      && var e := Run.After(s, stage);
        e == Run.Site(e.tree, s.recorded, s.out - PutBy(r)) && Run.Sound(e) && Mirrors(e.tree, g)
  {
    hide OnceEach, PutBy, Mirrors, Run.Sound, WellFormed;
    PlacesAgainApply(g, r);
    forall op | op in PlacesAgain(r) ensures op.Move? {
      var i :| 0 <= i < |r| && PlacesAgain(r)[i] == op;
      assert r[i] in r;
    }
    hide InPlace;
    BatchMirrors(s, g, r, PlacesAgain(r));
    hide Run.Ready;
    Run.StageKeepsSound(s, Run.Batch(MovesOf(r)));
  }

  /** A slice of a plan can be carried out in the browser, which then mirrors the
      forest the operations lead to. */
  lemma SliceRuns(s: Run.Site, f: Forest, slice: seq<Op>)
    requires Run.Sound(s) && Mirrors(s.tree, f) && InPhases(slice) && OnceEach(slice) && PutBy(slice) <= s.out
    requires CanApplyAll(f, slice) && StaysWellFormed(f, slice) && PutBy(slice) <= ApplyAll(f, slice).Keys
    ensures var stages := StagesOf(f, slice);
      && Run.AllReady(s, stages) && (GoneWith(f, slice) <= s.out ==> Run.SparesAll(s, stages))
      && var e := Run.End(s, stages);
        e == Run.Site(e.tree, s.recorded + PlacesOf(slice), s.out - PutBy(slice)) && Run.Sound(e)
          && Mirrors(e.tree, ApplyAll(f, slice))
  {
    var r, u, m, d := Only(slice, 0), Only(slice, 1), Only(slice, 2), Only(slice, 3);
    SlicePhases(slice);
    PutByPhases(slice, r, u, m, d);
    SlicePhasesRun(s, f, slice, r, u, m, d);
  }

  lemma SliceForests(f: Forest, slice: seq<Op>, r: seq<Op>, u: seq<Op>, m: seq<Op>, d: seq<Op>)
    requires Phased(slice, r, u, m, d) && CanApplyAll(f, slice) && StaysWellFormed(f, slice)
    ensures CanApplyAll(f, r) && CanApplyAll(ApplyAll(f, r), u) && CanApplyAll(ApplyAll(ApplyAll(f, r), u), m)
    ensures var h := ApplyAll(ApplyAll(ApplyAll(f, r), u), m);
      CanApplyAll(f, r + u + m) && h == ApplyAll(f, r + u + m) && WellFormed(h) && CanApplyAll(h, d)
        && ApplyAll(h, d) == ApplyAll(f, slice)
  {
    var n := |r + u + m|;
    assert slice[..n] == r + u + m;
    assert WellFormed(ApplyAll(f, slice[..n]));
    hide WellFormed, CanApply, CanApplyAll, ApplyAll, StaysWellFormed;
    ApplyTwo(f, r + u + m, d);
    ApplyTwo(f, r + u, m);
    ApplyTwo(f, r, u);
  }

  lemma NoRoots(f: Forest, slice: seq<Op>)
    requires StaysWellFormed(f, slice)
    ensures forall x :: x in f ==> !IsRoot(x)
    ensures CanApplyAll(f, slice) && WellFormed(ApplyAll(f, slice))
  {
    assert slice[..0] == [] && slice[..|slice|] == slice;
    assert WellFormed(ApplyAll(f, slice[..0]));
  }

  lemma PlacedInTheEnd(f: Forest, slice: seq<Op>)
    requires OnceEach(slice) && CanApplyAll(f, slice) && PutBy(slice) <= ApplyAll(f, slice).Keys
    ensures forall op :: op in slice && Puts(op) ==> InPlace(ApplyAll(f, slice), op)
  {
    forall op | op in slice && Puts(op) ensures InPlace(ApplyAll(f, slice), op) {
      assert op.id in PutBy(slice);
      hide InPlace, OnceEach, PutBy;
      PutAfter(f, slice, op);
    }
  }

  lemma SlicePhasesRun(s: Run.Site, f: Forest, slice: seq<Op>, r: seq<Op>, u: seq<Op>, m: seq<Op>, d: seq<Op>)
    requires Run.Sound(s) && Mirrors(s.tree, f) && OnceEach(slice) && PutBy(slice) <= s.out
    requires CanApplyAll(f, slice) && StaysWellFormed(f, slice) && PutBy(slice) <= ApplyAll(f, slice).Keys
    requires Phased(slice, r, u, m, d) && OnceEach(r) && OnceEach(m)
    requires PutBy(slice) == PutBy(r) + PutBy(m) && PutBy(r) !! PutBy(m) && PutBy(r + u + m) == PutBy(slice)
    ensures var stages :=
      [Run.Record(PlacesOf(slice))] + CreatesOf(r) + [Run.Batch(MovesOf(m)), Run.Remove(GoneWith(f, slice)),
      Run.Batch(MovesOf(r))];
      && Run.AllReady(s, stages) && (GoneWith(f, slice) <= s.out ==> Run.SparesAll(s, stages))
      && var e := Run.End(s, stages);
        e == Run.Site(e.tree, s.recorded + PlacesOf(slice), s.out - PutBy(slice)) && Run.Sound(e)
          && Mirrors(e.tree, ApplyAll(f, slice))
  {
    hide WellFormed, CanApply, CanApplyAll, ApplyAll, Run.Sound, Mirrors, StaysWellFormed, OnceEach, PutBy, PlacesOf,
      CreatesOf, InPlace, RecordsEach;
    SliceForests(f, slice, r, u, m, d);
    NoRoots(f, slice);
    PlacedInTheEnd(f, slice);
    NothingNew(f, r + u + m);
    PlacesAre(slice);
    var f1, gone, places := ApplyAll(f, r), GoneWith(f, slice), PlacesOf(slice);
    var f2 := ApplyAll(f1, u);
    var f3 := ApplyAll(f2, m);
    var first := [Run.Record(places)] + CreatesOf(r);
    SliceStarts(s, f, slice, r);
    var s2 := Run.End(s, first);
    UpdatesMirror(s2.tree, f1, u);
    RecordsMore(slice, s.recorded, places);
    SliceMoves(s2, f2, slice, m);
    var s3 := Run.After(s2, Run.Batch(MovesOf(m)));
    SliceRemoves(s3, f3, ApplyAll(f, slice), d, gone);
    var s4 := Run.After(s3, Run.Remove(gone));
    SlicePlaces(s4, ApplyAll(f, slice), slice, r);
    ThreeStages(s2, Run.Batch(MovesOf(m)), Run.Remove(gone), Run.Batch(MovesOf(r)));
    hide Run.Ready, Run.Spares, Run.After;
    ReadyApart(s, first, [Run.Batch(MovesOf(m)), Run.Remove(gone), Run.Batch(MovesOf(r))]);
    assert s.out - PutBy(m) - PutBy(r) == s.out - PutBy(slice);
  }

  lemma RecordsMore(ops: seq<Op>, recorded: Moves.Positions, places: Moves.Positions)
    requires RecordsEach(ops, places)
    ensures RecordsEach(ops, recorded + places)
  {
  }

  // --- Slice after slice ---

  lemma PutIntoPlace(f: Forest, op: Op)
    requires Puts(op) && CanApply(f, op)
    ensures op.id in Apply(f, op)
  {
  }

  /** What a plan puts in its place stays. */
  lemma PutStays(nodes: seq<PointNode>, f: Forest, mode: Mode, ops: seq<Op>, k: nat)
    requires Compatible(nodes, f) && IsPlan(nodes, f, mode, ops) && k <= |ops| && PutBy(ops) <= PointIds(nodes)
    ensures CanApplyAll(f, ops[..k]) && PutBy(ops[..k]) <= ApplyAll(f, ops[..k]).Keys
  {
    RunPrefix(nodes, f, mode, ops, k);
    forall x | x in PutBy(ops[..k]) ensures x in ApplyAll(f, ops[..k]) {
      var op :| op in ops[..k] && Puts(op) && op.id == x;
      var i :| 0 <= i < k && ops[..k][i] == op;
      assert op in ops && x in PutBy(ops);
      hide Compatible, IsPlan, PutBy, PointIds;
      PutStaysAt(nodes, f, mode, ops, k, i);
    }
  }

  lemma PutStaysAt(nodes: seq<PointNode>, f: Forest, mode: Mode, ops: seq<Op>, k: nat, i: nat)
    requires Compatible(nodes, f) && IsPlan(nodes, f, mode, ops) && i < k <= |ops| && Puts(ops[i])
    requires ops[i].id in PointIds(nodes)
    ensures CanApplyAll(f, ops[..k]) && ops[i].id in ApplyAll(f, ops[..k])
  {
    hide Compatible, IsPlan, PointIds, CanApplyAll, ApplyAll;
    RunPrefix(nodes, f, mode, ops, k);
    RunPrefix(nodes, f, mode, ops, i + 1);
    PutHere(f, ops, i);
    var g, rest := ApplyAll(f, ops[..i + 1]), ops[i + 1..];
    assert ops[..k] == ops[..i + 1] + rest[..k - i - 1];
    ApplyTwo(f, ops[..i + 1], rest[..k - i - 1]);
    RunPrefix(nodes, g, mode, rest, k - i - 1);
  }

  lemma PutHere(f: Forest, ops: seq<Op>, i: nat)
    requires i < |ops| && Puts(ops[i]) && CanApplyAll(f, ops[..i + 1])
    ensures ops[i].id in ApplyAll(f, ops[..i + 1])
  {
    assert ops[..i + 1] == ops[..i] + [ops[i]];
    hide CanApply, Apply;
    ApplyTwo(f, ops[..i], [ops[i]]);
    assert [ops[i]][1..] == [];
    PutIntoPlace(ApplyAll(f, ops[..i]), ops[i]);
  }

  lemma PlanStaysWellFormed(nodes: seq<PointNode>, f: Forest, mode: Mode, ops: seq<Op>, k: nat)
    requires Compatible(nodes, f) && IsPlan(nodes, f, mode, ops) && k <= |ops|
    ensures StaysWellFormed(f, ops[..k])
  {
    forall n | 0 <= n <= k ensures CanApplyAll(f, ops[..k][..n]) && WellFormed(ApplyAll(f, ops[..k][..n])) {
      assert ops[..k][..n] == ops[..n];
      RunPrefix(nodes, f, mode, ops, n);
    }
  }

  lemma SetsGone(f: set<Id>, g: set<Id>, h: set<Id>, point: set<Id>)
    requires g <= f + point && h <= g + point && f * point <= g && g * point <= h
    ensures f - g <= f - h && g - h <= f - h && (f - h) !! point
  {
  }

  lemma ReachesTarget(nodes: seq<PointNode>, f: Forest, mode: Mode, ops: seq<Op>)
    requires Compatible(nodes, f) && IsPlan(nodes, f, mode, ops)
    ensures CanApplyAll(f, ops) && ApplyAll(f, ops) == Target(nodes, f, mode)
  {
    hide Compatible, Target, IsPlan;
    assert ops[..|ops|] == ops && ops[|ops|..] == [];
    RunPrefix(nodes, f, mode, ops, |ops|);
    NothingToDo(nodes, ApplyAll(f, ops), mode);
  }

  /** What a plan takes away stays away, and is none of the point's. */
  lemma GoneForGood(nodes: seq<PointNode>, f: Forest, mode: Mode, ops: seq<Op>, k: nat)
    requires Compatible(nodes, f) && IsPlan(nodes, f, mode, ops) && k <= |ops|
    requires PutBy(ops[..k]) <= PointIds(nodes) && PutBy(ops[k..]) <= PointIds(nodes) && CanApplyAll(f, ops[..k])
    ensures var g, h := ApplyAll(f, ops[..k]), Target(nodes, f, mode);
      f.Keys - g.Keys <= f.Keys - h.Keys && g.Keys - h.Keys <= f.Keys - h.Keys && (f.Keys - h.Keys) !! PointIds(nodes)
  {
    hide Compatible, IsPlan, PutBy, PointIds, Target;
    RunPrefix(nodes, f, mode, ops, k);
    var g := ApplyAll(f, ops[..k]);
    ReachesTarget(nodes, g, mode, ops[k..]);
    RunPrefix(nodes, g, mode, ops[k..], |ops| - k);
    assert ops[k..][..|ops| - k] == ops[k..];
    NothingNew(g, ops[k..]);
    NothingNew(f, ops[..k]);
    SetsGone(f.Keys, g.Keys, Target(nodes, f, mode).Keys, PointIds(nodes));
  }

  /** A plan under way: it can go on in the browser. */
  ghost predicate OnCourse(nodes: seq<PointNode>, s: Run.Site, f: Forest, mode: Mode, ops: seq<Op>)
  {
    && Compatible(nodes, f) && IsPlan(nodes, f, mode, ops) && InPhases(ops) && OnceEach(ops)
    && PutBy(ops) <= PointIds(nodes) && PutBy(ops) <= s.out
    && Run.Sound(s) && Mirrors(s.tree, f) && Records(s.recorded, f)
  }

  lemma FirstSlice(nodes: seq<PointNode>, s: Run.Site, f: Forest, mode: Mode, ops: seq<Op>, k: nat)
    requires OnCourse(nodes, s, f, mode, ops) && k <= |ops|
    ensures CanApplyAll(f, ops[..k]) && Run.AllReady(s, StagesOf(f, ops[..k]))
    ensures var g, t := ApplyAll(f, ops[..k]), Run.End(s, StagesOf(f, ops[..k]));
      && OnCourse(nodes, t, g, mode, ops[k..]) && t.out == s.out - PutBy(ops[..k])
        && PutBy(ops) == PutBy(ops[..k]) + PutBy(ops[k..])
      && Target(nodes, g, mode) == Target(nodes, f, mode)
      && (f.Keys - Target(nodes, f, mode).Keys <= s.out ==>
            Run.SparesAll(s, StagesOf(f, ops[..k])) && g.Keys - Target(nodes, g, mode).Keys <= t.out)
  {
    hide Compatible, IsPlan, Target, Run.Sound, Mirrors, Records, InPhases, OnceEach, PutBy, PointIds;
    var slice := ops[..k];
    RunPrefix(nodes, f, mode, ops, k);
    SliceShape(ops, k);
    PutApart(ops, k);
    PutStays(nodes, f, mode, ops, k);
    PlanStaysWellFormed(nodes, f, mode, ops, k);
    GoneForGood(nodes, f, mode, ops, k);
    hide StaysWellFormed, CanApplyAll, ApplyAll, Run.AllReady, Run.End, Run.SparesAll, StagesOf;
    SliceRuns(s, f, slice);
    RecordsAfter(f, slice, s.recorded);
  }

  /** How a plan ends in the browser. */
  ghost predicate EndsAt(nodes: seq<PointNode>, s: Run.Site, f: Forest, mode: Mode, ops: seq<Op>,
      stages: seq<Run.Stage>)
  {
    && Run.AllReady(s, stages)
    && var e, g := Run.End(s, stages), Target(nodes, f, mode);
      && e.out == s.out - PutBy(ops) && Run.Sound(e) && Mirrors(e.tree, g) && Records(e.recorded, g)
      && (f.Keys - g.Keys <= s.out ==> Run.SparesAll(s, stages))
  }

  lemma EndsWithNothing(nodes: seq<PointNode>, s: Run.Site, f: Forest, mode: Mode)
    requires OnCourse(nodes, s, f, mode, [])
    ensures EndsAt(nodes, s, f, mode, [], [])
  {
    hide Compatible, IsPlan, Target, Run.Sound, Mirrors, Records, InPhases, OnceEach, PointIds;
    NothingToDo(nodes, f, mode);
  }

  lemma EndsLater(nodes: seq<PointNode>, s: Run.Site, f: Forest, t: Run.Site, g: Forest, mode: Mode,
                  ops: seq<Op>, k: nat, a: seq<Run.Stage>, b: seq<Run.Stage>)
    requires k <= |ops| && Run.AllReady(s, a) && t == Run.End(s, a) && EndsAt(nodes, t, g, mode, ops[k..], b)
    requires t.out == s.out - PutBy(ops[..k]) && PutBy(ops) == PutBy(ops[..k]) + PutBy(ops[k..])
    requires Target(nodes, g, mode) == Target(nodes, f, mode)
    requires f.Keys - Target(nodes, f, mode).Keys <= s.out ==>
      Run.SparesAll(s, a) && g.Keys - Target(nodes, g, mode).Keys <= t.out
    ensures EndsAt(nodes, s, f, mode, ops, a + b)
  {
    hide Target, Run.Sound, Mirrors, Records, PutBy, Run.AllReady, Run.End, Run.SparesAll;
    ReadyApart(s, a, b);
  }

  lemma RunOfSlices(f: Forest, ops: seq<Op>, k: nat)
    requires CanApplyAll(f, ops) && ops != [] && k == SliceLength(ops)
    ensures CanApplyAll(f, ops[..k]) && CanApplyAll(ApplyAll(f, ops[..k]), ops[k..])
    ensures RunOf(f, ops) == StagesOf(f, ops[..k]) + RunOf(ApplyAll(f, ops[..k]), ops[k..])
  {
    ApplySplit(f, ops, k);
    hide StagesOf, SliceLength;
  }

  /** A whole plan, slice by slice: every stage can be carried out, the browser ends
      with the forest the plan leads to, and the positions recorded are that
      forest's. */
  lemma {:induction false} PlanRuns(nodes: seq<PointNode>, s: Run.Site, f: Forest, mode: Mode, ops: seq<Op>)
    requires OnCourse(nodes, s, f, mode, ops)
    ensures CanApplyAll(f, ops) && EndsAt(nodes, s, f, mode, ops, RunOf(f, ops))
    decreases |ops|
  {
    ReachesTarget(nodes, f, mode, ops);
    hide OnCourse, EndsAt, StagesOf, CanApplyAll, ApplyAll, Target, PutBy;
    if ops == [] {
      EndsWithNothing(nodes, s, f, mode);
    } else {
      var k := SliceLength(ops);
      RunOfSlices(f, ops, k);
      hide RunOf, SliceLength;
      FirstSlice(nodes, s, f, mode, ops, k);
      var g, t := ApplyAll(f, ops[..k]), Run.End(s, StagesOf(f, ops[..k]));
      PlanRuns(nodes, t, g, mode, ops[k..]);
      EndsLater(nodes, s, f, t, g, mode, ops, k, StagesOf(f, ops[..k]), RunOf(g, ops[k..]));
    }
  }
}
