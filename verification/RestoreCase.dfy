// Small restores worked out: where siblings end out of order, how much the cut between
// two slices decides, and what a restore cut short can lose.
module RestoreCase {
  import opened Wrappers
  import opened Keys
  import opened BookmarkForest
  import opened Flatten
  import opened Planner
  import opened Restore
  import opened RestoreRun
  import opened RestoreOrder
  import opened RestoreCrash
  import Siblings
  import Moves = MoveBatch
  import Order = MoveOrder
  import Run = MoveRun
  import MoveCase

  // --- Folders to rename, and siblings to move ---

  function FolderAt(o: Id, x: Key): PointNode
  {
    PointNode(o, Folder, "", None, 0, x)
  }

  function LiveAt(x: Key): Node
  {
    Node(Folder, "", None, 0, Some(x), false)
  }

  function Named(i: nat, title: string, x: Key): PointNode
  {
    PointNode(100 + i, Folder, title, None, 1, x)
  }

  /** The point has `n` folders under one root, which have other titles now, and folders
      under another, which are elsewhere among their siblings. */
  datatype Scene = Scene(n: nat, title: string, was: string, x: Key, tail: seq<PointNode>, stood: Moves.Positions)

  function Renamed(c: Scene): seq<PointNode>
  {
    seq(c.n, i requires 0 <= i < c.n => Named(i, c.title, c.x))
  }

  function NodesOf(c: Scene): seq<PointNode>
  {
    Renamed(c) + c.tail
  }

  ghost predicate Fair(c: Scene)
  {
    && c.title != c.was && c.x != []
    && (forall i, j :: 0 <= i < j < |c.tail| ==> c.tail[i].o != c.tail[j].o)
    && (forall m :: m in c.tail ==> m == FolderAt(m.o, m.x) && 10 <= m.o < 100 && m.x != [] && m.o in c.stood)
  }

  /** The browser has the point's nodes, at the positions they had. */
  ghost predicate Has(f: Forest, c: Scene)
  {
    && (forall m :: m in c.tail && m.o in c.stood ==> m.o in f && f[m.o] == LiveAt(c.stood[m.o]))
    && (forall i {:trigger Named(i, c.title, c.x)} :: 0 <= i < c.n ==>
      100 + i in f && f[100 + i] == Node(Folder, c.was, None, 1, Some(c.x), false))
    && f.Keys == PointIds(NodesOf(c))
  }

  lemma NodesAre(c: Scene, m: PointNode)
    requires m in NodesOf(c)
    ensures m in c.tail || exists i :: 0 <= i < c.n && m == Named(i, c.title, c.x)
  {
    var k :| 0 <= k < |NodesOf(c)| && NodesOf(c)[k] == m;
    if k < c.n { assert m == Named(k, c.title, c.x); } else { assert m == c.tail[k - c.n]; }
  }

  lemma NodesDiffer(c: Scene)
    requires Fair(c)
    ensures forall i, j :: 0 <= i < j < |NodesOf(c)| ==> NodesOf(c)[i].o != NodesOf(c)[j].o
    ensures forall m :: m in NodesOf(c) ==> !IsRoot(m.o) && IsRoot(m.p) && m.k.Folder? && m.u == None && m.x != []
  {
    var nodes := NodesOf(c);
    forall i, j | 0 <= i < j < |nodes| ensures nodes[i].o != nodes[j].o {
      if j >= c.n { assert nodes[j] == c.tail[j - c.n] && c.tail[j - c.n] in c.tail; }
      if i >= c.n { assert nodes[i] == c.tail[i - c.n]; }
    }
    forall m | m in nodes ensures !IsRoot(m.o) && IsRoot(m.p) && m.k.Folder? && m.u == None && m.x != [] {
      NodesAre(c, m);
    }
  }

  /** Unmanaged folders under the roots. */
  ghost predicate Flat(f: Forest)
  {
    forall x :: x in f ==> !IsRoot(x) && IsRoot(f[x].parent) && f[x].kind.Folder? && f[x].url == None && !f[x].managed
  }

  lemma FlatIsWellFormed(f: Forest)
    requires Flat(f)
    ensures WellFormed(f)
  {
    forall x | x in f ensures Grounded(f, x) { assert GroundedIn(f, x, 1); }
  }

  lemma FlatIsCompatible(nodes: seq<PointNode>, f: Forest)
    requires Flat(f) && forall i, j :: 0 <= i < j < |nodes| ==> nodes[i].o != nodes[j].o
    requires forall n :: n in nodes ==> !IsRoot(n.o) && IsRoot(n.p) && n.k.Folder? && n.u == None && n.x != []
    ensures Compatible(nodes, f)
  {
    FlatIsWellFormed(f);
    hide WellFormed;
    assert forall i :: 0 <= i < |nodes| ==> nodes[i] in nodes;
    assert forall x :: x in f ==> !IsRoot(x);
    assert ValidNodes(nodes);
  }

  lemma HasFlat(f: Forest, c: Scene)
    requires Fair(c) && Has(f, c)
    ensures Flat(f)
  {
    NodesDiffer(c);
    forall x | x in f
      ensures !IsRoot(x) && IsRoot(f[x].parent) && f[x].kind.Folder? && f[x].url == None && !f[x].managed {
      assert x in PointIds(NodesOf(c));
      var m :| m in NodesOf(c) && m.o == x;
      NodesAre(c, m);
    }
  }

  lemma SceneIsCompatible(f: Forest, c: Scene)
    requires Fair(c) && Has(f, c)
    ensures Compatible(NodesOf(c), f)
  {
    hide Fair, Has, NodesOf, Flat, Compatible;
    HasFlat(f, c);
    NodesDiffer(c);
    FlatIsCompatible(NodesOf(c), f);
  }

  // --- Its plan ---

  lemma {:induction false} PhaseApart(ph: Phase, a: seq<PointNode>, b: seq<PointNode>, f: Forest, c: Cover)
    ensures PhaseOps(ph, a + b, f, c) == PhaseOps(ph, a, f, c) + PhaseOps(ph, b, f, c)
    decreases |b|
  {
    if b == [] {
      assert a + b == a;
      assert PhaseOps(ph, b, f, c) == [];
    } else {
      var n := |b| - 1;
      hide OpsFor, PhaseOps;
      assert (a + b)[..|a| + n] == a + b[..n] && (a + b)[..|a| + n + 1] == a + b && b[..n + 1] == b
        && (a + b)[|a| + n] == b[n];
      PhaseExtend(ph, a + b, |a| + n, f, c);
      PhaseExtend(ph, b, n, f, c);
      PhaseApart(ph, a, b[..n], f, c);
    }
  }

  function Renames(n: nat, title: string): (ops: seq<Op>)
    ensures |ops| == n && forall op :: op in ops ==> op.Update?
  {
    seq(n, i requires 0 <= i < n => Update(100 + i, Folder, Some(title), None))
  }

  /** What is planned for the siblings. */
  function MovesFor(tail: seq<PointNode>, stood: Moves.Positions): (ops: seq<Op>)
    ensures forall op :: op in ops ==> op.Move?
  {
    if tail == [] then []
    else
      var m := tail[|tail| - 1];
      MovesFor(tail[..|tail| - 1], stood) + if m.o in stood
        && stood[m.o] != m.x then [Move(m.o, Folder, 0, m.x)] else []
  }

  lemma RenamedOps(ph: Phase, c: Scene, f: Forest, i: nat)
    requires Fair(c) && Has(f, c) && i < c.n
    ensures OpsFor(ph, Named(i, c.title, c.x), f, Everything(NodesOf(c))) == if ph.Updating?
      then [Update(100 + i, Folder, Some(c.title), None)] else []
  {
    assert NodesOf(c)[i] == Named(i, c.title, c.x) && NodesOf(c)[i] in NodesOf(c);
    assert 100 + i in f;
  }

  lemma {:induction false} RenamedPhase(ph: Phase, c: Scene, f: Forest, k: nat)
    requires Fair(c) && Has(f, c) && k <= c.n
    ensures PhaseOps(ph, Renamed(c)[..k], f, Everything(NodesOf(c))) == if ph.Updating? then Renames(k, c.title) else []
  {
    hide Fair, Has, OpsFor;
    var nodes, all := Renamed(c), Everything(NodesOf(c));
    if k == 0 {
      assert nodes[..0] == [];
      assert PhaseOps(ph, nodes[..0], f, all) == [];
    } else {
      PhaseExtend(ph, nodes, k - 1, f, all);
      hide PhaseOps;
      RenamedPhase(ph, c, f, k - 1);
      RenamedOps(ph, c, f, k - 1);
    }
  }

  lemma TailOps(ph: Phase, c: Scene, f: Forest, m: PointNode)
    requires Fair(c) && Has(f, c) && m in c.tail
    ensures OpsFor(ph, m, f, Everything(NodesOf(c))) == if ph.Moving?
      && c.stood[m.o] != m.x then [Move(m.o, Folder, 0, m.x)] else []
  {
    assert m in NodesOf(c);
  }

  lemma {:induction false} TailPhase(ph: Phase, c: Scene, f: Forest, k: nat)
    requires Fair(c) && Has(f, c) && k <= |c.tail|
    ensures PhaseOps(ph, c.tail[..k], f, Everything(NodesOf(c))) == if ph.Moving? then MovesFor(c.tail[..k], c.stood)
      else []
  {
    var all := Everything(NodesOf(c));
    if k == 0 {
      assert PhaseOps(ph, c.tail[..0], f, all) == [];
    } else {
      var m := c.tail[k - 1];
      assert m in c.tail && m.o in c.stood && c.tail[..k][..k - 1] == c.tail[..k - 1];
      hide Fair, Has, OpsFor;
      PhaseExtend(ph, c.tail, k - 1, f, all);
      hide PhaseOps;
      TailPhase(ph, c, f, k - 1);
      TailOps(ph, c, f, m);
    }
  }

  lemma {:induction false} NothingUnwanted(live: seq<LiveNode>)
    ensures DeletesFrom(live, {}) == []
  {
    if live != [] { NothingUnwanted(live[..|live| - 1]); }
  }

  lemma ScenePhases(c: Scene, f: Forest)
    requires Fair(c) && Has(f, c)
    ensures var nodes, all := NodesOf(c), Everything(NodesOf(c));
      && PhaseOps(Restoring, nodes, f, all) == [] && PhaseOps(Updating, nodes, f, all) == Renames(c.n, c.title)
      && PhaseOps(Moving, nodes, f, all) == MovesFor(c.tail, c.stood)
  {
    var all := Everything(NodesOf(c));
    assert Renamed(c)[..c.n] == Renamed(c) && c.tail[..|c.tail|] == c.tail;
    hide Fair, Has, PhaseOps, Renames, MovesFor;
    forall ph: Phase
      ensures PhaseOps(ph, NodesOf(c), f, all) == (if ph.Updating? then Renames(c.n, c.title) else []) + (if ph.Moving?
        then MovesFor(c.tail, c.stood) else [])
    {
      RenamedPhase(ph, c, f, c.n);
      TailPhase(ph, c, f, |c.tail|);
      PhaseApart(ph, Renamed(c), c.tail, f, all);
    }
  }

  lemma NoneUnwanted(c: Scene, live: seq<LiveNode>, f: Forest)
    requires Has(f, c) && Lists(live, f)
    ensures Unwanted(NodesOf(c), live, All) == {}
  {
    hide NodesOf, PointIds;
    assert forall e :: e in live ==> e.objectId in PointIds(NodesOf(c));
  }

  lemma ScenePlan(c: Scene, live: seq<LiveNode>, f: Forest, mode: Mode)
    requires Fair(c) && Has(f, c) && Lists(live, f)
    ensures Planned(NodesOf(c), live, mode) == Renames(c.n, c.title) + MovesFor(c.tail, c.stood)
  {
    ListingIsForest(live, f);
    NoneUnwanted(c, live, f);
    NothingUnwanted(live);
    ScenePhases(c, f);
    hide Fair, Has, Lists, PhaseOps, Renames, MovesFor, Unwanted, LiveById, DeletesFrom, NodesOf;
    assert CoverOf(NodesOf(c), All) == Everything(NodesOf(c));
    var u, m := Renames(c.n, c.title), MovesFor(c.tail, c.stood);
    assert PlanFor(NodesOf(c), live, mode, All).deletes == [];
    assert [] + u + m + [] == u + m;
  }

  // --- A slice of renames and moves ---

  lemma {:induction false} OnlyMoves(u: seq<Op>, m: seq<Op>)
    requires (forall op :: op in u ==> op.Update?) && (forall op :: op in m ==> op.Move?)
    ensures Only(u + m, 2) == m && Only(u + m, 0) == []
    decreases |u| + |m|
  {
    OnlyNone(u + m, 0);
    hide Only;
    if u != [] {
      assert (u + m)[1..] == u[1..] + m && u[0] in u && forall op :: op in u[1..] ==> op in u;
      OnlyFirst(u + m, 2);
      OnlyMoves(u[1..], m);
    } else {
      assert u + m == m;
      OnlyAll(m, 2);
    }
  }

  lemma {:induction false} OnlyAll(ops: seq<Op>, rank: nat)
    requires forall op :: op in ops ==> Rank(op) == rank
    ensures Only(ops, rank) == ops
  {
    if ops != [] {
      assert ops[0] in ops && forall op :: op in ops[1..] ==> op in ops;
      OnlyAll(ops[1..], rank);
    }
  }

  lemma {:induction false} KeepsAll(f: Forest, ops: seq<Op>)
    requires CanApplyAll(f, ops) && forall op :: op in ops ==> op.Update? || op.Move?
    ensures ApplyAll(f, ops).Keys == f.Keys
    decreases |ops|
  {
    if ops != [] {
      assert ops[0] in ops && forall op :: op in ops[1..] ==> op in ops;
      assert Apply(f, ops[0]).Keys == f.Keys;
      hide CanApply;
      KeepsAll(Apply(f, ops[0]), ops[1..]);
    }
  }

  lemma {:induction false} RenamesRecordNothing(u: seq<Op>, m: seq<Op>)
    requires forall op :: op in u ==> op.Update?
    ensures PlacesOf(u + m) == PlacesOf(m)
    decreases |u| + |m|
  {
    if m != [] {
      var n := |m| - 1;
      assert (u + m)[..|u + m| - 1] == u + m[..n] && (u + m)[|u + m| - 1] == m[n];
      RenamesRecordNothing(u, m[..n]);
    } else if u != [] {
      var n := |u| - 1;
      assert u + m == u && (u + m)[..|u + m| - 1] == u[..n] + m && u[n] in u && forall op :: op in u[..n] ==> op in u;
      RenamesRecordNothing(u[..n], m);
    } else {
      assert u + m == [];
    }
  }

  lemma {:induction false} KeptAll(list: seq<Siblings.Id>)
    ensures Run.Kept(list, {}) == list
  {
    if list != [] { KeptAll(list[1..]); }
  }

  lemma NothingPruned(t: Moves.Tree)
    ensures Run.Pruned(t, {}) == t
  {
    forall p | p in t.children ensures Run.Kept(t.children[p], {}) == t.children[p] { KeptAll(t.children[p]); }
    assert Run.Pruned(t, {}).children == t.children && Run.Pruned(t, {}).parentOf == t.parentOf;
  }

  lemma EmptyBatch(s: Run.Site)
    ensures Run.After(s, Run.Batch([])) == s
  {
    assert s.out - Moves.Movers([]) == s.out;
  }

  /** The moves of such a slice, and nothing else, change the tree. */
  lemma QuietSlice(s: Run.Site, f: Forest, u: seq<Op>, m: seq<Op>)
    requires (forall op :: op in u ==> op.Update?) && (forall op :: op in m ==> op.Move?) && CanApplyAll(f, u + m)
    requires Run.Sound(s) && Run.AllReady(s, StagesOf(f, u + m))
    ensures var r := s.(recorded := s.recorded + PlacesOf(m));
      && Run.Sound(r) && Run.Ready(r, Run.Batch(MovesOf(m)))
        && Run.End(s, StagesOf(f, u + m)) == Run.After(r, Run.Batch(MovesOf(m)))
  {
    var slice := u + m;
    OnlyMoves(u, m);
    KeepsAll(f, slice);
    RenamesRecordNothing(u, m);
    var record, batch := Run.Record(PlacesOf(m)), Run.Batch(MovesOf(m));
    assert GoneWith(f, slice) == {} && CreatesOf([]) == [] && MovesOf([]) == [];
    assert StagesOf(f, slice) == [record, batch, Run.Remove({}), Run.Batch([])];
    hide StagesOf, PlacesOf, MovesOf, CanApplyAll, ApplyAll;
    FourStages(s, record, batch, Run.Remove({}), Run.Batch([]));
    var r := Run.After(s, record);
    Run.StageKeepsSound(s, record);
    var t := Run.After(r, batch);
    NothingPruned(t.tree);
    EmptyBatch(t);
  }

  lemma FourStages(s: Run.Site, a: Run.Stage, b: Run.Stage, c: Run.Stage, d: Run.Stage)
    requires Run.AllReady(s, [a, b, c, d])
    ensures Run.Ready(s, a) && Run.Ready(Run.After(s, a), b) && Run.Ready(Run.After(Run.After(s, a), b), c)
      && Run.Ready(Run.After(Run.After(Run.After(s, a), b), c), d)
    ensures Run.End(s, [a, b, c, d]) == Run.After(Run.After(Run.After(Run.After(s, a), b), c), d)
  {
    FirstStage(s, a, [b, c, d]);
    FirstStage(Run.After(s, a), b, [c, d]);
    FirstStage(Run.After(Run.After(s, a), b), c, [d]);
    FirstStage(Run.After(Run.After(Run.After(s, a), b), c), d, []);
    assert [a] + [b, c, d] == [a, b, c, d] && [b] + [c, d] == [b, c, d] && [c] + [d] == [c, d] && [d] + [] == [d];
  }

  lemma FirstStage(s: Run.Site, a: Run.Stage, rest: seq<Run.Stage>)
    requires Run.AllReady(s, [a] + rest)
    ensures Run.Ready(s, a) && Run.AllReady(Run.After(s, a), rest)
    ensures Run.End(s, [a] + rest) == Run.End(Run.After(s, a), rest)
  {
    assert ([a] + rest)[1..] == rest;
  }

  lemma {:induction false} EndApart(s: Run.Site, a: seq<Run.Stage>, b: seq<Run.Stage>)
    requires Run.AllReady(s, a + b)
    ensures Run.AllReady(s, a) && Run.AllReady(Run.End(s, a), b) && Run.End(s, a + b) == Run.End(Run.End(s, a), b)
    decreases |a|
  {
    if a == [] {
      assert a + b == b;
    } else {
      assert (a + b)[0] == a[0] && (a + b)[1..] == a[1..] + b;
      hide Run.Ready;
      EndApart(Run.After(s, a[0]), a[1..], b);
    }
  }

  // --- Batches of one and of two moves ---

  lemma OneMove(a: Moves.Applied, m: Moves.RemoteMove, known: Moves.Positions)
    requires !a.failed && m.mover.Some? && m.parent.Some? && Moves.CanMove(a.layout.tree, m.mover.value, m.parent.value)
    ensures var b := Moves.ApplyOne(a, m, known);
      !b.failed && b.layout == Moves.StepMove(a.layout, m.mover.value, m.parent.value, m.position, known)
    ensures Moves.ApplyMoves(a, [m], Run.Quiet(1), known) == Moves.ApplyOne(a, m, known)
  {
    assert a.(layout := Moves.Observe(a.layout, None)) == a && Run.Quiet(1)[0] == None && [m][1..] == []
      && Run.Quiet(1)[1..] == [];
    hide Moves.StepMove, Moves.CanMove;
    assert Moves.ApplyMoves(Moves.ApplyOne(a, m, known), [], [], known) == Moves.ApplyOne(a, m, known);
    hide Moves.ApplyOne;
  }

  lemma TwoMoves(a: Moves.Applied, m: Moves.RemoteMove, n: Moves.RemoteMove, known: Moves.Positions)
    requires !a.failed && !Moves.ApplyOne(a, m, known).failed
    ensures Moves.ApplyMoves(a, [m, n], Run.Quiet(2), known) == Moves.ApplyMoves(Moves.ApplyOne(a, m, known), [n],
      Run.Quiet(1), known)
  {
    assert a.(layout := Moves.Observe(a.layout, None)) == a && Run.Quiet(2)[0] == None && [m, n][1..] == [n]
      && Run.Quiet(2)[1..] == Run.Quiet(1);
    hide Moves.ApplyOne;
  }

  function To(id: Id, position: Key): Op
  {
    Move(id, Folder, 0, position)
  }

  lemma OneMoveTree(s: Run.Site, id: Id, position: Key)
    requires Run.Sound(s) && Run.Ready(s, Run.Batch(MovesOf([To(id, position)]))) && Moves.CanMove(s.tree, id, 0)
    ensures Run.After(s,
      Run.Batch(MovesOf([To(id, position)]))).tree == Moves.StepMove(Moves.Layout(s.tree, 0, map[]), id, 0, position,
      s.recorded).tree
  {
    var m := MoveOf(To(id, position));
    assert MovesOf([To(id, position)]) == [m];
    Run.GoesByRecorded(s, [m]);
    hide Run.Sound, Moves.CanMove, Moves.StepMove, Moves.ApplyOne;
    OneMove(Order.Start(s.tree, 0, {}), m, s.recorded);
  }

  lemma TwoMovesTree(s: Run.Site, id: Id, position: Key, id': Id, position': Key)
    requires var moves := MovesOf([To(id, position), To(id', position')]);
      Run.Sound(s) && Run.Ready(s, Run.Batch(moves))
    requires Moves.CanMove(s.tree, id, 0)
    requires Moves.CanMove(Moves.StepMove(Moves.Layout(s.tree, 0, map[]), id, 0, position, s.recorded).tree, id', 0)
    ensures Run.After(s, Run.Batch(MovesOf([To(id, position), To(id', position')]))).tree ==
      Moves.StepMove(Moves.StepMove(Moves.Layout(s.tree, 0, map[]), id, 0, position, s.recorded), id', 0, position',
        s.recorded).tree
  {
    var m, n := MoveOf(To(id, position)), MoveOf(To(id', position'));
    assert MovesOf([To(id, position), To(id', position')]) == [m, n];
    Run.GoesByRecorded(s, [m, n]);
    hide Run.Sound, Moves.CanMove, Moves.StepMove, Moves.ApplyOne;
    var a := Order.Start(s.tree, 0, {});
    OneMove(a, m, s.recorded);
    TwoMoves(a, m, n, s.recorded);
    OneMove(Moves.ApplyOne(a, m, s.recorded), n, s.recorded);
  }

  // --- Runs of one slice and of two ---

  lemma OneSlice(s: Run.Site, f: Forest, u: seq<Op>, m: seq<Op>)
    requires (forall op :: op in u ==> op.Update?) && (forall op :: op in m ==> op.Move?) && CanApplyAll(f, u + m)
    requires Run.Sound(s) && Run.AllReady(s, RunOf(f, u + m)) && 0 < |u + m| <= RESTORE_CHUNK_SIZE
    ensures var r := s.(recorded := s.recorded + PlacesOf(m));
      && Run.Sound(r) && Run.Ready(r, Run.Batch(MovesOf(m)))
        && Run.End(s, RunOf(f, u + m)) == Run.After(r, Run.Batch(MovesOf(m)))
  {
    var ops := u + m;
    assert ops[..|ops|] == ops;
    RunOfSlices(f, ops, |ops|);
    var g := ApplyAll(f, ops);
    assert RunOf(g, ops[|ops|..]) == [];
    assert RunOf(f, ops) == StagesOf(f, ops);
    hide RunOf, StagesOf, PlacesOf, CanApplyAll, ApplyAll, Run.Sound;
    QuietSlice(s, f, u, m);
  }

  lemma TwoSlices(s: Run.Site, f: Forest, u: seq<Op>, m: seq<Op>, last: seq<Op>)
    requires (forall op :: op in u ==> op.Update?) && (forall op :: op in m ==> op.Move?)
    requires (forall op :: op in last ==> op.Move?)
    requires CanApplyAll(f, u + m + last) && Run.Sound(s) && Run.AllReady(s, RunOf(f, u + m + last))
    requires |u + m| == RESTORE_CHUNK_SIZE && 0 < |last| <= RESTORE_CHUNK_SIZE
    ensures var r := s.(recorded := s.recorded + PlacesOf(m));
      && Run.Sound(r) && Run.Ready(r, Run.Batch(MovesOf(m)))
      && var e := Run.After(r, Run.Batch(MovesOf(m)));
        var t := e.(recorded := e.recorded + PlacesOf(last));
        && Run.Sound(t) && Run.Ready(t, Run.Batch(MovesOf(last)))
        && Run.End(s, RunOf(f, u + m + last)) == Run.After(t, Run.Batch(MovesOf(last)))
  {
    var ops, slice := u + m + last, u + m;
    assert ops[..|slice|] == slice && ops[|slice|..] == last;
    RunOfSlices(f, ops, |slice|);
    hide RunOf, StagesOf, PlacesOf, CanApplyAll, ApplyAll, Run.Sound;
    var g := ApplyAll(f, slice);
    EndApart(s, StagesOf(f, slice), RunOf(g, last));
    QuietSlice(s, f, u, m);
    assert [] + last == last;
    var e := Run.End(s, StagesOf(f, slice));
    assert Run.Sound(e) by { Run.RunKeepsSound(s, StagesOf(f, slice)); }
    OneSlice(e, g, [], last);
  }

  lemma PlacesOfTwo(id: Id, position: Key, id': Id, position': Key)
    ensures PlacesOf([To(id, position)]) == map[id := position]
    ensures PlacesOf([To(id, position), To(id', position')]) == map[id := position][id' := position']
  {
    assert [To(id, position)][..0] == [] && [To(id, position), To(id', position')][..1] == [To(id, position)];
  }

  // --- Siblings that end out of order ---

  /** The point has A, R, Q and B in this order under a root; R and Q were elsewhere. */
  ghost predicate FourSiblings(c: Scene, pa: Key, pr: Key, pq: Key, pb: Key)
  {
    && c.tail == [FolderAt(11, pa), FolderAt(13, pr), FolderAt(14, pq), FolderAt(12, pb)]
      && MoveCase.Rising(pa, pr, pq, pb)
    && c.stood.Keys == {11, 12, 13, 14} && c.stood[11] == pa && c.stood[12] == pb && c.stood[13] != pr
      && c.stood[14] != pq
  }

  lemma FourMoves(c: Scene, pa: Key, pr: Key, pq: Key, pb: Key)
    requires FourSiblings(c, pa, pr, pq, pb)
    ensures MovesFor(c.tail, c.stood) == [To(13, pr), To(14, pq)]
  {
    var tail := c.tail;
    assert tail[..3] == [tail[0], tail[1], tail[2]] && tail[..3][..2] == [tail[0], tail[1]]
      && tail[..2][..1] == [tail[0]] && tail[..1][..0] == [];
    assert MovesFor(tail[..1], c.stood) == [];
    assert tail[..3][..2] == tail[..2];
    assert MovesFor(tail[..2], c.stood) == [To(13, pr)];
    assert MovesFor(tail[..3], c.stood) == [To(13, pr), To(14, pq)];
  }

  /** The browser holds the scene. */
  ghost predicate Staged(c: Scene, live: seq<LiveNode>, f: Forest, t: Moves.Tree)
  {
    Fair(c) && Has(f, c) && Lists(live, f) && Moves.WellFormed(t) && Mirrors(t, f)
  }

  lemma SceneStarts(c: Scene, live: seq<LiveNode>, f: Forest, t: Moves.Tree, mode: Mode)
    requires Staged(c, live, f, t)
    ensures Starts(NodesOf(c), live, f, t)
    ensures var ops := Renames(c.n, c.title) + MovesFor(c.tail, c.stood);
      var s := StartSite(NodesOf(c), f, mode, ops, t);
      Planned(NodesOf(c), live, mode) == ops && CanApplyAll(f, ops) && Run.AllReady(s, RunOf(f, ops)) && Run.Sound(s)
  {
    SceneIsCompatible(f, c);
    hide Fair, Has, Compatible, Lists, Mirrors, Moves.WellFormed, Planned, Renames, MovesFor, NodesOf;
    ScenePlan(c, live, f, mode);
    RestoredOrderIff(NodesOf(c), live, f, mode, t);
    StartsOnCourse(NodesOf(c), live, f, mode, t);
    hide RunOf, StartSite, Run.AllReady, Run.Sound, CanApplyAll;
  }

  /** Where the browser ends when a restore of everything runs. */
  ghost function RestoredTree(c: Scene, live: seq<LiveNode>, f: Forest, mode: Mode, t: Moves.Tree): Moves.Tree
    requires Staged(c, live, f, t)
  {
    SceneStarts(c, live, f, t, mode);
    var ops := Planned(NodesOf(c), live, mode);
    Run.End(StartSite(NodesOf(c), f, mode, ops, t), RunOf(f, ops)).tree
  }

  lemma StoodAt(f: Forest, c: Scene, id: Id)
    requires Has(f, c) && id in c.stood && c.stood[id] != [] && exists m :: m in c.tail && m.o == id
    ensures id in RecordedIn(f) && RecordedIn(f)[id] == c.stood[id]
  {
  }

  lemma RootIsOpen(f: Forest, t: Moves.Tree)
    requires Mirrors(t, f) && Flat(f)
    ensures 0 in t.children && 0 !in t.parentOf
  {
  }

  lemma FourRecorded(c: Scene, f: Forest, pa: Key, pr: Key, pq: Key, pb: Key)
    requires Fair(c) && Has(f, c) && FourSiblings(c, pa, pr, pq, pb)
    ensures var known := RecordedIn(f) + PlacesOf([To(13, pr), To(14, pq)]);
      MoveCase.Holds(known,
        [Siblings.Sibling(11, pa), Siblings.Sibling(13, pr), Siblings.Sibling(14, pq), Siblings.Sibling(12, pb)])
  {
    assert c.tail[0] in c.tail && c.tail[3] in c.tail;
    hide Has;
    StoodAt(f, c, 11);
    StoodAt(f, c, 12);
    PlacesOfTwo(13, pr, 14, pq);
    hide PlacesOf, RecordedIn, Fair;
  }

  /** Restored in one slice, they end up as A, Q, B, R. */
  lemma PlannedSiblingsEndUnsorted(c: Scene, live: seq<LiveNode>, f: Forest, mode: Mode, t: Moves.Tree, pa: Key,
      pr: Key, pq: Key, pb: Key)
    requires Staged(c, live, f, t) && FourSiblings(c, pa, pr, pq, pb)
    requires c.n + 2 <= RESTORE_CHUNK_SIZE && 0 in t.children && t.children[0] == [11, 12, 13, 14]
    ensures var r := RestoredTree(c, live, f, mode, t); 0 in r.children && r.children[0] == [11, 14, 12, 13]
  {
    HasFlat(f, c);
    RootIsOpen(f, t);
    FourMoves(c, pa, pr, pq, pb);
    FourRecorded(c, f, pa, pr, pq, pb);
    SceneStarts(c, live, f, t, mode);
    assert MoveCase.Rising(pa, pr, pq, pb);
    hide Fair, Has, FourSiblings, Lists, Flat, Moves.WellFormed, Mirrors, MoveCase.Rising, RunOf, Renames, MovesFor,
      PlacesOf, MovesOf, Planned, RecordedIn;
    hide Moves.CanMove, Moves.StepMove, Run.Sound, Run.Ready, Run.After, Run.AllReady, Run.End, CanApplyAll, OutOfPlace;
    var u, m := Renames(c.n, c.title), [To(13, pr), To(14, pq)];
    var s := StartSite(NodesOf(c), f, mode, u + m, t);
    OneSlice(s, f, u, m);
    var known := RecordedIn(f) + PlacesOf(m);
    MoveCase.AscendingBatchEndsUnsorted(t, known, pa, pr, pq, pb);
    TwoMovesTree(s.(recorded := known), 13, pr, 14, pq);
  }

  // --- The cut between two slices ---

  /** The point has C, A and B in this order under a root, where the browser has A, B
      and C: A and B are to be moved behind C. */
  ghost predicate ThreeSiblings(c: Scene, pb: Key, pc: Key, pa': Key, pb': Key)
  {
    && c.tail == [FolderAt(13, pc), FolderAt(11, pa'), FolderAt(12, pb')] && MoveCase.Rising(pb, pc, pa', pb')
    && c.stood.Keys == {11, 12, 13} && Less(c.stood[11], pb) && c.stood[12] == pb && c.stood[13] == pc
  }

  lemma ThreeMoves(c: Scene, pb: Key, pc: Key, pa': Key, pb': Key)
    requires ThreeSiblings(c, pb, pc, pa', pb')
    ensures MovesFor(c.tail, c.stood) == [To(11, pa'), To(12, pb')] && pb != []
  {
    var tail := c.tail;
    MoveCase.RisingAll(pb, pc, pa', pb');
    Transitive(c.stood[11], pb, pa');
    Irreflexive(pa');
    Irreflexive(pb');
    assert pb != [];
    hide Less;
    assert tail[..2] == [tail[0], tail[1]] && tail[..2][..1] == [tail[0]] && tail[..1][..0] == [];
    assert tail[..2][..1] == tail[..1];
    assert MovesFor(tail[..1], c.stood) == [];
    assert MovesFor(tail[..2], c.stood) == [To(11, pa')];
    assert tail[..3] == tail;
  }

  lemma ThreeRecorded(c: Scene, f: Forest, pb: Key, pc: Key, pa': Key, pb': Key)
    requires Fair(c) && Has(f, c) && ThreeSiblings(c, pb, pc, pa', pb') && pb != []
    ensures var known := RecordedIn(f) + PlacesOf([To(11, pa')]);
      && MoveCase.Holds(known, [Siblings.Sibling(12, pb), Siblings.Sibling(13, pc), Siblings.Sibling(11, pa')])
      && known + PlacesOf([To(12, pb')]) == known[12 := pb']
    ensures var known := RecordedIn(f) + PlacesOf([To(11, pa'), To(12, pb')]);
      MoveCase.Holds(known, [Siblings.Sibling(13, pc), Siblings.Sibling(11, pa'), Siblings.Sibling(12, pb')])
  {
    assert c.tail[0] in c.tail && c.tail[2] in c.tail;
    hide Has;
    StoodAt(f, c, 12);
    StoodAt(f, c, 13);
    PlacesOfTwo(11, pa', 12, pb');
    PlacesOfTwo(12, pb', 12, pb');
    hide PlacesOf, RecordedIn, Fair;
  }

  lemma BatchRecordsNothing(s: Run.Site, moves: seq<Moves.RemoteMove>)
    ensures Run.After(s, Run.Batch(moves)).recorded == s.recorded
  {
  }

  lemma OneAndOneTree(r: Run.Site, id: Id, position: Key, id': Id, position': Key, places: Moves.Positions)
    requires Run.Sound(r) && Run.Ready(r, Run.Batch(MovesOf([To(id, position)]))) && Moves.CanMove(r.tree, id, 0)
    requires Moves.CanMove(Moves.StepMove(Moves.Layout(r.tree, 0, map[]), id, 0, position, r.recorded).tree, id', 0)
    requires var e := Run.After(r, Run.Batch(MovesOf([To(id, position)])));
      var t := e.(recorded := e.recorded + places);
        Run.Sound(t) && Run.Ready(t, Run.Batch(MovesOf([To(id', position')])))
    ensures var e := Run.After(r, Run.Batch(MovesOf([To(id, position)])));
      Run.After(e.(recorded := e.recorded + places), Run.Batch(MovesOf([To(id', position')]))).tree ==
        Moves.StepMove(Moves.Layout(Moves.StepMove(Moves.Layout(r.tree, 0, map[]), id, 0, position, r.recorded).tree,
          0, map[]),
                       id', 0, position', r.recorded + places).tree
  {
    hide Run.Sound, Run.Ready, Run.After, Moves.CanMove, Moves.StepMove, MovesOf;
    OneMoveTree(r, id, position);
    var e := Run.After(r, Run.Batch(MovesOf([To(id, position)])));
    BatchRecordsNothing(r, MovesOf([To(id, position)]));
    OneMoveTree(e.(recorded := e.recorded + places), id', position');
  }

  lemma CutBetweenRun(s: Run.Site, f: Forest, u: seq<Op>, a: Siblings.Sibling, b: Siblings.Sibling,
      c: Siblings.Sibling, b': Siblings.Sibling)
    requires a.id == 11 && b.id == b'.id == 12 && c.id == 13
    requires MoveCase.Rising(b.position, c.position, a.position, b'.position)
    requires |u| == 499 && forall op :: op in u ==> op.Update?
    requires var ops := u + [To(11, a.position)] + [To(12, b'.position)];
      CanApplyAll(f, ops) && Run.Sound(s) && Run.AllReady(s, RunOf(f, ops))
    requires 0 in s.tree.children && 0 !in s.tree.parentOf && s.tree.children[0] == [11, 12, 13]
    requires var known := s.recorded + PlacesOf([To(11, a.position)]);
      && MoveCase.Holds(known, [b, c, a])
      && known + PlacesOf([To(12, b'.position)]) == known[12 := b'.position]
    ensures var r := Run.End(s, RunOf(f, u + [To(11, a.position)] + [To(12, b'.position)])).tree;
      0 in r.children && r.children[0] == [13, 11, 12]
  {
    assert Moves.WellFormed(s.tree);
    hide MoveCase.Holds, MoveCase.Rising, RunOf, PlacesOf, MovesOf, Less, Moves.WellFormed;
    hide Moves.CanMove, Moves.StepMove, Run.Sound, Run.Ready, Run.After, Run.AllReady, Run.End, CanApplyAll;
    var first, second := [To(11, a.position)], [To(12, b'.position)];
    TwoSlices(s, f, u, first, second);
    var known := s.recorded + PlacesOf(first);
    MoveCase.TwoBatchesEndSorted(s.tree, known, a, b, c, b');
    OneAndOneTree(s.(recorded := known), 11, a.position, 12, b'.position, PlacesOf(second));
  }

  /** The run that a scene of three siblings makes. */
  lemma ThreeStart(c: Scene, live: seq<LiveNode>, f: Forest, mode: Mode, t: Moves.Tree, pb: Key, pc: Key, pa': Key,
      pb': Key)
    returns (s: Run.Site, u: seq<Op>)
    requires Staged(c, live, f, t) && ThreeSiblings(c, pb, pc, pa', pb')
    ensures s.tree == t && s.recorded == RecordedIn(f) && |u| == c.n && (forall op :: op in u ==> op.Update?)
    ensures var ops := u + [To(11, pa'), To(12, pb')];
      && CanApplyAll(f, ops) && Run.Sound(s) && Run.AllReady(s, RunOf(f, ops))
      && RestoredTree(c, live, f, mode, t) == Run.End(s, RunOf(f, ops)).tree
    ensures 0 in t.children && 0 !in t.parentOf
  {
    assert Mirrors(t, f);
    HasFlat(f, c);
    RootIsOpen(f, t);
    ThreeMoves(c, pb, pc, pa', pb');
    SceneStarts(c, live, f, t, mode);
    hide Fair, Has, ThreeSiblings, Lists, Flat, Mirrors, RunOf, Renames, MovesFor, Planned, Run.Sound, Run.AllReady,
      Run.End, CanApplyAll, OutOfPlace;
    u := Renames(c.n, c.title);
    s := StartSite(NodesOf(c), f, mode, u + [To(11, pa'), To(12, pb')], t);
  }

  lemma OneByOne(u: seq<Op>, a: Op, b: Op)
    ensures u + [a] + [b] == u + [a, b]
  {
  }

  lemma CutBetween(c: Scene, live: seq<LiveNode>, f: Forest, mode: Mode, t: Moves.Tree, pb: Key, pc: Key, pa': Key,
      pb': Key)
    requires Staged(c, live, f, t) && ThreeSiblings(c, pb, pc, pa', pb')
    requires c.n == 499 && 0 in t.children && t.children[0] == [11, 12, 13]
    ensures var r := RestoredTree(c, live, f, mode, t); 0 in r.children && r.children[0] == [13, 11, 12]
  {
    assert MoveCase.Rising(pb, pc, pa', pb') && Fair(c) && Has(f, c);
    ThreeMoves(c, pb, pc, pa', pb');
    hide Staged, Fair, Has, MoveCase.Holds, MoveCase.Rising, RestoredTree, RunOf, PlacesOf, RecordedIn, Run.Sound,
      Run.AllReady, Run.End, CanApplyAll, MovesFor, Less;
    ThreeRecorded(c, f, pb, pc, pa', pb');
    hide ThreeSiblings;
    var s, u := ThreeStart(c, live, f, mode, t, pb, pc, pa', pb');
    OneByOne(u, To(11, pa'), To(12, pb'));
    CutBetweenRun(s, f, u, Siblings.Sibling(11, pa'), Siblings.Sibling(12, pb), Siblings.Sibling(13, pc),
      Siblings.Sibling(12, pb'));
  }

  lemma CutAfter(c: Scene, live: seq<LiveNode>, f: Forest, mode: Mode, t: Moves.Tree, pb: Key, pc: Key, pa': Key,
      pb': Key)
    requires Staged(c, live, f, t) && ThreeSiblings(c, pb, pc, pa', pb')
    requires c.n <= 498 && 0 in t.children && t.children[0] == [11, 12, 13]
    ensures var r := RestoredTree(c, live, f, mode, t); 0 in r.children && r.children[0] == [11, 13, 12]
  {
    assert Less(pc, pa') && Less(pa', pb') && Fair(c) && Has(f, c) && Moves.WellFormed(t);
    ThreeMoves(c, pb, pc, pa', pb');
    hide Staged, Fair, Has, Moves.WellFormed, RestoredTree, RunOf, PlacesOf, MovesOf, RecordedIn, Run.Sound,
      Run.AllReady, Run.End, CanApplyAll, MovesFor, Less;
    ThreeRecorded(c, f, pb, pc, pa', pb');
    hide ThreeSiblings, Moves.CanMove, Moves.StepMove, Run.Ready, Run.After;
    var s, u := ThreeStart(c, live, f, mode, t, pb, pc, pa', pb');
    var m := [To(11, pa'), To(12, pb')];
    OneSlice(s, f, u, m);
    var known := RecordedIn(f) + PlacesOf(m);
    MoveCase.OneBatchEndsUnsorted(t, known, Siblings.Sibling(11, pa'), Siblings.Sibling(12, pb'),
      Siblings.Sibling(13, pc));
    TwoMovesTree(s.(recorded := known), 11, pa', 12, pb');
  }

  /** After 499 other operations the two moves are in different slices, and the siblings
      end up as the point has them, C, A, B. After fewer they are in one, A is put
      before B, and they end up as A, C, B. */
  lemma TheCutDecides(c: Scene, live: seq<LiveNode>, f: Forest, mode: Mode, t: Moves.Tree, pb: Key, pc: Key, pa': Key,
      pb': Key)
    requires Staged(c, live, f, t) && ThreeSiblings(c, pb, pc, pa', pb')
    requires c.n <= 499 && 0 in t.children && t.children[0] == [11, 12, 13]
    ensures var r := RestoredTree(c, live, f, mode, t);
      0 in r.children && r.children[0] == if c.n == 499 then [13, 11, 12] else [11, 13, 12]
  {
    hide Fair, Has, Lists, Moves.WellFormed, Mirrors, ThreeSiblings, RestoredTree;
    if c.n == 499 {
      CutBetween(c, live, f, mode, t, pb, pc, pa', pb');
    } else {
      CutAfter(c, live, f, mode, t, pb, pc, pa', pb');
    }
  }

  // --- A move that is lost ---

  /** The point has B and A in this order under a root, where the browser has A and B,
      and nothing else. */
  ghost predicate TwoSiblings(c: Scene, pb: Key, pa': Key)
  {
    && c.n == 0 && c.tail == [FolderAt(12, pb), FolderAt(11, pa')] && Less(pb, pa')
    && c.stood.Keys == {11, 12} && Less(c.stood[11], pb) && c.stood[12] == pb
  }

  /** The scene once A's move is recorded. */
  function Recorded(c: Scene, pa': Key): Scene
  {
    c.(stood := c.stood[11 := pa'])
  }

  lemma TwoMovesFor(c: Scene, pb: Key, pa': Key)
    requires TwoSiblings(c, pb, pa')
    ensures Renames(c.n, c.title) + MovesFor(c.tail, c.stood) == [To(11, pa')]
    ensures Renames(c.n, c.title) + MovesFor(c.tail, Recorded(c, pa').stood) == []
  {
    Transitive(c.stood[11], pb, pa');
    Irreflexive(pa');
    var tail := c.tail;
    assert tail[..1][..0] == [];
    assert MovesFor(tail[..1], c.stood) == [] && MovesFor(tail[..1], Recorded(c, pa').stood) == [];
    assert tail[..2] == tail;
  }

  lemma NotesTheMove(f: Forest, id: Id, position: Key)
    ensures CutShort(f, [To(id, position)], 0, 1) == Noted(f, map[id := position])
  {
    var ops := [To(id, position)];
    assert ops[..0] == [] && ops[0..1] == ops;
    PlacesOfTwo(id, position, id, position);
    hide PlacesOf, Noted;
  }

  lemma NotedScene(c: Scene, f: Forest, pb: Key, pa': Key)
    requires Fair(c) && Has(f, c) && TwoSiblings(c, pb, pa')
    ensures Fair(Recorded(c, pa')) && Has(Noted(f, map[11 := pa']), Recorded(c, pa'))
  {
    assert c.tail[0] in c.tail && c.tail[1] in c.tail;
    assert NodesOf(Recorded(c, pa')) == NodesOf(c);
    hide PointIds, Less, NodesOf;
  }

  lemma OutOfOrder(c: Scene, f: Forest, t: Moves.Tree, pb: Key, pa': Key)
    requires Has(f, Recorded(c, pa')) && TwoSiblings(c, pb, pa') && 0 in t.children && t.children[0] == [11, 12]
    ensures !InPositionOrder(t, f, {})
  {
    assert c.tail[0] in c.tail && c.tail[1] in c.tail;
    assert pb != [] && pa' != [];
    StoodAt(f, Recorded(c, pa'), 11);
    StoodAt(f, Recorded(c, pa'), 12);
    hide Less, RecordedIn;
    assert Siblings.IndexOf([11, 12], 11) == 0 && Siblings.IndexOf([11, 12], 12) == 1 by {
      assert [11, 12][1..] == [12];
    }
  }

  /** A is to be moved behind B. Cut short with the move recorded and not made, the
      restore has nothing left to do, and A still stands before B. */
  lemma AMoveIsLost(c: Scene, live: seq<LiveNode>, f: Forest, mode: Mode, t: Moves.Tree, pb: Key, pa': Key,
      live': seq<LiveNode>)
    requires Staged(c, live, f, t) && TwoSiblings(c, pb, pa') && 0 in t.children && t.children[0] == [11, 12]
    requires Lists(live', CutShort(f, [To(11, pa')], 0, 1))
    ensures Planned(NodesOf(c), live, mode) == [To(11, pa')] && Planned(NodesOf(c), live', mode) == []
    ensures !InPositionOrder(t, CutShort(f, [To(11, pa')], 0, 1), {})
  {
    assert Fair(c) && Has(f, c) && Lists(live, f);
    hide Fair, Has, Lists, Less, Mirrors, Moves.WellFormed, Planned, CutShort, Renames, MovesFor, TwoSiblings,
      InPositionOrder;
    TwoMovesFor(c, pb, pa');
    NotesTheMove(f, 11, pa');
    NotedScene(c, f, pb, pa');
    ScenePlan(c, live, f, mode);
    ScenePlan(Recorded(c, pa'), live', Noted(f, map[11 := pa']), mode);
    OutOfOrder(c, Noted(f, map[11 := pa']), t, pb, pa');
  }
}
