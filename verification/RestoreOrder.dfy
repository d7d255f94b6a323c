// Whether a restore leaves siblings in the order of their positions.
module RestoreOrder {
  import opened Wrappers
  import opened Keys
  import opened BookmarkForest
  import opened Flatten
  import opened Planner
  import opened Restore
  import opened RestoreRun
  import Siblings
  import Moves = MoveBatch
  import Order = MoveOrder
  import Run = MoveRun
  import MoveClear

  /** Each folder's children stand in the order of the positions recorded for them,
      those in `out` aside. */
  ghost predicate InPositionOrder(t: Moves.Tree, f: Forest, out: set<Id>)
  {
    forall p :: p in t.children ==> Order.InOrder(t.children[p], RecordedIn(f), out)
  }

  /** No two children of a folder have the same position. */
  ghost predicate NoTwins(f: Forest)
  {
    forall x, y :: x in f && y in f && x != y && f[x].parent == f[y].parent && x in RecordedIn(f) && y in RecordedIn(f)
      ==> f[x].position != f[y].position
  }

  ghost function Planned(nodes: seq<PointNode>, live: seq<LiveNode>, mode: Mode): seq<Op>
  {
    PlanFor(nodes, live, mode, All).Operations()
  }

  /** What a restore has yet to put in its place or to remove. */
  ghost function OutOfPlace(nodes: seq<PointNode>, f: Forest, mode: Mode, ops: seq<Op>): set<Id>
  {
    PutBy(ops) + (f.Keys - Target(nodes, f, mode).Keys)
  }

  /** A restore that starts, nobody else being at the bookmarks. */
  ghost predicate Starts(nodes: seq<PointNode>, live: seq<LiveNode>, f: Forest, t: Moves.Tree)
  {
    Compatible(nodes, f) && Lists(live, f) && Moves.WellFormed(t) && Mirrors(t, f)
  }

  ghost function StartSite(nodes: seq<PointNode>, f: Forest, mode: Mode, ops: seq<Op>, t: Moves.Tree): Run.Site
  {
    Run.Site(t, RecordedIn(f), OutOfPlace(nodes, f, mode, ops))
  }

  lemma PutAreThePoints(nodes: seq<PointNode>, f: Forest, ops: seq<Op>)
    requires forall op :: op in ops ==> FromPhases(op, nodes, f)
    ensures PutBy(ops) <= PointIds(nodes)
  {
    forall x | x in PutBy(ops) ensures x in PointIds(nodes) {
      var op :| op in ops && Puts(op) && op.id == x;
      var i :| 0 <= i < |nodes| && nodes[i].o == x;
      assert nodes[i] in nodes;
    }
  }

  lemma StartsOnCourse(nodes: seq<PointNode>, live: seq<LiveNode>, f: Forest, mode: Mode, t: Moves.Tree)
    requires Starts(nodes, live, f, t)
    ensures var ops := Planned(nodes, live, mode);
      OnCourse(nodes, StartSite(nodes, f, mode, ops, t), f, mode, ops) && forall op :: op in ops ==>
        FromPhases(op, nodes, f)
  {
    var ops := Planned(nodes, live, mode);
    PlanIsPlan(nodes, live, f, mode);
    assert ValidNodes(nodes);
    hide Compatible, Lists, IsPlan, ValidNodes, PlanFor, Target;
    PlanShape(nodes, f, mode, ops);
    PutAreThePoints(nodes, f, ops);
    hide InPhases, OnceEach, PutBy, FromPhases, PointIds, Mirrors, Moves.WellFormed;
  }

  lemma ChildrenAre(t: Moves.Tree, g: Forest)
    requires Mirrors(t, g) && Moves.WellFormed(t)
    ensures forall p, x :: p in t.children && x in t.children[p] ==> x in g && g[x].parent == p
  {
    forall p, x | p in t.children && x in t.children[p] ensures x in g && g[x].parent == p {
      assert x in t.parentOf && t.parentOf[x] == p;
    }
  }

  lemma SameOrder(list: seq<Siblings.Id>, e: Run.Site, g: Forest)
    requires (forall x :: x in list ==> x in g) && Records(e.recorded, g) && e.out !! g.Keys
    ensures Order.InOrder(list, RecordedIn(g), {}) <==> Order.InOrder(list, e.recorded, e.out)
  {
    hide Siblings.IndexOf, Less, RecordedIn;
    assert forall x :: x in list ==>
      (x !in e.out && (x in e.recorded <==> x in RecordedIn(g))
        && (x in e.recorded ==> e.recorded[x] == RecordedIn(g)[x]));
  }

  lemma EndsUntied(e: Run.Site, g: Forest)
    requires Mirrors(e.tree, g) && Records(e.recorded, g) && Moves.WellFormed(e.tree) && NoTwins(g)
    ensures Run.Untied(e)
  {
    ChildrenAre(e.tree, g);
    assert forall x, y ::
      x in g && y in g && x != y && g[x].parent == g[y].parent && x in e.recorded && y in e.recorded ==>
      e.recorded[x] != e.recorded[y];
    hide Mirrors, Moves.WellFormed, Siblings.IndexOf, Records, NoTwins, RecordedIn;
    forall p, x, y | Order.StandsBefore(e.tree, p, x, y) && x in e.recorded && y in e.recorded
      ensures e.recorded[x] != e.recorded[y]
    {
      assert x != y;
    }
  }

  /** At the end nothing is out of place any more. */
  lemma EndsInPlace(e: Run.Site, g: Forest)
    requires Mirrors(e.tree, g) && Records(e.recorded, g) && e.out !! g.Keys && Moves.WellFormed(e.tree)
    ensures InPositionOrder(e.tree, g, {}) <==> Run.Sorted(e)
    ensures NoTwins(g) ==> Run.Untied(e)
  {
    ChildrenAre(e.tree, g);
    hide Mirrors, Order.InOrder;
    forall p | p in e.tree.children
      ensures Order.InOrder(e.tree.children[p], RecordedIn(g), {}) <==>
        Order.InOrder(e.tree.children[p], e.recorded, e.out)
    {
      SameOrder(e.tree.children[p], e, g);
    }
    hide Moves.WellFormed, NoTwins, Run.Untied, Records;
    if NoTwins(g) { EndsUntied(e, g); }
  }

  lemma OutIsGone(f: set<Id>, g: set<Id>, put: set<Id>, out: set<Id>)
    requires out == put + (f - g)
    ensures (out - put) !! g && f - g <= out
  {
  }

  /** A restore can be carried out in the browser, slice by slice, and ends there with
      its target, at its target's positions. The children of every folder then stand
      in the order of their positions if and only if, when it starts, those do that it
      neither puts in a place nor removes, and no node is put before a sibling that
      stands out of place itself. */
  lemma RestoredOrderIff(nodes: seq<PointNode>, live: seq<LiveNode>, f: Forest, mode: Mode, t: Moves.Tree)
    requires Starts(nodes, live, f, t)
    ensures var ops, target := Planned(nodes, live, mode), Target(nodes, f, mode);
      var s := StartSite(nodes, f, mode, ops, t);
      && CanApplyAll(f, ops) && Run.AllReady(s, RunOf(f, ops))
      && var e := Run.End(s, RunOf(f, ops));
        && Moves.WellFormed(e.tree) && Mirrors(e.tree, target) && Records(e.recorded, target)
        && (InPositionOrder(t, f, s.out) && Run.AptRun(s, RunOf(f, ops)) ==> InPositionOrder(e.tree, target, {}))
        && (NoTwins(target) ==>
              (InPositionOrder(e.tree, target, {}) <==> InPositionOrder(t, f, s.out) && Run.AptRun(s, RunOf(f, ops))))
  {
    var ops, target := Planned(nodes, live, mode), Target(nodes, f, mode);
    var s := StartSite(nodes, f, mode, ops, t);
    StartsOnCourse(nodes, live, f, mode, t);
    assert Run.Sound(s);
    assert Run.Sorted(s) <==> InPositionOrder(t, f, s.out);
    hide Starts, Planned, Target, InPositionOrder, Run.Sorted, RunOf, OnCourse, NoTwins, Mirrors, Records, Run.AptRun,
      Run.AllReady, Run.SparesAll;
    PlanRuns(nodes, s, f, mode, ops);
    var e := Run.End(s, RunOf(f, ops));
    OutIsGone(f.Keys, target.Keys, PutBy(ops), s.out);
    hide PutBy, OutOfPlace, Run.End;
    assert Moves.WellFormed(e.tree);
    hide Run.Sound, Moves.WellFormed;
    EndsInPlace(e, target);
    hide Run.Untied;
    Run.RunInOrderIff(s, RunOf(f, ops));
  }

  // --- A condition read off the plan ---

  /** The order in which a plan puts nodes in their places: slice by slice, a slice's
      moves and then its new nodes. */
  function PlacedInTurn(ops: seq<Op>): (turn: seq<Op>)
    ensures forall op :: op in turn ==> Puts(op)
    decreases |ops|
  {
    if ops == [] then []
    else
      var k := SliceLength(ops);
      Only(ops[..k], 2) + Only(ops[..k], 0) + PlacedInTurn(ops[k..])
  }

  /** The folder that a node stands in until it is put in its place. */
  function HomesOf(f: Forest, ops: seq<Op>): (homes: map<Id, Id>)
    ensures f.Keys <= homes.Keys
  {
    if ops == [] then map x | x in f :: f[x].parent
    else
      var homes, last := HomesOf(f, ops[..|ops| - 1]), ops[|ops| - 1];
      if last.Restore? then homes[last.id := last.parent] else homes
  }

  /** Where nodes stand, and what is or will be recorded for them. */
  function MarksOf(f: Forest, ops: seq<Op>): MoveClear.Marks
  {
    MoveClear.Marks(HomesOf(f, ops), RecordedIn(f), PlacesOf(ops))
  }

  ghost predicate HomesEach(f: Forest, ops: seq<Op>, homes: map<Id, Id>)
  {
    && (forall op :: op in ops && op.Restore? ==> op.id in homes && homes[op.id] == op.parent)
    && (forall x :: x in f && (forall op :: op in ops && op.Restore? ==> op.id != x) ==>
      x in homes && homes[x] == f[x].parent)
  }

  lemma HomesStep(f: Forest, ops: seq<Op>, last: Op, homes: map<Id, Id>)
    requires HomesEach(f, ops, homes) && forall op :: op in ops && op.Restore? && last.Restore? ==> op.id != last.id
    ensures HomesEach(f, ops + [last], if last.Restore? then homes[last.id := last.parent] else homes)
  {
    assert forall op :: op in ops + [last] <==> op in ops || op == last;
  }

  lemma {:induction false} HomesAre(f: Forest, ops: seq<Op>)
    requires OnceEach(ops)
    ensures HomesEach(f, ops, HomesOf(f, ops))
  {
    if ops != [] {
      var n := |ops| - 1;
      SliceShapeButLast(ops);
      LastApart(ops);
      HomesAre(f, ops[..n]);
      hide OnceEach, HomesEach;
      HomesStep(f, ops[..n], ops[n], HomesOf(f, ops[..n]));
      assert ops == ops[..n] + [ops[n]];
    }
  }

  lemma {:induction false} MovesInApart(a: seq<Run.Stage>, b: seq<Run.Stage>)
    ensures MoveClear.MovesIn(a + b) == MoveClear.MovesIn(a) + MoveClear.MovesIn(b)
  {
    if a == [] {
      assert a + b == b;
    } else {
      assert (a + b)[0] == a[0] && (a + b)[1..] == a[1..] + b;
      MovesInApart(a[1..], b);
    }
  }

  lemma {:induction false} CreatesMoveNothing(ops: seq<Op>)
    requires forall op :: op in ops ==> op.Restore?
    ensures MoveClear.MovesIn(CreatesOf(ops)) == []
  {
    if ops != [] {
      assert ops[0] in ops && forall op :: op in ops[1..] ==> op in ops;
      assert CreatesOf(ops)[1..] == CreatesOf(ops[1..]);
      CreatesMoveNothing(ops[1..]);
    }
  }

  lemma MovesOfApart(a: seq<Op>, b: seq<Op>)
    requires (forall op :: op in a ==> Puts(op)) && (forall op :: op in b ==> Puts(op))
    ensures MovesOf(a + b) == MovesOf(a) + MovesOf(b)
  {
  }

  lemma LastThree(m: seq<Moves.RemoteMove>, gone: set<Id>, r: seq<Moves.RemoteMove>)
    ensures MoveClear.MovesIn([Run.Batch(m), Run.Remove(gone), Run.Batch(r)]) == m + r
  {
    var stages := [Run.Batch(m), Run.Remove(gone), Run.Batch(r)];
    assert stages[1..] == [Run.Remove(gone), Run.Batch(r)] && stages[1..][1..] == [Run.Batch(r)]
      && [Run.Batch(r)][1..] == [];
    assert MoveClear.MovesIn([Run.Batch(r)]) == r + [] == r;
    assert MoveClear.MovesIn(stages[1..]) == [] + r == r;
  }

  lemma SliceMovesInTurn(f: Forest, slice: seq<Op>)
    requires CanApplyAll(f, slice)
    ensures MoveClear.MovesIn(StagesOf(f, slice)) == MovesOf(Only(slice, 2)) + MovesOf(Only(slice, 0))
  {
    hide CanApplyAll, ApplyAll;
    var r, m, gone, places := Only(slice, 0), Only(slice, 2), GoneWith(f, slice), PlacesOf(slice);
    CreatesMoveNothing(r);
    LastThree(MovesOf(m), gone, MovesOf(r));
    assert [Run.Record(places)][1..] == [] && MoveClear.MovesIn([Run.Record(places)]) == [] + [] == [];
    hide MoveClear.MovesIn, CreatesOf, GoneWith, PlacesOf, Only;
    MovesInApart([Run.Record(places)], CreatesOf(r));
    MovesInApart([Run.Record(places)] + CreatesOf(r), [Run.Batch(MovesOf(m)), Run.Remove(gone), Run.Batch(MovesOf(r))]);
  }

  lemma {:induction false} RunMovesInTurn(f: Forest, ops: seq<Op>)
    requires CanApplyAll(f, ops)
    ensures MoveClear.MovesIn(RunOf(f, ops)) == MovesOf(PlacedInTurn(ops))
    decreases |ops|
  {
    if ops != [] {
      var k := SliceLength(ops);
      RunOfSlices(f, ops, k);
      SliceMovesInTurn(f, ops[..k]);
      RunMovesInTurn(ApplyAll(f, ops[..k]), ops[k..]);
      var r, m, rest := Only(ops[..k], 0), Only(ops[..k], 2), PlacedInTurn(ops[k..]);
      hide StagesOf, RunOf, MoveClear.MovesIn, CanApplyAll, ApplyAll, Only, SliceLength;
      MovesInApart(StagesOf(f, ops[..k]), RunOf(ApplyAll(f, ops[..k]), ops[k..]));
      MovesOfApart(m, r);
      MovesOfApart(m + r, rest);
    }
  }

  // --- The stages fit ---

  lemma {:induction false} CreatesFit(k: MoveClear.Marks, ops: seq<Op>, stage: Run.Stage)
    requires forall op :: op in ops ==> op.Restore? && op.id in k.home && k.home[op.id] == op.parent
    requires stage in CreatesOf(ops)
    ensures MoveClear.Fits(k, stage)
  {
    if stage != CreateOf(ops[0]) {
      assert ops[0] in ops && forall op :: op in ops[1..] ==> op in ops;
      CreatesFit(k, ops[1..], stage);
    }
  }

  lemma RecordFits(k: MoveClear.Marks, slice: seq<Op>)
    requires OnceEach(slice) && RecordsEach(slice, k.planned)
    ensures MoveClear.Fits(k, Run.Record(PlacesOf(slice)))
  {
    PlacesAre(slice);
    hide PlacesOf, OnceEach;
    forall x | x in PlacesOf(slice) ensures x in k.planned && k.planned[x] == PlacesOf(slice)[x] {
      assert x in PutBy(slice);
      var op :| op in slice && Puts(op) && op.id == x;
    }
  }

  ghost predicate FitsOps(k: MoveClear.Marks, ops: seq<Op>)
  {
    RecordsEach(ops, k.planned) && forall op :: op in ops && op.Restore? ==>
      op.id in k.home && k.home[op.id] == op.parent
  }

  lemma SliceFits(k: MoveClear.Marks, f: Forest, slice: seq<Op>, stage: Run.Stage)
    requires CanApplyAll(f, slice) && OnceEach(slice) && FitsOps(k, slice) && stage in StagesOf(f, slice)
    ensures MoveClear.Fits(k, stage)
  {
    var r := Only(slice, 0);
    RecordFits(k, slice);
    hide CanApplyAll, ApplyAll, OnceEach, RecordsEach, PlacesOf;
    if stage in CreatesOf(r) { CreatesFit(k, r, stage); }
  }

  lemma FitsApart(k: MoveClear.Marks, ops: seq<Op>, n: nat)
    requires FitsOps(k, ops) && n <= |ops|
    ensures FitsOps(k, ops[..n]) && FitsOps(k, ops[n..])
  {
  }

  lemma {:induction false} RunFits(k: MoveClear.Marks, f: Forest, ops: seq<Op>, stage: Run.Stage)
    requires CanApplyAll(f, ops) && InPhases(ops) && OnceEach(ops) && FitsOps(k, ops) && stage in RunOf(f, ops)
    ensures MoveClear.Fits(k, stage)
    decreases |ops|
  {
    hide StagesOf, CanApplyAll, ApplyAll, OnceEach, InPhases, FitsOps, MoveClear.Fits, RecordsEach;
    if ops != [] {
      var n := SliceLength(ops);
      RunOfSlices(f, ops, n);
      hide RunOf, SliceLength;
      SliceShape(ops, n);
      FitsApart(k, ops, n);
      assert stage in StagesOf(f, ops[..n]) || stage in RunOf(ApplyAll(f, ops[..n]), ops[n..]);
      if stage in StagesOf(f, ops[..n]) {
        SliceFits(k, f, ops[..n], stage);
      } else {
        RunFits(k, ApplyAll(f, ops[..n]), ops[n..], stage);
      }
    }
  }

  /** Nothing that is out of place, and is put in its place later or not at all,
      stands where a node is put, at a greater position: neither the position recorded
      for it nor the one it is to have. */
  ghost predicate NoneAbove(f: Forest, ops: seq<Op>, out: set<Id>)
  {
    var turn := PlacedInTurn(ops);
    forall i, u :: 0 <= i < |turn| && u in out && u !in PutBy(turn[..i + 1]) ==>
      MoveClear.NotAbove(MarksOf(f, ops), u, turn[i].parent, turn[i].position)
  }

  lemma NoneAboveIsClear(f: Forest, ops: seq<Op>, out: set<Id>)
    requires NoneAbove(f, ops, out)
    ensures MoveClear.Clear(MarksOf(f, ops), out, MovesOf(PlacedInTurn(ops)))
  {
    var turn := PlacedInTurn(ops);
    var moves := MovesOf(turn);
    hide MoveClear.NotAbove, PlacedInTurn, MarksOf;
    forall i, u | 0 <= i < |moves| && u in out && u !in Moves.Movers(moves[..i + 1]) && moves[i].parent.Some?
      ensures MoveClear.NotAbove(MarksOf(f, ops), u, moves[i].parent.value, moves[i].position)
    {
      assert moves[..i + 1] == MovesOf(turn[..i + 1]) by { assert forall op :: op in turn[..i + 1] ==> op in turn; }
      MoversAre(turn[..i + 1]);
      hide PutBy, Moves.Movers;
      assert moves[i] == MoveOf(turn[i]);
    }
  }

  lemma StartsAtHome(nodes: seq<PointNode>, f: Forest, ops: seq<Op>, t: Moves.Tree, out: set<Id>)
    requires Mirrors(t, f) && OnceEach(ops) && forall op :: op in ops ==> FromPhases(op, nodes, f)
    ensures MoveClear.AtHome(MarksOf(f, ops), t, RecordedIn(f), out)
  {
    HomesAre(f, ops);
    hide OnceEach, RecordedIn, PlacesOf;
    assert forall op :: op in ops && op.Restore? ==> op.id !in f;
  }

  /** So they do if those that the restore neither puts in a place nor removes do when
      it starts, and nothing out of place is ever above a node that is put next to it. */
  lemma RestoredInOrder(nodes: seq<PointNode>, live: seq<LiveNode>, f: Forest, mode: Mode, t: Moves.Tree)
    requires Starts(nodes, live, f, t)
    requires var ops := Planned(nodes, live, mode); var out := OutOfPlace(nodes, f, mode, ops);
      InPositionOrder(t, f, out) && NoneAbove(f, ops, out)
    ensures var ops := Planned(nodes, live, mode);
      var s := StartSite(nodes, f, mode, ops, t);
      && CanApplyAll(f, ops) && Run.AllReady(s, RunOf(f, ops))
      && InPositionOrder(Run.End(s, RunOf(f, ops)).tree, Target(nodes, f, mode), {})
  {
    var ops := Planned(nodes, live, mode);
    var s := StartSite(nodes, f, mode, ops, t);
    RestoredOrderIff(nodes, live, f, mode, t);
    StartsOnCourse(nodes, live, f, mode, t);
    assert Run.Sound(s) && Mirrors(t, f) && InPhases(ops) && OnceEach(ops);
    assert Run.Sorted(s) <==> InPositionOrder(t, f, s.out);
    hide Starts, OnCourse, Planned, Target, InPositionOrder, Run.Sorted, Run.Sound, Mirrors, InPhases, OnceEach,
      RunOf, Run.AptRun;
    hide CanApplyAll, NoneAbove, FromPhases, Run.AllReady, Run.End, Moves.WellFormed;
    NoneAboveIsApt(nodes, s, f, ops, OutOfPlace(nodes, f, mode, ops));
  }

  lemma NoneAboveIsApt(nodes: seq<PointNode>, s: Run.Site, f: Forest, ops: seq<Op>, out: set<Id>)
    requires Run.Sound(s) && Run.Sorted(s) && Mirrors(s.tree, f) && s.recorded == RecordedIn(f) && InPhases(ops)
    requires OnceEach(ops)
    requires CanApplyAll(f, ops) && Run.AllReady(s, RunOf(f, ops)) && NoneAbove(f, ops, out) && s.out == out
    requires forall op :: op in ops ==> FromPhases(op, nodes, f)
    ensures Run.AptRun(s, RunOf(f, ops))
  {
    hide Run.Sorted, Run.Sound, Mirrors, InPhases, OnceEach, RunOf, Run.AptRun, CanApplyAll, NoneAbove, Run.AllReady;
    var k := MarksOf(f, ops);
    StartsAtHome(nodes, f, ops, s.tree, out);
    NoneAboveIsClear(f, ops, out);
    RunMovesInTurn(f, ops);
    PlacesAre(ops);
    HomesAre(f, ops);
    hide FromPhases, PutBy, HomesOf, PlacesOf, PlacedInTurn, RecordedIn, MoveClear.AtHome, MoveClear.Clear;
    assert FitsOps(k, ops) by { hide RecordsEach; }
    hide FitsOps, HomesEach, RecordsEach, MoveClear.MovesIn, MarksOf;
    forall stage | stage in RunOf(f, ops) ensures MoveClear.Fits(k, stage) { RunFits(k, f, ops, stage); }
    hide MoveClear.Fits;
    MoveClear.ClearRunIsApt(k, s, RunOf(f, ops));
  }
}
