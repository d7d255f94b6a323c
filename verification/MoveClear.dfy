// A condition read off the moves alone, under which no mover of a run is put before a
// sibling standing out of place.
module MoveClear {
  import opened Wrappers
  import opened Keys
  import opened Siblings
  import opened MoveBatch
  import opened MoveOrder
  import opened MoveRun

  // While a node is out of place: the folder it stands in, and the two positions that
  // may be recorded for it.
  datatype Marks = Marks(home: map<Id, Id>, was: Positions, planned: Positions)

  ghost predicate NotAbove(k: Marks, u: Id, parent: Id, position: Key)
  {
    u in k.home && k.home[u] == parent ==>
      (u in k.was ==> !Less(position, k.was[u])) && (u in k.planned ==> !Less(position, k.planned[u]))
  }

  /** Whatever is out of place and not moved before a mover is not above it in the
      folder that the mover goes to. */
  ghost predicate Clear(k: Marks, out: set<Id>, moves: seq<RemoteMove>)
  {
    forall i, u :: 0 <= i < |moves| && u in out && u !in Movers(moves[..i + 1]) && moves[i].parent.Some? ==>
      NotAbove(k, u, moves[i].parent.value, moves[i].position)
  }

  lemma MoversApart(a: seq<RemoteMove>, b: seq<RemoteMove>)
    ensures Movers(a + b) == Movers(a) + Movers(b)
  {
    forall x | x in Movers(a + b) ensures x in Movers(a) + Movers(b) {
      var m :| m in a + b && m.mover == Some(x);
      assert m in a || m in b;
    }
    forall x | x in Movers(a) + Movers(b) ensures x in Movers(a + b) {
      if x in Movers(a) {
        var m :| m in a && m.mover == Some(x);
        assert m in a + b;
      } else {
        var m :| m in b && m.mover == Some(x);
        assert m in a + b;
      }
    }
  }

  lemma ClearApart(k: Marks, out: set<Id>, a: seq<RemoteMove>, b: seq<RemoteMove>)
    requires Clear(k, out, a + b)
    ensures Clear(k, out, a) && Clear(k, out - Movers(a), b)
  {
    var moves := a + b;
    hide NotAbove, Movers;
    forall i, u | 0 <= i < |a| && u in out && u !in Movers(a[..i + 1]) && a[i].parent.Some?
      ensures NotAbove(k, u, a[i].parent.value, a[i].position)
    {
      assert moves[..i + 1] == a[..i + 1] && moves[i] == a[i];
    }
    forall i, u | 0 <= i < |b| && u in out - Movers(a) && u !in Movers(b[..i + 1]) && b[i].parent.Some?
      ensures NotAbove(k, u, b[i].parent.value, b[i].position)
    {
      var j := |a| + i;
      assert moves[..j + 1] == a + b[..i + 1] && moves[j] == b[i];
      MoversApart(a, b[..i + 1]);
    }
  }

  /** What is out of place stands in its old folder, at one of its two positions. */
  ghost predicate AtHome(k: Marks, t: Tree, recorded: Positions, out: set<Id>)
  {
    forall u :: u in out ==>
      && (u in t.parentOf ==> u in k.home && k.home[u] == t.parentOf[u])
      && (u in recorded ==> (u in k.was && recorded[u] == k.was[u]) || (u in k.planned && recorded[u] == k.planned[u]))
  }

  // --- One batch ---

  ghost predicate MidClear(k: Marks, a: Applied, moves: seq<RemoteMove>, known: Positions, movers: set<Id>)
  {
    && TidyRun(a, known, movers) && PlacedPositions(known, a.placed) == known
    && AtHome(k, a.layout.tree, known, movers - IdsOf(a.placed)) && Clear(k, movers - IdsOf(a.placed), moves)
    && forall m :: m in moves ==>
      m.mover.Some? && m.parent.Some? && m.mover.value in known && known[m.mover.value] == m.position
  }

  lemma NotAboveHere(k: Marks, t: Tree, known: Positions, waiting: set<Id>, moves: seq<RemoteMove>, u: Id)
    requires AtHome(k, t, known, waiting) && Clear(k, waiting, moves)
    requires moves != [] && moves[0].mover.Some? && moves[0].parent.Some?
    requires u in waiting && moves[0].mover != Some(u) && u in t.parentOf && moves[0].parent == Some(t.parentOf[u])
    requires u in known
    ensures !Less(moves[0].position, known[u])
  {
    assert Movers(moves[..1]) == {moves[0].mover.value} by { assert moves[..1] == [moves[0]]; }
    hide Less, Movers;
    assert NotAbove(k, u, moves[0].parent.value, moves[0].position);
  }

  lemma ChildrenOf(t: Tree, p: Id)
    requires WellFormed(t) && p in t.children
    ensures forall u :: u in t.children[p] ==> u in t.parentOf && t.parentOf[u] == p
  {
  }

  lemma MidClearApt(k: Marks, a: Applied, moves: seq<RemoteMove>, known: Positions, movers: set<Id>)
    requires MidClear(k, a, moves, known, movers) && moves != [] && CarriedOut(a, moves[0])
    ensures AptAt(a.layout, known, known, movers - IdsOf(a.placed), moves[0].mover.value, moves[0].parent.value,
      moves[0].position)
  {
    var id, parent, position, l := moves[0].mover.value, moves[0].parent.value, moves[0].position, a.layout;
    var waiting := movers - IdsOf(a.placed);
    var order := ParentOrder(l, parent, known);
    assert WellFormed(l.tree);
    hide WellFormed, AtHome, Clear, Drop, ParentOrder, Tidy, Less, Without, IndexOf, IdsOf;
    OrderTidy(l, known, known, waiting, parent);
    DropMembers(order.sorted, id);
    ChildrenOf(l.tree, parent);
    hide TidyOrder;
    var d := Drop(order.sorted, id);
    forall s | s in d && s.id in waiting ensures !Less(position, s.position) {
      NotAboveHere(k, l.tree, known, waiting, moves, s.id);
    }
    assert FirstAbove(d, position) < |d| ==> d[FirstAbove(d, position)] in d;
  }

  lemma HomeStep(k: Marks, t: Tree, u: Tree, known: Positions, waiting: set<Id>, id: Id, parent: Id)
    requires AtHome(k, t, known, waiting) && u.parentOf == t.parentOf[id := parent]
    ensures AtHome(k, u, known, waiting - {id})
  {
  }

  lemma AppliedNext(a: Applied, m: RemoteMove, known: Positions)
    requires !a.failed && CarriedOut(a, m)
    ensures var b := ApplyOne(a, m, known);
      b.placed == a.placed + [Sibling(m.mover.value, m.position)]
        && b.layout.tree.parentOf == a.layout.tree.parentOf[m.mover.value := m.parent.value]
  {
    StepParents(a.layout, m.mover.value, m.parent.value, m.position, known);
    hide StepMove, CanMove;
  }

  lemma MidClearStep(k: Marks, a: Applied, moves: seq<RemoteMove>, known: Positions, movers: set<Id>)
    requires MidClear(k, a, moves, known, movers) && moves != [] && !a.failed && CarriedOut(a, moves[0])
    requires TidyRun(ApplyOne(a, moves[0], known), known, movers)
    ensures MidClear(k, ApplyOne(a, moves[0], known), moves[1..], known, movers)
  {
    hide TidyRun, CanMove, StepMove, PlacedPositions, IdsOf, NotAbove, Clear, AtHome;
    var m := moves[0];
    assert m in moves && forall n :: n in moves[1..] ==> n in moves;
    var id, waiting := m.mover.value, movers - IdsOf(a.placed);
    AppliedNext(a, m, known);
    OneMorePlaced(known, a.placed, Sibling(id, m.position));
    assert known[id := m.position] == known;
    var b := ApplyOne(a, m, known);
    HomeStep(k, a.layout.tree, b.layout.tree, known, waiting, id, m.parent.value);
    assert movers - IdsOf(b.placed) == waiting - {id};
    hide ApplyOne, CarriedOut;
    ClearTail(k, waiting, moves);
  }

  lemma ClearTail(k: Marks, waiting: set<Id>, moves: seq<RemoteMove>)
    requires moves != [] && moves[0].mover.Some? && Clear(k, waiting, moves)
    ensures Clear(k, waiting - {moves[0].mover.value}, moves[1..])
  {
    assert Movers([moves[0]]) == {moves[0].mover.value};
    assert moves == [moves[0]] + moves[1..];
    hide Clear, Movers;
    ClearApart(k, waiting, [moves[0]], moves[1..]);
  }

  lemma {:induction false} ClearIsApt(k: Marks, a: Applied, moves: seq<RemoteMove>, known: Positions, movers: set<Id>)
    requires MidClear(k, a, moves, known, movers)
    ensures AllApt(a, moves, known, movers)
    decreases |moves|
  {
    if moves != [] && !a.failed {
      assert moves[0] in moves;
      if CarriedOut(a, moves[0]) {
        MidClearApt(k, a, moves, known, movers);
        hide AptAt, ApplyOne, CarriedOut;
        TidyRunStep(a, moves[0], known, movers);
        MidClearStep(k, a, moves, known, movers);
        hide MidClear, TidyRun;
        ClearIsApt(k, ApplyOne(a, moves[0], known), moves[1..], known, movers);
      } else {
        FailsHere(a, moves[0], known);
      }
    }
  }

  lemma FailsHere(a: Applied, m: RemoteMove, known: Positions)
    requires !a.failed && m.mover.Some? && m.parent.Some? && !CarriedOut(a, m)
    ensures ApplyOne(a, m, known).failed
  {
  }

  // --- A whole run ---

  /** A stage records planned positions and creates nodes in their folders. */
  ghost predicate Fits(k: Marks, stage: Stage)
  {
    match stage
    case Record(positions) => forall x :: x in positions ==> x in k.planned && k.planned[x] == positions[x]
    case Create(id, parent, _) => id in k.home && k.home[id] == parent
    case Batch(_) => true
    case Remove(_) => true
  }

  /** All moves of a run, in the order in which they are made. */
  function MovesIn(stages: seq<Stage>): seq<RemoteMove>
  {
    if stages == [] then []
    else (if stages[0].Batch? then stages[0].moves else []) + MovesIn(stages[1..])
  }

  lemma {:induction false} MovesKeepOthers(a: Applied, moves: seq<RemoteMove>, changes: seq<Option<Tree>>,
      known: Positions, u: Id)
    requires |changes| == |moves| && Undisturbed(changes) && u !in Movers(moves)
    ensures var t, r := a.layout.tree.parentOf, ApplyMoves(a, moves, changes, known).layout.tree.parentOf;
      (u in r <==> u in t) && (u in r ==> r[u] == t[u])
    decreases |moves|
  {
    if moves != [] && !a.failed {
      assert changes[0] in changes && Observe(a.layout, changes[0]) == a.layout && a.(layout := a.layout) == a;
      assert moves[0] in moves && (forall c :: c in changes[1..] ==> c in changes)
        && Movers(moves[1..]) <= Movers(moves);
      if CarriedOut(a, moves[0]) {
        StepParents(a.layout, moves[0].mover.value, moves[0].parent.value, moves[0].position, known);
      }
      hide StepMove, CanMove;
      var b := ApplyOne(a, moves[0], known);
      assert (u in b.layout.tree.parentOf <==> u in a.layout.tree.parentOf)
        && (u in b.layout.tree.parentOf ==> b.layout.tree.parentOf[u] == a.layout.tree.parentOf[u]);
      hide ApplyOne, Movers;
      MovesKeepOthers(b, moves[1..], changes[1..], known, u);
    }
  }

  lemma ClearBatchIsApt(k: Marks, s: Site, moves: seq<RemoteMove>)
    requires Sound(s) && Sorted(s) && Ready(s, Batch(moves)) && AtHome(k, s.tree, s.recorded, s.out)
    requires Clear(k, s.out, moves)
    ensures AptStage(s, Batch(moves))
  {
    BatchPositions(s, moves);
    StartsTidyHere(s);
    assert s.out - IdsOf([]) == s.out && PlacedPositions(s.recorded, []) == s.recorded;
    hide Sound, Sorted, AllApt, TidyRun, AtHome, Clear;
    ClearIsApt(k, Start(s.tree, 0, {}), moves, s.recorded, s.out);
  }

  lemma StageKeepsHome(k: Marks, s: Site, stage: Stage)
    requires Ready(s, stage) && Fits(k, stage) && AtHome(k, s.tree, s.recorded, s.out)
    ensures var t := After(s, stage); AtHome(k, t.tree, t.recorded, t.out)
  {
    match stage
    case Record(positions) =>
    case Create(id, parent, folder) =>
    case Batch(moves) =>
      hide OfRecorded, Movers;
      forall u | u in s.out - Movers(moves)
        ensures var t, r := s.tree.parentOf, BatchEnd(s, moves).layout.tree.parentOf;
          (u in r <==> u in t) && (u in r ==> r[u] == t[u])
      {
        MovesKeepOthers(Start(s.tree, 0, {}), moves, Quiet(|moves|), EffectivePositions(s.recorded, moves), u);
      }
      hide BatchEnd;
    case Remove(gone) =>
  }

  lemma StageKeepsClear(k: Marks, s: Site, stages: seq<Stage>)
    requires stages != [] && Ready(s, stages[0]) && Clear(k, s.out, MovesIn(stages))
    ensures Clear(k, After(s, stages[0]).out, MovesIn(stages[1..]))
    ensures stages[0].Batch? ==> Clear(k, s.out, stages[0].moves)
  {
    hide Clear, Ready;
    var rest := MovesIn(stages[1..]);
    if stages[0].Batch? {
      ClearApart(k, s.out, stages[0].moves, rest);
    } else {
      assert [] + rest == rest;
    }
  }

  /** A run whose moves are clear is apt throughout. */
  lemma {:induction false} ClearRunIsApt(k: Marks, s: Site, stages: seq<Stage>)
    requires Sound(s) && Sorted(s) && AllReady(s, stages) && AtHome(k, s.tree, s.recorded, s.out)
    requires (forall stage :: stage in stages ==> Fits(k, stage)) && Clear(k, s.out, MovesIn(stages))
    ensures AptRun(s, stages)
    decreases |stages|
  {
    if stages != [] {
      var stage := stages[0];
      assert stage in stages && forall t :: t in stages[1..] ==> t in stages;
      hide Sound, Sorted, Ready, AptStage, AtHome, Fits, Clear, MovesIn;
      StageKeepsClear(k, s, stages);
      if stage.Batch? { ClearBatchIsApt(k, s, stage.moves); } else { NoBatchIsApt(s, stage); }
      StageKeepsSound(s, stage);
      StageKeepsSorted(s, stage);
      StageKeepsHome(k, s, stage);
      ClearRunIsApt(k, After(s, stage), stages[1..]);
    }
  }
}
