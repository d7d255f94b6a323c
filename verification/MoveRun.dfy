// Several batches of moves, with nodes created, positions recorded and nodes removed
// between them: when such a run leaves every folder's children in position order.
module MoveRun {
  import opened Wrappers
  import opened Keys
  import opened Siblings
  import opened MoveBatch
  import opened MoveOrder

  // A new node goes to the end of its folder.
  datatype Stage =
    | Record(positions: Positions)
    | Create(id: Id, parent: Id, folder: bool)
    | Batch(moves: seq<RemoteMove>)
    | Remove(gone: set<Id>)

  // `out`: the nodes that need not stand in order: those still to be put in their
  // places, and those that never will be.
  datatype Site = Site(tree: Tree, recorded: Positions, out: set<Id>)

  function Appended(t: Tree, id: Id, parent: Id, folder: bool): Tree
    requires parent in t.children
  {
    var grown := t.children[parent := t.children[parent] + [id]];
    Tree(if folder then grown[id := []] else grown, t.parentOf[id := parent])
  }

  function Kept(list: seq<Id>, gone: set<Id>): (kept: seq<Id>)
    ensures forall x :: x in kept <==> x in list && x !in gone
  {
    if list == [] then []
    else (if list[0] in gone then [] else [list[0]]) + Kept(list[1..], gone)
  }

  function Pruned(t: Tree, gone: set<Id>): Tree
  {
    Tree(map p | p in t.children && p !in gone :: Kept(t.children[p], gone),
         map x | x in t.parentOf && x !in gone :: t.parentOf[x])
  }

  function Quiet(n: nat): (changes: seq<Option<Tree>>)
    ensures |changes| == n && forall i :: 0 <= i < n ==> changes[i] == None
  {
    seq(n, _ => None)
  }

  /** How a batch ends. Nobody else is at the bookmarks. */
  function BatchEnd(s: Site, moves: seq<RemoteMove>): Applied
  {
    ApplyMoves(Start(s.tree, 0, {}), moves, Quiet(|moves|), EffectivePositions(s.recorded, moves))
  }

  function After(s: Site, stage: Stage): Site
    requires stage.Create? ==> stage.parent in s.tree.children
  {
    match stage
    case Record(positions) => s.(recorded := s.recorded + positions)
    case Create(id, parent, folder) => s.(tree := Appended(s.tree, id, parent, folder))
    case Batch(moves) => s.(tree := BatchEnd(s, moves).layout.tree, out := s.out - Movers(moves))
    case Remove(gone) => s.(tree := Pruned(s.tree, gone))
  }

  /** The moves are of nodes whose new positions are recorded, each moved once. */
  ghost predicate OfRecorded(s: Site, moves: seq<RemoteMove>)
  {
    && DistinctMovers(moves) && Movers(moves) <= s.out
    && (forall m :: m in moves ==>
          m.mover.Some? && m.parent.Some? && m.mover.value in s.recorded && s.recorded[m.mover.value] == m.position)
  }

  /** What a stage may be: it records, creates and moves nodes that are out of place,
      the browser takes every move, and what is removed is whole subtrees. */
  ghost predicate Ready(s: Site, stage: Stage)
  {
    match stage
    case Record(positions) => positions.Keys <= s.out && forall x :: x in positions ==> positions[x] != []
    case Create(id, parent, _) => id in s.out && id !in s.tree.parentOf && id !in s.tree.children
      && parent in s.tree.children
    case Batch(moves) =>
      OfRecorded(s, moves) && !BatchEnd(s, moves).failed && IdsOf(BatchEnd(s, moves).placed) == Movers(moves)
    case Remove(gone) => forall x :: x in s.tree.parentOf && s.tree.parentOf[x] in gone ==> x in gone
  }

  ghost predicate Sound(s: Site)
  {
    WellFormed(s.tree) && forall x :: x in s.recorded ==> s.recorded[x] != []
  }

  /** Everything that is not out of place stands in position order. */
  ghost predicate Sorted(s: Site)
  {
    forall p :: p in s.tree.children ==> InOrder(s.tree.children[p], s.recorded, s.out)
  }

  /** No mover of the stage is put before a sibling standing out of place. */
  ghost predicate AptStage(s: Site, stage: Stage)
  {
    stage.Batch? ==> AllApt(Start(s.tree, 0, {}), stage.moves, EffectivePositions(s.recorded, stage.moves), s.out)
  }

  // --- Positions within a batch ---

  lemma {:induction false} LastIsRecorded(moves: seq<RemoteMove>, s: Site, x: Id)
    requires OfRecorded(s, moves)
    ensures LastPosition(moves, x).Some? ==> x in s.recorded && LastPosition(moves, x).value == s.recorded[x]
  {
    if moves != [] {
      var rest := moves[..|moves| - 1];
      assert moves[|moves| - 1] in moves && forall m :: m in rest ==> m in moves;
      assert OfRecorded(s, rest) by { assert Movers(rest) <= Movers(moves); }
      LastIsRecorded(rest, s, x);
    }
  }

  /** A batch goes by what is recorded. */
  lemma GoesByRecorded(s: Site, moves: seq<RemoteMove>)
    requires Sound(s) && OfRecorded(s, moves)
    ensures EffectivePositions(s.recorded, moves) == s.recorded
  {
    forall x ensures EffectiveAt(s.recorded, moves, x) == if x in s.recorded then s.recorded[x] else [] {
      LastIsRecorded(moves, s, x);
    }
    forall x | x in Movers(moves) ensures x in s.recorded {
      var m :| m in moves && m.mover == Some(x);
    }
  }

  lemma {:induction false} PlacedAtRecorded(known: Positions, placed: seq<Sibling>)
    requires forall p :: p in placed ==> p.id in known && known[p.id] == p.position
    ensures PlacedPositions(known, placed) == known
  {
    if placed != [] {
      var rest := placed[..|placed| - 1];
      assert placed[|placed| - 1] in placed && forall p :: p in rest ==> p in placed;
      PlacedAtRecorded(known, rest);
    }
  }

  /** What a run of moves places is what it was to move, where it was to go. */
  lemma {:induction false} PlacesItsMoves(a: Applied, moves: seq<RemoteMove>, changes: seq<Option<Tree>>,
      known: Positions)
    requires |changes| == |moves| && forall m :: m in moves ==> m.mover.Some?
    ensures forall p :: p in ApplyMoves(a, moves, changes, known).placed ==>
      p in a.placed || exists m :: m in moves && m.mover == Some(p.id) && m.position == p.position
    decreases |moves|
  {
    if moves != [] && !a.failed {
      var here := a.(layout := Observe(a.layout, changes[0]));
      var b := ApplyOne(here, moves[0], known);
      assert moves[0] in moves && forall m :: m in moves[1..] ==> m in moves;
      assert forall p :: p in b.placed ==> p in a.placed || p == Sibling(moves[0].mover.value, moves[0].position) by {
        hide StepMove, CanMove;
      }
      hide ApplyOne;
      PlacesItsMoves(b, moves[1..], changes[1..], known);
    }
  }

  lemma BatchPositions(s: Site, moves: seq<RemoteMove>)
    requires Sound(s) && OfRecorded(s, moves)
    ensures var known := EffectivePositions(s.recorded, moves);
      known == s.recorded && PlacedPositions(known, BatchEnd(s, moves).placed) == s.recorded
  {
    GoesByRecorded(s, moves);
    var placed := BatchEnd(s, moves).placed;
    PlacesItsMoves(Start(s.tree, 0, {}), moves, Quiet(|moves|), s.recorded);
    forall p | p in placed ensures p.id in s.recorded && s.recorded[p.id] == p.position {
      var m :| m in moves && m.mover == Some(p.id) && m.position == p.position;
    }
    PlacedAtRecorded(s.recorded, placed);
  }

  // --- A batch as a stage ---

  lemma StartsTidyHere(s: Site)
    requires Sound(s) && Sorted(s)
    ensures TidyRun(Start(s.tree, 0, {}), s.recorded, s.out)
  {
    assert s.out - IdsOf([]) == s.out;
    assert forall p :: p in s.tree.children ==> SamePositions(s.tree.children[p], s.recorded, s.recorded);
  }

  lemma BatchKeepsSound(s: Site, moves: seq<RemoteMove>)
    requires Sound(s)
    ensures WellFormed(BatchEnd(s, moves).layout.tree)
  {
    StartsSound(s.tree, 0);
    hide WellFormed;
    RunKeepsCache(Start(s.tree, 0, {}), moves, Quiet(|moves|), EffectivePositions(s.recorded, moves));
  }

  lemma BatchKeepsSorted(s: Site, moves: seq<RemoteMove>)
    requires Sound(s) && Sorted(s) && Ready(s, Batch(moves)) && AptStage(s, Batch(moves))
    ensures Sorted(After(s, Batch(moves)))
  {
    BatchPositions(s, moves);
    StartsTidyHere(s);
    hide Sound, Sorted, AllApt, TidyRun, OfRecorded;
    AptRunIsTidy(Start(s.tree, 0, {}), moves, Quiet(|moves|), s.recorded, s.out);
    TidyRunInOrder(BatchEnd(s, moves), s.recorded, s.out);
    assert EndsInOrder(BatchEnd(s, moves), s.recorded, s.out);
  }

  // --- Siblings on the wrong side of each other ---

  /** Neither is out of place, and they are out of order or at the same position. */
  ghost predicate Wrong(s: Site, p: Id, x: Id, y: Id)
  {
    && StandsBefore(s.tree, p, x, y) && x !in s.out && y !in s.out && x in s.recorded && y in s.recorded
    && !Less(s.recorded[x], s.recorded[y])
  }

  ghost predicate NothingWrong(s: Site)
  {
    forall p, x, y :: !Wrong(s, p, x, y)
  }

  lemma BatchKeepsWrong(s: Site, moves: seq<RemoteMove>, p: Id, x: Id, y: Id)
    requires Sound(s) && Ready(s, Batch(moves)) && Wrong(s, p, x, y)
    ensures Wrong(After(s, Batch(moves)), p, x, y)
  {
    BatchPositions(s, moves);
    StartsSound(s.tree, 0);
    assert s.out - IdsOf([]) == s.out;
    assert x !in Movers(moves) && y !in Movers(moves);
    hide Sound, WellFormed, Less, IndexOf, OfRecorded;
    SettledForGood(Start(s.tree, 0, {}), moves, Quiet(|moves|), s.recorded, s.out, p, x, y);
  }

  lemma WrongBatch(s: Site, moves: seq<RemoteMove>)
    requires Sound(s) && Ready(s, Batch(moves)) && !AptStage(s, Batch(moves))
    ensures !NothingWrong(After(s, Batch(moves)))
  {
    var r := BatchEnd(s, moves);
    BatchPositions(s, moves);
    StartsSound(s.tree, 0);
    assert s.out - IdsOf([]) == s.out;
    hide Sound, WellFormed, Less, IndexOf, AllApt;
    if EndsInOrder(r, s.recorded, s.out) && NoTies(r, s.recorded, s.out) {
      InOrderMeansApt(Start(s.tree, 0, {}), moves, Quiet(|moves|), s.recorded, s.out);
    } else {
      NotInOrder(r, After(s, Batch(moves)), s.recorded, s.out);
    }
  }

  lemma NotInOrder(r: Applied, s: Site, known: Positions, movers: set<Id>)
    requires !EndsInOrder(r, known, movers) || !NoTies(r, known, movers)
    requires s == Site(r.layout.tree, PlacedPositions(known, r.placed), movers - IdsOf(r.placed))
    ensures !NothingWrong(s)
  {
    hide IndexOf;
    if !EndsInOrder(r, known, movers) {
      var p :| p in s.tree.children && !InOrder(s.tree.children[p], s.recorded, s.out);
      var x, y :| x in s.tree.children[p] && y in s.tree.children[p] && x in s.recorded && y in s.recorded
        && x !in s.out && y !in s.out
        && IndexOf(s.tree.children[p], x) < IndexOf(s.tree.children[p], y) && Less(s.recorded[y], s.recorded[x]);
      Asymmetric(s.recorded[y], s.recorded[x]);
      assert Wrong(s, p, x, y);
    } else {
      var p, x, y :| Settled(r, known, movers, p, x, y) && s.recorded[x] == s.recorded[y];
      Irreflexive(s.recorded[x]);
      assert Wrong(s, p, x, y);
    }
  }

  // --- The other stages ---

  lemma {:induction false} KeptDistinct(list: seq<Id>, gone: set<Id>)
    requires Distinct(list)
    ensures Distinct(Kept(list, gone))
  {
    if list != [] {
      DistinctTail(list);
      KeptDistinct(list[1..], gone);
      assert list[0] !in Kept(list[1..], gone);
    }
  }

  lemma IndexInTail(list: seq<Id>, x: Id)
    requires list != [] && x in list && x != list[0]
    ensures x in list[1..] && IndexOf(list, x) == IndexOf(list[1..], x) + 1
  {
    assert list == [list[0]] + list[1..];
  }

  lemma KeptTail(list: seq<Id>, gone: set<Id>)
    requires list != []
    ensures list[0] in gone ==> Kept(list, gone) == Kept(list[1..], gone)
    ensures list[0] !in gone ==>
      Kept(list, gone) != [] && Kept(list, gone)[0] == list[0] && Kept(list, gone)[1..] == Kept(list[1..], gone)
  {
  }

  lemma {:induction false} KeptOrder(list: seq<Id>, gone: set<Id>, x: Id, y: Id)
    requires Distinct(list) && x in list && y in list && x !in gone && y !in gone
    ensures IndexOf(Kept(list, gone), x) < IndexOf(Kept(list, gone), y) <==> IndexOf(list, x) < IndexOf(list, y)
    decreases list
  {
    var kept := Kept(list, gone);
    DistinctTail(list);
    KeptTail(list, gone);
    if x != list[0] {
      IndexInTail(list, x);
      if list[0] !in gone { IndexInTail(kept, x); }
    }
    if y != list[0] {
      IndexInTail(list, y);
      if list[0] !in gone { IndexInTail(kept, y); }
    }
    FirstIndex(list);
    if list[0] !in gone { FirstIndex(kept); }
    hide Distinct, Kept, IndexOf;
    if x != list[0] && y != list[0] { KeptOrder(list[1..], gone, x, y); }
  }

  lemma FirstIndex(list: seq<Id>)
    requires list != []
    ensures IndexOf(list, list[0]) == 0
  {
  }

  lemma {:induction false} AppendedOrder(list: seq<Id>, id: Id, x: Id, y: Id)
    requires x in list && y in list && id !in list
    ensures IndexOf(list + [id], x) < IndexOf(list + [id], y) <==> IndexOf(list, x) < IndexOf(list, y)
  {
    AppendedIndex(list, id, x);
    AppendedIndex(list, id, y);
  }

  lemma {:induction false} AppendedIndex(list: seq<Id>, id: Id, x: Id)
    requires x in list
    ensures IndexOf(list + [id], x) == IndexOf(list, x)
  {
    assert list == [list[0]] + list[1..];
    if x != list[0] {
      assert (list + [id])[1..] == list[1..] + [id];
      AppendedIndex(list[1..], id, x);
    }
  }

  lemma AppendedSound(t: Tree, id: Id, parent: Id, folder: bool)
    requires WellFormed(t) && id !in t.parentOf && id !in t.children && parent in t.children
    ensures WellFormed(Appended(t, id, parent, folder))
  {
    assert id !in t.children[parent];
    var u := Appended(t, id, parent, folder);
    forall p | p in u.children ensures Distinct(u.children[p]) { assert p != id ==> Distinct(t.children[p]); }
  }

  lemma PrunedDistinct(t: Tree, gone: set<Id>)
    requires WellFormed(t)
    ensures forall p :: p in Pruned(t, gone).children ==> Distinct(Pruned(t, gone).children[p])
  {
    forall p | p in t.children ensures Distinct(Kept(t.children[p], gone)) {
      assert Distinct(t.children[p]);
      KeptDistinct(t.children[p], gone);
    }
    hide Distinct, Kept;
  }

  lemma PrunedSound(t: Tree, gone: set<Id>)
    requires WellFormed(t) && forall x :: x in t.parentOf && t.parentOf[x] in gone ==> x in gone
    ensures WellFormed(Pruned(t, gone))
  {
    PrunedDistinct(t, gone);
    hide Distinct;
    PrunedParents(t, gone);
    PrunedChildren(t, gone);
    hide Pruned;
  }

  lemma PrunedParents(t: Tree, gone: set<Id>)
    requires WellFormed(t) && forall x :: x in t.parentOf && t.parentOf[x] in gone ==> x in gone
    ensures var u := Pruned(t, gone);
      forall x :: x in u.parentOf ==> u.parentOf[x] in u.children && x in u.children[u.parentOf[x]]
  {
    hide Distinct;
    var u := Pruned(t, gone);
    forall x | x in u.parentOf ensures u.parentOf[x] in u.children && x in u.children[u.parentOf[x]] {
      var p := t.parentOf[x];
      assert p in t.children && x in t.children[p] && p !in gone;
    }
  }

  lemma PrunedChildren(t: Tree, gone: set<Id>)
    requires WellFormed(t)
    ensures var u := Pruned(t, gone);
      forall p, x :: p in u.children && x in u.children[p] ==> x in u.parentOf && u.parentOf[x] == p
  {
    hide Distinct;
    var u := Pruned(t, gone);
    forall p, x | p in u.children && x in u.children[p] ensures x in u.parentOf && u.parentOf[x] == p {
      assert x in t.children[p] && x !in gone;
    }
  }

  lemma StageKeepsSound(s: Site, stage: Stage)
    requires Sound(s) && Ready(s, stage)
    ensures Sound(After(s, stage))
  {
    match stage
    case Record(positions) =>
    case Create(id, parent, folder) =>
      hide WellFormed;
      AppendedSound(s.tree, id, parent, folder);
    case Batch(moves) =>
      hide WellFormed, OfRecorded;
      BatchKeepsSound(s, moves);
    case Remove(gone) =>
      hide WellFormed;
      PrunedSound(s.tree, gone);
  }

  /** `a` holds of `b`'s children the order of those that are in both. */
  ghost predicate SameOrderAt(t: Tree, u: Tree, p: Id, x: Id, y: Id)
  {
    p in t.children && p in u.children && x in t.children[p] && y in t.children[p]
    ==> (IndexOf(u.children[p], x) < IndexOf(u.children[p], y) <==>
      IndexOf(t.children[p], x) < IndexOf(t.children[p], y))
  }

  lemma CreateKeepsOrder(t: Tree, id: Id, parent: Id, folder: bool, p: Id, x: Id, y: Id)
    requires WellFormed(t) && id !in t.parentOf && id !in t.children && parent in t.children
    ensures SameOrderAt(t, Appended(t, id, parent, folder), p, x, y)
  {
    if p == parent && x in t.children[p] && y in t.children[p] {
      assert id !in t.children[p];
      AppendedOrder(t.children[p], id, x, y);
    }
  }

  lemma RemoveKeepsOrder(t: Tree, gone: set<Id>, p: Id, x: Id, y: Id)
    requires WellFormed(t) && x !in gone && y !in gone
    ensures SameOrderAt(t, Pruned(t, gone), p, x, y)
  {
    if p in t.children && x in t.children[p] && y in t.children[p] {
      assert Distinct(t.children[p]);
      KeptOrder(t.children[p], gone, x, y);
    }
  }

  lemma RecordKeepsSorted(s: Site, positions: Positions)
    requires Sorted(s) && positions.Keys <= s.out
    ensures Sorted(After(s, Record(positions)))
  {
    hide IndexOf, Less;
  }

  lemma CreateKeepsSorted(s: Site, id: Id, parent: Id, folder: bool)
    requires Sound(s) && Sorted(s) && Ready(s, Create(id, parent, folder))
    ensures Sorted(After(s, Create(id, parent, folder)))
  {
    var u := Appended(s.tree, id, parent, folder);
    forall p | p in u.children && p in s.tree.children ensures InOrder(u.children[p], s.recorded, s.out) {
      assert InOrder(s.tree.children[p], s.recorded, s.out);
      forall x, y | x in s.tree.children[p] && y in s.tree.children[p] ensures SameOrderAt(s.tree, u, p, x, y) {
        CreateKeepsOrder(s.tree, id, parent, folder, p, x, y);
      }
      hide IndexOf, Less;
    }
  }

  lemma RemoveKeepsSorted(s: Site, gone: set<Id>)
    requires Sound(s) && Sorted(s)
    ensures Sorted(After(s, Remove(gone)))
  {
    var u := Pruned(s.tree, gone);
    forall p | p in u.children ensures InOrder(u.children[p], s.recorded, s.out) {
      assert InOrder(s.tree.children[p], s.recorded, s.out);
      forall x, y | x in u.children[p] && y in u.children[p] ensures SameOrderAt(s.tree, u, p, x, y) {
        RemoveKeepsOrder(s.tree, gone, p, x, y);
      }
      hide IndexOf, Less;
    }
  }

  lemma StageKeepsSorted(s: Site, stage: Stage)
    requires Sound(s) && Sorted(s) && Ready(s, stage) && AptStage(s, stage)
    ensures Sorted(After(s, stage))
  {
    hide Sound, Sorted, AptStage;
    match stage
    case Record(positions) => RecordKeepsSorted(s, positions);
    case Create(id, parent, folder) => CreateKeepsSorted(s, id, parent, folder);
    case Batch(moves) => BatchKeepsSorted(s, moves);
    case Remove(gone) => RemoveKeepsSorted(s, gone);
  }

  /** Nothing is removed but what is out of place. */
  ghost predicate Spares(s: Site, stage: Stage)
  {
    stage.Remove? ==> forall x :: x in stage.gone && x in s.tree.parentOf ==> x in s.out
  }

  lemma StageKeepsWrong(s: Site, stage: Stage, p: Id, x: Id, y: Id)
    requires Sound(s) && Ready(s, stage) && Spares(s, stage) && Wrong(s, p, x, y)
    requires stage.Remove? ==> p !in stage.gone
    ensures Wrong(After(s, stage), p, x, y)
  {
    match stage
    case Record(positions) =>
    case Create(id, parent, folder) =>
      CreateKeepsOrder(s.tree, id, parent, folder, p, x, y);
      hide IndexOf, Less;
    case Batch(moves) =>
      hide IndexOf, Less, OfRecorded;
      BatchKeepsWrong(s, moves, p, x, y);
    case Remove(gone) =>
      assert x in s.tree.parentOf && y in s.tree.parentOf;
      RemoveKeepsOrder(s.tree, gone, p, x, y);
      hide IndexOf, Less;
  }

  lemma StageKeepsNothingWrongBack(s: Site, stage: Stage)
    requires Sound(s) && Ready(s, stage) && Spares(s, stage) && NothingWrong(After(s, stage))
    ensures NothingWrong(s) && AptStage(s, stage)
  {
    hide Sound, Ready, Spares, AptStage;
    forall p, x, y ensures !Wrong(s, p, x, y) {
      if Wrong(s, p, x, y) {
        FolderStays(s, stage, p, x, y);
        StageKeepsWrong(s, stage, p, x, y);
      }
    }
    if stage.Batch? && !AptStage(s, stage) { WrongBatch(s, stage.moves); }
    assert !stage.Batch? ==> AptStage(s, stage) by { NoBatchIsApt(s, stage); }
  }

  lemma NoBatchIsApt(s: Site, stage: Stage)
    ensures !stage.Batch? ==> AptStage(s, stage)
  {
  }

  lemma FolderStays(s: Site, stage: Stage, p: Id, x: Id, y: Id)
    requires Sound(s) && Ready(s, stage) && Spares(s, stage) && Wrong(s, p, x, y)
    ensures stage.Remove? ==> p !in stage.gone
  {
    assert s.tree.parentOf[x] == p;
  }

  // --- A whole run ---

  ghost predicate AllReady(s: Site, stages: seq<Stage>)
    decreases |stages|
  {
    stages != [] ==> Ready(s, stages[0]) && AllReady(After(s, stages[0]), stages[1..])
  }

  ghost function End(s: Site, stages: seq<Stage>): Site
    requires AllReady(s, stages)
    decreases |stages|
  {
    if stages == [] then s else End(After(s, stages[0]), stages[1..])
  }

  /** In no batch of the run is a mover put before a sibling standing out of place. */
  ghost predicate AptRun(s: Site, stages: seq<Stage>)
    requires AllReady(s, stages)
    decreases |stages|
  {
    stages != [] ==> AptStage(s, stages[0]) && AptRun(After(s, stages[0]), stages[1..])
  }

  ghost predicate SparesAll(s: Site, stages: seq<Stage>)
    requires AllReady(s, stages)
    decreases |stages|
  {
    stages != [] ==> Spares(s, stages[0]) && SparesAll(After(s, stages[0]), stages[1..])
  }

  lemma {:induction false} RunKeepsSound(s: Site, stages: seq<Stage>)
    requires Sound(s) && AllReady(s, stages)
    ensures Sound(End(s, stages))
    decreases |stages|
  {
    if stages != [] {
      hide Sound, Ready;
      StageKeepsSound(s, stages[0]);
      RunKeepsSound(After(s, stages[0]), stages[1..]);
    }
  }

  /** A run that is apt throughout ends in order. */
  lemma {:induction false} AptRunEndsSorted(s: Site, stages: seq<Stage>)
    requires Sound(s) && Sorted(s) && AllReady(s, stages) && AptRun(s, stages)
    ensures Sound(End(s, stages)) && Sorted(End(s, stages))
    decreases |stages|
  {
    if stages != [] {
      hide Sound, Sorted, Ready, AptStage;
      StageKeepsSound(s, stages[0]);
      StageKeepsSorted(s, stages[0]);
      AptRunEndsSorted(After(s, stages[0]), stages[1..]);
    }
  }

  /** And one that ends in order, without two siblings at the same position, was. */
  lemma {:induction false} NothingWrongMeansApt(s: Site, stages: seq<Stage>)
    requires Sound(s) && AllReady(s, stages) && SparesAll(s, stages) && NothingWrong(End(s, stages))
    ensures NothingWrong(s) && AptRun(s, stages)
    decreases |stages|
  {
    if stages != [] {
      hide Sound, Ready, AptStage, NothingWrong, Spares;
      StageKeepsSound(s, stages[0]);
      NothingWrongMeansApt(After(s, stages[0]), stages[1..]);
      StageKeepsNothingWrongBack(s, stages[0]);
    }
  }

  /** No two siblings in their places have the same position. */
  ghost predicate Untied(s: Site)
  {
    forall p, x, y :: StandsBefore(s.tree, p, x, y) && x !in s.out && y !in s.out && x in s.recorded && y in s.recorded
      ==> s.recorded[x] != s.recorded[y]
  }

  lemma SortedUntied(s: Site)
    requires Sorted(s) && Untied(s)
    ensures NothingWrong(s)
  {
    forall p, x, y ensures !Wrong(s, p, x, y) {
      if StandsBefore(s.tree, p, x, y) && x in s.recorded && y in s.recorded {
        Total(s.recorded[x], s.recorded[y]);
        assert InOrder(s.tree.children[p], s.recorded, s.out);
      }
    }
  }

  lemma NothingWrongIsSorted(s: Site)
    requires NothingWrong(s)
    ensures Sorted(s)
  {
    forall p | p in s.tree.children ensures InOrder(s.tree.children[p], s.recorded, s.out) {
      forall x, y | x in s.tree.children[p] && y in s.tree.children[p] && x in s.recorded && y in s.recorded
        && x !in s.out && y !in s.out
        && IndexOf(s.tree.children[p], x) < IndexOf(s.tree.children[p], y)
        ensures !Less(s.recorded[y], s.recorded[x])
      {
        assert !Wrong(s, p, x, y);
        hide IndexOf, Less;
        Asymmetric(s.recorded[x], s.recorded[y]);
      }
    }
  }

  /** A run ends in order if and only if what is not out of place is in order when it
      starts and no mover of it is ever put before a sibling standing out of place.
      (Two siblings at the same position are in order either way round.) */
  lemma RunInOrderIff(s: Site, stages: seq<Stage>)
    requires Sound(s) && AllReady(s, stages)
    ensures Sorted(s) && AptRun(s, stages) ==> Sorted(End(s, stages))
    ensures SparesAll(s, stages) && Untied(End(s, stages)) ==>
      (Sorted(End(s, stages)) <==> Sorted(s) && AptRun(s, stages))
  {
    hide Sound, Sorted, Untied, NothingWrong, SparesAll;
    if Sorted(s) && AptRun(s, stages) { AptRunEndsSorted(s, stages); }
    if SparesAll(s, stages) && Untied(End(s, stages)) && Sorted(End(s, stages)) {
      SortedUntied(End(s, stages));
      NothingWrongMeansApt(s, stages);
      NothingWrongIsSorted(s);
    }
  }
}
