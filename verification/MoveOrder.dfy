// When a batch of moves leaves every folder's children in position order.
module MoveOrder {
  import opened Wrappers
  import opened Keys
  import opened Siblings
  import opened MoveBatch

  // --- Position order ---

  /** Siblings other than those in `waiting` stand as `sorted` has them. */
  ghost function Stands(list: seq<Id>, waiting: set<Id>): (Id, Id) -> bool
  {
    (x, y) => x in waiting || y in waiting || IndexOf(list, x) < IndexOf(list, y)
  }

  ghost predicate SameOrder(sorted: seq<Sibling>, list: seq<Id>, waiting: set<Id>)
  {
    Pairwise(sorted, Stands(list, waiting))
  }

  /** Positioned siblings other than those in `waiting` stand in position order. */
  ghost predicate InOrder(list: seq<Id>, pos: Positions, waiting: set<Id>)
  {
    forall x, y ::
      x in list && y in list && x in pos && y in pos && x !in waiting && y !in waiting
      && IndexOf(list, x) < IndexOf(list, y)
      ==> !Less(pos[y], pos[x])
  }

  /** `sorted` holds exactly the children with a position, at that position. */
  ghost predicate Knows(sorted: seq<Sibling>, list: seq<Id>, pos: Positions)
  {
    forall s :: s in sorted <==> s.id in list && s.id in pos && s.position == pos[s.id]
  }

  lemma SameOrderInOrder(sorted: seq<Sibling>, list: seq<Id>, pos: Positions, waiting: set<Id>)
    requires Ordered(sorted) && Pairwise(sorted, Differ()) && Knows(sorted, list, pos)
    requires SameOrder(sorted, list, waiting)
    ensures InOrder(list, pos, waiting)
  {
    hide IndexOf, Less;
    forall x, y | x in list && y in list && x in pos && y in pos && x !in waiting && y !in waiting
      && IndexOf(list, x) < IndexOf(list, y)
      ensures !Less(pos[y], pos[x])
    {
      var s, t := Sibling(x, pos[x]), Sibling(y, pos[y]);
      assert s in sorted && t in sorted;
      var i :| 0 <= i < |sorted| && sorted[i] == s;
      var j :| 0 <= j < |sorted| && sorted[j] == t;
      NotBefore(sorted, list, waiting, i, j);
    }
  }

  lemma NotBefore(sorted: seq<Sibling>, list: seq<Id>, waiting: set<Id>, i: nat, j: nat)
    requires SameOrder(sorted, list, waiting) && i < |sorted| && j < |sorted|
    requires sorted[i].id !in waiting && sorted[j].id !in waiting
    requires IndexOf(list, sorted[i].id) < IndexOf(list, sorted[j].id)
    ensures i < j
  {
    hide IndexOf;
  }

  lemma TakenOut(sorted: seq<Sibling>, list: seq<Id>, waiting: set<Id>, id: Id)
    requires Distinct(list) && SameOrder(sorted, list, waiting) && Pairwise(sorted, Differ()) && forall s ::
      s in sorted ==> s.id in list
    ensures SameOrder(Drop(sorted, id), Without(list, id), waiting)
  {
    hide IndexOf, Find, Distinct;
    var d := Drop(sorted, id);
    DropKeeps(sorted, id, Stands(list, waiting));
    DropMembers(sorted, id);
    hide Drop;
    forall i, j | 0 <= i < j < |d| ensures Stands(Without(list, id), waiting)(d[i].id, d[j].id) {
      assert d[i] in d && d[j] in d;
      WithoutOrder(list, id, d[i].id, d[j].id);
      assert Stands(list, waiting)(d[i].id, d[j].id);
    }
  }

  /** A sibling list with room made for `id`. */
  ghost predicate CanTake(sorted: seq<Sibling>, list: seq<Id>, waiting: set<Id>, id: Id)
  {
    Distinct(list) && id !in list && SameOrder(sorted, list, waiting) && forall i :: 0 <= i < |sorted| ==>
      sorted[i].id in list
  }

  lemma OthersStand(sorted: seq<Sibling>, list: seq<Id>, waiting: set<Id>, id: Id, at: nat)
    requires CanTake(sorted, list, waiting, id) && at <= |list|
    ensures Pairwise(sorted, Stands(InsertAt(list, at, id), waiting - {id}))
  {
    var next := InsertAt(list, at, id);
    hide IndexOf, Distinct, InsertAt;
    forall i, j | 0 <= i < j < |sorted| ensures Stands(next, waiting - {id})(sorted[i].id, sorted[j].id) {
      InsertIndex(list, at, id, sorted[i].id);
      InsertIndex(list, at, id, sorted[j].id);
      assert Stands(list, waiting)(sorted[i].id, sorted[j].id);
    }
  }

  /** The sibling at `k`, if it waits itself, stands between those before and those
      after it. */
  ghost predicate StandsBetween(sorted: seq<Sibling>, list: seq<Id>, waiting: set<Id>, k: nat, i: nat)
    requires k <= |sorted| && i < |sorted|
  {
    k < |sorted| && sorted[k].id in waiting && sorted[i].id !in waiting ==>
      && (i < k ==> IndexOf(list, sorted[i].id) < IndexOf(list, sorted[k].id))
      && (k < i ==> IndexOf(list, sorted[k].id) < IndexOf(list, sorted[i].id))
  }

  lemma NewcomerStands(sorted: seq<Sibling>, list: seq<Id>, waiting: set<Id>, id: Id, k: nat, i: nat)
    requires CanTake(sorted, list, waiting, id) && k <= |sorted| && i < |sorted|
    requires StandsBetween(sorted, list, waiting, k, i)
    ensures var at := Slot(list, if k < |sorted| then Some(sorted[k].id) else None);
            Stands(InsertAt(list, at, id), waiting - {id})(if i < k then sorted[i].id else id, if i < k then id
              else sorted[i].id)
  {
    var at := Slot(list, if k < |sorted| then Some(sorted[k].id) else None);
    hide IndexOf, Distinct, InsertAt;
    InsertDistinct(list, at, id);
    InsertIndex(list, at, id, sorted[i].id);
    if i < k < |sorted| { assert Stands(list, waiting)(sorted[i].id, sorted[k].id); }
    if k < i { assert Stands(list, waiting)(sorted[k].id, sorted[i].id); }
  }

  /** The sibling that a mover is to be put before, if it still waits itself, stands
      where the mover belongs: after every settled sibling with no greater position
      and before every one with a greater position. */
  ghost predicate Apt(list: seq<Id>, pos: Positions, waiting: set<Id>, before: Option<Id>, position: Key)
  {
    before.Some? && before.value in waiting ==> forall s :: s in list && s in pos && s !in waiting ==>
      if Less(position, pos[s]) then IndexOf(list, before.value) < IndexOf(list, s)
        else IndexOf(list, s) < IndexOf(list, before.value)
  }

  lemma AptStandsBetween(sorted: seq<Sibling>, list: seq<Id>, pos: Positions, waiting: set<Id>, position: Key, i: nat)
    requires Ordered(sorted) && Knows(sorted, list, pos) && i < |sorted|
    requires Apt(list, pos, waiting, BeforeOf(sorted, position), position)
    ensures StandsBetween(sorted, list, waiting, FirstAbove(sorted, position), i)
  {
    hide Less, IndexOf, FirstAbove;
    var k := FirstAbove(sorted, position);
    assert sorted[i] in sorted;
    if k < i { AboveFrom(sorted, position, k, i); }
  }

  /** A node put before the first of its siblings with a greater position stands in
      position order itself. */
  lemma PutIn(sorted: seq<Sibling>, list: seq<Id>, pos: Positions, waiting: set<Id>, id: Id, position: Key)
    requires CanTake(sorted, list, waiting, id) && Ordered(sorted) && Knows(sorted, list, pos)
    requires Apt(list, pos, waiting, BeforeOf(sorted, position), position)
    ensures SameOrder(Put(sorted, Sibling(id, position)), InsertBefore(list, id, BeforeOf(sorted, position)),
      waiting - {id})
  {
    var k := FirstAbove(sorted, position);
    var at := Slot(list, BeforeOf(sorted, position));
    assert at <= |list|;
    hide FirstAbove, CanTake, InsertAt, Less, Slot, Stands, Apt, Knows, StandsBetween, Ordered;
    var next := InsertAt(list, at, id);
    OthersStand(sorted, list, waiting, id, at);
    forall i | 0 <= i < |sorted|
      ensures if i < k then Stands(next, waiting - {id})(sorted[i].id, id)
      else Stands(next, waiting - {id})(id, sorted[i].id) {
      AptStandsBetween(sorted, list, pos, waiting, position, i);
      NewcomerStands(sorted, list, waiting, id, k, i);
    }
    PutPairwise(sorted, Sibling(id, position), Stands(next, waiting - {id}));
  }

  /** What sorting the first `n` children has come to. */
  ghost predicate SortedPrefix(sorted: seq<Sibling>, list: seq<Id>, n: nat, known: Positions, waiting: set<Id>)
    requires n <= |list|
  {
    && SameOrder(sorted, list, waiting) && Ordered(sorted)
    && forall s :: s in sorted ==> s.id in list[..n] && s.id in known && s.position == known[s.id]
  }

  lemma AppendStands(sorted: seq<Sibling>, list: seq<Id>, n: nat, known: Positions, waiting: set<Id>)
    requires Distinct(list) && InOrder(list, known, waiting) && n < |list| && list[n] in known
    requires SortedPrefix(sorted, list, n, known, waiting)
    ensures SameOrder(Put(sorted, Sibling(list[n], known[list[n]])), list, waiting)
  {
    var x, k := list[n], FirstAbove(sorted, known[list[n]]);
    IndexIs(list, n);
    forall i | 0 <= i < |sorted| ensures IndexOf(list, sorted[i].id) < n && sorted[i].position == known[sorted[i].id] {
      assert sorted[i] in sorted;
      var m :| 0 <= m < n && list[m] == sorted[i].id;
      IndexIs(list, m);
    }
    hide IndexOf, Less, FirstAbove, Distinct;
    forall i | k <= i < |sorted| ensures Stands(list, waiting)(x, sorted[i].id) {
      AboveFrom(sorted, known[x], k, i);
    }
    PutPairwise(sorted, Sibling(x, known[x]), Stands(list, waiting));
  }

  lemma PrefixStep(sorted: seq<Sibling>, list: seq<Id>, n: nat, known: Positions, waiting: set<Id>)
    requires Distinct(list) && InOrder(list, known, waiting) && n < |list|
    requires SortedPrefix(sorted, list, n, known, waiting)
    ensures SortedPrefix(if list[n] in known then Put(sorted, Sibling(list[n], known[list[n]]))
      else sorted, list, n + 1, known, waiting)
  {
    assert forall y :: y in list[..n + 1] <==> y in list[..n] || y == list[n];
    if list[n] in known {
      var s := Sibling(list[n], known[list[n]]);
      AppendStands(sorted, list, n, known, waiting);
      PutOrdered(sorted, s);
      PutMembers(sorted, s);
      hide Put, SameOrder, Ordered, InOrder, Distinct;
    }
  }

  /** Sorting keeps positioned siblings that stand in position order as they
      stand. */
  lemma {:induction false} SortStands(list: seq<Id>, n: nat, known: Positions, waiting: set<Id>)
    requires Distinct(list) && InOrder(list, known, waiting) && n <= |list|
    ensures SortedPrefix(Sort(Positioned(list[..n], known)), list, n, known, waiting)
  {
    if n > 0 {
      hide SortedPrefix, Distinct, InOrder;
      SortStands(list, n - 1, known, waiting);
      PositionedOneMore(list, n - 1, known);
      var list' := Positioned(list[..n - 1], known);
      assert list' + [] == list';
      if list[n - 1] in known { SortOneMore(list', Sibling(list[n - 1], known[list[n - 1]])); }
      PrefixStep(Sort(list'), list, n - 1, known, waiting);
    }
  }

  // --- A batch leaves siblings in position order ---

  ghost predicate SamePositions(list: seq<Id>, a: Positions, b: Positions)
  {
    forall x :: x in list ==> (x in a <==> x in b) && (x in a ==> a[x] == b[x])
  }

  ghost predicate TidyOrder(c: Cached, list: seq<Id>, pos: Positions, waiting: set<Id>)
  {
    Agrees(c, list) && Knows(c.sorted, list, pos) && SameOrder(c.sorted, list, waiting)
  }

  ghost predicate IsCached(l: Layout, p: Id)
  {
    p in l.cache && l.cache[p].generation == l.generation
  }

  /** A folder part of the way through a batch: `waiting` holds the movers not
      carried out yet, `pos` every position as it now is. */
  ghost predicate TidyAt(l: Layout, known: Positions, pos: Positions, waiting: set<Id>, p: Id)
    requires p in l.tree.children
  {
    var list := l.tree.children[p];
    if IsCached(l, p) then TidyOrder(l.cache[p], list, pos, waiting)
    else InOrder(list, pos, waiting) && SamePositions(list, known, pos)
  }

  ghost predicate Tidy(l: Layout, known: Positions, pos: Positions, waiting: set<Id>)
  {
    WellFormed(l.tree) && CacheAgrees(l) && forall p :: p in l.tree.children ==> TidyAt(l, known, pos, waiting, p)
  }

  lemma LoadTidy(generation: nat, list: seq<Id>, known: Positions, pos: Positions, waiting: set<Id>)
    requires Distinct(list) && InOrder(list, pos, waiting) && SamePositions(list, known, pos)
    ensures TidyOrder(Load(generation, list, known), list, pos, waiting)
  {
    LoadAgrees(generation, list, known);
    assert InOrder(list, known, waiting);
    SortStands(list, |list|, known, waiting);
    assert list[..|list|] == list;
  }

  lemma OrderTidy(l: Layout, known: Positions, pos: Positions, waiting: set<Id>, p: Id)
    requires Tidy(l, known, pos, waiting) && p in l.tree.children
    ensures TidyOrder(ParentOrder(l, p, known), l.tree.children[p], pos, waiting)
  {
    hide TidyOrder, InOrder, SamePositions, CacheAgrees;
    assert TidyAt(l, known, pos, waiting, p);
    if !IsCached(l, p) {
      assert Distinct(l.tree.children[p]);
      LoadTidy(l.generation, l.tree.children[p], known, pos, waiting);
    }
  }

  lemma DropTidy(c: Cached, list: seq<Id>, pos: Positions, waiting: set<Id>, id: Id, position: Key)
    requires Distinct(list) && TidyOrder(c, list, pos, waiting)
    ensures TidyOrder(DropFrom(c, id), Without(list, id), pos[id := position], waiting - {id})
  {
    DropAgrees(c, list, id);
    WithoutDistinct(list, id);
    DropMembers(c.sorted, id);
    TakenOut(c.sorted, list, waiting, id);
    hide Without, Drop, IndexOf, Agrees;
    var d, w := Drop(c.sorted, id), Without(list, id);
    forall i, j | 0 <= i < j < |d| ensures Stands(w, waiting - {id})(d[i].id, d[j].id) {
      assert d[i] in d && d[j] in d && Stands(w, waiting)(d[i].id, d[j].id);
    }
  }

  lemma KnowsDropped(sorted: seq<Sibling>, list: seq<Id>, pos: Positions, id: Id)
    requires Distinct(list) && Pairwise(sorted, Differ()) && Knows(sorted, list, pos)
    ensures Knows(Drop(sorted, id), Without(list, id), pos)
  {
    WithoutDistinct(list, id);
    DropMembers(sorted, id);
    hide Drop, Without;
  }

  lemma KnowsPut(sorted: seq<Sibling>, list: seq<Id>, at: nat, pos: Positions, id: Id, position: Key)
    requires Distinct(list) && id !in list && at <= |list| && Knows(sorted, list, pos)
    ensures Knows(Put(sorted, Sibling(id, position)), InsertAt(list, at, id), pos[id := position])
  {
    InsertDistinct(list, at, id);
    PutMembers(sorted, Sibling(id, position));
    hide Put, InsertAt;
  }

  lemma PlaceTidy(c: Cached, list: seq<Id>, pos: Positions, waiting: set<Id>, id: Id, position: Key)
    requires Distinct(list) && TidyOrder(c, list, pos, waiting)
    requires Apt(Without(list, id), pos, waiting, BeforeOf(Drop(c.sorted, id), position), position)
    ensures TidyOrder(Placed(c, id, position),
      InsertBefore(Without(list, id), id, BeforeOf(Drop(c.sorted, id), position)), pos[id := position], waiting - {id})
  {
    hide Pairwise, Knows, Less, FirstAbove, Find, IndexOf, Apt;
    PlacedAgrees(c, list, id, position);
    DropAgrees(c, list, id);
    TakenOut(c.sorted, list, waiting, id);
    WithoutDistinct(list, id);
    KnowsDropped(c.sorted, list, pos, id);
    var d, w := Drop(c.sorted, id), Without(list, id);
    hide Without, Drop, Distinct, Put, InsertAt;
    KnowsPut(d, w, Slot(w, BeforeOf(d, position)), pos, id, position);
    RoomMade(d, w, pos, waiting, id);
    PutIn(d, w, pos, waiting, id, position);
  }

  lemma RoomMade(d: seq<Sibling>, w: seq<Id>, pos: Positions, waiting: set<Id>, id: Id)
    requires Distinct(w) && id !in w && SameOrder(d, w, waiting) && Knows(d, w, pos)
    ensures CanTake(d, w, waiting, id)
  {
    forall i | 0 <= i < |d| ensures d[i].id in w { assert d[i] in d; }
  }

  lemma UncachedTidy(list: seq<Id>, known: Positions, pos: Positions, waiting: set<Id>, id: Id, position: Key)
    requires Distinct(list) && InOrder(list, pos, waiting) && SamePositions(list, known, pos)
    ensures var w := Without(list, id);
      InOrder(w, pos[id := position], waiting - {id}) && SamePositions(w, known, pos[id := position])
  {
    WithoutDistinct(list, id);
    var w := Without(list, id);
    forall x, y | x in w && y in w ensures IndexOf(w, x) < IndexOf(w, y) <==> IndexOf(list, x) < IndexOf(list, y) {
      WithoutOrder(list, id, x, y);
    }
    hide IndexOf, Without, Less, Distinct;
  }

  /** What a move is about to be put before is apt. */
  ghost predicate AptAt(l: Layout, known: Positions, pos: Positions, waiting: set<Id>, id: Id, parent: Id,
      position: Key)
    requires parent in l.tree.children
  {
    Apt(Without(l.tree.children[parent], id), pos, waiting,
      BeforeOf(Drop(ParentOrder(l, parent, known).sorted, id), position), position)
  }

  /** One move of a batch, whatever waits elsewhere. */
  lemma StepKeepsTidy(l: Layout, known: Positions, pos: Positions, waiting: set<Id>, id: Id, parent: Id, position: Key)
    requires Tidy(l, known, pos, waiting) && CanMove(l.tree, id, parent)
    requires AptAt(l, known, pos, waiting, id, parent, position)
    ensures Tidy(StepMove(l, id, parent, position, known), known, pos[id := position], waiting - {id})
  {
    var next, order := StepMove(l, id, parent, position, known), ParentOrder(l, parent, known);
    StepKeepsCache(l, id, parent, position, known);
    OrderTidy(l, known, pos, waiting, parent);
    OrderAgrees(l, parent, known);
    assert Distinct(l.tree.children[parent]);
    PlaceTidy(order, l.tree.children[parent], pos, waiting, id, position);
    forall p | p in next.tree.children ensures TidyAt(next, known, pos[id := position], waiting - {id}, p) {
      if p != parent { OtherTidy(l, known, pos, waiting, id, parent, position, p); }
    }
    hide Agrees, TidyOrder, InOrder;
  }

  lemma OtherTidy(l: Layout, known: Positions, pos: Positions, waiting: set<Id>, id: Id, parent: Id, position: Key,
      p: Id)
    requires Tidy(l, known, pos, waiting) && CanMove(l.tree, id, parent) && p in l.tree.children && p != parent
    ensures var next := StepMove(l, id, parent, position, known);
            p in next.tree.children && TidyAt(next, known, pos[id := position], waiting - {id}, p)
  {
    StepKeepsCache(l, id, parent, position, known);
    assert Distinct(l.tree.children[p]) && TidyAt(l, known, pos, waiting, p);
    hide TidyOrder, InOrder, SamePositions, Distinct, CacheAgrees, WellFormed, BrowserMove, MoveIndex, BeforeOf, Drop,
      Without;
    if IsCached(l, p) {
      GenerationKept(l.cache[p], id);
      DropTidy(l.cache[p], l.tree.children[p], pos, waiting, id, position);
    } else {
      if p in l.cache { GenerationKept(l.cache[p], id); }
      UncachedTidy(l.tree.children[p], known, pos, waiting, id, position);
    }
  }

  ghost predicate Undisturbed(changes: seq<Option<Tree>>)
  {
    forall c :: c in changes ==> c == None
  }

  function IdsOf(placed: seq<Sibling>): set<Id>
  {
    set s | s in placed :: s.id
  }

  /** Every position once these moves are carried out. */
  function PlacedPositions(known: Positions, placed: seq<Sibling>): Positions
  {
    if placed == [] then known
    else PlacedPositions(known, placed[..|placed| - 1])[placed[|placed| - 1].id := placed[|placed| - 1].position]
  }

  lemma OneMorePlaced(known: Positions, placed: seq<Sibling>, s: Sibling)
    ensures PlacedPositions(known, placed + [s]) == PlacedPositions(known, placed)[s.id := s.position]
    ensures IdsOf(placed + [s]) == IdsOf(placed) + {s.id}
  {
    assert (placed + [s])[..|placed|] == placed;
  }

  /** The move is one that the browser carries out. */
  predicate CarriedOut(a: Applied, m: RemoteMove)
  {
    m.mover.Some? && m.parent.Some? && CanMove(a.layout.tree, m.mover.value, m.parent.value)
  }

  /** At every move of the batch the sibling it is put before is apt. */
  ghost predicate AllApt(a: Applied, moves: seq<RemoteMove>, known: Positions, movers: set<Id>)
    decreases |moves|
  {
    moves == [] || a.failed ||
    (&& (CarriedOut(a, moves[0]) ==>
           AptAt(a.layout, known, PlacedPositions(known, a.placed), movers - IdsOf(a.placed), moves[0].mover.value,
             moves[0].parent.value, moves[0].position))
     && AllApt(ApplyOne(a, moves[0], known), moves[1..], known, movers))
  }

  ghost predicate TidyRun(a: Applied, known: Positions, movers: set<Id>)
  {
    Tidy(a.layout, known, PlacedPositions(known, a.placed), movers - IdsOf(a.placed))
  }

  lemma TidyRunStep(a: Applied, m: RemoteMove, known: Positions, movers: set<Id>)
    requires TidyRun(a, known, movers)
    requires CarriedOut(a, m) ==>
      AptAt(a.layout, known, PlacedPositions(known, a.placed), movers - IdsOf(a.placed), m.mover.value,
      m.parent.value, m.position)
    ensures TidyRun(ApplyOne(a, m, known), known, movers)
  {
    hide Tidy, StepMove, AptAt;
    if CarriedOut(a, m) {
      var s := Sibling(m.mover.value, m.position);
      var pos, waiting := PlacedPositions(known, a.placed), movers - IdsOf(a.placed);
      StepKeepsTidy(a.layout, known, pos, waiting, s.id, m.parent.value, m.position);
      OneMorePlaced(known, a.placed, s);
      assert movers - IdsOf(a.placed + [s]) == waiting - {s.id};
    }
  }

  /** Where nothing is ever put before a sibling standing out of place, order is
      kept. */
  lemma {:induction false} AptRunIsTidy(a: Applied, moves: seq<RemoteMove>, changes: seq<Option<Tree>>,
      known: Positions, movers: set<Id>)
    requires |changes| == |moves| && Undisturbed(changes) && TidyRun(a, known, movers)
    requires AllApt(a, moves, known, movers)
    ensures TidyRun(ApplyMoves(a, moves, changes, known), known, movers)
    decreases |moves|
  {
    if moves != [] && !a.failed {
      assert changes[0] in changes && Observe(a.layout, changes[0]) == a.layout && a.(layout := a.layout) == a;
      assert forall c :: c in changes[1..] ==> c in changes;
      hide TidyRun, ApplyOne, AptAt, CarriedOut;
      TidyRunStep(a, moves[0], known, movers);
      AptRunIsTidy(ApplyOne(a, moves[0], known), moves[1..], changes[1..], known, movers);
    }
  }

  lemma TidyIsInOrder(l: Layout, known: Positions, pos: Positions, waiting: set<Id>)
    requires Tidy(l, known, pos, waiting)
    ensures forall p :: p in l.tree.children ==> InOrder(l.tree.children[p], pos, waiting)
  {
    forall p | p in l.tree.children ensures InOrder(l.tree.children[p], pos, waiting) {
      assert TidyAt(l, known, pos, waiting, p);
      if IsCached(l, p) { SameOrderInOrder(l.cache[p].sorted, l.tree.children[p], pos, waiting); }
    }
  }

  // --- A sibling put out of place stays there ---

  /** `x` stands before `y` in folder `p`. */
  ghost predicate StandsBefore(t: Tree, p: Id, x: Id, y: Id)
  {
    p in t.children && x in t.children[p] && y in t.children[p] && IndexOf(t.children[p], x) < IndexOf(t.children[p], y)
  }

  lemma RelocatedOrder(list: seq<Id>, id: Id, before: Option<Id>, x: Id, y: Id)
    requires Distinct(list) && x in list && y in list && x != id && y != id && IndexOf(list, x) < IndexOf(list, y)
    ensures var w := Without(list, id);
            && x in w && y in w && IndexOf(w, x) < IndexOf(w, y)
            && x in InsertBefore(w, id, before) && y in InsertBefore(w, id, before)
            && IndexOf(InsertBefore(w, id, before), x) < IndexOf(InsertBefore(w, id, before), y)
  {
    WithoutDistinct(list, id);
    WithoutOrder(list, id, x, y);
    var w := Without(list, id);
    hide IndexOf, Without;
    var at := Slot(w, before);
    InsertDistinct(w, at, id);
    InsertIndex(w, at, id, x);
    InsertIndex(w, at, id, y);
  }

  lemma StepKeepsPair(l: Layout, id: Id, parent: Id, position: Key, known: Positions, p: Id, x: Id, y: Id)
    requires SoundLayout(l) && CanMove(l.tree, id, parent) && StandsBefore(l.tree, p, x, y) && x != id && y != id
    ensures StandsBefore(StepMove(l, id, parent, position, known).tree, p, x, y)
  {
    assert WellFormed(l.tree) && CacheAgrees(l) && Distinct(l.tree.children[p]);
    hide SoundLayout, WellFormed, CacheAgrees, StepMove, CanMove, Without, InsertBefore, IndexOf, Drop, BeforeOf,
      ParentOrder, Distinct;
    var before := BeforeOf(Drop(ParentOrder(l, parent, known).sorted, id), position);
    StepKeepsCache(l, id, parent, position, known);
    RelocatedOrder(l.tree.children[p], id, before, x, y);
  }

  /** Two settled siblings stay as they stand, at their positions. */
  ghost predicate Settled(a: Applied, known: Positions, movers: set<Id>, p: Id, x: Id, y: Id)
  {
    var pos, waiting := PlacedPositions(known, a.placed), movers - IdsOf(a.placed);
    StandsBefore(a.layout.tree, p, x, y) && x !in waiting && y !in waiting && x in pos && y in pos
  }

  lemma SettledStep(a: Applied, m: RemoteMove, known: Positions, movers: set<Id>, p: Id, x: Id, y: Id)
    requires SoundLayout(a.layout) && Settled(a, known, movers, p, x, y) && m.mover != Some(x) && m.mover != Some(y)
    ensures var b := ApplyOne(a, m, known);
            && Settled(b, known, movers, p, x, y)
            && PlacedPositions(known, b.placed)[x] == PlacedPositions(known, a.placed)[x]
            && PlacedPositions(known, b.placed)[y] == PlacedPositions(known, a.placed)[y]
  {
    hide SoundLayout, StepMove, StandsBefore, CanMove;
    if m.mover.Some? && m.parent.Some? && CanMove(a.layout.tree, m.mover.value, m.parent.value) {
      StepKeepsPair(a.layout, m.mover.value, m.parent.value, m.position, known, p, x, y);
      OneMorePlaced(known, a.placed, Sibling(m.mover.value, m.position));
    }
  }

  lemma {:induction false} SettledForGood(a: Applied, moves: seq<RemoteMove>, changes: seq<Option<Tree>>,
      known: Positions, movers: set<Id>, p: Id, x: Id, y: Id)
    requires |changes| == |moves| && Undisturbed(changes) && SoundLayout(a.layout) && Settled(a, known, movers, p, x, y)
    requires x !in Movers(moves) && y !in Movers(moves)
    ensures var r := ApplyMoves(a, moves, changes, known);
            && Settled(r, known, movers, p, x, y)
            && PlacedPositions(known, r.placed)[x] == PlacedPositions(known, a.placed)[x]
            && PlacedPositions(known, r.placed)[y] == PlacedPositions(known, a.placed)[y]
    decreases |moves|
  {
    if moves != [] && !a.failed {
      assert changes[0] in changes && Observe(a.layout, changes[0]) == a.layout && a.(layout := a.layout) == a;
      assert moves[0] in moves && (forall c :: c in changes[1..] ==> c in changes)
        && Movers(moves[1..]) <= Movers(moves);
      hide SoundLayout, ApplyOne, Settled, Movers;
      ApplyOneKeeps(a, moves[0], known);
      SettledStep(a, moves[0], known, movers, p, x, y);
      SettledForGood(ApplyOne(a, moves[0], known), moves[1..], changes[1..], known, movers, p, x, y);
    }
  }

  /** Each node is moved at most once. */
  ghost predicate DistinctMovers(moves: seq<RemoteMove>)
  {
    forall i, j :: 0 <= i < j < |moves| && moves[i].mover.Some? ==> moves[i].mover != moves[j].mover
  }

  /** Every folder's settled siblings with positions stand in position order. */
  ghost predicate EndsInOrder(r: Applied, known: Positions, movers: set<Id>)
  {
    forall p :: p in r.layout.tree.children ==>
      InOrder(r.layout.tree.children[p], PlacedPositions(known, r.placed), movers - IdsOf(r.placed))
  }

  /** No two settled siblings have the same position. */
  ghost predicate NoTies(r: Applied, known: Positions, movers: set<Id>)
  {
    forall p, x, y :: Settled(r, known, movers, p, x, y) ==>
      PlacedPositions(known, r.placed)[x] != PlacedPositions(known, r.placed)[y]
  }

  /** Some settled sibling will be on the wrong side of the mover. */
  lemma WrongSide(list: seq<Id>, pos: Positions, waiting: set<Id>, before: Option<Id>, id: Id, position: Key)
      returns (s: Id)
    requires Distinct(list) && id !in list && !Apt(list, pos, waiting, before, position)
    requires (before.Some? ==> before.value in list)
    ensures s in list && s in pos && s !in waiting && s != id
    ensures var next := InsertBefore(list, id, before);
            && id in next && s in next
            && (if Less(position, pos[s]) then IndexOf(next, s) < IndexOf(next, id)
              else IndexOf(next, id) < IndexOf(next, s))
  {
    hide Less, IndexOf, InsertAt, Distinct;
    s :| s in list && s in pos && s !in waiting &&
      !(if Less(position, pos[s]) then IndexOf(list, before.value) < IndexOf(list, s)
        else IndexOf(list, s) < IndexOf(list, before.value));
    SlotOrder(list, id, before.value, s);
  }

  lemma WrongSideAt(l: Layout, known: Positions, pos: Positions, waiting: set<Id>, id: Id, parent: Id, position: Key)
      returns (s: Id)
    requires SoundLayout(l) && CanMove(l.tree, id, parent) && !AptAt(l, known, pos, waiting, id, parent, position)
    ensures s in pos && s !in waiting && s != id
    ensures var t := StepMove(l, id, parent, position, known).tree;
            if Less(position, pos[s]) then StandsBefore(t, parent, s, id) else StandsBefore(t, parent, id, s)
  {
    assert WellFormed(l.tree) && CacheAgrees(l) && Distinct(l.tree.children[parent]);
    BeforeIsThere(l, known, id, parent, position);
    WithoutDistinct(l.tree.children[parent], id);
    hide SoundLayout, WellFormed, CacheAgrees, CanMove, StepMove, Without, Drop, BeforeOf, ParentOrder, Distinct,
      IndexOf, Less, Apt, InsertBefore;
    var before := BeforeOf(Drop(ParentOrder(l, parent, known).sorted, id), position);
    StepKeepsCache(l, id, parent, position, known);
    s := WrongSide(Without(l.tree.children[parent], id), pos, waiting, before, id, position);
  }

  /** Two settled siblings out of order, or at the same position. */
  ghost predicate WronglySettled(a: Applied, known: Positions, movers: set<Id>, p: Id, x: Id, y: Id)
  {
    Settled(a, known, movers, p, x, y)
      && !Less(PlacedPositions(known, a.placed)[x], PlacedPositions(known, a.placed)[y])
  }

  lemma WronglySettledNow(a: Applied, known: Positions, movers: set<Id>, b: Applied, id: Id, p: Id, position: Key,
      s: Id)
    requires b.placed == a.placed + [Sibling(id, position)]
    requires s in PlacedPositions(known, a.placed) && s !in movers - IdsOf(a.placed) && s != id
    requires var near := Less(position, PlacedPositions(known, a.placed)[s]);
             StandsBefore(b.layout.tree, p, if near then s else id, if near then id else s)
    ensures var near := Less(position, PlacedPositions(known, a.placed)[s]);
            WronglySettled(b, known, movers, p, if near then s else id, if near then id else s)
  {
    hide Less, StandsBefore;
    OneMorePlaced(known, a.placed, Sibling(id, position));
    if Less(position, PlacedPositions(known, a.placed)[s]) {
      Asymmetric(position, PlacedPositions(known, a.placed)[s]);
    }
  }

  /** A move that is not apt puts its mover on the wrong side of some settled
      sibling. */
  lemma Misplaced(a: Applied, m: RemoteMove, known: Positions, movers: set<Id>, id: Id, parent: Id)
      returns (x: Id, y: Id)
    requires SoundLayout(a.layout) && m.mover == Some(id) && m.parent == Some(parent)
    requires CanMove(a.layout.tree, id, parent)
    requires !AptAt(a.layout, known, PlacedPositions(known, a.placed), movers - IdsOf(a.placed), id, parent, m.position)
    ensures WronglySettled(ApplyOne(a, m, known), known, movers, parent, x, y)
    ensures (x == id || x !in movers - IdsOf(a.placed)) && (y == id || y !in movers - IdsOf(a.placed))
  {
    var b := ApplyOne(a, m, known);
    assert b.layout == StepMove(a.layout, id, parent, m.position, known)
      && b.placed == a.placed + [Sibling(id, m.position)];
    hide SoundLayout, Less, StepMove, AptAt, StandsBefore, CanMove, IdsOf, PlacedPositions, ApplyOne, WronglySettled;
    var pos := PlacedPositions(known, a.placed);
    var s := WrongSideAt(a.layout, known, pos, movers - IdsOf(a.placed), id, parent, m.position);
    WronglySettledNow(a, known, movers, b, id, parent, m.position, s);
    if Less(m.position, pos[s]) { x, y := s, id; } else { x, y := id, s; }
  }

  lemma BeforeIsThere(l: Layout, known: Positions, id: Id, parent: Id, position: Key)
    requires SoundLayout(l) && CanMove(l.tree, id, parent)
    ensures var before := BeforeOf(Drop(ParentOrder(l, parent, known).sorted, id), position);
            before.Some? ==> before.value in Without(l.tree.children[parent], id)
  {
    OrderAgrees(l, parent, known);
    var order := ParentOrder(l, parent, known);
    assert Distinct(l.tree.children[parent]);
    DropMembers(order.sorted, id);
    WithoutDistinct(l.tree.children[parent], id);
    hide Without, Drop, ParentOrder, FirstAbove;
    var d := Drop(order.sorted, id);
    var k := FirstAbove(d, position);
    if k < |d| { assert d[k] in d; }
  }

  /** Where the newcomer stands: right before `w`. */
  lemma SlotOrder(list: seq<Id>, id: Id, w: Id, s: Id)
    requires Distinct(list) && id !in list && w in list && s in list && w != s
    ensures var next := InsertBefore(list, id, Some(w));
            && id in next && s in next
            && (IndexOf(list, s) < IndexOf(list, w) ==> IndexOf(next, s) < IndexOf(next, id))
            && (IndexOf(list, w) < IndexOf(list, s) ==> IndexOf(next, id) < IndexOf(next, s))
            && IndexOf(list, s) != IndexOf(list, w)
  {
    hide IndexOf, InsertAt, Distinct;
    var at := Slot(list, Some(w));
    InsertDistinct(list, at, id);
    InsertIndex(list, at, id, s);
  }

  lemma RestMovers(moves: seq<RemoteMove>)
    requires DistinctMovers(moves) && moves != []
    ensures DistinctMovers(moves[1..]) && Movers(moves[1..]) <= Movers(moves)
    ensures moves[0].mover.Some? ==>
      moves[0].mover.value in Movers(moves) && moves[0].mover.value !in Movers(moves[1..])
  {
    var rest := moves[1..];
    assert moves[0] in moves && forall m :: m in rest ==> m in moves;
    forall m | m in rest ensures moves[0].mover.None? || m.mover != moves[0].mover {
      var j :| 0 <= j < |rest| && rest[j] == m;
      assert m == moves[j + 1];
    }
  }

  lemma StillWaiting(a: Applied, m: RemoteMove, known: Positions, movers: set<Id>)
    ensures forall u :: u in movers - IdsOf(a.placed) && m.mover != Some(u) ==>
      u in movers - IdsOf(ApplyOne(a, m, known).placed)
  {
    hide StepMove, CanMove;
    if m.mover.Some? { OneMorePlaced(known, a.placed, Sibling(m.mover.value, m.position)); }
  }

  lemma OutOfOrder(a: Applied, moves: seq<RemoteMove>, changes: seq<Option<Tree>>, known: Positions, movers: set<Id>,
      p: Id, x: Id, y: Id)
    requires |changes| == |moves| && Undisturbed(changes) && SoundLayout(a.layout)
    requires WronglySettled(a, known, movers, p, x, y)
    requires x !in Movers(moves) && y !in Movers(moves)
    ensures var r := ApplyMoves(a, moves, changes, known); !EndsInOrder(r, known, movers) || !NoTies(r, known, movers)
  {
    SettledForGood(a, moves, changes, known, movers, p, x, y);
    hide Less, SoundLayout;
    Total(PlacedPositions(known, a.placed)[x], PlacedPositions(known, a.placed)[y]);
  }

  /** Where the order is kept, nothing was put before a sibling standing out of
      place. */
  lemma {:induction false} InOrderMeansApt(a: Applied, moves: seq<RemoteMove>, changes: seq<Option<Tree>>,
      known: Positions, movers: set<Id>)
    requires |changes| == |moves| && Undisturbed(changes) && SoundLayout(a.layout) && DistinctMovers(moves)
    requires Movers(moves) <= movers - IdsOf(a.placed)
    requires var r := ApplyMoves(a, moves, changes, known); EndsInOrder(r, known, movers) && NoTies(r, known, movers)
    ensures AllApt(a, moves, known, movers)
    decreases |moves|
  {
    if moves != [] && !a.failed {
      var m, rest := moves[0], moves[1..];
      assert changes[0] in changes && Observe(a.layout, changes[0]) == a.layout && a.(layout := a.layout) == a;
      assert forall c :: c in changes[1..] ==> c in changes;
      RestMovers(moves);
      var b := ApplyOne(a, m, known);
      ApplyOneKeeps(a, m, known);
      if CarriedOut(a, m)
        && !AptAt(a.layout, known, PlacedPositions(known, a.placed), movers - IdsOf(a.placed), m.mover.value,
        m.parent.value, m.position) {
        var x, y := Misplaced(a, m, known, movers, m.mover.value, m.parent.value);
        OutOfOrder(b, rest, changes[1..], known, movers, m.parent.value, x, y);
      }
      StillWaiting(a, m, known, movers);
      hide SoundLayout, ApplyOne, EndsInOrder, NoTies, AptAt, DistinctMovers, Movers, CarriedOut;
      InOrderMeansApt(b, rest, changes[1..], known, movers);
    }
  }

  // --- Batches that keep the order ---

  /** Those still waiting have their place in the rest of the batch. */
  ghost predicate Pending(pos: Positions, waiting: set<Id>, moves: seq<RemoteMove>)
  {
    forall u :: u in waiting ==>
      exists j :: 0 <= j < |moves| && moves[j].mover == Some(u) && (u in pos ==> pos[u] == moves[j].position)
  }

  lemma PendingTail(pos: Positions, waiting: set<Id>, moves: seq<RemoteMove>, pos': Positions, waiting': set<Id>)
    requires Pending(pos, waiting, moves) && moves != [] && waiting' <= waiting
    requires forall u :: u in waiting' ==>
      moves[0].mover != Some(u) && (u in pos' <==> u in pos) && (u in pos ==> pos'[u] == pos[u])
    ensures Pending(pos', waiting', moves[1..])
  {
    forall u | u in waiting' ensures exists j ::
      0 <= j < |moves[1..]| && moves[1..][j].mover == Some(u) && (u in pos' ==> pos'[u] == moves[1..][j].position) {
      var j :| 0 <= j < |moves| && moves[j].mover == Some(u) && (u in pos ==> pos[u] == moves[j].position);
      assert moves[1..][j - 1] == moves[j];
    }
  }

  lemma {:induction false} LastPositionOf(moves: seq<RemoteMove>, u: Id)
    requires u in Movers(moves)
    ensures LastPosition(moves, u).Some? && exists j ::
      0 <= j < |moves| && moves[j].mover == Some(u) && moves[j].position == LastPosition(moves, u).value
  {
    var m :| m in moves && m.mover == Some(u);
    var n := |moves| - 1;
    assert moves == moves[..n] + [moves[n]];
    if moves[n].mover != Some(u) {
      assert m in moves[..n];
      LastPositionOf(moves[..n], u);
      var j :| 0 <= j < n && moves[..n][j].mover == Some(u)
        && moves[..n][j].position == LastPosition(moves[..n], u).value;
      assert moves[j] == moves[..n][j];
    }
  }

  lemma EverythingPending(stored: Positions, moves: seq<RemoteMove>)
    ensures Pending(EffectivePositions(stored, moves), Movers(moves), moves)
  {
    forall u | u in Movers(moves)
      ensures exists j ::
        0 <= j < |moves| && moves[j].mover == Some(u)
        && (u in EffectivePositions(stored, moves) ==> EffectivePositions(stored, moves)[u] == moves[j].position)
    {
      LastPositionOf(moves, u);
    }
  }

  /** No move is followed by one of a node that already stands where the first one
      goes and is to have a greater position. `home`: each node's folder. */
  ghost predicate NoneOvertakes(home: map<Id, Id>, moves: seq<RemoteMove>)
  {
    forall i, j ::
      0 <= i < j < |moves| && moves[i].parent.Some? && moves[j].mover.Some? && moves[j].mover.value in home
      && home[moves[j].mover.value] == moves[i].parent.value
      ==> !Less(moves[i].position, moves[j].position)
  }

  /** A batch that far, those that wait still in their old places. */
  ghost predicate MidBatch(a: Applied, moves: seq<RemoteMove>, known: Positions, movers: set<Id>, home: map<Id, Id>)
  {
    && TidyRun(a, known, movers)
    && (a.failed || Pending(PlacedPositions(known, a.placed), movers - IdsOf(a.placed), moves))
    && (forall u :: u in movers - IdsOf(a.placed) && u in a.layout.tree.parentOf ==>
      u in home && home[u] == a.layout.tree.parentOf[u])
  }

  lemma NotOvertaken(pos: Positions, waiting: set<Id>, moves: seq<RemoteMove>, home: map<Id, Id>, u: Id)
    requires Pending(pos, waiting, moves) && NoneOvertakes(home, moves) && moves != [] && u in waiting && u in pos
    requires moves[0].mover != Some(u) && u in home && moves[0].parent == Some(home[u])
    ensures !Less(moves[0].position, pos[u])
  {
    var j :| 0 <= j < |moves| && moves[j].mover == Some(u) && pos[u] == moves[j].position;
  }

  lemma MidBatchApt(a: Applied, moves: seq<RemoteMove>, known: Positions, movers: set<Id>, home: map<Id, Id>)
    requires MidBatch(a, moves, known, movers, home) && NoneOvertakes(home, moves) && moves != [] && !a.failed
    requires CarriedOut(a, moves[0])
    ensures AptAt(a.layout, known, PlacedPositions(known, a.placed), movers - IdsOf(a.placed), moves[0].mover.value,
      moves[0].parent.value, moves[0].position)
  {
    var id, parent, position, l := moves[0].mover.value, moves[0].parent.value, moves[0].position, a.layout;
    var pos, waiting := PlacedPositions(known, a.placed), movers - IdsOf(a.placed);
    var order := ParentOrder(l, parent, known);
    OrderTidy(l, known, pos, waiting, parent);
    DropMembers(order.sorted, id);
    assert forall u :: u in l.tree.children[parent] ==> u in l.tree.parentOf && l.tree.parentOf[u] == parent;
    hide Drop, ParentOrder, Tidy, Less, Without, IndexOf, TidyOrder, Pending, NoneOvertakes;
    var d := Drop(order.sorted, id);
    forall s | s in d && s.id in waiting ensures !Less(position, s.position) {
      NotOvertaken(pos, waiting, moves, home, s.id);
    }
    assert FirstAbove(d, position) < |d| ==> d[FirstAbove(d, position)] in d;
  }

  lemma StepParents(l: Layout, id: Id, parent: Id, position: Key, known: Positions)
    requires CanMove(l.tree, id, parent)
    ensures StepMove(l, id, parent, position, known).tree.parentOf == l.tree.parentOf[id := parent]
  {
    hide MoveIndex, ParentOrder, BeforeOf, Drop, Without, ReadIndex;
  }

  lemma MidBatchMoved(a: Applied, moves: seq<RemoteMove>, known: Positions, movers: set<Id>, home: map<Id, Id>,
      b: Applied, id: Id, parent: Id)
    requires MidBatch(a, moves, known, movers, home) && moves != [] && !a.failed && moves[0].mover == Some(id)
    requires TidyRun(b, known, movers)
    requires b.placed == a.placed + [Sibling(id, moves[0].position)]
    requires b.layout.tree.parentOf == a.layout.tree.parentOf[id := parent]
    ensures MidBatch(b, moves[1..], known, movers, home)
  {
    var pos, waiting := PlacedPositions(known, a.placed), movers - IdsOf(a.placed);
    hide TidyRun, Pending, PlacedPositions, IdsOf;
    OneMorePlaced(known, a.placed, Sibling(id, moves[0].position));
    assert movers - IdsOf(b.placed) == waiting - {id};
    PendingTail(pos, waiting, moves, pos[id := moves[0].position], waiting - {id});
  }

  lemma MidBatchSkipped(a: Applied, moves: seq<RemoteMove>, known: Positions, movers: set<Id>, home: map<Id, Id>)
    requires MidBatch(a, moves, known, movers, home) && moves != [] && !a.failed && moves[0].mover.None?
    ensures MidBatch(a, moves[1..], known, movers, home)
  {
    hide TidyRun, Pending, PlacedPositions, IdsOf;
    var pos, waiting := PlacedPositions(known, a.placed), movers - IdsOf(a.placed);
    PendingTail(pos, waiting, moves, pos, waiting);
  }

  lemma MidBatchStep(a: Applied, moves: seq<RemoteMove>, known: Positions, movers: set<Id>, home: map<Id, Id>)
    requires MidBatch(a, moves, known, movers, home) && moves != [] && !a.failed
    requires TidyRun(ApplyOne(a, moves[0], known), known, movers)
    requires moves[0].mover.Some? ==> moves[0].parent.Some?
    ensures MidBatch(ApplyOne(a, moves[0], known), moves[1..], known, movers, home)
  {
    var m := moves[0];
    hide TidyRun, CanMove, StepMove, Pending, PlacedPositions, IdsOf;
    if m.mover.None? {
      MidBatchSkipped(a, moves, known, movers, home);
    } else if CanMove(a.layout.tree, m.mover.value, m.parent.value) {
      StepParents(a.layout, m.mover.value, m.parent.value, m.position, known);
      hide MidBatch;
      MidBatchMoved(a, moves, known, movers, home, ApplyOne(a, m, known), m.mover.value, m.parent.value);
    }
  }

  lemma {:induction false} NoneOvertakesIsApt(a: Applied, moves: seq<RemoteMove>, known: Positions, movers: set<Id>,
      home: map<Id, Id>)
    requires MidBatch(a, moves, known, movers, home) && NoneOvertakes(home, moves) && DestinationsExist(moves)
    requires Movers(moves) <= movers
    ensures AllApt(a, moves, known, movers)
    decreases |moves|
  {
    if moves != [] && !a.failed {
      assert moves[0] in moves && forall m :: m in moves[1..] ==> m in moves;
      assert Movers(moves[1..]) <= Movers(moves);
      if CarriedOut(a, moves[0]) { MidBatchApt(a, moves, known, movers, home); }
      assert NoneOvertakes(home, moves[1..]);
      hide NoneOvertakes, AptAt, ApplyOne, Movers, CarriedOut;
      assert TidyRun(a, known, movers);
      TidyRunStep(a, moves[0], known, movers);
      MidBatchStep(a, moves, known, movers, home);
      hide MidBatch, TidyRun;
      NoneOvertakesIsApt(ApplyOne(a, moves[0], known), moves[1..], known, movers, home);
    }
  }

  /** No move of the batch has to wait for its destination. */
  ghost predicate DestinationsExist(moves: seq<RemoteMove>)
  {
    forall m :: m in moves && m.mover.Some? ==> m.parent.Some?
  }

  /** Before a batch: a tree whose folders are in order but for those to be moved. */
  ghost predicate Before(tree: Tree, moves: seq<RemoteMove>, stored: Positions)
  {
    WellFormed(tree) && forall p :: p in tree.children ==>
      InOrder(tree.children[p], EffectivePositions(stored, moves), Movers(moves))
  }

  function Start(tree: Tree, generation: nat, deferred: set<Id>): Applied
  {
    Applied(Layout(tree, generation, map[]), deferred, [], false)
  }

  lemma StartsTidy(tree: Tree, generation: nat, moves: seq<RemoteMove>, stored: Positions, deferred: set<Id>)
    requires Before(tree, moves, stored)
    ensures TidyRun(Start(tree, generation, deferred), EffectivePositions(stored, moves), Movers(moves))
    ensures SoundLayout(Layout(tree, generation, map[]))
  {
    var known, movers := EffectivePositions(stored, moves), Movers(moves);
    StartsSound(tree, generation);
    assert movers - IdsOf([]) == movers;
    assert forall p :: p in tree.children ==> SamePositions(tree.children[p], known, known);
  }

  /** A batch, undisturbed, ends with every folder in position order if and only if
      no mover is ever put before a sibling that is itself still to be moved and
      stands out of place. (Equal positions are in order either way round.) */
  lemma BatchInOrderIff(tree: Tree, generation: nat, moves: seq<RemoteMove>, changes: seq<Option<Tree>>,
      stored: Positions, deferred: set<Id>)
    requires Before(tree, moves, stored) && |changes| == |moves| && Undisturbed(changes)
    ensures var known, a := EffectivePositions(stored, moves), Start(tree, generation, deferred);
            var r := ApplyMoves(a, moves, changes, known);
            && (AllApt(a, moves, known, Movers(moves)) ==> EndsInOrder(r, known, Movers(moves)))
            && (DistinctMovers(moves) && NoTies(r, known, Movers(moves)) ==>
                  (EndsInOrder(r, known, Movers(moves)) <==> AllApt(a, moves, known, Movers(moves))))
  {
    var known, movers, a := EffectivePositions(stored, moves), Movers(moves), Start(tree, generation, deferred);
    var r := ApplyMoves(a, moves, changes, known);
    StartsTidy(tree, generation, moves, stored, deferred);
    assert movers - IdsOf([]) == movers;
    hide Before, SoundLayout, AllApt, EndsInOrder, NoTies, DistinctMovers, EffectivePositions, Movers;
    if AllApt(a, moves, known, movers) {
      AptRunIsTidy(a, moves, changes, known, movers);
      TidyRunInOrder(r, known, movers);
    }
    if DistinctMovers(moves) && NoTies(r, known, movers) && EndsInOrder(r, known, movers) {
      InOrderMeansApt(a, moves, changes, known, movers);
    }
  }

  lemma TidyRunInOrder(r: Applied, known: Positions, movers: set<Id>)
    requires TidyRun(r, known, movers)
    ensures EndsInOrder(r, known, movers)
  {
    TidyIsInOrder(r.layout, known, PlacedPositions(known, r.placed), movers - IdsOf(r.placed));
  }

  /** So it does if no move is followed by one of a node already standing in its
      folder and going further back: for one, a single move, a batch in
      non-increasing position order, and arrivals from other folders. */
  lemma BatchKeepsOrder(tree: Tree, generation: nat, moves: seq<RemoteMove>, changes: seq<Option<Tree>>,
      stored: Positions, deferred: set<Id>)
    requires Before(tree, moves, stored) && |changes| == |moves| && Undisturbed(changes)
    requires NoneOvertakes(tree.parentOf, moves) && DestinationsExist(moves)
    ensures EndsInOrder(ApplyMoves(Start(tree, generation, deferred), moves, changes,
      EffectivePositions(stored, moves)), EffectivePositions(stored, moves), Movers(moves))
  {
    var known, movers, a := EffectivePositions(stored, moves), Movers(moves), Start(tree, generation, deferred);
    StartsTidy(tree, generation, moves, stored, deferred);
    EverythingPending(stored, moves);
    assert movers - IdsOf([]) == movers && PlacedPositions(known, []) == known;
    assert MidBatch(a, moves, known, movers, tree.parentOf);
    hide Before, MidBatch, AllApt, NoneOvertakes, EndsInOrder, EffectivePositions, Movers, DestinationsExist, TidyRun;
    NoneOvertakesIsApt(a, moves, known, movers, tree.parentOf);
    AptRunIsTidy(a, moves, changes, known, movers);
    TidyRunInOrder(ApplyMoves(a, moves, changes, known), known, movers);
  }
}
