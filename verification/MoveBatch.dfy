// A run of remote moves, and the sibling orders that are cached while it lasts.
module MoveBatch {
  import opened Wrappers
  import opened Keys
  import opened Siblings

  // --- The browser ---

  // Folders' children in order, and each node's parent.
  datatype Tree = Tree(children: map<Id, seq<Id>>, parentOf: map<Id, Id>)

  ghost predicate WellFormed(t: Tree)
  {
    && (forall p :: p in t.children ==> Distinct(t.children[p]))
    && (forall p, x :: p in t.children && x in t.children[p] ==> x in t.parentOf && t.parentOf[x] == p)
    && (forall x :: x in t.parentOf ==> t.parentOf[x] in t.children && x in t.children[t.parentOf[x]])
  }

  /** `x` is `d`, or `d` is at most `n` folders above it. */
  predicate Inside(t: Tree, x: Id, d: Id, n: nat)
    decreases n
  {
    x == d || (n > 0 && x in t.parentOf && Inside(t, t.parentOf[x], d, n - 1))
  }

  /** The browser refuses to move a folder into itself or what it holds. */
  predicate CanMove(t: Tree, id: Id, parent: Id)
  {
    && id in t.parentOf && t.parentOf[id] in t.children && parent in t.children
    && !Inside(t, parent, id, |t.parentOf|)
  }

  /** Splicing in past the end appends. */
  function SplicedIn(list: seq<Id>, at: nat, id: Id): seq<Id>
  {
    InsertAt(list, if at > |list| then |list| else at, id)
  }

  /** Within the node's own folder an index counts the node itself. */
  function ReadIndex(list: seq<Id>, id: Id, index: nat): nat
  {
    var k := IndexOf(list, id);
    if k >= 0 && index > k then index - 1 else index
  }

  /** The browser's move: the node is taken out, then put in. */
  function BrowserMove(t: Tree, id: Id, parent: Id, index: nat): Tree
    requires CanMove(t, id, parent)
  {
    var source := t.parentOf[id];
    var at := if parent == source then ReadIndex(t.children[parent], id, index) else index;
    var detached := t.children[source := Without(t.children[source], id)];
    Tree(detached[parent := SplicedIn(detached[parent], at, id)], t.parentOf[id := parent])
  }

  /** The index to ask the browser for. */
  function MoveIndex(liveOrder: seq<Id>, moverId: Id, beforeId: Option<Id>): nat
  {
    var others := Others(liveOrder, moverId);
    var at := if beforeId.None? then -1 else IndexOf(others, beforeId.value);
    var target := if at == -1 then |others| else at;
    var oldIndex := IndexOf(liveOrder, moverId);
    if oldIndex != -1 && target >= oldIndex then target + 1 else target
  }

  /** The node leaves wherever it is and stands right before `before`. */
  function Relocated(t: Tree, id: Id, parent: Id, before: Option<Id>): Tree
    requires parent in t.children
  {
    Tree((map p | p in t.children ::
      Without(t.children[p], id))[parent := InsertBefore(Without(t.children[parent], id), id, before)],
         t.parentOf[id := parent])
  }

  /** The index skips the node's own place. */
  lemma IndexSkips(list: seq<Id>, id: Id, before: Option<Id>)
    requires Distinct(list)
    ensures var at := ReadIndex(list, id, MoveIndex(list, id, before));
      SplicedIn(Without(list, id), at, id) == InsertBefore(Without(list, id), id, before)
  {
    OthersAre(list, id);
    hide IndexOf, Others, Distinct, InsertAt, Without;
    assert |Without(list, id)| == |list| - if id in list then 1 else 0 by { WithoutLength(list, id); }
    var at := ReadIndex(list, id, MoveIndex(list, id, before));
    assert at == Slot(Without(list, id), before);
  }

  lemma WithoutLength(list: seq<Id>, id: Id)
    ensures |Without(list, id)| == |list| - if id in list then 1 else 0
  {
    hide IndexOf;
  }

  lemma MapsAgree(c: map<Id, seq<Id>>, w: map<Id, seq<Id>>, source: Id, parent: Id, d: seq<Id>, x: seq<Id>)
    requires source in c && parent in c && w.Keys == c.Keys
    requires forall p :: p in c ==> w[p] == if p == source then d else c[p]
    ensures c[source := d][parent := x] == w[parent := x]
  {
    var l, r := c[source := d][parent := x], w[parent := x];
    assert l.Keys == c.Keys && r.Keys == c.Keys;
    forall p | p in c ensures l[p] == r[p] {}
  }

  lemma NotThere(t: Tree, id: Id)
    ensures forall p :: p in t.children && id !in t.children[p] ==> Without(t.children[p], id) == t.children[p]
    ensures forall list: seq<Id> :: id !in list ==>
      ReadIndex(list, id, 0) == 0 && forall k: nat :: ReadIndex(list, id, k) == k
  {
  }

  /** Asked for the index computed from the destination's current order, the
      browser puts the node immediately before its target, or last. */
  lemma MoveLandsBefore(t: Tree, id: Id, parent: Id, before: Option<Id>)
    requires WellFormed(t) && CanMove(t, id, parent)
    ensures BrowserMove(t, id, parent, MoveIndex(t.children[parent], id, before)) == Relocated(t, id, parent, before)
  {
    var source, list := t.parentOf[id], t.children[parent];
    assert Distinct(list) && forall p :: p in t.children && p != source ==> id !in t.children[p];
    hide WellFormed, Distinct, IndexOf, MoveIndex, InsertBefore, SplicedIn;
    IndexSkips(list, id, before);
    NotThere(t, id);
    hide Without, ReadIndex;
    var w := map p | p in t.children :: Without(t.children[p], id);
    MapsAgree(t.children, w, source, parent, Without(t.children[source], id),
      InsertBefore(Without(list, id), id, before));
  }

  /** `list` is what becomes of a folder's children when `id` leaves, or arrives. */
  ghost predicate Rearranged(children: seq<Id>, list: seq<Id>, id: Id, arrives: bool)
  {
    Distinct(list) && forall y :: y in list <==> (y == id && arrives) || (y != id && y in children)
  }

  lemma LeftRearranged(children: seq<Id>, id: Id)
    requires Distinct(children)
    ensures Rearranged(children, Without(children, id), id, false)
  {
    WithoutDistinct(children, id);
    hide Distinct, Without;
  }

  lemma ArrivedRearranged(children: seq<Id>, id: Id, before: Option<Id>)
    requires Distinct(children)
    ensures Rearranged(children, InsertBefore(Without(children, id), id, before), id, true)
  {
    WithoutDistinct(children, id);
    hide Distinct, Without, InsertAt, IndexOf;
    var kept := Without(children, id);
    InsertDistinct(kept, Slot(kept, before), id);
  }

  lemma RelocatedMembers(t: Tree, id: Id, parent: Id, before: Option<Id>, p: Id)
    requires WellFormed(t) && CanMove(t, id, parent) && p in t.children
    ensures Rearranged(t.children[p], Relocated(t, id, parent, before).children[p], id, p == parent)
  {
    assert Distinct(t.children[p]);
    hide WellFormed, Distinct, Without, InsertBefore, Rearranged;
    if p == parent { ArrivedRearranged(t.children[p], id, before); } else { LeftRearranged(t.children[p], id); }
  }

  lemma RelocatedWellFormed(t: Tree, id: Id, parent: Id, before: Option<Id>)
    requires WellFormed(t) && CanMove(t, id, parent)
    ensures WellFormed(Relocated(t, id, parent, before))
    ensures Relocated(t, id, parent, before).children.Keys == t.children.Keys
  {
    var r := Relocated(t, id, parent, before);
    hide Without, InsertBefore, Rearranged, IndexOf;
    forall p | p in t.children ensures Rearranged(t.children[p], r.children[p], id, p == parent) {
      RelocatedMembers(t, id, parent, before, p);
    }
    RearrangedWellFormed(t, r, id, parent);
  }

  lemma RearrangedWellFormed(t: Tree, r: Tree, id: Id, parent: Id)
    requires WellFormed(t) && CanMove(t, id, parent) && r.children.Keys == t.children.Keys
    requires r.parentOf == t.parentOf[id := parent]
    requires forall p :: p in t.children ==> Rearranged(t.children[p], r.children[p], id, p == parent)
    ensures WellFormed(r)
  {
    hide Distinct;
  }

  // --- The cached order of a folder ---

  type Positions = map<Id, Key>

  // What is kept of a folder: the children as they stand, and those with a
  // position, ascending.
  datatype Cached = Cached(generation: nat, liveOrder: seq<Id>, sorted: seq<Sibling>)

  // `generation` counts the local changes observed.
  datatype Layout = Layout(tree: Tree, generation: nat, cache: map<Id, Cached>)

  function Positioned(list: seq<Id>, known: Positions): seq<Sibling>
  {
    if list == [] then []
    else
      var last := list[|list| - 1];
      Positioned(list[..|list| - 1], known) + if last in known then [Sibling(last, known[last])] else []
  }

  /** A stable sort. */
  function Sort(list: seq<Sibling>): seq<Sibling>
  {
    if list == [] then [] else Put(Sort(list[..|list| - 1]), list[|list| - 1])
  }

  function Load(generation: nat, list: seq<Id>, known: Positions): Cached
  {
    Cached(generation, list, Sort(Positioned(list, known)))
  }

  function ParentOrder(l: Layout, p: Id, known: Positions): Cached
    requires p in l.tree.children
  {
    if p in l.cache && l.cache[p].generation == l.generation then l.cache[p]
    else Load(l.generation, l.tree.children[p], known)
  }

  function BeforeOf(sorted: seq<Sibling>, position: Key): Option<Id>
  {
    var k := FirstAbove(sorted, position);
    if k < |sorted| then Some(sorted[k].id) else None
  }

  function DropFrom(c: Cached, id: Id): Cached
  {
    Cached(c.generation, Without(c.liveOrder, id), Drop(c.sorted, id))
  }

  function Placed(c: Cached, id: Id, position: Key): Cached
  {
    var rest := DropFrom(c, id);
    Cached(c.generation, InsertBefore(rest.liveOrder, id, BeforeOf(rest.sorted, position)),
      Put(rest.sorted, Sibling(id, position)))
  }

  /** One move, carried out in the browser and in every cached order. */
  function StepMove(l: Layout, id: Id, parent: Id, position: Key, known: Positions): Layout
    requires CanMove(l.tree, id, parent)
  {
    var order := ParentOrder(l, parent, known);
    var before := BeforeOf(Drop(order.sorted, id), position);
    Layout(BrowserMove(l.tree, id, parent, MoveIndex(order.liveOrder, id, before)), l.generation,
           (map p | p in l.cache :: DropFrom(l.cache[p], id))[parent := Placed(order, id, position)])
  }

  lemma PositionedOneMore(list: seq<Id>, n: nat, known: Positions)
    requires n < |list|
    ensures Positioned(list[..n + 1], known) == Positioned(list[..n], known) + if list[n] in known
      then [Sibling(list[n], known[list[n]])] else []
  {
    assert list[..n + 1][..n] == list[..n];
  }

  lemma SortOneMore(list: seq<Sibling>, s: Sibling)
    ensures Sort(list + [s]) == Put(Sort(list), s)
  {
    assert (list + [s])[..|list|] == list;
  }

  // --- The cache is the browser's own order ---

  ghost predicate Agrees(c: Cached, list: seq<Id>)
  {
    c.liveOrder == list && Ordered(c.sorted) && Pairwise(c.sorted, Differ()) && forall s :: s in c.sorted ==>
      s.id in list
  }

  ghost predicate CacheAgrees(l: Layout)
  {
    forall p :: p in l.cache && l.cache[p].generation == l.generation ==>
      p in l.tree.children && Agrees(l.cache[p], l.tree.children[p])
  }

  lemma {:induction false} PositionedAre(list: seq<Id>, known: Positions)
    requires Distinct(list)
    ensures forall s :: s in Positioned(list, known) <==> s.id in list && s.id in known && s.position == known[s.id]
    ensures Pairwise(Positioned(list, known), Differ())
  {
    if list != [] {
      PositionedAre(list[..|list| - 1], known);
      assert list == list[..|list| - 1] + [list[|list| - 1]];
      var p := Positioned(list[..|list| - 1], known);
      assert forall i :: 0 <= i < |p| ==> p[i] in p;
    }
  }

  lemma {:induction false} SortAre(list: seq<Sibling>)
    requires Pairwise(list, Differ())
    ensures Ordered(Sort(list)) && Pairwise(Sort(list), Differ())
    ensures forall s :: s in Sort(list) <==> s in list
  {
    if list != [] {
      var rest, last := list[..|list| - 1], list[|list| - 1];
      SortAre(rest);
      assert list == rest + [last];
      var sorted := Sort(rest);
      PutOrdered(sorted, last);
      PutMembers(sorted, last);
      forall i | 0 <= i < |sorted| ensures sorted[i].id != last.id {
        assert sorted[i] in rest;
        var k :| 0 <= k < |rest| && rest[k] == sorted[i];
        assert list[k] == sorted[i];
      }
      PutPairwise(sorted, last, Differ());
    }
  }

  lemma LoadAgrees(generation: nat, list: seq<Id>, known: Positions)
    requires Distinct(list)
    ensures Agrees(Load(generation, list, known), list)
    ensures forall s :: s in Load(generation, list, known).sorted <==>
      s.id in list && s.id in known && s.position == known[s.id]
  {
    PositionedAre(list, known);
    SortAre(Positioned(list, known));
  }

  lemma DropAgrees(c: Cached, list: seq<Id>, id: Id)
    requires Agrees(c, list) && Distinct(list)
    ensures Agrees(DropFrom(c, id), Without(list, id))
  {
    WithoutDistinct(list, id);
    DropKeeps(c.sorted, id, Differ());
    DropMembers(c.sorted, id);
    hide Without, Drop;
  }

  lemma PlacedAgrees(c: Cached, list: seq<Id>, id: Id, position: Key)
    requires Agrees(c, list) && Distinct(list)
    ensures Agrees(Placed(c, id, position), InsertBefore(Without(list, id), id, BeforeOf(Drop(c.sorted, id), position)))
  {
    DropAgrees(c, list, id);
    WithoutDistinct(list, id);
    DropMembers(c.sorted, id);
    var rest, kept := DropFrom(c, id), Without(list, id);
    hide Without, Drop, FirstAbove, IndexOf;
    InsertDistinct(kept, Slot(kept, BeforeOf(rest.sorted, position)), id);
    PutOrdered(rest.sorted, Sibling(id, position));
    PutMembers(rest.sorted, Sibling(id, position));
    forall i | 0 <= i < |rest.sorted| ensures rest.sorted[i].id != id { assert rest.sorted[i] in rest.sorted; }
    PutPairwise(rest.sorted, Sibling(id, position), Differ());
  }

  lemma OrderAgrees(l: Layout, p: Id, known: Positions)
    requires WellFormed(l.tree) && CacheAgrees(l) && p in l.tree.children
    ensures Agrees(ParentOrder(l, p, known), l.tree.children[p]) && ParentOrder(l, p, known).generation == l.generation
  {
    LoadAgrees(l.generation, l.tree.children[p], known);
  }

  /** After a move every order still cached is the browser's. */
  lemma StepKeepsCache(l: Layout, id: Id, parent: Id, position: Key, known: Positions)
    requires WellFormed(l.tree) && CacheAgrees(l) && CanMove(l.tree, id, parent)
    ensures var next := StepMove(l, id, parent, position, known); WellFormed(next.tree) && CacheAgrees(next)
    ensures var before := BeforeOf(Drop(ParentOrder(l, parent, known).sorted, id), position);
            StepMove(l, id, parent, position, known).tree == Relocated(l.tree, id, parent, before)
  {
    var order := ParentOrder(l, parent, known);
    var before := BeforeOf(Drop(order.sorted, id), position);
    OrderAgrees(l, parent, known);
    MoveLandsBefore(l.tree, id, parent, before);
    RelocatedWellFormed(l.tree, id, parent, before);
    var next := StepMove(l, id, parent, position, known);
    assert forall p :: p in l.tree.children ==> Distinct(l.tree.children[p]);
    PlacedAgrees(order, l.tree.children[parent], id, position);
    hide WellFormed, Distinct, Agrees, BrowserMove, MoveIndex, Placed, DropFrom, ParentOrder, BeforeOf, InsertBefore,
      Without, Drop;
    forall p | p in next.cache && next.cache[p].generation == l.generation && p != parent
      ensures p in next.tree.children && Agrees(next.cache[p], next.tree.children[p])
    {
      GenerationKept(l.cache[p], id);
      DropAgrees(l.cache[p], l.tree.children[p], id);
    }
  }

  lemma GenerationKept(c: Cached, id: Id)
    ensures DropFrom(c, id).generation == c.generation
  {
  }

  // --- A run of moves ---

  // A move whose mover or destination has no browser node yet lacks its id.
  datatype RemoteMove = RemoteMove(mover: Option<Id>, parent: Option<Id>, position: Key)

  function LastPosition(moves: seq<RemoteMove>, id: Id): Option<Key>
  {
    if moves == [] then None
    else if moves[|moves| - 1].mover == Some(id) then Some(moves[|moves| - 1].position)
    else LastPosition(moves[..|moves| - 1], id)
  }

  function Movers(moves: seq<RemoteMove>): set<Id>
  {
    set m | m in moves && m.mover.Some? :: m.mover.value
  }

  /** The positions a batch goes by: its own, then the stored ones. */
  function EffectivePositions(stored: Positions, moves: seq<RemoteMove>): Positions
  {
    map x | x in stored.Keys + Movers(moves) && EffectiveAt(stored, moves, x) != [] :: EffectiveAt(stored, moves, x)
  }

  function EffectiveAt(stored: Positions, moves: seq<RemoteMove>, x: Id): Key
  {
    var own := LastPosition(moves, x);
    if own.Some? then own.value else if x in stored then stored[x] else []
  }

  // What became of a batch. `deferred`: movers waiting for a parent to exist.
  // `placed`: the moves carried out. `failed`: the browser refused one.
  datatype Applied = Applied(layout: Layout, deferred: set<Id>, placed: seq<Sibling>, failed: bool)

  function Observe(l: Layout, change: Option<Tree>): Layout
  {
    match change
    case None => l
    case Some(t) => Layout(t, l.generation + 1, l.cache)
  }

  function ApplyOne(a: Applied, m: RemoteMove, known: Positions): Applied
  {
    if m.mover.None? then a
    else if m.parent.None? then a.(deferred := a.deferred + {m.mover.value})
    else if !CanMove(a.layout.tree, m.mover.value, m.parent.value)
      then a.(deferred := a.deferred - {m.mover.value}, failed := true)
    else Applied(StepMove(a.layout, m.mover.value, m.parent.value, m.position, known), a.deferred - {m.mover.value},
                 a.placed + [Sibling(m.mover.value, m.position)], false)
  }

  /** The moves one by one, up to one the browser refuses. `changes[i]` is what
      somebody else made of the bookmarks before move `i`, noticed in time. */
  function ApplyMoves(a: Applied, moves: seq<RemoteMove>, changes: seq<Option<Tree>>, known: Positions): Applied
    requires |changes| == |moves|
    decreases |moves|
  {
    if moves == [] || a.failed then a
    else ApplyMoves(ApplyOne(a.(layout := Observe(a.layout, changes[0])), moves[0], known), moves[1..], changes[1..],
      known)
  }

  ghost predicate SoundChanges(changes: seq<Option<Tree>>)
  {
    forall c :: c in changes && c.Some? ==> WellFormed(c.value)
  }

  ghost predicate SoundLayout(l: Layout)
  {
    WellFormed(l.tree) && CacheAgrees(l) && forall p :: p in l.cache ==> l.cache[p].generation <= l.generation
  }

  lemma ObserveKeeps(l: Layout, change: Option<Tree>)
    requires SoundLayout(l) && (change.Some? ==> WellFormed(change.value))
    ensures SoundLayout(Observe(l, change))
  {
    hide WellFormed;
  }

  lemma StepGenerations(l: Layout, id: Id, parent: Id, position: Key, known: Positions)
    requires CanMove(l.tree, id, parent) && forall p :: p in l.cache ==> l.cache[p].generation <= l.generation
    ensures var next := StepMove(l, id, parent, position, known);
      forall p :: p in next.cache ==> next.cache[p].generation <= next.generation
  {
    hide BrowserMove, MoveIndex, Drop, Without, InsertBefore, Put, Sort, Positioned, BeforeOf;
  }

  lemma ApplyOneKeeps(a: Applied, m: RemoteMove, known: Positions)
    requires SoundLayout(a.layout)
    ensures SoundLayout(ApplyOne(a, m, known).layout)
  {
    hide WellFormed, CacheAgrees, StepMove, CanMove;
    if m.mover.Some? && m.parent.Some? && CanMove(a.layout.tree, m.mover.value, m.parent.value) {
      StepKeepsCache(a.layout, m.mover.value, m.parent.value, m.position, known);
      StepGenerations(a.layout, m.mover.value, m.parent.value, m.position, known);
    }
  }

  /** Whatever else happens to the bookmarks meanwhile, every order cached since
      the last change is the browser's own. */
  lemma {:induction false} RunKeepsCache(a: Applied, moves: seq<RemoteMove>, changes: seq<Option<Tree>>,
      known: Positions)
    requires |changes| == |moves| && SoundChanges(changes) && SoundLayout(a.layout)
    ensures SoundLayout(ApplyMoves(a, moves, changes, known).layout)
    decreases |moves|
  {
    if moves != [] && !a.failed {
      assert changes[0] in changes && forall c :: c in changes[1..] ==> c in changes;
      hide SoundLayout, ApplyOne, Observe, WellFormed;
      ObserveKeeps(a.layout, changes[0]);
      var here := a.(layout := Observe(a.layout, changes[0]));
      ApplyOneKeeps(here, moves[0], known);
      RunKeepsCache(ApplyOne(here, moves[0], known), moves[1..], changes[1..], known);
    }
  }

  // --- The loop ---

  // The bookmarks API: the tree, and how many changes by others were observed.
  class Browser {
    var tree: Tree
    var generation: nat

    constructor (tree: Tree)
      ensures this.tree == tree && generation == 0
    {
      this.tree, generation := tree, 0;
    }

    method Change(change: Option<Tree>)
      modifies this
      ensures Layout(tree, generation, map[]) == Observe(Layout(old(tree), old(generation), map[]), change)
    {
      match change {
        case Some(t) => tree, generation := t, generation + 1;
        case None =>
      }
    }

    method Move(id: Id, parent: Id, index: nat)
      requires CanMove(tree, id, parent)
      modifies `tree
      ensures tree == BrowserMove(old(tree), id, parent, index)
    {
      tree := BrowserMove(tree, id, parent, index);
    }

    /** A folder's order, read from the browser unless the cached one is current. */
    method GetParentOrder(p: Id, cache: map<Id, Cached>, known: Positions) returns (order: Cached)
      requires p in tree.children
      ensures order == ParentOrder(Layout(tree, generation, cache), p, known)
    {
      if p in cache && cache[p].generation == generation { return cache[p]; }
      var sorted: seq<Sibling> := [];
      var list := tree.children[p];
      var i := 0;
      while i < |list|
        invariant i <= |list| && sorted == Positioned(list[..i], known)
      {
        PositionedOneMore(list, i, known);
        if list[i] in known { sorted := sorted + [Sibling(list[i], known[list[i]])]; }
        i := i + 1;
      }
      assert list[..|list|] == list;
      return Cached(generation, list, Sort(sorted));
    }

    /** One resolved move: the browser is asked once, and every cached order is
        brought up to date. */
    method PlaceOne(id: Id, parent: Id, position: Key, cache: map<Id, Cached>, known: Positions)
        returns (cache': map<Id, Cached>)
      requires SoundLayout(Layout(tree, generation, cache)) && CanMove(tree, id, parent)
      modifies `tree
      ensures Layout(tree, generation, cache') == StepMove(Layout(old(tree), generation, cache), id, parent, position,
        known)
    {
      var order := GetParentOrder(parent, cache, known);
      OrderAgrees(Layout(tree, generation, cache), parent, known);
      DropKeeps(order.sorted, id, Differ());
      var sorted := Drop(order.sorted, id);
      var index := SortedInsertIndex(sorted, position);
      var before := if index < |sorted| then Some(sorted[index].id) else None;
      assert before == BeforeOf(sorted, position);
      Move(id, parent, MoveIndex(order.liveOrder, id, before));
      cache' := (map p | p in cache :: DropFrom(cache[p], id))[parent := Cached(order.generation,
        InsertBefore(Without(order.liveOrder, id), id, before),
          sorted[..index] + [Sibling(id, position)] + sorted[index..])];
    }

    /** A run of moves, each destination's order read once until somebody else
        changes the bookmarks. */
    method ApplyMovesBatch(moves: seq<RemoteMove>, changes: seq<Option<Tree>>, stored: Positions, deferred0: set<Id>)
      returns (deferred: set<Id>, failed: bool, ghost placed: seq<Sibling>)
      requires |changes| == |moves| && SoundChanges(changes) && WellFormed(tree)
      modifies this
      ensures var r :=
        ApplyMoves(Applied(Layout(old(tree), old(generation), map[]), deferred0, [], false), moves, changes,
        EffectivePositions(stored, moves));
              tree == r.layout.tree && generation == r.layout.generation && deferred == r.deferred
                && failed == r.failed && placed == r.placed
      ensures WellFormed(tree)
    {
      hide StepMove, WellFormed, CacheAgrees, CanMove, EffectivePositions;
      var known := EffectivePositions(stored, moves);
      var cache: map<Id, Cached> := map[];
      deferred, failed, placed := deferred0, false, [];
      ghost var start := Applied(Layout(tree, generation, map[]), deferred0, [], false);
      assert SoundLayout(start.layout) by { StartsSound(tree, generation); }
      ghost var a := start;
      var i := 0;
      while i < |moves| && !failed
        invariant i <= |moves| && a == Applied(Layout(tree, generation, cache), deferred, placed, failed)
        invariant SoundLayout(a.layout)
        invariant ApplyMoves(start, moves, changes, known) == ApplyMoves(a, moves[i..], changes[i..], known)
        decreases |moves| - i, !failed
      {
        assert changes[i] in changes && moves[i..][0] == moves[i] && moves[i..][1..] == moves[i + 1..]
          && changes[i..][1..] == changes[i + 1..];
        ObserveKeeps(a.layout, changes[i]);
        ghost var here := a.(layout := Observe(a.layout, changes[i]));
        Change(changes[i]);
        assert here.layout == Layout(tree, generation, cache);
        ApplyOneKeeps(here, moves[i], known);
        a := ApplyOne(here, moves[i], known);
        var m := moves[i];
        if m.mover.Some? {
          if m.parent.None? {
            deferred := deferred + {m.mover.value};
          } else {
            deferred := deferred - {m.mover.value};
            if CanMove(tree, m.mover.value, m.parent.value) {
              cache := PlaceOne(m.mover.value, m.parent.value, m.position, cache, known);
              placed := placed + [Sibling(m.mover.value, m.position)];
            } else {
              failed := true;
            }
          }
        }
        i := i + 1;
      }
      assert SoundLayout(a.layout);
    }
  }

  lemma StartsSound(tree: Tree, generation: nat)
    requires WellFormed(tree)
    ensures SoundLayout(Layout(tree, generation, map[]))
  {
  }
}
