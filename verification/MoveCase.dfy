// Short batches worked out: two moves in ascending order that leave a folder unsorted.
module MoveCase {
  import opened Wrappers
  import opened Keys
  import opened Siblings
  import opened MoveBatch

  /** Siblings at ascending positions. */
  ghost predicate Rises(sorted: seq<Sibling>)
  {
    forall i, j :: 0 <= i < j < |sorted| ==> Less(sorted[i].position, sorted[j].position)
  }

  lemma FirstOfOrder(s: seq<Sibling>, t: seq<Sibling>)
    requires Ordered(s) && Rises(t) && s != [] && forall x :: x in s <==> x in t
    ensures t != [] && s[0] == t[0]
  {
    assert s[0] in s && t[0] in t;
    var k :| 0 <= k < |t| && t[k] == s[0];
    var m :| 0 <= m < |s| && s[m] == t[0];
    hide Less;
    assert (m > 0 ==> !Less(s[m].position, s[0].position)) && (k > 0 ==> Less(t[0].position, t[k].position));
  }

  lemma TailsSame(s: seq<Sibling>, t: seq<Sibling>)
    requires s != [] && t != [] && s[0] == t[0] && Pairwise(s, Differ()) && Rises(t) && forall x :: x in s <==> x in t
    ensures forall x :: x in s[1..] <==> x in t[1..]
  {
    Irreflexive(t[0].position);
    hide Less;
    assert forall x :: x in s <==> x == s[0] || x in s[1..] by { assert s == [s[0]] + s[1..]; }
    assert forall x :: x in t <==> x == t[0] || x in t[1..] by { assert t == [t[0]] + t[1..]; }
    forall x | x in t[1..] ensures x != t[0] {
      var i :| 0 <= i < |t[1..]| && t[1..][i] == x;
      assert Less(t[0].position, t[i + 1].position);
    }
    forall x | x in s[1..] ensures x != s[0] {
      var i :| 0 <= i < |s[1..]| && s[1..][i] == x;
      assert s[i + 1].id != s[0].id;
    }
  }

  /** Sorted siblings at ascending positions have one order only. */
  lemma {:induction false} OnlyOrder(s: seq<Sibling>, t: seq<Sibling>)
    requires Ordered(s) && Pairwise(s, Differ()) && Rises(t) && forall x :: x in s <==> x in t
    ensures s == t
    decreases |s|
  {
    assert t != [] ==> t[0] in s;
    if s != [] {
      FirstOfOrder(s, t);
      TailsSame(s, t);
      assert Ordered(s[1..]) && Pairwise(s[1..], Differ()) && Rises(t[1..]);
      OnlyOrder(s[1..], t[1..]);
      assert s == [s[0]] + s[1..] && t == [t[0]] + t[1..];
    }
  }

  lemma LoadIs(generation: nat, list: seq<Id>, known: Positions, sorted: seq<Sibling>)
    requires Distinct(list) && Rises(sorted)
    requires forall s :: s in sorted <==> s.id in list && s.id in known && s.position == known[s.id]
    ensures Load(generation, list, known) == Cached(generation, list, sorted)
  {
    LoadAgrees(generation, list, known);
    hide Distinct, Less, Rises;
    OnlyOrder(Load(generation, list, known).sorted, sorted);
  }

  lemma DropIs(sorted: seq<Sibling>, id: Id, rest: seq<Sibling>)
    requires Ordered(sorted) && Pairwise(sorted, Differ()) && Rises(rest) && forall s :: s in rest <==>
      s in sorted && s.id != id
    ensures Drop(sorted, id) == rest
  {
    DropKeeps(sorted, id, Differ());
    DropMembers(sorted, id);
    hide Drop, Less, Rises;
    OnlyOrder(Drop(sorted, id), rest);
  }

  lemma BeforeIs(rest: seq<Sibling>, position: Key, k: nat)
    requires Ordered(rest) && k <= |rest| && (forall i :: 0 <= i < k ==> !Less(position, rest[i].position))
    requires k < |rest| ==> Less(position, rest[k].position)
    ensures BeforeOf(rest, position) == if k < |rest| then Some(rest[k].id) else None
  {
    hide FirstAbove, Less;
    var f := FirstAbove(rest, position);
    assert k < |rest| ==> f <= k;
    assert f < |rest| ==> k <= f;
  }

  lemma PutIs(rest: seq<Sibling>, s: Sibling, sorted: seq<Sibling>)
    requires Ordered(rest) && Pairwise(rest, Differ()) && (forall x :: x in rest ==> x.id != s.id)
    requires Rises(sorted) && forall x :: x in sorted <==> x in rest || x == s
    ensures Put(rest, s) == sorted
  {
    PutOrdered(rest, s);
    PutMembers(rest, s);
    assert forall i :: 0 <= i < |rest| ==> rest[i] in rest;
    PutPairwise(rest, s, Differ());
    hide Put, Less, Rises;
    OnlyOrder(Put(rest, s), sorted);
  }

  lemma WithoutAt(list: seq<Id>, k: nat)
    requires Distinct(list) && k < |list|
    ensures Without(list, list[k]) == list[..k] + list[k + 1..]
  {
    IndexIs(list, k);
    hide IndexOf, Distinct;
  }

  lemma InsertBeforeAt(list: seq<Id>, x: Id, k: nat)
    requires Distinct(list) && k < |list|
    ensures InsertBefore(list, x, Some(list[k])) == list[..k] + [x] + list[k..]
  {
    IndexIs(list, k);
    hide IndexOf, Distinct;
  }

  /** `id` stands at `from` in `list`; taken out and put before `before`, or last, it
      makes `out`. */
  ghost predicate Relocates(list: seq<Id>, id: Id, from: nat, before: Option<Id>, to: nat, out: seq<Id>)
  {
    from < |list| && list[from] == id &&
    var others := list[..from] + list[from + 1..];
    if before.Some? then to < |others| && others[to] == before.value && out == others[..to] + [id] + others[to..]
    else out == others + [id]
  }

  lemma RelocatesTo(list: seq<Id>, id: Id, from: nat, before: Option<Id>, to: nat, out: seq<Id>)
    requires Distinct(list) && Relocates(list, id, from, before, to, out)
    ensures InsertBefore(Without(list, id), id, before) == out
  {
    WithoutAt(list, from);
    WithoutDistinct(list, id);
    var others := Without(list, id);
    if before.Some? {
      hide Distinct, Without, InsertBefore;
      InsertBeforeAt(others, id, to);
    } else {
      assert others[..|others|] == others && others[|others|..] == [];
    }
  }

  /** What a move comes to on the lists: `rest` the siblings without the mover, of which
      the `k`th is the first above it. */
  ghost predicate Comes(order: Cached, s: Sibling, rest: seq<Sibling>, k: nat, from: nat, to: nat, next: Cached)
  {
    && Rises(rest) && Rises(next.sorted) && next.generation == order.generation
    && (forall x :: x in rest <==> x in order.sorted && x.id != s.id)
    && k <= |rest| && (forall i :: 0 <= i < k ==> !Less(s.position, rest[i].position))
    && (k < |rest| ==> Less(s.position, rest[k].position))
    && (forall x :: x in next.sorted <==> x in rest || x == s)
    && Relocates(order.liveOrder, s.id, from, if k < |rest| then Some(rest[k].id) else None, to, next.liveOrder)
  }

  lemma ComesTo(order: Cached, s: Sibling, rest: seq<Sibling>, k: nat, from: nat, to: nat, next: Cached)
    requires Agrees(order, order.liveOrder) && Distinct(order.liveOrder) && Comes(order, s, rest, k, from, to, next)
    ensures var before := BeforeOf(Drop(order.sorted, s.id), s.position);
      InsertBefore(Without(order.liveOrder, s.id), s.id, before) == next.liveOrder
        && Put(Drop(order.sorted, s.id), s) == next.sorted
  {
    hide Relocates, Rises, Less, Distinct;
    DropIs(order.sorted, s.id, rest);
    DropKeeps(order.sorted, s.id, Differ());
    RelocatesTo(order.liveOrder, s.id, from, if k < |rest| then Some(rest[k].id) else None, to, next.liveOrder);
    hide Drop, Put, BeforeOf, InsertBefore, Without;
    BeforeIs(rest, s.position, k);
    PutIs(rest, s, next.sorted);
  }

  /** A layout whose folder 0 is read as `order`, and that takes a move of `id` there. */
  ghost predicate Reads(l: Layout, known: Positions, order: Cached, id: Id)
  {
    && WellFormed(l.tree) && CacheAgrees(l) && CanMove(l.tree, id, 0) && 0 !in l.tree.parentOf
    && ParentOrder(l, 0, known) == order && order.generation == l.generation
  }

  /** A move, given what the lists come to. */
  lemma MoveOn(l: Layout, known: Positions, s: Sibling, order: Cached, rest: seq<Sibling>, k: nat, from: nat, to: nat,
      next: Cached)
    requires Reads(l, known, order, s.id) && s.id != 0 && Comes(order, s, rest, k, from, to, next)
    ensures var m := StepMove(l, s.id, 0, s.position, known);
      && WellFormed(m.tree) && CacheAgrees(m) && m.generation == l.generation && 0 !in m.tree.parentOf
      && 0 in m.tree.children && m.tree.children[0] == next.liveOrder && ParentOrder(m, 0, known) == next
  {
    StepKeepsCache(l, s.id, 0, s.position, known);
    OrderAgrees(l, 0, known);
    assert Distinct(order.liveOrder);
    hide CacheAgrees, WellFormed, BrowserMove, MoveIndex, CanMove, Comes, Distinct, Drop, Put, BeforeOf, InsertBefore,
      Without;
    ComesTo(order, s, rest, k, from, to, next);
  }

  lemma NothingCached(tree: Tree)
    ensures CacheAgrees(Layout(tree, 0, map[]))
  {
  }

  /** A root takes any node. */
  lemma RootTakes(t: Tree, id: Id)
    requires WellFormed(t) && 0 in t.children && 0 !in t.parentOf && id != 0 && id in t.children[0]
    ensures CanMove(t, id, 0)
  {
  }

  /** At the start of a batch. */
  lemma ReadsFirst(t: Tree, known: Positions, id: Id, list: seq<Id>, sorted: seq<Sibling>)
    requires WellFormed(t) && 0 in t.children && 0 !in t.parentOf && t.children[0] == list && id in list && id != 0
    requires Rises(sorted)
    requires forall s :: s in sorted <==> s.id in list && s.id in known && s.position == known[s.id]
    ensures Reads(Layout(t, 0, map[]), known, Cached(0, list, sorted), id)
  {
    NothingCached(t);
    RootTakes(t, id);
    assert Distinct(t.children[0]);
    hide WellFormed, CacheAgrees, CanMove, Rises, Load, Distinct;
    LoadIs(0, list, known, sorted);
    assert Load(0, list, known) == Cached(0, list, sorted);
    assert ParentOrder(Layout(t, 0, map[]), 0, known) == Load(0, list, known);
  }

  lemma ReadsNext(l: Layout, known: Positions, id: Id, order: Cached)
    requires WellFormed(l.tree) && CacheAgrees(l) && 0 in l.tree.children && 0 !in l.tree.parentOf
    requires l.tree.children[0] == order.liveOrder
    requires id in order.liveOrder && id != 0 && ParentOrder(l, 0, known) == order && order.generation == l.generation
    ensures Reads(l, known, order, id)
  {
    RootTakes(l.tree, id);
  }

  ghost predicate Holds(known: Positions, sorted: seq<Sibling>)
  {
    forall s :: s in sorted ==> s.id in known && known[s.id] == s.position
  }

  // --- Four siblings ---

  // Positions of A, R, Q and B in this order.
  ghost predicate Rising(pa: Key, pr: Key, pq: Key, pb: Key)
  {
    Less(pa, pr) && Less(pr, pq) && Less(pq, pb)
  }

  lemma RisingAll(a: Key, b: Key, c: Key, d: Key)
    requires Rising(a, b, c, d)
    ensures Less(a, c) && Less(a, d) && Less(b, d)
    ensures !Less(b, a) && !Less(c, a) && !Less(d, a) && !Less(c, b) && !Less(d, b) && !Less(d, c)
  {
    hide Less;
    Transitive(a, b, c);
    Transitive(a, c, d);
    Transitive(b, c, d);
    Asymmetric(a, b);
    Asymmetric(a, c);
    Asymmetric(a, d);
    Asymmetric(b, c);
    Asymmetric(b, d);
    Asymmetric(c, d);
  }

  /** R is put before Q, which still stands at the end. */
  lemma FirstOfFour(a: Sibling, r: Sibling, q: Sibling, b: Sibling)
    requires a.id == 11 && r.id == 13 && q.id == 14 && b.id == 12
    requires Rising(a.position, r.position, q.position, b.position)
    ensures var order := Cached(0, [11, 12, 13, 14], [a, r, q, b]); Comes(order, r, [a, q, b], 1, 2, 2, order)
  {
    RisingAll(a.position, r.position, q.position, b.position);
    hide Less, Rising;
  }

  /** Then Q is put before B, past R. */
  lemma SecondOfFour(a: Sibling, r: Sibling, q: Sibling, b: Sibling)
    requires a.id == 11 && r.id == 13 && q.id == 14 && b.id == 12
    requires Rising(a.position, r.position, q.position, b.position)
    ensures Comes(Cached(0, [11, 12, 13, 14], [a, r, q, b]), q, [a, r, b], 2, 3, 1,
      Cached(0, [11, 14, 12, 13], [a, r, q, b]))
  {
    RisingAll(a.position, r.position, q.position, b.position);
    hide Less, Rising;
  }

  lemma FourKnown(known: Positions, a: Sibling, r: Sibling, q: Sibling, b: Sibling)
    requires a.id == 11 && r.id == 13 && q.id == 14 && b.id == 12
    requires Holds(known, [a, r, q, b])
    ensures forall s :: s in [a, r, q, b] <==> s.id in [11, 12, 13, 14] && s.id in known && s.position == known[s.id]
  {
    assert a in [a, r, q, b] && r in [a, r, q, b] && q in [a, r, q, b] && b in [a, r, q, b];
  }

  /** Children A and B in order, then R and Q, to be moved in that order to places
      between A and B: they end up as A, Q, B, R. */
  lemma AscendingBatchEndsUnsorted(tree: Tree, known: Positions, pa: Key, pr: Key, pq: Key, pb: Key)
    requires Rising(pa, pr, pq, pb) && WellFormed(tree) && 0 in tree.children && 0 !in tree.parentOf
    requires tree.children[0] == [11, 12, 13, 14]
    requires Holds(known, [Sibling(11, pa), Sibling(13, pr), Sibling(14, pq), Sibling(12, pb)])
    ensures
      CanMove(tree, 13, 0) &&
      var first := StepMove(Layout(tree, 0, map[]), 13, 0, pr, known);
      CanMove(first.tree, 14, 0) &&
      var second := StepMove(first, 14, 0, pq, known).tree;
        0 in second.children && second.children[0] == [11, 14, 12, 13]
  {
    var a, r, q, b := Sibling(11, pa), Sibling(13, pr), Sibling(14, pq), Sibling(12, pb);
    FourKnown(known, a, r, q, b);
    FirstOfFour(a, r, q, b);
    SecondOfFour(a, r, q, b);
    var l, sorted := Layout(tree, 0, map[]), [a, r, q, b];
    var order, end := Cached(0, [11, 12, 13, 14], sorted), Cached(0, [11, 14, 12, 13], sorted);
    assert 13 in order.liveOrder && 14 in order.liveOrder && Rises(sorted);
    hide WellFormed, CacheAgrees, Rising, Rises, Less, Comes;
    ReadsFirst(tree, known, 13, order.liveOrder, sorted);
    MoveOn(l, known, r, order, [a, q, b], 1, 2, 2, order);
    var m := StepMove(l, 13, 0, pr, known);
    hide StepMove, CanMove, ParentOrder;
    ReadsNext(m, known, 14, order);
    MoveOn(m, known, q, order, [a, r, b], 2, 3, 1, end);
  }

  // --- Three siblings ---

  lemma ThreeKnown(list: seq<Id>, known: Positions, x: Sibling, y: Sibling, z: Sibling)
    requires forall i :: i in list <==> i == x.id || i == y.id || i == z.id
    requires Holds(known, [x, y, z])
    ensures forall s :: s in [x, y, z] <==> s.id in list && s.id in known && s.position == known[s.id]
  {
    assert x in [x, y, z] && y in [x, y, z] && z in [x, y, z];
  }

  /** A goes behind the others, the last of them standing last. */
  lemma ToTheEnd(x: Sibling, y: Sibling, s: Sibling)
    requires Less(x.position, y.position) && Less(y.position, s.position) && x.id != s.id && y.id != s.id
    requires x.id != y.id
    ensures Comes(Cached(0, [s.id, x.id, y.id], [x, y, s]), s, [x, y], 2, 0, 0,
      Cached(0, [x.id, y.id, s.id], [x, y, s]))
    ensures Comes(Cached(0, [s.id, y.id, x.id], [x, y, s]), s, [x, y], 2, 0, 0,
      Cached(0, [y.id, x.id, s.id], [x, y, s]))
    ensures Comes(Cached(0, [y.id, s.id, x.id], [x, y, s]), s, [x, y], 2, 1, 0,
      Cached(0, [y.id, x.id, s.id], [x, y, s]))
  {
    Transitive(x.position, y.position, s.position);
    Asymmetric(x.position, s.position);
    Asymmetric(y.position, s.position);
    hide Less;
  }

  /** A goes before B, which stands first of the others in the list and last in the
      order. */
  lemma BeforeTheLast(c: Sibling, b: Sibling, s: Sibling)
    requires Less(c.position, s.position) && Less(s.position, b.position) && c.id != s.id && b.id != s.id
    requires c.id != b.id
    ensures var order := Cached(0, [s.id, b.id, c.id], [c, s, b]); Comes(order, s, [c, b], 1, 0, 0, order)
  {
    Transitive(c.position, s.position, b.position);
    Asymmetric(c.position, s.position);
    hide Less;
  }

  /** Children A, B and C, A and B to be moved in that order behind C, in two batches:
      when A is moved, B still counts at its old position. They end up as C, A, B. */
  lemma TwoBatchesEndSorted(tree: Tree, known: Positions, a: Sibling, b: Sibling, c: Sibling, b': Sibling)
    requires a.id == 11 && b.id == b'.id == 12 && c.id == 13 && Rising(b.position, c.position, a.position, b'.position)
    requires WellFormed(tree) && 0 in tree.children && 0 !in tree.parentOf && tree.children[0] == [11, 12, 13]
    requires Holds(known, [b, c, a])
    ensures CanMove(tree, 11, 0)
    ensures var first := StepMove(Layout(tree, 0, map[]), 11, 0, a.position, known).tree;
      && CanMove(first, 12, 0)
      && var second := StepMove(Layout(first, 0, map[]), 12, 0, b'.position, known[12 := b'.position]).tree;
        0 in second.children && second.children[0] == [13, 11, 12]
  {
    RisingAll(b.position, c.position, a.position, b'.position);
    var known', l := known[12 := b'.position], Layout(tree, 0, map[]);
    assert known'[11] == a.position && known'[13] == c.position by { assert a in [b, c, a] && c in [b, c, a]; }
    ThreeKnown([11, 12, 13], known, b, c, a);
    ThreeKnown([12, 13, 11], known', c, a, b');
    ToTheEnd(b, c, a);
    ToTheEnd(c, a, b');
    assert Rises([b, c, a]) && Rises([c, a, b']);
    hide WellFormed, CacheAgrees, Rising, Rises, Less, Comes;
    ReadsFirst(tree, known, 11, [11, 12, 13], [b, c, a]);
    MoveOn(l, known, a, Cached(0, [11, 12, 13], [b, c, a]), [b, c], 2, 0, 0, Cached(0, [12, 13, 11], [b, c, a]));
    var first := StepMove(l, 11, 0, a.position, known).tree;
    hide StepMove, CanMove, ParentOrder;
    ReadsFirst(first, known', 12, [12, 13, 11], [c, a, b']);
    MoveOn(Layout(first, 0, map[]), known', b', Cached(0, [12, 13, 11], [c, a, b']), [c, a], 2, 0, 0,
      Cached(0, [13, 11, 12], [c, a, b']));
  }

  /** In one batch, A is put before B, which still stands in its old place, and they
      end up as A, C, B. */
  lemma OneBatchEndsUnsorted(tree: Tree, known: Positions, a: Sibling, b: Sibling, c: Sibling)
    requires a.id == 11 && b.id == 12 && c.id == 13 && Less(c.position, a.position) && Less(a.position, b.position)
    requires WellFormed(tree) && 0 in tree.children && 0 !in tree.parentOf && tree.children[0] == [11, 12, 13]
    requires Holds(known, [c, a, b])
    ensures CanMove(tree, 11, 0)
    ensures var first := StepMove(Layout(tree, 0, map[]), 11, 0, a.position, known);
      && CanMove(first.tree, 12, 0)
      && var second := StepMove(first, 12, 0, b.position, known).tree;
        0 in second.children && second.children[0] == [11, 13, 12]
  {
    Transitive(c.position, a.position, b.position);
    ThreeKnown([11, 12, 13], known, c, a, b);
    BeforeTheLast(c, b, a);
    ToTheEnd(c, a, b);
    var l, order := Layout(tree, 0, map[]), Cached(0, [11, 12, 13], [c, a, b]);
    assert Rises([c, a, b]);
    hide WellFormed, CacheAgrees, Rises, Less, Comes;
    ReadsFirst(tree, known, 11, [11, 12, 13], [c, a, b]);
    MoveOn(l, known, a, order, [c, b], 1, 0, 0, order);
    var m := StepMove(l, 11, 0, a.position, known);
    hide StepMove, CanMove, ParentOrder;
    ReadsNext(m, known, 12, order);
    MoveOn(m, known, b, order, [c, a], 2, 1, 0, Cached(0, [11, 13, 12], [c, a, b]));
  }
}
