// Lists of distinct ids, and lists of siblings in the order of their positions.
module Siblings {
  import opened Wrappers
  import opened Keys

  type Id = int

  // --- Lists of distinct ids ---

  function IndexOf(list: seq<Id>, x: Id): (i: int)
    ensures -1 <= i < |list|
    ensures x in list <==> i >= 0
    ensures i >= 0 ==> list[i] == x
  {
    if list == [] then -1
    else if list[0] == x then 0
    else
      var rest := IndexOf(list[1..], x);
      if rest < 0 then -1 else rest + 1
  }

  function Without(list: seq<Id>, x: Id): seq<Id>
  {
    var k := IndexOf(list, x);
    if k < 0 then list else list[..k] + list[k + 1..]
  }

  function Others(list: seq<Id>, x: Id): seq<Id>
  {
    if list == [] then [] else (if list[0] == x then [] else [list[0]]) + Others(list[1..], x)
  }

  function InsertAt(list: seq<Id>, at: nat, x: Id): seq<Id>
    requires at <= |list|
  {
    list[..at] + [x] + list[at..]
  }

  /** Where `before` stands, or the end. */
  function Slot(list: seq<Id>, before: Option<Id>): nat
  {
    var at := if before.Some? then IndexOf(list, before.value) else -1;
    if at < 0 then |list| else at
  }

  function InsertBefore(list: seq<Id>, x: Id, before: Option<Id>): seq<Id>
  {
    InsertAt(list, Slot(list, before), x)
  }

  lemma DistinctTail(list: seq<Id>)
    requires Distinct(list) && list != []
    ensures Distinct(list[1..]) && list[0] !in list[1..]
  {
  }

  lemma IndexCons(list: seq<Id>, x: Id)
    requires list != []
    ensures IndexOf(list, x) == if list[0] == x then 0 else if IndexOf(list[1..], x) < 0 then -1
      else IndexOf(list[1..], x) + 1
  {
  }

  lemma WithoutCons(list: seq<Id>, x: Id)
    requires list != [] && (list[0] == x ==> x !in list[1..])
    ensures Without(list, x) == if list[0] == x then list[1..] else [list[0]] + Without(list[1..], x)
  {
    IndexCons(list, x);
    hide IndexOf;
    var rest := list[1..];
    var k := IndexOf(rest, x);
    assert list == [list[0]] + rest;
    if list[0] != x && k >= 0 { assert list[..k + 1] == [list[0]] + rest[..k] && list[k + 2..] == rest[k + 1..]; }
  }

  lemma {:induction false} OthersAre(list: seq<Id>, x: Id)
    requires Distinct(list)
    ensures Others(list, x) == Without(list, x)
  {
    if list != [] {
      DistinctTail(list);
      OthersAre(list[1..], x);
      WithoutCons(list, x);
      hide Without, Distinct;
      if list[0] == x { OthersAbsent(list[1..], x); }
    }
  }

  lemma {:induction false} OthersAbsent(list: seq<Id>, x: Id)
    requires x !in list
    ensures Others(list, x) == list
  {
    if list != [] { OthersAbsent(list[1..], x); }
  }

  lemma IndexIs(list: seq<Id>, k: nat)
    requires Distinct(list) && k < |list|
    ensures IndexOf(list, list[k]) == k
  {
    hide IndexOf;
  }

  lemma WithoutDistinct(list: seq<Id>, x: Id)
    requires Distinct(list)
    ensures Distinct(Without(list, x))
    ensures forall y :: y in Without(list, x) <==> y in list && y != x
  {
    hide IndexOf;
    var k, w := IndexOf(list, x), Without(list, x);
    if k >= 0 {
      forall y | y in list && y != x ensures y in w {
        var i := IndexOf(list, y);
        assert w[if i < k then i else i - 1] == y;
      }
      forall y | y in w ensures y in list && y != x {
        var j := IndexOf(w, y);
        assert list[if j < k then j else j + 1] == y;
      }
    }
  }

  lemma WithoutIndex(list: seq<Id>, x: Id, y: Id)
    requires Distinct(list) && x in list && y in list && y != x
    ensures IndexOf(Without(list, x), y) == var i := IndexOf(list, y); if i < IndexOf(list, x) then i else i - 1
  {
    hide IndexOf;
    WithoutDistinct(list, x);
    var i, k, w := IndexOf(list, y), IndexOf(list, x), Without(list, x);
    IndexIs(w, if i < k then i else i - 1);
  }

  /** Taking `x` out keeps the order of the others. */
  lemma WithoutOrder(list: seq<Id>, x: Id, y: Id, z: Id)
    requires Distinct(list) && y in list && z in list && y != x && z != x
    ensures IndexOf(Without(list, x), y) < IndexOf(Without(list, x), z) <==> IndexOf(list, y) < IndexOf(list, z)
  {
    hide IndexOf;
    if x in list {
      WithoutIndex(list, x, y);
      WithoutIndex(list, x, z);
    }
  }

  lemma InsertDistinct(list: seq<Id>, at: nat, x: Id)
    requires Distinct(list) && x !in list && at <= |list|
    ensures Distinct(InsertAt(list, at, x))
    ensures forall y :: y in InsertAt(list, at, x) <==> y in list || y == x
    ensures IndexOf(InsertAt(list, at, x), x) == at
  {
    hide IndexOf;
    var r := InsertAt(list, at, x);
    assert r[at] == x;
    forall y ensures y in r <==> y in list || y == x { assert list == list[..at] + list[at..]; }
    IndexIs(r, at);
  }

  lemma InsertIndex(list: seq<Id>, at: nat, x: Id, y: Id)
    requires Distinct(list) && x !in list && at <= |list| && y in list
    ensures IndexOf(InsertAt(list, at, x), y) == var i := IndexOf(list, y); if i < at then i else i + 1
  {
    hide IndexOf;
    InsertDistinct(list, at, x);
    var i := IndexOf(list, y);
    IndexIs(InsertAt(list, at, x), if i < at then i else i + 1);
  }

  // --- Siblings in position order ---

  datatype Sibling = Sibling(id: Id, position: Key)

  /** The first place whose position is greater, or the end. */
  function FirstAbove(sorted: seq<Sibling>, position: Key): (k: nat)
    ensures k <= |sorted|
    ensures forall i :: 0 <= i < k ==> !Less(position, sorted[i].position)
    ensures k < |sorted| ==> Less(position, sorted[k].position)
  {
    if sorted == [] || Less(position, sorted[0].position) then 0 else 1 + FirstAbove(sorted[1..], position)
  }

  ghost predicate Ordered(sorted: seq<Sibling>)
  {
    forall i, j :: 0 <= i < j < |sorted| ==> !Less(sorted[j].position, sorted[i].position)
  }

  lemma AboveFrom(sorted: seq<Sibling>, position: Key, i: nat, j: nat)
    requires Ordered(sorted) && i <= j < |sorted| && Less(position, sorted[i].position)
    ensures Less(position, sorted[j].position)
  {
    Total(sorted[i].position, sorted[j].position);
    if Less(sorted[i].position, sorted[j].position) { Transitive(position, sorted[i].position, sorted[j].position); }
  }

  /** Binary search for the same place. */
  method SortedInsertIndex(sorted: seq<Sibling>, position: Key) returns (lo: nat)
    requires Ordered(sorted)
    ensures lo == FirstAbove(sorted, position)
  {
    hide FirstAbove, Less;
    lo := 0;
    var hi := |sorted|;
    while lo < hi
      invariant lo <= hi <= |sorted|
      invariant forall i :: 0 <= i < lo ==> !Less(position, sorted[i].position)
      invariant hi < |sorted| ==> Less(position, sorted[hi].position)
    {
      var mid := (lo + hi) / 2;
      if Less(position, sorted[mid].position) {
        hi := mid;
      } else {
        forall i | 0 <= i < mid ensures !Less(position, sorted[i].position) {
          if Less(position, sorted[i].position) { AboveFrom(sorted, position, i, mid); }
        }
        lo := mid + 1;
      }
    }
    assert lo < |sorted| ==> !(lo < FirstAbove(sorted, position));
  }

  function Put(sorted: seq<Sibling>, s: Sibling): seq<Sibling>
  {
    var k := FirstAbove(sorted, s.position);
    sorted[..k] + [s] + sorted[k..]
  }

  function Find(sorted: seq<Sibling>, id: Id): (i: int)
    ensures -1 <= i < |sorted|
    ensures i >= 0 ==> sorted[i].id == id
    ensures i < 0 ==> forall s :: s in sorted ==> s.id != id
  {
    if sorted == [] then -1
    else if sorted[0].id == id then 0
    else
      var rest := Find(sorted[1..], id);
      if rest < 0 then -1 else rest + 1
  }

  function Drop(sorted: seq<Sibling>, id: Id): seq<Sibling>
  {
    var k := Find(sorted, id);
    if k < 0 then sorted else sorted[..k] + sorted[k + 1..]
  }

  /** `r` holds between each sibling and every later one. */
  ghost predicate Pairwise(sorted: seq<Sibling>, r: (Id, Id) -> bool)
  {
    forall i, j :: 0 <= i < j < |sorted| ==> r(sorted[i].id, sorted[j].id)
  }

  function Differ(): (Id, Id) -> bool
  {
    (x, y) => x != y
  }

  lemma DropKeeps(sorted: seq<Sibling>, id: Id, r: (Id, Id) -> bool)
    ensures Ordered(sorted) ==> Ordered(Drop(sorted, id))
    ensures Pairwise(sorted, r) ==> Pairwise(Drop(sorted, id), r)
  {
    hide Less, Find;
  }

  lemma DropHas(sorted: seq<Sibling>, id: Id, i: nat)
    requires i < |sorted| && sorted[i].id != id
    ensures sorted[i] in Drop(sorted, id)
  {
    hide Find;
    var k, d := Find(sorted, id), Drop(sorted, id);
    assert k >= 0 ==> d[if i < k then i else i - 1] == sorted[i];
  }

  lemma DropOnly(sorted: seq<Sibling>, id: Id, j: nat)
    requires Pairwise(sorted, Differ()) && j < |Drop(sorted, id)|
    ensures Drop(sorted, id)[j] in sorted && Drop(sorted, id)[j].id != id
  {
    hide Find;
    var k, d := Find(sorted, id), Drop(sorted, id);
    if k >= 0 {
      var i := if j < k then j else j + 1;
      assert d[j] == sorted[i];
      assert if i < k then Differ()(sorted[i].id, sorted[k].id) else Differ()(sorted[k].id, sorted[i].id);
    }
  }

  lemma DropMembers(sorted: seq<Sibling>, id: Id)
    requires Pairwise(sorted, Differ())
    ensures forall s :: s in Drop(sorted, id) <==> s in sorted && s.id != id
  {
    hide Drop, Pairwise, Differ;
    var d := Drop(sorted, id);
    forall s | s in sorted && s.id != id ensures s in d {
      var i :| 0 <= i < |sorted| && sorted[i] == s;
      DropHas(sorted, id, i);
    }
    forall s | s in d ensures s in sorted && s.id != id {
      var j :| 0 <= j < |d| && d[j] == s;
      DropOnly(sorted, id, j);
    }
  }

  lemma PutOrdered(sorted: seq<Sibling>, s: Sibling)
    requires Ordered(sorted)
    ensures Ordered(Put(sorted, s))
  {
    hide Less, FirstAbove;
    var k, p := FirstAbove(sorted, s.position), Put(sorted, s);
    forall j | k <= j < |sorted| ensures !Less(sorted[j].position, s.position) {
      AboveFrom(sorted, s.position, k, j);
      Asymmetric(s.position, sorted[j].position);
    }
  }

  lemma PutPairwise(sorted: seq<Sibling>, s: Sibling, r: (Id, Id) -> bool)
    requires Pairwise(sorted, r)
    requires forall i :: 0 <= i < FirstAbove(sorted, s.position) ==> r(sorted[i].id, s.id)
    requires forall i :: FirstAbove(sorted, s.position) <= i < |sorted| ==> r(s.id, sorted[i].id)
    ensures Pairwise(Put(sorted, s), r)
  {
    hide FirstAbove;
  }

  lemma PutMembers(sorted: seq<Sibling>, s: Sibling)
    ensures forall x :: x in Put(sorted, s) <==> x in sorted || x == s
  {
    var k := FirstAbove(sorted, s.position);
    assert sorted == sorted[..k] + sorted[k..];
    hide FirstAbove;
  }
}
