// Captures the live bookmarks as the nodes of a restore point.
module Snapshot {
  import opened Wrappers
  import opened Keys
  import opened FractionalIndex
  import opened Positions
  import opened BookmarkForest
  import opened Planner

  // --- Grouping by parent ---

  function LiveChildren(live: seq<LiveNode>, p: Id): seq<LiveNode>
  {
    if live == [] then []
    else
      var e := live[|live| - 1];
      LiveChildren(live[..|live| - 1], p) + if e.node.parent == p then [e] else []
  }

  /** The place of a removed node in a list of siblings: as far to the left as
      nothing to its left has a position beyond its own. */
  function InsertAt(list: seq<LiveNode>, position: Option<Key>): (at: nat)
    ensures at <= |list|
    ensures position.Some? ==> forall i :: 0 <= i < at ==>
      !(list[i].node.position.Some? && Less(position.value, list[i].node.position.value))
    ensures position.Some? && at < |list| ==>
      list[at].node.position.Some? && Less(position.value, list[at].node.position.value)
    ensures position.None? ==> at == |list|
  {
    if list == [] || position.None? then |list|
    else if list[0].node.position.Some? && Less(position.value, list[0].node.position.value) then 0
    else 1 + InsertAt(list[1..], position)
  }

  function Insert(list: seq<LiveNode>, e: LiveNode): seq<LiveNode>
  {
    var at := InsertAt(list, e.node.position);
    list[..at] + [e] + list[at..]
  }

  predicate IsLive(live: seq<LiveNode>, id: Id)
  {
    exists l :: l in live && l.objectId == id
  }

  /** A folder's children: the live ones in the browser's order, with the
      removed ones merged in by position. */
  function Children(live: seq<LiveNode>, removed: seq<LiveNode>, p: Id): seq<LiveNode>
  {
    if removed == [] then LiveChildren(live, p)
    else
      var e := removed[|removed| - 1];
      var rest := Children(live, removed[..|removed| - 1], p);
      if e.node.parent != p || IsLive(live, e.objectId) then rest else Insert(rest, e)
  }

  function ListAt(childrenOf: map<Id, seq<LiveNode>>, p: Id): seq<LiveNode>
  {
    if p in childrenOf then childrenOf[p] else []
  }

  method GroupLive(live: seq<LiveNode>) returns (childrenOf: map<Id, seq<LiveNode>>)
    ensures forall p :: ListAt(childrenOf, p) == LiveChildren(live, p)
  {
    childrenOf := map[];
    for i := 0 to |live|
      invariant forall p :: ListAt(childrenOf, p) == LiveChildren(live[..i], p)
    {
      assert live[..i + 1][..i] == live[..i];
      var p := live[i].node.parent;
      childrenOf := childrenOf[p := ListAt(childrenOf, p) + [live[i]]];
    }
    assert live[..|live|] == live;
  }

  method MergeRemoved(live: seq<LiveNode>, removed: seq<LiveNode>, grouped: map<Id, seq<LiveNode>>)
      returns (childrenOf: map<Id, seq<LiveNode>>)
    requires forall p :: ListAt(grouped, p) == LiveChildren(live, p)
    ensures forall p :: ListAt(childrenOf, p) == Children(live, removed, p)
  {
    childrenOf := grouped;
    var liveIds := set e | e in live :: e.objectId;
    for i := 0 to |removed|
      invariant forall p :: ListAt(childrenOf, p) == Children(live, removed[..i], p)
    {
      var e := removed[i];
      assert removed[..i + 1][..i] == removed[..i];
      assert e.objectId in liveIds <==> IsLive(live, e.objectId);
      if e.objectId in liveIds { continue; }
      childrenOf := childrenOf[e.node.parent := Insert(ListAt(childrenOf, e.node.parent), e)];
    }
    assert removed[..|removed|] == removed;
  }

  // --- What the groups hold ---

  ghost predicate DistinctIds(live: seq<LiveNode>)
  {
    forall i, j :: 0 <= i < j < |live| ==> live[i].objectId != live[j].objectId
  }

  /** Everything captured from: the live nodes and the removed ones not among
      them. */
  function SourceForest(live: seq<LiveNode>, removed: seq<LiveNode>): Forest
  {
    LiveById(removed) + LiveById(live)
  }

  ghost predicate In(e: LiveNode, f: Forest)
  {
    e.objectId in f && f[e.objectId] == e.node
  }

  lemma {:induction false} LiveChildrenAre(live: seq<LiveNode>, p: Id)
    requires DistinctIds(live)
    ensures forall e :: e in LiveChildren(live, p) <==> e in live && e.node.parent == p
    ensures DistinctIds(LiveChildren(live, p))
  {
    if live != [] {
      LiveChildrenAre(live[..|live| - 1], p);
      assert live == live[..|live| - 1] + [live[|live| - 1]];
    }
  }

  lemma InsertAre(list: seq<LiveNode>, x: LiveNode)
    requires DistinctIds(list) && forall e :: e in list ==> e.objectId != x.objectId
    ensures forall e :: e in Insert(list, x) <==> e in list || e == x
    ensures DistinctIds(Insert(list, x))
  {
    var at := InsertAt(list, x.node.position);
    assert list == list[..at] + list[at..];
  }

  lemma {:induction false} ChildrenAre(live: seq<LiveNode>, removed: seq<LiveNode>, p: Id)
    requires DistinctIds(live) && DistinctIds(removed)
    ensures forall e :: e in Children(live, removed, p) <==>
      e.node.parent == p && (e in live || (e in removed && !IsLive(live, e.objectId)))
    ensures DistinctIds(Children(live, removed, p))
  {
    LiveChildrenAre(live, p);
    if removed != [] {
      var rest, x := removed[..|removed| - 1], removed[|removed| - 1];
      ChildrenAre(live, rest, p);
      assert removed == rest + [x];
      if x.node.parent == p && !IsLive(live, x.objectId) {
        var list := Children(live, rest, p);
        forall e | e in list ensures e.objectId != x.objectId {
          if e !in live { var k :| 0 <= k < |rest| && rest[k] == e; }
        }
        InsertAre(list, x);
      }
    }
  }

  // --- The walk ---

  function Unmanaged(list: seq<LiveNode>): (r: seq<LiveNode>)
    ensures forall e :: e in r <==> e in list && !e.node.managed
  {
    if list == [] then []
    else
      var e := list[|list| - 1];
      assert list == list[..|list| - 1] + [e];
      Unmanaged(list[..|list| - 1]) + if e.node.managed then [] else [e]
  }

  lemma {:induction false} UnmanagedDistinct(list: seq<LiveNode>)
    requires DistinctIds(list)
    ensures DistinctIds(Unmanaged(list))
  {
    if list != [] {
      var rest := list[..|list| - 1];
      UnmanagedDistinct(rest);
      assert list == rest + [list[|list| - 1]];
    }
  }

  function Kids(live: seq<LiveNode>, removed: seq<LiveNode>, p: Id): seq<LiveNode>
  {
    Unmanaged(Children(live, removed, p))
  }

  function PositionsOf(list: seq<LiveNode>): seq<Option<Key>>
  {
    seq(|list|, i requires 0 <= i < |list| => list[i].node.position)
  }

  function NodeFor(e: LiveNode, x: Key): PointNode
  {
    PointNode(e.objectId, e.node.kind, e.node.title, if e.node.kind.Bookmark? then e.node.url
      else None, e.node.parent, x)
  }

  /** What the walk needs of its input: distinct ids, none of them a root's. */
  ghost predicate TreeSource(live: seq<LiveNode>, removed: seq<LiveNode>)
  {
    DistinctIds(live) && DistinctIds(removed) && forall e :: e in live || e in removed ==> !IsRoot(e.objectId)
  }

  /** Children lists of a forest: unmanaged nodes, each under its parent, once. */
  ghost predicate TreeKids(kids: Id -> seq<LiveNode>, f: Forest)
  {
    && (forall p, e :: e in kids(p) ==> In(e, f) && e.node.parent == p && !IsRoot(e.objectId) && !e.node.managed)
    && (forall p :: DistinctIds(kids(p)))
  }

  lemma KidsAt(live: seq<LiveNode>, removed: seq<LiveNode>, p: Id)
    requires TreeSource(live, removed)
    ensures forall e :: e in Kids(live, removed, p) <==>
      In(e, SourceForest(live, removed)) && !e.node.managed && e.node.parent == p
    ensures forall e :: e in Kids(live, removed, p) ==> !IsRoot(e.objectId)
    ensures DistinctIds(Kids(live, removed, p))
  {
    ChildrenAre(live, removed, p);
    UnmanagedDistinct(Children(live, removed, p));
    LiveByIdOf(live);
    LiveByIdOf(removed);
    var f := SourceForest(live, removed);
    forall e ensures In(e, f) <==> e in live || (e in removed && !IsLive(live, e.objectId)) {
      assert LiveNode(e.objectId, e.node) == e;
      assert e.objectId in LiveById(live) <==> IsLive(live, e.objectId) by {
        if e.objectId in LiveById(live) { assert LiveNode(e.objectId, LiveById(live)[e.objectId]) in live; }
      }
    }
  }

  /** Ids already written out, each after its parent. */
  ghost predicate ParentsEarlier(out: seq<PointNode>)
  {
    && (forall i, j :: 0 <= i < j < |out| ==> out[i].o != out[j].o)
    && (forall i :: 0 <= i < |out| ==> !IsRoot(out[i].o))
    && (forall i :: 0 <= i < |out| ==>
      IsRoot(out[i].p) || exists j :: 0 <= j < i && out[j].o == out[i].p && out[j].k.Folder?)
  }

  ghost predicate Reached(out: seq<PointNode>, p: Id)
  {
    IsRoot(p) || exists k :: 0 <= k < |out| && out[k].o == p && out[k].k.Folder?
  }

  /** A folder opened with its children's positions: `n` of them written out. */
  ghost predicate Opened(kids: seq<LiveNode>, keys: seq<Key>, n: nat, out: seq<PointNode>)
  {
    && n <= |kids| == |keys|
    && Normalized(PositionsOf(kids), keys)
    && forall j :: 0 <= j < n ==> NodeFor(kids[j], keys[j]) in out
  }

  ghost predicate FromFolder(kids: seq<LiveNode>, keys: seq<Key>, n: nat, node: PointNode)
  {
    n <= |kids| == |keys| && exists j :: 0 <= j < n && node == NodeFor(kids[j], keys[j])
  }

  /** Siblings come in the order of their positions, which are all different. */
  ghost predicate SiblingsRise(out: seq<PointNode>)
  {
    forall i, j :: 0 <= i < j < |out| && out[i].p == out[j].p ==> Less(out[i].x, out[j].x)
  }

  /** The walk so far. `positions` has an entry for each opened folder, `done`
      says how many of its children are out. */
  ghost predicate Walked(kids: Id -> seq<LiveNode>, out: seq<PointNode>, positions: map<Id, seq<Key>>,
      done: map<Id, nat>)
  {
    && ParentsEarlier(out) && SiblingsRise(out)
    && done.Keys == positions.Keys
    && (forall p :: p in positions ==> Opened(kids(p), positions[p], done[p], out) && Reached(out, p))
    && (forall n :: n in out ==> n.p in positions && FromFolder(kids(n.p), positions[n.p], done[n.p], n))
  }

  /** The finished walk: every folder reached has all its children out. */
  ghost predicate Captures(kids: Id -> seq<LiveNode>, out: seq<PointNode>, positions: map<Id, seq<Key>>)
  {
    && ParentsEarlier(out) && SiblingsRise(out)
    && (forall p :: IsRoot(p) ==> p in positions)
    && (forall n :: n in out && n.k.Folder? ==> n.o in positions)
    && (forall p :: p in positions ==> Opened(kids(p), positions[p], |kids(p)|, out))
    && (forall n :: n in out ==> n.p in positions && FromFolder(kids(n.p), positions[n.p], |kids(n.p)|, n))
  }

  // The children still to write out of one opened folder.
  datatype Frame = Frame(siblings: seq<LiveNode>, positions: seq<Key>, i: nat)

  /** A node already out came from an earlier child or from another folder. */
  lemma OtherId(kids: Id -> seq<LiveNode>, f: Forest, keys: seq<Key>, n: PointNode, m: nat, p: Id, k: nat)
    requires TreeKids(kids, f) && FromFolder(kids(n.p), keys, m, n)
    requires k < |kids(p)| && (n.p == p ==> m <= k)
    ensures n.o != kids(p)[k].objectId
  {
    var j :| 0 <= j < m && n == NodeFor(kids(n.p)[j], keys[j]);
    var d, e := kids(n.p)[j], kids(p)[k];
    assert d in kids(n.p) && e in kids(p);
    assert In(d, f) && In(e, f) && d.node.parent == n.p && e.node.parent == p;
    assert n.p == p ==> DistinctIds(kids(p));
  }

  lemma NewId(kids: Id -> seq<LiveNode>, f: Forest, out: seq<PointNode>, positions: map<Id, seq<Key>>,
      done: map<Id, nat>, p: Id)
    requires TreeKids(kids, f) && Walked(kids, out, positions, done)
    requires p in positions && done[p] < |kids(p)|
    ensures forall n :: n in out ==> n.o != kids(p)[done[p]].objectId
    ensures kids(p)[done[p]].objectId !in positions
  {
    var e := kids(p)[done[p]];
    forall n | n in out ensures n.o != e.objectId {
      OtherId(kids, f, positions[n.p], n, done[n.p], p, done[p]);
    }
    assert e in kids(p) && !IsRoot(e.objectId);
    assert forall k :: 0 <= k < |out| ==> out[k] in out;
    assert !Reached(out, e.objectId);
  }

  lemma ParentsExtend(out: seq<PointNode>, node: PointNode)
    requires ParentsEarlier(out) && Reached(out, node.p) && !IsRoot(node.o)
    requires forall n :: n in out ==> n.o != node.o
    ensures ParentsEarlier(out + [node])
    ensures forall p :: Reached(out, p) ==> Reached(out + [node], p)
  {
    var out' := out + [node];
    forall i | 0 <= i < |out| ensures out[i].o != node.o { assert out[i] in out; }
    forall i | 0 <= i < |out'| && !IsRoot(out'[i].p)
      ensures exists j :: 0 <= j < i && out'[j].o == out'[i].p && out'[j].k.Folder?
    {
      var j :| 0 <= j < (if i < |out| then i else |out|) && out[j].o == out'[i].p && out[j].k.Folder?;
      assert out'[j] == out[j];
    }
    forall p | Reached(out, p) && !IsRoot(p) ensures Reached(out', p) {
      var k :| 0 <= k < |out| && out[k].o == p && out[k].k.Folder?;
      assert out'[k] == out[k];
    }
  }

  lemma FromFolderGrows(kids: seq<LiveNode>, keys: seq<Key>, m: nat, n: nat, node: PointNode)
    requires FromFolder(kids, keys, m, node) && m <= n <= |kids|
    ensures FromFolder(kids, keys, n, node)
  {
    var j :| 0 <= j < m && node == NodeFor(kids[j], keys[j]);
    assert j < n;
  }

  lemma OpenedNext(kids: seq<LiveNode>, keys: seq<Key>, n: nat, out: seq<PointNode>)
    requires Opened(kids, keys, n, out) && n < |kids|
    ensures Opened(kids, keys, n + 1, out + [NodeFor(kids[n], keys[n])])
    ensures FromFolder(kids, keys, n + 1, NodeFor(kids[n], keys[n]))
  {
    var out' := out + [NodeFor(kids[n], keys[n])];
    assert out'[|out|] in out';
  }

  lemma RisesNext(kids: seq<LiveNode>, keys: seq<Key>, n: nat, out: seq<PointNode>, node: PointNode)
    requires SiblingsRise(out) && n < |kids| == |keys| && Normalized(PositionsOf(kids), keys)
    requires node == NodeFor(kids[n], keys[n])
    requires forall m :: m in out && m.p == node.p ==> FromFolder(kids, keys, n, m)
    ensures SiblingsRise(out + [node])
  {
    NormalizedIncreases(PositionsOf(kids), keys);
    forall i | 0 <= i < |out| && out[i].p == node.p ensures Less(out[i].x, node.x) {
      assert out[i] in out;
      var j :| 0 <= j < n && out[i] == NodeFor(kids[j], keys[j]);
    }
  }

  lemma EmitNext(kids: Id -> seq<LiveNode>, f: Forest, out: seq<PointNode>, positions: map<Id, seq<Key>>,
      done: map<Id, nat>, p: Id, node: PointNode)
    requires TreeKids(kids, f) && Walked(kids, out, positions, done)
    requires p in positions && done[p] < |kids(p)|
    requires node == NodeFor(kids(p)[done[p]], positions[p][done[p]])
    ensures Walked(kids, out + [node], positions, done[p := done[p] + 1])
    ensures node.o !in positions && !IsRoot(node.o) && node.p == p && (forall n :: n in out ==> n.o != node.o)
  {
    var out', done' := out + [node], done[p := done[p] + 1];
    NewId(kids, f, out, positions, done, p);
    assert kids(p)[done[p]] in kids(p);
    ParentsExtend(out, node);
    OpenedNext(kids(p), positions[p], done[p], out);
    hide SiblingsRise;
    RisesNext(kids(p), positions[p], done[p], out, node);
    hide FromFolder, TreeKids, ParentsEarlier, NodeFor;
    forall n | n in out ensures n.p in positions && FromFolder(kids(n.p), positions[n.p], done'[n.p], n) {
      FromFolderGrows(kids(n.p), positions[n.p], done[n.p], done'[n.p], n);
    }
  }

  lemma OpenFolder(kids: Id -> seq<LiveNode>, out: seq<PointNode>, positions: map<Id, seq<Key>>, done: map<Id, nat>,
      p: Id, keys: seq<Key>)
    requires Walked(kids, out, positions, done) && p !in positions && Reached(out, p)
    requires |keys| == |kids(p)| && Normalized(PositionsOf(kids(p)), keys)
    ensures Walked(kids, out, positions[p := keys], done[p := 0])
  {
    forall n | n in out
      ensures n.p in positions[p := keys] && FromFolder(kids(n.p), positions[p := keys][n.p], done[p := 0][n.p], n)
    {
      assert n.p in positions && n.p != p;
    }
  }

  /** The frames on the stack belong to opened folders, each at the next child
      to write out; the other opened folders are finished. */
  ghost predicate Frames(kids: Id -> seq<LiveNode>, stack: seq<Frame>, parents: seq<Id>, positions: map<Id, seq<Key>>,
      done: map<Id, nat>)
    requires done.Keys == positions.Keys
  {
    && |parents| == |stack|
    && (forall i, j :: 0 <= i < j < |parents| ==> parents[i] != parents[j])
    && (forall i :: 0 <= i < |parents| ==> parents[i] in positions)
    && (forall i :: 0 <= i < |parents| ==> stack[i] == Frame(kids(parents[i]), positions[parents[i]], done[parents[i]]))
    && (forall p :: p in positions && p !in parents ==> done[p] == |kids(p)|)
  }

  lemma TopAdvances(kids: Id -> seq<LiveNode>, stack: seq<Frame>, parents: seq<Id>, positions: map<Id, seq<Key>>,
      done: map<Id, nat>, frame: Frame)
    requires done.Keys == positions.Keys && stack != [] && Frames(kids, stack, parents, positions, done)
    requires frame == Frame(stack[|stack| - 1].siblings, stack[|stack| - 1].positions, stack[|stack| - 1].i + 1)
    ensures Frames(kids, stack[|stack| - 1 := frame], parents, positions, done[parents[|stack| - 1] := frame.i])
  {
  }

  lemma TopPopped(kids: Id -> seq<LiveNode>, stack: seq<Frame>, parents: seq<Id>, positions: map<Id, seq<Key>>,
      done: map<Id, nat>)
    requires done.Keys == positions.Keys && stack != [] && Frames(kids, stack, parents, positions, done)
    requires stack[|stack| - 1].i == |stack[|stack| - 1].siblings|
    ensures Frames(kids, stack[..|stack| - 1], parents[..|stack| - 1], positions, done)
  {
    var n := |stack| - 1;
    forall p | p in positions && p !in parents[..n] ensures done[p] == |kids(p)| {
      assert parents == parents[..n] + [parents[n]];
    }
  }

  /** Opens a folder: its unmanaged children, with positions, if it has any. */
  method Push(childrenOf: map<Id, seq<LiveNode>>, parentId: Id, stack: seq<Frame>)
      returns (r: Result<seq<Frame>, KeyError>, ghost keys: seq<Key>)
    ensures r.Success? ==>
      |keys| == |Unmanaged(ListAt(childrenOf, parentId))|
      && Normalized(PositionsOf(Unmanaged(ListAt(childrenOf, parentId))), keys)
    ensures r.Success? ==> r.value == Opening(stack, Unmanaged(ListAt(childrenOf, parentId)), keys)
    ensures AllKeys(PositionsOf(Unmanaged(ListAt(childrenOf, parentId)))) ==> r.Success?
  {
    var siblings := Unmanaged(ListAt(childrenOf, parentId));
    keys := [];
    if siblings == [] { return Success(stack), []; }
    var positions := NormalizePositions(PositionsOf(siblings));
    if positions.Failure? { return Failure(positions.error), []; }
    return Success(stack + [Frame(siblings, positions.value, 0)]), positions.value;
  }

  ghost predicate Walking(kids: Id -> seq<LiveNode>, out: seq<PointNode>, stack: seq<Frame>, parents: seq<Id>,
      positions: map<Id, seq<Key>>, done: map<Id, nat>)
  {
    && Walked(kids, out, positions, done)
    && Frames(kids, stack, parents, positions, done)
  }

  lemma StartWalking(kids: Id -> seq<LiveNode>)
    ensures Walking(kids, [], [], [], map[], map[])
  {
  }

  function Opening(stack: seq<Frame>, list: seq<LiveNode>, keys: seq<Key>): seq<Frame>
  {
    if keys == [] then stack else stack + [Frame(list, keys, 0)]
  }

  lemma Pushed(kids: Id -> seq<LiveNode>, out: seq<PointNode>, stack: seq<Frame>, parents: seq<Id>,
      positions: map<Id, seq<Key>>, done: map<Id, nat>, p: Id, keys: seq<Key>)
    requires Walking(kids, out, stack, parents, positions, done)
    requires p !in positions && Reached(out, p)
    requires |keys| == |kids(p)| && Normalized(PositionsOf(kids(p)), keys)
    ensures Walking(kids, out, Opening(stack, kids(p), keys), if keys == [] then parents
      else parents + [p], positions[p := keys], done[p := 0])
  {
    OpenFolder(kids, out, positions, done, p, keys);
    hide Walked, Opened;
    assert p !in parents;
  }

  ghost predicate UsablePositions(kids: Id -> seq<LiveNode>)
  {
    forall p :: AllKeys(PositionsOf(kids(p)))
  }

  ghost function KidsOf(live: seq<LiveNode>, removed: seq<LiveNode>): Id -> seq<LiveNode>
  {
    (p: Id) => Kids(live, removed, p)
  }

  ghost predicate Grouped(childrenOf: map<Id, seq<LiveNode>>, kids: Id -> seq<LiveNode>)
  {
    forall p :: Unmanaged(ListAt(childrenOf, p)) == kids(p)
  }

  method OpenRoots(childrenOf: map<Id, seq<LiveNode>>, ghost kids: Id -> seq<LiveNode>)
    returns (r: Result<seq<Frame>, KeyError>, ghost parents: seq<Id>, ghost positions: map<Id, seq<Key>>,
      ghost done: map<Id, nat>)
    requires Grouped(childrenOf, kids)
    ensures r.Success? ==> Walking(kids, [], r.value, parents, positions, done) && forall p :: p in positions <==>
      IsRoot(p)
    ensures UsablePositions(kids) ==> r.Success?
  {
    var stack: seq<Frame> := [];
    parents, positions, done := [], map[], map[];
    StartWalking(kids);
    hide Walking, Opening, Normalized;
    var n := |ROOT_ORDER|;
    while n > 0
      invariant 0 <= n <= |ROOT_ORDER|
      invariant Walking(kids, [], stack, parents, positions, done)
      invariant forall p :: p in positions <==> n <= p < |ROOT_ORDER|
    {
      n := n - 1;
      var root := ROOT_ORDER[n];
      assert root == n;
      var pushed, keys := Push(childrenOf, root, stack);
      if pushed.Failure? { return Failure(pushed.error), parents, positions, done; }
      Pushed(kids, [], stack, parents, positions, done, root, keys);
      if keys != [] { parents := parents + [root]; }
      stack, positions, done := pushed.value, positions[root := keys], done[root := 0];
    }
    return Success(stack), parents, positions, done;
  }

  ghost predicate FoldersOpen(out: seq<PointNode>, positions: map<Id, seq<Key>>)
  {
    && (forall p :: IsRoot(p) ==> p in positions)
    && (forall n :: n in out && n.k.Folder? ==> n.o in positions)
  }

  lemma FoldersOpenNext(out: seq<PointNode>, positions: map<Id, seq<Key>>, node: PointNode,
      positions': map<Id, seq<Key>>)
    requires FoldersOpen(out, positions) && positions.Keys <= positions'.Keys
    requires node.k.Folder? ==> node.o in positions'
    ensures FoldersOpen(out + [node], positions')
  {
  }

  lemma Shrinks(f: Forest, out: seq<PointNode>, node: PointNode)
    requires node.o in f && forall n :: n in out ==> n.o != node.o
    ensures f.Keys - PointIds(out + [node]) < f.Keys - PointIds(out)
  {
    assert PointIds(out + [node]) == PointIds(out) + {node.o};
    assert node.o in f.Keys - PointIds(out);
  }

  lemma FrameInRange(kids: Id -> seq<LiveNode>, out: seq<PointNode>, stack: seq<Frame>, parents: seq<Id>,
      positions: map<Id, seq<Key>>, done: map<Id, nat>)
    requires Walking(kids, out, stack, parents, positions, done) && stack != []
    ensures var t := stack[|stack| - 1]; t.i <= |t.siblings| == |t.positions|
  {
    var p := parents[|stack| - 1];
    assert Opened(kids(p), positions[p], done[p], out);
  }

  lemma FrameDone(kids: Id -> seq<LiveNode>, out: seq<PointNode>, stack: seq<Frame>, parents: seq<Id>,
      positions: map<Id, seq<Key>>, done: map<Id, nat>)
    requires Walking(kids, out, stack, parents, positions, done) && stack != []
    requires stack[|stack| - 1].i >= |stack[|stack| - 1].siblings|
    ensures Walking(kids, out, stack[..|stack| - 1], parents[..|stack| - 1], positions, done)
  {
    assert Opened(kids(parents[|stack| - 1]), positions[parents[|stack| - 1]], done[parents[|stack| - 1]], out);
    TopPopped(kids, stack, parents, positions, done);
  }

  function Advanced(stack: seq<Frame>): seq<Frame>
    requires stack != []
  {
    var top := |stack| - 1;
    stack[top := stack[top].(i := stack[top].i + 1)]
  }

  lemma TopFrame(kids: Id -> seq<LiveNode>, out: seq<PointNode>, stack: seq<Frame>, parents: seq<Id>,
      positions: map<Id, seq<Key>>, done: map<Id, nat>)
    requires Walking(kids, out, stack, parents, positions, done) && stack != []
    ensures |parents| == |stack| && done.Keys == positions.Keys
    ensures var p := parents[|stack| - 1];
      p in positions && p in done && stack[|stack| - 1] == Frame(kids(p), positions[p], done[p])
  {
  }

  lemma AdvanceOut(kids: Id -> seq<LiveNode>, f: Forest, out: seq<PointNode>, positions: map<Id, seq<Key>>,
      done: map<Id, nat>, p: Id, node: PointNode)
    requires TreeKids(kids, f) && Walked(kids, out, positions, done)
    requires p in positions && done[p] < |kids(p)| && node == NodeFor(kids(p)[done[p]], positions[p][done[p]])
    ensures Walked(kids, out + [node], positions, done[p := done[p] + 1])
    ensures node.o !in positions && (node.k.Folder? ==> Reached(out + [node], node.o))
    ensures f.Keys - PointIds(out + [node]) < f.Keys - PointIds(out)
  {
    EmitNext(kids, f, out, positions, done, p, node);
    hide Walked;
    assert kids(p)[done[p]] in kids(p);
    Shrinks(f, out, node);
    assert (out + [node])[|out|] == node;
  }

  lemma Advance(kids: Id -> seq<LiveNode>, f: Forest, out: seq<PointNode>, stack: seq<Frame>, parents: seq<Id>,
      positions: map<Id, seq<Key>>, done: map<Id, nat>, node: PointNode)
    requires TreeKids(kids, f) && Walking(kids, out, stack, parents, positions, done) && stack != []
    requires var t := stack[|stack| - 1];
      t.i < |t.siblings| == |t.positions| && node == NodeFor(t.siblings[t.i], t.positions[t.i])
    ensures Walking(kids, out + [node], Advanced(stack), parents, positions,
      done[parents[|stack| - 1] := stack[|stack| - 1].i + 1])
    ensures node.o !in positions && (node.k.Folder? ==> Reached(out + [node], node.o))
    ensures f.Keys - PointIds(out + [node]) < f.Keys - PointIds(out)
  {
    hide TreeKids, Walked, Frames, Reached, Opened, FromFolder, ParentsEarlier;
    TopFrame(kids, out, stack, parents, positions, done);
    var t, p := stack[|stack| - 1], parents[|stack| - 1];
    AdvanceOut(kids, f, out, positions, done, p, node);
    TopAdvances(kids, stack, parents, positions, done, t.(i := t.i + 1));
  }

  /** Writes out the next child of the frame on top, and opens it if it is a
      folder. */
  method EmitTop(childrenOf: map<Id, seq<LiveNode>>, out: seq<PointNode>, stack: seq<Frame>,
                 ghost kids: Id -> seq<LiveNode>, ghost f: Forest, ghost parents: seq<Id>,
                   ghost positions: map<Id, seq<Key>>, ghost done: map<Id, nat>)
    returns (node: PointNode, r: Result<seq<Frame>, KeyError>, ghost parents': seq<Id>,
      ghost positions': map<Id, seq<Key>>, ghost done': map<Id, nat>)
    requires Grouped(childrenOf, kids) && TreeKids(kids, f) && Walking(kids, out, stack, parents, positions, done)
    requires stack != [] && stack[|stack| - 1].i < |stack[|stack| - 1].siblings| == |stack[|stack| - 1].positions|
    ensures r.Success? ==> Walking(kids, out + [node], r.value, parents', positions', done')
    requires FoldersOpen(out, positions)
    ensures r.Success? ==> FoldersOpen(out + [node], positions')
    ensures f.Keys - PointIds(out + [node]) < f.Keys - PointIds(out)
    ensures UsablePositions(kids) ==> r.Success?
  {
    var frame := stack[|stack| - 1];
    ghost var p := parents[|stack| - 1];
    var e := frame.siblings[frame.i];
    node := NodeFor(e, frame.positions[frame.i]);
    Advance(kids, f, out, stack, parents, positions, done, node);
    parents', positions', done' := parents, positions, done[p := frame.i + 1];
    if e.node.kind.Folder? {
      var pushed, keys := Push(childrenOf, e.objectId, Advanced(stack));
      if pushed.Failure? { return node, Failure(pushed.error), parents', positions', done'; }
      Pushed(kids, out + [node], Advanced(stack), parents', positions', done', e.objectId, keys);
      if keys != [] { parents' := parents' + [e.objectId]; }
      positions', done' := positions'[e.objectId := keys], done'[e.objectId := 0];
      FoldersOpenNext(out, positions, node, positions');
      return node, pushed, parents', positions', done';
    }
    FoldersOpenNext(out, positions, node, positions');
    return node, Success(Advanced(stack)), parents', positions', done';
  }

  lemma Finished(kids: Id -> seq<LiveNode>, out: seq<PointNode>, positions: map<Id, seq<Key>>, done: map<Id, nat>)
    requires Walking(kids, out, [], [], positions, done)
    requires FoldersOpen(out, positions)
    ensures Captures(kids, out, positions)
  {
  }

  lemma KidsOfTree(live: seq<LiveNode>, removed: seq<LiveNode>)
    requires TreeSource(live, removed)
    ensures TreeKids(KidsOf(live, removed), SourceForest(live, removed))
  {
    var f, kids := SourceForest(live, removed), KidsOf(live, removed);
    forall p
      ensures DistinctIds(kids(p))
      ensures forall e :: e in kids(p) ==> In(e, f) && e.node.parent == p && !IsRoot(e.objectId) && !e.node.managed
    {
      KidsAt(live, removed, p);
    }
  }

  method Walk(childrenOf: map<Id, seq<LiveNode>>, ghost kids: Id -> seq<LiveNode>, ghost f: Forest)
    returns (r: Result<seq<PointNode>, KeyError>, ghost positions: map<Id, seq<Key>>)
    requires Grouped(childrenOf, kids) && TreeKids(kids, f)
    ensures r.Success? ==> Captures(kids, r.value, positions)
    ensures UsablePositions(kids) ==> r.Success?
  {
    var roots, parents, positions', done := OpenRoots(childrenOf, kids);
    positions := positions';
    if roots.Failure? { return Failure(roots.error), positions; }
    var out: seq<PointNode>, stack := [], roots.value;
    while stack != []
      invariant Walking(kids, out, stack, parents, positions, done)
      invariant FoldersOpen(out, positions)
      decreases f.Keys - PointIds(out), |stack|
    {
      var frame := stack[|stack| - 1];
      if frame.i >= |frame.siblings| {
        FrameDone(kids, out, stack, parents, positions, done);
        stack, parents := stack[..|stack| - 1], parents[..|stack| - 1];
        continue;
      }
      FrameInRange(kids, out, stack, parents, positions, done);
      var node, next;
      node, next, parents, positions, done := EmitTop(childrenOf, out, stack, kids, f, parents, positions, done);
      if next.Failure? { return Failure(next.error), positions; }
      out, stack := out + [node], next.value;
    }
    Finished(kids, out, positions, done);
    return Success(out), positions;
  }

  /** Lists the bookmarks parents first, siblings in order with increasing
      positions, leaving out managed nodes and what does not reach a root. */
  method BuildPointNodes(live: seq<LiveNode>, removed: seq<LiveNode>)
      returns (r: Result<seq<PointNode>, KeyError>, ghost positions: map<Id, seq<Key>>)
    requires TreeSource(live, removed)
    ensures r.Success? ==> Captures(KidsOf(live, removed), r.value, positions)
    ensures UsablePositions(KidsOf(live, removed)) ==> r.Success?
  {
    KidsOfTree(live, removed);
    var grouped := GroupLive(live);
    var childrenOf := MergeRemoved(live, removed, grouped);
    r, positions := Walk(childrenOf, KidsOf(live, removed), SourceForest(live, removed));
  }
}
