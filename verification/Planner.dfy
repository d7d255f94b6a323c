// The restore planner: the operations that turn the bookmarks as they are into
// the bookmarks as a restore point has them.
module Planner {
  import opened Wrappers
  import opened Keys
  import opened BookmarkForest
  import opened Descent
  import opened Flatten

  // One node of a restore point: object id, kind, title, URL, parent, position.
  datatype PointNode = PointNode(o: Id, k: Kind, t: string, u: Option<Url>, p: Id, x: Key)

  // One live bookmark, as read from the browser.
  datatype LiveNode = LiveNode(objectId: Id, node: Node)

  datatype Mode = Merge | Exact

  datatype Scope = All | Within(folder: Id)

  datatype PlanError = UnknownRestoreScope

  datatype RestorePlan = RestorePlan(restores: seq<Op>, updates: seq<Op>, moves: seq<Op>, deletes: seq<Op>,
      skipped: nat)
  {
    function Operations(): seq<Op> { restores + updates + moves + deletes }
  }

  // `covered`: the nodes the restore is about. `ancestors`: nodes that only
  // have to exist.
  datatype Cover = Cover(covered: set<Id>, ancestors: set<Id>)

  // --- What the point and the live tree say ---

  function PointIds(nodes: seq<PointNode>): set<Id>
  {
    set n | n in nodes :: n.o
  }

  /** The point read as a forest of its own. */
  function PointForest(nodes: seq<PointNode>): (f: Forest)
    ensures f.Keys == PointIds(nodes)
  {
    if nodes == [] then map[]
    else
      var n := nodes[|nodes| - 1];
      assert nodes == nodes[..|nodes| - 1] + [n];
      PointForest(nodes[..|nodes| - 1])[n.o := Node(n.k, n.t, n.u, n.p, Some(n.x), false)]
  }

  function PointLinks(nodes: seq<PointNode>): seq<Link>
  {
    seq(|nodes|, i requires 0 <= i < |nodes| => Link(nodes[i].o, nodes[i].p, nodes[i].k.Folder?))
  }

  function LiveById(live: seq<LiveNode>): Forest
  {
    if live == [] then map[]
    else LiveById(live[..|live| - 1])[live[|live| - 1].objectId := live[|live| - 1].node]
  }

  function LiveLinks(live: seq<LiveNode>): seq<Link>
  {
    seq(|live|, i requires 0 <= i < |live| => Link(live[i].objectId, live[i].node.parent, live[i].node.kind.Folder?))
  }

  /** `live` is a listing of the forest. */
  ghost predicate Lists(live: seq<LiveNode>, f: Forest)
  {
    && (forall i, j :: 0 <= i < j < |live| ==> live[i].objectId != live[j].objectId)
    && (forall e :: e in live ==> e.objectId in f && f[e.objectId] == e.node)
    && (forall x :: x in f ==> LiveNode(x, f[x]) in live)
  }

  lemma {:induction false} LiveByIdOf(live: seq<LiveNode>)
    requires forall i, j :: 0 <= i < j < |live| ==> live[i].objectId != live[j].objectId
    ensures forall e :: e in live ==> e.objectId in LiveById(live) && LiveById(live)[e.objectId] == e.node
    ensures forall x :: x in LiveById(live) ==> LiveNode(x, LiveById(live)[x]) in live
  {
    if live != [] {
      var rest := live[..|live| - 1];
      LiveByIdOf(rest);
      assert live == rest + [live[|live| - 1]];
    }
  }

  lemma ListingIsForest(live: seq<LiveNode>, f: Forest)
    requires Lists(live, f)
    ensures LiveById(live) == f
  {
    LiveByIdOf(live);
    forall x | x in f ensures x in LiveById(live) && LiveById(live)[x] == f[x] { assert LiveNode(x, f[x]) in live; }
    forall x | x in LiveById(live) ensures x in f { assert LiveNode(x, LiveById(live)[x]) in live; }
  }

  /** The checks on a point's nodes: unique ids that are not roots, parents
      among the roots and earlier nodes, URLs on bookmarks only. */
  ghost predicate ValidNodes(nodes: seq<PointNode>)
  {
    && (forall i, j :: 0 <= i < j < |nodes| ==> nodes[i].o != nodes[j].o)
    && (forall i :: 0 <= i < |nodes| ==> !IsRoot(nodes[i].o))
    && (forall i :: 0 <= i < |nodes| ==> IsRoot(nodes[i].p) || exists j :: 0 <= j < i && nodes[j].o == nodes[i].p)
    && (forall i :: 0 <= i < |nodes| ==> (nodes[i].u.Some? <==> nodes[i].k.Bookmark?))
    && (forall i :: 0 <= i < |nodes| ==> nodes[i].x != [])
  }

  // --- The plan, one node at a time ---

  datatype Phase = Restoring | Updating | Moving

  /** The operation of one phase a node of the point needs over `f`, if any. */
  function OpsFor(ph: Phase, n: PointNode, f: Forest, c: Cover): (ops: seq<Op>)
    ensures |ops| <= 1
  {
    match ph
    case Restoring =>
      if (n.o in c.covered || n.o in c.ancestors) && n.o !in f && (n.k.Bookmark? ==> IsSyncableUrl(n.u))
      then [Restore(n.o, n.k, n.t, if n.k.Bookmark? then n.u else None, n.p, n.x)] else []
    case Updating =>
      if n.o in c.covered && n.o in f && !f[n.o].managed then
        var title := if f[n.o].title != n.t then Some(n.t) else None;
        var url := if n.k.Bookmark? && f[n.o].url != n.u && IsSyncableUrl(n.u) then n.u else None;
        if title.Some? || url.Some? then [Update(n.o, n.k, title, url)] else []
      else []
    case Moving =>
      if n.o in c.covered && n.o in f && !f[n.o].managed && (f[n.o].parent != n.p || f[n.o].position != Some(n.x))
      then [Move(n.o, n.k, n.p, n.x)] else []
  }

  function Each(ph: Phase, nodes: seq<PointNode>, f: Forest, c: Cover): seq<seq<Op>>
  {
    seq(|nodes|, i requires 0 <= i < |nodes| => OpsFor(ph, nodes[i], f, c))
  }

  /** A phase: what each node needs, in the point's order. */
  function PhaseOps(ph: Phase, nodes: seq<PointNode>, f: Forest, c: Cover): seq<Op>
  {
    Concat(Each(ph, nodes, f, c))
  }

  lemma PhaseExtend(ph: Phase, nodes: seq<PointNode>, i: nat, f: Forest, c: Cover)
    requires i < |nodes|
    ensures PhaseOps(ph, nodes[..i + 1], f, c) == PhaseOps(ph, nodes[..i], f, c) + OpsFor(ph, nodes[i], f, c)
  {
    var all := Each(ph, nodes[..i + 1], f, c);
    assert all[..i] == Each(ph, nodes[..i], f, c);
  }

  /** Nodes left alone because of their URL's scheme. */
  function Skipped(nodes: seq<PointNode>, f: Forest, c: Cover): nat
  {
    if nodes == [] then 0
    else
      var n := nodes[|nodes| - 1];
      Skipped(nodes[..|nodes| - 1], f, c) +
      if n.k.Folder? || IsSyncableUrl(n.u) then 0
      else if n.o !in f then (if n.o in c.covered || n.o in c.ancestors then 1 else 0)
      else if n.o in c.covered && !f[n.o].managed && f[n.o].url != n.u then 1 else 0
  }

  ghost function CoverOf(nodes: seq<PointNode>, scope: Scope): Cover
  {
    match scope
    case All => Cover(PointIds(nodes), {})
    case Within(folder) =>
      var pf := PointForest(nodes);
      Cover({folder} + Below(PointLinks(nodes), folder).seen,
            if folder in pf then set x | x in pf.Keys && Under(pf, pf[folder].parent, x) else {})
  }

  /** The live nodes exact mode is to remove. */
  function Unwanted(nodes: seq<PointNode>, live: seq<LiveNode>, scope: Scope): set<Id>
  {
    set e | e in live && e.objectId !in PointIds(nodes) && !e.node.managed &&
            (scope.Within? ==>
              scope.folder in LiveById(live) && e.objectId in Below(LiveLinks(live), scope.folder).seen)
          :: e.objectId
  }

  /** The deletions: the unwanted nodes whose parents are not unwanted too. */
  function DeletesFrom(live: seq<LiveNode>, unwanted: set<Id>): seq<Op>
  {
    if live == [] then []
    else
      var e := live[|live| - 1];
      DeletesFrom(live[..|live| - 1], unwanted) +
      if e.objectId in unwanted && e.node.parent !in unwanted && !IsRoot(e.objectId)
      then [Delete(e.objectId, e.node.kind)] else []
  }

  predicate KnownScope(nodes: seq<PointNode>, scope: Scope)
  {
    match scope
    case All => true
    case Within(folder) => folder in PointIds(nodes) && PointForest(nodes)[folder].kind.Folder?
  }

  ghost function PlanFor(nodes: seq<PointNode>, live: seq<LiveNode>, mode: Mode, scope: Scope): RestorePlan
  {
    var f, c := LiveById(live), CoverOf(nodes, scope);
    RestorePlan(
      PhaseOps(Restoring, nodes, f, c), PhaseOps(Updating, nodes, f, c), PhaseOps(Moving, nodes, f, c),
      if mode.Exact? then DeletesFrom(live, Unwanted(nodes, live, scope)) else [],
      Skipped(nodes, f, c))
  }

  // --- Facts about valid points ---

  lemma PointLinksParentsFirst(nodes: seq<PointNode>)
    requires ValidNodes(nodes)
    ensures ParentsFirst(PointLinks(nodes))
  {
  }

  lemma {:induction false} PointForestAt(nodes: seq<PointNode>, i: nat)
    requires ValidNodes(nodes) && i < |nodes|
    ensures PointForest(nodes)[nodes[i].o] == Node(nodes[i].k, nodes[i].t, nodes[i].u, nodes[i].p, Some(nodes[i].x),
      false)
  {
    if i < |nodes| - 1 { PointForestAt(nodes[..|nodes| - 1], i); }
  }

  /** Going up in a point only meets earlier nodes. */
  lemma {:induction false} PointAncestorsEarlier(nodes: seq<PointNode>, i: nat, j: nat, n: nat)
    requires ValidNodes(nodes) && i < |nodes| && j < |nodes|
    requires UnderIn(PointForest(nodes), nodes[i].o, nodes[j].o, n)
    ensures j <= i
    decreases n
  {
    if i != j {
      PointForestAt(nodes, i);
      if !IsRoot(nodes[i].p) {
        var k :| 0 <= k < i && nodes[k].o == nodes[i].p;
        PointAncestorsEarlier(nodes, k, j, n - 1);
      }
    }
  }

  // --- The planner's loops ---

  method Ancestors(nodes: seq<PointNode>, pointById: Forest, folder: Id) returns (ancestors: set<Id>)
    requires ValidNodes(nodes) && pointById == PointForest(nodes) && folder in pointById
    ensures ancestors == CoverOf(nodes, Within(folder)).ancestors
  {
    ancestors := {};
    var parent := pointById[folder].parent;
    UnderSelf(pointById, parent);
    ghost var start := parent;
    ghost var bound := |nodes|;
    while parent in pointById
      invariant Under(pointById, start, parent)
      invariant parent in pointById ==> exists i :: 0 <= i < bound && i < |nodes| && nodes[i].o == parent
      invariant forall x :: x in ancestors <==>
        x in pointById && Under(pointById, start, x) && !Under(pointById, parent, x)
      decreases bound
    {
      ghost var i :| 0 <= i < bound && i < |nodes| && nodes[i].o == parent;
      PointForestAt(nodes, i);
      AboveStep(nodes, pointById, start, parent, ancestors);
      ancestors := ancestors + {parent};
      parent := pointById[parent].parent;
      bound := i;
    }
    assert forall x :: x in pointById ==> !Under(pointById, parent, x);
  }

  lemma AboveStep(nodes: seq<PointNode>, pf: Forest, start: Id, parent: Id, ancestors: set<Id>)
    requires ValidNodes(nodes) && pf == PointForest(nodes) && parent in pf && Under(pf, start, parent)
    requires forall x :: x in ancestors <==> x in pf && Under(pf, start, x) && !Under(pf, parent, x)
    ensures Under(pf, start, pf[parent].parent)
    ensures forall x :: x in ancestors + {parent} <==>
      x in pf && Under(pf, start, x) && !Under(pf, pf[parent].parent, x)
  {
    UnderTransitiveStep(pf, start, parent);
    forall x | x in pf
      ensures Under(pf, parent, x) <==> x == parent || Under(pf, pf[parent].parent, x)
    {
      if x == parent { UnderSelf(pf, x); }
      else if Under(pf, parent, x) { UnderParent(pf, parent, x); }
      else if Under(pf, pf[parent].parent, x) { UnderStep(pf, parent, x); }
    }
    assert !Under(pf, pf[parent].parent, parent) by {
      if Under(pf, pf[parent].parent, parent) {
        var i :| 0 <= i < |nodes| && nodes[i].o == parent;
        PointForestAt(nodes, i);
        var n: nat :| UnderIn(pf, nodes[i].p, parent, n);
        if !IsRoot(nodes[i].p) {
          var k :| 0 <= k < i && nodes[k].o == nodes[i].p;
          PointAncestorsEarlier(nodes, k, i, n);
        }
      }
    }
  }

  lemma UnderTransitiveStep(f: Forest, x: Id, d: Id)
    requires d in f && Under(f, x, d)
    ensures Under(f, x, f[d].parent)
  {
    var n: nat :| UnderIn(f, x, d, n);
    UnderInStep(f, x, d, n);
  }

  lemma {:induction false} UnderInStep(f: Forest, x: Id, d: Id, n: nat)
    requires d in f && UnderIn(f, x, d, n)
    ensures UnderIn(f, x, f[d].parent, n + 1)
    decreases n
  {
    if x == d {
      assert UnderIn(f, f[d].parent, f[d].parent, n);
    } else {
      UnderInStep(f, f[x].parent, d, n - 1);
    }
  }

  /** The nodes a restore is about and, above a folder, those it hangs on. */
  method CoverScope(nodes: seq<PointNode>, pointById: Forest, scope: Scope) returns (r: Result<Cover, PlanError>)
    requires ValidNodes(nodes) && pointById == PointForest(nodes)
    ensures r.Failure? <==> !KnownScope(nodes, scope)
    ensures r.Success? ==> r.value == CoverOf(nodes, scope)
  {
    match scope
    case All => return Success(Cover(pointById.Keys, {}));
    case Within(folder) =>
      if folder !in pointById || !pointById[folder].kind.Folder? { return Failure(UnknownRestoreScope); }
      PointLinksParentsFirst(nodes);
      var below := Descend(PointLinks(nodes), folder);
      var above := Ancestors(nodes, pointById, folder);
      return Success(Cover({folder} + below, above));
  }

  /** The live nodes the point does not hold, within the scope. */
  method FindUnwanted(nodes: seq<PointNode>, live: seq<LiveNode>, liveById: Forest, scope: Scope)
      returns (unwanted: set<Id>)
    requires ParentsFirst(LiveLinks(live)) && liveById == LiveById(live)
    ensures unwanted == Unwanted(nodes, live, scope)
  {
    unwanted := {};
    match scope
    case All =>
      for i := 0 to |live|
        invariant unwanted == set e | e in live[..i] && e.objectId !in PointIds(nodes) && !e.node.managed :: e.objectId
      {
        assert live[..i + 1] == live[..i] + [live[i]];
        if live[i].objectId !in PointIds(nodes) && !live[i].node.managed { unwanted := unwanted + {live[i].objectId}; }
      }
      assert live[..|live|] == live;
    case Within(folder) =>
      if folder in liveById {
        var below := Descend(LiveLinks(live), folder);
        for i := 0 to |live|
          invariant unwanted == set e | e in live[..i] && e.objectId in below && e.objectId !in PointIds(nodes)
            && !e.node.managed :: e.objectId
        {
          assert live[..i + 1] == live[..i] + [live[i]];
          if live[i].objectId in below && live[i].objectId !in PointIds(nodes) && !live[i].node.managed {
            unwanted := unwanted + {live[i].objectId};
          }
        }
        assert live[..|live|] == live;
      }
  }

  method IndexNodes(nodes: seq<PointNode>) returns (pointById: Forest)
    ensures pointById == PointForest(nodes)
  {
    pointById := map[];
    for i := 0 to |nodes|
      invariant pointById == PointForest(nodes[..i])
    {
      assert nodes[..i + 1][..i] == nodes[..i];
      pointById := pointById[nodes[i].o := Node(nodes[i].k, nodes[i].t, nodes[i].u, nodes[i].p, Some(nodes[i].x),
        false)];
    }
    assert nodes[..|nodes|] == nodes;
  }

  method IndexLive(live: seq<LiveNode>) returns (liveById: Forest)
    ensures liveById == LiveById(live)
  {
    liveById := map[];
    for i := 0 to |live|
      invariant liveById == LiveById(live[..i])
    {
      assert live[..i + 1][..i] == live[..i];
      liveById := liveById[live[i].objectId := live[i].node];
    }
    assert live[..|live|] == live;
  }

  method PlanNodes(nodes: seq<PointNode>, liveById: Forest, c: Cover)
    returns (restores: seq<Op>, updates: seq<Op>, moves: seq<Op>, skipped: nat)
    ensures restores == PhaseOps(Restoring, nodes, liveById, c)
    ensures updates == PhaseOps(Updating, nodes, liveById, c)
    ensures moves == PhaseOps(Moving, nodes, liveById, c)
    ensures skipped == Skipped(nodes, liveById, c)
  {
    restores, updates, moves, skipped := [], [], [], 0;
    for i := 0 to |nodes|
      invariant restores == PhaseOps(Restoring, nodes[..i], liveById, c)
      invariant updates == PhaseOps(Updating, nodes[..i], liveById, c)
      invariant moves == PhaseOps(Moving, nodes[..i], liveById, c)
      invariant skipped == Skipped(nodes[..i], liveById, c)
    {
      var n := nodes[i];
      assert nodes[..i + 1][..i] == nodes[..i];
      PhaseExtend(Restoring, nodes, i, liveById, c);
      PhaseExtend(Updating, nodes, i, liveById, c);
      PhaseExtend(Moving, nodes, i, liveById, c);
      var inScope := n.o in c.covered;
      if !inScope && n.o !in c.ancestors { continue; }

      if n.o !in liveById {
        if n.k.Bookmark? && !IsSyncableUrl(n.u) {
          skipped := skipped + 1;
          continue;
        }
        restores := restores + [Restore(n.o, n.k, n.t, if n.k.Bookmark? then n.u else None, n.p, n.x)];
        continue;
      }
      var existing := liveById[n.o];
      if !inScope || existing.managed { continue; }

      var title: Option<string> := None;
      var url: Option<Url> := None;
      if existing.title != n.t { title := Some(n.t); }
      if n.k.Bookmark? && existing.url != n.u {
        if IsSyncableUrl(n.u) { url := n.u; } else { skipped := skipped + 1; }
      }
      if title.Some? || url.Some? { updates := updates + [Update(n.o, n.k, title, url)]; }
      if existing.parent != n.p || existing.position != Some(n.x) { moves := moves + [Move(n.o, n.k, n.p, n.x)]; }
    }
    assert nodes[..|nodes|] == nodes;
  }

  method PlanDeletes(live: seq<LiveNode>, unwanted: set<Id>) returns (deletes: seq<Op>)
    ensures deletes == DeletesFrom(live, unwanted)
  {
    deletes := [];
    for i := 0 to |live|
      invariant deletes == DeletesFrom(live[..i], unwanted)
    {
      var e := live[i];
      assert live[..i + 1][..i] == live[..i];
      if e.objectId !in unwanted || e.node.parent in unwanted || IsRoot(e.objectId) { continue; }
      deletes := deletes + [Delete(e.objectId, e.node.kind)];
    }
    assert live[..|live|] == live;
  }

  /** Plans a restore of `nodes` over `live`: missing nodes are restored, edited
      ones updated, misplaced ones moved, and in exact mode the live nodes the
      point does not hold are deleted. */
  method PlanRestore(nodes: seq<PointNode>, live: seq<LiveNode>, mode: Mode, scope: Scope)
      returns (r: Result<RestorePlan, PlanError>)
    requires ValidNodes(nodes) && ParentsFirst(LiveLinks(live))
    ensures r.Failure? <==> !KnownScope(nodes, scope)
    ensures r.Success? ==> r.value == PlanFor(nodes, live, mode, scope)
  {
    var pointById := IndexNodes(nodes);
    var liveById := IndexLive(live);
    var c := CoverScope(nodes, pointById, scope);
    if c.Failure? { return Failure(c.error); }
    var restores, updates, moves, skipped := PlanNodes(nodes, liveById, c.value);
    var deletes: seq<Op> := [];
    if mode.Exact? {
      var unwanted := FindUnwanted(nodes, live, liveById, scope);
      deletes := PlanDeletes(live, unwanted);
    }
    return Success(RestorePlan(restores, updates, moves, deletes, skipped));
  }
}
