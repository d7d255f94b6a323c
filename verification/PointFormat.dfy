// The checks a restore point passes before it is ever applied.
module PointFormat {
  import opened Wrappers
  import opened Keys
  import opened BookmarkForest
  import opened Planner

  const POINT_VERSION := 1

  datatype PointKind = Manual | Scheduled | PreRestore | PreImport | PreResync | MassDelete

  // What a decrypted point holds, before it is checked. None: not there, or of another
  // type, and for ids not a UUID.
  datatype RawUrl = NoUrl | OddUrl | UrlText(url: Url)

  datatype RawNode =
    | OddNode
    | RawNode(o: Option<Id>, k: Option<Kind>, t: Option<string>, u: RawUrl, p: Option<Id>, x: Option<Key>)

  datatype RawPoint =
    | OddPoint
    | RawPoint(version: Option<int>, createdAt: Option<int>, deviceId: Option<string>, kind: Option<PointKind>,
      nodes: Option<seq<RawNode>>)

  datatype PointPlaintext = PointPlaintext(createdAt: int, deviceId: string, kind: PointKind, nodes: seq<PointNode>)

  datatype PointError =
    | UnsupportedVersion(version: int)
    | NotAnObject | MissingVersion | BadDate | BadDevice | BadKind | NoNodes
    | BadNode | BadNodeId | DuplicateOrRoot | BadNodeKind | BadTitle | BadPosition | BadParent
    | BookmarkWithoutUrl | FolderWithUrl

  /** Every field of the node is there, and of its type. */
  predicate Complete(n: RawNode)
  {
    n.RawNode? && n.o.Some? && n.k.Some? && n.t.Some? && n.p.Some? && n.x.Some? && !n.u.OddUrl?
  }

  function NodeFrom(n: RawNode): PointNode
    requires Complete(n)
  {
    PointNode(n.o.value, n.k.value, n.t.value, if n.u.UrlText? then Some(n.u.url) else None, n.p.value, n.x.value)
  }

  predicate AllComplete(raw: seq<RawNode>)
  {
    forall i :: 0 <= i < |raw| ==> Complete(raw[i])
  }

  function NodesFrom(raw: seq<RawNode>): seq<PointNode>
    requires AllComplete(raw)
  {
    seq(|raw|, i requires 0 <= i < |raw| => NodeFrom(raw[i]))
  }

  /** The head of the point is there. */
  predicate HasHead(point: RawPoint)
  {
    && point.RawPoint? && point.version == Some(POINT_VERSION)
    && point.createdAt.Some? && point.deviceId.Some? && point.kind.Some? && point.nodes.Some?
  }

  method ValidatePoint(point: RawPoint) returns (r: Result<PointPlaintext, PointError>)
    ensures r.Success? <==> HasHead(point) && AllComplete(point.nodes.value) && ValidNodes(NodesFrom(point.nodes.value))
    ensures r.Success? ==>
      r.value == PointPlaintext(point.createdAt.value, point.deviceId.value, point.kind.value,
        NodesFrom(point.nodes.value))
    ensures forall v :: r == Failure(UnsupportedVersion(v)) <==>
      point.RawPoint? && point.version == Some(v) && v != POINT_VERSION
  {
    if point.OddPoint? { return Failure(NotAnObject); }
    if point.version.Some? && point.version.value != POINT_VERSION {
      return Failure(UnsupportedVersion(point.version.value));
    }
    if point.version.None? { return Failure(MissingVersion); }
    if point.createdAt.None? { return Failure(BadDate); }
    if point.deviceId.None? { return Failure(BadDevice); }
    if point.kind.None? { return Failure(BadKind); }
    if point.nodes.None? { return Failure(NoNodes); }
    var checked := ValidateNodes(point.nodes.value);
    if checked.Failure? { return Failure(checked.error); }
    return Success(PointPlaintext(point.createdAt.value, point.deviceId.value, point.kind.value, checked.value));
  }

  /** The node passes on its own and after the ones seen. */
  predicate Good(n: RawNode, seen: set<Id>)
  {
    && Complete(n) && !IsRoot(n.o.value) && n.o.value !in seen && n.x.value != []
    && (IsRoot(n.p.value) || n.p.value in seen)
    && (n.u.UrlText? <==> n.k.value.Bookmark?)
  }

  method CheckNode(n: RawNode, seen: set<Id>) returns (fault: Option<PointError>)
    ensures fault.None? <==> Good(n, seen)
    ensures fault.Some? ==> !fault.value.UnsupportedVersion?
  {
    if n.OddNode? { return Some(BadNode); }
    if n.o.None? { return Some(BadNodeId); }
    if IsRoot(n.o.value) || n.o.value in seen { return Some(DuplicateOrRoot); }
    if n.k.None? { return Some(BadNodeKind); }
    if n.t.None? { return Some(BadTitle); }
    if n.x.None? || n.x.value == [] { return Some(BadPosition); }
    if n.p.None? || (!IsRoot(n.p.value) && n.p.value !in seen) { return Some(BadParent); }
    if n.k.value.Bookmark? {
      if !n.u.UrlText? { return Some(BookmarkWithoutUrl); }
    } else if !n.u.NoUrl? {
      return Some(FolderWithUrl);
    }
    return None;
  }

  method ValidateNodes(raw: seq<RawNode>) returns (r: Result<seq<PointNode>, PointError>)
    ensures r.Success? <==> AllComplete(raw) && ValidNodes(NodesFrom(raw))
    ensures r.Success? ==> r.value == NodesFrom(raw)
    ensures r.Failure? ==> !r.error.UnsupportedVersion?
  {
    var seen: set<Id> := {};
    var nodes: seq<PointNode> := [];
    assert ValidNodes(nodes) && NodesFrom(raw[..0]) == [];
    hide ValidNodes, PointIds;
    for i := 0 to |raw|
      invariant AllComplete(raw[..i]) && nodes == NodesFrom(raw[..i]) && ValidNodes(nodes) && seen == PointIds(nodes)
    {
      var fault := CheckNode(raw[i], seen);
      if fault.Some? {
        if AllComplete(raw) { BadAt(raw, i, nodes); }
        return Failure(fault.value);
      }
      GoodAt(raw, i, nodes);
      nodes := nodes + [NodeFrom(raw[i])];
      seen := seen + {raw[i].o.value};
    }
    assert raw[..|raw|] == raw;
    return Success(nodes);
  }

  lemma BadAt(raw: seq<RawNode>, i: nat, before: seq<PointNode>)
    requires i < |raw| && AllComplete(raw) && before == NodesFrom(raw[..i]) && !Good(raw[i], PointIds(before))
    ensures !ValidNodes(NodesFrom(raw))
  {
    var nodes, n := NodesFrom(raw), NodeFrom(raw[i]);
    assert nodes[..i] == before && nodes[i] == n;
    if IsRoot(n.o) || n.o in PointIds(before) || (!IsRoot(n.p) && n.p !in PointIds(before)) { Refused(nodes, i); }
  }

  lemma GoodAt(raw: seq<RawNode>, i: nat, before: seq<PointNode>)
    requires i < |raw| && AllComplete(raw[..i]) && before == NodesFrom(raw[..i]) && ValidNodes(before)
    requires Good(raw[i], PointIds(before))
    ensures AllComplete(raw[..i + 1]) && NodesFrom(raw[..i + 1]) == before + [NodeFrom(raw[i])]
    ensures ValidNodes(before + [NodeFrom(raw[i])])
    ensures PointIds(before + [NodeFrom(raw[i])]) == PointIds(before) + {raw[i].o.value}
  {
    var nodes := before + [NodeFrom(raw[i])];
    assert raw[..i + 1] == raw[..i] + [raw[i]];
    assert nodes[..i] == before && nodes[..i + 1] == nodes;
    hide ValidNodes, PointIds;
    Accepted(nodes, i);
  }

  lemma Refused(nodes: seq<PointNode>, i: nat)
    requires i < |nodes|
    requires IsRoot(nodes[i].o) || nodes[i].o in PointIds(nodes[..i])
      || (!IsRoot(nodes[i].p) && nodes[i].p !in PointIds(nodes[..i]))
    ensures !ValidNodes(nodes)
  {
    if nodes[i].o in PointIds(nodes[..i]) {
      var n :| n in nodes[..i] && n.o == nodes[i].o;
      var j :| 0 <= j < i && nodes[j] == n;
    } else if ValidNodes(nodes) && !IsRoot(nodes[i].p) {
      forall j | 0 <= j < i ensures nodes[j].o != nodes[i].p { assert nodes[j] in nodes[..i]; }
    }
  }

  lemma Accepted(nodes: seq<PointNode>, i: nat)
    requires i < |nodes| && ValidNodes(nodes[..i])
    requires !IsRoot(nodes[i].o) && nodes[i].o !in PointIds(nodes[..i]) && nodes[i].x != []
    requires IsRoot(nodes[i].p) || nodes[i].p in PointIds(nodes[..i])
    requires nodes[i].u.Some? <==> nodes[i].k.Bookmark?
    ensures ValidNodes(nodes[..i + 1]) && PointIds(nodes[..i + 1]) == PointIds(nodes[..i]) + {nodes[i].o}
  {
    var before, all := nodes[..i], nodes[..i + 1];
    assert all == before + [nodes[i]];
    forall j | 0 <= j < i ensures before[j].o != nodes[i].o { assert before[j] in before; }
    forall j | 0 <= j <= i ensures IsRoot(all[j].p) || exists k :: 0 <= k < j && all[k].o == all[j].p {
      if j < i {
        if !IsRoot(before[j].p) { var k :| 0 <= k < j && before[k].o == before[j].p; assert all[k].o == all[j].p; }
      } else if !IsRoot(nodes[i].p) {
        var n :| n in before && n.o == nodes[i].p;
        var k :| 0 <= k < i && before[k] == n;
        assert all[k].o == all[j].p;
      }
    }
  }
}
