// Creating the browser node of a remote bookmark, or waiting until its parent
// folder has one.
module Materialize {
  import opened Wrappers

  type ObjectId = string
  type NodeId = int

  datatype BookmarkPayload = BookmarkPayload(title: string, url: Option<string>, parent: Option<ObjectId>)

  datatype BrowserNode = BrowserNode(parent: NodeId, title: string, url: Option<string>)

  // What a device keeps: the recorded fields of the objects it has heard of, the
  // node each object is linked to, which objects wait on which, and the browser.
  // `since[o]` tells in which order objects got their nodes.
  datatype Stores = Stores(roots: set<ObjectId>, fields: map<ObjectId, BookmarkPayload>, mapping: map<ObjectId, NodeId>,
                           deferred: map<ObjectId, ObjectId>, browser: map<NodeId, BrowserNode>, nextNode: NodeId,
                             since: map<ObjectId, nat>)

  // Whether a URL may be created locally is the browser wrapper's affair.
  type Syncable = string -> bool

  predicate Creatable(p: BookmarkPayload, syncable: Syncable)
  {
    p.url.Some? ==> syncable(p.url.value)
  }

  // --- What holds between deliveries ---

  /** A linked object has its node under its parent's node, with its title and
      URL. */
  ghost predicate Linked(s: Stores, o: ObjectId, syncable: Syncable)
  {
    && o in s.fields && o in s.mapping && o in s.since
    && Creatable(s.fields[o], syncable)
    && s.fields[o].parent.Some?
    && var p := s.fields[o].parent.value;
    && p in s.mapping && p in s.since && s.since[p] < s.since[o]
    && s.mapping[o] in s.browser
    && s.browser[s.mapping[o]] == BrowserNode(s.mapping[p], s.fields[o].title, s.fields[o].url)
  }

  ghost predicate MappingOk(s: Stores, syncable: Syncable)
  {
    && (forall o :: o in s.roots ==> o in s.mapping && o in s.since && o !in s.fields)
    && (forall o :: o in s.mapping && o !in s.roots ==> Linked(s, o, syncable))
    && (forall a, b :: a in s.mapping && b in s.mapping && s.mapping[a] == s.mapping[b] ==> a == b)
    && (forall o :: o in s.mapping ==> s.mapping[o] < s.nextNode)
    && (forall n :: n in s.browser ==> n < s.nextNode)
  }

  /** `p` has no node, or has just got it and those waiting on it are still to be
      retried. */
  predicate Unavailable(s: Stores, p: ObjectId, opening: Option<ObjectId>)
  {
    p !in s.mapping || opening == Some(p)
  }

  /** Those deferred wait on their parent, which is unavailable. */
  ghost predicate DeferredOk(s: Stores, opening: Option<ObjectId>)
  {
    forall o :: o in s.deferred ==>
      o in s.fields && o !in s.mapping && s.fields[o].parent == Some(s.deferred[o])
        && Unavailable(s, s.deferred[o], opening)
  }

  /** An object without a node waits on its parent, or cannot be created. */
  ghost predicate Accounted(s: Stores, o: ObjectId, opening: Option<ObjectId>, syncable: Syncable)
  {
    o in s.fields && o !in s.mapping && s.fields[o].parent.Some? ==>
      if Unavailable(s, s.fields[o].parent.value, opening) then o in s.deferred else !Creatable(s.fields[o], syncable)
  }

  /** `except`: objects whose turn is still to come. */
  ghost predicate Sound(s: Stores, except: set<ObjectId>, opening: Option<ObjectId>, syncable: Syncable)
  {
    && MappingOk(s, syncable)
    && DeferredOk(s, opening)
    && (forall o :: o !in except ==> Accounted(s, o, opening, syncable))
  }

  // --- Steps ---

  function Link(s: Stores, o: ObjectId, node: NodeId): Stores
  {
    var p := if o in s.fields then s.fields[o].parent else None;
    var after := if p.Some? && p.value in s.since then s.since[p.value] + 1 else 0;
    s.(mapping := s.mapping[o := node], deferred := s.deferred - {o}, since := s.since[o := after])
  }

  /** The browser makes a node. */
  function Made(s: Stores, node: BrowserNode): Stores
  {
    s.(browser := s.browser[s.nextNode := node], nextNode := s.nextNode + 1)
  }

  lemma LinkKeepsMapping(s: Stores, o: ObjectId, node: NodeId, syncable: Syncable)
    requires MappingOk(s, syncable) && o in s.fields && o !in s.mapping && Creatable(s.fields[o], syncable)
    requires s.fields[o].parent.Some? && s.fields[o].parent.value in s.mapping && s.fields[o].parent.value in s.since
    requires node in s.browser
    requires s.browser[node] == BrowserNode(s.mapping[s.fields[o].parent.value], s.fields[o].title, s.fields[o].url)
    requires node !in s.mapping.Values
    ensures MappingOk(Link(s, o, node), syncable)
  {
    var t := Link(s, o, node);
    assert s.fields[o].parent.value != o;
    forall x | x in t.mapping && x !in t.roots ensures Linked(t, x, syncable) {
      if x != o { assert Linked(s, x, syncable); }
    }
    forall a | a in s.mapping ensures s.mapping[a] != node { assert s.mapping[a] in s.mapping.Values; }
  }

  /** Once an object is linked, only those waiting on it need a retry. */
  lemma LinkKeepsSound(s: Stores, o: ObjectId, node: NodeId, except: set<ObjectId>, syncable: Syncable)
    requires Sound(s, except + {o}, None, syncable) && o in s.fields && o !in s.mapping
    requires Creatable(s.fields[o], syncable)
    requires s.fields[o].parent.Some? && s.fields[o].parent.value in s.mapping
    requires node in s.browser
    requires s.browser[node] == BrowserNode(s.mapping[s.fields[o].parent.value], s.fields[o].title, s.fields[o].url)
    requires node !in s.mapping.Values
    ensures Sound(Link(s, o, node), except, Some(o), syncable)
  {
    var p := s.fields[o].parent.value;
    assert p in s.since by { if p !in s.roots { assert Linked(s, p, syncable); } }
    hide Linked, MappingOk, Creatable;
    LinkKeepsMapping(s, o, node, syncable);
    var t := Link(s, o, node);
    forall x | x !in except ensures Accounted(t, x, Some(o), syncable) {
      if x != o { assert Accounted(s, x, None, syncable); }
    }
  }

  /** A node that no object is linked to yet. */
  lemma NodeKeepsSound(s: Stores, node: BrowserNode, except: set<ObjectId>, syncable: Syncable)
    requires Sound(s, except, None, syncable)
    ensures Sound(Made(s, node), except, None, syncable) && Grown(s, Made(s, node))
    ensures s.nextNode !in s.mapping.Values
  {
    var t := Made(s, node);
    forall x | x in t.mapping && x !in t.roots ensures Linked(t, x, syncable) { assert Linked(s, x, syncable); }
    hide Linked;
    forall x | x !in except ensures Accounted(t, x, None, syncable) { assert Accounted(s, x, None, syncable); }
  }

  /** Those waiting on the folder that has just got its node. */
  function WaitingOn(s: Stores, p: ObjectId): set<ObjectId>
  {
    set o | o in s.deferred && s.deferred[o] == p
  }

  lemma TakeWaiting(s: Stores, p: ObjectId, except: set<ObjectId>, syncable: Syncable)
    requires Sound(s, except, Some(p), syncable)
    ensures Sound(s.(deferred := s.deferred - WaitingOn(s, p)), except + WaitingOn(s, p), None, syncable)
  {
    var t := s.(deferred := s.deferred - WaitingOn(s, p));
    forall x | x in t.mapping && x !in t.roots ensures Linked(t, x, syncable) { assert Linked(s, x, syncable); }
    forall x | x !in except + WaitingOn(s, p) ensures Accounted(t, x, None, syncable) {
      assert Accounted(s, x, Some(p), syncable);
    }
  }

  lemma DeferKeepsSound(s: Stores, o: ObjectId, p: ObjectId, except: set<ObjectId>, syncable: Syncable)
    requires Sound(s, except + {o}, None, syncable) && o in s.fields && o !in s.mapping && s.fields[o].parent == Some(p)
    requires p !in s.mapping
    ensures Sound(s.(deferred := s.deferred[o := p]), except, None, syncable)
  {
    var t := s.(deferred := s.deferred[o := p]);
    forall x | x in t.mapping && x !in t.roots ensures Linked(t, x, syncable) { assert Linked(s, x, syncable); }
    forall x | x !in except
      ensures Accounted(t, x, None, syncable) { if x != o { assert Accounted(s, x, None, syncable); } }
  }

  lemma DoneKeepsSound(s: Stores, o: ObjectId, except: set<ObjectId>, syncable: Syncable)
    requires Sound(s, except + {o}, None, syncable) && Accounted(s, o, None, syncable)
    ensures Sound(s, except, None, syncable)
  {
  }

  // --- The two procedures ---

  ghost predicate Grown(s: Stores, t: Stores)
  {
    && t.roots == s.roots && t.fields == s.fields && s.mapping.Keys <= t.mapping.Keys
    && (forall o :: o in s.mapping ==> t.mapping[o] == s.mapping[o])
    && (forall n :: n in s.browser ==> n in t.browser && t.browser[n] == s.browser[n])
  }

  ghost function Unmapped(s: Stores): set<ObjectId>
  {
    s.fields.Keys - s.mapping.Keys
  }

  lemma LinkGrows(s: Stores, o: ObjectId, node: NodeId)
    requires o in s.fields && o !in s.mapping
    ensures Grown(s, Link(s, o, node)) && Unmapped(Link(s, o, node)) < Unmapped(s)
  {
    assert o in Unmapped(s) && o !in Unmapped(Link(s, o, node));
  }

  class Bookmarks {
    var stores: Stores
    // On the first download: a node already there that matches is taken over
    // rather than made a second time.
    var linkExistingBookmarks: bool

    constructor (roots: map<ObjectId, NodeId>, browser: map<NodeId, BrowserNode>, nextNode: NodeId, linkExisting: bool)
      requires forall a, b :: a in roots && b in roots && roots[a] == roots[b] ==> a == b
      requires (forall o :: o in roots ==> roots[o] < nextNode) && forall n :: n in browser ==> n < nextNode
      ensures forall syncable: Syncable :: Sound(stores, {}, None, syncable)
      ensures stores.roots == roots.Keys && stores.mapping == roots && stores.fields == map[]
      ensures stores.browser == browser
    {
      stores := Stores(roots.Keys, map[], roots, map[], browser, nextNode, map o | o in roots :: 0);
      linkExistingBookmarks := linkExisting;
    }

    /** A node with this title and URL under this parent that no object is linked
        to yet. */
    method FindUnlinkedMatch(parentNode: NodeId, p: BookmarkPayload) returns (r: Option<NodeId>)
      ensures r.Some? ==>
        r.value in stores.browser && stores.browser[r.value] == BrowserNode(parentNode, p.title, p.url)
        && r.value !in stores.mapping.Values
      ensures r.None? ==>
        forall n :: n in stores.browser && stores.browser[n] == BrowserNode(parentNode, p.title, p.url) ==>
        n in stores.mapping.Values
    {
      if n :|
           && n in stores.browser && n !in stores.mapping.Values
           && stores.browser[n] == BrowserNode(parentNode, p.title, p.url)
      {
        r := Some(n);
      } else {
        r := None;
      }
    }

    /** Gives an object its node under its parent's and retries what waited on it,
        or leaves it waiting on its parent. */
    method Materialize(o: ObjectId, syncable: Syncable, ghost except: set<ObjectId>)
      requires o in stores.fields && o !in stores.roots && Sound(stores, except + {o}, None, syncable)
      modifies this`stores
      ensures Sound(stores, except, None, syncable) && Grown(old(stores), stores)
      decreases Unmapped(stores), 0
    {
      hide Sound, MappingOk, DeferredOk, Accounted, Linked;
      ghost var before := stores;
      var p := stores.fields[o];
      if o in stores.mapping {
        Finished(stores, o, except, syncable);
        stores := stores.(deferred := stores.deferred - {o});
        return;
      }
      if p.parent.None? || p.parent.value !in stores.mapping {
        if p.parent.Some? {
          DeferKeepsSound(stores, o, p.parent.value, except, syncable);
          stores := stores.(deferred := stores.deferred[o := p.parent.value]);
        } else {
          Parentless(stores, o, except, syncable);
        }
        return;
      }
      if p.url.Some? && !syncable(p.url.value) {
        NotCreatable(stores, o, except, syncable);
        return;
      }
      if linkExistingBookmarks {
        var linked := FindUnlinkedMatch(stores.mapping[p.parent.value], p);
        if linked.Some? {
          LinkKeepsSound(stores, o, linked.value, except, syncable);
          LinkGrows(stores, o, linked.value);
          stores := Link(stores, o, linked.value);
          RetryDeferredParent(o, syncable, except);
          return;
        }
      }
      var node, created := BrowserNode(stores.mapping[p.parent.value], p.title, p.url), stores.nextNode;
      NodeKeepsSound(stores, node, except + {o}, syncable);
      stores := Made(stores, node);
      LinkKeepsSound(stores, o, created, except, syncable);
      LinkGrows(stores, o, created);
      stores := Link(stores, o, created);
      RetryDeferredParent(o, syncable, except);
    }

    /** Retries everything that waited on a folder. */
    method RetryDeferredParent(p: ObjectId, syncable: Syncable, ghost except: set<ObjectId>)
      requires p in stores.mapping && Sound(stores, except, Some(p), syncable)
      modifies this`stores
      ensures Sound(stores, except, None, syncable) && Grown(old(stores), stores)
      decreases Unmapped(stores), 1
    {
      hide Sound, MappingOk, DeferredOk, Accounted, Linked;
      var deferred := WaitingOn(stores, p);
      WaitingAre(stores, p, except, syncable);
      TakeWaiting(stores, p, except, syncable);
      stores := stores.(deferred := stores.deferred - deferred);
      var left := deferred;
      while left != {}
        invariant Sound(stores, except + left, None, syncable) && Grown(old(stores), stores)
        invariant forall o :: o in left ==> o in stores.fields && o !in stores.roots
        decreases left
      {
        var o :| o in left;
        assert except + left == except + (left - {o}) + {o};
        left := left - {o};
        assert Unmapped(stores) <= Unmapped(old(stores));
        Materialize(o, syncable, except + left);
      }
      assert except + left == except;
    }

    /** A create arrives. One that was resolved before changes nothing. */
    method Deliver(o: ObjectId, p: BookmarkPayload, syncable: Syncable)
      requires o !in stores.roots && Sound(stores, {}, None, syncable)
      modifies this`stores
      ensures Sound(stores, {}, None, syncable)
      ensures stores.fields == if o in old(stores.fields) then old(stores.fields) else old(stores.fields)[o := p]
      ensures stores.roots == old(stores.roots) && old(stores.mapping.Keys) <= stores.mapping.Keys
      ensures forall n :: n in old(stores.browser) ==>
        n in stores.browser && stores.browser[n] == old(stores.browser)[n]
    {
      if o in stores.fields { return; }
      Resolved(stores, o, p, syncable);
      stores := stores.(fields := stores.fields[o := p]);
      assert {} + {o} == {o};
      Materialize(o, syncable, {});
    }
  }

  lemma Finished(s: Stores, o: ObjectId, except: set<ObjectId>, syncable: Syncable)
    requires Sound(s, except + {o}, None, syncable) && o in s.mapping
    ensures Sound(s.(deferred := s.deferred - {o}), except, None, syncable)
  {
    assert o !in s.deferred;
    assert s.deferred - {o} == s.deferred;
    DoneKeepsSound(s, o, except, syncable);
  }

  lemma Parentless(s: Stores, o: ObjectId, except: set<ObjectId>, syncable: Syncable)
    requires Sound(s, except + {o}, None, syncable) && o in s.fields && s.fields[o].parent.None?
    ensures Sound(s, except, None, syncable)
  {
    DoneKeepsSound(s, o, except, syncable);
  }

  lemma NotCreatable(s: Stores, o: ObjectId, except: set<ObjectId>, syncable: Syncable)
    requires Sound(s, except + {o}, None, syncable) && o in s.fields && !Creatable(s.fields[o], syncable)
    requires s.fields[o].parent.Some? && s.fields[o].parent.value in s.mapping
    ensures Sound(s, except, None, syncable)
  {
    DoneKeepsSound(s, o, except, syncable);
  }

  lemma WaitingAre(s: Stores, p: ObjectId, except: set<ObjectId>, syncable: Syncable)
    requires Sound(s, except, Some(p), syncable)
    ensures forall o :: o in WaitingOn(s, p) ==> o in s.fields && o !in s.roots
  {
  }

  lemma Resolved(s: Stores, o: ObjectId, p: BookmarkPayload, syncable: Syncable)
    requires Sound(s, {}, None, syncable) && o !in s.roots && o !in s.fields
    ensures Sound(s.(fields := s.fields[o := p]), {o}, None, syncable)
  {
    var t := s.(fields := s.fields[o := p]);
    forall x | x in t.mapping && x !in t.roots ensures Linked(t, x, syncable) { assert Linked(s, x, syncable); }
    forall x | x !in {o} ensures Accounted(t, x, None, syncable) { assert Accounted(s, x, None, syncable); }
  }

  // --- What it comes to ---

  /** An object delivered, with a parent and a URL that may be created, has no node
      exactly when it waits on its parent, and then its parent has none. */
  lemma WaitsExactlyWhenItMust(s: Stores, o: ObjectId, syncable: Syncable)
    requires Sound(s, {}, None, syncable) && o in s.fields && s.fields[o].parent.Some?
    requires Creatable(s.fields[o], syncable)
    ensures o !in s.mapping <==> o in s.deferred
    ensures o !in s.mapping <==> s.fields[o].parent.value !in s.mapping
    ensures o in s.deferred ==> s.deferred[o] == s.fields[o].parent.value
  {
    assert Accounted(s, o, None, syncable);
    if o in s.mapping && o !in s.roots { assert Linked(s, o, syncable); }
  }

  /** `o` was delivered, and so was every folder from it up to a root, `n` steps
      away, none with a URL that may not be created. */
  ghost predicate ReachesRoot(s: Stores, o: ObjectId, n: nat, syncable: Syncable)
    decreases n
  {
    o in s.roots ||
    (n > 0 && o in s.fields && Creatable(s.fields[o], syncable) && s.fields[o].parent.Some?
      && ReachesRoot(s, s.fields[o].parent.value, n - 1, syncable))
  }

  ghost predicate Reaches(s: Stores, o: ObjectId, syncable: Syncable)
  {
    exists n: nat :: ReachesRoot(s, o, n, syncable)
  }

  lemma {:induction false} ReachingIsLinked(s: Stores, o: ObjectId, n: nat, syncable: Syncable)
    requires Sound(s, {}, None, syncable) && ReachesRoot(s, o, n, syncable)
    ensures o in s.mapping
    decreases n
  {
    if o !in s.roots {
      ReachingIsLinked(s, s.fields[o].parent.value, n - 1, syncable);
      WaitsExactlyWhenItMust(s, o, syncable);
    }
  }

  lemma {:induction false} LinkedReaches(s: Stores, o: ObjectId, syncable: Syncable)
    requires Sound(s, {}, None, syncable) && o in s.mapping
    ensures o in s.since && ReachesRoot(s, o, s.since[o], syncable)
    decreases if o in s.since then s.since[o] else 0
  {
    if o !in s.roots {
      assert Linked(s, o, syncable);
      var p := s.fields[o].parent.value;
      LinkedReaches(s, p, syncable);
      ReachesLater(s, p, s.since[p], s.since[o] - 1, syncable);
    }
  }

  lemma {:induction false} ReachesLater(s: Stores, o: ObjectId, n: nat, m: nat, syncable: Syncable)
    requires ReachesRoot(s, o, n, syncable) && n <= m
    ensures ReachesRoot(s, o, m, syncable)
    decreases n
  {
    if o !in s.roots { ReachesLater(s, s.fields[o].parent.value, n - 1, m - 1, syncable); }
  }

  /** Whatever the order of delivery, the objects with nodes are those whose
      ancestors reach a root, each with its node under its parent's. */
  lemma NodesAreThoseReachingARoot(s: Stores, o: ObjectId, syncable: Syncable)
    requires Sound(s, {}, None, syncable)
    ensures o in s.mapping <==> Reaches(s, o, syncable)
    ensures o in s.mapping && o !in s.roots ==>
      && s.fields[o].parent.value in s.mapping && s.mapping[o] in s.browser
      && s.browser[s.mapping[o]] == BrowserNode(s.mapping[s.fields[o].parent.value], s.fields[o].title, s.fields[o].url)
  {
    if o in s.mapping {
      LinkedReaches(s, o, syncable);
      if o !in s.roots { assert Linked(s, o, syncable); }
    }
    if Reaches(s, o, syncable) {
      var n: nat :| ReachesRoot(s, o, n, syncable);
      ReachingIsLinked(s, o, n, syncable);
    }
  }

  /** So two orders of delivering the same creates give nodes to the same objects. */
  lemma DeliveryOrderIrrelevant(s: Stores, t: Stores, syncable: Syncable)
    requires Sound(s, {}, None, syncable) && Sound(t, {}, None, syncable) && s.roots == t.roots && s.fields == t.fields
    ensures s.mapping.Keys == t.mapping.Keys && s.deferred == t.deferred
  {
    forall o ensures o in s.mapping <==> o in t.mapping {
      NodesAreThoseReachingARoot(s, o, syncable);
      NodesAreThoseReachingARoot(t, o, syncable);
      SameReach(s, t, o, syncable);
    }
    forall o ensures o in s.deferred <==> o in t.deferred {
      assert Accounted(s, o, None, syncable) && Accounted(t, o, None, syncable);
    }
  }

  lemma SameReach(s: Stores, t: Stores, o: ObjectId, syncable: Syncable)
    requires s.roots == t.roots && s.fields == t.fields
    ensures Reaches(s, o, syncable) <==> Reaches(t, o, syncable)
  {
    if Reaches(s, o, syncable) {
      var n: nat :| ReachesRoot(s, o, n, syncable);
      SameReachIn(s, t, o, n, syncable);
    }
    if Reaches(t, o, syncable) {
      var n: nat :| ReachesRoot(t, o, n, syncable);
      SameReachIn(s, t, o, n, syncable);
    }
  }

  lemma {:induction false} SameReachIn(s: Stores, t: Stores, o: ObjectId, n: nat, syncable: Syncable)
    requires s.roots == t.roots && s.fields == t.fields
    ensures ReachesRoot(s, o, n, syncable) == ReachesRoot(t, o, n, syncable)
    decreases n
  {
    if n > 0 && o in s.fields && s.fields[o].parent.Some? {
      SameReachIn(s, t, s.fields[o].parent.value, n - 1, syncable);
    }
  }
}
