// The browser's bookmarks as a forest, and what one planned operation does to it.
module BookmarkForest {
  import opened Wrappers
  import opened Keys

  // Object ids are UUIDs read as numbers. The built-in roots have the four
  // smallest; they always exist and are never entries of the forest.
  type Id = nat

  const ROOT_ORDER: seq<Id> := [0, 1, 2, 3]

  predicate IsRoot(id: Id) { id < 4 }

  datatype Scheme = Http | Https | OtherScheme

  // A URL as far as the scheme check looks at it.
  datatype Url = Url(scheme: Scheme, rest: string)

  predicate IsSyncableUrl(url: Option<Url>)
  {
    url.Some? && (url.value.scheme.Http? || url.value.scheme.Https?)
  }

  datatype Kind = Bookmark | Folder

  // `managed`: set by browser policy, so never edited, moved or removed.
  datatype Node = Node(kind: Kind, title: string, url: Option<Url>, parent: Id, position: Option<Key>, managed: bool)

  type Forest = map<Id, Node>

  datatype Op =
    | Restore(id: Id, kind: Kind, title: string, url: Option<Url>, parent: Id, position: Key)
    | Update(id: Id, kind: Kind, newTitle: Option<string>, newUrl: Option<Url>)
    | Move(id: Id, kind: Kind, parent: Id, position: Key)
    | Delete(id: Id, kind: Kind)

  /** `x` is `d`, or `d` is at most `n` parents above it. */
  ghost predicate UnderIn(f: Forest, x: Id, d: Id, n: nat)
    decreases n
  {
    x == d || (n > 0 && x in f && UnderIn(f, f[x].parent, d, n - 1))
  }

  ghost predicate Under(f: Forest, x: Id, d: Id)
  {
    exists n: nat :: UnderIn(f, x, d, n)
  }

  /** Following parents from `x` reaches a root within `n` steps. */
  ghost predicate GroundedIn(f: Forest, x: Id, n: nat)
    decreases n
  {
    IsRoot(x) || (n > 0 && x in f && GroundedIn(f, f[x].parent, n - 1))
  }

  ghost predicate Grounded(f: Forest, x: Id)
  {
    exists n: nat :: GroundedIn(f, x, n)
  }

  ghost predicate ValidParent(f: Forest, p: Id)
  {
    IsRoot(p) || (p in f && f[p].kind.Folder?)
  }

  /** A bookmark tree as browsers keep it: acyclic, every parent a root or a
      folder, and a policy's nodes hanging off a root in a subtree of their own. */
  ghost predicate WellFormed(f: Forest)
  {
    forall x :: x in f ==>
      && !IsRoot(x)
      && Grounded(f, x)
      && ValidParent(f, f[x].parent)
      && (f[x].parent in f ==> f[f[x].parent].managed == f[x].managed)
      && (f[x].url.Some? <==> f[x].kind.Bookmark?)
  }

  /** What the browser accepts. */
  ghost predicate CanApply(f: Forest, op: Op)
  {
    match op
    case Restore(id, _, _, _, parent, _) => id !in f && !IsRoot(id) && ValidParent(f, parent)
    case Update(id, _, _, _) => id in f && !f[id].managed
    case Move(id, _, parent, _) => id in f && !f[id].managed && ValidParent(f, parent) && !Under(f, parent, id)
    case Delete(id, _) => id in f && forall x :: x in f && Under(f, x, id) ==> !f[x].managed
  }

  ghost function Apply(f: Forest, op: Op): Forest
    requires CanApply(f, op)
  {
    match op
    case Restore(id, kind, title, url, parent, position) =>
      f[id := Node(kind, title, url, parent, Some(position), false)]
    case Update(id, _, newTitle, newUrl) =>
      f[id := f[id].(title := if newTitle.Some? then newTitle.value else f[id].title,
                     url := if newUrl.Some? then newUrl else f[id].url)]
    case Move(id, _, parent, position) =>
      f[id := f[id].(parent := parent, position := Some(position))]
    case Delete(id, _) =>
      map x | x in f && !Under(f, x, id) :: f[x]
  }

  ghost predicate CanApplyAll(f: Forest, ops: seq<Op>)
    decreases |ops|
  {
    ops != [] ==> CanApply(f, ops[0]) && CanApplyAll(Apply(f, ops[0]), ops[1..])
  }

  ghost function ApplyAll(f: Forest, ops: seq<Op>): Forest
    requires CanApplyAll(f, ops)
    decreases |ops|
  {
    if ops == [] then f else ApplyAll(Apply(f, ops[0]), ops[1..])
  }

  lemma {:induction false} ApplySplit(f: Forest, ops: seq<Op>, k: nat)
    requires CanApplyAll(f, ops) && k <= |ops|
    ensures CanApplyAll(f, ops[..k])
    ensures CanApplyAll(ApplyAll(f, ops[..k]), ops[k..])
    ensures ApplyAll(ApplyAll(f, ops[..k]), ops[k..]) == ApplyAll(f, ops)
    decreases k
  {
    if k > 0 {
      assert ops[..k][1..] == ops[1..][..k - 1] && ops[k..] == ops[1..][k - 1..];
      ApplySplit(Apply(f, ops[0]), ops[1..], k - 1);
    } else {
      assert ops[k..] == ops;
    }
  }

  // --- Following parents ---

  lemma UnderStep(f: Forest, x: Id, d: Id)
    requires x in f && Under(f, f[x].parent, d)
    ensures Under(f, x, d)
  {
    var n: nat :| UnderIn(f, f[x].parent, d, n);
    assert UnderIn(f, x, d, n + 1);
  }

  lemma UnderParent(f: Forest, x: Id, d: Id)
    requires x in f && x != d && Under(f, x, d)
    ensures Under(f, f[x].parent, d)
  {
    var n: nat :| UnderIn(f, x, d, n);
    assert UnderIn(f, f[x].parent, d, n - 1);
  }

  lemma UnderSelf(f: Forest, d: Id)
    ensures Under(f, d, d)
  {
    assert UnderIn(f, d, d, 0);
  }

  lemma RootUnderNothing(f: Forest, r: Id, d: Id)
    requires WellFormed(f) && IsRoot(r) && d in f
    ensures !Under(f, r, d)
  {
  }

  lemma GroundedStep(f: Forest, x: Id)
    requires x in f && Grounded(f, f[x].parent)
    ensures Grounded(f, x)
  {
    var n: nat :| GroundedIn(f, f[x].parent, n);
    assert GroundedIn(f, x, n + 1);
  }

  lemma RootGrounded(f: Forest, r: Id)
    requires IsRoot(r)
    ensures Grounded(f, r)
  {
    assert GroundedIn(f, r, 0);
  }

  /** Changes that keep the parents of the nodes there were keep the ways up. */
  lemma {:induction false} GroundedPreserved(f: Forest, g: Forest, x: Id, n: nat)
    requires GroundedIn(f, x, n)
    requires forall y :: y in f ==> y in g && g[y].parent == f[y].parent
    ensures GroundedIn(g, x, n)
    decreases n
  {
    if !IsRoot(x) { GroundedPreserved(f, g, f[x].parent, n - 1); }
  }

  /** The part of the forest above a managed node is managed. */
  lemma {:induction false} ManagedAbove(f: Forest, x: Id, d: Id, n: nat)
    requires WellFormed(f) && x in f && f[x].managed && d in f && UnderIn(f, x, d, n)
    ensures f[d].managed
    decreases n
  {
    if x != d {
      var p := f[x].parent;
      if p in f { ManagedAbove(f, p, d, n - 1); }
    }
  }

  // --- Each operation keeps the forest well formed ---

  lemma RestoreKeeps(f: Forest, op: Op)
    requires WellFormed(f) && op.Restore? && CanApply(f, op)
    requires op.parent in f ==> !f[op.parent].managed
    requires op.url.Some? <==> op.kind.Bookmark?
    ensures WellFormed(Apply(f, op))
  {
    var g := Apply(f, op);
    forall x | x in f ensures Grounded(g, x) {
      var n: nat :| GroundedIn(f, x, n);
      GroundedPreserved(f, g, x, n);
    }
    if op.parent in f { assert Grounded(g, op.parent); } else { RootGrounded(g, op.parent); }
    GroundedStep(g, op.id);
  }

  lemma UpdateKeeps(f: Forest, op: Op)
    requires WellFormed(f) && op.Update? && CanApply(f, op)
    requires op.newUrl.Some? ==> f[op.id].kind.Bookmark?
    ensures WellFormed(Apply(f, op))
  {
    var g := Apply(f, op);
    forall x | x in f ensures Grounded(g, x) {
      var n: nat :| GroundedIn(f, x, n);
      GroundedPreserved(f, g, x, n);
    }
  }

  /** The way up from `x` when it does not pass the moved node. */
  lemma {:induction false} GroundedAvoiding(f: Forest, g: Forest, x: Id, moved: Id, n: nat)
    requires GroundedIn(f, x, n) && !Under(f, x, moved)
    requires forall y :: y in f && y != moved ==> y in g && g[y].parent == f[y].parent
    ensures GroundedIn(g, x, n)
    decreases n
  {
    if !IsRoot(x) {
      if x == moved { UnderSelf(f, x); }
      if Under(f, f[x].parent, moved) { UnderStep(f, x, moved); }
      GroundedAvoiding(f, g, f[x].parent, moved, n - 1);
    }
  }

  lemma {:induction false} GroundedThrough(f: Forest, g: Forest, x: Id, moved: Id, n: nat)
    requires GroundedIn(f, x, n) && Grounded(g, moved)
    requires forall y :: y in f && y != moved ==> y in g && g[y].parent == f[y].parent
    ensures Grounded(g, x)
    decreases n
  {
    if IsRoot(x) {
      RootGrounded(g, x);
    } else if x != moved {
      GroundedThrough(f, g, f[x].parent, moved, n - 1);
      GroundedStep(g, x);
    }
  }

  lemma MoveKeeps(f: Forest, op: Op)
    requires WellFormed(f) && op.Move? && CanApply(f, op)
    requires op.parent in f ==> !f[op.parent].managed
    ensures WellFormed(Apply(f, op))
  {
    var g := Apply(f, op);
    assert Grounded(g, op.parent) by {
      if IsRoot(op.parent) { RootGrounded(g, op.parent); } else {
        var n: nat :| GroundedIn(f, op.parent, n);
        GroundedAvoiding(f, g, op.parent, op.id, n);
      }
    }
    GroundedStep(g, op.id);
    forall x | x in f ensures Grounded(g, x) {
      var n: nat :| GroundedIn(f, x, n);
      GroundedThrough(f, g, x, op.id, n);
    }
  }

  lemma DeleteKeeps(f: Forest, op: Op)
    requires WellFormed(f) && op.Delete? && CanApply(f, op)
    ensures WellFormed(Apply(f, op))
  {
    var g := Apply(f, op);
    forall x | x in g ensures Grounded(g, x) && ValidParent(g, g[x].parent) {
      var n: nat :| GroundedIn(f, x, n);
      GroundedSurvives(f, g, op.id, x, n);
      if f[x].parent in f && Under(f, f[x].parent, op.id) { UnderStep(f, x, op.id); }
    }
  }

  lemma {:induction false} GroundedSurvives(f: Forest, g: Forest, d: Id, x: Id, n: nat)
    requires GroundedIn(f, x, n) && !Under(f, x, d)
    requires forall y :: y in f && !Under(f, y, d) ==> y in g && g[y].parent == f[y].parent
    ensures Grounded(g, x)
    decreases n
  {
    if IsRoot(x) {
      RootGrounded(g, x);
    } else {
      if Under(f, f[x].parent, d) { UnderStep(f, x, d); }
      GroundedSurvives(f, g, d, f[x].parent, n - 1);
      GroundedStep(g, x);
    }
  }
}
