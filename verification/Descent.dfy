// Walking down a tree given as a list with parents before children.
module Descent {
  import opened Wrappers

  // One entry of such a list, as far as the walk looks at it.
  datatype Link = Link(id: nat, parent: nat, folder: bool)

  // `seen`: everything found below the start. `open`: the start and the folders
  // among them, whose children are followed.
  datatype Reach = Reach(seen: set<nat>, open: set<nat>)

  /** What lies below `start`, read off the list in one pass. */
  function Below(links: seq<Link>, start: nat): Reach
  {
    if links == [] then Reach({}, {start})
    else
      var r, l := Below(links[..|links| - 1], start), links[|links| - 1];
      if l.parent !in r.open then r
      else Reach(r.seen + {l.id}, if l.folder then r.open + {l.id} else r.open)
  }

  /** Distinct ids, and nothing precedes its parent. */
  ghost predicate ParentsFirst(links: seq<Link>)
  {
    && (forall i, j :: 0 <= i < j < |links| ==> links[i].id != links[j].id)
    && (forall i, j :: 0 <= i <= j < |links| ==> links[i].parent != links[j].id)
  }

  function ChildrenOf(links: seq<Link>, parent: nat): (c: seq<Link>)
    ensures forall l :: l in c <==> l in links && l.parent == parent
  {
    if links == [] then []
    else
      var c, l := ChildrenOf(links[..|links| - 1], parent), links[|links| - 1];
      assert links == links[..|links| - 1] + [l];
      if l.parent == parent then c + [l] else c
  }

  lemma {:induction false} ChildrenDistinct(links: seq<Link>, parent: nat)
    requires ParentsFirst(links)
    ensures forall i, j :: 0 <= i < j < |ChildrenOf(links, parent)| ==>
      ChildrenOf(links, parent)[i].id != ChildrenOf(links, parent)[j].id
  {
    if links != [] {
      var rest := links[..|links| - 1];
      ChildrenDistinct(rest, parent);
      var l := links[|links| - 1];
      forall c | c in ChildrenOf(rest, parent) ensures c.id != l.id {
        var k :| 0 <= k < |rest| && rest[k] == c;
      }
    }
  }

  lemma {:induction false} BelowBasics(links: seq<Link>, start: nat, k: nat)
    requires ParentsFirst(links) && k <= |links|
    ensures start in Below(links[..k], start).open
    ensures Below(links[..k], start).open <= Below(links[..k], start).seen + {start}
    ensures start !in Below(links[..k], start).seen
    ensures forall x :: x in Below(links[..k], start).seen ==> exists i :: 0 <= i < k && links[i].id == x
    ensures (exists i :: k <= i < |links| && links[i].id == start) ==> Below(links[..k], start) == Reach({}, {start})
  {
    if k > 0 {
      BelowBasics(links, start, k - 1);
      assert links[..k][..k - 1] == links[..k - 1];
      var r := Below(links[..k - 1], start);
      var l := links[k - 1];
      if l.parent in r.open {
        forall x | x in r.seen + {l.id} ensures exists i :: 0 <= i < k && links[i].id == x {
          if x == l.id { assert links[k - 1].id == x; }
        }
      }
    }
  }

  lemma {:induction false} BelowMember(links: seq<Link>, start: nat, k: nat, n: nat)
    requires ParentsFirst(links) && k < n <= |links|
    ensures links[k].id in Below(links[..n], start).seen <==> links[k].parent in Below(links[..n], start).open
    ensures links[k].folder && links[k].parent in Below(links[..n], start).open ==>
      links[k].id in Below(links[..n], start).open
  {
    var l := links[n - 1];
    var r := Below(links[..n - 1], start);
    assert links[..n][..n - 1] == links[..n - 1];
    BelowBasics(links, start, n - 1);
    if k < n - 1 {
      BelowMember(links, start, k, n - 1);
    } else {
      assert l.parent != l.id;
    }
  }

  /** The start and everything followed is closed under children. */
  lemma {:induction false} ClosedIsAll(links: seq<Link>, start: nat, seen: set<nat>, done: set<nat>, k: nat)
    requires k <= |links| && start in done
    requires forall l :: l in links && l.parent in done ==> l.id in seen && (l.folder ==> l.id in done)
    ensures Below(links[..k], start).seen <= seen && Below(links[..k], start).open <= done
  {
    if k > 0 {
      ClosedIsAll(links, start, seen, done, k - 1);
      assert links[..k][..k - 1] == links[..k - 1];
      assert links[k - 1] in links;
    }
  }

  /** Notes the children of the node just taken off the stack. */
  method Visit(children: seq<Link>, seen0: set<nat>, stack0: seq<nat>) returns (seen: set<nat>, stack: seq<nat>)
    requires Distinct(stack0)
    requires forall i, j :: 0 <= i < j < |children| ==> children[i].id != children[j].id
    requires forall c :: c in children ==> c.id !in stack0
    ensures seen == seen0 + set c | c in children :: c.id
    ensures Distinct(stack)
    ensures forall s :: s in stack <==> s in stack0 || exists c :: c in children && c.folder && c.id == s
  {
    seen, stack := seen0, stack0;
    for i := 0 to |children|
      invariant seen == seen0 + set c | c in children[..i] :: c.id
      invariant Distinct(stack)
      invariant forall s :: s in stack <==> s in stack0 || exists c :: c in children[..i] && c.folder && c.id == s
    {
      var c := children[i];
      assert children[..i + 1] == children[..i] + [c];
      seen := seen + {c.id};
      if c.folder { stack := stack + [c.id]; }
    }
    assert children[..|children|] == children;
  }

  /** What holds between two steps of the walk. */
  ghost predicate Walking(links: seq<Link>, start: nat, seen: set<nat>, stack: seq<nat>, popped: set<nat>)
  {
    var r := Below(links, start);
    && (forall s :: s in stack ==> s in r.open && s !in popped)
    && popped <= r.open && seen <= r.seen
    && (start in popped || start in stack)
    && (forall l :: l in links && l.parent in popped ==> l.id in seen && (l.folder ==> l.id in popped || l.id in stack))
    && (forall l :: l in links && l.id != start && (l.id in popped || l.id in stack) ==> l.parent in popped)
  }

  lemma ChildIsNew(links: seq<Link>, start: nat, seen: set<nat>, stack: seq<nat>, popped: set<nat>, x: nat, c: Link)
    requires ParentsFirst(links) && Walking(links, start, seen, stack, popped)
    requires x in stack && c in links && c.parent == x
    ensures c.id in Below(links, start).seen && (c.folder ==> c.id in Below(links, start).open)
    ensures c.id !in stack && c.id !in popped && c.id != start
  {
    var k :| 0 <= k < |links| && links[k] == c;
    assert links[..|links|] == links;
    BelowMember(links, start, k, |links|);
    BelowBasics(links, start, |links|);
  }

  lemma WalkStep(links: seq<Link>, start: nat, seen: set<nat>, stack: seq<nat>, popped: set<nat>, x: nat,
      rest: seq<nat>, seen': set<nat>, stack': seq<nat>)
    requires ParentsFirst(links) && Walking(links, start, seen, stack, popped)
    requires stack == rest + [x] && x !in rest
    requires seen' == seen + set c | c in ChildrenOf(links, x) :: c.id
    requires forall s :: s in stack' <==> s in rest || exists c :: c in ChildrenOf(links, x) && c.folder && c.id == s
    ensures Walking(links, start, seen', stack', popped + {x})
  {
    var r, popped' := Below(links, start), popped + {x};
    forall c | c in ChildrenOf(links, x)
      ensures c.id in r.seen && (c.folder ==> c.id in r.open) && c.id !in stack && c.id !in popped && c.id != start
    {
      ChildIsNew(links, start, seen, stack, popped, x, c);
    }
    forall s | s in stack' ensures s in r.open && s !in popped' {
    }
    forall l | l in links && l.parent in popped'
      ensures l.id in seen' && (l.folder ==> l.id in popped' || l.id in stack')
    {
      if l.parent == x { assert l in ChildrenOf(links, x); }
    }
    forall l | l in links && l.id != start && (l.id in popped' || l.id in stack')
      ensures l.parent in popped'
    {
      if l.id !in popped && l.id !in stack {
        var c :| c in ChildrenOf(links, x) && c.folder && c.id == l.id;
        assert c == l;
      }
    }
  }

  /** The walk itself: a stack of folders whose children are still to visit. */
  method Descend(links: seq<Link>, start: nat) returns (seen: set<nat>)
    requires ParentsFirst(links)
    ensures seen == Below(links, start).seen
  {
    assert links[..|links|] == links;
    BelowBasics(links, start, |links|);
    ghost var popped: set<nat> := {};
    seen := {};
    var stack: seq<nat> := [start];
    while stack != []
      invariant Distinct(stack)
      invariant Walking(links, start, seen, stack, popped)
      decreases Below(links, start).open - popped
    {
      var x, rest := stack[|stack| - 1], stack[..|stack| - 1];
      var children := ChildrenOf(links, x);
      ChildrenDistinct(links, x);
      forall c | c in children ensures c.id !in stack {
        ChildIsNew(links, start, seen, stack, popped, x, c);
      }
      var seen', stack' := Visit(children, seen, rest);
      WalkStep(links, start, seen, stack, popped, x, rest, seen', stack');
      seen, stack, popped := seen', stack', popped + {x};
    }
    ClosedIsAll(links, start, seen, popped, |links|);
  }
}
