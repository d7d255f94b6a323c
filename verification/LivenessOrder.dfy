// The liveness field: when the outcome depends on the order of delivery.
module LivenessOrder {
  import opened Wrappers
  import opened Keys
  import opened Conflict

  /** The record after operations arrive in the given order. */
  function Outcome(ops: seq<Incoming>): Option<Incoming>
  {
    if ops == [] then None
    else
      var before, last := Outcome(ops[..|ops| - 1]), ops[|ops| - 1];
      if Wins(before, Liveness, last) then Some(last) else before
  }

  lemma OutcomeAppend(ops: seq<Incoming>, x: Incoming)
    ensures Outcome(ops + [x]) == if Wins(Outcome(ops), Liveness, x) then Some(x) else Outcome(ops)
  {
    assert (ops + [x])[..|ops|] == ops;
  }

  predicate IsDelete(x: Incoming) { x.operationType == Delete }

  predicate IsMove(x: Incoming) { x.operationType == Move }

  // A create, restore or update: live, and not a move.
  predicate IsEdit(x: Incoming) { !IsDelete(x) && !IsMove(x) }

  /** Operations on the liveness of one object: deletes say deleted, all others
      live, and different operations have different keys. */
  ghost predicate LivenessOps(ops: seq<Incoming>)
  {
    && (forall x :: x in ops ==> x.value == if IsDelete(x) then Deleted else Live)
    && (forall x, y :: x in ops && y in ops && x.key == y.key ==> x == y)
  }

  ghost predicate Greatest(ops: seq<Incoming>, r: Incoming)
  {
    forall x :: x in ops ==> !Above(x.key, r.key)
  }

  /** A delete exists, some edit is above every delete, and the greatest operation
      of all is a move. */
  ghost predicate Contested(ops: seq<Incoming>)
  {
    && (exists d :: d in ops && IsDelete(d))
    && (exists e :: e in ops && IsEdit(e) && forall d :: d in ops && IsDelete(d) ==> Above(e.key, d.key))
    && (exists m :: m in ops && IsMove(m) && Greatest(ops, m))
  }

  // --- Where the order does not matter ---

  /** An edit above everything wins. */
  lemma {:induction false} GreatestEditWins(ops: seq<Incoming>, r: Incoming, k: nat)
    requires LivenessOps(ops) && k <= |ops| && r in ops && IsEdit(r) && Greatest(ops, r)
    ensures r in ops[..k] ==> Outcome(ops[..k]) == Some(r)
    ensures Outcome(ops[..k]).Some? ==> Outcome(ops[..k]).value in ops
  {
    if k > 0 {
      GreatestEditWins(ops, r, k - 1);
      var x := ops[k - 1];
      assert ops[..k] == ops[..k - 1] + [x] && ops[..k][..k - 1] == ops[..k - 1];
      var before := Outcome(ops[..k - 1]);
      if x == r && before.Some? { AboveTotal(r.key,
        before.value.key); if before.value != r { SameOrAbove(ops, r, before.value); } }
    }
  }

  lemma SameOrAbove(ops: seq<Incoming>, r: Incoming, y: Incoming)
    requires LivenessOps(ops) && r in ops && y in ops && !Above(y.key, r.key) && y != r
    ensures Above(r.key, y.key)
  {
    AboveTotal(r.key, y.key);
  }

  /** The greatest delete wins when every edit is below it, whatever the moves. */
  lemma {:induction false} GreatestDeleteWins(ops: seq<Incoming>, r: Incoming, k: nat)
    requires LivenessOps(ops) && k <= |ops| && r in ops && IsDelete(r)
    requires forall x :: x in ops && !IsMove(x) ==> !Above(x.key, r.key)
    ensures r in ops[..k] ==> Outcome(ops[..k]) == Some(r)
    ensures Outcome(ops[..k]).Some? ==> Outcome(ops[..k]).value in ops
  {
    if k > 0 {
      GreatestDeleteWins(ops, r, k - 1);
      var x := ops[k - 1];
      assert ops[..k] == ops[..k - 1] + [x] && ops[..k][..k - 1] == ops[..k - 1];
      var before := Outcome(ops[..k - 1]);
      if x == r && before.Some? && !IsMove(before.value) && before.value != r { SameOrAbove(ops, r, before.value); }
    }
  }

  /** Without deletes, or without moves, the greatest key wins. */
  lemma {:induction false} GreatestWins(ops: seq<Incoming>, r: Incoming, k: nat)
    requires LivenessOps(ops) && k <= |ops| && r in ops && Greatest(ops, r)
    requires (forall x :: x in ops ==> !IsDelete(x)) || (forall x :: x in ops ==> !IsMove(x))
    ensures r in ops[..k] ==> Outcome(ops[..k]) == Some(r)
    ensures Outcome(ops[..k]).Some? ==> Outcome(ops[..k]).value in ops
  {
    if k > 0 {
      GreatestWins(ops, r, k - 1);
      var x := ops[k - 1];
      assert ops[..k] == ops[..k - 1] + [x] && ops[..k][..k - 1] == ops[..k - 1];
      var before := Outcome(ops[..k - 1]);
      if x == r && before.Some? && before.value != r { SameOrAbove(ops, r, before.value); }
    }
  }

  lemma {:induction false} GreatestOf(ops: seq<Incoming>, p: Incoming -> bool) returns (r: Incoming)
    requires exists x :: x in ops && p(x)
    ensures r in ops && p(r) && forall x :: x in ops && p(x) ==> !Above(x.key, r.key)
  {
    var rest, last := ops[..|ops| - 1], ops[|ops| - 1];
    assert ops == rest + [last];
    AboveTotal(last.key, last.key);
    if exists x :: x in rest && p(x) {
      r := GreatestOf(rest, p);
      if p(last) && Above(last.key, r.key) {
        forall x | x in rest && p(x) ensures !Above(x.key, last.key) {
          if Above(x.key, last.key) { AboveTransitive(x.key, last.key, r.key); }
        }
        r := last;
      }
    } else {
      r := last;
    }
  }

  /** The record when the order does not matter. */
  ghost predicate Settles(ops: seq<Incoming>, r: Incoming)
  {
    && r in ops
    && ((IsEdit(r) && Greatest(ops, r))
        || (IsDelete(r) && forall x :: x in ops && !IsMove(x) ==> !Above(x.key, r.key))
        || (Greatest(ops, r) && forall x :: x in ops ==> !IsDelete(x)))
  }

  lemma SettlesWins(ops: seq<Incoming>, r: Incoming)
    requires LivenessOps(ops) && Settles(ops, r)
    ensures Outcome(ops) == Some(r)
  {
    assert ops[..|ops|] == ops;
    if IsEdit(r) && Greatest(ops, r) {
      GreatestEditWins(ops, r, |ops|);
    } else if IsDelete(r) && forall x :: x in ops && !IsMove(x) ==> !Above(x.key, r.key) {
      GreatestDeleteWins(ops, r, |ops|);
    } else {
      GreatestWins(ops, r, |ops|);
    }
  }

  lemma UncontestedSettles(ops: seq<Incoming>) returns (r: Incoming)
    requires LivenessOps(ops) && ops != [] && !Contested(ops)
    ensures Settles(ops, r)
  {
    assert ops[0] in ops;
    r := GreatestOf(ops, (x: Incoming) => true);
    if exists d :: d in ops && IsDelete(d) {
      if !IsEdit(r) {
        var d := GreatestOf(ops, IsDelete);
        if IsDelete(r) {
          SettlesByDelete(ops, r);
        } else {
          forall x | x in ops && IsEdit(x) ensures !Above(x.key, d.key) {
            if Above(x.key, d.key) {
              forall d' | d' in ops && IsDelete(d') ensures Above(x.key, d'.key) {
                if d' != d { SameOrAbove(ops, d, d'); AboveTransitive(x.key, d.key, d'.key); }
              }
            }
          }
          r := d;
        }
      }
    }
  }

  lemma SettlesByDelete(ops: seq<Incoming>, r: Incoming)
    requires r in ops && IsDelete(r) && Greatest(ops, r)
    ensures Settles(ops, r)
  {
  }

  ghost predicate SameOps(a: seq<Incoming>, b: seq<Incoming>)
  {
    forall x :: x in a <==> x in b
  }

  /** Unless contested, the record does not depend on order or repetition. */
  lemma UncontestedIsStable(a: seq<Incoming>, b: seq<Incoming>)
    requires LivenessOps(a) && SameOps(a, b) && !Contested(a)
    ensures Outcome(a) == Outcome(b)
  {
    if a == [] {
      assert forall k :: 0 <= k < |b| ==> b[k] in b;
    } else {
      var r := UncontestedSettles(a);
      SettlesWins(a, r);
      assert Settles(b, r);
      SettlesWins(b, r);
    }
  }

  // --- Where it does ---

  function Only(ops: seq<Incoming>, p: Incoming -> bool): (r: seq<Incoming>)
    ensures forall x :: x in r <==> x in ops && p(x)
  {
    if ops == [] then []
    else
      assert ops == ops[..|ops| - 1] + [ops[|ops| - 1]];
      Only(ops[..|ops| - 1], p) + if p(ops[|ops| - 1]) then [ops[|ops| - 1]] else []
  }

  lemma OnlyOneMore(rest: seq<Incoming>, last: Incoming, p: Incoming -> bool)
    ensures multiset(Only(rest + [last], p)) == multiset(Only(rest, p)) + if p(last) then multiset{last} else multiset{}
  {
    var ops := rest + [last];
    assert ops[..|ops| - 1] == rest;
    assert Only(ops, p) == Only(rest, p) + if p(last) then [last] else [];
  }

  lemma PutInOne<T>(a: multiset<T>, b: multiset<T>, c: multiset<T>, x: T)
    ensures a + multiset{x} + b + c == a + b + c + multiset{x}
    ensures a + (b + multiset{x}) + c == a + b + c + multiset{x}
    ensures a + b + (c + multiset{x}) == a + b + c + multiset{x}
  {
  }

  ghost predicate SortsOut(ops: seq<Incoming>)
  {
    multiset(Only(ops, IsDelete)) + multiset(Only(ops, IsMove)) + multiset(Only(ops, IsEdit)) == multiset(ops)
  }

  lemma SortsOutOneMore(rest: seq<Incoming>, last: Incoming)
    requires SortsOut(rest)
    ensures SortsOut(rest + [last])
  {
    OnlyOneMore(rest, last, IsDelete);
    OnlyOneMore(rest, last, IsMove);
    OnlyOneMore(rest, last, IsEdit);
    assert multiset(rest + [last]) == multiset(rest) + multiset{last};
    PutInOne(multiset(Only(rest, IsDelete)), multiset(Only(rest, IsMove)), multiset(Only(rest, IsEdit)), last);
  }

  lemma {:induction false} Reordered(ops: seq<Incoming>)
    ensures SortsOut(ops)
  {
    if ops != [] {
      hide SortsOut;
      Reordered(ops[..|ops| - 1]);
      assert ops == ops[..|ops| - 1] + [ops[|ops| - 1]];
      SortsOutOneMore(ops[..|ops| - 1], ops[|ops| - 1]);
    }
  }

  /** After a delete, only an edit above it revives the object, and it stays
      revived by edits. */
  lemma {:induction false} EditsAfterDeletes(before: seq<Incoming>, edits: seq<Incoming>, d: Incoming)
    requires Outcome(before) == Some(d) && IsDelete(d)
    requires forall x :: x in edits ==> IsEdit(x)
    ensures Outcome(before + edits).Some?
    ensures Outcome(before + edits).value == d || IsEdit(Outcome(before + edits).value)
    ensures (exists e :: e in edits && Above(e.key, d.key)) ==> IsEdit(Outcome(before + edits).value)
  {
    if edits == [] {
      assert before + edits == before;
    } else {
      var n := |edits| - 1;
      EditsAfterDeletes(before, edits[..n], d);
      assert before + edits == before + edits[..n] + [edits[n]];
      OutcomeAppend(before + edits[..n], edits[n]);
      assert edits == edits[..n] + [edits[n]];
    }
  }

  /** Moves after a delete change nothing. */
  lemma {:induction false} MovesAfterDeletes(before: seq<Incoming>, moves: seq<Incoming>, d: Incoming)
    requires Outcome(before) == Some(d) && IsDelete(d) && d.value == Deleted
    requires forall x :: x in moves ==> IsMove(x)
    ensures Outcome(before + moves) == Some(d)
  {
    if moves == [] {
      assert before + moves == before;
    } else {
      var n := |moves| - 1;
      MovesAfterDeletes(before, moves[..n], d);
      assert before + moves == before + moves[..n] + [moves[n]];
      OutcomeAppend(before + moves[..n], moves[n]);
      assert moves[n] in moves;
    }
  }

  /** A delete arriving over a move, or over a delete, leaves a delete. */
  lemma {:induction false} DeletesAfterMove(before: seq<Incoming>, deletes: seq<Incoming>)
    requires Outcome(before).Some? && IsMove(Outcome(before).value)
    requires deletes != [] && forall x :: x in deletes ==> IsDelete(x)
    ensures Outcome(before + deletes).Some? && IsDelete(Outcome(before + deletes).value)
  {
    var n := |deletes| - 1;
    assert before + deletes == before + deletes[..n] + [deletes[n]];
    OutcomeAppend(before + deletes[..n], deletes[n]);
    assert deletes[n] in deletes;
    if n > 0 { DeletesAfterMove(before, deletes[..n]); } else { assert before + deletes[..n] == before; }
  }

  lemma {:induction false} OutcomeIsOne(ops: seq<Incoming>)
    ensures Outcome(ops).Some? ==> Outcome(ops).value in ops
    ensures ops != [] ==> Outcome(ops).Some?
  {
    if ops != [] {
      OutcomeIsOne(ops[..|ops| - 1]);
      assert ops == ops[..|ops| - 1] + [ops[|ops| - 1]];
    }
  }

  lemma PartOps(ops: seq<Incoming>, part: seq<Incoming>)
    requires LivenessOps(ops) && forall x :: x in part ==> x in ops
    ensures LivenessOps(part)
  {
  }

  lemma DeletesFirst(ops: seq<Incoming>, ds: seq<Incoming>, ms: seq<Incoming>, es: seq<Incoming>)
    requires LivenessOps(ops) && Contested(ops)
    requires ds == Only(ops, IsDelete) && ms == Only(ops, IsMove) && es == Only(ops, IsEdit)
    ensures Outcome(ds + ms + es).Some? && Outcome(ds + ms + es).value.value == Live
  {
    PartOps(ops, ds);
    var d := GreatestOf(ds, IsDelete);
    assert Settles(ds, d);
    hide Only, Outcome;
    SettlesWins(ds, d);
    MovesAfterDeletes(ds, ms, d);
    EditsAfterDeletes(ds + ms, es, d);
    var e :| e in ops && IsEdit(e) && forall x :: x in ops && IsDelete(x) ==> Above(e.key, x.key);
    assert e in es && Above(e.key, d.key);
    OutcomeIsOne(ds + ms + es);
  }

  lemma MoveBeforeDeletes(ops: seq<Incoming>, ms: seq<Incoming>, es: seq<Incoming>)
    requires LivenessOps(ops) && (exists m :: m in ops && IsMove(m) && Greatest(ops, m))
    requires ms == Only(ops, IsMove) && es == Only(ops, IsEdit)
    ensures Outcome(es + ms).Some? && IsMove(Outcome(es + ms).value)
  {
    var m :| m in ops && IsMove(m) && Greatest(ops, m);
    PartOps(ops, es + ms);
    assert m in es + ms;
    assert Settles(es + ms, m);
    SettlesWins(es + ms, m);
  }

  lemma DeletesLast(ops: seq<Incoming>, ds: seq<Incoming>, ms: seq<Incoming>, es: seq<Incoming>)
    requires LivenessOps(ops) && Contested(ops)
    requires ds == Only(ops, IsDelete) && ms == Only(ops, IsMove) && es == Only(ops, IsEdit)
    ensures Outcome(es + ms + ds).Some? && Outcome(es + ms + ds).value.value == Deleted
  {
    MoveBeforeDeletes(ops, ms, es);
    DeletesAfterMove(es + ms, ds);
    OutcomeIsOne(es + ms + ds);
  }

  /** A contested object ends live or deleted depending on the order alone. */
  lemma ContestedIsUnstable(ops: seq<Incoming>) returns (a: seq<Incoming>, b: seq<Incoming>)
    requires LivenessOps(ops) && Contested(ops)
    ensures multiset(a) == multiset(ops) && multiset(b) == multiset(ops)
    ensures Outcome(a).Some? && Outcome(b).Some? && Outcome(a).value.value == Live && Outcome(b).value.value == Deleted
  {
    var ds, ms, es := Only(ops, IsDelete), Only(ops, IsMove), Only(ops, IsEdit);
    Reordered(ops);
    DeletesFirst(ops, ds, ms, es);
    DeletesLast(ops, ds, ms, es);
    a, b := ds + ms + es, es + ms + ds;
  }

  /** Exactly when the outcome is independent of the order of delivery. */
  lemma StableUnlessContested(ops: seq<Incoming>)
    requires LivenessOps(ops)
    ensures (forall a, b | multiset(a) == multiset(ops) && multiset(b) == multiset(ops) ::
      Outcome(a) == Outcome(b)) <==> !Contested(ops)
  {
    if Contested(ops) {
      var a, b := ContestedIsUnstable(ops);
      assert Outcome(a) != Outcome(b);
    } else {
      forall a: seq<Incoming>, b: seq<Incoming> | multiset(a) == multiset(ops) && multiset(b) == multiset(ops)
        ensures Outcome(a) == Outcome(b)
      {
        forall x ensures (x in a <==> x in ops) && (x in b <==> x in ops) {
          assert (x in a <==> x in multiset(a)) && (x in b <==> x in multiset(b)) && (x in ops <==> x in multiset(ops));
        }
        UncontestedIsStable(ops, a);
        UncontestedIsStable(ops, b);
      }
    }
  }

  /** The smallest case: a delete, an update above it, a move above both. */
  lemma ThreeOperationsDisagree(d: Incoming, u: Incoming, m: Incoming)
    requires d == Incoming(OrderingKey(2, "a", "1"), Delete, Deleted)
    requires u == Incoming(OrderingKey(3, "b", "2"), Update, Live)
    requires m == Incoming(OrderingKey(5, "c", "3"), Move, Live)
    ensures Outcome([d, m, u]) == Some(u) && Outcome([m, u, d]) == Some(d)
  {
    OutcomeAppend([], d);
    OutcomeAppend([d], m);
    OutcomeAppend([d, m], u);
    OutcomeAppend([], m);
    OutcomeAppend([m], u);
    OutcomeAppend([m, u], d);
    assert [] + [d] == [d] && [d] + [m] == [d, m] && [d, m] + [u] == [d, m, u];
    assert [] + [m] == [m] && [m] + [u] == [m, u] && [m, u] + [d] == [m, u, d];
  }

  /** What the entries of a batch say about one object's liveness. */
  function LivenessOf(entries: seq<Entry>, objectId: string): seq<Incoming>
  {
    if entries == [] then []
    else
      var e := entries[|entries| - 1];
      LivenessOf(entries[..|entries| - 1], objectId) + if e.slot == Slot(objectId, Liveness) then [e.incoming] else []
  }

  /** The liveness record of a store is the outcome of what it was sent. */
  lemma {:induction false} StoreHoldsOutcome(entries: seq<Entry>, objectId: string)
    ensures Recorded(ResolveAll(map[], entries), Slot(objectId, Liveness)) == Outcome(LivenessOf(entries, objectId))
  {
    if entries != [] {
      var rest, e := entries[..|entries| - 1], entries[|entries| - 1];
      StoreHoldsOutcome(rest, objectId);
      OutcomeAppend(LivenessOf(rest, objectId), e.incoming);
      assert LivenessOf(rest, objectId) + [] == LivenessOf(rest, objectId);
    }
  }
}
