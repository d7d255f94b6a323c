// One downloaded page: deciding, buffering, applying and marking operations.
module Download {
  import opened Wrappers

  type OpId = nat
  type ObjectType = nat

  // What decrypting says: a payload, nothing usable, or an envelope format this
  // client does not know.
  datatype Envelope = Readable | Unreadable | Unsupported

  // `ownHistory`: this device's own history visit coming back.
  datatype Operation = Operation(operationId: OpId, objectType: ObjectType, ownHistory: bool, envelope: Envelope)

  const MARK_APPLIED_CHUNK := 50

  /** Where the page stops: at the first new operation in an unknown format. */
  function StopsAt(ops: seq<Operation>, already: set<OpId>): (k: nat)
    ensures k <= |ops|
    ensures k < |ops| ==> Stops(ops[k], already)
    ensures forall j :: 0 <= j < k ==> !Stops(ops[j], already)
  {
    if ops == [] then 0
    else if Stops(ops[0], already) then 0
    else 1 + StopsAt(ops[1..], already)
  }

  predicate Stops(op: Operation, already: set<OpId>)
  {
    op.operationId !in already && !op.ownHistory && op.envelope == Unsupported
  }

  /** The operations of a page that reach an applier. */
  function ToApply(ops: seq<Operation>, already: set<OpId>): seq<Operation>
  {
    if ops == [] then []
    else
      var op := ops[|ops| - 1];
      ToApply(ops[..|ops| - 1], already) +
      if op.operationId !in already && !op.ownHistory && op.envelope == Readable then [op] else []
  }

  /** The operations of a page that get marked: those, and the skipped ones. */
  function ToMark(ops: seq<Operation>, already: set<OpId>): set<OpId>
  {
    (set op | op in ops :: op.operationId) - already
  }

  function OfType(ops: seq<Operation>, t: ObjectType): seq<Operation>
  {
    if ops == [] then []
    else OfType(ops[..|ops| - 1], t) + if ops[|ops| - 1].objectType == t then [ops[|ops| - 1]] else []
  }

  lemma {:induction false} OfTypeConcat(a: seq<Operation>, b: seq<Operation>, t: ObjectType)
    ensures OfType(a + b, t) == OfType(a, t) + OfType(b, t)
  {
    if b == [] {
      assert a + b == a;
    } else {
      OfTypeConcat(a, b[..|b| - 1], t);
      assert (a + b)[..|a + b| - 1] == a + b[..|b| - 1];
    }
  }

  lemma {:induction false} OfTypeSame(ops: seq<Operation>, t: ObjectType, u: ObjectType)
    requires forall op :: op in ops ==> op.objectType == t
    ensures OfType(ops, u) == if u == t then ops else []
  {
    if ops != [] {
      OfTypeSame(ops[..|ops| - 1], t, u);
      assert ops == ops[..|ops| - 1] + [ops[|ops| - 1]];
    }
  }

  ghost function WaitingIds(buffers: map<ObjectType, seq<Operation>>): set<OpId>
  {
    set t, op | t in buffers && op in buffers[t] :: op.operationId
  }

  class Page {
    // Stored: the ids recorded as applied. They outlive a crash.
    var marked: set<OpId>
    // What the appliers have been given so far, in order.
    ghost var applied: seq<Operation>
    // Skipped on purpose: own history, and what cannot be decrypted.
    ghost var skipped: set<OpId>
    // In memory: ids to record next, and operations waiting for a batch applier.
    var appliedBuffer: seq<OpId>
    var batchBuffers: map<ObjectType, seq<Operation>>
    // Types that have a batch applier.
    const batched: set<ObjectType>
    ghost const already: set<OpId>

    constructor (marked: set<OpId>, batched: set<ObjectType>)
      ensures Valid() && this.marked == already == marked && this.batched == batched
      ensures applied == [] && skipped == {} && appliedBuffer == [] && batchBuffers == map[]
    {
      this.marked, already, this.batched := marked, marked, batched;
      applied, skipped, appliedBuffer, batchBuffers := [], {}, [], map[];
    }

    /** Whenever the worker dies, only handled operations are recorded. */
    ghost predicate Valid()
      reads this
    {
      && (forall id :: id in marked ==> id in already || Handled(id))
      && (forall id :: id in appliedBuffer ==> Handled(id))
      && (forall t :: t in batchBuffers ==> t in batched && forall op :: op in batchBuffers[t] ==> op.objectType == t)
    }

    ghost predicate Handled(id: OpId)
      reads this
    {
      id in skipped || exists op :: op in applied && op.operationId == id
    }

    ghost function Waiting(t: ObjectType): seq<Operation>
      reads this
    {
      if t in batchBuffers then batchBuffers[t] else []
    }

    /** What has been given to an applier or waits for one, per type. */
    ghost function Routed(t: ObjectType): seq<Operation>
      reads this
    {
      OfType(applied, t) + Waiting(t)
    }

    ghost function Accounted(): set<OpId>
      reads this
    {
      marked + (set id | id in appliedBuffer) + WaitingIds(batchBuffers)
    }

    method FlushAppliedBuffer()
      requires Valid()
      modifies `marked, `appliedBuffer
      ensures Valid() && appliedBuffer == []
      ensures marked == old(marked) + set id | id in old(appliedBuffer)
    {
      if |appliedBuffer| == 0 { return; }
      marked := marked + set id | id in appliedBuffer;
      appliedBuffer := [];
    }

    method MarkApplied(id: OpId)
      requires Valid() && Handled(id)
      modifies `marked, `appliedBuffer
      ensures Valid()
      ensures marked + (set i | i in appliedBuffer) == old(marked + (set i | i in appliedBuffer)) + {id}
    {
      assert (set i | i in appliedBuffer + [id]) == (set i | i in appliedBuffer) + {id};
      appliedBuffer := appliedBuffer + [id];
      if |appliedBuffer| >= MARK_APPLIED_CHUNK { FlushAppliedBuffer(); }
    }

    method MarkAll(items: seq<Operation>)
      requires Valid() && forall op :: op in items ==> op in applied
      modifies `marked, `appliedBuffer
      ensures Valid()
      ensures marked + (set id | id in appliedBuffer) == old(marked + (set id | id in appliedBuffer))
        + set op | op in items :: op.operationId
    {
      for i := 0 to |items|
        invariant Valid()
        invariant marked + (set id | id in appliedBuffer) == old(marked + (set id | id in appliedBuffer))
          + set op | op in items[..i] :: op.operationId
      {
        assert items[..i + 1] == items[..i] + [items[i]];
        assert Handled(items[i].operationId);
        MarkApplied(items[i].operationId);
      }
      assert items[..|items|] == items;
    }

    method FlushBatchBuffer(t: ObjectType)
      requires Valid()
      modifies this
      ensures Valid() && Waiting(t) == [] && skipped == old(skipped)
      ensures batchBuffers.Keys == old(batchBuffers.Keys)
      ensures forall u :: Routed(u) == old(Routed(u))
      ensures forall u :: u != t ==> Waiting(u) == old(Waiting(u))
      ensures Accounted() == old(Accounted())
    {
      if t !in batchBuffers || |batchBuffers[t]| == 0 { return; }
      var items := batchBuffers[t];
      TakenFromGroup(batchBuffers, t);
      batchBuffers := batchBuffers[t := []];
      applied := applied + items;
      forall u ensures Routed(u) == old(Routed(u)) {
        hide OfType;
        OfTypeConcat(old(applied), items, u);
        OfTypeSame(items, t, u);
      }
      assert forall id :: old(Handled(id)) ==> Handled(id);
      hide OfType, WaitingIds;
      MarkAll(items);
    }

    method FlushAllBatchBuffers()
      requires Valid()
      modifies this
      ensures Valid() && skipped == old(skipped)
      ensures forall t :: Waiting(t) == []
      ensures forall t :: OfType(applied, t) == old(Routed(t))
      ensures Accounted() == old(Accounted()) == marked + set id | id in appliedBuffer
    {
      var left := batchBuffers.Keys;
      while left != {}
        invariant Valid() && skipped == old(skipped) && left <= batchBuffers.Keys
        invariant forall t :: Routed(t) == old(Routed(t))
        invariant forall t :: t !in left ==> Waiting(t) == []
        invariant Accounted() == old(Accounted())
        decreases left
      {
        var t :| t in left;
        left := left - {t};
        FlushBatchBuffer(t);
      }
      assert forall t :: t in batchBuffers ==> batchBuffers[t] == Waiting(t) == [];
    }

    method Skip(op: Operation)
      requires Valid()
      modifies this
      ensures Valid() && (forall t :: Routed(t) == old(Routed(t)))
      ensures Accounted() == old(Accounted()) + {op.operationId}
    {
      skipped := skipped + {op.operationId};
      MarkApplied(op.operationId);
    }

    method Dispatch(op: Operation)
      requires Valid() && op.objectType !in batched
      modifies this
      ensures Valid() && (forall t :: Routed(t) == old(Routed(t)) + OfType([op], t))
      ensures Accounted() == old(Accounted()) + {op.operationId}
    {
      applied := applied + [op];
      forall t ensures Routed(t) == old(Routed(t)) + OfType([op], t) {
        OfTypeConcat(old(applied), [op], t);
        OfTypeSame([op], op.objectType, t);
        assert Waiting(t) == old(Waiting(t)) && (t == op.objectType ==> Waiting(t) == []);
      }
      assert applied[|applied| - 1] == op;
      assert forall id :: old(Handled(id)) ==> Handled(id);
      MarkApplied(op.operationId);
    }

    method PushToGroup(op: Operation)
      requires Valid() && op.objectType in batched
      modifies `batchBuffers
      ensures op.objectType in batchBuffers
      ensures Valid() && (forall t :: Routed(t) == old(Routed(t)) + OfType([op], t))
      ensures Accounted() == old(Accounted()) + {op.operationId}
    {
      hide OfType;
      var t := op.objectType;
      var group := (if t in batchBuffers then batchBuffers[t] else []) + [op];
      batchBuffers := batchBuffers[t := group];
      AppendedToGroup(old(batchBuffers), t, op);
      forall u ensures Routed(u) == old(Routed(u)) + OfType([op], u) {
        OfTypeSame([op], t, u);
        assert Waiting(u) == old(Waiting(u)) + (if u == t then [op] else []);
      }
    }

    /** One operation of the page that is not stopped at. */
    method HandleOperation(op: Operation, alreadyApplied: set<OpId>)
      requires Valid() && alreadyApplied == already && !Stops(op, already)
      modifies this
      ensures Valid()
      ensures forall t :: Routed(t) == old(Routed(t)) + OfType(ToApply([op], already), t)
      ensures Accounted() == old(Accounted()) + ToMark([op], already)
    {
      ToApplyOne(op, already);
      if op.operationId in alreadyApplied { return; }
      if op.ownHistory || op.envelope == Unreadable {
        Skip(op);
      } else if op.objectType in batched {
        PushToGroup(op);
        if |batchBuffers[op.objectType]| >= MARK_APPLIED_CHUNK { FlushBatchBuffer(op.objectType); }
      } else {
        Dispatch(op);
      }
    }

    /** A page without a failing applier. It is handled to its end, or up to the
      first operation in an unknown format; either way each applier has got the
      operations of its type in wire order, once each, and exactly the handled
      operations are recorded. */
    method ProcessPage(ops: seq<Operation>, alreadyApplied: set<OpId>) returns (finished: bool)
      requires Valid() && alreadyApplied == already == marked
      requires applied == [] && appliedBuffer == [] && batchBuffers == map[]
      modifies this
      ensures Valid()
      ensures finished <==> StopsAt(ops, already) == |ops|
      ensures forall t :: OfType(applied, t) == OfType(ToApply(ops[..StopsAt(ops, already)], already), t)
      ensures marked == already + ToMark(ops[..StopsAt(ops, already)], already)
    {
      var i := 0;
      while i < |ops|
        invariant Valid() && i <= StopsAt(ops, already)
        invariant forall t :: Routed(t) == OfType(ToApply(ops[..i], already), t)
        invariant Accounted() == already + ToMark(ops[..i], already)
      {
        var op := ops[i];
        if op.operationId !in alreadyApplied && !op.ownHistory && op.envelope == Unsupported {
          assert StopsAt(ops, already) == i;
          FlushAllBatchBuffers();
          FlushAppliedBuffer();
          return false;
        }
        HandleOperation(op, alreadyApplied);
        OneMore(ops, i, already);
        i := i + 1;
      }
      FlushAllBatchBuffers();
      FlushAppliedBuffer();
      return true;
    }
  }

  lemma AppendedToGroup(buffers: map<ObjectType, seq<Operation>>, t: ObjectType, op: Operation)
    ensures WaitingIds(buffers[t := (if t in buffers then buffers[t]
      else []) + [op]]) == WaitingIds(buffers) + {op.operationId}
  {
    var was := if t in buffers then buffers[t] else [];
    var grown := buffers[t := was + [op]];
    forall id | id in WaitingIds(buffers) ensures id in WaitingIds(grown) {
      var u, x :| u in buffers && x in buffers[u] && x.operationId == id;
      assert u in grown && x in grown[u];
    }
    assert t in grown && op in grown[t];
  }

  lemma TakenFromGroup(buffers: map<ObjectType, seq<Operation>>, t: ObjectType)
    requires t in buffers
    ensures WaitingIds(buffers) == WaitingIds(buffers[t := []]) + set op | op in buffers[t] :: op.operationId
  {
    var left: map<ObjectType, seq<Operation>> := buffers[t := []];
    forall id | id in WaitingIds(left) ensures id in WaitingIds(buffers) {
      var u, x :| u in left && x in left[u] && x.operationId == id;
      assert u != t && x in buffers[u];
    }
    forall id | id in WaitingIds(buffers) && id !in (set op | op in buffers[t] :: op.operationId)
      ensures id in WaitingIds(left) {
      var u, x :| u in buffers && x in buffers[u] && x.operationId == id;
      assert u != t && x in left[u];
    }
  }

  lemma ToApplyOne(op: Operation, already: set<OpId>)
    ensures ToApply([op], already) == if op.operationId !in already && !op.ownHistory
      && op.envelope == Readable then [op] else []
    ensures ToMark([op], already) == {op.operationId} - already
    ensures forall t :: OfType([], t) == []
  {
    assert [op][..0] == [];
  }

  lemma OneMore(ops: seq<Operation>, i: nat, already: set<OpId>)
    requires i < |ops|
    ensures forall t ::
      OfType(ToApply(ops[..i + 1], already), t) == OfType(ToApply(ops[..i], already),
      t) + OfType(ToApply([ops[i]], already), t)
    ensures ToMark(ops[..i + 1], already) == ToMark(ops[..i], already) + ToMark([ops[i]], already)
  {
    assert ops[..i + 1] == ops[..i] + [ops[i]] && ops[..i + 1][..i] == ops[..i] && [ops[i]][..0] == [];
    forall t ensures OfType(ToApply(ops[..i + 1], already), t) == OfType(ToApply(ops[..i], already),
      t) + OfType(ToApply([ops[i]], already), t) {
      OfTypeConcat(ToApply(ops[..i], already), ToApply([ops[i]], already), t);
    }
  }

  // --- Retrying a page ---

  lemma {:induction false} ToApplyAfter(ops: seq<Operation>, k: nat, already: set<OpId>)
    requires k <= |ops| && forall i, j :: 0 <= i < j < |ops| ==> ops[i].operationId != ops[j].operationId
    ensures ToApply(ops, already) == ToApply(ops[..k], already) + ToApply(ops, already + ToMark(ops[..k], already))
  {
    var later := already + ToMark(ops[..k], already);
    if |ops| > k {
      var rest, op := ops[..|ops| - 1], ops[|ops| - 1];
      ToApplyAfter(rest, k, already);
      assert rest[..k] == ops[..k];
      forall j | 0 <= j < k ensures ops[j].operationId != op.operationId {}
      assert op.operationId in later <==> op.operationId in already by {
        forall x | x in ops[..k] ensures x.operationId != op.operationId { var j :| 0 <= j < k && ops[..k][j] == x; }
      }
    } else {
      assert ops[..k] == ops;
      NothingLeft(ops, later);
    }
  }

  lemma {:induction false} NothingLeft(ops: seq<Operation>, marked: set<OpId>)
    requires forall op :: op in ops ==> op.operationId in marked
    ensures ToApply(ops, marked) == []
  {
    if ops != [] {
      NothingLeft(ops[..|ops| - 1], marked);
      assert ops == ops[..|ops| - 1] + [ops[|ops| - 1]];
    }
  }

  /** The page downloaded again: the same operations, but from the `k`-th on their
      envelopes may be readable now. */
  ghost predicate SamePage(ops: seq<Operation>, again: seq<Operation>, k: nat)
  {
    && k <= |ops| == |again|
    && (forall j :: 0 <= j < |ops| ==> again[j] == ops[j].(envelope := again[j].envelope))
    && (forall j :: 0 <= j < k ==> again[j] == ops[j])
  }

  /** After a page stopped at an unknown format, the same page with everything
      readable at last is handled to its end, beginning with the operation that had
      stopped it: the two runs together apply each operation once, in wire order,
      and mark them all. */
  lemma RetryHandlesTheRest(ops: seq<Operation>, again: seq<Operation>, already: set<OpId>)
    requires forall i, j :: 0 <= i < j < |ops| ==> ops[i].operationId != ops[j].operationId
    requires SamePage(ops, again, StopsAt(ops, already)) && StopsAt(again, already) == |again|
    ensures
      var k := StopsAt(ops, already);
      var later := already + ToMark(ops[..k], already);
      && StopsAt(again, later) == |again|
      && ToApply(again, already) == ToApply(ops[..k], already) + ToApply(again, later)
      && later + ToMark(again, later) == already + ToMark(again, already)
      && (k < |ops| && again[k].envelope == Readable ==> again[k] in ToApply(again, later))
  {
    var k := StopsAt(ops, already);
    var later := already + ToMark(ops[..k], already);
    assert again[..k] == ops[..k];
    forall i, j | 0 <= i < j < |again| ensures again[i].operationId != again[j].operationId {
      assert again[i] == ops[i].(envelope := again[i].envelope) && again[j] == ops[j].(envelope := again[j].envelope);
    }
    ToApplyAfter(again, k, already);
    assert forall x :: Stops(x, later) ==> Stops(x, already);
    assert forall x :: x in ops[..k] ==> x in again;
    if k < |ops| && again[k].envelope == Readable { StoppedIsLeft(ops, again, k, already); }
  }

  /** The operation that stopped the page has not been handled. */
  lemma StoppedIsLeft(ops: seq<Operation>, again: seq<Operation>, k: nat, already: set<OpId>)
    requires forall i, j :: 0 <= i < j < |ops| ==> ops[i].operationId != ops[j].operationId
    requires SamePage(ops, again, k) && k < |ops| && Stops(ops[k], already) && again[k].envelope == Readable
    ensures again[k] in ToApply(again, already + ToMark(ops[..k], already))
  {
    assert again[k] == ops[k].(envelope := Readable);
    forall x | x in ops[..k] ensures x.operationId != ops[k].operationId { var j :| 0 <= j < k && ops[j] == x; }
    Applied(again, k, already + ToMark(ops[..k], already));
  }

  lemma {:induction false} Applied(ops: seq<Operation>, k: nat, already: set<OpId>)
    requires k < |ops| && ops[k].operationId !in already && !ops[k].ownHistory && ops[k].envelope == Readable
    ensures ops[k] in ToApply(ops, already)
  {
    if k < |ops| - 1 { Applied(ops[..|ops| - 1], k, already); }
  }

  /** A page, and the same page again after a restart. */
  method RetryPage(ops: seq<Operation>, again: seq<Operation>, marked: set<OpId>, batched: set<ObjectType>)
      returns (first: Page, second: Page, finished: bool)
    requires forall i, j :: 0 <= i < j < |ops| ==> ops[i].operationId != ops[j].operationId
    requires SamePage(ops, again, StopsAt(ops, marked)) && StopsAt(again, marked) == |again|
    ensures finished && first != second
    ensures forall t :: OfType(first.applied, t) + OfType(second.applied, t) == OfType(ToApply(again, marked), t)
    ensures second.marked == marked + ToMark(again, marked)
  {
    RetryHandlesTheRest(ops, again, marked);
    var k := StopsAt(ops, marked);
    first := new Page(marked, batched);
    var _ := first.ProcessPage(ops, marked);
    second := new Page(first.marked, batched);
    finished := second.ProcessPage(again, first.marked);
    assert again[..|again|] == again;
    forall t { OfTypeConcat(ToApply(ops[..k], marked), ToApply(again, first.marked), t); }
  }

  /** Delivered again in full, a finished page applies nothing. */
  lemma RedeliveryIsIgnored(ops: seq<Operation>, already: set<OpId>)
    ensures ToApply(ops, already + ToMark(ops, already)) == []
  {
    NothingLeft(ops, already + ToMark(ops, already));
  }
}
