// Deterministic conflict resolution: which of several operations on one field
// of one object wins.
module Conflict {
  import opened Wrappers
  import opened Keys

  // Ids are UUIDs in their text form, compared as plain strings.
  datatype OrderingKey = OrderingKey(lamportTimestamp: nat, deviceId: string, operationId: string)

  /** The sign says which of two operations wins. */
  function CompareOrderingKey(a: OrderingKey, b: OrderingKey): int
  {
    if a.lamportTimestamp != b.lamportTimestamp then a.lamportTimestamp - b.lamportTimestamp
    else if a.deviceId != b.deviceId then (if Less(a.deviceId, b.deviceId) then -1 else 1)
    else if a.operationId != b.operationId then (if Less(a.operationId, b.operationId) then -1 else 1)
    else 0
  }

  predicate Above(a: OrderingKey, b: OrderingKey)
  {
    CompareOrderingKey(a, b) > 0
  }

  lemma AboveTotal(a: OrderingKey, b: OrderingKey)
    ensures a == b || Above(a, b) || Above(b, a)
    ensures !(Above(a, b) && Above(b, a)) && !Above(a, a)
    ensures CompareOrderingKey(a, b) == 0 <==> a == b
  {
    Total(a.deviceId, b.deviceId);
    Total(a.operationId, b.operationId);
    if Less(a.deviceId, b.deviceId) { Asymmetric(a.deviceId, b.deviceId); }
    if Less(a.operationId, b.operationId) { Asymmetric(a.operationId, b.operationId); }
  }

  lemma AboveTransitive(a: OrderingKey, b: OrderingKey, c: OrderingKey)
    requires Above(a, b) && Above(b, c)
    ensures Above(a, c)
  {
    Total(a.deviceId, b.deviceId);
    Total(b.deviceId, c.deviceId);
    Total(a.operationId, b.operationId);
    Total(b.operationId, c.operationId);
    if Less(c.deviceId, b.deviceId) && Less(b.deviceId, a.deviceId) {
      Transitive(c.deviceId, b.deviceId, a.deviceId);
      Asymmetric(c.deviceId, a.deviceId);
    }
    if Less(c.operationId, b.operationId) && Less(b.operationId, a.operationId) {
      Transitive(c.operationId, b.operationId, a.operationId);
      Asymmetric(c.operationId, a.operationId);
    }
  }

  datatype OperationType = Create | Restore | Update | Move | Delete

  datatype Field = Liveness | Title | Url | Place

  // What a field can hold. A URL may be null (a folder's), and so may a parent.
  datatype Value =
    | Live
    | Deleted
    | Text(text: string)
    | Link(url: Option<string>)
    | At(parent: Option<string>, position: string)

  // An operation as one field sees it; also what is recorded of the winner.
  datatype Incoming = Incoming(key: OrderingKey, operationType: OperationType, value: Value)

  datatype ResolveResult = ResolveResult(applied: bool, value: Value)

  /** Whether an operation takes a field over: by its key, save that for liveness
      neither of a delete and a move looks at keys, and the delete has it. */
  function Wins(current: Option<Incoming>, field: Field, incoming: Incoming): bool
  {
    if current.None? then true
    else if field == Liveness && incoming.operationType == Delete && current.value.operationType == Move then true
    else if field == Liveness && incoming.operationType == Move && current.value.value == Deleted then false
    else Above(incoming.key, current.value.key)
  }

  function ArbitrateField(current: Option<Incoming>, field: Field, incoming: Incoming): (ResolveResult,
      Option<Incoming>)
  {
    if Wins(current, field, incoming) then (ResolveResult(true, incoming.value), Some(incoming))
    else (ResolveResult(false, current.value.value), None)
  }

  datatype Slot = Slot(objectId: string, field: Field)

  datatype Entry = Entry(slot: Slot, incoming: Incoming)

  type Store = map<Slot, Incoming>

  function Recorded(store: Store, slot: Slot): Option<Incoming>
  {
    if slot in store then Some(store[slot]) else None
  }

  /** One slot resolved on its own. */
  function ResolveOne(store: Store, e: Entry): Store
  {
    if Wins(Recorded(store, e.slot), e.slot.field, e.incoming) then store[e.slot := e.incoming] else store
  }

  function ResultOf(store: Store, e: Entry): ResolveResult
  {
    ArbitrateField(Recorded(store, e.slot), e.slot.field, e.incoming).0
  }

  /** Resolving entries one after the other. */
  function ResolveAll(store: Store, entries: seq<Entry>): Store
  {
    if entries == [] then store
    else ResolveOne(ResolveAll(store, entries[..|entries| - 1]), entries[|entries| - 1])
  }

  function ResultsOf(store: Store, entries: seq<Entry>): seq<ResolveResult>
  {
    if entries == [] then []
    else
      var rest := entries[..|entries| - 1];
      ResultsOf(store, rest) + [ResultOf(ResolveAll(store, rest), entries[|entries| - 1])]
  }

  predicate SlotsOf(entries: seq<Entry>, currentByKey: map<Slot, Option<Incoming>>)
  {
    forall k :: 0 <= k < |entries| ==> entries[k].slot in currentByKey
  }

  predicate Mirrors(currentByKey: map<Slot, Option<Incoming>>, store: Store)
  {
    forall s :: s in currentByKey ==> currentByKey[s] == Recorded(store, s)
  }

  method ReadSlots(store: Store, entries: seq<Entry>) returns (currentByKey: map<Slot, Option<Incoming>>)
    ensures SlotsOf(entries, currentByKey) && Mirrors(currentByKey, store)
  {
    currentByKey := map[];
    for i := 0 to |entries|
      invariant SlotsOf(entries[..i], currentByKey) && Mirrors(currentByKey, store)
    {
      currentByKey := currentByKey[entries[i].slot := Recorded(store, entries[i].slot)];
    }
    assert entries[..|entries|] == entries;
  }

  lemma OneMoreResolved(store: Store, entries: seq<Entry>, i: nat)
    requires i < |entries|
    ensures ResolveAll(store, entries[..i + 1]) == ResolveOne(ResolveAll(store, entries[..i]), entries[i])
    ensures ResultsOf(store, entries[..i + 1]) == ResultsOf(store,
      entries[..i]) + [ResultOf(ResolveAll(store, entries[..i]), entries[i])]
  {
    assert entries[..i + 1][..i] == entries[..i];
  }

  /** A winner taken note of in memory is the winner stored. */
  lemma WriteStep(store: Store, pending: Store, current: map<Slot, Option<Incoming>>, slot: Slot, next: Incoming)
    requires Mirrors(current, store + pending)
    ensures store + pending[slot := next] == (store + pending)[slot := next]
    ensures Mirrors(current[slot := Some(next)], store + pending[slot := next])
  {
  }

  /** One read of the store, a walk in memory, one write of the winners: the same
      store and the same answers as resolving the entries one by one. */
  method ResolveEntriesInTx(store: Store, entries: seq<Entry>) returns (results: seq<ResolveResult>, store': Store)
    ensures store' == ResolveAll(store, entries)
    ensures results == ResultsOf(store, entries)
  {
    var currentByKey := ReadSlots(store, entries);
    results := [];
    var pendingWrites: Store := map[];
    assert store + pendingWrites == store && entries[..|entries|] == entries;
    for i := 0 to |entries|
      invariant SlotsOf(entries, currentByKey) && Mirrors(currentByKey, store + pendingWrites)
      invariant store + pendingWrites == ResolveAll(store, entries[..i])
      invariant results == ResultsOf(store, entries[..i])
    {
      hide ResolveAll, ResultsOf;
      OneMoreResolved(store, entries, i);
      var e := entries[i];
      var current := currentByKey[e.slot];
      var (result, next) := ArbitrateField(current, e.slot.field, e.incoming);
      results := results + [result];
      if next.Some? {
        WriteStep(store, pendingWrites, currentByKey, e.slot, next.value);
        currentByKey := currentByKey[e.slot := next];
        pendingWrites := pendingWrites[e.slot := next.value];
      }
    }
    store' := store + pendingWrites;
  }

  /** Splitting a run of entries into batches makes no difference. */
  lemma {:induction false} BatchesCompose(store: Store, a: seq<Entry>, b: seq<Entry>)
    ensures ResolveAll(store, a + b) == ResolveAll(ResolveAll(store, a), b)
  {
    if b == [] {
      assert a + b == a;
    } else {
      var n := |b| - 1;
      BatchesCompose(store, a, b[..n]);
      assert (a + b)[..|a + b| - 1] == a + b[..n];
    }
  }

  // --- Fields other than liveness: the greatest key ---

  /** `store` records, for every slot except liveness, the greatest of `entries`. */
  ghost predicate RecordsGreatest(store: Store, entries: set<Entry>)
  {
    && (forall s :: s in store && s.field != Liveness ==> Entry(s, store[s]) in entries)
    && (forall e :: e in entries && e.slot.field != Liveness ==>
      e.slot in store && !Above(e.incoming.key, store[e.slot].key))
  }

  /** Resolving an entry, new or seen before, keeps the greatest recorded. */
  lemma ResolveKeepsGreatest(store: Store, entries: set<Entry>, e: Entry)
    requires RecordsGreatest(store, entries)
    ensures RecordsGreatest(ResolveOne(store, e), entries + {e})
  {
    var store' := ResolveOne(store, e);
    AboveTotal(e.incoming.key, e.incoming.key);
    forall d | d in entries + {e} && d.slot.field != Liveness
      ensures d.slot in store' && !Above(d.incoming.key, store'[d.slot].key)
    {
      if d.slot == e.slot && d in entries && Wins(Recorded(store, e.slot), e.slot.field, e.incoming) {
        if Above(d.incoming.key, e.incoming.key) {
          AboveTransitive(d.incoming.key, e.incoming.key, store[e.slot].key);
        }
      }
    }
  }

  lemma {:induction false} ResolveAllKeepsGreatest(store: Store, before: set<Entry>, entries: seq<Entry>)
    requires RecordsGreatest(store, before)
    ensures RecordsGreatest(ResolveAll(store, entries), before + (set e | e in entries))
  {
    if entries == [] {
      assert before + (set e | e in entries) == before;
    } else {
      var rest, last := entries[..|entries| - 1], entries[|entries| - 1];
      ResolveAllKeepsGreatest(store, before, rest);
      ResolveKeepsGreatest(ResolveAll(store, rest), before + (set e | e in rest), last);
      assert entries == rest + [last];
      assert before + (set e | e in entries) == before + (set e | e in rest) + {last};
    }
  }

  /** Entries of one slot with one key are the same operation. */
  ghost predicate KeysIdentify(entries: set<Entry>)
  {
    forall d, e :: d in entries && e in entries && d.slot == e.slot && d.incoming.key == e.incoming.key ==> d == e
  }

  /** There is only one store that records the greatest of the same entries. */
  lemma GreatestIsUnique(a: Store, b: Store, entries: set<Entry>, s: Slot)
    requires RecordsGreatest(a, entries) && RecordsGreatest(b, entries) && KeysIdentify(entries)
    requires s.field != Liveness
    ensures Recorded(a, s) == Recorded(b, s)
  {
    if s in a {
      assert Entry(s, a[s]) in entries && Entry(s, b[s]) in entries;
      AboveTotal(a[s].key, b[s].key);
    }
  }

  /** Whatever the delivery order, the batches and the repetitions, the record of
      every field other than liveness is the same. */
  lemma DeliveryOrderIrrelevant(a: seq<Entry>, b: seq<Entry>, s: Slot)
    requires (set e | e in a) == (set e | e in b)
    requires KeysIdentify(set e | e in a)
    requires s.field != Liveness
    ensures Recorded(ResolveAll(map[], a), s) == Recorded(ResolveAll(map[], b), s)
  {
    ResolveAllKeepsGreatest(map[], {}, a);
    ResolveAllKeepsGreatest(map[], {}, b);
    var all := set e | e in a;
    assert {} + (set e | e in a) == all && {} + (set e | e in b) == all;
    GreatestIsUnique(ResolveAll(map[], a), ResolveAll(map[], b), all, s);
  }
}
