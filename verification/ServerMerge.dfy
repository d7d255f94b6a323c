// Bookmark operations as the client resolves them and as the server merges them.
module ServerMerge {
  import opened Wrappers
  import opened Keys
  import opened Conflict

  // A payload as the server sees it: a field may be absent, and a URL or parent
  // that is present may be null. `other` stands for the fields not merged.
  datatype Payload = Payload(title: Option<string>, url: Option<Option<string>>, parent: Option<Option<string>>,
      position: Option<string>, other: string)
  {
    predicate HasTitle() { title.Some? }
    predicate HasUrl() { url.Some? }
    predicate HasPlace() { parent.Some? && position.Some? }
  }

  datatype Operation = Operation(key: OrderingKey, objectId: string, operationType: OperationType, payload: Payload)

  /** The payloads the extension writes for each type of operation. An update
      never carries a null URL, nor a parent. */
  predicate Written(op: Operation)
  {
    var p := op.payload;
    match op.operationType
    case Create => p.HasTitle() && p.HasUrl() && p.HasPlace()
    case Restore => p.HasTitle() && p.HasUrl() && p.HasPlace()
    case Update => p.parent.None? && p.position.None? && (p.url.Some? ==> p.url.value.Some?)
    case Move => p.title.None? && p.url.None? && p.HasPlace() && p.parent.value.Some?
    case Delete => p.title.None? && p.url.None? && p.parent.None? && p.position.None?
  }

  // --- The client ---

  /** The field slots an operation resolves. */
  function RemoteFieldResolutions(op: Operation): seq<Entry>
    requires Written(op)
  {
    var p := op.payload;
    var entry := (f: Field, v: Value) => Entry(Slot(op.objectId, f), Incoming(op.key, op.operationType, v));
    match op.operationType
    case Create => [entry(Liveness, Live), entry(Title, Text(p.title.value)), entry(Url, Link(p.url.value)),
      entry(Place, At(p.parent.value, p.position.value))]
    case Restore => [entry(Liveness, Live), entry(Title, Text(p.title.value)), entry(Url, Link(p.url.value)),
      entry(Place, At(p.parent.value, p.position.value))]
    case Update =>
      [entry(Liveness, Live)]
      + (if p.title.Some? then [entry(Title, Text(p.title.value))] else [])
      + (if p.url.Some? && p.url.value.Some? then [entry(Url, Link(p.url.value))] else [])
    case Move => [entry(Place, At(p.parent.value, p.position.value)), entry(Liveness, Live)]
    case Delete => [entry(Liveness, Deleted)]
  }

  function EntriesOf(ops: seq<Operation>): seq<Entry>
    requires forall op :: op in ops ==> Written(op)
  {
    if ops == [] then []
    else EntriesOf(ops[..|ops| - 1]) + RemoteFieldResolutions(ops[|ops| - 1])
  }

  lemma {:induction false} EntriesAre(ops: seq<Operation>)
    requires forall op :: op in ops ==> Written(op)
    ensures forall e :: e in EntriesOf(ops) <==> exists op :: op in ops && e in RemoteFieldResolutions(op)
  {
    if ops != [] {
      EntriesAre(ops[..|ops| - 1]);
      assert ops == ops[..|ops| - 1] + [ops[|ops| - 1]];
    }
  }

  /** Resolving a page in slices is resolving it at once. */
  lemma {:induction false} SlicesCompose(store: Store, a: seq<Operation>, b: seq<Operation>)
    requires forall op :: op in a + b ==> Written(op)
    ensures forall op :: op in a || op in b ==> Written(op)
    ensures ResolveAll(store, EntriesOf(a + b)) == ResolveAll(ResolveAll(store, EntriesOf(a)), EntriesOf(b))
  {
    forall op | op in a || op in b ensures Written(op) { assert op in a + b; }
    if b == [] {
      assert a + b == a;
    } else {
      var rest, last := b[..|b| - 1], b[|b| - 1];
      forall op | op in a + rest ensures Written(op) {}
      SlicesCompose(store, a, rest);
      assert (a + b)[..|a + b| - 1] == a + rest && (a + b)[|a + b| - 1] == last;
      BatchesCompose(store, EntriesOf(a + rest), RemoteFieldResolutions(last));
      BatchesCompose(ResolveAll(store, EntriesOf(a)), EntriesOf(rest), RemoteFieldResolutions(last));
    }
  }

  // --- The server ---

  /** The last payload that has something, -1 if none does. */
  function LastWith(payloads: seq<Payload>, has: Payload -> bool): (i: int)
    ensures -1 <= i < |payloads|
    ensures i >= 0 ==> has(payloads[i])
    ensures forall j :: i < j < |payloads| ==> !has(payloads[j])
  {
    if payloads == [] then -1
    else if has(payloads[|payloads| - 1]) then |payloads| - 1
    else LastWith(payloads[..|payloads| - 1], has)
  }

  const hasTitle := (p: Payload) => p.HasTitle()
  const hasUrl := (p: Payload) => p.HasUrl()
  const hasPlace := (p: Payload) => p.HasPlace()

  function Merged(payloads: seq<Payload>): Option<Payload>
  {
    var t, u, m := LastWith(payloads, hasTitle), LastWith(payloads, hasUrl), LastWith(payloads, hasPlace);
    if t < 0 || m < 0 then None
    else Some(Payload(payloads[t].title, if u < 0 then Some(None) else payloads[u].url,
                      payloads[m].parent, payloads[m].position, payloads[|payloads| - 1].other))
  }

  /** Merges a history sorted by key, oldest first, into its current state. */
  method MergeBookmarkFields(payloads: seq<Payload>) returns (merged: Option<Payload>)
    ensures merged == Merged(payloads)
  {
    var title: Option<string> := None;
    var url: Option<Option<string>> := None;
    var mv: Option<(Option<string>, string)> := None;
    for i := 0 to |payloads|
      invariant var t := LastWith(payloads[..i], hasTitle); title == if t < 0 then None else payloads[t].title
      invariant var u := LastWith(payloads[..i], hasUrl); url == if u < 0 then None else payloads[u].url
      invariant var m := LastWith(payloads[..i], hasPlace);
        mv == if m < 0 then None else Some((payloads[m].parent.value, payloads[m].position.value))
    {
      var p := payloads[i];
      assert payloads[..i + 1][..i] == payloads[..i];
      if p.title.Some? { title := p.title; }
      if p.url.Some? { url := p.url; }
      if p.parent.Some? && p.position.Some? { mv := Some((p.parent.value, p.position.value)); }
    }
    assert payloads[..|payloads|] == payloads;
    if title.None? || mv.None? { return None; }
    return Some(payloads[|payloads| - 1].(title := title, url := if url.Some? then url else Some(None),
                                          parent := Some(mv.value.0), position := Some(mv.value.1)));
  }

  // --- They agree ---

  ghost predicate Ascending(history: seq<Operation>)
  {
    forall i, j :: 0 <= i < j < |history| ==> Above(history[j].key, history[i].key)
  }

  function Payloads(history: seq<Operation>): (p: seq<Payload>)
    ensures |p| == |history| && forall i :: 0 <= i < |p| ==> p[i] == history[i].payload
  {
    seq(|history|, i requires 0 <= i < |history| => history[i].payload)
  }

  predicate Sets(f: Field, p: Payload)
  {
    match f
    case Title => p.HasTitle()
    case Url => p.HasUrl()
    case Place => p.HasPlace()
    case Liveness => true
  }

  function ValueIn(f: Field, p: Payload): Value
    requires Sets(f, p)
  {
    match f
    case Title => Text(p.title.value)
    case Url => Link(p.url.value)
    case Place => At(p.parent.value, p.position.value)
    case Liveness => Live
  }

  lemma EntryFor(op: Operation, f: Field)
    requires Written(op) && f != Liveness
    ensures forall e :: e in RemoteFieldResolutions(op) && e.slot.field == f ==>
              Sets(f, op.payload)
                && e == Entry(Slot(op.objectId, f), Incoming(op.key, op.operationType, ValueIn(f, op.payload)))
    ensures Sets(f, op.payload) ==>
      Entry(Slot(op.objectId, f),
      Incoming(op.key, op.operationType, ValueIn(f, op.payload))) in RemoteFieldResolutions(op)
  {
  }

  ghost predicate LastToSet(history: seq<Operation>, f: Field, i: int)
  {
    -1 <= i < |history| && (i >= 0 ==> Sets(f, history[i].payload)) && forall j :: i < j < |history| ==>
      !Sets(f, history[j].payload)
  }

  ghost predicate Delivered(history: seq<Operation>, wire: seq<Operation>, objectId: string)
  {
    && (forall op :: op in history ==> Written(op) && op.objectId == objectId)
    && (forall op :: op in wire <==> op in history)
  }

  /** Whatever is recorded for the field was set by some operation of the history,
      none later than the last to set it. */
  lemma RecordedBySome(history: seq<Operation>, wire: seq<Operation>, objectId: string, f: Field, i: int, e: Entry)
      returns (k: nat)
    requires Delivered(history, wire, objectId) && LastToSet(history, f, i) && f != Liveness
    requires e in EntriesOf(wire) && e.slot == Slot(objectId, f)
    ensures k <= i && Sets(f, history[k].payload)
    ensures e == Entry(Slot(objectId, f),
      Incoming(history[k].key, history[k].operationType, ValueIn(f, history[k].payload)))
  {
    EntriesAre(wire);
    var op :| op in wire && e in RemoteFieldResolutions(op);
    assert op in history;
    EntryFor(op, f);
    k :| 0 <= k < |history| && history[k] == op;
  }

  lemma LastIsRecorded(store: Store, history: seq<Operation>, wire: seq<Operation>, objectId: string, f: Field, i: nat)
    requires Delivered(history, wire, objectId) && RecordsGreatest(store, set e | e in EntriesOf(wire))
    requires LastToSet(history, f, i) && f != Liveness
    ensures Slot(objectId, f) in store && !Above(history[i].key, store[Slot(objectId, f)].key)
  {
    var e := Entry(Slot(objectId, f),
      Incoming(history[i].key, history[i].operationType, ValueIn(f, history[i].payload)));
    assert history[i] in wire && history[i].objectId == objectId;
    EntryFor(history[i], f);
    EntriesAre(wire);
    assert e in EntriesOf(wire);
  }

  /** The client's record of a field is the last one of the sorted history to set
      it, however the operations were delivered. */
  lemma RecordIsLast(history: seq<Operation>, wire: seq<Operation>, objectId: string, f: Field, i: int)
    requires Ascending(history) && Delivered(history, wire, objectId) && f != Liveness && LastToSet(history, f, i)
    ensures var r := Recorded(ResolveAll(map[], EntriesOf(wire)), Slot(objectId, f));
      if i < 0 then r.None?
      else r.Some? && r.value.key == history[i].key && r.value.value == ValueIn(f, history[i].payload)
  {
    hide EntriesOf, ResolveAll, Sets, ValueIn, Above;
    var entries := EntriesOf(wire);
    var store := ResolveAll(map[], entries);
    ResolveAllKeepsGreatest(map[], {}, entries);
    assert {} + (set e | e in entries) == (set e | e in entries);
    var s := Slot(objectId, f);
    if i >= 0 { LastIsRecorded(store, history, wire, objectId, f, i); }
    if s in store {
      assert Entry(s, store[s]) in entries;
      var k := RecordedBySome(history, wire, objectId, f, i, Entry(s, store[s]));
    }
  }

  /** A bookmark's title, URL and place on a client, whatever the order, slices
      and repetitions of delivery, are those the server merges from the history
      sorted by key. */
  lemma ClientAgreesWithServer(history: seq<Operation>, wire: seq<Operation>, objectId: string)
    requires Ascending(history)
    requires forall op :: op in history ==> Written(op) && op.objectId == objectId
    requires forall op :: op in wire <==> op in history
    ensures
      var store, merged := ResolveAll(map[], EntriesOf(wire)), Merged(Payloads(history));
      var title, url, place := Recorded(store, Slot(objectId, Title)), Recorded(store, Slot(objectId, Url)),
        Recorded(store, Slot(objectId, Place));
      && (merged.Some? <==> title.Some? && place.Some?)
      && (merged.Some? ==>
            && title.value.value == Text(merged.value.title.value)
            && place.value.value == At(merged.value.parent.value, merged.value.position.value)
            && Link(merged.value.url.value) == (if url.Some? then url.value.value else Link(None)))
  {
    hide ResolveAll, EntriesOf;
    var p := Payloads(history);
    var t, u, m := LastWith(p, hasTitle), LastWith(p, hasUrl), LastWith(p, hasPlace);
    RecordIsLast(history, wire, objectId, Title, t);
    RecordIsLast(history, wire, objectId, Url, u);
    RecordIsLast(history, wire, objectId, Place, m);
  }
}
