// The replication protocol: devices that edit, upload and download over one
// server log, and what each of them records.
module Replication {
  import opened Wrappers
  import opened Keys
  import opened Conflict
  import opened ServerMerge

  // `known` and `dropped` are bookkeeping of the model: the operations a device
  // created or resolved, and those of its own that left the queue unaccepted.
  // `readable`: what it has the keys to decrypt.
  datatype Device = Device(
    lamportClock: nat, deviceSequence: nat, cursor: nat, store: Store,
    pending: seq<Operation>, applied: set<Operation>,
    known: set<Operation>, dropped: set<Operation>, readable: Operation -> bool)

  datatype System = System(devices: map<string, Device>, log: seq<Operation>)

  // A local change before it gets its place in the order.
  datatype Draft = Draft(operationId: string, objectId: string, operationType: OperationType, payload: Payload)

  function Issue(d: string, lamport: nat, draft: Draft): Operation
  {
    Operation(OrderingKey(lamport, d, draft.operationId), draft.objectId, draft.operationType, draft.payload)
  }

  /** The field state a device records for its own operation: what others will
      resolve, but no liveness for an update or a move. */
  function LocalEntries(op: Operation): (r: seq<Entry>)
    requires Written(op)
    ensures forall e :: e in r ==> e in RemoteFieldResolutions(op)
    ensures forall e :: e in RemoteFieldResolutions(op) && e.slot.field != Liveness ==> e in r
  {
    match op.operationType
    case Update => RemoteFieldResolutions(op)[1..]
    case Move => RemoteFieldResolutions(op)[..1]
    case _ => RemoteFieldResolutions(op)
  }

  /** Recording is unconditional: no arbitration against what is there. */
  function PutAll(store: Store, entries: seq<Entry>): Store
  {
    if entries == [] then store
    else PutAll(store, entries[..|entries| - 1])[entries[|entries| - 1].slot := entries[|entries| - 1].incoming]
  }

  function TickLamportClock(clock: nat, observed: nat): nat
  {
    (if clock >= observed then clock else observed) + 1
  }

  function NewestReceived(page: seq<Operation>): (m: nat)
    ensures forall op :: op in page ==> op.key.lamportTimestamp <= m
  {
    if page == [] then 0
    else
      assert page == page[..|page| - 1] + [page[|page| - 1]];
      var m, l := NewestReceived(page[..|page| - 1]), page[|page| - 1].key.lamportTimestamp;
      if m >= l then m else l
  }

  predicate AllWritten(id: string, drafts: seq<Draft>)
  {
    forall d :: d in drafts ==> Written(Issue(id, 0, d))
  }

  /** Creates operations for changes already made: sequence and Lamport values
      are reserved together, one per change, and the field state recorded. */
  function EditDevice(id: string, dev: Device, drafts: seq<Draft>): Device
    requires AllWritten(id, drafts)
  {
    if drafts == [] then dev
    else
      var before := EditDevice(id, dev, drafts[..|drafts| - 1]);
      var op := Issue(id, before.lamportClock + 1, drafts[|drafts| - 1]);
      assert drafts[|drafts| - 1] in drafts && Written(Issue(id, 0, drafts[|drafts| - 1]));
      before.(lamportClock := before.lamportClock + 1, deviceSequence := before.deviceSequence + 1,
              store := PutAll(before.store, LocalEntries(op)),
              pending := before.pending + [op], known := before.known + {op})
  }

  function Dequeued(pending: seq<Operation>, op: Operation): (r: seq<Operation>)
    ensures forall x :: x in r <==> x in pending && x != op
  {
    if pending == [] then []
    else
      assert pending == pending[..|pending| - 1] + [pending[|pending| - 1]];
      Dequeued(pending[..|pending| - 1], op) + if pending[|pending| - 1] == op then [] else [pending[|pending| - 1]]
  }

  datatype Step =
    // Local changes, captured in one flush.
    | Edit(drafts: seq<Draft>)
    // A restore the server does not know the object of, sent again as a create.
    | Reissue(lost: Operation, operationId: string)
    // An upload; the acknowledgement may be lost, and the operation sent again.
    | Upload(op: Operation, acknowledged: bool)
    // An operation dropped after a rejection.
    | Drop(op: Operation)
    // A page up to `upto`; `delivered` is what was resolved, in order. What cannot be
    // read is passed over for good.
    | Download(upto: nat, delivered: seq<Operation>)
    // A page cut short: some of it resolved, maybe marked, the cursor unmoved.
    | Interrupt(upto: nat, delivered: seq<Operation>, marked: set<Operation>)

  ghost predicate Enabled(s: System, id: string, step: Step)
  {
    && id in s.devices
    && var dev := s.devices[id];
    match step
    case Edit(drafts) => AllWritten(id, drafts)
    case Reissue(lost, _) => lost in dev.pending && lost !in s.log && lost.operationType == Restore
    case Upload(op, _) => op in dev.pending
    case Drop(op) => op in dev.pending
    case Download(upto, delivered) =>
      && dev.cursor <= upto <= |s.log|
      && (forall op :: op in delivered ==> op in s.log[dev.cursor..upto])
      && (forall op :: op in s.log[dev.cursor..upto] && op !in dev.applied && dev.readable(op) ==> op in delivered)
      && (forall op :: op in delivered ==> Written(op))
    case Interrupt(upto, delivered, marked) =>
      && dev.cursor <= upto <= |s.log|
      && (forall op :: op in delivered ==> op in s.log[dev.cursor..upto])
      && (forall op :: op in marked ==> op in s.log[dev.cursor..upto] && (op in delivered || !dev.readable(op)))
      && (forall op :: op in delivered ==> Written(op))
  }

  ghost function Receive(dev: Device, page: seq<Operation>, delivered: seq<Operation>): Device
    requires forall op :: op in delivered ==> Written(op)
  {
    dev.(lamportClock := if page == [] then dev.lamportClock
      else TickLamportClock(dev.lamportClock, NewestReceived(page)),
         store := ResolveAll(dev.store, EntriesOf(delivered)),
         known := dev.known + (set op | op in delivered))
  }

  ghost function Next(s: System, id: string, step: Step): System
    requires Enabled(s, id, step)
    requires step.Reissue? ==> Written(step.lost)
  {
    var dev := s.devices[id];
    match step
    case Edit(drafts) =>
      s.(devices := s.devices[id := EditDevice(id, dev, drafts)])
    case Reissue(lost, operationId) =>
      var again := EditDevice(id, dev, [Draft(operationId, lost.objectId, Create, lost.payload)]);
      s.(devices := s.devices[id := again.(pending := Dequeued(again.pending, lost), known := again.known - {lost})])
    case Upload(op, acknowledged) =>
      s.(devices := s.devices[id := dev.(pending := if acknowledged then Dequeued(dev.pending, op) else dev.pending)],
         log := if op in s.log then s.log else s.log + [op])
    case Drop(op) =>
      s.(devices := s.devices[id := dev.(pending := Dequeued(dev.pending, op), dropped := dev.dropped + {op})])
    case Download(upto, delivered) =>
      var page := s.log[dev.cursor..upto];
      s.(devices := s.devices[id := Receive(dev, page, delivered).(cursor := upto,
        applied := dev.applied + (set op | op in page))])
    case Interrupt(upto, delivered, marked) =>
      var page := s.log[dev.cursor..upto];
      s.(devices := s.devices[id := Receive(dev, page, delivered).(applied := dev.applied + marked)])
  }

  // --- What every step keeps ---

  ghost function EntriesIn(ops: set<Operation>): set<Entry>
  {
    set op, e | op in ops && Written(op) && e in RemoteFieldResolutions(op) :: e
  }

  /** A device's own view. */
  ghost predicate DeviceOk(id: string, dev: Device)
  {
    && RecordsGreatest(dev.store, EntriesIn(dev.known))
    && (forall op :: op in dev.known ==> Written(op) && op.key.lamportTimestamp <= dev.lamportClock)
    && (forall op :: op in dev.pending ==> op in dev.known && op.key.deviceId == id)
    && (forall op :: op in dev.applied && dev.readable(op) ==> op in dev.known)
    && (forall a, b :: a in dev.known && b in dev.known && a.key.deviceId == b.key.deviceId == id
                       && a.key.lamportTimestamp == b.key.lamportTimestamp
          ==> a == b)
  }

  /** A device against the log. */
  ghost predicate InLog(id: string, dev: Device, log: seq<Operation>)
  {
    && dev.cursor <= |log|
    && (forall op :: op in log[..dev.cursor] && dev.readable(op) ==> op in dev.known)
    && (forall op :: op in dev.known && op.key.deviceId != id ==> op in log)
    && (forall op :: op in dev.known && op.key.deviceId == id ==> op in log || op in dev.pending || op in dev.dropped)
    && (forall op :: op in log && op.key.deviceId == id ==> op in dev.known)
    && (forall op :: op in dev.applied ==> op in log)
  }

  ghost predicate Inv(s: System)
  {
    && (forall id :: id in s.devices ==> DeviceOk(id, s.devices[id]) && InLog(id, s.devices[id], s.log))
    && (forall op :: op in s.log ==> Written(op) && op.key.deviceId in s.devices)
  }

  lemma {:induction false} PutKeepsGreatest(store: Store, entries: set<Entry>, added: seq<Entry>, key: OrderingKey)
    requires RecordsGreatest(store, entries)
    requires forall e :: e in added ==> e.incoming.key == key
    requires forall e :: e in entries ==> Above(key, e.incoming.key)
    ensures RecordsGreatest(PutAll(store, added), entries + set e | e in added)
  {
    if added == [] {
      assert entries + (set e | e in added) == entries;
    } else {
      var rest, last := added[..|added| - 1], added[|added| - 1];
      PutKeepsGreatest(store, entries, rest, key);
      assert added == rest + [last];
      AboveTotal(key, key);
      forall e | e in entries ensures !Above(e.incoming.key, key) { AboveTotal(e.incoming.key, key); }
    }
  }

  lemma RecordsFieldsOnly(store: Store, a: set<Entry>, b: set<Entry>)
    requires RecordsGreatest(store, a)
    requires forall e: Entry :: e.slot.field != Liveness ==> (e in a <==> e in b)
    ensures RecordsGreatest(store, b)
  {
  }

  /** A device's clock is past everything it knows, so overwriting its records
      with its own new operation is what arbitration would have done. */
  lemma NewestWins(id: string, dev: Device, op: Operation)
    requires DeviceOk(id, dev) && Written(op) && op.key.lamportTimestamp > dev.lamportClock
    ensures RecordsGreatest(PutAll(dev.store, LocalEntries(op)), EntriesIn(dev.known + {op}))
  {
    var before, added := EntriesIn(dev.known), LocalEntries(op);
    NewestIsAbove(id, dev, op);
    hide DeviceOk, Written, RecordsGreatest, Above;
    PutKeepsGreatest(dev.store, before, added, op.key);
    EntriesInOneMore(dev.known, op);
    RecordsFieldsOnly(PutAll(dev.store, added), before + (set e | e in added), EntriesIn(dev.known + {op}));
  }

  lemma NewestIsAbove(id: string, dev: Device, op: Operation)
    requires DeviceOk(id, dev) && Written(op) && op.key.lamportTimestamp > dev.lamportClock
    ensures forall e :: e in RemoteFieldResolutions(op) ==> e.incoming.key == op.key
    ensures forall e :: e in EntriesIn(dev.known) ==> Above(op.key, e.incoming.key)
  {
    forall e | e in EntriesIn(dev.known) ensures Above(op.key, e.incoming.key) {
      var x :| x in dev.known && Written(x) && e in RemoteFieldResolutions(x);
    }
  }

  lemma EntriesInOneMore(known: set<Operation>, op: Operation)
    requires Written(op)
    ensures forall e: Entry :: e in EntriesIn(known + {op}) <==>
      e in EntriesIn(known) || e in RemoteFieldResolutions(op)
  {
    hide Written, RemoteFieldResolutions;
    assert op in known + {op};
  }

  lemma OneEditKeeps(id: string, dev: Device, op: Operation)
    requires DeviceOk(id, dev) && Written(op)
    requires op.key.deviceId == id && op.key.lamportTimestamp == dev.lamportClock + 1
    ensures DeviceOk(id, dev.(lamportClock := dev.lamportClock + 1, deviceSequence := dev.deviceSequence + 1,
                              store := PutAll(dev.store, LocalEntries(op)), pending := dev.pending + [op],
                                known := dev.known + {op}))
  {
    NewestWins(id, dev, op);
  }

  /** A device after `n` edits of its own: it forgot nothing, and what is new is
      its own, queued, and later than everything known before. */
  ghost predicate Edited(id: string, dev: Device, after: Device, n: nat)
  {
    && after.cursor == dev.cursor && after.applied == dev.applied && after.dropped == dev.dropped
      && after.readable == dev.readable
    && dev.known <= after.known && dev.pending <= after.pending
    && (forall op :: op in after.known && op !in dev.known ==>
      op.key.deviceId == id && op in after.pending && op.key.lamportTimestamp > dev.lamportClock)
    && after.lamportClock == dev.lamportClock + n && after.deviceSequence == dev.deviceSequence + n
  }

  lemma EditedOneMore(id: string, dev: Device, before: Device, after: Device, n: nat, op: Operation)
    requires Edited(id, dev, before, n) && op.key.deviceId == id && op.key.lamportTimestamp == before.lamportClock + 1
    requires after == before.(lamportClock := before.lamportClock + 1, deviceSequence := before.deviceSequence + 1,
                              store := after.store, pending := before.pending + [op], known := before.known + {op})
    ensures Edited(id, dev, after, n + 1)
  {
    assert op in after.pending;
  }

  lemma WrittenAnyTime(id: string, lamport: nat, draft: Draft)
    ensures Written(Issue(id, lamport, draft)) <==> Written(Issue(id, 0, draft))
  {
  }

  lemma EditsKeep(id: string, dev: Device, rest: seq<Draft>, last: Draft)
    requires Written(Issue(id, 0, last)) && AllWritten(id, rest + [last]) && AllWritten(id, rest)
    requires DeviceOk(id, EditDevice(id, dev, rest)) && Edited(id, dev, EditDevice(id, dev, rest), |rest|)
    ensures DeviceOk(id, EditDevice(id, dev, rest + [last]))
    ensures Edited(id, dev, EditDevice(id, dev, rest + [last]), |rest| + 1)
  {
    hide DeviceOk, Edited, PutAll, LocalEntries, Written, RemoteFieldResolutions;
    var before := EditDevice(id, dev, rest);
    var op := Issue(id, before.lamportClock + 1, last);
    WrittenAnyTime(id, before.lamportClock + 1, last);
    OneEditKeeps(id, before, op);
    assert (rest + [last])[..|rest|] == rest;
    EditedOneMore(id, dev, before, EditDevice(id, dev, rest + [last]), |rest|, op);
  }

  lemma NoEdits(id: string, dev: Device)
    ensures Edited(id, dev, dev, 0)
  {
  }

  lemma {:induction false} EditKeeps(id: string, dev: Device, drafts: seq<Draft>)
    requires DeviceOk(id, dev) && AllWritten(id, drafts)
    ensures DeviceOk(id, EditDevice(id, dev, drafts))
    ensures Edited(id, dev, EditDevice(id, dev, drafts), |drafts|)
  {
    hide DeviceOk, Edited, Written;
    if drafts == [] {
      NoEdits(id, dev);
    } else {
      var rest, last := drafts[..|drafts| - 1], drafts[|drafts| - 1];
      assert last in drafts && AllWritten(id, rest) && Written(Issue(id, 0, last));
      hide AllWritten;
      EditKeeps(id, dev, rest);
      assert drafts == rest + [last];
      EditsKeep(id, dev, rest, last);
    }
  }

  lemma EntriesOfSet(ops: seq<Operation>)
    requires forall op :: op in ops ==> Written(op)
    ensures (set e | e in EntriesOf(ops)) == EntriesIn(set op | op in ops)
  {
    EntriesAre(ops);
  }

  lemma EntriesInUnion(a: set<Operation>, b: set<Operation>)
    ensures EntriesIn(a + b) == EntriesIn(a) + EntriesIn(b)
  {
  }

  /** Receiving operations: the clock moves past the page before anything is
      resolved, and resolving keeps the greatest. */
  lemma ReceiveKeeps(id: string, dev: Device, page: seq<Operation>, delivered: seq<Operation>)
    requires DeviceOk(id, dev)
    requires forall op :: op in delivered ==> op in page && Written(op)
    requires forall op :: op in page && op.key.deviceId == id ==> op in dev.known
    ensures DeviceOk(id, Receive(dev, page, delivered))
  {
    var got := set op | op in delivered;
    ResolveAllKeepsGreatest(dev.store, EntriesIn(dev.known), EntriesOf(delivered));
    EntriesOfSet(delivered);
    EntriesInUnion(dev.known, got);
  }

  lemma DeviceReplaced(s: System, id: string, dev: Device)
    requires Inv(s) && id in s.devices && DeviceOk(id, dev) && InLog(id, dev, s.log)
    ensures Inv(s.(devices := s.devices[id := dev]))
  {
  }

  lemma EditStepKeeps(s: System, id: string, drafts: seq<Draft>)
    requires Inv(s) && Enabled(s, id, Edit(drafts))
    ensures Inv(Next(s, id, Edit(drafts)))
  {
    EditKeeps(id, s.devices[id], drafts);
    var after := EditDevice(id, s.devices[id], drafts);
    forall op | op in s.devices[id].pending ensures op in after.pending {
      var k :| 0 <= k < |s.devices[id].pending| && s.devices[id].pending[k] == op;
      assert after.pending[k] == op;
    }
  }

  lemma LostReplaced(id: string, dev: Device, log: seq<Operation>, lost: Operation, op: Operation)
    requires DeviceOk(id, dev) && InLog(id, dev, log)
    requires lost in dev.pending && lost !in log && op in dev.known
    requires op.key.lamportTimestamp > lost.key.lamportTimestamp
    requires lost.operationType == Restore && op.operationType == Create && lost.objectId == op.objectId
    requires lost.payload == op.payload
    ensures DeviceOk(id, dev.(pending := Dequeued(dev.pending, lost), known := dev.known - {lost}))
    ensures InLog(id, dev.(pending := Dequeued(dev.pending, lost), known := dev.known - {lost}), log)
  {
    CoveredFields(dev.store, dev.known, lost, op);
  }

  lemma EditOne(id: string, dev: Device, draft: Draft)
    requires Written(Issue(id, 0, draft))
    ensures var op := Issue(id, dev.lamportClock + 1, draft); var after := EditDevice(id, dev, [draft]);
      after.known == dev.known + {op} && after.pending == dev.pending + [op]
  {
    assert [draft][..0] == [] && EditDevice(id, dev, []) == dev;
  }

  /** A re-sent restore covers the same four fields with a later key, so its
      rejected original decides nothing any more. */
  lemma ReissueStepKeeps(s: System, id: string, lost: Operation, operationId: string)
    requires Inv(s) && Enabled(s, id, Reissue(lost, operationId)) && Written(lost)
    ensures Inv(Next(s, id, Reissue(lost, operationId)))
  {
    var dev := s.devices[id];
    var draft := Draft(operationId, lost.objectId, Create, lost.payload);
    assert Written(Issue(id, 0, draft));
    EditStepKeeps(s, id, [draft]);
    EditOne(id, dev, draft);
    var again := EditDevice(id, dev, [draft]);
    assert Next(s, id, Edit([draft])).devices[id] == again;
    assert DeviceOk(id, again) && InLog(id, again, s.log);
    LostReplaced(id, again, s.log, lost, Issue(id, dev.lamportClock + 1, draft));
    DeviceReplaced(s, id, again.(pending := Dequeued(again.pending, lost), known := again.known - {lost}));
  }

  lemma CoveredFields(store: Store, known: set<Operation>, lost: Operation, op: Operation)
    requires Written(lost) && Written(op) && op in known && op != lost
    requires lost.operationType == Restore && op.operationType == Create && lost.objectId == op.objectId
    requires lost.payload == op.payload
    requires op.key.lamportTimestamp > lost.key.lamportTimestamp
    requires RecordsGreatest(store, EntriesIn(known))
    ensures RecordsGreatest(store, EntriesIn(known - {lost}))
  {
    forall s | s in store && s.field != Liveness ensures Entry(s, store[s]) in EntriesIn(known - {lost}) {
      var x :| x in known && Written(x) && Entry(s, store[s]) in RemoteFieldResolutions(x);
      assert x != lost by { NotCovered(store, known, lost, op, s); }
    }
  }

  lemma NotCovered(store: Store, known: set<Operation>, lost: Operation, op: Operation, s: Slot)
    requires Written(lost) && Written(op) && op in known
    requires lost.operationType == Restore && op.operationType == Create && lost.objectId == op.objectId
    requires lost.payload == op.payload
    requires op.key.lamportTimestamp > lost.key.lamportTimestamp
    requires RecordsGreatest(store, EntriesIn(known)) && s in store && s.field != Liveness
    ensures Entry(s, store[s]) !in RemoteFieldResolutions(lost)
  {
    if Entry(s, store[s]) in RemoteFieldResolutions(lost) {
      LaterEntry(known, lost, op, Entry(s, store[s]));
    }
  }

  lemma LaterEntry(known: set<Operation>, lost: Operation, op: Operation, e: Entry)
    requires Written(lost) && Written(op) && op in known
    requires lost.operationType == Restore && op.operationType == Create && lost.objectId == op.objectId
    requires lost.payload == op.payload
    requires op.key.lamportTimestamp > lost.key.lamportTimestamp && e in RemoteFieldResolutions(lost)
    ensures exists d :: d in EntriesIn(known) && d.slot == e.slot && Above(d.incoming.key, e.incoming.key)
  {
    var d := Entry(e.slot, Incoming(op.key, Create, e.incoming.value));
    assert d in RemoteFieldResolutions(op);
  }

  /** The log grows at its end; devices other than the sender are as they were. */
  lemma LogGrows(id: string, dev: Device, log: seq<Operation>, op: Operation, rest: seq<Operation>)
    requires InLog(id, dev, log) && (op.key.deviceId == id ==> op in dev.known)
    requires forall x :: x in dev.pending ==> x in rest || x == op
    requires forall x :: x in rest ==> x in dev.pending
    ensures InLog(id, dev.(pending := rest), if op in log then log else log + [op])
  {
    var log' := if op in log then log else log + [op];
    assert log'[..dev.cursor] == log[..dev.cursor];
    assert forall x :: x in log' <==> x in log || x == op;
  }

  /** Any device after an upload, whether its own or another's. */
  lemma DeviceAfterUpload(s: System, id: string, op: Operation, acknowledged: bool, d: string)
    requires Inv(s) && Enabled(s, id, Upload(op, acknowledged)) && d in s.devices
    ensures var t := Next(s, id, Upload(op, acknowledged));
      d in t.devices && DeviceOk(d, t.devices[d]) && InLog(d, t.devices[d], t.log)
  {
    var t := Next(s, id, Upload(op, acknowledged));
    var dev := s.devices[d];
    assert DeviceOk(d, dev) && InLog(d, dev, s.log) && DeviceOk(id, s.devices[id]);
    if d == id {
      UploaderOk(id, dev, op, acknowledged);
    } else {
      assert t.devices[d] == dev.(pending := dev.pending);
    }
    LogGrows(d, dev, s.log, op, t.devices[d].pending);
  }

  lemma LogAfterUpload(s: System, id: string, op: Operation, acknowledged: bool)
    requires Inv(s) && Enabled(s, id, Upload(op, acknowledged))
    ensures var t := Next(s, id, Upload(op, acknowledged));
            t.devices.Keys == s.devices.Keys && forall x :: x in t.log ==> Written(x) && x.key.deviceId in t.devices
  {
    assert DeviceOk(id, s.devices[id]);
    hide InLog, DeviceOk;
  }

  lemma UploadStepKeeps(s: System, id: string, op: Operation, acknowledged: bool)
    requires Inv(s) && Enabled(s, id, Upload(op, acknowledged))
    ensures Inv(Next(s, id, Upload(op, acknowledged)))
  {
    hide DeviceOk, InLog, Written, Next, Enabled;
    var t := Next(s, id, Upload(op, acknowledged));
    LogAfterUpload(s, id, op, acknowledged);
    forall d | d in t.devices ensures DeviceOk(d, t.devices[d]) && InLog(d, t.devices[d], t.log) {
      DeviceAfterUpload(s, id, op, acknowledged, d);
    }
  }

  lemma UploaderOk(id: string, dev: Device, op: Operation, acknowledged: bool)
    requires DeviceOk(id, dev)
    ensures DeviceOk(id, dev.(pending := if acknowledged then Dequeued(dev.pending, op) else dev.pending))
  {
  }

  lemma PageKnown(log: seq<Operation>, from: nat, upto: nat)
    requires from <= upto <= |log|
    ensures forall op :: op in log[..upto] <==> op in log[..from] || op in log[from..upto]
    ensures forall op :: op in log[from..upto] ==> op in log
  {
    assert log[..upto] == log[..from] + log[from..upto];
  }

  /** A device that received part of the log past its cursor still agrees with
      the log, wherever its cursor then stands, if it knows everything below that it
      reads. */
  lemma ReceiveInLog(id: string, dev: Device, log: seq<Operation>, page: seq<Operation>, delivered: seq<Operation>,
      cursor: nat, applied: set<Operation>)
    requires InLog(id, dev, log) && cursor <= |log|
    requires forall op :: op in delivered ==> op in log && Written(op)
    requires forall op :: op in log[..cursor] && dev.readable(op) ==> op in dev.known || op in delivered
    requires forall op :: op in applied ==> op in dev.applied || op in log
    ensures InLog(id, Receive(dev, page, delivered).(cursor := cursor, applied := applied), log)
  {
  }

  lemma DownloadStepKeeps(s: System, id: string, upto: nat, delivered: seq<Operation>)
    requires Inv(s) && Enabled(s, id, Download(upto, delivered))
    ensures Inv(Next(s, id, Download(upto, delivered)))
  {
    var dev := s.devices[id];
    PageKnown(s.log, dev.cursor, upto);
    ReceiveKeeps(id, dev, s.log[dev.cursor..upto], delivered);
    ReceiveInLog(id, dev, s.log, s.log[dev.cursor..upto], delivered, upto,
      dev.applied + set op | op in s.log[dev.cursor..upto]);
    DeviceReplaced(s, id,
      Receive(dev, s.log[dev.cursor..upto], delivered).(cursor := upto,
      applied := dev.applied + set op | op in s.log[dev.cursor..upto]));
  }

  lemma InterruptStepKeeps(s: System, id: string, upto: nat, delivered: seq<Operation>, marked: set<Operation>)
    requires Inv(s) && Enabled(s, id, Interrupt(upto, delivered, marked))
    ensures Inv(Next(s, id, Interrupt(upto, delivered, marked)))
  {
    var dev := s.devices[id];
    PageKnown(s.log, dev.cursor, upto);
    ReceiveKeeps(id, dev, s.log[dev.cursor..upto], delivered);
    ReceiveInLog(id, dev, s.log, s.log[dev.cursor..upto], delivered, dev.cursor, dev.applied + marked);
    DeviceReplaced(s, id, Receive(dev, s.log[dev.cursor..upto], delivered).(applied := dev.applied + marked));
  }

  lemma PendingWritten(s: System, id: string, op: Operation)
    requires Inv(s) && id in s.devices && op in s.devices[id].pending
    ensures Written(op)
  {
    assert DeviceOk(id, s.devices[id]);
  }

  lemma DropStepKeeps(s: System, id: string, op: Operation)
    requires Inv(s) && Enabled(s, id, Drop(op))
    ensures Inv(Next(s, id, Drop(op)))
  {
    var dev := s.devices[id];
    assert DeviceOk(id, dev) && InLog(id, dev, s.log);
    DeviceReplaced(s, id, dev.(pending := Dequeued(dev.pending, op), dropped := dev.dropped + {op}));
  }

  lemma StepKeeps(s: System, id: string, step: Step)
    requires Inv(s) && Enabled(s, id, step)
    ensures step.Reissue? ==> Written(step.lost)
    ensures Inv(Next(s, id, step))
  {
    hide Inv, Next;
    match step
    case Edit(drafts) => EditStepKeeps(s, id, drafts);
    case Reissue(lost, operationId) =>
      PendingWritten(s, id, lost);
      ReissueStepKeeps(s, id, lost, operationId);
    case Upload(op, acknowledged) => UploadStepKeeps(s, id, op, acknowledged);
    case Drop(op) => DropStepKeeps(s, id, op);
    case Download(upto, delivered) => DownloadStepKeeps(s, id, upto, delivered);
    case Interrupt(upto, delivered, marked) => InterruptStepKeeps(s, id, upto, delivered, marked);
  }

  // --- Whole runs ---

  /** Devices with nothing yet. `readable`: what each can decrypt. */
  function Start(ids: set<string>, readable: string -> Operation -> bool): System
  {
    System(map id | id in ids :: Device(0, 0, 0, map[], [], {}, {}, {}, readable(id)), [])
  }

  /** A schedule: at each point some device takes some step. */
  ghost predicate IsRun(run: seq<System>, schedule: seq<(string, Step)>, ids: set<string>,
      readable: string -> Operation -> bool)
  {
    && |run| == |schedule| + 1 && run[0] == Start(ids, readable)
    && forall i :: 0 <= i < |schedule| ==>
         && Enabled(run[i], schedule[i].0, schedule[i].1)
         && (schedule[i].1.Reissue? ==> Written(schedule[i].1.lost))
         && run[i + 1] == Next(run[i], schedule[i].0, schedule[i].1)
  }

  lemma StartIsOk(ids: set<string>, readable: string -> Operation -> bool)
    ensures Inv(Start(ids, readable))
  {
    assert EntriesIn({}) == {};
  }

  lemma {:induction false} RunKeeps(run: seq<System>, schedule: seq<(string, Step)>, ids: set<string>,
      readable: string -> Operation -> bool, i: nat)
    requires IsRun(run, schedule, ids, readable) && i < |run|
    ensures Inv(run[i])
    decreases i
  {
    if i == 0 {
      StartIsOk(ids, readable);
    } else {
      RunKeeps(run, schedule, ids, readable, i - 1);
      var id, step := schedule[i - 1].0, schedule[i - 1].1;
      assert Enabled(run[i - 1], id, step);
      StepKeeps(run[i - 1], id, step);
      assert run[i] == Next(run[i - 1], id, step);
    }
  }

  /** Nothing left to send or fetch, and nothing was ever dropped. */
  predicate CaughtUp(dev: Device, log: seq<Operation>)
  {
    dev.cursor == |log| && dev.pending == [] && dev.dropped == {}
  }

  /** The device can decrypt everything the log holds about the object. */
  predicate ReadsAbout(dev: Device, log: seq<Operation>, objectId: string)
  {
    forall op :: op in log && op.objectId == objectId ==> dev.readable(op)
  }

  /** After any schedule of edits, uploads, re-sends and interrupted or repeated
      downloads, every record of a field other than liveness is the greatest
      operation among those the device created or resolved; so two devices that
      have caught up hold the same records of every object they can both read. */
  lemma Convergence(run: seq<System>, schedule: seq<(string, Step)>, ids: set<string>,
      readable: string -> Operation -> bool, i: nat)
    requires IsRun(run, schedule, ids, readable) && i < |run|
    ensures forall id :: id in run[i].devices ==>
      RecordsGreatest(run[i].devices[id].store, EntriesIn(run[i].devices[id].known))
    ensures forall a, b, s: Slot :: a in run[i].devices && b in run[i].devices && s.field != Liveness
              && CaughtUp(run[i].devices[a], run[i].log) && CaughtUp(run[i].devices[b], run[i].log)
              && ReadsAbout(run[i].devices[a], run[i].log, s.objectId)
                && ReadsAbout(run[i].devices[b], run[i].log, s.objectId)
              ==> Recorded(run[i].devices[a].store, s) == Recorded(run[i].devices[b].store, s)
  {
    RunKeeps(run, schedule, ids, readable, i);
    var sys := run[i];
    LogKeysIdentify(sys);
    forall a, b, s: Slot | a in sys.devices && b in sys.devices && s.field != Liveness
        && CaughtUp(sys.devices[a], sys.log) && CaughtUp(sys.devices[b], sys.log)
        && ReadsAbout(sys.devices[a], sys.log, s.objectId) && ReadsAbout(sys.devices[b], sys.log, s.objectId)
      ensures Recorded(sys.devices[a].store, s) == Recorded(sys.devices[b].store, s)
    {
      KnowsTheLog(sys, a, s.objectId);
      KnowsTheLog(sys, b, s.objectId);
      assert DeviceOk(a, sys.devices[a]) && DeviceOk(b, sys.devices[b]);
      hide DeviceOk, Inv, CaughtUp, ReadsAbout, RecordsGreatest, IsRun, KeysIdentify;
      SameAbout(sys.devices[a], sys.devices[b], (set op | op in sys.log), s);
    }
  }

  lemma KnowsTheLog(s: System, id: string, objectId: string)
    requires Inv(s) && id in s.devices && CaughtUp(s.devices[id], s.log) && ReadsAbout(s.devices[id], s.log, objectId)
    ensures forall op: Operation :: op.objectId == objectId ==> (op in s.devices[id].known <==> op in s.log)
  {
    assert s.log[..|s.log|] == s.log;
  }

  /** What is recorded in one slot depends on the operations about its object only. */
  lemma GreatestInSlot(store: Store, entries: set<Entry>, s: Slot)
    requires RecordsGreatest(store, entries)
    ensures RecordsGreatest(if s in store then map[s := store[s]] else map[], set e | e in entries && e.slot == s)
  {
  }

  lemma EntriesAbout(known: set<Operation>, log: set<Operation>, s: Slot)
    requires forall op: Operation :: op.objectId == s.objectId ==> (op in known <==> op in log)
    ensures (set e | e in EntriesIn(known) && e.slot == s) == set e | e in EntriesIn(log) && e.slot == s
  {
    forall e | e in EntriesIn(known) && e.slot == s ensures e in EntriesIn(log) {
      var op :| op in known && Written(op) && e in RemoteFieldResolutions(op);
      OneEntryPerSlot(op, e, e);
    }
    forall e | e in EntriesIn(log) && e.slot == s ensures e in EntriesIn(known) {
      var op :| op in log && Written(op) && e in RemoteFieldResolutions(op);
      OneEntryPerSlot(op, e, e);
    }
  }

  lemma SameAbout(a: Device, b: Device, log: set<Operation>, s: Slot)
    requires RecordsGreatest(a.store, EntriesIn(a.known)) && RecordsGreatest(b.store, EntriesIn(b.known))
    requires KeysIdentify(EntriesIn(log))
    requires s.field != Liveness
    requires forall op: Operation :: op.objectId == s.objectId ==>
      (op in a.known <==> op in log) && (op in b.known <==> op in log)
    ensures Recorded(a.store, s) == Recorded(b.store, s)
  {
    EntriesAbout(a.known, log, s);
    EntriesAbout(b.known, log, s);
    hide EntriesIn, RecordsGreatest;
    GreatestInSlot(a.store, EntriesIn(a.known), s);
    GreatestInSlot(b.store, EntriesIn(b.known), s);
    GreatestIsUnique(if s in a.store then map[s := a.store[s]] else map[], if s in b.store then map[s := b.store[s]]
      else map[],
                     (set e | e in EntriesIn(log) && e.slot == s), s);
  }

  lemma SameKeyInLog(s: System, x: Operation, y: Operation)
    requires Inv(s) && x in s.log && y in s.log && x.key == y.key
    ensures x == y
  {
    var d := x.key.deviceId;
    assert InLog(d, s.devices[d], s.log) && DeviceOk(d, s.devices[d]);
  }

  lemma OneEntryPerSlot(op: Operation, d: Entry, e: Entry)
    requires Written(op) && d in RemoteFieldResolutions(op) && e in RemoteFieldResolutions(op) && d.slot == e.slot
    ensures d == e && d.incoming.key == op.key && d.slot.objectId == op.objectId
  {
  }

  lemma LogKeysIdentify(s: System)
    requires Inv(s)
    ensures KeysIdentify(EntriesIn(set op | op in s.log))
  {
    var all := EntriesIn(set op | op in s.log);
    forall d, e | d in all && e in all && d.slot == e.slot && d.incoming.key == e.incoming.key ensures d == e {
      var x :| x in s.log && Written(x) && d in RemoteFieldResolutions(x);
      var y :| y in s.log && Written(y) && e in RemoteFieldResolutions(y);
      OneEntryPerSlot(x, d, d);
      OneEntryPerSlot(y, e, e);
      SameKeyInLog(s, x, y);
      OneEntryPerSlot(x, d, e);
    }
  }

  /** Every operation in the log has a place of its own in the order. */
  lemma NoTwoOperationsShareAKey(run: seq<System>, schedule: seq<(string, Step)>, ids: set<string>,
      readable: string -> Operation -> bool, i: nat, x: Operation, y: Operation)
    requires IsRun(run, schedule, ids, readable) && i < |run| && x in run[i].log && y in run[i].log
    requires CompareOrderingKey(x.key, y.key) == 0
    ensures x == y
  {
    RunKeeps(run, schedule, ids, readable, i);
    AboveTotal(x.key, y.key);
    SameKeyInLog(run[i], x, y);
  }
}
