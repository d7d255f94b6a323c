// The queue of local operations and one cycle of uploading it.
module UploadQueue {
  import opened Wrappers

  datatype OpKind = RestoreBookmark | CreateBookmark | OtherKind

  // `payload` is the decrypted payload; None if it cannot be decrypted.
  datatype LocalOperation = LocalOperation(id: nat, deviceSequence: nat, lamportTimestamp: nat, objectId: nat,
      kind: OpKind, payload: Option<nat>)

  datatype State = LocalQueued | UploadInFlight

  datatype Pending = Pending(op: LocalOperation, state: State, attempts: nat)

  datatype Verdict = Accepted | Duplicate | ObjectNotFound | Refused

  // What a request comes back with: nothing, or a verdict on operations.
  datatype Response = Failed | Judged(verdicts: map<nat, Verdict>)

  const MAX_UPLOAD_BATCH := 500
  const MAX_BATCHES_PER_CYCLE := 50
  const MAX_UPLOAD_ATTEMPTS := 20

  // --- The queue as a list in device-sequence order ---

  ghost predicate Sorted(rows: seq<Pending>)
  {
    forall i, j :: 0 <= i < j < |rows| ==>
      rows[i].op.deviceSequence < rows[j].op.deviceSequence && rows[i].op.id != rows[j].op.id
  }

  function Remaining(rows: seq<Pending>, ids: set<nat>): (r: seq<Pending>)
    ensures forall p :: p in r <==> p in rows && p.op.id !in ids
  {
    if rows == [] then []
    else
      assert rows == rows[..|rows| - 1] + [rows[|rows| - 1]];
      Remaining(rows[..|rows| - 1], ids) + if rows[|rows| - 1].op.id in ids then [] else [rows[|rows| - 1]]
  }

  lemma {:induction false} RemainingSorted(rows: seq<Pending>, ids: set<nat>)
    requires Sorted(rows)
    ensures Sorted(Remaining(rows, ids))
  {
    if rows != [] {
      var rest, last := rows[..|rows| - 1], rows[|rows| - 1];
      RemainingSorted(rest, ids);
      var w := Remaining(rest, ids);
      forall i | 0 <= i < |w| ensures w[i].op.deviceSequence < last.op.deviceSequence && w[i].op.id != last.op.id {
        assert w[i] in rest;
        var k :| 0 <= k < |rest| && rest[k] == w[i];
      }
    }
  }

  function Changed(p: Pending, ids: set<nat>, state: State, counted: bool): Pending
  {
    if p.op.id in ids then Pending(p.op, state, p.attempts + if counted then 1 else 0) else p
  }

  function Rewrite(rows: seq<Pending>, ids: set<nat>, state: State, counted: bool): (r: seq<Pending>)
    ensures |r| == |rows| && forall i :: 0 <= i < |rows| ==> r[i] == Changed(rows[i], ids, state, counted)
  {
    seq(|rows|, i requires 0 <= i < |rows| => Changed(rows[i], ids, state, counted))
  }

  predicate Due(p: Pending, exclude: set<nat>)
  {
    p.state == LocalQueued && p.op.id !in exclude
  }

  /** The first `limit` queued operations not excluded, in order. */
  function FirstDue(rows: seq<Pending>, limit: nat, exclude: set<nat>): seq<Pending>
  {
    if rows == [] || limit == 0 then []
    else if Due(rows[0], exclude) then [rows[0]] + FirstDue(rows[1..], limit - 1, exclude)
    else FirstDue(rows[1..], limit, exclude)
  }

  lemma SortedTail(rows: seq<Pending>)
    requires Sorted(rows) && rows != []
    ensures Sorted(rows[1..])
    ensures forall p :: p in rows[1..] ==> rows[0].op.deviceSequence < p.op.deviceSequence && rows[0].op.id != p.op.id
  {
  }

  lemma {:induction false} FirstDueMembers(rows: seq<Pending>, limit: nat, exclude: set<nat>)
    ensures |FirstDue(rows, limit, exclude)| <= limit
    ensures forall p :: p in FirstDue(rows, limit, exclude) ==> p in rows && Due(p, exclude)
  {
    if rows != [] && limit > 0 {
      FirstDueMembers(rows[1..], if Due(rows[0], exclude) then limit - 1 else limit, exclude);
    }
  }

  lemma {:induction false} FirstDueSorted(rows: seq<Pending>, limit: nat, exclude: set<nat>)
    requires Sorted(rows)
    ensures Sorted(FirstDue(rows, limit, exclude))
  {
    if rows != [] && limit > 0 {
      SortedTail(rows);
      var n := if Due(rows[0], exclude) then limit - 1 else limit;
      FirstDueSorted(rows[1..], n, exclude);
      FirstDueMembers(rows[1..], n, exclude);
      var d := FirstDue(rows[1..], n, exclude);
      forall i | 0 <= i < |d| ensures d[i] in rows[1..] { assert d[i] in d; }
    }
  }

  /** What is due and not taken comes after everything taken. */
  lemma {:induction false} FirstDueRest(rows: seq<Pending>, limit: nat, exclude: set<nat>, p: Pending)
    requires Sorted(rows) && p in rows && Due(p, exclude) && p !in FirstDue(rows, limit, exclude)
    ensures |FirstDue(rows, limit, exclude)| == limit
    ensures forall q :: q in FirstDue(rows, limit, exclude) ==> q.op.deviceSequence < p.op.deviceSequence
  {
    if limit > 0 {
      SortedTail(rows);
      FirstDueRest(rows[1..], if Due(rows[0], exclude) then limit - 1 else limit, exclude, p);
    }
  }

  // --- Scanning with a cap ---

  lemma FirstDueStep(rows: seq<Pending>, i: nat, limit: nat, exclude: set<nat>)
    requires i < |rows| && limit > 0
    ensures FirstDue(rows[i..], limit, exclude) ==
            if Due(rows[i], exclude) then [rows[i]] + FirstDue(rows[i + 1..], limit - 1, exclude)
              else FirstDue(rows[i + 1..], limit, exclude)
  {
    assert rows[i..][1..] == rows[i + 1..];
  }

  lemma FirstDueEnd(rows: seq<Pending>, limit: nat, exclude: set<nat>)
    ensures limit == 0 || rows == [] ==> FirstDue(rows, limit, exclude) == []
  {
  }

  /** Reads queued operations in order, skipping excluded ones, with a cap on how
      many rows it looks at. The cap never cuts a result short. */
  method GetPendingOperations(rows: seq<Pending>, limit: nat, exclude: set<nat>) returns (results: seq<Pending>)
    requires Sorted(rows)
    ensures results == FirstDue(rows, limit, exclude)
  {
    hide FirstDue;
    results := [];
    var maxScan := limit + |exclude| + 500;
    var scanned := 0;
    var i := 0;
    ghost var passed: set<nat> := {};
    assert rows[0..] == rows;
    while i < |rows| && |results| < limit && scanned < maxScan
      invariant i <= |rows| && |results| <= limit
      invariant scanned == |results| + |passed| && passed <= exclude
      invariant forall k :: i <= k < |rows| ==> rows[k].op.id !in passed
      invariant FirstDue(rows, limit, exclude) == results + FirstDue(rows[i..], limit - |results|, exclude)
      decreases |rows| - i
    {
      FirstDueStep(rows, i, limit - |results|, exclude);
      if rows[i].state == LocalQueued {
        scanned := scanned + 1;
        if rows[i].op.id !in exclude {
          results := results + [rows[i]];
        } else {
          passed := passed + {rows[i].op.id};
        }
      }
      i := i + 1;
    }
    SubsetSize(passed, exclude);
    FirstDueEnd(rows[i..], limit - |results|, exclude);
  }

  // --- What may have become of an operation ---

  function Ids(rows: seq<Pending>): (ids: set<nat>)
    ensures forall p :: p in rows ==> p.op.id in ids
  {
    set p | p in rows :: p.op.id
  }

  // What one cycle has seen so far: the device sequences sent, the verdicts
  // received, and the creates made out of rejected restores.
  datatype Trace = Trace(sent: seq<nat>, verdicts: set<(nat, Verdict)>, created: set<LocalOperation>)

  /** `c` does for a newer place in the order what the restore `op` was for. */
  predicate Replaces(c: LocalOperation, op: LocalOperation)
  {
    && c.kind == CreateBookmark && op.kind == RestoreBookmark
    && c.objectId == op.objectId && c.payload == op.payload
    && c.deviceSequence > op.deviceSequence && c.lamportTimestamp > op.lamportTimestamp
  }

  /** The reasons for an operation to leave the queue. */
  predicate Excused(p: Pending, t: Trace)
  {
    || p.attempts >= MAX_UPLOAD_ATTEMPTS
    || (p.op.id, Accepted) in t.verdicts || (p.op.id, Duplicate) in t.verdicts || (p.op.id, Refused) in t.verdicts
    || ((p.op.id, ObjectNotFound) in t.verdicts && p.op.kind == RestoreBookmark &&
        (p.op.payload.None? || exists c :: c in t.created && Replaces(c, p.op)))
  }

  /** An operation queued when the cycle began is still queued, with its attempts
      unchanged or one more after an object_not_found verdict, or it left for one
      of the reasons. */
  ghost predicate Fate(p: Pending, rows: seq<Pending>, t: Trace, requeued: set<nat>)
  {
    || Excused(p, t)
    || (exists q :: q in rows && q.op == p.op && q.attempts == p.attempts)
    || (p.op.id in requeued && (p.op.id, ObjectNotFound) in t.verdicts && exists q ::
      q in rows && q.op == p.op && q.attempts == p.attempts + 1)
  }

  // The device's counters, and the identifiers it has given out.
  datatype Counters = Counters(deviceSequence: nat, lamportClock: nat, nextId: nat)

  predicate Within(op: LocalOperation, c: Counters)
  {
    op.deviceSequence <= c.deviceSequence && op.lamportTimestamp <= c.lamportClock && op.id < c.nextId
  }

  ghost predicate Increasing(s: seq<nat>)
  {
    forall i, j :: 0 <= i < j < |s| ==> s[i] < s[j]
  }

  /** Between batches: everything queued at the start is accounted for, and what
      is still due comes after everything sent. */
  ghost predicate Cycle(start: seq<Pending>, rows: seq<Pending>, t: Trace, requeued: set<nat>, c: Counters)
  {
    && Sorted(rows)
    && (forall p :: p in rows ==> Within(p.op, c))
    && (forall p :: p in start ==> Within(p.op, c) && Fate(p, rows, t, requeued))
    && (forall p, q :: p in start && q in rows && p.op.id == q.op.id ==> p.op == q.op)
    && (forall p :: p in rows ==> p.op in t.created || exists q :: q in start && q.op == p.op)
    && Increasing(t.sent)
    && (forall s :: s in t.sent ==> s <= c.deviceSequence)
    && (forall p, s :: p in rows && Due(p, requeued) && s in t.sent ==> s < p.op.deviceSequence)
  }

  // --- The steps of a batch ---

  /** Rows leave for good reason. */
  lemma RemoveStep(start: seq<Pending>, rows: seq<Pending>, t: Trace, requeued: set<nat>, c: Counters, ids: set<nat>)
    requires Cycle(start, rows, t, requeued, c)
    requires forall p :: p in start && p.op.id in ids ==> Excused(p, t)
    ensures Cycle(start, Remaining(rows, ids), t, requeued, c)
  {
    RemainingSorted(rows, ids);
    forall p | p in start ensures Fate(p, Remaining(rows, ids), t, requeued) {
      assert Fate(p, rows, t, requeued);
    }
  }

  lemma RewriteAre(rows: seq<Pending>, ids: set<nat>, state: State, counted: bool)
    ensures Sorted(rows) ==> Sorted(Rewrite(rows, ids, state, counted))
    ensures forall q :: q in Rewrite(rows, ids, state, counted) ==>
      exists p :: p in rows && q == Changed(p, ids, state, counted)
    ensures forall p :: p in rows ==> Changed(p, ids, state, counted) in Rewrite(rows, ids, state, counted)
  {
    var r := Rewrite(rows, ids, state, counted);
    forall q | q in r ensures exists p :: p in rows && q == Changed(p, ids, state, counted) {
      var k :| 0 <= k < |r| && r[k] == q;
      assert rows[k] in rows;
    }
    forall p | p in rows ensures Changed(p, ids, state, counted) in r {
      var k :| 0 <= k < |rows| && rows[k] == p;
      assert r[k] in r;
    }
  }

  lemma FateRewritten(p: Pending, rows: seq<Pending>, t: Trace, requeued: set<nat>, ids: set<nat>, state: State)
    requires Fate(p, rows, t, requeued)
    ensures Fate(p, Rewrite(rows, ids, state, false), t, requeued)
  {
    RewriteAre(rows, ids, state, false);
    if !Excused(p, t) {
      var q :| q in rows && q.op == p.op
        && (q.attempts == p.attempts
        || (q.attempts == p.attempts + 1 && p.op.id in requeued && (p.op.id, ObjectNotFound) in t.verdicts));
      assert Changed(q, ids, state, false) in Rewrite(rows, ids, state, false);
    }
  }

  /** Rows go in flight, which counts for nothing yet. */
  lemma InFlightStep(start: seq<Pending>, rows: seq<Pending>, t: Trace, requeued: set<nat>, c: Counters, ids: set<nat>)
    requires Cycle(start, rows, t, requeued, c)
    ensures Cycle(start, Rewrite(rows, ids, UploadInFlight, false), t, requeued, c)
  {
    RewriteAre(rows, ids, UploadInFlight, false);
    forall p | p in start ensures Fate(p, Rewrite(rows, ids, UploadInFlight, false), t, requeued) {
      FateRewritten(p, rows, t, requeued, ids, UploadInFlight);
    }
  }

  /** The batch goes out: in order, after everything sent before, and nothing that
      is still due comes before it. */
  lemma SentIncreasing(sent: seq<nat>, batch: seq<Pending>)
    requires Increasing(sent) && Sorted(batch) && forall p, s :: p in batch && s in sent ==> s < p.op.deviceSequence
    ensures Increasing(sent + SequencesOf(batch))
  {
    var all := sent + SequencesOf(batch);
    forall i, j | 0 <= i < j < |all| ensures all[i] < all[j] {
      if i < |sent| <= j { assert sent[i] in sent && batch[j - |sent|] in batch; }
    }
  }

  lemma SendStep(start: seq<Pending>, rows: seq<Pending>, t: Trace, requeued: set<nat>, c: Counters,
      batch: seq<Pending>)
    requires Cycle(start, rows, t, requeued, c) && Sorted(batch)
    requires forall p :: p in batch ==> p.op.deviceSequence <= c.deviceSequence && forall s :: s in t.sent ==>
      s < p.op.deviceSequence
    requires forall p, q :: p in rows && Due(p, requeued) && q in batch ==> q.op.deviceSequence < p.op.deviceSequence
    ensures Cycle(start, rows, t.(sent := t.sent + SequencesOf(batch)), requeued, c)
  {
    hide Due, Within;
    var out := SequencesOf(batch);
    forall s | s in out ensures exists p :: p in batch && p.op.deviceSequence == s {
      var k :| 0 <= k < |out| && out[k] == s;
      assert batch[k] in batch;
    }
    forall i | 0 <= i < |out| ensures out[i] in out {}
    var t' := t.(sent := t.sent + out);
    forall p | p in start ensures Fate(p, rows, t', requeued) { assert Fate(p, rows, t, requeued); }
    SentIncreasing(t.sent, batch);
  }

  function SequencesOf(batch: seq<Pending>): (s: seq<nat>)
    ensures |s| == |batch| && forall i :: 0 <= i < |s| ==> s[i] == batch[i].op.deviceSequence
  {
    seq(|batch|, i requires 0 <= i < |batch| => batch[i].op.deviceSequence)
  }

  /** More is known about some operations; no reason goes away. */
  lemma LearnStep(start: seq<Pending>, rows: seq<Pending>, t: Trace, requeued: set<nat>, c: Counters, t': Trace,
      requeued': set<nat>)
    requires Cycle(start, rows, t, requeued, c)
    requires t'.sent == t.sent && t.verdicts <= t'.verdicts && t.created <= t'.created && requeued <= requeued'
    ensures Cycle(start, rows, t', requeued', c)
  {
    forall p | p in start ensures Fate(p, rows, t', requeued') {
      assert Fate(p, rows, t, requeued);
      if Excused(p, t) { assert Excused(p, t'); }
    }
  }

  /** Creates made out of rejected restores go to the end of the queue. */
  lemma AppendStep(start: seq<Pending>, rows: seq<Pending>, t: Trace, requeued: set<nat>, c: Counters,
      added: seq<Pending>, c': Counters)
    requires Cycle(start, rows, t, requeued, c) && Sorted(added) && c.deviceSequence <= c'.deviceSequence
    requires c.lamportClock <= c'.lamportClock && c.nextId <= c'.nextId
    requires forall p :: p in added ==>
      c.deviceSequence < p.op.deviceSequence && c.nextId <= p.op.id && Within(p.op, c') && p.op in t.created
    ensures Cycle(start, rows + added, t, requeued, c')
  {
    var all := rows + added;
    forall i, j | 0 <= i < j < |all|
      ensures all[i].op.deviceSequence < all[j].op.deviceSequence && all[i].op.id != all[j].op.id {
      if i < |rows| <= j { assert rows[i] in rows && added[j - |rows|] in added; }
    }
    forall p | p in start ensures Fate(p, all, t, requeued) { assert Fate(p, rows, t, requeued); }
  }

  lemma FateRequeued(p: Pending, rows: seq<Pending>, t: Trace, requeued: set<nat>, ids: set<nat>)
    requires Fate(p, rows, t, requeued) && ids !! requeued
    requires forall id :: id in ids ==> (id, ObjectNotFound) in t.verdicts
    ensures Fate(p, Rewrite(rows, ids, LocalQueued, true), t, requeued + ids)
  {
    RewriteAre(rows, ids, LocalQueued, true);
    if !Excused(p, t) {
      var q :| q in rows && q.op == p.op
        && (q.attempts == p.attempts
        || (q.attempts == p.attempts + 1 && p.op.id in requeued && (p.op.id, ObjectNotFound) in t.verdicts));
      assert Changed(q, ids, LocalQueued, true) in Rewrite(rows, ids, LocalQueued, true);
    }
  }

  /** Operations the server does not know the object of yet wait, once more tried,
      until the next cycle. */
  lemma RequeueStep(start: seq<Pending>, rows: seq<Pending>, t: Trace, requeued: set<nat>, c: Counters, ids: set<nat>)
    requires Cycle(start, rows, t, requeued, c) && ids !! requeued
    requires forall id :: id in ids ==> (id, ObjectNotFound) in t.verdicts
    ensures Cycle(start, Rewrite(rows, ids, LocalQueued, true), t, requeued + ids, c)
  {
    RewriteAre(rows, ids, LocalQueued, true);
    var r := Rewrite(rows, ids, LocalQueued, true);
    forall p | p in start ensures Fate(p, r, t, requeued + ids) { FateRequeued(p, rows, t, requeued, ids); }
    forall p, s | p in r && Due(p, requeued + ids) && s in t.sent ensures s < p.op.deviceSequence {
      var q :| q in rows && p == Changed(q, ids, LocalQueued, true);
      assert Due(q, requeued);
    }
  }

  // --- What the verdicts on a batch mean for it ---

  function WithVerdict(batch: seq<Pending>, verdicts: map<nat, Verdict>, v: set<Verdict>): (r: seq<Pending>)
    ensures forall p :: p in r <==> p in batch && p.op.id in verdicts && verdicts[p.op.id] in v
  {
    if batch == [] then []
    else
      (if batch[0].op.id in verdicts
        && verdicts[batch[0].op.id] in v then [batch[0]] else []) + WithVerdict(batch[1..], verdicts, v)
  }

  function Restores(rows: seq<Pending>): (r: seq<Pending>)
    ensures forall p :: p in r <==> p in rows && p.op.kind == RestoreBookmark
  {
    if rows == [] then []
    else (if rows[0].op.kind == RestoreBookmark then [rows[0]] else []) + Restores(rows[1..])
  }

  function Readable(rows: seq<Pending>): (r: seq<Pending>)
    ensures forall p :: p in r <==> p in rows && p.op.payload.Some?
  {
    if rows == [] then []
    else (if rows[0].op.payload.Some? then [rows[0]] else []) + Readable(rows[1..])
  }

  function VerdictPairs(verdicts: map<nat, Verdict>): set<(nat, Verdict)>
  {
    set id | id in verdicts :: (id, verdicts[id])
  }

  function AnsweredWith(verdicts: map<nat, Verdict>, v: set<Verdict>): set<nat>
  {
    set id | id in verdicts && verdicts[id] in v
  }

  /** The creates that take the place of readable restores, numbered on from `c`. */
  function Reissued(restores: seq<Pending>, c: Counters): (r: seq<Pending>)
    requires forall p :: p in restores ==> p.op.payload.Some?
    ensures |r| == |restores|
    ensures forall i :: 0 <= i < |r| ==> r[i] == ReissuedAs(restores[i].op, c, i)
  {
    seq(|restores|, i requires 0 <= i < |restores| => ReissuedAs(restores[i].op, c, i))
  }

  function ReissuedAs(op: LocalOperation, c: Counters, i: nat): Pending
  {
    Pending(LocalOperation(c.nextId + i, c.deviceSequence + i + 1, c.lamportClock + i + 1, op.objectId,
      CreateBookmark, op.payload), LocalQueued, 0)
  }

  function OpsOf(rows: seq<Pending>): set<LocalOperation>
  {
    set p | p in rows :: p.op
  }

  function Advance(c: Counters, n: nat): Counters
  {
    Counters(c.deviceSequence + n, c.lamportClock + n, c.nextId + n)
  }

  lemma ReissuedAre(restores: seq<Pending>, c: Counters)
    requires forall p :: p in restores ==> p.op.kind == RestoreBookmark && p.op.payload.Some? && Within(p.op, c)
    ensures Sorted(Reissued(restores, c))
    ensures forall p :: p in Reissued(restores, c) ==>
      c.deviceSequence < p.op.deviceSequence && c.nextId <= p.op.id && Within(p.op, Advance(c, |restores|))
    ensures forall p :: p in restores ==> exists n :: n in OpsOf(Reissued(restores, c)) && Replaces(n, p.op)
  {
    var r := Reissued(restores, c);
    forall p | p in restores ensures exists n :: n in OpsOf(r) && Replaces(n, p.op) {
      var k :| 0 <= k < |restores| && restores[k] == p;
      assert r[k] in r && Replaces(r[k].op, p.op);
    }
  }

  /** Rejected restores make room for creates at the end of the queue. */
  lemma ReissueStep(start: seq<Pending>, rows: seq<Pending>, t: Trace, requeued: set<nat>, c: Counters,
      restores: seq<Pending>)
    requires Cycle(start, rows, t, requeued, c)
    requires forall p :: p in restores ==>
      p.op.kind == RestoreBookmark && Within(p.op, c) && (p.op.id, ObjectNotFound) in t.verdicts
    requires forall p, q :: p in start && q in restores && p.op.id == q.op.id ==> p.op == q.op
    ensures var added := Reissued(Readable(restores), c);
            Cycle(start, Remaining(rows, Ids(restores)) + added, t.(created := t.created + OpsOf(added)), requeued,
              Advance(c, |added|))
  {
    var added := Reissued(Readable(restores), c);
    var t' := t.(created := t.created + OpsOf(added));
    ReissuedAre(Readable(restores), c);
    LearnStep(start, rows, t, requeued, c, t', requeued);
    forall p | p in start && p.op.id in Ids(restores) ensures Excused(p, t') {
      var q :| q in restores && q.op.id == p.op.id;
      if q.op.payload.Some? { assert q in Readable(restores); }
    }
    RemoveStep(start, rows, t', requeued, c, Ids(restores));
    forall p | p in added ensures p.op in t'.created { assert p.op in OpsOf(added); }
    AppendStep(start, Remaining(rows, Ids(restores)), t', requeued, c, added, Advance(c, |added|));
  }

  lemma RewriteBack(rows: seq<Pending>, ids: set<nat>)
    requires forall p :: p in rows && p.op.id in ids ==> p.state == LocalQueued
    ensures Rewrite(Rewrite(rows, ids, UploadInFlight, false), ids, LocalQueued, false) == rows
  {
    var r := Rewrite(Rewrite(rows, ids, UploadInFlight, false), ids, LocalQueued, false);
    forall i | 0 <= i < |rows| ensures r[i] == rows[i] { assert rows[i] in rows; }
  }

  // --- Verdicts, as a function of the queue ---

  datatype Judgement = Judgement(rows: seq<Pending>, counters: Counters, waiting: set<nat>, reissued: bool,
      added: seq<Pending>)

  function Resolve(rows: seq<Pending>, verdicts: map<nat, Verdict>): seq<Pending>
  {
    Remaining(rows, AnsweredWith(verdicts, {Accepted, Duplicate}))
  }

  function UnknownRestores(batch: seq<Pending>, verdicts: map<nat, Verdict>): seq<Pending>
  {
    Restores(WithVerdict(batch, verdicts, {ObjectNotFound}))
  }

  function Reissue(rows: seq<Pending>, restores: seq<Pending>, c: Counters): seq<Pending>
  {
    if restores == [] then rows else Remaining(rows, Ids(restores)) + Reissued(Readable(restores), c)
  }

  function Requeue(rows: seq<Pending>, batch: seq<Pending>, waiting: set<nat>,
      verdicts: map<nat, Verdict>): seq<Pending>
  {
    Remaining(Rewrite(rows, Ids(batch) * waiting, LocalQueued, true), AnsweredWith(verdicts, {Refused}))
  }

  function OnVerdicts(rows: seq<Pending>, batch: seq<Pending>, verdicts: map<nat, Verdict>, c: Counters): Judgement
  {
    var restores := UnknownRestores(batch, verdicts);
    var added := Reissued(Readable(restores), c);
    var waiting := AnsweredWith(verdicts, {ObjectNotFound}) - Ids(restores);
    Judgement(Requeue(Reissue(Resolve(rows, verdicts), restores, c), batch, waiting, verdicts), Advance(c, |added|),
      waiting, restores != [], added)
  }

  lemma ResolveStep(start: seq<Pending>, rows: seq<Pending>, t: Trace, requeued: set<nat>, c: Counters,
      verdicts: map<nat, Verdict>)
    requires Cycle(start, rows, t, requeued, c) && VerdictPairs(verdicts) <= t.verdicts
    ensures Cycle(start, Resolve(rows, verdicts), t, requeued, c)
  {
    VerdictsLearned(t, verdicts);
    RemoveStep(start, rows, t, requeued, c, AnsweredWith(verdicts, {Accepted, Duplicate}));
  }

  lemma UnknownRestoresAre(batch: seq<Pending>, verdicts: map<nat, Verdict>)
    ensures forall p :: p in UnknownRestores(batch, verdicts) <==>
              p in batch && p.op.kind == RestoreBookmark && p.op.id in verdicts && verdicts[p.op.id] == ObjectNotFound
  {
  }

  lemma ReissueAllStep(start: seq<Pending>, rows: seq<Pending>, t: Trace, requeued: set<nat>, c: Counters,
      restores: seq<Pending>)
    requires Cycle(start, rows, t, requeued, c)
    requires forall p :: p in restores ==>
      p.op.kind == RestoreBookmark && Within(p.op, c) && (p.op.id, ObjectNotFound) in t.verdicts
    requires forall p, q :: p in start && q in restores && p.op.id == q.op.id ==> p.op == q.op
    ensures var added := Reissued(Readable(restores), c);
            Cycle(start, Reissue(rows, restores, c), t.(created := t.created + OpsOf(added)), requeued,
              Advance(c, |added|))
  {
    if restores == [] {
      var added := Reissued(Readable(restores), c);
      assert t.created + OpsOf(added) == t.created;
      assert t.(created := t.created + OpsOf(added)) == t;
    } else {
      ReissueStep(start, rows, t, requeued, c, restores);
    }
  }

  lemma RequeueAllStep(start: seq<Pending>, rows: seq<Pending>, t: Trace, requeued: set<nat>, c: Counters,
      batch: seq<Pending>, waiting: set<nat>, verdicts: map<nat, Verdict>)
    requires Cycle(start, rows, t, requeued, c) && VerdictPairs(verdicts) <= t.verdicts
    requires Ids(batch) !! requeued && waiting <= AnsweredWith(verdicts, {ObjectNotFound})
    ensures Cycle(start, Requeue(rows, batch, waiting, verdicts), t, requeued + waiting, c)
  {
    VerdictsLearned(t, verdicts);
    var ids := Ids(batch) * waiting;
    RequeueStep(start, rows, t, requeued, c, ids);
    var r := Rewrite(rows, ids, LocalQueued, true);
    LearnStep(start, r, t, requeued + ids, c, t, requeued + waiting);
    RemoveStep(start, r, t, requeued + waiting, c, AnsweredWith(verdicts, {Refused}));
  }

  /** The verdicts keep everything accounted for. */
  lemma VerdictsStep(start: seq<Pending>, rows: seq<Pending>, t: Trace, requeued: set<nat>, c: Counters,
      batch: seq<Pending>, verdicts: map<nat, Verdict>)
    requires Cycle(start, rows, t, requeued, c)
    requires forall p :: p in batch ==> Within(p.op, c) && p.op.id !in requeued
    requires forall p, q :: p in start && q in batch && p.op.id == q.op.id ==> p.op == q.op
    ensures var v := OnVerdicts(rows, batch, verdicts, c);
            Cycle(start, v.rows, Trace(t.sent, t.verdicts + VerdictPairs(verdicts), t.created + OpsOf(v.added)),
              requeued + v.waiting, v.counters)
  {
    var t1 := t.(verdicts := t.verdicts + VerdictPairs(verdicts));
    LearnStep(start, rows, t, requeued, c, t1, requeued);
    ResolveStep(start, rows, t1, requeued, c, verdicts);
    UnknownRestoresAre(batch, verdicts);
    VerdictsLearned(t1, verdicts);
    var restores := UnknownRestores(batch, verdicts);
    ReissueAllStep(start, Resolve(rows, verdicts), t1, requeued, c, restores);
    var v := OnVerdicts(rows, batch, verdicts, c);
    var t2 := t1.(created := t1.created + OpsOf(v.added));
    RequeueAllStep(start, Reissue(Resolve(rows, verdicts), restores, c), t2, requeued, v.counters, batch, v.waiting,
      verdicts);
  }

  /** Unless restores were sent again, verdicts make nothing new due. */
  lemma VerdictsMakeNothingDue(rows: seq<Pending>, batch: seq<Pending>, verdicts: map<nat, Verdict>, c: Counters,
      requeued: set<nat>, p: Pending)
    requires var v := OnVerdicts(rows, batch, verdicts, c); !v.reissued && p in v.rows && Due(p, requeued + v.waiting)
    ensures p in rows && Due(p, requeued)
  {
    var v := OnVerdicts(rows, batch, verdicts, c);
    RewriteAre(Resolve(rows, verdicts), Ids(batch) * v.waiting, LocalQueued, true);
  }

  lemma VerdictsLearned(t: Trace, verdicts: map<nat, Verdict>)
    requires VerdictPairs(verdicts) <= t.verdicts
    ensures forall id :: id in verdicts ==> (id, verdicts[id]) in t.verdicts
  {
    forall id | id in verdicts ensures (id, verdicts[id]) in t.verdicts {
      assert (id, verdicts[id]) in VerdictPairs(verdicts);
    }
  }

  lemma ReadableStep(records: seq<Pending>, i: nat)
    requires i < |records|
    ensures Readable(records[i..]) == (if records[i].op.payload.Some? then [records[i]]
      else []) + Readable(records[i + 1..])
  {
    assert records[i..][1..] == records[i + 1..];
  }

  method DecodeAll(records: seq<Pending>) returns (decoded: seq<Pending>)
    ensures decoded == Readable(records)
  {
    hide Readable;
    decoded := [];
    assert records[0..] == records;
    var i := 0;
    while i < |records|
      invariant i <= |records|
      invariant Readable(records) == decoded + Readable(records[i..])
    {
      ReadableStep(records, i);
      if records[i].op.payload.Some? { decoded := decoded + [records[i]]; }
      i := i + 1;
    }
    assert Readable(records[|records|..]) == [] by { ReadableEnd(records); }
  }

  lemma ReadableEnd(records: seq<Pending>)
    ensures Readable(records[|records|..]) == []
  {
  }

  method CreatesFor(decoded: seq<Pending>, c: Counters) returns (replacements: seq<Pending>)
    requires forall p :: p in decoded ==> p.op.payload.Some?
    ensures replacements == Reissued(decoded, c)
  {
    replacements := [];
    for i := 0 to |decoded|
      invariant replacements == Reissued(decoded, c)[..i]
    {
      assert decoded[i] in decoded;
      replacements := replacements + [ReissuedAs(decoded[i].op, c, i)];
    }
  }

  // --- Taking a batch ---

  function Stuck(pending: seq<Pending>): set<nat>
  {
    set p | p in pending && p.attempts >= MAX_UPLOAD_ATTEMPTS :: p.op.id
  }

  function Retryable(pending: seq<Pending>): (r: seq<Pending>)
    ensures forall p :: p in r <==> p in pending && p.attempts < MAX_UPLOAD_ATTEMPTS
  {
    if pending == [] then []
    else (if pending[0].attempts < MAX_UPLOAD_ATTEMPTS then [pending[0]] else []) + Retryable(pending[1..])
  }

  lemma {:induction false} RetryableSorted(pending: seq<Pending>)
    requires Sorted(pending)
    ensures Sorted(Retryable(pending))
  {
    if pending != [] {
      SortedTail(pending);
      RetryableSorted(pending[1..]);
      var r := Retryable(pending[1..]);
      forall i | 0 <= i < |r| ensures r[i] in pending[1..] { assert r[i] in r; }
    }
  }

  function Taken(rows: seq<Pending>, pending: seq<Pending>): seq<Pending>
  {
    Rewrite(Remaining(rows, Stuck(pending)), Ids(Retryable(pending)), UploadInFlight, false)
  }

  /** A row of the queue that is no longer due was dropped or sent. */
  lemma TakenDue(rows: seq<Pending>, pending: seq<Pending>, requeued: set<nat>, p: Pending)
    requires Sorted(rows) && p in Taken(rows, pending) && Due(p, requeued)
    ensures p in rows && p !in pending
  {
    RewriteAre(Remaining(rows, Stuck(pending)), Ids(Retryable(pending)), UploadInFlight, false);
    assert p in pending && p.attempts < MAX_UPLOAD_ATTEMPTS ==> p in Retryable(pending);
  }

  lemma SameIdSameRow(rows: seq<Pending>, p: Pending, q: Pending)
    requires Sorted(rows) && p in rows && q in rows && p.op.id == q.op.id
    ensures p == q
  {
  }

  /** An operation out of attempts had as many when the cycle began. */
  lemma StuckExcused(p: Pending, q: Pending, rows: seq<Pending>, t: Trace, requeued: set<nat>)
    requires Sorted(rows) && Fate(p, rows, t, requeued) && p.op.id !in requeued
    requires q in rows && q.op.id == p.op.id && q.attempts >= MAX_UPLOAD_ATTEMPTS
    ensures Excused(p, t)
  {
    forall row | row in rows && row.op == p.op ensures row == q { SameIdSameRow(rows, row, q); }
  }

  lemma StuckStep(start: seq<Pending>, rows: seq<Pending>, t: Trace, requeued: set<nat>, c: Counters,
      pending: seq<Pending>)
    requires Cycle(start, rows, t, requeued, c)
    requires forall p :: p in pending ==> p in rows && p.op.id !in requeued
    ensures Cycle(start, Remaining(rows, Stuck(pending)), t, requeued, c)
  {
    forall p | p in start && p.op.id in Stuck(pending) ensures Excused(p, t) {
      var q :| q in pending && q.attempts >= MAX_UPLOAD_ATTEMPTS && q.op.id == p.op.id;
      StuckExcused(p, q, rows, t, requeued);
    }
    RemoveStep(start, rows, t, requeued, c, Stuck(pending));
  }

  lemma PendingAre(start: seq<Pending>, rows: seq<Pending>, t: Trace, requeued: set<nat>, c: Counters)
    requires Cycle(start, rows, t, requeued, c)
    ensures var batch := Retryable(FirstDue(rows, MAX_UPLOAD_BATCH, requeued));
            && Sorted(batch)
            && (forall p :: p in batch ==>
              p in rows && Due(p, requeued) && Within(p.op, c) && forall s :: s in t.sent ==> s < p.op.deviceSequence)
            && (forall p, q :: p in start && q in batch && p.op.id == q.op.id ==> p.op == q.op)
  {
    FirstDueMembers(rows, MAX_UPLOAD_BATCH, requeued);
    FirstDueSorted(rows, MAX_UPLOAD_BATCH, requeued);
    RetryableSorted(FirstDue(rows, MAX_UPLOAD_BATCH, requeued));
  }

  /** Taking a batch and sending it keeps everything accounted for. */
  lemma TakeStep(start: seq<Pending>, rows: seq<Pending>, t: Trace, requeued: set<nat>, c: Counters)
    requires Cycle(start, rows, t, requeued, c)
    ensures var pending := FirstDue(rows, MAX_UPLOAD_BATCH, requeued);
            Cycle(start, Taken(rows, pending), t.(sent := t.sent + SequencesOf(Retryable(pending))), requeued, c)
  {
    var pending := FirstDue(rows, MAX_UPLOAD_BATCH, requeued);
    var batch := Retryable(pending);
    FirstDueMembers(rows, MAX_UPLOAD_BATCH, requeued);
    PendingAre(start, rows, t, requeued, c);
    StuckStep(start, rows, t, requeued, c, pending);
    InFlightStep(start, Remaining(rows, Stuck(pending)), t, requeued, c, Ids(batch));
    forall p, q | p in Taken(rows, pending) && Due(p, requeued) && q in batch
      ensures q.op.deviceSequence < p.op.deviceSequence {
      TakenDue(rows, pending, requeued, p);
      FirstDueRest(rows, MAX_UPLOAD_BATCH, requeued, p);
    }
    SendStep(start, Taken(rows, pending), t, requeued, c, batch);
  }

  /** A failed request leaves its batch as it was before it went in flight. */
  lemma FailedStep(rows: seq<Pending>, pending: seq<Pending>, requeued: set<nat>)
    requires Sorted(rows) && forall p :: p in pending ==> p in rows && Due(p, requeued)
    ensures Rewrite(Taken(rows, pending), Ids(Retryable(pending)), LocalQueued, false) == Remaining(rows,
      Stuck(pending))
    ensures forall p :: p in Retryable(pending) ==> p in Remaining(rows, Stuck(pending))
  {
    var batch := Retryable(pending);
    forall p | p in Remaining(rows, Stuck(pending)) && p.op.id in Ids(batch) ensures p.state == LocalQueued {
      var q :| q in batch && q.op.id == p.op.id;
      SameIdSameRow(rows, p, q);
    }
    RewriteBack(Remaining(rows, Stuck(pending)), Ids(batch));
    forall p | p in batch ensures p.op.id !in Stuck(pending) {
      if p.op.id in Stuck(pending) {
        var q :| q in pending && q.attempts >= MAX_UPLOAD_ATTEMPTS && q.op.id == p.op.id;
        SameIdSameRow(rows, p, q);
      }
    }
  }

  ghost predicate NothingDue(rows: seq<Pending>, requeued: set<nat>)
  {
    forall p :: p in rows ==> !Due(p, requeued)
  }

  /** After a batch that was not full, nothing it left behind is due. */
  lemma ShortBatchTakesAll(rows: seq<Pending>, requeued: set<nat>)
    requires Sorted(rows) && |FirstDue(rows, MAX_UPLOAD_BATCH, requeued)| < MAX_UPLOAD_BATCH
    ensures NothingDue(Taken(rows, FirstDue(rows, MAX_UPLOAD_BATCH, requeued)), requeued)
  {
    var pending := FirstDue(rows, MAX_UPLOAD_BATCH, requeued);
    forall p | p in Taken(rows, pending) ensures !Due(p, requeued) {
      if Due(p, requeued) {
        TakenDue(rows, pending, requeued, p);
        FirstDueRest(rows, MAX_UPLOAD_BATCH, requeued, p);
      }
    }
  }

  // --- A whole cycle, as a function of the queue ---

  datatype Outcome = Finished(more: bool) | RequestFailed

  // What one batch does: the queue after it, the operations it made wait, what it
  // adds to the trace, and whether the cycle goes on. `silent`: the request was
  // answered without a verdict on anything. `carried`: what the request carried.
  datatype Round = Round(rows: seq<Pending>, counters: Counters, waiting: set<nat>, added: Trace, full: bool,
      over: Option<Outcome>, silent: bool, carried: seq<Pending>)

  // `exhausted`: the budget of batches ran out.
  datatype Cycled = Cycled(rows: seq<Pending>, counters: Counters, requeued: set<nat>, trace: Trace, outcome: Outcome,
      silent: bool, exhausted: bool, last: seq<Pending>)

  function NoTrace(): Trace
  {
    Trace([], {}, {})
  }

  function Extend(t: Trace, u: Trace): Trace
  {
    Trace(t.sent + u.sent, t.verdicts + u.verdicts, t.created + u.created)
  }

  function OneBatch(rows: seq<Pending>, c: Counters, requeued: set<nat>, response: Response): Round
  {
    var pending := FirstDue(rows, MAX_UPLOAD_BATCH, requeued);
    var retryable := Retryable(pending);
    var full := |pending| >= MAX_UPLOAD_BATCH;
    var taken := Taken(rows, pending);
    if retryable == [] then
      Round(taken, c, {}, NoTrace(), full, if full then None else Some(Finished(false)), false, [])
    else if response.Failed? then
      Round(Rewrite(taken, Ids(retryable), LocalQueued, false), c, {}, Trace(SequencesOf(retryable), {}, {}), full,
        Some(RequestFailed), false, retryable)
    else
      var v := OnVerdicts(taken, retryable, response.verdicts, c);
      var silent := Stuck(pending) == {} && response.verdicts == map[];
      Round(v.rows, v.counters, v.waiting,
        Trace(SequencesOf(retryable), VerdictPairs(response.verdicts), OpsOf(v.added)), full,
            if silent || (!full && !v.reissued) then Some(Finished(false)) else None, silent, retryable)
  }

  function Run(rows: seq<Pending>, c: Counters, requeued: set<nat>, t: Trace, lastBatchFull: bool, batch: nat,
      respond: nat -> Response): Cycled
    decreases MAX_BATCHES_PER_CYCLE - batch
  {
    if batch >= MAX_BATCHES_PER_CYCLE then Cycled(rows, c, requeued, t, Finished(lastBatchFull), false, true, [])
    else
      var b := OneBatch(rows, c, requeued, respond(batch));
      if b.over.Some?
        then Cycled(b.rows, b.counters, requeued + b.waiting, Extend(t, b.added), b.over.value, b.silent, false,
        b.carried)
      else Run(b.rows, b.counters, requeued + b.waiting, Extend(t, b.added), b.full, batch + 1, respond)
  }

  ghost predicate ValidRows(rows: seq<Pending>, c: Counters)
  {
    Sorted(rows) && forall p :: p in rows ==> Within(p.op, c)
  }

  /** What holds when a cycle is over, however it ended. */
  ghost predicate Accounted(start: seq<Pending>, rows: seq<Pending>, t: Trace, requeued: set<nat>, c: Counters)
  {
    && Sorted(rows)
    && (forall p :: p in rows ==> Within(p.op, c))
    && (forall p :: p in start ==> Fate(p, rows, t, requeued))
    && (forall p :: p in rows ==> p.op in t.created || exists q :: q in start && q.op == p.op)
    && Increasing(t.sent)
  }

  lemma CycleBegins(rows: seq<Pending>, requeued: set<nat>, c: Counters)
    requires ValidRows(rows, c)
    ensures Cycle(rows, rows, NoTrace(), requeued, c)
  {
    forall p | p in rows ensures Fate(p, rows, NoTrace(), requeued) {}
    forall p, q | p in rows && q in rows && p.op.id == q.op.id ensures p.op == q.op { SameIdSameRow(rows, p, q); }
  }

  lemma CycleAccounts(start: seq<Pending>, rows: seq<Pending>, t: Trace, requeued: set<nat>, c: Counters)
    requires Cycle(start, rows, t, requeued, c)
    ensures Accounted(start, rows, t, requeued, c)
  {
  }

  lemma NothingToSendStep(start: seq<Pending>, rows: seq<Pending>, t: Trace, requeued: set<nat>, c: Counters,
      response: Response)
    requires Cycle(start, rows, t, requeued, c) && Retryable(FirstDue(rows, MAX_UPLOAD_BATCH, requeued)) == []
    ensures var b := OneBatch(rows, c, requeued, response);
      Cycle(start, b.rows, Extend(t, b.added), requeued + b.waiting, b.counters)
  {
    hide Cycle, FirstDue, Taken;
    var pending := FirstDue(rows, MAX_UPLOAD_BATCH, requeued);
    TakeStep(start, rows, t, requeued, c);
    assert Extend(t, NoTrace()) == t && requeued + {} == requeued;
    assert t.(sent := t.sent + SequencesOf(Retryable(pending))) == t;
  }

  /** A batch that was answered keeps the cycle going right. */
  lemma AnsweredBatchStep(start: seq<Pending>, rows: seq<Pending>, t: Trace, requeued: set<nat>, c: Counters,
      response: Response)
    requires Cycle(start, rows, t, requeued, c) && response.Judged?
    ensures var b := OneBatch(rows, c, requeued, response);
      Cycle(start, b.rows, Extend(t, b.added), requeued + b.waiting, b.counters)
  {
    hide Cycle, FirstDue, Taken;
    var pending := FirstDue(rows, MAX_UPLOAD_BATCH, requeued);
    var batch := Retryable(pending);
    if batch == [] {
      NothingToSendStep(start, rows, t, requeued, c, response);
    } else {
      var sent := t.(sent := t.sent + SequencesOf(batch));
      TakeStep(start, rows, t, requeued, c);
      PendingAre(start, rows, t, requeued, c);
      VerdictsStep(start, Taken(rows, pending), sent, requeued, c, batch, response.verdicts);
    }
  }

  /** A batch whose request failed is queued again, row for row. */
  lemma FailedBatchStep(start: seq<Pending>, rows: seq<Pending>, t: Trace, requeued: set<nat>, c: Counters)
    requires Cycle(start, rows, t, requeued, c)
    ensures var b := OneBatch(rows, c, requeued, Failed);
            && Accounted(start, b.rows, Extend(t, b.added), requeued + b.waiting, b.counters)
            && (b.over != Some(RequestFailed) ==>
              Cycle(start, b.rows, Extend(t, b.added), requeued + b.waiting, b.counters))
            && (forall p :: p in b.carried ==> p in b.rows && Due(p, requeued))
  {
    hide Cycle, FirstDue, Taken, Accounted;
    var pending := FirstDue(rows, MAX_UPLOAD_BATCH, requeued);
    var batch := Retryable(pending);
    var b := OneBatch(rows, c, requeued, Failed);
    if batch == [] {
      NothingToSendStep(start, rows, t, requeued, c, Failed);
      CycleAccounts(start, b.rows, Extend(t, b.added), requeued + b.waiting, b.counters);
    } else {
      var sent := t.(sent := t.sent + SequencesOf(batch));
      TakeStep(start, rows, t, requeued, c);
      assert Extend(t, b.added) == sent && requeued + b.waiting == requeued;
      FailedRequestStep(start, rows, t, requeued, c, sent);
    }
  }

  lemma FailedRequestStep(start: seq<Pending>, rows: seq<Pending>, t: Trace, requeued: set<nat>, c: Counters,
      sent: Trace)
    requires Cycle(start, rows, t, requeued, c) && sent == t.(sent := sent.sent)
    requires Cycle(start, Taken(rows, FirstDue(rows, MAX_UPLOAD_BATCH, requeued)), sent, requeued, c)
    ensures var pending := FirstDue(rows, MAX_UPLOAD_BATCH, requeued);
            var back := Rewrite(Taken(rows, pending), Ids(Retryable(pending)), LocalQueued, false);
            && Accounted(start, back, sent, requeued, c)
            && (forall p :: p in Retryable(pending) ==> p in back && Due(p, requeued))
  {
    hide Cycle, Accounted, FirstDue, Taken;
    var pending := FirstDue(rows, MAX_UPLOAD_BATCH, requeued);
    FirstDueMembers(rows, MAX_UPLOAD_BATCH, requeued);
    CycleSorted(start, rows, t, requeued, c);
    FailedStep(rows, pending, requeued);
    StuckStep(start, rows, t, requeued, c, pending);
    CycleSorted(start, Taken(rows, pending), sent, requeued, c);
    FatesOf(start, Remaining(rows, Stuck(pending)), t, requeued, c, sent);
  }

  lemma CycleSorted(start: seq<Pending>, rows: seq<Pending>, t: Trace, requeued: set<nat>, c: Counters)
    requires Cycle(start, rows, t, requeued, c)
    ensures Sorted(rows) && Increasing(t.sent)
  {
  }

  lemma FatesOf(start: seq<Pending>, rows: seq<Pending>, t: Trace, requeued: set<nat>, c: Counters, t': Trace)
    requires Cycle(start, rows, t, requeued, c) && t' == t.(sent := t'.sent) && Increasing(t'.sent)
    ensures Accounted(start, rows, t', requeued, c)
  {
    forall p | p in start ensures Fate(p, rows, t', requeued) { assert Fate(p, rows, t, requeued); }
  }

  lemma BatchKeepsValid(rows: seq<Pending>, c: Counters, requeued: set<nat>, response: Response)
    requires ValidRows(rows, c)
    ensures var b := OneBatch(rows, c, requeued, response); ValidRows(b.rows, b.counters)
  {
    CycleBegins(rows, requeued, c);
    if response.Failed? { FailedBatchStep(rows, rows, NoTrace(), requeued, c); }
    else { AnsweredBatchStep(rows, rows, NoTrace(), requeued, c, response); }
  }

  /** When a batch ends the cycle well, nothing due is left behind, unless the
      server said nothing about it at all. */
  lemma NothingDueAfter(rows: seq<Pending>, c: Counters, requeued: set<nat>, response: Response)
    requires ValidRows(rows, c)
    requires var b := OneBatch(rows, c, requeued, response); b.over == Some(Finished(false)) && !b.silent
    ensures var b := OneBatch(rows, c, requeued, response); NothingDue(b.rows, requeued + b.waiting)
  {
    ShortBatchTakesAll(rows, requeued);
    var b := OneBatch(rows, c, requeued, response);
    var pending := FirstDue(rows, MAX_UPLOAD_BATCH, requeued);
    forall p | p in b.rows ensures !Due(p, requeued + b.waiting) {
      if Retryable(pending) != [] && Due(p, requeued + b.waiting) {
        VerdictsMakeNothingDue(Taken(rows, pending), Retryable(pending), response.verdicts, c, requeued, p);
      }
    }
  }

  /** However a cycle goes: device sequences went out in strictly increasing order,
      so nothing was sent twice; and every operation queued at the start is still
      queued, tried at most once more, or left for one of the reasons. A request
      that failed left what it carried queued as it was; a cycle that ended well
      left nothing due, unless the last answer was empty. */
  lemma {:induction false} RunAccounts(start: seq<Pending>, rows: seq<Pending>, c: Counters, requeued: set<nat>,
      t: Trace, lastBatchFull: bool, batch: nat, respond: nat -> Response)
    requires Cycle(start, rows, t, requeued, c)
    ensures var run := Run(rows, c, requeued, t, lastBatchFull, batch, respond);
            && Accounted(start, run.rows, run.trace, run.requeued, run.counters)
            && (run.outcome == RequestFailed ==> forall p :: p in run.last ==> p in run.rows && p.state == LocalQueued)
            && (run.outcome == Finished(false) ==> run.silent || run.exhausted || NothingDue(run.rows, run.requeued))
    decreases MAX_BATCHES_PER_CYCLE - batch
  {
    hide Cycle, Accounted, OneBatch;
    if batch >= MAX_BATCHES_PER_CYCLE {
      CycleAccounts(start, rows, t, requeued, c);
    } else {
      var response := respond(batch);
      var b := OneBatch(rows, c, requeued, response);
      BatchAccounts(start, rows, t, requeued, c, response);
      if b.over.None? {
        RunAccounts(start, b.rows, b.counters, requeued + b.waiting, Extend(t, b.added), b.full, batch + 1, respond);
      }
    }
  }

  lemma BatchAccounts(start: seq<Pending>, rows: seq<Pending>, t: Trace, requeued: set<nat>, c: Counters,
      response: Response)
    requires Cycle(start, rows, t, requeued, c)
    ensures var b := OneBatch(rows, c, requeued, response);
            && Accounted(start, b.rows, Extend(t, b.added), requeued + b.waiting, b.counters)
            && (b.over.None? ==> Cycle(start, b.rows, Extend(t, b.added), requeued + b.waiting, b.counters))
            && (b.over == Some(RequestFailed) ==> forall p :: p in b.carried ==> p in b.rows && p.state == LocalQueued)
            && (b.over == Some(Finished(false)) && !b.silent ==> NothingDue(b.rows, requeued + b.waiting))
  {
    var b := OneBatch(rows, c, requeued, response);
    if response.Failed? {
      FailedBatchStep(start, rows, t, requeued, c);
    } else {
      AnsweredBatchStep(start, rows, t, requeued, c, response);
      CycleAccounts(start, b.rows, Extend(t, b.added), requeued + b.waiting, b.counters);
    }
    if b.over == Some(Finished(false)) && !b.silent { NothingDueAfter(rows, c, requeued, response); }
  }

  /** The whole cycle, from any queue the device can be in. */
  lemma CycleIsAccounted(rows: seq<Pending>, c: Counters, respond: nat -> Response)
    requires ValidRows(rows, c)
    ensures var run := Run(rows, c, {}, NoTrace(), false, 0, respond);
            && Accounted(rows, run.rows, run.trace, run.requeued, run.counters)
            && (run.outcome == RequestFailed ==> forall p :: p in run.last ==> p in run.rows && p.state == LocalQueued)
            && (run.outcome == Finished(false) ==> run.silent || run.exhausted || NothingDue(run.rows, run.requeued))
  {
    hide Cycle, Accounted, NothingDue, Run;
    CycleBegins(rows, {}, c);
    RunAccounts(rows, rows, c, {}, NoTrace(), false, 0, respond);
  }

  lemma ValidSorted(rows: seq<Pending>, c: Counters)
    requires ValidRows(rows, c)
    ensures Sorted(rows)
  {
  }

  lemma RunStep(rows: seq<Pending>, c: Counters, requeued: set<nat>, t: Trace, lastBatchFull: bool, batch: nat,
      respond: nat -> Response)
    ensures var b := OneBatch(rows, c, requeued, respond(batch));
      var run := Run(rows, c, requeued, t, lastBatchFull, batch, respond);
            if batch >= MAX_BATCHES_PER_CYCLE
              then run == Cycled(rows, c, requeued, t, Finished(lastBatchFull), false, true, [])
            else if b.over.Some?
              then run == Cycled(b.rows, b.counters, requeued + b.waiting, Extend(t, b.added), b.over.value, b.silent,
              false, b.carried)
            else run == Run(b.rows, b.counters, requeued + b.waiting, Extend(t, b.added), b.full, batch + 1, respond)
  {
    hide OneBatch;
  }

  // The device's record of pending operations and sync state.
  class Store {
    var rows: seq<Pending>
    var deviceSequence: nat
    var lamportClock: nat
    var nextId: nat
    var cursor: nat

    function Now(): Counters
      reads this
    {
      Counters(deviceSequence, lamportClock, nextId)
    }

    ghost predicate Valid()
      reads this
    {
      Sorted(rows) && forall p :: p in rows ==> Within(p.op, Now())
    }

    constructor ()
      ensures Valid() && rows == [] && Now() == Counters(0, 0, 0)
    {
      rows, deviceSequence, lamportClock, nextId, cursor := [], 0, 0, 0, 0;
    }

    /** Merges a patch that cannot name the counters, so none is ever rolled back. */
    method UpdateSyncState(patch: Option<nat>)
      modifies this`cursor
      ensures cursor == match patch case Some(v) => v case None => old(cursor)
    {
      match patch {
        case Some(v) => cursor := v;
        case None =>
      }
    }

    method TickLamportClock(observed: Option<nat>) returns (now: nat)
      modifies this`lamportClock
      ensures now == lamportClock && lamportClock > old(lamportClock)
      ensures observed.Some? ==> lamportClock > observed.value
      ensures lamportClock == old(lamportClock) + 1 || (observed.Some? && lamportClock == observed.value + 1)
    {
      var seen := match observed case Some(v) => v case None => 0;
      lamportClock := (if lamportClock < seen then seen else lamportClock) + 1;
      now := lamportClock;
    }

    method ReserveSequenceBatch(count: nat) returns (startDeviceSequence: nat, startLamport: nat)
      modifies this`deviceSequence, this`lamportClock
      ensures startDeviceSequence == old(deviceSequence) && deviceSequence == startDeviceSequence + count
      ensures startLamport == old(lamportClock) && lamportClock == startLamport + count
    {
      startDeviceSequence, startLamport := deviceSequence, lamportClock;
      deviceSequence, lamportClock := deviceSequence + count, lamportClock + count;
    }

    /** A restart: whatever was in flight is queued again, uncounted. */
    method ResetInFlightOperations()
      requires Valid()
      modifies this`rows
      ensures Valid() && |rows| == |old(rows)|
      ensures forall i :: 0 <= i < |rows| ==> rows[i] == old(rows)[i].(state := LocalQueued)
    {
      rows := Rewrite(rows, Ids(rows), LocalQueued, false);
      assert forall i :: 0 <= i < |rows| ==> old(rows)[i] in old(rows);
      assert forall p :: p in rows ==> exists i :: 0 <= i < |rows| && rows[i] == p;
    }

    method RemoveFromQueue(ids: set<nat>)
      modifies this`rows
      ensures rows == Remaining(old(rows), ids)
    {
      rows := Remaining(rows, ids);
    }

    /** Sends rejected restores again as creates of the same objects. Those whose
        payload cannot be read are dropped. */
    method ReissueRestoresAsCreate(records: seq<Pending>)
      modifies this
      ensures cursor == old(cursor)
      ensures var added := Reissued(Readable(records), old(Now()));
              rows == Remaining(old(rows), Ids(records)) + added && Now() == Advance(old(Now()), |added|)
    {
      var decoded := DecodeAll(records);
      if decoded == [] {
        RemoveFromQueue(Ids(records));
        assert rows == rows + [];
        return;
      }
      var startDeviceSequence, startLamport := ReserveSequenceBatch(|decoded|);
      var replacements := CreatesFor(decoded, Counters(startDeviceSequence, startLamport, nextId));
      nextId := nextId + |decoded|;
      rows := Remaining(rows, Ids(records)) + replacements;
    }

    /** Acts on the verdicts for a batch that is in flight. */
    method ApplyVerdicts(batch: seq<Pending>, verdicts: map<nat, Verdict>) returns (waiting: set<nat>, reissued: bool)
      modifies this
      ensures cursor == old(cursor)
      ensures var v := OnVerdicts(old(rows), batch, verdicts, old(Now()));
              rows == v.rows && Now() == v.counters && waiting == v.waiting && reissued == v.reissued
    {
      RemoveFromQueue(AnsweredWith(verdicts, {Accepted, Duplicate}));
      var unknownRestores := Restores(WithVerdict(batch, verdicts, {ObjectNotFound}));
      reissued := unknownRestores != [];
      if reissued { ReissueRestoresAsCreate(unknownRestores); }
      waiting := AnsweredWith(verdicts, {ObjectNotFound}) - Ids(unknownRestores);
      rows := Rewrite(rows, Ids(batch) * waiting, LocalQueued, true);
      RemoveFromQueue(AnsweredWith(verdicts, {Refused}));
    }

    /** Puts the next batch in flight and drops what is out of attempts. */
    method TakeBatch(requeued: set<nat>) returns (pending: seq<Pending>, retryable: seq<Pending>)
      requires Sorted(rows)
      modifies this`rows
      ensures pending == FirstDue(old(rows), MAX_UPLOAD_BATCH, requeued) && retryable == Retryable(pending)
      ensures rows == Taken(old(rows), pending)
    {
      pending := GetPendingOperations(rows, MAX_UPLOAD_BATCH, requeued);
      RemoveFromQueue(Stuck(pending));
      retryable := Retryable(pending);
      rows := Rewrite(rows, Ids(retryable), UploadInFlight, false);
    }

    /** Takes a batch, sends it and acts on the answer. */
    method SendBatch(requeued: set<nat>, response: Response)
        returns (waiting: set<nat>, full: bool, over: Option<Outcome>)
      requires Sorted(rows)
      modifies this
      ensures var b := OneBatch(old(rows), old(Now()), requeued, response);
              rows == b.rows && Now() == b.counters && waiting == b.waiting && full == b.full && over == b.over
      ensures cursor == old(cursor)
    {
      var pending, retryable := TakeBatch(requeued);
      full := |pending| >= MAX_UPLOAD_BATCH;
      if retryable == [] {
        waiting, over := {}, if full then None else Some(Finished(false));
        return;
      }
      match response {
        case Failed =>
          rows := Rewrite(rows, Ids(retryable), LocalQueued, false);
          waiting, over := {}, Some(RequestFailed);
        case Judged(verdicts) =>
          var reissued;
          waiting, reissued := ApplyVerdicts(retryable, verdicts);
          var progressed := Stuck(pending) != {} || verdicts != map[];
          over := if !progressed || (!full && !reissued) then Some(Finished(false)) else None;
      }
    }

    /** Uploads the queue, batch by batch; `respond(n)` is what batch `n` of the cycle
        comes back with. */
    method UploadPending(respond: nat -> Response) returns (r: Outcome)
      requires ValidRows(rows, Now())
      modifies this
      ensures ValidRows(rows, Now()) && cursor == old(cursor)
      ensures var run := Run(old(rows), old(Now()), {}, NoTrace(), false, 0, respond);
              run.outcome == r && rows == run.rows && Now() == run.counters
    {
      hide OneBatch, Run, ValidRows, Extend;
      var requeuedThisCycle: set<nat> := {};
      var lastBatchFull := false;
      ghost var t := NoTrace();
      var batch := 0;
      while batch < MAX_BATCHES_PER_CYCLE
        invariant batch <= MAX_BATCHES_PER_CYCLE && cursor == old(cursor) && ValidRows(rows, Now())
        invariant Run(old(rows), old(Now()), {}, NoTrace(), false, 0, respond) == Run(rows, Now(), requeuedThisCycle,
          t, lastBatchFull, batch, respond)
      {
        ghost var b := OneBatch(rows, Now(), requeuedThisCycle, respond(batch));
        BatchKeepsValid(rows, Now(), requeuedThisCycle, respond(batch));
        ValidSorted(rows, Now());
        RunStep(rows, Now(), requeuedThisCycle, t, lastBatchFull, batch, respond);
        var waiting, full, over := SendBatch(requeuedThisCycle, respond(batch));
        requeuedThisCycle, t, lastBatchFull := requeuedThisCycle + waiting, Extend(t, b.added), full;
        batch := batch + 1;
        match over {
          case Some(outcome) => return outcome;
          case None =>
        }
      }
      RunStep(rows, Now(), requeuedThisCycle, t, lastBatchFull, batch, respond);
      r := Finished(lastBatchFull);
    }
  }
}
