// When an upload cycle that reports nothing more to do leaves something due.
module UploadBudget {
  import opened Wrappers
  import opened UploadQueue

  // A batch about to be taken, the `batch`-th of its cycle.
  datatype Turn = Turn(rows: seq<Pending>, counters: Counters, requeued: set<nat>, batch: nat)

  /** The last batch of a cycle. */
  function LastTurn(t: Turn, respond: nat -> Response): Turn
    decreases MAX_BATCHES_PER_CYCLE - t.batch
  {
    var b := OneBatch(t.rows, t.counters, t.requeued, respond(t.batch));
    if b.over.Some? || t.batch + 1 >= MAX_BATCHES_PER_CYCLE then t
    else LastTurn(Turn(b.rows, b.counters, t.requeued + b.waiting, t.batch + 1), respond)
  }

  /** The server answers for what it was sent and nothing else. */
  ghost predicate AnswersTheSent(t: Turn, respond: nat -> Response)
    decreases MAX_BATCHES_PER_CYCLE - t.batch
  {
    var response := respond(t.batch);
    var b := OneBatch(t.rows, t.counters, t.requeued, response);
    && (response.Judged? ==> response.verdicts.Keys <= Ids(Retryable(FirstDue(t.rows, MAX_UPLOAD_BATCH, t.requeued))))
    && (b.over.None? && t.batch + 1 < MAX_BATCHES_PER_CYCLE ==>
      AnswersTheSent(Turn(b.rows, b.counters, t.requeued + b.waiting, t.batch + 1), respond))
  }

  /** A restore that can be read is rejected, and comes back as a create. */
  predicate MakesCreate(batch: seq<Pending>, verdicts: map<nat, Verdict>)
  {
    Readable(UnknownRestores(batch, verdicts)) != []
  }

  /** More is due than the batch takes. */
  ghost predicate Overflows(t: Turn)
  {
    exists p :: p in t.rows && Due(p, t.requeued) && p !in FirstDue(t.rows, MAX_UPLOAD_BATCH, t.requeued)
  }

  /** The last batch got an answer without a verdict while more was due than it
      carried, or it was the last the cycle may send, not full, and turned a restore
      into a create. */
  ghost predicate LeavesDue(t: Turn, response: Response)
  {
    var pending := FirstDue(t.rows, MAX_UPLOAD_BATCH, t.requeued);
    && response.Judged? && Retryable(pending) != []
    && ((response.verdicts == map[] && Stuck(pending) == {} && Overflows(t))
        || (t.batch + 1 == MAX_BATCHES_PER_CYCLE && |pending| < MAX_UPLOAD_BATCH
          && MakesCreate(Retryable(pending), response.verdicts)))
  }

  // --- An answer without a verdict ---

  lemma {:induction false} RemainingNone(rows: seq<Pending>, ids: set<nat>)
    requires forall p :: p in rows ==> p.op.id !in ids
    ensures Remaining(rows, ids) == rows
  {
    if rows != [] {
      var rest, last := rows[..|rows| - 1], rows[|rows| - 1];
      RemainingNone(rest, ids);
      assert last in rows && rows == rest + [last];
    }
  }

  lemma RewriteNone(rows: seq<Pending>, ids: set<nat>, state: State, counted: bool)
    requires ids == {}
    ensures Rewrite(rows, ids, state, counted) == rows
  {
  }

  lemma {:induction false} NoneAnswered(batch: seq<Pending>, verdicts: map<nat, Verdict>, v: set<Verdict>)
    requires verdicts == map[]
    ensures WithVerdict(batch, verdicts, v) == []
  {
    if batch != [] { NoneAnswered(batch[1..], verdicts, v); }
  }

  lemma ResolvesNone(rows: seq<Pending>, verdicts: map<nat, Verdict>)
    requires verdicts == map[]
    ensures Resolve(rows, verdicts) == rows
  {
    assert AnsweredWith(verdicts, {Accepted, Duplicate}) == {};
    RemainingNone(rows, {});
  }

  lemma RequeuesNone(rows: seq<Pending>, batch: seq<Pending>, verdicts: map<nat, Verdict>)
    requires verdicts == map[]
    ensures Requeue(rows, batch, {}, verdicts) == rows
  {
    assert AnsweredWith(verdicts, {Refused}) == {};
    RemainingNone(rows, {});
    RewriteNone(rows, Ids(batch) * {}, LocalQueued, true);
  }

  lemma NoVerdicts(rows: seq<Pending>, batch: seq<Pending>, verdicts: map<nat, Verdict>, c: Counters)
    requires verdicts == map[]
    ensures var v := OnVerdicts(rows, batch, verdicts, c);
      v.rows == rows && v.waiting == {} && !v.reissued && v.added == []
  {
    NoneAnswered(batch, verdicts, {ObjectNotFound});
    assert UnknownRestores(batch, verdicts) == [];
    assert AnsweredWith(verdicts, {ObjectNotFound}) - Ids([]) == {};
    ResolvesNone(rows, verdicts);
    RequeuesNone(rows, batch, verdicts);
    hide Resolve, Requeue, UnknownRestores, AnsweredWith;
  }

  /** What is due and not taken is still there, due. */
  lemma RestStays(rows: seq<Pending>, requeued: set<nat>, p: Pending)
    requires Sorted(rows) && p in rows && Due(p, requeued) && p !in FirstDue(rows, MAX_UPLOAD_BATCH, requeued)
    ensures p in Taken(rows, FirstDue(rows, MAX_UPLOAD_BATCH, requeued))
  {
    var pending := FirstDue(rows, MAX_UPLOAD_BATCH, requeued);
    FirstDueMembers(rows, MAX_UPLOAD_BATCH, requeued);
    forall q | q in pending ensures q.op.id != p.op.id { if q.op.id == p.op.id { SameIdSameRow(rows, p, q); } }
    var kept := Remaining(rows, Stuck(pending));
    assert p.op.id !in Stuck(pending) && p.op.id !in Ids(Retryable(pending));
    var i :| 0 <= i < |kept| && kept[i] == p;
    assert Taken(rows, pending)[i] == p;
  }

  lemma SilentLeaves(t: Turn)
    requires Sorted(t.rows)
    ensures var pending := FirstDue(t.rows, MAX_UPLOAD_BATCH, t.requeued);
      NothingDue(Taken(t.rows, pending), t.requeued) <==> !Overflows(t)
  {
    var pending := FirstDue(t.rows, MAX_UPLOAD_BATCH, t.requeued);
    forall p | p in t.rows && Due(p, t.requeued) && p !in pending ensures p in Taken(t.rows, pending) {
      RestStays(t.rows, t.requeued, p);
    }
    forall p | p in Taken(t.rows, pending) && Due(p, t.requeued) ensures p in t.rows && p !in pending {
      TakenDue(t.rows, pending, t.requeued, p);
    }
    hide FirstDue, Taken;
  }

  // --- An answer that turns restores into creates ---

  lemma AnsweredAre(batch: seq<Pending>, verdicts: map<nat, Verdict>, v: set<Verdict>)
    requires verdicts.Keys <= Ids(batch)
    ensures AnsweredWith(verdicts, v) <= Ids(batch)
  {
  }

  lemma RequeueSpares(rows: seq<Pending>, batch: seq<Pending>, waiting: set<nat>, verdicts: map<nat, Verdict>,
      p: Pending)
    requires p in rows && p.op.id !in Ids(batch) && verdicts.Keys <= Ids(batch)
    ensures p in Requeue(rows, batch, waiting, verdicts)
  {
    AnsweredAre(batch, verdicts, {Refused});
    hide Ids, AnsweredWith;
    var i :| 0 <= i < |rows| && rows[i] == p;
    assert Rewrite(rows, Ids(batch) * waiting, LocalQueued, true)[i] == p;
  }

  lemma CreateQueued(rows: seq<Pending>, restores: seq<Pending>, c: Counters)
    requires Readable(restores) != []
    ensures var added := Reissued(Readable(restores), c);
      added[0] in Reissue(rows, restores, c) && added[0].op.id == c.nextId && added[0].state == LocalQueued
  {
    var added := Reissued(Readable(restores), c);
    assert restores != [] && added[0] in added;
  }

  lemma CreateInQueue(rows: seq<Pending>, batch: seq<Pending>, verdicts: map<nat, Verdict>, c: Counters)
      returns (p: Pending)
    requires verdicts.Keys <= Ids(batch) && MakesCreate(batch, verdicts)
    requires forall p :: p in batch ==> p.op.id < c.nextId
    ensures p in OnVerdicts(rows, batch, verdicts, c).rows && p.op.id == c.nextId && p.state == LocalQueued
  {
    assert c.nextId !in Ids(batch);
    hide AnsweredWith, Resolve, UnknownRestores, Ids, Requeue, Reissue, Reissued, Readable;
    var restores := UnknownRestores(batch, verdicts);
    CreateQueued(Resolve(rows, verdicts), restores, c);
    p := Reissued(Readable(restores), c)[0];
    RequeueSpares(Reissue(Resolve(rows, verdicts), restores, c), batch,
      AnsweredWith(verdicts, {ObjectNotFound}) - Ids(restores), verdicts, p);
  }

  lemma NewIdDoesNotWait(rows: seq<Pending>, batch: seq<Pending>, verdicts: map<nat, Verdict>, c: Counters)
    requires verdicts.Keys <= Ids(batch) && forall p :: p in batch ==> p.op.id < c.nextId
    ensures c.nextId !in OnVerdicts(rows, batch, verdicts, c).waiting
  {
    hide Requeue, Reissue, Resolve, UnknownRestores;
  }

  /** A create is left due. */
  lemma CreateStays(rows: seq<Pending>, batch: seq<Pending>, verdicts: map<nat, Verdict>, c: Counters,
      requeued: set<nat>)
    requires verdicts.Keys <= Ids(batch) && MakesCreate(batch, verdicts)
    requires forall p :: p in batch ==> p.op.id < c.nextId
    requires forall id :: id in requeued ==> id < c.nextId
    ensures var v := OnVerdicts(rows, batch, verdicts, c); !NothingDue(v.rows, requeued + v.waiting)
  {
    hide OnVerdicts, MakesCreate, Ids;
    var p := CreateInQueue(rows, batch, verdicts, c);
    NewIdDoesNotWait(rows, batch, verdicts, c);
    assert c.nextId !in requeued;
  }

  /** Verdicts make nothing due but creates. */
  lemma OnlyCreatesAreDue(rows: seq<Pending>, batch: seq<Pending>, verdicts: map<nat, Verdict>, c: Counters,
      requeued: set<nat>, p: Pending)
    requires var v := OnVerdicts(rows, batch, verdicts, c); p in v.rows && Due(p, requeued + v.waiting)
    ensures (p in rows && Due(p, requeued)) || p in OnVerdicts(rows, batch, verdicts, c).added
  {
    var restores := UnknownRestores(batch, verdicts);
    var v := OnVerdicts(rows, batch, verdicts, c);
    hide UnknownRestores, AnsweredWith;
    RewriteAre(Reissue(Resolve(rows, verdicts), restores, c), Ids(batch) * v.waiting, LocalQueued, true);
  }

  // --- One batch ---

  /** The ids in use have been given out. */
  ghost predicate ValidTurn(t: Turn)
  {
    ValidRows(t.rows, t.counters) && forall id :: id in t.requeued ==> id < t.counters.nextId
  }

  lemma TurnKeepsValid(t: Turn, response: Response)
    requires ValidTurn(t)
    requires response.Judged? ==>
      response.verdicts.Keys <= Ids(Retryable(FirstDue(t.rows, MAX_UPLOAD_BATCH, t.requeued)))
    ensures var b := OneBatch(t.rows, t.counters, t.requeued, response);
      ValidTurn(Turn(b.rows, b.counters, t.requeued + b.waiting, t.batch + 1))
  {
    var b := OneBatch(t.rows, t.counters, t.requeued, response);
    BatchKeepsValid(t.rows, t.counters, t.requeued, response);
    BatchIdsKnown(t);
    WaitingAreKnown(t, response);
    hide ValidRows, OneBatch;
  }

  lemma BatchIdsKnown(t: Turn)
    requires ValidTurn(t)
    ensures forall p :: p in Retryable(FirstDue(t.rows, MAX_UPLOAD_BATCH, t.requeued)) ==> p.op.id < t.counters.nextId
  {
    FirstDueMembers(t.rows, MAX_UPLOAD_BATCH, t.requeued);
  }

  lemma WaitingAreKnown(t: Turn, response: Response)
    requires response.Judged? ==>
      response.verdicts.Keys <= Ids(Retryable(FirstDue(t.rows, MAX_UPLOAD_BATCH, t.requeued)))
    requires forall p :: p in Retryable(FirstDue(t.rows, MAX_UPLOAD_BATCH, t.requeued)) ==> p.op.id < t.counters.nextId
    ensures var b := OneBatch(t.rows, t.counters, t.requeued, response);
      b.counters.nextId >= t.counters.nextId && forall id :: id in b.waiting ==> id < t.counters.nextId
  {
    hide FirstDue, Taken;
  }

  /** A batch that ends its cycle well leaves something due exactly if it got no
      verdict and was not all. */
  lemma EndsWell(t: Turn, response: Response)
    requires ValidTurn(t)
    requires OneBatch(t.rows, t.counters, t.requeued, response).over == Some(Finished(false))
    ensures var b := OneBatch(t.rows, t.counters, t.requeued, response);
            NothingDue(b.rows, t.requeued + b.waiting) <==> !b.silent || !Overflows(t)
  {
    var b := OneBatch(t.rows, t.counters, t.requeued, response);
    if b.silent {
      var pending := FirstDue(t.rows, MAX_UPLOAD_BATCH, t.requeued);
      NoVerdicts(Taken(t.rows, pending), Retryable(pending), response.verdicts, t.counters);
      SilentLeaves(t);
      assert t.requeued + {} == t.requeued;
    } else {
      NothingDueAfter(t.rows, t.counters, t.requeued, response);
    }
  }

  /** A batch that was not full and does not end its cycle leaves something due
      exactly if it made a create. */
  lemma GoesOn(t: Turn, response: Response)
    requires ValidTurn(t)
    requires (response.Judged? ==>
      response.verdicts.Keys <= Ids(Retryable(FirstDue(t.rows, MAX_UPLOAD_BATCH, t.requeued))))
    requires var b := OneBatch(t.rows, t.counters, t.requeued, response); b.over.None? && !b.full
    ensures var b := OneBatch(t.rows, t.counters, t.requeued, response);
            && response.Judged? && Retryable(FirstDue(t.rows, MAX_UPLOAD_BATCH, t.requeued)) != []
            && (NothingDue(b.rows, t.requeued + b.waiting) <==>
              !MakesCreate(Retryable(FirstDue(t.rows, MAX_UPLOAD_BATCH, t.requeued)), response.verdicts))
  {
    var pending := FirstDue(t.rows, MAX_UPLOAD_BATCH, t.requeued);
    var taken, batch := Taken(t.rows, pending), Retryable(pending);
    var v := OnVerdicts(taken, batch, response.verdicts, t.counters);
    ShortBatchTakesAll(t.rows, t.requeued);
    BatchIdsKnown(t);
    hide FirstDue, Taken, OnVerdicts, ValidTurn, Retryable, UnknownRestores;
    if MakesCreate(batch, response.verdicts) {
      CreateStays(taken, batch, response.verdicts, t.counters, t.requeued);
    } else {
      AddedAre(taken, batch, response.verdicts, t.counters);
      forall p | p in v.rows ensures !Due(p, t.requeued + v.waiting) {
        if Due(p, t.requeued + v.waiting) {
          OnlyCreatesAreDue(taken, batch, response.verdicts, t.counters, t.requeued, p);
        }
      }
    }
  }

  lemma AddedAre(rows: seq<Pending>, batch: seq<Pending>, verdicts: map<nat, Verdict>, c: Counters)
    ensures OnVerdicts(rows, batch, verdicts, c).added == [] <==> !MakesCreate(batch, verdicts)
  {
    hide UnknownRestores;
  }

  // --- The whole cycle ---

  /** The run from batch `t.batch` on, in terms of its last batch. */
  lemma {:induction false} RunLeavesDueIff(t: Turn, trace: Trace, lastBatchFull: bool, respond: nat -> Response)
    requires t.batch < MAX_BATCHES_PER_CYCLE && ValidTurn(t) && AnswersTheSent(t, respond)
    ensures var run := Run(t.rows, t.counters, t.requeued, trace, lastBatchFull, t.batch, respond);
            var last := LastTurn(t, respond);
            run.outcome == Finished(false) ==>
              (NothingDue(run.rows, run.requeued) <==> !LeavesDue(last, respond(last.batch)))
    decreases MAX_BATCHES_PER_CYCLE - t.batch
  {
    hide Run, OneBatch, ValidTurn, LeavesDue, NothingDue, FirstDue, Retryable, Ids;
    var response := respond(t.batch);
    var b := OneBatch(t.rows, t.counters, t.requeued, response);
    var next := Turn(b.rows, b.counters, t.requeued + b.waiting, t.batch + 1);
    RunStep(t.rows, t.counters, t.requeued, trace, lastBatchFull, t.batch, respond);
    if b.over.Some? {
      if b.over == Some(Finished(false)) { LastOfCycle(t, response); }
    } else {
      TurnKeepsValid(t, response);
      RunStep(b.rows, b.counters, next.requeued, Extend(trace, b.added), b.full, next.batch, respond);
      if next.batch < MAX_BATCHES_PER_CYCLE {
        RunLeavesDueIff(next, Extend(trace, b.added), b.full, respond);
      } else if !b.full {
        LastOfBudget(t, response);
      }
    }
  }

  lemma EndReasons(t: Turn, response: Response)
    requires OneBatch(t.rows, t.counters, t.requeued, response).over == Some(Finished(false))
    ensures OneBatch(t.rows, t.counters, t.requeued, response).silent && Overflows(t) <==> LeavesDue(t, response)
  {
    hide FirstDue, Taken, Overflows, Retryable, Stuck, WithVerdict, Restores, Requeue, Resolve, Reissue, AnsweredWith;
  }

  lemma LastOfCycle(t: Turn, response: Response)
    requires ValidTurn(t) && OneBatch(t.rows, t.counters, t.requeued, response).over == Some(Finished(false))
    ensures var b := OneBatch(t.rows, t.counters, t.requeued, response);
            NothingDue(b.rows, t.requeued + b.waiting) <==> !LeavesDue(t, response)
  {
    hide OneBatch, LeavesDue, Overflows, ValidTurn, NothingDue;
    EndsWell(t, response);
    EndReasons(t, response);
  }

  lemma LastOfBudget(t: Turn, response: Response)
    requires ValidTurn(t)
    requires (response.Judged? ==>
      response.verdicts.Keys <= Ids(Retryable(FirstDue(t.rows, MAX_UPLOAD_BATCH, t.requeued))))
    requires var b := OneBatch(t.rows, t.counters, t.requeued, response); b.over.None? && !b.full
    requires t.batch + 1 == MAX_BATCHES_PER_CYCLE
    ensures var b := OneBatch(t.rows, t.counters, t.requeued, response);
            NothingDue(b.rows, t.requeued + b.waiting) <==> !LeavesDue(t, response)
  {
    GoesOn(t, response);
    hide FirstDue, Taken, NothingDue, Overflows, ValidTurn, MakesCreate;
  }

  /** A cycle that reports nothing more to do leaves something due if and only if its
      last batch got no verdict while more was due than it carried, or used up the
      cycle's budget, not full, and turned a restore into a create. */
  lemma FinishedLeavesDueIff(rows: seq<Pending>, c: Counters, respond: nat -> Response)
    requires ValidRows(rows, c) && AnswersTheSent(Turn(rows, c, {}, 0), respond)
    ensures var run := Run(rows, c, {}, NoTrace(), false, 0, respond);
            var last := LastTurn(Turn(rows, c, {}, 0), respond);
            run.outcome == Finished(false) ==>
              (NothingDue(run.rows, run.requeued) <==> !LeavesDue(last, respond(last.batch)))
  {
    RunLeavesDueIff(Turn(rows, c, {}, 0), NoTrace(), false, respond);
  }

  // --- A cycle whose budget runs out on a restore ---

  const FULL_BATCHES := MAX_BATCHES_PER_CYCLE - 1
  const LAST := 24_500

  /** The first row of batch `n`. */
  function First(n: nat): nat
  {
    500 * n
  }

  function Row(i: nat): Pending
  {
    Pending(LocalOperation(i, i, i, i, if i == LAST then RestoreBookmark else OtherKind, Some(0)), LocalQueued, 0)
  }

  /** Enough for 49 full batches, and one restore; from batch `n` on. */
  function Backlog(n: nat): (rows: seq<Pending>)
    requires n <= FULL_BATCHES
    ensures |rows| == LAST + 1 - First(n) && forall i :: 0 <= i < |rows| ==> rows[i] == Row(First(n) + i)
  {
    seq(LAST + 1 - First(n), i requires 0 <= i => Row(First(n) + i))
  }

  /** Batch `n` of it. */
  function Batch(n: nat): (batch: seq<Pending>)
    ensures |batch| == (if n < FULL_BATCHES then MAX_UPLOAD_BATCH else 1) && forall i :: 0 <= i < |batch| ==>
      batch[i] == Row(First(n) + i)
  {
    seq(if n < FULL_BATCHES then MAX_UPLOAD_BATCH else 1, i requires 0 <= i => Row(First(n) + i))
  }

  /** Everything is accepted but the restore, of an object the server never saw. */
  function Answer(n: nat): Response
  {
    Judged(map id | id in Ids(Batch(n)) :: if id == LAST then ObjectNotFound else Accepted)
  }

  function Answers(): nat -> Response
  {
    (n: nat) => Answer(n)
  }

  const EVERYTHING := Counters(LAST, LAST, LAST + 1)

  lemma {:induction false} FirstDueAll(rows: seq<Pending>, limit: nat)
    requires forall p :: p in rows ==> Due(p, {})
    ensures FirstDue(rows, limit, {}) == if limit < |rows| then rows[..limit] else rows
  {
    if rows != [] && limit > 0 {
      assert rows[0] in rows && forall p :: p in rows[1..] ==> p in rows;
      FirstDueAll(rows[1..], limit - 1);
      assert rows == [rows[0]] + rows[1..];
    }
  }

  lemma {:induction false} RetryableAll(rows: seq<Pending>)
    requires forall p :: p in rows ==> p.attempts == 0
    ensures Retryable(rows) == rows && Stuck(rows) == {}
  {
    if rows != [] {
      assert rows[0] in rows && forall p :: p in rows[1..] ==> p in rows;
      RetryableAll(rows[1..]);
    }
  }

  lemma {:induction false} RemainingFirst(rows: seq<Pending>, k: nat, ids: set<nat>)
    requires k <= |rows| && forall i :: 0 <= i < |rows| ==> (rows[i].op.id in ids <==> i < k)
    ensures Remaining(rows, ids) == rows[k..]
  {
    if rows != [] {
      var rest, last := rows[..|rows| - 1], rows[|rows| - 1];
      if k < |rows| {
        RemainingFirst(rest, k, ids);
        assert rows[k..] == rest[k..] + [last];
      } else {
        RemainingFirst(rest, k - 1, ids);
      }
    }
  }

  lemma BatchIds(n: nat)
    ensures forall id :: id in Ids(Batch(n)) <==> First(n) <= id < First(n) + |Batch(n)|
  {
    var batch := Batch(n);
    forall id: nat | First(n) <= id < First(n) + |batch| ensures id in Ids(batch) {
      assert batch[id - First(n)] == Row(id) && batch[id - First(n)] in batch;
    }
    forall id | id in Ids(batch) ensures First(n) <= id < First(n) + |batch| {
      var p :| p in batch && p.op.id == id;
      var i :| 0 <= i < |batch| && batch[i] == p;
    }
  }

  lemma BacklogBatch(n: nat)
    requires n <= FULL_BATCHES
    ensures FirstDue(Backlog(n), MAX_UPLOAD_BATCH, {}) == Batch(n)
    ensures Retryable(Batch(n)) == Batch(n) && Stuck(Batch(n)) == {}
  {
    var rows := Backlog(n);
    forall p | p in rows ensures Due(p, {}) { var i :| 0 <= i < |rows| && rows[i] == p; }
    FirstDueAll(rows, MAX_UPLOAD_BATCH);
    assert Batch(n) == if MAX_UPLOAD_BATCH < |rows| then rows[..MAX_UPLOAD_BATCH] else rows;
    forall p | p in Batch(n) ensures p.attempts == 0 { var i :| 0 <= i < |Batch(n)| && Batch(n)[i] == p; }
    RetryableAll(Batch(n));
  }

  lemma {:induction false} NoneOf(batch: seq<Pending>, verdicts: map<nat, Verdict>, v: set<Verdict>)
    requires forall id :: id in verdicts ==> verdicts[id] !in v
    ensures WithVerdict(batch, verdicts, v) == []
  {
    if batch != [] { NoneOf(batch[1..], verdicts, v); }
  }

  lemma AllAccepted(n: nat)
    requires n < FULL_BATCHES
    ensures var verdicts := Answer(n).verdicts;
            && AnsweredWith(verdicts, {Accepted, Duplicate}) == Ids(Batch(n))
            && AnsweredWith(verdicts, {ObjectNotFound}) == {} && AnsweredWith(verdicts, {Refused}) == {}
            && UnknownRestores(Batch(n), verdicts) == [] && verdicts != map[]
  {
    BatchIds(n);
    NoneOf(Batch(n), Answer(n).verdicts, {ObjectNotFound});
    assert First(n) in Answer(n).verdicts;
  }

  lemma BatchInFlight(n: nat)
    requires n <= FULL_BATCHES
    ensures Taken(Backlog(n), Batch(n)) == Rewrite(Backlog(n), Ids(Batch(n)), UploadInFlight, false)
  {
    BacklogBatch(n);
    hide Ids, FirstDue, Retryable, Stuck;
    RemainingNone(Backlog(n), {});
  }

  lemma RestOfBacklog(n: nat, taken: seq<Pending>, ids: set<nat>)
    requires n < FULL_BATCHES && taken == Rewrite(Backlog(n), ids, UploadInFlight, false)
    requires forall id :: id in ids <==> First(n) <= id < First(n) + MAX_UPLOAD_BATCH
    ensures Remaining(taken, ids) == Backlog(n + 1)
  {
    assert forall i :: 0 <= i < |taken| ==> taken[i].op.id == First(n) + i;
    RemainingFirst(taken, MAX_UPLOAD_BATCH, ids);
    var rest := taken[MAX_UPLOAD_BATCH..];
    forall i | 0 <= i < |rest| ensures rest[i] == Row(First(n + 1) + i) {
      assert rest[i] == taken[MAX_UPLOAD_BATCH + i];
    }
    assert rest == Backlog(n + 1);
  }

  lemma FullBatchJudged(n: nat)
    requires n < FULL_BATCHES
    ensures OnVerdicts(Taken(Backlog(n), Batch(n)), Batch(n), Answer(n).verdicts,
      EVERYTHING) == Judgement(Backlog(n + 1), EVERYTHING, {}, false, [])
  {
    var verdicts, taken := Answer(n).verdicts, Taken(Backlog(n), Batch(n));
    AllAccepted(n);
    BatchIds(n);
    BatchInFlight(n);
    RestOfBacklog(n, taken, Ids(Batch(n)));
    hide Taken, AnsweredWith, UnknownRestores, Ids, Backlog, Batch, Answer, Remaining, Requeue, First;
    RequeuesNothing(Backlog(n + 1), Batch(n), verdicts);
    assert Resolve(taken, verdicts) == Backlog(n + 1);
    assert {} - Ids([]) == {};
  }

  /** A full batch is accepted and leaves the queue. */
  lemma FullBatch(n: nat)
    requires n < FULL_BATCHES
    ensures var b := OneBatch(Backlog(n), EVERYTHING, {}, Answer(n));
            b.over.None? && b.full && b.rows == Backlog(n + 1) && b.counters == EVERYTHING && b.waiting == {}
  {
    assert |Batch(n)| == MAX_UPLOAD_BATCH;
    hide FirstDue, Stuck, Retryable, Taken, Backlog, Batch, Ids, OnVerdicts, First;
    BacklogBatch(n);
    AllAccepted(n);
    FullBatchJudged(n);
    hide Answer, AnsweredWith, UnknownRestores;
  }

  lemma RequeuesNothing(rows: seq<Pending>, batch: seq<Pending>, verdicts: map<nat, Verdict>)
    requires AnsweredWith(verdicts, {Refused}) == {}
    ensures Requeue(rows, batch, {}, verdicts) == rows
  {
    RemainingNone(rows, {});
    RewriteNone(rows, Ids(batch) * {}, LocalQueued, true);
  }

  /** The last batch the cycle may send holds the restore alone. */
  lemma LastBatch()
    ensures var b := OneBatch(Backlog(FULL_BATCHES), EVERYTHING, {}, Answer(FULL_BATCHES));
            b.over.None? && !b.full
              && LeavesDue(Turn(Backlog(FULL_BATCHES), EVERYTHING, {}, FULL_BATCHES), Answer(FULL_BATCHES))
  {
    var rows, verdicts := Batch(FULL_BATCHES), Answer(FULL_BATCHES).verdicts;
    BacklogBatch(FULL_BATCHES);
    BatchIds(FULL_BATCHES);
    assert rows == [Row(LAST)] && LAST in verdicts && verdicts[LAST] == ObjectNotFound;
    hide FirstDue, Taken, Requeue, Resolve, Ids, Stuck;
    assert rows[1..] == [];
    assert WithVerdict(rows, verdicts, {ObjectNotFound}) == [Row(LAST)] + [] == rows;
    assert Restores(rows) == [Row(LAST)] + [] == rows;
    assert Readable(rows) == [Row(LAST)] + [] == rows;
    assert verdicts != map[];
  }

  lemma BacklogIsValid()
    ensures ValidRows(Backlog(0), EVERYTHING)
  {
    var rows := Backlog(0);
    forall p | p in rows ensures Within(p.op, EVERYTHING) { var i :| 0 <= i < |rows| && rows[i] == p; }
  }

  /** 49 full batches and a restore: the cycle reports nothing more to do, and the
      create that the restore has become is due. */
  lemma BudgetRunsOut()
    ensures ValidRows(Backlog(0), EVERYTHING) && AnswersTheSent(Turn(Backlog(0), EVERYTHING, {}, 0), Answers())
    ensures var run := Run(Backlog(0), EVERYTHING, {}, NoTrace(), false, 0, Answers());
            run.outcome == Finished(false) && !NothingDue(run.rows, run.requeued)
  {
    BacklogIsValid();
    hide ValidRows, NothingDue, LeavesDue;
    BacklogRun(0, NoTrace(), false, Answers());
    FinishedLeavesDueIff(Backlog(0), EVERYTHING, Answers());
  }

  lemma {:induction false} BacklogRun(n: nat, trace: Trace, lastBatchFull: bool, respond: nat -> Response)
    requires n <= FULL_BATCHES && forall m :: respond(m) == Answer(m)
    ensures AnswersTheSent(Turn(Backlog(n), EVERYTHING, {}, n), respond)
    ensures LastTurn(Turn(Backlog(n), EVERYTHING, {}, n), respond) == Turn(Backlog(FULL_BATCHES), EVERYTHING, {},
      FULL_BATCHES)
    ensures Run(Backlog(n), EVERYTHING, {}, trace, lastBatchFull, n, respond).outcome == Finished(false)
    ensures LeavesDue(Turn(Backlog(FULL_BATCHES), EVERYTHING, {}, FULL_BATCHES), respond(FULL_BATCHES))
    decreases FULL_BATCHES - n
  {
    hide OneBatch, Run, Backlog, LeavesDue, FirstDue, Retryable, Stuck, Ids, Batch, First;
    var t := Turn(Backlog(n), EVERYTHING, {}, n);
    var b := OneBatch(t.rows, t.counters, t.requeued, respond(n));
    BacklogBatch(n);
    assert Answer(n).verdicts.Keys == Ids(Batch(n));
    hide Answer;
    RunStep(t.rows, t.counters, t.requeued, trace, lastBatchFull, n, respond);
    if n < FULL_BATCHES {
      FullBatch(n);
      assert t.requeued + b.waiting == {};
      BacklogRun(n + 1, Extend(trace, b.added), b.full, respond);
    } else {
      LastBatch();
      RunStep(b.rows, b.counters, t.requeued + b.waiting, Extend(trace, b.added), b.full, n + 1, respond);
    }
  }
}
