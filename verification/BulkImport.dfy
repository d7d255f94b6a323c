// The resumable import of the history in large chunks: the visits are
// streamed in a fixed order, cut into segments, and segments into chunks.
module BulkImport {
  import opened Wrappers

  datatype Visit = Visit(url: string, time: nat)

  // One URL's visits, or the part of them that falls into a segment.
  datatype CollectedGroup = CollectedGroup(url: string, times: seq<nat>)

  type Segment = seq<Visit>
  type Chunk = seq<Segment>

  const BULK_SEGMENT_VISITS := 10_000
  const BULK_CHUNK_TARGET_VISITS := 100_000
  const BULK_CHUNK_TARGET_BYTES := 20 * 1024 * 1024
  const BULK_HARD_ABORT_BYTES := 90 * 1024 * 1024

  // --- Visits of groups, segments and chunks ---

  function VisitsOf(g: CollectedGroup): (v: seq<Visit>)
    ensures |v| == |g.times|
  {
    seq(|g.times|, i requires 0 <= i < |g.times| => Visit(g.url, g.times[i]))
  }

  function Flat(groups: seq<CollectedGroup>): seq<Visit>
  {
    if groups == [] then [] else Flat(groups[..|groups| - 1]) + VisitsOf(groups[|groups| - 1])
  }

  function Joined(segments: seq<Segment>): seq<Visit>
  {
    if segments == [] then [] else Joined(segments[..|segments| - 1]) + segments[|segments| - 1]
  }

  function AllVisits(chunks: seq<Chunk>): seq<Visit>
  {
    if chunks == [] then [] else AllVisits(chunks[..|chunks| - 1]) + Joined(chunks[|chunks| - 1])
  }

  // --- How a stream is cut ---

  // The size of a segment's ciphertext, whatever it is, depends on its visits.
  type Sizes = Segment -> nat

  function Bytes(segments: seq<Segment>, size: Sizes): nat
  {
    if segments == [] then 0 else Bytes(segments[..|segments| - 1], size) + size(segments[|segments| - 1])
  }

  predicate Full(segments: seq<Segment>, size: Sizes)
  {
    Bytes(segments, size) >= BULK_CHUNK_TARGET_BYTES || |Joined(segments)| >= BULK_CHUNK_TARGET_VISITS
  }

  function SegmentsFrom(v: seq<Visit>): seq<Segment>
  {
    if v == [] then []
    else if |v| <= BULK_SEGMENT_VISITS then [v]
    else [v[..BULK_SEGMENT_VISITS]] + SegmentsFrom(v[BULK_SEGMENT_VISITS..])
  }

  /** The chunks still to come when `current` is being filled. */
  function ChunksFrom(current: Chunk, segments: seq<Segment>, size: Sizes): seq<Chunk>
    decreases |segments|
  {
    if segments == [] then if current == [] then [] else [current]
    else
      var next := current + [segments[0]];
      if Full(next, size) then [next] + ChunksFrom([], segments[1..], size)
      else ChunksFrom(next, segments[1..], size)
  }

  /** The chunks of an import that is never interrupted. */
  function ChunksOf(stream: seq<Visit>, size: Sizes): seq<Chunk>
  {
    ChunksFrom([], SegmentsFrom(stream), size)
  }

  lemma JoinedAppend(a: seq<Segment>, s: Segment)
    ensures Joined(a + [s]) == Joined(a) + s
  {
    assert (a + [s])[..|a|] == a;
  }

  lemma {:induction false} JoinedConcat(a: seq<Segment>, b: seq<Segment>)
    ensures Joined(a + b) == Joined(a) + Joined(b)
  {
    if b == [] {
      assert a + b == a;
    } else {
      var n := |b| - 1;
      JoinedConcat(a, b[..n]);
      assert a + b == (a + b[..n]) + [b[n]] && b == b[..n] + [b[n]];
      JoinedAppend(a + b[..n], b[n]);
      JoinedAppend(b[..n], b[n]);
      hide Joined;
    }
  }

  lemma AllVisitsOneMore(all: seq<Chunk>, k: nat)
    requires k < |all|
    ensures AllVisits(all[..k + 1]) == AllVisits(all[..k]) + Joined(all[k])
  {
    assert all[..k + 1][..k] == all[..k];
  }

  lemma {:induction false} AllVisitsCons(c: Chunk, rest: seq<Chunk>)
    ensures AllVisits([c] + rest) == Joined(c) + AllVisits(rest)
  {
    if rest == [] {
      assert [c] + rest == [c];
    } else {
      var n, all := |rest| - 1, [c] + rest;
      AllVisitsCons(c, rest[..n]);
      AllVisitsOneMore(rest, n);
      AllVisitsOneMore(all, n + 1);
      hide AllVisits, Joined;
      assert all[..n + 1] == [c] + rest[..n] && all[..n + 2] == all && rest[..n + 1] == rest;
    }
  }

  lemma {:induction false} SegmentsJoin(v: seq<Visit>)
    ensures Joined(SegmentsFrom(v)) == v
    decreases |v|
  {
    if v == [] {
    } else if |v| <= BULK_SEGMENT_VISITS {
      JoinedAppend([], v);
      assert [] + [v] == [v];
    } else {
      var first, rest := v[..BULK_SEGMENT_VISITS], v[BULK_SEGMENT_VISITS..];
      SegmentsJoin(rest);
      JoinedConcat([first], SegmentsFrom(rest));
      JoinedAppend([], first);
      assert [] + [first] == [first] && first + rest == v;
    }
  }

  lemma ChunksStep(current: Chunk, segments: seq<Segment>, size: Sizes)
    requires segments != []
    ensures var next := current + [segments[0]];
            ChunksFrom(current, segments, size) == if Full(next, size)
              then [next] + ChunksFrom([], segments[1..], size) else ChunksFrom(next, segments[1..], size)
  {
  }

  lemma {:induction false} ChunksHold(current: Chunk, segments: seq<Segment>, size: Sizes)
    ensures AllVisits(ChunksFrom(current, segments, size)) == Joined(current) + Joined(segments)
    decreases |segments|
  {
    if segments == [] {
      if current != [] { AllVisitsCons(current, []); assert [current] + [] == [current]; }
    } else {
      var next, rest := current + [segments[0]], segments[1..];
      JoinedAppend(current, segments[0]);
      JoinedCons(segments);
      ChunksStep(current, segments, size);
      if Full(next, size) {
        ChunksHold([], rest, size);
        AllVisitsCons(next, ChunksFrom([], rest, size));
        hide AllVisits, ChunksFrom, Full;
      } else {
        ChunksHold(next, rest, size);
        hide AllVisits, ChunksFrom, Full;
      }
    }
  }

  lemma JoinedCons(segments: seq<Segment>)
    requires segments != []
    ensures Joined(segments) == segments[0] + Joined(segments[1..])
  {
    assert segments == [segments[0]] + segments[1..] && [] + [segments[0]] == [segments[0]];
    JoinedConcat([segments[0]], segments[1..]);
    JoinedAppend([], segments[0]);
  }

  /** Cutting loses, adds and reorders nothing. */
  lemma ChunksPartition(stream: seq<Visit>, size: Sizes)
    ensures AllVisits(ChunksOf(stream, size)) == stream
  {
    ChunksHold([], SegmentsFrom(stream), size);
    SegmentsJoin(stream);
  }

  // --- Hour histograms ---

  datatype Hour = Hour(number: nat)

  function HourKey(time: nat): Hour
  {
    Hour(time / 3_600_000)
  }

  type Histogram = map<Hour, nat>

  function Count(h: Histogram, v: Visit): Histogram
  {
    var key := HourKey(v.time);
    h[key := (if key in h then h[key] else 0) + 1]
  }

  function HistogramOf(visits: seq<Visit>): Histogram
  {
    if visits == [] then map[] else Count(HistogramOf(visits[..|visits| - 1]), visits[|visits| - 1])
  }

  ghost function SumOf(h: Histogram): nat
  {
    if h.Keys == {} then 0
    else
      var k :| k in h.Keys;
      h[k] + SumOf(h - {k})
  }

  lemma {:induction false} SumWithout(h: Histogram, k: Hour)
    requires k in h
    ensures SumOf(h) == h[k] + SumOf(h - {k})
    decreases |h|
  {
    var j :| j in h && SumOf(h) == h[j] + SumOf(h - {j});
    if j != k {
      SumWithout(h - {j}, k);
      SumWithout(h - {k}, j);
      assert h - {j} - {k} == h - {k} - {j};
    }
  }

  lemma SumCounted(h: Histogram, v: Visit)
    ensures SumOf(Count(h, v)) == SumOf(h) + 1
  {
    var key, c := HourKey(v.time), Count(h, v);
    SumWithout(c, key);
    assert c - {key} == h - {key};
    if key in h { SumWithout(h, key); } else { assert h - {key} == h; }
  }

  lemma {:induction false} HistogramSums(visits: seq<Visit>)
    ensures SumOf(HistogramOf(visits)) == |visits|
  {
    if visits != [] {
      HistogramSums(visits[..|visits| - 1]);
      SumCounted(HistogramOf(visits[..|visits| - 1]), visits[|visits| - 1]);
    }
  }

  lemma HistogramAppend(visits: seq<Visit>, v: Visit)
    ensures HistogramOf(visits + [v]) == Count(HistogramOf(visits), v)
  {
    assert (visits + [v])[..|visits|] == visits;
  }

  method SumHours(h: Histogram) returns (sum: nat)
    ensures sum == SumOf(h)
  {
    sum := 0;
    var left := h;
    while left != map[]
      invariant sum + SumOf(left) == SumOf(h)
      decreases |left|
    {
      var k :| k in left;
      SumWithout(left, k);
      sum := sum + left[k];
      left := left - {k};
    }
  }

  // --- What survives the worker ---

  // What is sent of a chunk: its segments and, in the clear, how many visits it
  // holds and how many in each hour.
  datatype Upload = Upload(segments: Chunk, visitCount: nat, visitHours: Histogram)

  function UploadOf(chunk: Chunk): Upload
  {
    Upload(chunk, |Joined(chunk)|, HistogramOf(Joined(chunk)))
  }

  // The device's checkpoint, and what the server has accepted. The server keeps
  // the first upload for an operation id; ids follow from the chunk index.
  datatype Durable = Durable(uploadedChunks: nat, uploadedVisits: nat, accepted: map<nat, Upload>)

  /** The checkpoint stands between two chunks of the uninterrupted import, and the
      server has exactly the first so many of those, perhaps one more. */
  ghost predicate Consistent(d: Durable, stream: seq<Visit>, size: Sizes)
  {
    var all := ChunksOf(stream, size);
    && d.uploadedChunks <= |all| && d.uploadedVisits <= |stream|
    && ChunksOf(stream[d.uploadedVisits..], size) == all[d.uploadedChunks..]
    && d.uploadedVisits == |AllVisits(all[..d.uploadedChunks])|
    && d.accepted == FirstOf(all, |d.accepted|)
    && d.uploadedChunks <= |d.accepted| <= |all|
  }

  ghost function FirstOf(all: seq<Chunk>, m: nat): map<nat, Upload>
  {
    map k: nat | k < m && k < |all| :: UploadOf(all[k])
  }

  lemma FirstOfSize(all: seq<Chunk>, m: nat)
    requires m <= |all|
    ensures |FirstOf(all, m)| == m
  {
    var f := FirstOf(all, m);
    if m > 0 {
      FirstOfSize(all, m - 1);
      assert f == FirstOf(all, m - 1)[m - 1 := UploadOf(all[m - 1])];
    } else {
      assert f == map[];
    }
  }

  /** The server's side of an upload. */
  function Accept(accepted: map<nat, Upload>, index: nat, upload: Upload): map<nat, Upload>
  {
    if index in accepted then accepted else accepted[index := upload]
  }

  // What one run holds in memory. `pending`: the segment being filled.
  datatype Working = Working(pending: seq<CollectedGroup>, pendingVisitCount: nat, segments: Chunk, visitCount: nat,
      bytes: nat, hours: Histogram, chunkIndex: nat)

  /** The tallies kept beside the segments of the chunk being built. */
  ghost predicate Tallied(w: Working, size: Sizes)
  {
    && w.visitCount == |Joined(w.segments)| && w.bytes == Bytes(w.segments, size)
    && w.hours == HistogramOf(Joined(w.segments))
    && (w.visitCount == 0 ==> w.segments == [])
  }

  /** From the chunk being built and the visits ahead, the uninterrupted import
      would build what it has left after the checkpoint. */
  ghost predicate Remaining(d: Durable, current: Chunk, ahead: seq<Visit>, stream: seq<Visit>, size: Sizes)
  {
    && d.uploadedChunks <= |ChunksOf(stream, size)| && d.uploadedVisits <= |stream|
    && ChunksFrom(current, SegmentsFrom(ahead), size) == ChunksOf(stream, size)[d.uploadedChunks..]
    && stream[d.uploadedVisits..] == Joined(current) + ahead
  }

  /** `chunk` is the next chunk of the uninterrupted import. */
  ghost predicate NextIs(d: Durable, chunk: Chunk, rest: seq<Visit>, stream: seq<Visit>, size: Sizes)
  {
    && d.uploadedChunks <= |ChunksOf(stream, size)| && d.uploadedVisits <= |stream|
    && ChunksOf(stream, size)[d.uploadedChunks..] == [chunk] + ChunksOf(rest, size)
    && stream[d.uploadedVisits..] == Joined(chunk) + rest
  }

  /** A run in step with the checkpoint. The segment being filled holds at most
      `limit` visits. */
  ghost predicate InStep(d: Durable, w: Working, rest: seq<Visit>, stream: seq<Visit>, size: Sizes, limit: nat)
  {
    && Consistent(d, stream, size) && Tallied(w, size)
    && w.chunkIndex == d.uploadedChunks
    && w.pendingVisitCount == |Flat(w.pending)| <= limit
    && Remaining(d, w.segments, Flat(w.pending) + rest, stream, size)
  }

  const ROOM := BULK_SEGMENT_VISITS - 1

  /** A chunk is complete, and is the next one of the uninterrupted import. */
  ghost predicate Ready(d: Durable, w: Working, rest: seq<Visit>, stream: seq<Visit>, size: Sizes)
  {
    && Consistent(d, stream, size) && Tallied(w, size) && w.visitCount > 0
    && w.chunkIndex == d.uploadedChunks
    && NextIs(d, w.segments, rest, stream, size)
  }

  function Fresh(chunkIndex: nat): Working
  {
    Working([], 0, [], 0, 0, map[], chunkIndex)
  }

  lemma FreshInStep(d: Durable, stream: seq<Visit>, size: Sizes)
    requires Consistent(d, stream, size)
    ensures InStep(d, Fresh(d.uploadedChunks), stream[d.uploadedVisits..], stream, size, ROOM)
  {
    var rest := stream[d.uploadedVisits..];
    assert Flat([]) + rest == rest && Joined([]) + rest == rest;
  }

  lemma NextChunk(all: seq<Chunk>, k: nat, chunk: Chunk, later: seq<Chunk>)
    requires k <= |all| && all[k..] == [chunk] + later
    ensures k < |all| && all[k] == chunk && all[k + 1..] == later
  {
    assert all[k] == all[k..][0] && all[k + 1..] == all[k..][1..];
  }

  lemma AcceptNext(accepted: map<nat, Upload>, all: seq<Chunk>, k: nat, m: nat)
    requires accepted == FirstOf(all, m) && k <= m <= |all| && k < |all|
    ensures var after := Accept(accepted, k, UploadOf(all[k])); after == FirstOf(all, |after|) && k < |after| <= |all|
  {
    FirstOfSize(all, m);
    if k == m { AcceptNew(accepted, all, k); }
  }

  lemma AcceptNew(accepted: map<nat, Upload>, all: seq<Chunk>, k: nat)
    requires k < |all| && accepted == FirstOf(all, k)
    ensures Accept(accepted, k, UploadOf(all[k])) == FirstOf(all, k + 1) && |FirstOf(all, k + 1)| == k + 1
  {
    hide UploadOf;
    FirstOfSize(all, k + 1);
    assert Accept(accepted, k, UploadOf(all[k])) == FirstOf(all, k + 1);
  }

  /** The server has the next chunk: accepted now, or before a crash. */
  lemma AcceptStep(d: Durable, stream: seq<Visit>, size: Sizes, chunk: Chunk, rest: seq<Visit>)
    requires Consistent(d, stream, size) && NextIs(d, chunk, rest, stream, size)
    ensures var after := d.(accepted := Accept(d.accepted, d.uploadedChunks, UploadOf(chunk)));
            Consistent(after, stream, size) && d.uploadedChunks < |after.accepted|
              && NextIs(after, chunk, rest, stream, size)
  {
    hide ChunksOf, AllVisits, FirstOf, Accept;
    var all := ChunksOf(stream, size);
    NextChunk(all, d.uploadedChunks, chunk, ChunksOf(rest, size));
    AcceptNext(d.accepted, all, d.uploadedChunks, |d.accepted|);
  }

  lemma Suffix(stream: seq<Visit>, n: nat, a: seq<Visit>, rest: seq<Visit>)
    requires n <= |stream| && stream[n..] == a + rest
    ensures n + |a| <= |stream| && stream[n + |a|..] == rest
  {
    assert stream[n + |a|..] == stream[n..][|a|..];
  }

  /** The checkpoint moves past a chunk that the server has. */
  lemma CheckpointStep(d: Durable, stream: seq<Visit>, size: Sizes, chunk: Chunk, rest: seq<Visit>)
    requires Consistent(d, stream, size) && d.uploadedChunks < |d.accepted| && NextIs(d, chunk, rest, stream, size)
    ensures var moved :=
      d.(uploadedChunks := d.uploadedChunks + 1, uploadedVisits := d.uploadedVisits + |Joined(chunk)|);
            Consistent(moved, stream, size) && stream[moved.uploadedVisits..] == rest
  {
    hide ChunksOf, AllVisits, FirstOf, Joined;
    var all := ChunksOf(stream, size);
    NextChunk(all, d.uploadedChunks, chunk, ChunksOf(rest, size));
    AllVisitsOneMore(all, d.uploadedChunks);
    Suffix(stream, d.uploadedVisits, Joined(chunk), rest);
  }

  // --- One run ---

  // How the upload of a chunk goes: done, or the worker dies before it reaches the
  // server or before the checkpoint is written.
  datatype Fate = Done | DiesBefore | DiesAfter

  datatype Outcome = Completed | Aborted | Died

  lemma SegmentCut(p: seq<Visit>, rest: seq<Visit>)
    requires 0 < |p| <= BULK_SEGMENT_VISITS && (|p| == BULK_SEGMENT_VISITS || rest == [])
    ensures SegmentsFrom(p + rest) == [p] + SegmentsFrom(rest)
  {
    var v := p + rest;
    if rest == [] { assert v == p; } else { assert v[..BULK_SEGMENT_VISITS] == p && v[BULK_SEGMENT_VISITS..] == rest; }
  }

  lemma BytesAppend(a: seq<Segment>, s: Segment, size: Sizes)
    ensures Bytes(a + [s], size) == Bytes(a, size) + size(s)
  {
    assert (a + [s])[..|a|] == a;
  }

  lemma FlatAppend(groups: seq<CollectedGroup>, g: CollectedGroup)
    ensures Flat(groups + [g]) == Flat(groups) + VisitsOf(g)
  {
    assert (groups + [g])[..|groups|] == groups;
  }

  // Where the segment that has just been cut leaves the chunk being built.
  function WithSegment(w: Working, s: Segment, size: Sizes): Working
  {
    Working([], 0, w.segments + [s], w.visitCount + |s|, w.bytes + size(s), HistogramOf(Joined(w.segments) + s),
      w.chunkIndex)
  }

  lemma SegmentTallied(w: Working, s: Segment, size: Sizes)
    requires Tallied(w, size) && s != []
    ensures Tallied(WithSegment(w, s, size), size) && WithSegment(w, s, size).visitCount > 0
  {
    JoinedAppend(w.segments, s);
    BytesAppend(w.segments, s, size);
  }

  /** A segment cut where the uninterrupted import cuts it, and with it perhaps a
      chunk. */
  lemma RemainingCut(d: Durable, current: Chunk, s: Segment, rest: seq<Visit>, stream: seq<Visit>, size: Sizes)
    requires Remaining(d, current, s + rest, stream, size)
    requires s != [] && (|s| == BULK_SEGMENT_VISITS || (|s| < BULK_SEGMENT_VISITS && rest == []))
    ensures var next := current + [s];
      if Full(next, size) then NextIs(d, next, rest, stream, size) else Remaining(d, next, rest, stream, size)
  {
    SegmentCut(s, rest);
    JoinedAppend(current, s);
    var segments := SegmentsFrom(s + rest);
    assert segments[0] == s && segments[1..] == SegmentsFrom(rest);
    ChunksStep(current, segments, size);
    assert Joined(current) + (s + rest) == Joined(current) + s + rest;
    hide Full, SegmentsFrom, Joined, Bytes, ChunksFrom;
  }

  lemma SegmentStep(d: Durable, w: Working, rest: seq<Visit>, stream: seq<Visit>, size: Sizes, s: Segment)
    requires Consistent(d, stream, size) && Tallied(w, size) && w.chunkIndex == d.uploadedChunks
    requires s != [] && (|s| == BULK_SEGMENT_VISITS || (|s| < BULK_SEGMENT_VISITS && rest == []))
    requires Remaining(d, w.segments, s + rest, stream, size)
    ensures var w' := WithSegment(w, s, size);
      if Full(w'.segments, size) then Ready(d, w', rest, stream, size) else InStep(d, w', rest, stream, size, ROOM)
  {
    hide Consistent, Tallied, Full, Remaining, NextIs;
    SegmentTallied(w, s, size);
    RemainingCut(d, w.segments, s, rest, stream, size);
    assert Flat([]) + rest == rest;
  }

  /** The last chunk, when every visit has been cut into segments. */
  lemma LastChunk(d: Durable, w: Working, stream: seq<Visit>, size: Sizes)
    requires InStep(d, w, [], stream, size, ROOM) && Flat(w.pending) == []
    ensures if w.visitCount == 0 then ChunksOf(stream, size)[d.uploadedChunks..] == []
      else Ready(d, w, [], stream, size)
  {
    hide Consistent;
    assert Joined(w.segments) + [] == Joined(w.segments);
  }

  lemma FullTallied(w: Working, size: Sizes)
    requires Tallied(w, size)
    ensures Full(w.segments, size) <==> w.bytes >= BULK_CHUNK_TARGET_BYTES || w.visitCount >= BULK_CHUNK_TARGET_VISITS
  {
  }

  lemma InStepParts(d: Durable, w: Working, rest: seq<Visit>, stream: seq<Visit>, size: Sizes, limit: nat)
    requires InStep(d, w, rest, stream, size, limit)
    ensures Consistent(d, stream, size) && Tallied(w, size) && w.hours == HistogramOf(Joined(w.segments))
    ensures w.chunkIndex == d.uploadedChunks
    ensures w.pendingVisitCount == |Flat(w.pending)| <= limit
    ensures Remaining(d, w.segments, Flat(w.pending) + rest, stream, size)
    ensures forall n: nat :: n >= w.pendingVisitCount ==> InStep(d, w, rest, stream, size, n)
  {
    hide Consistent, Remaining;
  }

  lemma TalliedApart(w: Working, w': Working, size: Sizes)
    requires Tallied(w, size) && w' == w.(pending := w'.pending, pendingVisitCount := w'.pendingVisitCount)
    ensures Tallied(w', size)
  {
  }

  /** Visits move from what is to come to the segment being filled. */
  lemma TakeStep(d: Durable, w: Working, part: CollectedGroup, rest: seq<Visit>, stream: seq<Visit>, size: Sizes)
    requires InStep(d, w, VisitsOf(part) + rest, stream, size, ROOM)
    requires w.pendingVisitCount + |part.times| <= BULK_SEGMENT_VISITS
    ensures InStep(d, w.(pending := w.pending + [part], pendingVisitCount := w.pendingVisitCount + |part.times|),
      rest, stream, size, BULK_SEGMENT_VISITS)
  {
    hide Consistent, Remaining, Tallied;
    InStepParts(d, w, VisitsOf(part) + rest, stream, size, ROOM);
    var w' := w.(pending := w.pending + [part], pendingVisitCount := w.pendingVisitCount + |part.times|);
    FlatAppend(w.pending, part);
    assert Flat(w'.pending) + rest == Flat(w.pending) + (VisitsOf(part) + rest);
    TalliedApart(w, w', size);
  }

  /** The visits of a segment, and the hours counted with them added. */
  method CountGroups(groups: seq<CollectedGroup>, hours0: Histogram, ghost earlier: seq<Visit>)
      returns (segment: seq<Visit>, hours: Histogram)
    requires hours0 == HistogramOf(earlier)
    ensures segment == Flat(groups) && hours == HistogramOf(earlier + segment)
  {
    segment, hours := [], hours0;
    assert earlier + [] == earlier;
    var i := 0;
    while i < |groups|
      invariant i <= |groups| && segment == Flat(groups[..i]) && hours == HistogramOf(earlier + segment)
    {
      segment, hours := CountGroup(groups[i], segment, hours, earlier);
      assert groups[..i + 1] == groups[..i] + [groups[i]];
      FlatAppend(groups[..i], groups[i]);
      i := i + 1;
    }
    assert groups[..|groups|] == groups;
  }

  method CountGroup(g: CollectedGroup, segment0: seq<Visit>, hours0: Histogram, ghost earlier: seq<Visit>)
      returns (segment: seq<Visit>, hours: Histogram)
    requires hours0 == HistogramOf(earlier + segment0)
    ensures segment == segment0 + VisitsOf(g) && hours == HistogramOf(earlier + segment)
  {
    hide HistogramOf;
    segment, hours := segment0, hours0;
    var j := 0;
    while j < |g.times|
      invariant j <= |g.times| && segment == segment0 + VisitsOf(g)[..j] && hours == HistogramOf(earlier + segment)
    {
      var v := Visit(g.url, g.times[j]);
      HistogramAppend(earlier + segment, v);
      assert earlier + segment + [v] == earlier + (segment + [v]);
      segment, hours := segment + [v], Count(hours, v);
      j := j + 1;
    }
  }

  lemma PartOf(g: CollectedGroup, offset: nat, take: nat, after: seq<Visit>)
    requires offset + take <= |g.times|
    ensures VisitsOf(g)[offset..] + after == VisitsOf(CollectedGroup(g.url,
      g.times[offset..offset + take])) + (VisitsOf(g)[offset + take..] + after)
  {
    assert VisitsOf(CollectedGroup(g.url, g.times[offset..offset + take])) == VisitsOf(g)[offset..offset + take];
  }

  lemma {:induction false} FlatCons(g: CollectedGroup, rest: seq<CollectedGroup>)
    ensures Flat([g] + rest) == VisitsOf(g) + Flat(rest)
  {
    if rest == [] {
      assert [g] + rest == [] + [g];
      FlatAppend([], g);
    } else {
      var n := |rest| - 1;
      FlatCons(g, rest[..n]);
      assert [g] + rest == ([g] + rest[..n]) + [rest[n]] && rest == rest[..n] + [rest[n]];
      FlatAppend([g] + rest[..n], rest[n]);
      FlatAppend(rest[..n], rest[n]);
    }
  }

  lemma FlatFrom(groups: seq<CollectedGroup>, i: nat)
    requires i < |groups|
    ensures Flat(groups[i..]) == VisitsOf(groups[i]) + Flat(groups[i + 1..])
  {
    assert groups[i..] == [groups[i]] + groups[i + 1..];
    FlatCons(groups[i], groups[i + 1..]);
  }

  lemma NothingLeft(groups: seq<CollectedGroup>, remaining: nat)
    requires remaining <= |Flat(groups[|groups|..])|
    ensures Flat(groups[|groups|..])[remaining..] == []
  {
  }

  /** Every chunk is on the server: the checkpoint may go. */
  lemma Finish(d: Durable, stream: seq<Visit>, size: Sizes)
    requires Consistent(d, stream, size) && ChunksOf(stream, size)[d.uploadedChunks..] == []
    ensures |d.accepted| == |ChunksOf(stream, size)|
    ensures Consistent(d.(uploadedChunks := 0, uploadedVisits := 0), stream, size)
  {
    var all := ChunksOf(stream, size);
    assert stream[0..] == stream && all[0..] == all && all[..0] == [];
  }

  class Importer {
    // Stored: the checkpoint on the device, and what the server accepted.
    var durable: Durable
    // In memory, gone with the worker.
    var work: Working

    constructor ()
      ensures forall stream, size :: Consistent(durable, stream, size)
    {
      durable := Durable(0, 0, map[]);
      work := Fresh(0);
      new;
      forall stream, size ensures Consistent(durable, stream, size) {
        var all := ChunksOf(stream, size);
        assert stream[0..] == stream && all[0..] == all && all[..0] == [] && FirstOf(all, 0) == map[];
      }
    }

    /** Uploads the chunk that has been built and moves the checkpoint. The
        histogram sent with it always sums to its visit count. */
    method FlushChunk(fate: Fate, ghost rest: seq<Visit>, ghost stream: seq<Visit>, size: Sizes) returns (alive: bool)
      requires Ready(durable, work, rest, stream, size)
      modifies this
      ensures Consistent(durable, stream, size)
      ensures alive <==> fate == Done
      ensures alive ==> InStep(durable, work, rest, stream, size, ROOM) && work == Fresh(old(work.chunkIndex) + 1)
    {
      hide Consistent, NextIs, HistogramOf, Accept, InStep;
      AcceptStep(durable, stream, size, work.segments, rest);
      HistogramSums(Joined(work.segments));
      var visitHoursSum := SumHours(work.hours);
      assert visitHoursSum == work.visitCount;
      var upload := Upload(work.segments, work.visitCount, work.hours);
      assert upload == UploadOf(work.segments);
      hide UploadOf, Joined;
      ghost var chunk := work.segments;
      var thisChunkVisitCount, index := work.visitCount, work.chunkIndex;
      work := Fresh(index + 1);
      if fate == DiesBefore { return false; }
      durable := durable.(accepted := Accept(durable.accepted, index, upload));
      if fate == DiesAfter { return false; }
      CheckpointStep(durable, stream, size, chunk, rest);
      durable := durable.(uploadedChunks := index + 1, uploadedVisits := durable.uploadedVisits + thisChunkVisitCount);
      FreshInStep(durable, stream, size);
      return true;
    }

    /** Adds a segment to the chunk being built, and uploads the chunk if that
        fills it. `fates` says how each chunk's upload goes. */
    method OnSegment(groups: seq<CollectedGroup>, fates: nat -> Fate, ghost rest: seq<Visit>,
        ghost stream: seq<Visit>, size: Sizes) returns (alive: bool)
      requires Consistent(durable, stream, size) && Tallied(work, size)
      requires work.hours == HistogramOf(Joined(work.segments))
      requires work.chunkIndex == durable.uploadedChunks && work.pending == [] && work.pendingVisitCount == 0
      requires var s := Flat(groups);
        s != [] && (|s| == BULK_SEGMENT_VISITS || (|s| < BULK_SEGMENT_VISITS && rest == []))
      requires Remaining(durable, work.segments, Flat(groups) + rest, stream, size)
      modifies this
      ensures Consistent(durable, stream, size)
      ensures alive ==> InStep(durable, work, rest, stream, size, ROOM) && work.pending == []
    {
      hide Consistent, Tallied, InStep, Ready, Remaining, Full;
      ghost var w0 := work;
      var segment, hours := CountGroups(groups, work.hours, Joined(work.segments));
      SegmentStep(durable, work, rest, stream, size, segment);
      SegmentTallied(work, segment, size);
      if size(segment) > BULK_HARD_ABORT_BYTES { return false; }
      work := work.(segments := work.segments + [segment], visitCount := work.visitCount + |segment|, hours := hours,
        bytes := work.bytes + size(segment));
      assert work == WithSegment(w0, segment, size);
      FullTallied(work, size);
      if work.bytes >= BULK_CHUNK_TARGET_BYTES || work.visitCount >= BULK_CHUNK_TARGET_VISITS {
        alive := FlushChunk(fates(work.chunkIndex), rest, stream, size);
        return alive;
      }
      return true;
    }

    /** Ends the segment being filled. */
    method FlushSegment(fates: nat -> Fate, ghost rest: seq<Visit>, ghost stream: seq<Visit>, size: Sizes)
        returns (alive: bool)
      requires InStep(durable, work, rest, stream, size, BULK_SEGMENT_VISITS)
      requires work.pendingVisitCount == BULK_SEGMENT_VISITS || rest == []
      modifies this
      ensures Consistent(durable, stream, size)
      ensures alive ==> InStep(durable, work, rest, stream, size, ROOM) && Flat(work.pending) == []
    {
      hide Consistent, InStep, Tallied, Remaining;
      InStepParts(durable, work, rest, stream, size, BULK_SEGMENT_VISITS);
      if work.pendingVisitCount == 0 { return true; }
      var segment := work.pending;
      TalliedApart(work, work.(pending := [], pendingVisitCount := 0), size);
      work := work.(pending := [], pendingVisitCount := 0);
      alive := OnSegment(segment, fates, rest, stream, size);
    }

    /** Moves up to a segment's worth of a group's visits into the segment being
        filled, and ends it when it is full. */
    method PushPart(part: CollectedGroup, fates: nat -> Fate, ghost rest: seq<Visit>, ghost stream: seq<Visit>,
        size: Sizes) returns (alive: bool)
      requires InStep(durable, work, VisitsOf(part) + rest, stream, size, ROOM)
      requires work.pendingVisitCount + |part.times| <= BULK_SEGMENT_VISITS
      modifies this
      ensures Consistent(durable, stream, size)
      ensures alive ==> InStep(durable, work, rest, stream, size, ROOM)
    {
      hide Consistent, InStep;
      TakeStep(durable, work, part, rest, stream, size);
      work := work.(pending := work.pending + [part], pendingVisitCount := work.pendingVisitCount + |part.times|);
      InStepParts(durable, work, rest, stream, size, BULK_SEGMENT_VISITS);
      if work.pendingVisitCount >= BULK_SEGMENT_VISITS {
        alive := FlushSegment(fates, rest, stream, size);
      } else {
        alive := true;
      }
    }

    /** Adds one URL's visits, cutting segments as they fill. Visits that uploaded
        chunks cover are skipped first. */
    method PushGroup(g: CollectedGroup, remaining: nat, fates: nat -> Fate, ghost later: seq<Visit>,
        ghost stream: seq<Visit>, size: Sizes) returns (alive: bool, remaining': nat)
      requires remaining <= |VisitsOf(g) + later|
      requires InStep(durable, work, (VisitsOf(g) + later)[remaining..], stream, size, ROOM)
      modifies this
      ensures Consistent(durable, stream, size)
      ensures remaining' == (if remaining > |g.times| then remaining - |g.times| else 0) && remaining' <= |later|
      ensures alive ==> InStep(durable, work, later[remaining'..], stream, size, ROOM)
    {
      hide InStep, Consistent, VisitsOf;
      var skip := if remaining < |g.times| then remaining else |g.times|;
      remaining' := remaining - skip;
      var offset := skip;
      ghost var after := later[remaining'..];
      assert (VisitsOf(g) + later)[remaining..] == VisitsOf(g)[skip..] + after;
      while offset < |g.times|
        invariant skip <= offset <= |g.times|
        invariant InStep(durable, work, VisitsOf(g)[offset..] + after, stream, size, ROOM)
      {
        InStepParts(durable, work, VisitsOf(g)[offset..] + after, stream, size, ROOM);
        var room := BULK_SEGMENT_VISITS - work.pendingVisitCount;
        var take := if room < |g.times| - offset then room else |g.times| - offset;
        var part := CollectedGroup(g.url, g.times[offset..offset + take]);
        PartOf(g, offset, take, after);
        alive := PushPart(part, fates, VisitsOf(g)[offset + take..] + after, stream, size);
        if !alive { return false, remaining'; }
        offset := offset + take;
      }
      assert VisitsOf(g)[offset..] + after == after;
      InStepParts(durable, work, after, stream, size, ROOM);
      return true, remaining';
    }

    /** The rest of the history is in segments: the last chunk goes out, and the
        checkpoint with it. */
    method LastFlush(fates: nat -> Fate, ghost stream: seq<Visit>, size: Sizes) returns (outcome: Outcome)
      requires InStep(durable, work, [], stream, size, ROOM) && Flat(work.pending) == []
      modifies this
      ensures Consistent(durable, stream, size) && outcome != Aborted
      ensures outcome == Completed ==> |durable.accepted| == |ChunksOf(stream, size)| && durable.uploadedChunks == 0
    {
      hide InStep, Consistent, ChunksOf, Ready, Tallied;
      InStepParts(durable, work, [], stream, size, ROOM);
      LastChunk(durable, work, stream, size);
      if work.visitCount != 0 {
        var alive := FlushChunk(fates(work.chunkIndex), [], stream, size);
        if !alive { return Died; }
        LastChunk(durable, work, stream, size);
        InStepParts(durable, work, [], stream, size, ROOM);
      }
      Finish(durable, stream, size);
      durable := durable.(uploadedChunks := 0, uploadedVisits := 0);
      return Completed;
    }

    /** One run of the import: from the checkpoint to the end of the history, or
        until the device disconnects (before group `gone`) or the worker dies. */
    method CollectHistoryBulk(groups: seq<CollectedGroup>, gone: nat, fates: nat -> Fate, size: Sizes)
        returns (outcome: Outcome)
      requires Consistent(durable, Flat(groups), size)
      modifies this
      ensures Consistent(durable, Flat(groups), size)
      ensures outcome == Completed ==>
        |durable.accepted| == |ChunksOf(Flat(groups), size)| && durable.uploadedChunks == 0
      ensures outcome == Aborted ==> gone < |groups|
    {
      ghost var stream := Flat(groups);
      assert durable.uploadedVisits <= |stream|;
      hide InStep, Consistent, ChunksOf, Ready;
      work := Fresh(durable.uploadedChunks);
      FreshInStep(durable, stream, size);
      var remaining: nat := durable.uploadedVisits;
      assert groups[0..] == groups;
      ghost var ahead := stream;
      var i := 0;
      while i < |groups|
        invariant i <= |groups| && ahead == Flat(groups[i..]) && remaining <= |ahead|
        invariant InStep(durable, work, ahead[remaining..], stream, size, ROOM)
      {
        InStepParts(durable, work, ahead[remaining..], stream, size, ROOM);
        if i == gone { return Aborted; }
        FlatFrom(groups, i);
        ahead := Flat(groups[i + 1..]);
        var alive;
        alive, remaining := PushGroup(groups[i], remaining, fates, ahead, stream, size);
        if !alive { return Died; }
        i := i + 1;
      }
      NothingLeft(groups, remaining);
      InStepParts(durable, work, [], stream, size, ROOM);
      var flushed := FlushSegment(fates, [], stream, size);
      if !flushed { return Died; }
      outcome := LastFlush(fates, stream, size);
    }
  }

  // --- Exactly once ---

  /** The visits the server has, chunk after chunk. */
  ghost function VisitsAccepted(accepted: map<nat, Upload>, m: nat): seq<Visit>
    requires forall k :: 0 <= k < m ==> k in accepted
  {
    if m == 0 then [] else VisitsAccepted(accepted, m - 1) + Joined(accepted[m - 1].segments)
  }

  lemma {:induction false} AcceptedAre(all: seq<Chunk>, m: nat, n: nat)
    requires n <= m <= |all|
    ensures VisitsAccepted(FirstOf(all, m), n) == AllVisits(all[..n])
  {
    if n > 0 {
      AcceptedAre(all, m, n - 1);
      AllVisitsOneMore(all, n - 1);
    }
  }

  lemma {:induction false} PrefixOfAll(all: seq<Chunk>, m: nat)
    requires m <= |all|
    ensures AllVisits(all[..m]) <= AllVisits(all)
    decreases |all| - m
  {
    if m == |all| {
      assert all[..m] == all;
    } else {
      AllVisitsOneMore(all, m);
      PrefixOfAll(all, m + 1);
    }
  }

  /** The chunks the server has are the first ones, numbered without gaps; their
      visits in order are a prefix of the history, each visit once; the checkpoint
      counts the visits of the chunks it covers; and each chunk came with its own
      hour counts. */
  ghost predicate ExactlyOnce(d: Durable, stream: seq<Visit>, size: Sizes)
  {
    && (forall k: nat :: k in d.accepted <==> k < |d.accepted|)
    && VisitsAccepted(d.accepted, |d.accepted|) <= stream
    && (|d.accepted| == |ChunksOf(stream, size)| ==> VisitsAccepted(d.accepted, |d.accepted|) == stream)
    && d.uploadedChunks <= |d.accepted| && d.uploadedVisits == |VisitsAccepted(d.accepted, d.uploadedChunks)|
    && (forall k: nat :: k in d.accepted ==>
      d.accepted[k].visitCount == |Joined(d.accepted[k].segments)| == SumOf(d.accepted[k].visitHours))
  }

  lemma ImportedExactlyOnce(d: Durable, stream: seq<Visit>, size: Sizes)
    requires Consistent(d, stream, size)
    ensures ExactlyOnce(d, stream, size)
  {
    var all, m := ChunksOf(stream, size), |d.accepted|;
    ChunksPartition(stream, size);
    AcceptedAre(all, m, m);
    AcceptedAre(all, m, d.uploadedChunks);
    PrefixOfAll(all, m);
    if m == |all| { assert all[..m] == all; }
    forall k: nat | k in d.accepted
      ensures d.accepted[k].visitCount == |Joined(d.accepted[k].segments)| == SumOf(d.accepted[k].visitHours) {
      HistogramSums(Joined(all[k]));
    }
  }

  // One run: the group before which the device disconnects, and how the upload of
  // each chunk goes.
  datatype Attempt = Attempt(gone: nat, fates: nat -> Fate)

  /** An import from nothing, over however many runs it takes: after each of them,
      wherever it was cut short, every visit that has arrived has arrived once; after
      one that completed, all have. */
  method ImportInRuns(groups: seq<CollectedGroup>, schedule: seq<Attempt>, size: Sizes)
      returns (importer: Importer, outcomes: seq<Outcome>)
    ensures ExactlyOnce(importer.durable, Flat(groups), size)
    ensures |outcomes| <= |schedule| && (|outcomes| < |schedule| ==> Completed in outcomes)
    ensures Completed in outcomes ==>
      VisitsAccepted(importer.durable.accepted, |importer.durable.accepted|) == Flat(groups)
  {
    importer := new Importer();
    outcomes := [];
    var i := 0;
    while i < |schedule| && Completed !in outcomes
      invariant i == |outcomes| <= |schedule| && fresh(importer) && Consistent(importer.durable, Flat(groups), size)
      invariant Completed in outcomes ==> |importer.durable.accepted| == |ChunksOf(Flat(groups), size)|
    {
      hide Consistent, ChunksOf;
      var outcome := importer.CollectHistoryBulk(groups, schedule[i].gone, schedule[i].fates, size);
      outcomes := outcomes + [outcome];
      i := i + 1;
    }
    ImportedExactlyOnce(importer.durable, Flat(groups), size);
  }
}
