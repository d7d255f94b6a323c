// Restore points on the server: the quota with its evictions, pins, deletion and
// pruning, and the per-account byte counter kept beside the rows.
module RestoreQuota {
  import opened Wrappers

  type User = string
  type Time = int

  datatype Kind = Manual | Scheduled | OtherAutomatic

  datatype Key = Key(user: User, id: nat)

  datatype Point = Point(kind: Kind, size: nat, pinned: bool, createdAt: Time)

  type Points = map<Key, Point>

  datatype Limits = Limits(maxBytes: nat, maxPerAccount: nat, maxAccountBytes: nat, maxPinned: nat,
      scheduledMinInterval: nat)

  datatype Refusal =
    | UnknownKind | BadBookmarkCount | BadEncryptionVersion | UnknownCodec | NotAnObject | TooLarge
    | EncryptionRequired | Disabled | Recent | LimitReached | PinLimit | NotFound

  datatype Codec = NoCodec | DeflateRaw | OtherCodec

  // An upload's body. `kind`: None for one that is not known.
  datatype Request = Request(kind: Option<Kind>, bookmarkCount: int, encryptionVersion: int, codec: Codec,
      envelope: string)

  datatype Settings = Settings(requireEncryption: bool, automatic: bool)

  const MAX_BOOKMARK_COUNT := 1_000_000
  const DELETE_CHUNK_SIZE := 5_000
  const MAX_PRUNED_PER_PASS := 50_000

  // --- Usage ---

  ghost function SumSize(points: Points, u: User): nat
    decreases |points|
  {
    if points.Keys == {} then 0
    else
      var k :| k in points.Keys;
      (if k.user == u then points[k].size else 0) + SumSize(points - {k}, u)
  }

  lemma {:induction false} SumWithout(points: Points, k: Key, u: User)
    requires k in points
    ensures SumSize(points, u) == (if k.user == u then points[k].size else 0) + SumSize(points - {k}, u)
    decreases |points|
  {
    var j :| j in points
      && SumSize(points, u) == (if j.user == u then points[j].size else 0) + SumSize(points - {j}, u);
    if j != k {
      SumWithout(points - {j}, k, u);
      SumWithout(points - {k}, j, u);
      assert points - {j} - {k} == points - {k} - {j};
    }
  }

  lemma SumWith(points: Points, k: Key, p: Point, u: User)
    requires k !in points
    ensures SumSize(points[k := p], u) == (if k.user == u then p.size else 0) + SumSize(points, u)
  {
    SumWithout(points[k := p], k, u);
    assert points[k := p] - {k} == points;
  }

  /** Pinning does not change what is stored. */
  lemma SumRepinned(points: Points, k: Key, p: Point, u: User)
    requires k in points && p.size == points[k].size
    ensures SumSize(points[k := p], u) == SumSize(points, u)
  {
    SumWithout(points, k, u);
    SumWithout(points[k := p], k, u);
    assert points[k := p] - {k} == points - {k};
  }

  function Of(points: Points, u: User): set<Key>
  {
    set k | k in points && k.user == u
  }

  function Pinned(points: Points, u: User): set<Key>
  {
    set k | k in points && k.user == u && points[k].pinned
  }

  method Usage(points: Points, u: User) returns (count: nat, bytes: nat)
    ensures count == |Of(points, u)| && bytes == SumSize(points, u)
  {
    count, bytes := |Of(points, u)|, 0;
    var left := points;
    while left != map[]
      invariant left.Keys <= points.Keys && forall k :: k in left ==> left[k] == points[k]
      invariant bytes + SumSize(left, u) == SumSize(points, u)
      decreases |left|
    {
      var k :| k in left;
      SumWithout(left, k, u);
      if k.user == u { bytes := bytes + left[k].size; }
      left := left - {k};
    }
  }

  // --- Eviction order ---

  /** Automatic kinds before manual ones, then oldest first, then by id. */
  predicate Sooner(points: Points, a: Key, b: Key)
    requires a in points && b in points
  {
    var (p, q) := (points[a], points[b]);
    if p.kind.Manual? != q.kind.Manual? then q.kind.Manual?
    else p.createdAt < q.createdAt || (p.createdAt == q.createdAt && a.id < b.id)
  }

  predicate Evictable(points: Points, newKey: Key, k: Key)
  {
    k in points && k.user == newKey.user && !points[k].pinned && k != newKey
  }

  /** The one to go next, if any. */
  ghost predicate IsVictim(points: Points, newKey: Key, victim: Option<Key>)
  {
    match victim
    case None => forall k :: !Evictable(points, newKey, k)
    case Some(v) => Evictable(points, newKey, v) && forall k :: Evictable(points, newKey, k) && k != v ==>
      Sooner(points, v, k)
  }

  method FindVictim(points: Points, newKey: Key) returns (victim: Option<Key>)
    ensures IsVictim(points, newKey, victim)
  {
    victim := None;
    var left := points.Keys;
    while left != {}
      invariant left <= points.Keys
      invariant victim.None? ==> forall k :: Evictable(points, newKey, k) ==> k in left
      invariant victim.Some? ==> Evictable(points, newKey, victim.value) && victim.value !in left
      invariant victim.Some? ==> forall k :: Evictable(points, newKey, k) && k != victim.value && k !in left ==>
        Sooner(points, victim.value, k)
      decreases left
    {
      var k :| k in left;
      left := left - {k};
      if Evictable(points, newKey, k) && (victim.None? || Sooner(points, k, victim.value)) { victim := Some(k); }
    }
  }

  predicate WithinLimits(count: nat, bytes: nat, limits: Limits)
  {
    count <= limits.maxPerAccount && bytes <= limits.maxAccountBytes
  }

  ghost predicate Fits(points: Points, u: User, limits: Limits)
  {
    WithinLimits(|Of(points, u)|, SumSize(points, u), limits)
  }

  /** `after` is `before` without some evicted points of the new point's account:
      first in the order, never pinned, never the new point. */
  ghost predicate Evicted(before: Points, after: Points, newKey: Key)
  {
    && (forall k :: k in after ==> k in before && after[k] == before[k])
    && (forall k :: k in before && k !in after ==> Evictable(before, newKey, k))
    && (forall k, r :: k in before && k !in after && Evictable(after, newKey, r) ==> Sooner(before, k, r))
  }

  lemma EvictedOneMore(before: Points, after: Points, newKey: Key, v: Key)
    requires Evicted(before, after, newKey) && IsVictim(after, newKey, Some(v))
    ensures Evicted(before, after - {v}, newKey)
  {
    var next := after - {v};
    forall k, r | k in before && k !in next && Evictable(next, newKey, r) ensures Sooner(before, k, r) {
      assert Evictable(after, newKey, r);
      if k == v { assert Sooner(after, v, r); }
    }
  }

  // --- The database ---

  function CounterOf(bytes: map<User, nat>, u: User): nat
  {
    if u in bytes then bytes[u] else 0
  }

  ghost predicate CountersExact(points: Points, bytes: map<User, nat>)
  {
    forall u :: CounterOf(bytes, u) == SumSize(points, u)
  }

  /** Adds `delta`, never going below zero. */
  function Adjusted(bytes: map<User, nat>, u: User, delta: int): map<User, nat>
  {
    var n := CounterOf(bytes, u) + delta;
    bytes[u := if n < 0 then 0 else n]
  }

  ghost predicate PinsCapped(points: Points, limits: Limits)
  {
    forall u :: |Pinned(points, u)| <= limits.maxPinned
  }

  /** A row goes and its bytes are credited: the counter is never clamped. */
  lemma CountersWithout(points: Points, bytes: map<User, nat>, k: Key)
    requires CountersExact(points, bytes) && k in points
    ensures CountersExact(points - {k}, Adjusted(bytes, k.user, 0 - points[k].size))
    ensures CounterOf(bytes, k.user) >= points[k].size
  {
    SumWithout(points, k, k.user);
    forall u ensures CounterOf(Adjusted(bytes, k.user, 0 - points[k].size), u) == SumSize(points - {k}, u) {
      SumWithout(points, k, u);
    }
  }

  lemma PinsWithout(points: Points, after: Points, limits: Limits)
    requires PinsCapped(points, limits) && forall k :: k in after && after[k].pinned ==> k in points && points[k].pinned
    ensures PinsCapped(after, limits)
  {
    forall u ensures |Pinned(after, u)| <= limits.maxPinned {
      assert Pinned(after, u) <= Pinned(points, u);
      SubsetSize(Pinned(after, u), Pinned(points, u));
    }
  }

  // --- An upload's evictions, as seen inside its transaction ---

  // `kept`: the rows now. `gone`: rows a concurrent prune removed meanwhile.
  // `last`: the latest eviction.
  ghost predicate Evicting(before: Points, newKey: Key, p: Point, kept: Points, gone: set<Key>, last: Option<Key>,
      limits: Limits)
  {
    && newKey !in before && newKey !in gone && !p.pinned
    && newKey in kept
    && Evicted(before[newKey := p] - gone, kept, newKey)
    && (last.None? ==> kept == before[newKey := p] - gone)
    && (last.Some? ==> LastOut(before[newKey := p] - gone, kept, newKey, last.value))
    && (last.Some? && gone == {} ==> !Fits(kept[last.value := before[last.value]], newKey.user, limits))
  }

  /** `v` went after every other one that went. */
  ghost predicate LastOut(before: Points, kept: Points, newKey: Key, v: Key)
  {
    v in before && v !in kept && v != newKey && forall k :: k in before && k !in kept && k != v ==> Sooner(before, k, v)
  }

  lemma EvictKeepsOrder(before: Points, newKey: Key, p: Point, kept: Points, gone: set<Key>, last: Option<Key>,
      limits: Limits, v: Key)
    requires Evicting(before, newKey, p, kept, gone, last, limits) && IsVictim(kept, newKey, Some(v))
    requires !Fits(kept, newKey.user, limits)
    ensures Evicting(before, newKey, p, kept - {v}, gone, Some(v), limits)
  {
    var all := before[newKey := p] - gone;
    EvictedOneMore(all, kept, newKey, v);
    assert kept[v] == all[v];
    assert (kept - {v})[v := all[v]] == kept;
    forall k | k in all && k !in kept - {v} && k != v ensures Sooner(all, k, v) { assert Evictable(kept, newKey, v); }
  }

  lemma VanishKeepsOrder(before: Points, newKey: Key, p: Point, kept: Points, gone: set<Key>, last: Option<Key>,
      limits: Limits, v: Key)
    requires Evicting(before, newKey, p, kept, gone, last, limits) && IsVictim(kept, newKey, Some(v))
    ensures Evicting(before, newKey, p, kept - {v}, gone + {v}, last, limits)
    ensures v in before && v !in gone && !before[v].pinned && v.user == newKey.user && kept[v] == before[v]
  {
    var all, rest := before[newKey := p] - gone, before[newKey := p] - (gone + {v});
    assert all - {v} == rest;
    forall k, r | k in rest && k !in kept - {v} && Evictable(kept - {v}, newKey, r) ensures Sooner(rest, k, r) {
      assert Evictable(kept, newKey, r) && Sooner(all, k, r);
    }
  }

  ghost function Unevictable(points: Points, newKey: Key): Points
  {
    map k | k in points && !Evictable(points, newKey, k) :: points[k]
  }

  // --- Pruning ---

  /** Later in time, or as late with a greater id. */
  predicate Newer(points: Points, a: Key, b: Key)
    requires a in points && b in points
  {
    points[a].createdAt > points[b].createdAt || (points[a].createdAt == points[b].createdAt && a.id > b.id)
  }

  predicate HasNewer(points: Points, k: Key)
    requires k in points
  {
    exists n :: n in points && n.user == k.user && Newer(points, n, k)
  }

  function Prunable(points: Points, cutoff: Time): set<Key>
  {
    set k | k in points && !points[k].pinned && points[k].createdAt < cutoff && HasNewer(points, k)
  }

  /** An account's newest point. */
  ghost predicate Newest(points: Points, k: Key)
  {
    k in points && !HasNewer(points, k)
  }

  /** A pass of pruning: only prunable points went, oldest first. */
  ghost predicate Pruned(before: Points, after: Points, cutoff: Time)
  {
    && (forall k :: k in after ==> k in before && after[k] == before[k])
    && (forall k :: k in before && k !in after ==> k in Prunable(before, cutoff))
    && (forall k, r :: k in before && k !in after && r in after && r in Prunable(before, cutoff) ==>
      before[k].createdAt <= before[r].createdAt)
  }

  /** Something newer than a given point that has nothing newer itself. */
  lemma {:induction false} NewestAbove(points: Points, k: Key, above: set<Key>) returns (n: Key)
    requires k in points && above == (set x | x in points && x.user == k.user && Newer(points, x, k))
    ensures Newest(points, n) && n.user == k.user && (n == k || Newer(points, n, k))
    decreases |above|
  {
    if above == {} {
      n := k;
      assert forall x :: x in points && x.user == k.user && Newer(points, x, k) ==> x in above;
    } else {
      var x :| x in above;
      var higher := set y | y in points && y.user == x.user && Newer(points, y, x);
      assert higher <= above - {x};
      SubsetSize(higher, above - {x});
      n := NewestAbove(points, x, higher);
    }
  }

  /** Removing prunable points makes no other prunable or unprunable: the newest
      of each account stays. */
  lemma PrunableAfter(before: Points, after: Points, cutoff: Time)
    requires forall k :: k in after ==> k in before && after[k] == before[k]
    requires forall k :: k in before && k !in after ==> k in Prunable(before, cutoff)
    ensures Prunable(after, cutoff) == Prunable(before, cutoff) * after.Keys
  {
    forall k | k in after && HasNewer(before, k) ensures HasNewer(after, k) {
      var n := NewestAbove(before, k, set x | x in before && x.user == k.user && Newer(before, x, k));
      assert n != k;
      assert n in after && Newer(after, n, k);
    }
    forall k | k in after && HasNewer(after, k) ensures HasNewer(before, k) {
      var n :| n in after && n.user == k.user && Newer(after, n, k);
      assert n in before && Newer(before, n, k);
    }
  }

  /** Pinned points and each account's newest one are never pruned. */
  lemma PruneSpares(before: Points, after: Points, cutoff: Time, k: Key)
    requires Pruned(before, after, cutoff) && k in before
    requires before[k].pinned || before[k].createdAt >= cutoff || Newest(before, k)
    ensures k in after && after[k] == before[k]
    ensures Newest(before, k) ==> Newest(after, k)
  {
    if Newest(before, k) && HasNewer(after, k) {
      var n :| n in after && n.user == k.user && Newer(after, n, k);
      assert Newer(before, n, k);
    }
  }

  // --- Bytes and pins inside an upload's transaction ---

  /** The transaction's rows hold `delta` bytes more than the committed ones, all of
      it in one account, and no more pins. */
  ghost predicate InTransaction(points: Points, kept: Points, u: User, delta: int)
  {
    && (forall x :: SumSize(kept, x) == SumSize(points, x) + if x == u then delta else 0)
    && (forall y :: y in kept && kept[y].pinned ==> y in points && points[y].pinned)
  }

  /** An upload part of the way through its evictions. */
  ghost predicate MidUpload(before: Points, points: Points, k: Key, p: Point, kept: Points, delta: int,
      gone: set<Key>, last: Option<Key>, limits: Limits)
  {
    && points == before - gone
    && (forall x :: x in gone ==> x in before && !before[x].pinned && x.user == k.user)
    && Evicting(before, k, p, kept, gone, last, limits)
    && InTransaction(points, kept, k.user, delta)
  }

  lemma EvictStep(before: Points, points: Points, k: Key, p: Point, kept: Points, delta: int, gone: set<Key>,
      last: Option<Key>, limits: Limits, v: Key)
    requires MidUpload(before, points, k, p, kept, delta, gone, last, limits) && IsVictim(kept, k, Some(v))
    requires !Fits(kept, k.user, limits)
    ensures v in kept && MidUpload(before, points, k, p, kept - {v}, delta - kept[v].size, gone, Some(v), limits)
  {
    hide Evicting, InTransaction, Fits;
    EvictKeepsOrder(before, k, p, kept, gone, last, limits, v);
    EvictCounts(points, kept, k.user, delta, v);
  }

  lemma VanishStep(before: Points, points: Points, k: Key, p: Point, kept: Points, delta: int, gone: set<Key>,
      last: Option<Key>, limits: Limits, v: Key)
    requires MidUpload(before, points, k, p, kept, delta, gone, last, limits) && IsVictim(kept, k, Some(v))
    ensures v in kept && v in points
    ensures MidUpload(before, points - {v}, k, p, kept - {v}, delta, gone + {v}, last, limits)
  {
    hide Evicting, InTransaction, Fits;
    VanishKeepsOrder(before, k, p, kept, gone, last, limits, v);
    VanishCounts(points, kept, k.user, delta, v);
    assert before - (gone + {v}) == points - {v};
  }

  lemma OpenTransaction(points: Points, k: Key, p: Point, limits: Limits)
    requires k !in points && !p.pinned
    ensures MidUpload(points, points, k, p, points[k := p], p.size, {}, None, limits)
  {
    assert points - {} == points;
    forall x ensures SumSize(points[k := p], x) == SumSize(points, x) + if x == k.user then p.size else 0 {
      SumWith(points, k, p, x);
    }
    assert points[k := p] - {} == points[k := p];
  }

  lemma EvictCounts(points: Points, kept: Points, u: User, delta: int, v: Key)
    requires InTransaction(points, kept, u, delta) && v in kept && v.user == u
    ensures InTransaction(points, kept - {v}, u, delta - kept[v].size)
  {
    forall x ensures SumSize(kept - {v}, x) == SumSize(points, x) + if x == u then delta - kept[v].size else 0 {
      SumWithout(kept, v, x);
    }
  }

  lemma VanishCounts(points: Points, kept: Points, u: User, delta: int, v: Key)
    requires InTransaction(points, kept, u, delta) && v in kept && v in points && kept[v] == points[v]
    ensures InTransaction(points - {v}, kept - {v}, u, delta)
  {
    forall x ensures SumSize(kept - {v}, x) == SumSize(points - {v}, x) + if x == u then delta else 0 {
      SumWithout(kept, v, x);
      SumWithout(points, v, x);
    }
  }

  lemma FitsIs(kept: Points, u: User, limits: Limits, count: nat, sum: nat)
    requires count == |Of(kept, u)| && sum == SumSize(kept, u)
    ensures Fits(kept, u, limits) <==> WithinLimits(count, sum, limits)
  {
  }

  lemma VictimCommitted(before: Points, points: Points, k: Key, p: Point, kept: Points, delta: int, gone: set<Key>,
      last: Option<Key>, limits: Limits, v: Key)
    requires MidUpload(before, points, k, p, kept, delta, gone, last, limits) && IsVictim(kept, k, Some(v))
    ensures v in points && points == before - gone
  {
    hide Fits, InTransaction;
  }

  lemma PruneLeavesPrunable(before: Points, points: Points, cutoff: Time, gone: set<Key>)
    requires points == before - gone && gone <= Prunable(before, cutoff)
    ensures Prunable(points, cutoff) <= Prunable(before, cutoff)
  {
    PrunableAfter(before, points, cutoff);
  }

  lemma IsVictimThere(kept: Points, k: Key, v: Key)
    requires IsVictim(kept, k, Some(v))
    ensures v in kept && v.user == k.user && v != k
  {
  }

  lemma CommitUpload(points: Points, bytes: map<User, nat>, kept: Points, u: User, delta: int, limits: Limits)
    requires CountersExact(points, bytes) && PinsCapped(points, limits) && InTransaction(points, kept, u, delta)
    ensures CountersExact(kept, Adjusted(bytes, u, delta)) && PinsCapped(kept, limits)
  {
    PinsWithout(points, kept, limits);
    hide PinsCapped;
    forall x ensures CounterOf(Adjusted(bytes, u, delta), x) == SumSize(kept, x) {
      assert CounterOf(bytes, x) == SumSize(points, x);
    }
  }

  lemma EvictingParts(before: Points, newKey: Key, p: Point, kept: Points, gone: set<Key>, last: Option<Key>,
      limits: Limits)
    requires Evicting(before, newKey, p, kept, gone, last, limits)
    ensures newKey in kept && kept[newKey] == p && Evicted(before[newKey := p] - gone, kept, newKey)
    ensures last.None? ==> kept == before[newKey := p] - gone
    ensures last.Some? && gone == {} ==>
      last.value in before && LastOut(before[newKey := p], kept, newKey, last.value)
      && !Fits(kept[last.value := before[last.value]], newKey.user, limits)
  {
    assert before[newKey := p] - {} == before[newKey := p];
    hide Fits;
  }

  lemma PinChanges(points: Points, bytes: map<User, nat>, k: Key, next: Point, limits: Limits)
    requires CountersExact(points, bytes) && PinsCapped(points, limits) && k in points
    requires next == points[k].(pinned := next.pinned)
    requires next.pinned && !points[k].pinned ==> |Pinned(points, k.user)| < limits.maxPinned
    ensures CountersExact(points[k := next], bytes) && PinsCapped(points[k := next], limits)
  {
    forall u ensures CounterOf(bytes, u) == SumSize(points[k := next], u) { SumRepinned(points, k, next, u); }
    var after := points[k := next];
    forall u ensures |Pinned(after, u)| <= limits.maxPinned {
      assert Pinned(after, u) <= Pinned(points, u) + if u == k.user && next.pinned then {k} else {};
      SubsetSize(Pinned(after, u), Pinned(points, u) + if u == k.user && next.pinned then {k} else {});
      if u == k.user && next.pinned && points[k].pinned { assert Pinned(points, u) + {k} == Pinned(points, u); }
    }
  }

  // --- When an upload is refused ---

  /** The rows after `n` deletions in the order of eviction. */
  ghost function AfterTurns(points: Points, newKey: Key, n: nat): Points
  {
    if n == 0 then points
    else
      var q := AfterTurns(points, newKey, n - 1);
      if v: Key :| IsVictim(q, newKey, Some(v)) then q - {v} else q
  }

  lemma OneVictim(points: Points, newKey: Key, v: Key, w: Key)
    requires IsVictim(points, newKey, Some(v)) && IsVictim(points, newKey, Some(w))
    ensures v == w
  {
  }

  lemma NextTurn(points: Points, newKey: Key, n: nat, v: Key)
    requires IsVictim(AfterTurns(points, newKey, n), newKey, Some(v))
    ensures AfterTurns(points, newKey, n + 1) == AfterTurns(points, newKey, n) - {v}
  {
    var w :| IsVictim(AfterTurns(points, newKey, n), newKey, Some(w))
      && AfterTurns(points, newKey, n + 1) == AfterTurns(points, newKey, n) - {w};
    OneVictim(AfterTurns(points, newKey, n), newKey, v, w);
  }

  lemma FitsWithout(points: Points, k: Key, u: User, limits: Limits)
    requires k in points && Fits(points, u, limits)
    ensures Fits(points - {k}, u, limits)
  {
    SumWithout(points, k, u);
    assert Of(points - {k}, u) == Of(points, u) - {k};
    SubsetSize(Of(points - {k}, u), Of(points, u));
  }

  lemma FitsNextTurn(points: Points, newKey: Key, limits: Limits, n: nat)
    requires Fits(AfterTurns(points, newKey, n), newKey.user, limits)
    ensures Fits(AfterTurns(points, newKey, n + 1), newKey.user, limits)
  {
    hide Fits;
    var q := AfterTurns(points, newKey, n);
    if v: Key :| IsVictim(q, newKey, Some(v)) {
      NextTurn(points, newKey, n, v);
      IsVictimThere(q, newKey, v);
      FitsWithout(q, v, newKey.user, limits);
    }
  }

  lemma {:induction false} FitsLater(points: Points, newKey: Key, limits: Limits, m: nat, n: nat)
    requires m <= n && Fits(AfterTurns(points, newKey, m), newKey.user, limits)
    ensures Fits(AfterTurns(points, newKey, n), newKey.user, limits)
  {
    hide Fits;
    if m < n {
      FitsLater(points, newKey, limits, m, n - 1);
      FitsNextTurn(points, newKey, limits, n - 1);
    }
  }

  /** Only evictable rows go. */
  lemma {:induction false} TurnsSpare(points: Points, newKey: Key, n: nat)
    ensures forall x :: x in AfterTurns(points, newKey, n) ==>
      x in points && AfterTurns(points, newKey, n)[x] == points[x]
    ensures forall x :: x in points && x !in AfterTurns(points, newKey, n) ==> Evictable(points, newKey, x)
  {
    if n > 0 {
      TurnsSpare(points, newKey, n - 1);
      var q := AfterTurns(points, newKey, n - 1);
      if v: Key :| IsVictim(q, newKey, Some(v)) { NextTurn(points, newKey, n - 1, v); }
    }
  }

  lemma TurnsEnd(points: Points, newKey: Key, n: nat)
    requires IsVictim(AfterTurns(points, newKey, n), newKey, None)
    ensures AfterTurns(points, newKey, n) == Unevictable(points, newKey)
  {
    TurnsSpare(points, newKey, n);
    var q := AfterTurns(points, newKey, n);
    forall x | x in q ensures !Evictable(points, newKey, x) { assert !Evictable(q, newKey, x); }
  }

  lemma {:induction false} FitsAtTheEnd(points: Points, newKey: Key, limits: Limits, n: nat)
    requires Fits(AfterTurns(points, newKey, n), newKey.user, limits)
    ensures Fits(Unevictable(points, newKey), newKey.user, limits)
    decreases |AfterTurns(points, newKey, n)|
  {
    var q := AfterTurns(points, newKey, n);
    hide Fits, Unevictable, AfterTurns, Evictable;
    if IsVictim(q, newKey, None) {
      TurnsEnd(points, newKey, n);
    } else {
      var v := VictimExists(q, newKey);
      NextTurn(points, newKey, n, v);
      IsVictimThere(q, newKey, v);
      assert (q - {v}).Keys == q.Keys - {v} && |q.Keys - {v}| == |q.Keys| - 1 && |q.Keys| == |q|;
      FitsLater(points, newKey, limits, n, n + 1);
      FitsAtTheEnd(points, newKey, limits, n + 1);
    }
  }

  lemma VictimExists(points: Points, newKey: Key) returns (v: Key)
    requires !IsVictim(points, newKey, None)
    ensures IsVictim(points, newKey, Some(v))
  {
    var k :| Evictable(points, newKey, k);
    var among := set x | x in points && Evictable(points, newKey, x);
    assert k in among;
    v := FirstOf(points, newKey, among);
  }

  lemma {:induction false} FirstOf(points: Points, newKey: Key, among: set<Key>) returns (v: Key)
    requires among != {} && forall x :: x in among ==> Evictable(points, newKey, x)
    ensures v in among && v in points && forall x :: x in among && x != v ==> x in points && Sooner(points, v, x)
  {
    var k :| k in among;
    if among == {k} {
      v := k;
    } else {
      var rest := among - {k};
      assert among == rest + {k};
      var w := FirstOf(points, newKey, rest);
      v := if Sooner(points, k, w) then k else w;
    }
  }

  /** The victim of the `n`-th deletion is one that a prune may take. */
  ghost predicate PrunableTurn(points: Points, newKey: Key, p: Point, cutoff: Time, n: nat)
  {
    exists v :: v in Prunable(points, cutoff) && IsVictim(AfterTurns(points[newKey := p], newKey, n), newKey, Some(v))
  }

  /** Where a prune takes the victim, if it strikes at the turns that `vanish` says: only
      where the committed rows let it. */
  ghost function Taken(points: Points, newKey: Key, p: Point, cutoff: Time, vanish: nat -> bool): nat -> bool
  {
    (n: nat) => vanish(n) && PrunableTurn(points, newKey, p, cutoff, n)
  }

  lemma TakenNow(before: Points, points: Points, newKey: Key, p: Point, cutoff: Time, vanish: nat -> bool,
      gone: set<Key>, turns: nat, v: Key)
    requires points == before - gone && gone <= Prunable(before, cutoff) && v in points
    requires IsVictim(AfterTurns(before[newKey := p], newKey, turns), newKey, Some(v))
    ensures Taken(before, newKey, p, cutoff, vanish)(turns) <==> vanish(turns) && v in Prunable(points, cutoff)
  {
    PrunableAfter(before, points, cutoff);
    hide Prunable;
    var q := AfterTurns(before[newKey := p], newKey, turns);
    forall w | IsVictim(q, newKey, Some(w)) ensures w == v { OneVictim(q, newKey, v, w); }
  }

  /** An upload is refused if what may not be evicted is too much with it, or if two
      victims in a row have just been pruned by somebody else while it did not fit
      without the first of them. */
  ghost predicate Refused(points: Points, newKey: Key, limits: Limits, vanish: nat -> bool)
  {
    || !Fits(Unevictable(points, newKey), newKey.user, limits)
    || exists n: nat :: vanish(n) && vanish(n + 1) && !Fits(AfterTurns(points, newKey, n + 1), newKey.user, limits)
  }

  /** `points`: the rows with the new one, `turns`: the deletions so far. */
  ghost predicate Turning(points: Points, newKey: Key, limits: Limits, vanish: nat -> bool, kept: Points, turns: nat,
      attempt: nat, retried: bool)
  {
    && kept == AfterTurns(points, newKey, turns)
    && (attempt == turns || IsVictim(kept, newKey, None))
    && (forall n: nat :: n + 1 < turns ==> !(vanish(n) && vanish(n + 1)))
    && (retried ==> IsVictim(kept, newKey, None) || (turns > 0 && vanish(turns - 1)))
    && (!retried && turns > 0 ==> !vanish(turns - 1))
  }

  lemma TurnTaken(points: Points, newKey: Key, limits: Limits, vanish: nat -> bool, kept: Points, turns: nat,
      attempt: nat, retried: bool, v: Key)
    requires Turning(points, newKey, limits, vanish, kept, turns, attempt, retried) && IsVictim(kept, newKey, Some(v))
    ensures attempt == turns
    ensures !(retried && vanish(attempt)) ==>
      Turning(points, newKey, limits, vanish, kept - {v}, turns + 1, attempt + 1, vanish(attempt))
  {
    NextTurn(points, newKey, turns, v);
  }

  lemma VictimOfTurn(points: Points, newKey: Key, limits: Limits, vanish: nat -> bool, kept: Points, turns: nat,
      attempt: nat, retried: bool, v: Key)
    requires Turning(points, newKey, limits, vanish, kept, turns, attempt, retried) && IsVictim(kept, newKey, Some(v))
    ensures attempt == turns && IsVictim(AfterTurns(points, newKey, turns), newKey, Some(v))
  {
  }

  lemma NoTurnLeft(points: Points, newKey: Key, limits: Limits, vanish: nat -> bool, kept: Points, turns: nat,
      attempt: nat, retried: bool)
    requires Turning(points, newKey, limits, vanish, kept, turns, attempt, retried) && IsVictim(kept, newKey, None)
    requires !Fits(kept, newKey.user, limits)
    ensures Refused(points, newKey, limits, vanish)
    ensures Turning(points, newKey, limits, vanish, kept, turns, attempt + 1, true)
  {
    TurnsEnd(points, newKey, turns);
  }

  lemma VanishedTwice(points: Points, newKey: Key, limits: Limits, vanish: nat -> bool, kept: Points, turns: nat,
      attempt: nat, v: Key)
    requires Turning(points, newKey, limits, vanish, kept, turns, attempt, true) && IsVictim(kept, newKey, Some(v))
    requires !Fits(kept, newKey.user, limits)
    requires vanish(attempt)
    ensures Refused(points, newKey, limits, vanish)
  {
    var n: nat := turns - 1;
    assert vanish(n) && vanish(n + 1) && !Fits(AfterTurns(points, newKey, n + 1), newKey.user, limits);
  }

  lemma NotRefused(points: Points, newKey: Key, limits: Limits, vanish: nat -> bool, kept: Points, turns: nat,
      attempt: nat, retried: bool)
    requires Turning(points, newKey, limits, vanish, kept, turns, attempt, retried) && Fits(kept, newKey.user, limits)
    ensures !Refused(points, newKey, limits, vanish)
  {
    FitsAtTheEnd(points, newKey, limits, turns);
    forall n: nat | vanish(n) && vanish(n + 1) ensures Fits(AfterTurns(points, newKey, n + 1), newKey.user, limits) {
      FitsLater(points, newKey, limits, turns, n + 1);
    }
  }

  /** An account with three points, none pinned, the two older ones past their time,
      where two are allowed. */
  ghost predicate ThreeOld(points: Points, newKey: Key, a: Key, b: Key, c: Key, p: Point, cutoff: Time, limits: Limits)
  {
    && (forall k :: k in points <==> k == a || k == b || k == c) && a != b && b != c && a != c && newKey !in points
    && a.user == newKey.user && b.user == newKey.user && c.user == newKey.user
    && points[a] == p.(createdAt := points[a].createdAt) && points[b] == p.(createdAt := points[b].createdAt)
    && points[c] == p.(createdAt := points[c].createdAt)
    && points[a].createdAt < points[b].createdAt < cutoff && points[b].createdAt < points[c].createdAt < p.createdAt
    && !p.pinned && p.size == 1 && limits.maxPerAccount == 2 && limits.maxAccountBytes == 2
  }

  lemma OldArePrunable(points: Points, newKey: Key, a: Key, b: Key, c: Key, p: Point, cutoff: Time, limits: Limits)
    requires ThreeOld(points, newKey, a, b, c, p, cutoff, limits)
    ensures a in Prunable(points, cutoff) && b in Prunable(points, cutoff)
  {
    assert Newer(points, b, a) && Newer(points, c, b);
  }

  lemma OldestGoes(points: Points, newKey: Key, a: Key, b: Key, c: Key, p: Point, cutoff: Time, limits: Limits)
    requires ThreeOld(points, newKey, a, b, c, p, cutoff, limits)
    ensures IsVictim(points[newKey := p], newKey, Some(a))
  {
    var all := points[newKey := p];
    forall k | Evictable(all, newKey, k) && k != a ensures Sooner(all, a, k) { assert k == b || k == c; }
  }

  lemma NextOldestGoes(points: Points, newKey: Key, a: Key, b: Key, c: Key, p: Point, cutoff: Time, limits: Limits)
    requires ThreeOld(points, newKey, a, b, c, p, cutoff, limits)
    ensures IsVictim(points[newKey := p] - {a}, newKey, Some(b))
  {
    var rest := points[newKey := p] - {a};
    forall k | Evictable(rest, newKey, k) && k != b ensures Sooner(rest, b, k) { assert k == c; }
  }

  lemma OldTurns(points: Points, newKey: Key, a: Key, b: Key, c: Key, p: Point, cutoff: Time, limits: Limits)
    requires ThreeOld(points, newKey, a, b, c, p, cutoff, limits)
    ensures var all := points[newKey := p]; var zero: nat := 0; var one: nat := 1;
      && IsVictim(AfterTurns(all, newKey, zero), newKey, Some(a))
        && IsVictim(AfterTurns(all, newKey, one), newKey, Some(b))
      && AfterTurns(all, newKey, one) == all - {a}
  {
    hide IsVictim;
    OldestGoes(points, newKey, a, b, c, p, cutoff, limits);
    NextOldestGoes(points, newKey, a, b, c, p, cutoff, limits);
    hide ThreeOld;
    var all := points[newKey := p];
    var zero: nat := 0;
    assert AfterTurns(all, newKey, zero) == all;
    hide AfterTurns;
    NextTurn(all, newKey, zero, a);
  }

  lemma {:induction false} OnesSum(points: Points, u: User)
    requires forall k :: k in points ==> k.user == u && points[k].size == 1
    ensures SumSize(points, u) == |points| && Of(points, u) == points.Keys
    decreases |points|
  {
    if points != map[] {
      var k :| k in points;
      SumWithout(points, k, u);
      assert (points - {k}).Keys == points.Keys - {k};
      OnesSum(points - {k}, u);
    }
  }

  lemma ThreeLeft(points: Points, u: User, limits: Limits, x: Key, y: Key, z: Key)
    requires (forall k :: k in points <==> k == x || k == y || k == z) && x != y && y != z && x != z
    requires (forall k :: k in points ==> k.user == u && points[k].size == 1) && limits.maxPerAccount == 2
    ensures !Fits(points, u, limits)
  {
    OnesSum(points, u);
    assert points.Keys == {x, y, z};
  }

  lemma FewLeft(points: Points, u: User, limits: Limits, x: Key, y: Key)
    requires forall k :: k in points ==> (k == x || k == y) && k.user == u && points[k].size == 1
    requires limits.maxPerAccount == 2 && limits.maxAccountBytes == 2
    ensures Fits(points, u, limits)
  {
    OnesSum(points, u);
    SubsetSize(points.Keys, {x, y});
  }

  lemma OldFit(points: Points, newKey: Key, a: Key, b: Key, c: Key, p: Point, cutoff: Time, limits: Limits)
    requires ThreeOld(points, newKey, a, b, c, p, cutoff, limits)
    ensures var all := points[newKey := p];
      Fits(all - {a, b}, newKey.user, limits) && Fits(Unevictable(all, newKey), newKey.user, limits)
        && !Fits(all - {a}, newKey.user, limits)
  {
    hide Fits;
    var all, u := points[newKey := p], newKey.user;
    ThreeLeft(all - {a}, u, limits, newKey, b, c);
    FewLeft(all - {a, b}, u, limits, newKey, c);
    FewLeft(Unevictable(all, newKey), u, limits, newKey, newKey);
  }

  /** It could make room for a new one by letting the two oldest go. When a prune has
      just taken the one, and then the other, the new one is refused. */
  lemma TwoVanishedVictims(points: Points, newKey: Key, a: Key, b: Key, c: Key, p: Point, cutoff: Time,
      limits: Limits, vanish: nat -> bool)
    requires ThreeOld(points, newKey, a, b, c, p, cutoff, limits) && vanish(0) && vanish(1)
    ensures a in Prunable(points, cutoff) && b in Prunable(points, cutoff)
    ensures Fits(points[newKey := p] - {a, b}, newKey.user, limits)
    ensures Fits(Unevictable(points[newKey := p], newKey), newKey.user, limits)
    ensures Refused(points[newKey := p], newKey, limits, Taken(points, newKey, p, cutoff, vanish))
  {
    hide Prunable, Fits, AfterTurns, IsVictim, Unevictable;
    OldArePrunable(points, newKey, a, b, c, p, cutoff, limits);
    OldTurns(points, newKey, a, b, c, p, cutoff, limits);
    OldFit(points, newKey, a, b, c, p, cutoff, limits);
    hide ThreeOld;
    var zero: nat, one: nat := 0, 1;
    var taken := Taken(points, newKey, p, cutoff, vanish);
    assert PrunableTurn(points, newKey, p, cutoff, zero) && PrunableTurn(points, newKey, p, cutoff, one);
    assert taken(zero) && taken(zero + 1)
      && !Fits(AfterTurns(points[newKey := p], newKey, zero + 1), newKey.user, limits);
  }

  // --- The tables ---

  predicate TooSoon(points: Points, u: User, now: Time, limits: Limits)
  {
    exists x :: x in points && x.user == u && points[x].kind.Scheduled?
      && points[x].createdAt > now - limits.scheduledMinInterval
  }

  /** What is wrong with a request by itself, the first check that fails. */
  function Fault(req: Request, limits: Limits): (fault: Option<Refusal>)
    ensures fault.None? <==>
      req.kind.Some? && 0 <= req.bookmarkCount <= MAX_BOOKMARK_COUNT && req.encryptionVersion >= 0
        && !req.codec.OtherCodec?
      && req.envelope != [] && req.envelope[0] == '{' && |req.envelope| <= limits.maxBytes
  {
    if req.kind.None? then Some(UnknownKind)
    else if !(0 <= req.bookmarkCount <= MAX_BOOKMARK_COUNT) then Some(BadBookmarkCount)
    else if req.encryptionVersion < 0 then Some(BadEncryptionVersion)
    else if req.codec.OtherCodec? then Some(UnknownCodec)
    else if req.envelope == [] || req.envelope[0] != '{' then Some(NotAnObject)
    else if |req.envelope| > limits.maxBytes then Some(TooLarge)
    else None
  }

  function PointFrom(req: Request, now: Time): Point
    requires req.kind.Some?
  {
    Point(req.kind.value, |req.envelope|, false, now)
  }

  /** A new point that the account takes: encrypted if it must be, of a kind that is
      allowed, and not too soon after another. */
  ghost predicate Admitted(points: Points, u: User, req: Request, now: Time, settings: Settings, encryptedOnly: bool,
      limits: Limits)
  {
    && (encryptedOnly || settings.requireEncryption ==> req.encryptionVersion != 0)
    && (req.kind == Some(Manual) || settings.automatic)
    && (req.kind == Some(Scheduled) ==> !TooSoon(points, u, now, limits))
  }

  /** Why the account does not take it, the first reason there is. */
  function Objection(points: Points, u: User, req: Request, now: Time, settings: Settings, encryptedOnly: bool,
      limits: Limits): (objection: Option<Refusal>)
    requires req.kind.Some?
    ensures objection.None? <==> Admitted(points, u, req, now, settings, encryptedOnly, limits)
  {
    if req.encryptionVersion == 0 && (encryptedOnly || settings.requireEncryption) then Some(EncryptionRequired)
    else if !req.kind.value.Manual? && !settings.automatic then Some(Disabled)
    else if req.kind.value.Scheduled? && TooSoon(points, u, now, limits) then Some(Recent)
    else None
  }

  // No prune interferes.
  ghost predicate Quiet(vanish: nat -> bool)
  {
    forall i :: !vanish(i)
  }

  lemma QuietAt(vanish: nat -> bool, i: nat)
    ensures Quiet(vanish) ==> !vanish(i)
  {
  }

  class Database {
    var points: Points
    // sync_stats.restore_point_bytes
    var bytes: map<User, nat>

    ghost predicate Valid(limits: Limits)
      reads this
    {
      CountersExact(points, bytes) && PinsCapped(points, limits)
    }

    constructor ()
      ensures forall limits :: Valid(limits)
      ensures points == map[]
    {
      points, bytes := map[], map[];
      new;
      forall u ensures Pinned(points, u) == {} {}
    }

    /** Removes rows, crediting the account's counter. */
    method DeleteRow(k: Key, limits: Limits)
      requires Valid(limits) && k in points
      modifies this
      ensures Valid(limits) && points == old(points) - {k}
    {
      CountersWithout(points, bytes, k);
      PinsWithout(points, points - {k}, limits);
      hide CountersExact, PinsCapped;
      bytes := Adjusted(bytes, k.user, 0 - points[k].size);
      points := points - {k};
    }

    method DeletePoint(k: Key, limits: Limits) returns (r: Result<(), Refusal>)
      requires Valid(limits)
      modifies this
      ensures Valid(limits) && points == old(points) - {k}
      ensures r == if k in old(points) then Success(()) else Failure(NotFound)
    {
      if k !in points {
        assert points - {k} == points;
        return Failure(NotFound);
      }
      DeleteRow(k, limits);
      return Success(());
    }

    method SetPinned(k: Key, pinned: bool, limits: Limits) returns (r: Result<Point, Refusal>)
      requires Valid(limits)
      modifies this
      ensures Valid(limits) && bytes == old(bytes)
      ensures r == Failure(NotFound) <==> k !in old(points)
      ensures r.Failure? ==> points == old(points)
      ensures r == Failure(PinLimit) <==>
        k in old(points) && pinned && !old(points)[k].pinned && |Pinned(old(points), k.user)| >= limits.maxPinned
      ensures r.Success? ==> points == old(points)[k := old(points)[k].(pinned := pinned)] && r.value == points[k]
    {
      if k !in points { return Failure(NotFound); }
      var current := points[k];
      if pinned == current.pinned {
        assert points == points[k := current.(pinned := pinned)];
        return Success(current);
      }
      if pinned && |Pinned(points, k.user)| >= limits.maxPinned { return Failure(PinLimit); }
      var next := current.(pinned := pinned);
      PinChanges(points, bytes, k, next, limits);
      hide CountersExact, PinsCapped;
      points := points[k := next];
      return Success(next);
    }

    /** Stores a new point, evicting others of its account if the limits require it.
        `vanish(i)`: a prune of what is older than `cutoff` comes just before the i-th
        deletion, and takes its victim if it may. */
    method Upload(k: Key, req: Request, now: Time, settings: Option<Settings>, encryptedOnly: bool, cutoff: Time,
        limits: Limits, vanish: nat -> bool)
      returns (r: Result<Point, Refusal>, ghost gone: set<Key>, ghost last: Option<Key>)
      requires Valid(limits)
      modifies this
      ensures Valid(limits)
      ensures Quiet(vanish) ==> gone == {}
      ensures gone <= Prunable(old(points), cutoff) && forall x :: x in gone ==> x.user == k.user
      ensures r.Failure? ==> points == old(points) - gone
      ensures Fault(req, limits).Some? ==> r == Failure(Fault(req, limits).value)
      ensures Fault(req, limits).None? && k in old(points) ==> points == old(points) && r == Success(old(points)[k])
      ensures Fault(req, limits).None? && k !in old(points) && r.Success? ==>
                var p := PointFrom(req, now);
                && r.value == p && k in points && points[k] == p && Fits(points, k.user, limits)
                && Evicted(old(points)[k := p] - gone, points, k)
                && (last.None? ==> points == old(points)[k := p] - gone)
                && (last.Some? && gone == {} ==>
                  LastOut(old(points)[k := p], points, k, last.value)
                  && !Fits(points[last.value := old(points)[last.value]], k.user, limits))
      ensures Fault(req, limits).None? && k !in old(points) ==>
                && (settings.None? ==> r == Failure(NotFound))
                && (settings.Some? ==>
                      var objection := Objection(old(points), k.user, req, now, settings.value, encryptedOnly, limits);
                      var p := PointFrom(req, now);
                      if objection.Some? then r == Failure(objection.value)
                      else if Refused(old(points)[k := p], k, limits, Taken(old(points), k, p, cutoff, vanish))
                      then r == Failure(LimitReached)
                      else r == Success(p))
    {
      gone, last := {}, None;
      assert points - {} == points;
      var fault := Fault(req, limits);
      if fault.Some? { return Failure(fault.value), gone, last; }
      if k in points { return Success(points[k]), gone, last; }
      if settings.None? { return Failure(NotFound), gone, last; }
      if req.encryptionVersion == 0 && (encryptedOnly || settings.value.requireEncryption) {
        return Failure(EncryptionRequired), gone, last;
      }
      if !req.kind.value.Manual? && !settings.value.automatic { return Failure(Disabled), gone, last; }
      if req.kind.value.Scheduled? && TooSoon(points, k.user, now, limits) { return Failure(Recent), gone, last; }
      var p, kept, delta: int := PointFrom(req, now), points, 0;
      r, kept, delta, gone, last := MakeRoom(k, p, cutoff, limits, vanish);
      if r.Failure? { return; }
      hide CountersExact, PinsCapped, Evicted, Fits, Evicting, InTransaction, LastOut, Refused, Prunable;
      CommitUpload(points, bytes, kept, k.user, delta, limits);
      EvictingParts(old(points), k, p, kept, gone, last, limits);
      points, bytes := kept, Adjusted(bytes, k.user, delta);
    }

    /** One deletion: the victim goes, unless it has just been pruned. */
    method EvictOne(k: Key, p: Point, limits: Limits, v: Key, pruned: bool, kept: Points, delta: int,
        ghost before: Points, ghost gone: set<Key>, ghost last: Option<Key>)
      returns (kept': Points, delta': int, ghost gone': set<Key>, ghost last': Option<Key>)
      requires Valid(limits) && MidUpload(before, points, k, p, kept, delta, gone, last, limits)
      requires IsVictim(kept, k, Some(v)) && !Fits(kept, k.user, limits)
      modifies this
      ensures Valid(limits) && MidUpload(before, points, k, p, kept', delta', gone', last', limits)
      ensures v in kept && kept' == kept - {v} && |kept'| == |kept| - 1
      ensures gone' == (if pruned then gone + {v} else gone)
    {
      hide CountersExact, PinsCapped, MidUpload, Fits, IsVictim;
      gone', last', delta' := gone, last, delta;
      if pruned {
        VanishStep(before, points, k, p, kept, delta, gone, last, limits, v);
        DeleteRow(v, limits);
        gone' := gone + {v};
      } else {
        EvictStep(before, points, k, p, kept, delta, gone, last, limits, v);
        delta', last' := delta - kept[v].size, Some(v);
      }
      assert (kept - {v}).Keys == kept.Keys - {v};
      kept' := kept - {v};
    }

    /** The loop of an upload, inside its transaction: `kept` is the table as the
        transaction sees it. */
    method MakeRoom(k: Key, p: Point, cutoff: Time, limits: Limits, vanish: nat -> bool)
      returns (r: Result<Point, Refusal>, kept: Points, delta: int, ghost gone: set<Key>, ghost last: Option<Key>)
      requires Valid(limits) && !p.pinned && k !in points
      modifies this
      ensures Valid(limits) && MidUpload(old(points), points, k, p, kept, delta, gone, last, limits)
      ensures (Quiet(vanish) ==> gone == {}) && gone <= Prunable(old(points), cutoff)
      ensures r == Failure(LimitReached) || (r == Success(p) && Fits(kept, k.user, limits))
      ensures r.Failure? <==> Refused(old(points)[k := p], k, limits, Taken(old(points), k, p, cutoff, vanish))
    {
      ghost var before := points;
      ghost var all, turns: nat := points[k := p], 0;
      ghost var taken := Taken(points, k, p, cutoff, vanish);
      kept, delta, gone, last := points[k := p], p.size, {}, None;
      OpenTransaction(points, k, p, limits);
      var retried, attempt := false, 0;
      hide CountersExact, PinsCapped, MidUpload, Fits, IsVictim, Quiet, Refused, Taken, Prunable;
      assert Turning(all, k, limits, taken, kept, turns, attempt, retried);
      hide Turning;
      while true
        invariant Valid(limits) && MidUpload(before, points, k, p, kept, delta, gone, last, limits)
        invariant (Quiet(vanish) ==> gone == {}) && gone <= Prunable(before, cutoff)
        invariant Turning(all, k, limits, taken, kept, turns, attempt, retried)
        decreases |kept|, !retried
      {
        var count, sum := Usage(kept, k.user);
        FitsIs(kept, k.user, limits, count, sum);
        if WithinLimits(count, sum, limits) {
          NotRefused(all, k, limits, taken, kept, turns, attempt, retried);
          return Success(p), kept, delta, gone, last;
        }
        var victim := FindVictim(kept, k);
        var pruned := victim.Some? && vanish(attempt) && victim.value in Prunable(points, cutoff);
        if victim.Some? {
          QuietAt(vanish, attempt);
          VictimCommitted(before, points, k, p, kept, delta, gone, last, limits, victim.value);
          VictimOfTurn(all, k, limits, taken, kept, turns, attempt, retried, victim.value);
          TakenNow(before, points, k, p, cutoff, vanish, gone, turns, victim.value);
          PruneLeavesPrunable(before, points, cutoff, gone);
          TurnTaken(all, k, limits, taken, kept, turns, attempt, retried, victim.value);
          if retried && pruned { VanishedTwice(all, k, limits, taken, kept, turns, attempt, victim.value); }
          turns := turns + 1;
          kept, delta, gone, last := EvictOne(k, p, limits, victim.value, pruned, kept, delta, before, gone, last);
        } else {
          NoTurnLeft(all, k, limits, taken, kept, turns, attempt, retried);
        }
        attempt := attempt + 1;
        if victim.Some? && !pruned {
          retried := false;
        } else {
          if retried { return Failure(LimitReached), kept, delta, gone, last; }
          retried := true;
        }
      }
    }

    /** One chunk of pruning: the oldest prunable points, at most so many. */
    method PruneChunk(cutoff: Time, limits: Limits) returns (rows: nat)
      requires Valid(limits)
      modifies this
      ensures Valid(limits) && Pruned(old(points), points, cutoff)
      ensures |points| == |old(points)| - rows
      ensures rows < DELETE_CHUNK_SIZE ==> Prunable(points, cutoff) == {}
    {
      ghost var before := points;
      var left := Prunable(points, cutoff);
      rows := 0;
      PrunedNothing(points, cutoff);
      hide CountersExact, PinsCapped, Pruned, Prunable;
      while left != {} && rows < DELETE_CHUNK_SIZE
        invariant Valid(limits) && |points| == |before| - rows
        invariant Pruned(before, points, cutoff) && left == Prunable(before, cutoff) * points.Keys
        decreases left
      {
        var k := Oldest(points, left);
        PruneStep(before, points, cutoff, left, k);
        assert (points - {k}).Keys == points.Keys - {k};
        DeleteRow(k, limits);
        left := left - {k};
        rows := rows + 1;
      }
      PruneLeaves(before, points, cutoff);
    }

    /** A pass: chunk after chunk, until one is not full or enough is done. */
    method PruneRestorePoints(cutoff: Time, limits: Limits) returns (totalRows: nat)
      requires Valid(limits)
      modifies this
      ensures Valid(limits) && Pruned(old(points), points, cutoff)
      ensures |points| == |old(points)| - totalRows
      ensures Prunable(points, cutoff) == {} || totalRows >= MAX_PRUNED_PER_PASS
    {
      ghost var before := points;
      totalRows := 0;
      PrunedNothing(points, cutoff);
      hide CountersExact, PinsCapped, Pruned, Prunable;
      while true
        invariant Valid(limits) && |points| == |before| - totalRows
        invariant Pruned(before, points, cutoff)
        decreases |points|
      {
        ghost var middle := points;
        var rowsAffected := PruneChunk(cutoff, limits);
        PrunedTwice(before, middle, points, cutoff);
        totalRows := totalRows + rowsAffected;
        if rowsAffected < DELETE_CHUNK_SIZE || totalRows >= MAX_PRUNED_PER_PASS { return; }
      }
    }
  }

  method Oldest(points: Points, among: set<Key>) returns (k: Key)
    requires among != {} && among <= points.Keys
    ensures k in among && forall r :: r in among ==> points[k].createdAt <= points[r].createdAt
  {
    k :| k in among;
    var left := among - {k};
    while left != {}
      invariant k in among && left <= among && forall r :: r in among && r !in left ==>
        points[k].createdAt <= points[r].createdAt
      decreases left
    {
      var r :| r in left;
      left := left - {r};
      if points[r].createdAt < points[k].createdAt { k := r; }
    }
  }

  lemma PrunedNothing(points: Points, cutoff: Time)
    ensures Pruned(points, points, cutoff) && Prunable(points, cutoff) == Prunable(points, cutoff) * points.Keys
  {
  }

  lemma PruneStep(before: Points, points: Points, cutoff: Time, left: set<Key>, k: Key)
    requires Pruned(before, points, cutoff) && left == Prunable(before, cutoff) * points.Keys
    requires k in left && forall r :: r in left ==> points[k].createdAt <= points[r].createdAt
    ensures k in points && Pruned(before, points - {k}, cutoff)
    ensures left - {k} == Prunable(before, cutoff) * (points - {k}).Keys
  {
    hide Prunable;
  }

  lemma PruneLeaves(before: Points, after: Points, cutoff: Time)
    requires Pruned(before, after, cutoff)
    ensures Prunable(after, cutoff) == Prunable(before, cutoff) * after.Keys
  {
    PrunableAfter(before, after, cutoff);
  }

  lemma PrunedTwice(a: Points, b: Points, c: Points, cutoff: Time)
    requires Pruned(a, b, cutoff) && Pruned(b, c, cutoff)
    ensures Pruned(a, c, cutoff)
  {
    PruneLeaves(a, b, cutoff);
    hide Prunable;
  }
}
