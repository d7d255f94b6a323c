// The in-memory token-bucket limiter: a bounded map of buckets, with counters,
// sweeps and evictions.
module RateLimiter {
  import opened Wrappers

  type Time = real

  datatype EntryKey = EntryKey(bucket: string, key: string)

  datatype TokenBucket = TokenBucket(lastRefill: Time, tokens: real, window: Time)

  datatype Decision = Allowed | Wait(wait: Time)

  const MAX_ENTRIES_PER_BUCKET := 5_000
  const EMERGENCY_SWEEP_COOLDOWN := 1.0
  const EVICTION_SCAN_CAP := 64
  const EVICTION_SCAN_COOLDOWN := 0.2

  // --- One key's bucket ---

  function Min(a: real, b: real): real
  {
    if a <= b then a else b
  }

  function Expired(b: TokenBucket, now: Time): bool
  {
    now - b.lastRefill >= b.window
  }

  function NewBucket(limit: nat, window: Time, now: Time): TokenBucket
  {
    TokenBucket(now, limit as real, window)
  }

  function Rate(limit: nat, window: Time): real
    requires window > 0.0
  {
    limit as real / window
  }

  /** The tokens that a span of time adds. */
  function Earned(span: Time, limit: nat, window: Time): real
    requires window > 0.0
  {
    span * Rate(limit, window)
  }

  function Refilled(b: TokenBucket, limit: nat, window: Time, now: Time): TokenBucket
    requires window > 0.0
  {
    TokenBucket(now, Min(b.tokens + Earned(now - b.lastRefill, limit, window), limit as real), window)
  }

  /** One call on a bucket: refill for the time gone by, then take a token or say
      how long until there is one. */
  function Take(b: TokenBucket, limit: nat, window: Time, now: Time): (TokenBucket, Decision)
    requires window > 0.0 && limit > 0
  {
    var r := Refilled(b, limit, window, now);
    if r.tokens >= 1.0 then (r.(tokens := r.tokens - 1.0), Allowed)
    else (r, Wait((1.0 - r.tokens) / Rate(limit, window)))
  }

  // What a bucket holds at some time, when always used with this limit and window.
  ghost predicate Sane(b: TokenBucket, limit: nat, window: Time, now: Time)
  {
    0.0 <= b.tokens <= limit as real && b.window == window && b.lastRefill <= now
  }

  lemma EarnedMono(a: Time, b: Time, limit: nat, window: Time)
    requires window > 0.0 && a <= b
    ensures Earned(a, limit, window) <= Earned(b, limit, window)
    ensures 0.0 <= a ==> 0.0 <= Earned(a, limit, window)
  {
    assert Rate(limit, window) >= 0.0;
    hide Rate;
  }

  lemma EarnedAdds(a: Time, b: Time, limit: nat, window: Time)
    requires window > 0.0
    ensures Earned(a, limit, window) + Earned(b, limit, window) == Earned(a + b, limit, window)
  {
    hide Rate;
  }

  lemma EarnedInWindow(limit: nat, window: Time)
    requires window > 0.0
    ensures Earned(window, limit, window) == limit as real
  {
  }

  lemma RefillBounds(b: TokenBucket, limit: nat, window: Time, now: Time)
    requires window > 0.0 && limit > 0 && Sane(b, limit, window, now)
    ensures Sane(Refilled(b, limit, window, now), limit, window, now)
    ensures Refilled(b, limit, window, now).tokens <= b.tokens + Earned(now - b.lastRefill, limit, window)
    ensures Expired(b, now) ==> Refilled(b, limit, window, now).tokens == limit as real
  {
    hide Earned;
    EarnedMono(0.0, now - b.lastRefill, limit, window);
    EarnedMono(now - b.lastRefill, now - b.lastRefill, limit, window);
    EarnedInWindow(limit, window);
    if Expired(b, now) { EarnedMono(window, now - b.lastRefill, limit, window); }
  }

  lemma TakeSane(b: TokenBucket, limit: nat, window: Time, now: Time)
    requires window > 0.0 && limit > 0 && Sane(b, limit, window, now)
    ensures Sane(Take(b, limit, window, now).0, limit, window, now)
    ensures Take(b, limit, window, now).0.lastRefill == now
  {
    RefillBounds(b, limit, window, now);
  }

  /** A caller told to wait, who calls no sooner than that, is served. */
  lemma WaitingHelps(b: TokenBucket, limit: nat, window: Time, now: Time, later: Time)
    requires window > 0.0 && limit > 0 && Sane(b, limit, window, now)
    requires var (_, d) := Take(b, limit, window, now); d.Wait? && later >= now + d.wait
    ensures var (after, d) := Take(b, limit, window, now);
      d.wait > 0.0 && Take(after, limit, window, later).1 == Allowed
  {
    RefillBounds(b, limit, window, now);
    var (after, d) := Take(b, limit, window, now);
    WaitEarns(after.tokens, limit, window);
    hide Earned;
    EarnedMono(d.wait, later - now, limit, window);
  }

  lemma WaitEarns(tokens: real, limit: nat, window: Time)
    requires window > 0.0 && limit > 0 && tokens < 1.0
    ensures var wait := (1.0 - tokens) / Rate(limit, window); wait > 0.0 && Earned(wait, limit, window) == 1.0 - tokens
  {
    assert Rate(limit, window) > 0.0;
    hide Rate;
  }

  // --- Calls and sweeps over time ---

  // What happens to one key: a call on it, or a sweep or an eviction scan coming by,
  // which removes it if nothing has used it for a window.
  datatype Event = Call(time: Time) | Cleanup(time: Time)

  ghost predicate InTime(events: seq<Event>, from: Time)
  {
    events == [] || (events[0].time >= from && InTime(events[1..], events[0].time))
  }

  function Step(entry: Option<TokenBucket>, e: Event, limit: nat, window: Time): (Option<TokenBucket>, seq<Decision>)
    requires window > 0.0 && limit > 0
  {
    match e
    case Call(t) =>
      var (b, d) := Take(if entry.Some? then entry.value else NewBucket(limit, window, t), limit, window, t);
      (Some(b), [d])
    case Cleanup(t) => (if entry.Some? && Expired(entry.value, t) then None else entry, [])
  }

  function Decisions(entry: Option<TokenBucket>, events: seq<Event>, limit: nat, window: Time): seq<Decision>
    requires window > 0.0 && limit > 0
    decreases |events|
  {
    if events == [] then []
    else
      var (next, d) := Step(entry, events[0], limit, window);
      d + Decisions(next, events[1..], limit, window)
  }

  function CallsOnly(events: seq<Event>): seq<Event>
  {
    if events == [] then []
    else (if events[0].Call? then [events[0]] else []) + CallsOnly(events[1..])
  }

  /** A missing entry stands for one unused for a window. */
  ghost predicate SameForCallers(a: Option<TokenBucket>, b: Option<TokenBucket>, limit: nat, window: Time, now: Time)
  {
    && (a.Some? ==> b.Some?)
    && (b.Some? ==> Sane(b.value, limit, window, now) && if a.Some? then a == b else Expired(b.value, now))
  }

  lemma SameForCallersLater(a: Option<TokenBucket>, b: Option<TokenBucket>, limit: nat, window: Time, now: Time,
      later: Time)
    requires SameForCallers(a, b, limit, window, now) && now <= later
    ensures SameForCallers(a, b, limit, window, later)
  {
  }

  /** Removing idle entries, whenever it happens, changes no decision. */
  lemma {:induction false} CleanupChangesNoDecision(a: Option<TokenBucket>, b: Option<TokenBucket>,
      events: seq<Event>, limit: nat, window: Time, now: Time)
    requires window > 0.0 && limit > 0 && InTime(events, now) && SameForCallers(a, b, limit, window, now)
    ensures Decisions(a, events, limit, window) == Decisions(b, CallsOnly(events), limit, window)
    decreases |events|
  {
    if events != [] {
      var e := events[0];
      SameForCallersLater(a, b, limit, window, now, e.time);
      var (a', d) := Step(a, e, limit, window);
      if e.Call? {
        var (b', d') := Step(b, e, limit, window);
        SameStep(a, b, limit, window, e.time);
        CleanupChangesNoDecision(a', b', events[1..], limit, window, e.time);
        assert CallsOnly(events) == [e] + CallsOnly(events[1..]);
      } else {
        CleanupChangesNoDecision(a', b, events[1..], limit, window, e.time);
        assert CallsOnly(events) == CallsOnly(events[1..]);
      }
    }
  }

  lemma SameStep(a: Option<TokenBucket>, b: Option<TokenBucket>, limit: nat, window: Time, now: Time)
    requires window > 0.0 && limit > 0 && SameForCallers(a, b, limit, window, now)
    ensures Step(a, Call(now), limit, window) == Step(b, Call(now), limit, window)
    ensures var (b', _) := Step(b, Call(now), limit, window); SameForCallers(b', b', limit, window, now)
  {
    var full := NewBucket(limit, window, now);
    RefillBounds(full, limit, window, now);
    assert Refilled(full, limit, window, now) == full;
    TakeSane(if b.Some? then b.value else full, limit, window, now);
    if a.None? && b.Some? {
      RefillBounds(b.value, limit, window, now);
      assert Refilled(b.value, limit, window, now) == full;
    }
  }

  // --- How many calls are served ---

  function Served(decisions: seq<Decision>): nat
  {
    if decisions == [] then 0 else (if decisions[0].Allowed? then 1 else 0) + Served(decisions[1..])
  }

  /** The first call takes a token exactly when it is served. */
  lemma ServedFirst(entry: Option<TokenBucket>, events: seq<Event>, limit: nat, window: Time)
    requires window > 0.0 && limit > 0 && events != [] && events[0].Call?
    ensures var t := events[0].time;
            var b := if entry.Some? then entry.value else NewBucket(limit, window, t);
            var (b', d) := Take(b, limit, window, t);
            && Served(Decisions(entry, events, limit, window)) == (if d.Allowed? then 1
              else 0) + Served(Decisions(Some(b'), events[1..], limit, window))
            && b'.tokens + (if d.Allowed? then 1.0 else 0.0) == Refilled(b, limit, window, t).tokens
  {
    var t := events[0].time;
    var b := if entry.Some? then entry.value else NewBucket(limit, window, t);
    var (b', d) := Take(b, limit, window, t);
    var later := Decisions(Some(b'), events[1..], limit, window);
    assert Decisions(entry, events, limit, window) == [d] + later;
    assert ([d] + later)[1..] == later;
  }

  lemma {:induction false} ServedWithin(b: TokenBucket, events: seq<Event>, limit: nat, window: Time, now: Time,
      end: Time)
    requires window > 0.0 && limit > 0 && Sane(b, limit, window, now) && InTime(events, now)
    requires forall e :: e in events ==> e.Call? && e.time <= end
    requires now <= end
    ensures Served(Decisions(Some(b), events, limit, window)) as real <= b.tokens + Earned(end - b.lastRefill, limit,
      window)
    decreases |events|
  {
    hide Earned, Take, Refilled;
    EarnedMono(0.0, end - b.lastRefill, limit, window);
    EarnedMono(end - b.lastRefill, end - b.lastRefill, limit, window);
    if events != [] {
      var t := events[0].time;
      assert events[0] in events;
      RefillBounds(b, limit, window, t);
      TakeSane(b, limit, window, t);
      var (b', d) := Take(b, limit, window, t);
      ServedWithin(b', events[1..], limit, window, t, end);
      ServedFirst(Some(b), events, limit, window);
      EarnedAdds(end - t, t - b.lastRefill, limit, window);
    }
  }

  /** In any span of time a key is served at most `limit` times, and `limit` per
      `window` of the span on top, however often idle entries are removed. */
  lemma ServedAtMost(entry: Option<TokenBucket>, events: seq<Event>, limit: nat, window: Time, start: Time, end: Time)
    requires window > 0.0 && limit > 0 && InTime(events, start) && start <= end
    requires forall e :: e in events ==> e.time <= end
    requires entry.Some? ==> Sane(entry.value, limit, window, start)
    ensures Served(Decisions(entry, events, limit, window)) as real <= limit as real + Earned(end - start, limit,
      window)
  {
    hide Earned, Take, Refilled;
    CleanupChangesNoDecision(entry, entry, events, limit, window, start);
    var calls := CallsOnly(events);
    CallsInTime(events, start, end);
    EarnedMono(0.0, end - start, limit, window);
    EarnedMono(end - start, end - start, limit, window);
    if calls != [] {
      var t := calls[0].time;
      assert calls[0] in calls;
      var b := if entry.Some? then entry.value else NewBucket(limit, window, t);
      RefillBounds(b, limit, window, t);
      TakeSane(b, limit, window, t);
      var (b', d) := Take(b, limit, window, t);
      ServedWithin(b', calls[1..], limit, window, t, end);
      ServedFirst(entry, calls, limit, window);
      EarnedMono(end - t, end - start, limit, window);
    }
  }

  lemma {:induction false} CallsInTime(events: seq<Event>, start: Time, end: Time)
    requires InTime(events, start) && forall e :: e in events ==> e.time <= end
    ensures InTime(CallsOnly(events), start) && forall e :: e in CallsOnly(events) ==> e.Call? && e.time <= end
    decreases |events|
  {
    if events != [] {
      CallsInTime(events[1..], events[0].time, end);
      Sooner(CallsOnly(events[1..]), events[0].time, start);
      var rest := CallsOnly(events[1..]);
      assert events[0] in events && ([events[0]] + rest)[1..] == rest;
      if events[0].Call? {
        assert CallsOnly(events) == [events[0]] + rest;
      } else {
        assert CallsOnly(events) == rest;
      }
    }
  }

  lemma Sooner(events: seq<Event>, from: Time, start: Time)
    requires InTime(events, from) && start <= from
    ensures InTime(events, start)
  {
  }

  // --- The partition ---

  type Windows = map<EntryKey, TokenBucket>

  ghost function InBucket(windows: Windows, bucket: string): set<EntryKey>
  {
    set k | k in windows && k.bucket == bucket
  }

  ghost predicate CountsExact(windows: Windows, counts: map<string, nat>)
  {
    forall b :: |InBucket(windows, b)| == if b in counts then counts[b] else 0
  }

  lemma InBucketPut(windows: Windows, k: EntryKey, t: TokenBucket, b: string)
    ensures InBucket(windows[k := t], b) == InBucket(windows, b) + if k.bucket == b then {k} else {}
    ensures k in windows ==> InBucket(windows[k := t], b) == InBucket(windows, b)
  {
  }

  lemma InBucketDrop(windows: Windows, k: EntryKey, b: string)
    ensures InBucket(windows - {k}, b) == InBucket(windows, b) - {k}
  {
  }

  function Counted(counts: map<string, nat>, b: string): nat
  {
    if b in counts then counts[b] else 0
  }

  lemma CountsAfterPut(windows: Windows, counts: map<string, nat>, k: EntryKey, t: TokenBucket)
    requires CountsExact(windows, counts) && k !in windows
    ensures CountsExact(windows[k := t], counts[k.bucket := Counted(counts, k.bucket) + 1])
  {
    forall b { InBucketPut(windows, k, t, b); }
  }

  lemma CountsAfterUpdate(windows: Windows, counts: map<string, nat>, k: EntryKey, t: TokenBucket)
    requires CountsExact(windows, counts) && k in windows
    ensures CountsExact(windows[k := t], counts)
  {
    forall b { InBucketPut(windows, k, t, b); }
  }

  lemma CountsAfterDrop(windows: Windows, counts: map<string, nat>, k: EntryKey)
    requires CountsExact(windows, counts) && k in windows
    ensures k.bucket in counts && counts[k.bucket] > 0
    ensures CountsExact(windows - {k}, counts[k.bucket := counts[k.bucket] - 1])
  {
    assert k in InBucket(windows, k.bucket);
    forall b { InBucketDrop(windows, k, b); }
  }

  // In which order a map's entries are visited, whatever it is.
  type Iteration = Windows -> seq<EntryKey>

  ghost predicate Visits(order: Iteration)
  {
    forall w: Windows, k: EntryKey :: k in order(w) <==> k in w
  }

  /** An entry may be removed for having been unused for a window, or for belonging to
      a bucket that holds its share or more. */
  ghost predicate Removable(windows: Windows, counts: map<string, nat>, k: EntryKey, now: Time)
  {
    k in windows && (Expired(windows[k], now) || Counted(counts, k.bucket) >= MAX_ENTRIES_PER_BUCKET)
  }

  /** `after` lacks some entries of `before`, each of them removable. */
  ghost predicate Trimmed(before: Windows, counts: map<string, nat>, after: Windows, now: Time)
  {
    && (forall k :: k in after ==> k in before && after[k] == before[k])
    && (forall k :: k in before && k !in after ==> Removable(before, counts, k, now))
  }

  /** No entry of the same bucket among the first `n` was used before `k` was. */
  ghost predicate OldestSeen(windows: Windows, entries: seq<EntryKey>, n: nat, k: EntryKey)
  {
    k in windows && forall i ::
      0 <= i < n && i < |entries| && entries[i] in windows && entries[i].bucket == k.bucket ==>
      windows[k].lastRefill <= windows[entries[i]].lastRefill
  }

  // --- Runs of the limiter ---

  // A call, or the periodic sweep.
  datatype Request = Check(k: EntryKey, limit: nat, window: Time, time: Time) | SweepAt(time: Time)

  /** What a request does to the entries, and what it answers. */
  ghost predicate Took(before: Windows, after: Windows, r: Request, d: Decision)
  {
    match r
    case Check(k, limit, window, now) =>
      && limit > 0 && window > 0.0
      && (if k in before then
            d == Take(before[k], limit, window, now).1 && after == before[k := Take(before[k], limit, window, now).0]
          else
            && (forall x :: x in after && x != k ==> x in before && after[x] == before[x])
            && (if k in after then d == Allowed
              && after[k] == Take(NewBucket(limit, window, now), limit, window, now).0 else d == Wait(window)))
    case SweepAt(now) => after == map k | k in before && !Expired(before[k], now) :: before[k]
  }

  /** A run, in time order, in which `k` is always used with the same limit and window
      and never evicted: where its entry goes it was idle for a window. */
  ghost predicate KeptRun(run: seq<Windows>, requests: seq<Request>, decisions: seq<Decision>, k: EntryKey,
      limit: nat, window: Time, start: Time, end: Time)
  {
    && |run| == |requests| + 1 && |decisions| == |requests|
    && (requests != [] ==>
          && start <= requests[0].time <= end
          && Took(run[0], run[1], requests[0], decisions[0])
          && (requests[0].Check? && requests[0].k == k ==> requests[0].limit == limit && requests[0].window == window)
          && (k in run[0] && k !in run[1] ==> Expired(run[0][k], requests[0].time))
          && KeptRun(run[1..], requests[1..], decisions[1..], k, limit, window, requests[0].time, end))
  }

  /** How many calls on `k` are served. */
  function ServedTo(requests: seq<Request>, decisions: seq<Decision>, k: EntryKey): nat
    requires |decisions| == |requests|
  {
    if requests == [] then 0
    else (if requests[0].Check? && requests[0].k == k
      && decisions[0].Allowed? then 1 else 0) + ServedTo(requests[1..], decisions[1..], k)
  }

  function EntryOf(w: Windows, k: EntryKey): Option<TokenBucket>
  {
    if k in w then Some(w[k]) else None
  }

  /** What a request is to the entry of `k`. */
  function EventOf(before: Windows, after: Windows, r: Request, k: EntryKey): seq<Event>
  {
    if r.SweepAt? then [Cleanup(r.time)]
    else if r.k == k then (if k in after then [Call(r.time)] else [])
    else if k in before && k !in after then [Cleanup(r.time)] else []
  }

  function EventsOf(run: seq<Windows>, requests: seq<Request>, k: EntryKey): seq<Event>
    requires |run| == |requests| + 1
  {
    if requests == [] then [] else EventOf(run[0], run[1], requests[0], k) + EventsOf(run[1..], requests[1..], k)
  }

  lemma EventStep(before: Windows, after: Windows, r: Request, d: Decision, k: EntryKey, limit: nat, window: Time)
    requires limit > 0 && window > 0.0 && Took(before, after, r, d)
    requires r.Check? && r.k == k ==> r.limit == limit && r.window == window
    requires k in before && k !in after ==> Expired(before[k], r.time)
    ensures var e := EventOf(before, after, r, k);
            && |e| <= 1 && (e == [] ==>
              EntryOf(after, k) == EntryOf(before, k) && !(r.Check? && r.k == k && d.Allowed?))
            && (e != [] ==>
              Step(EntryOf(before, k), e[0], limit, window) == (EntryOf(after, k), if r.Check?
              && r.k == k then [d] else []))
  {
    NewIsServed(limit, window, r.time);
    hide Take;
  }

  lemma {:induction false} RunIsEvents(run: seq<Windows>, requests: seq<Request>, decisions: seq<Decision>,
      k: EntryKey, limit: nat, window: Time, start: Time, end: Time)
    requires limit > 0 && window > 0.0 && KeptRun(run, requests, decisions, k, limit, window, start, end)
    ensures Served(Decisions(EntryOf(run[0], k), EventsOf(run, requests, k), limit, window)) == ServedTo(requests,
      decisions, k)
    ensures InTime(EventsOf(run, requests, k), start) && forall e :: e in EventsOf(run, requests, k) ==> e.time <= end
    decreases |requests|
  {
    if requests != [] {
      var e, rest := EventOf(run[0], run[1], requests[0], k), EventsOf(run[1..], requests[1..], k);
      RunIsEvents(run[1..], requests[1..], decisions[1..], k, limit, window, requests[0].time, end);
      EventStep(run[0], run[1], requests[0], decisions[0], k, limit, window);
      hide Took, Step, KeptRun, EntryOf, EventOf;
      Sooner(rest, requests[0].time, start);
      assert EventsOf(run, requests, k) == e + rest;
      if e == [] {
        assert e + rest == rest;
      } else {
        assert e[0].time == requests[0].time by { EventTime(run[0], run[1], requests[0], k); }
        assert (e + rest)[1..] == rest && (e + rest)[0] == e[0];
        var d := if requests[0].Check? && requests[0].k == k then [decisions[0]] else [];
        ServedMore(d, Decisions(EntryOf(run[1], k), rest, limit, window));
      }
    }
  }

  lemma EventTime(before: Windows, after: Windows, r: Request, k: EntryKey)
    ensures forall e :: e in EventOf(before, after, r, k) ==> e.time == r.time
  {
  }

  lemma ServedMore(d: seq<Decision>, later: seq<Decision>)
    requires |d| <= 1
    ensures Served(d + later) == (if d != [] && d[0].Allowed? then 1 else 0) + Served(later)
  {
    if d == [] { assert d + later == later; } else { assert (d + later)[1..] == later; }
  }

  /** Over any run of the limiter, whatever else it serves: in any span of time a key
      that is not evicted is served at most `limit` times, and `limit` per `window` of
      the span on top. */
  lemma UnevictedServedAtMost(run: seq<Windows>, requests: seq<Request>, decisions: seq<Decision>, k: EntryKey,
      limit: nat, window: Time, start: Time, end: Time)
    requires limit > 0 && window > 0.0 && start <= end
    requires KeptRun(run, requests, decisions, k, limit, window, start, end)
    requires k in run[0] ==> Sane(run[0][k], limit, window, start)
    ensures ServedTo(requests, decisions, k) as real <= limit as real + Earned(end - start, limit, window)
  {
    RunIsEvents(run, requests, decisions, k, limit, window, start, end);
    ServedAtMost(EntryOf(run[0], k), EventsOf(run, requests, k), limit, window, start, end);
  }

  class Partition {
    var windows: Windows
    // How many entries each bucket has.
    var bucketCounts: map<string, nat>
    const capacity: nat
    // Times since the limiter was created.
    var lastEmergencySweep: Time
    var lastFailedEvictionScan: Option<Time>

    ghost predicate Valid()
      reads this
    {
      CountsExact(windows, bucketCounts) && |windows| <= capacity
    }

    constructor (capacity: nat)
      ensures Valid() && windows == map[] && this.capacity == capacity
    {
      windows, bucketCounts, this.capacity := map[], map[], capacity;
      lastEmergencySweep, lastFailedEvictionScan := 0.0, None;
      new;
      forall b ensures InBucket(windows, b) == {} {}
    }

    predicate EvictionScanOnCooldown(now: Time)
      reads this
    {
      lastFailedEvictionScan.Some? && now - lastFailedEvictionScan.value < EVICTION_SCAN_COOLDOWN
    }

    method Remove(k: EntryKey) returns (freed: bool)
      requires Valid()
      modifies `windows, `bucketCounts
      ensures Valid() && windows == old(windows) - {k} && (freed <==> k in old(windows))
      ensures freed ==> |windows| == |old(windows)| - 1
      ensures forall b :: Counted(bucketCounts, b) <= Counted(old(bucketCounts), b)
    {
      freed := k in windows;
      if freed {
        CountsAfterDrop(windows, bucketCounts, k);
        hide CountsExact;
        assert (windows - {k}).Keys == windows.Keys - {k};
        windows := windows - {k};
        var count := bucketCounts[k.bucket];
        bucketCounts := bucketCounts[k.bucket := if count > 0 then count - 1 else 0];
      } else {
        assert windows - {k} == windows;
      }
    }

    /** Removes every entry unused for a window. */
    method Sweep(now: Time)
      requires Valid()
      modifies `windows, `bucketCounts
      ensures Valid() && windows == map k | k in old(windows) && !Expired(old(windows)[k], now) :: old(windows)[k]
      ensures Took(old(windows), windows, SweepAt(now), Allowed)
      ensures forall b :: Counted(bucketCounts, b) <= Counted(old(bucketCounts), b)
    {
      var left := windows.Keys;
      while left != {}
        invariant Valid() && left <= windows.Keys <= old(windows.Keys)
        invariant forall k :: k in windows ==> windows[k] == old(windows)[k] && (k in left || !Expired(windows[k], now))
        invariant forall k :: k in old(windows) && k !in windows ==> Expired(old(windows)[k], now)
        invariant forall b :: Counted(bucketCounts, b) <= Counted(old(bucketCounts), b)
        decreases left
      {
        hide CountsExact, Counted;
        var k :| k in left;
        left := left - {k};
        if Expired(windows[k], now) { var _ := Remove(k); }
      }
    }

    method MaybeEmergencySweep(now: Time)
      requires Valid()
      modifies `windows, `bucketCounts, `lastEmergencySweep
      ensures Valid() && Trimmed(old(windows), old(bucketCounts), windows, now)
      ensures forall b :: Counted(bucketCounts, b) <= Counted(old(bucketCounts), b)
    {
      if now - lastEmergencySweep < EMERGENCY_SWEEP_COOLDOWN { return; }
      lastEmergencySweep := now;
      Sweep(now);
    }

    /** Frees a slot: the first entry seen that is idle, or else the first of a
        bucket other than `exempt` that holds its share. */
    method EvictOneEntry(exempt: string, now: Time, order: Iteration) returns (freed: bool)
      requires Valid() && Visits(order)
      modifies `windows, `bucketCounts, `lastFailedEvictionScan
      ensures Valid() && Trimmed(old(windows), old(bucketCounts), windows, now)
      ensures freed ==> |windows| == |old(windows)| - 1
      ensures !freed ==> windows == old(windows)
      ensures forall k :: k in old(windows) && k !in windows ==> Expired(old(windows)[k], now) || k.bucket != exempt
    {
      if EvictionScanOnCooldown(now) { return false; }
      var entries := order(windows);
      var expired: Option<EntryKey>, monopolizer: Option<EntryKey> := None, None;
      var checked := 0;
      while checked < |entries| && checked < EVICTION_SCAN_CAP && expired.None?
        invariant expired.Some? ==> expired.value in windows && Expired(windows[expired.value], now)
        invariant monopolizer.Some? ==> monopolizer.value in windows && monopolizer.value.bucket != exempt
        invariant monopolizer.Some? ==> Counted(bucketCounts, monopolizer.value.bucket) >= MAX_ENTRIES_PER_BUCKET
        decreases |entries| - checked, expired.None?
      {
        var k := entries[checked];
        assert k in entries;
        if Expired(windows[k], now) {
          expired := Some(k);
        } else {
          if monopolizer.None? && k.bucket != exempt && Counted(bucketCounts, k.bucket) >= MAX_ENTRIES_PER_BUCKET {
            monopolizer := Some(k);
          }
          checked := checked + 1;
        }
      }
      var candidate := if expired.Some? then expired else monopolizer;
      if candidate.None? {
        lastFailedEvictionScan := Some(now);
        return false;
      }
      freed := Remove(candidate.value);
    }

    /** Frees a slot by removing the least recently used entry of a bucket, of those
        looked at. */
    method EvictLruInBucket(bucket: string, now: Time, order: Iteration) returns (freed: bool)
      requires Valid() && Visits(order) && Counted(bucketCounts, bucket) >= MAX_ENTRIES_PER_BUCKET
      modifies `windows, `bucketCounts, `lastFailedEvictionScan
      ensures Valid() && Trimmed(old(windows), old(bucketCounts), windows, now)
      ensures freed ==> |windows| == |old(windows)| - 1
      ensures !freed ==> windows == old(windows)
      ensures forall k :: k in old(windows) && k !in windows ==>
        k.bucket == bucket && OldestSeen(old(windows), order(old(windows)), EVICTION_SCAN_CAP, k)
    {
      if EvictionScanOnCooldown(now) { return false; }
      var entries := order(windows);
      var oldest: Option<EntryKey> := None;
      var checked := 0;
      while checked < |entries| && checked < EVICTION_SCAN_CAP
        invariant checked <= |entries|
        invariant oldest.Some? ==> oldest.value in windows && oldest.value.bucket == bucket
        invariant oldest.Some? ==> OldestSeen(windows, entries, checked, oldest.value)
        invariant oldest.None? ==> forall i :: 0 <= i < checked ==> entries[i].bucket != bucket
      {
        var k := entries[checked];
        assert k in entries;
        if k.bucket == bucket && (oldest.None? || windows[k].lastRefill < windows[oldest.value].lastRefill) {
          oldest := Some(k);
        }
        checked := checked + 1;
      }
      if oldest.None? {
        lastFailedEvictionScan := Some(now);
        return false;
      }
      freed := Remove(oldest.value);
    }

    /** Makes room for a new key of `bucket` in a full partition, if it can. */
    method MakeRoom(bucket: string, now: Time, order: Iteration) returns (room: bool)
      requires Valid() && Visits(order) && |windows| >= capacity > 0
      modifies `windows, `bucketCounts, `lastEmergencySweep, `lastFailedEvictionScan
      ensures Valid() && Trimmed(old(windows), old(bucketCounts), windows, now)
      ensures room ==> |windows| < capacity
    {
      hide CountsExact, Visits;
      if Counted(bucketCounts, bucket) >= MAX_ENTRIES_PER_BUCKET {
        ghost var w0, c0 := windows, bucketCounts;
        MaybeEmergencySweep(now);
        if Counted(bucketCounts, bucket) >= MAX_ENTRIES_PER_BUCKET {
          ghost var w1, c1 := windows, bucketCounts;
          room := EvictLruInBucket(bucket, now, order);
          TrimmedTwice(w0, c0, w1, c1, windows, now);
        } else {
          room := |windows| < capacity;
        }
      } else {
        room := EvictOneEntry(bucket, now, order);
        room := room || |windows| < capacity;
      }
    }

    /** The entry of a key, made with a full bucket if it is new. */
    method Enter(k: EntryKey, limit: nat, window: Time, now: Time)
      requires Valid() && (k in windows || |windows| < capacity)
      modifies `windows, `bucketCounts
      ensures Valid()
        && windows == if k in old(windows) then old(windows) else old(windows)[k := NewBucket(limit, window, now)]
    {
      if k in windows { return; }
      var entry := NewBucket(limit, window, now);
      CountsAfterPut(windows, bucketCounts, k, entry);
      hide CountsExact;
      assert windows[k := entry].Keys == windows.Keys + {k};
      windows := windows[k := entry];
      bucketCounts := bucketCounts[k.bucket := Counted(bucketCounts, k.bucket) + 1];
    }

    method TakeToken(k: EntryKey, limit: nat, window: Time, now: Time) returns (d: Decision)
      requires Valid() && k in windows && limit > 0 && window > 0.0
      modifies `windows
      ensures Valid() && windows == old(windows)[k := Take(old(windows)[k], limit, window, now).0]
      ensures d == Take(old(windows)[k], limit, window, now).1
    {
      var (entry, decision) := Take(windows[k], limit, window, now);
      hide Take, CountsExact;
      CountsAfterUpdate(windows, bucketCounts, k, entry);
      assert windows[k := entry].Keys == windows.Keys;
      windows := windows[k := entry];
      return decision;
    }

    /** Takes a token for a key, or says how long to wait. A key already there is
        never refused for lack of space, whatever the load; a new one is refused
        only if the partition is full and nothing can be freed. */
    method CheckWithRetryAfter(bucket: string, key: string, limit: nat, window: Time, now: Time, order: Iteration)
        returns (d: Decision)
      requires Valid() && Visits(order) && limit > 0 && window > 0.0 && capacity > 0
      modifies `windows, `bucketCounts, `lastEmergencySweep, `lastFailedEvictionScan
      ensures Valid() && Took(old(windows), windows, Check(EntryKey(bucket, key), limit, window, now), d)
      ensures var k := EntryKey(bucket, key);
              k in old(windows) ==>
                d == Take(old(windows)[k], limit, window, now).1
                && windows == old(windows)[k := Take(old(windows)[k], limit, window, now).0]
      ensures var k := EntryKey(bucket, key);
              k !in old(windows) && |old(windows)| < capacity ==>
                d == Allowed && windows == old(windows)[k := Take(NewBucket(limit, window, now), limit, window, now).0]
      ensures var k := EntryKey(bucket, key);
              k !in old(windows) ==>
                && Trimmed(old(windows), old(bucketCounts), windows - {k}, now)
                && (if k in windows then d == Allowed
                  && windows[k] == Take(NewBucket(limit, window, now), limit, window, now).0 else d == Wait(window))
    {
      var k := EntryKey(bucket, key);
      NewIsServed(limit, window, now);
      hide CountsExact, Visits, Take, Trimmed, Valid;
      TrimmedSelf(windows, bucketCounts, now);
      if k !in windows && |windows| >= capacity {
        var room := MakeRoom(bucket, now, order);
        if !room {
          assert windows - {k} == windows by { TrimmedLacks(old(windows), old(bucketCounts), windows, now, k); }
          return Wait(window);
        }
        TrimmedLacks(old(windows), old(bucketCounts), windows, now, k);
      }
      ghost var w := windows;
      Enter(k, limit, window, now);
      d := TakeToken(k, limit, window, now);
      assert k !in w ==> windows - {k} == w;
      assert windows == w[k := windows[k]];
    }
  }

  lemma TrimmedSelf(w: Windows, counts: map<string, nat>, now: Time)
    ensures Trimmed(w, counts, w, now)
  {
  }

  lemma TrimmedLacks(a: Windows, counts: map<string, nat>, b: Windows, now: Time, k: EntryKey)
    requires Trimmed(a, counts, b, now) && k !in a
    ensures k !in b && b - {k} == b
  {
  }

  lemma NewIsServed(limit: nat, window: Time, now: Time)
    requires window > 0.0 && limit > 0
    ensures Take(NewBucket(limit, window, now), limit, window, now).1 == Allowed
  {
    RefillBounds(NewBucket(limit, window, now), limit, window, now);
    assert Refilled(NewBucket(limit, window, now), limit, window, now).tokens == limit as real by {
      EarnedMono(0.0, 0.0, limit, window);
    }
  }

  lemma TrimmedTwice(a: Windows, ca: map<string, nat>, b: Windows, cb: map<string, nat>, c: Windows, now: Time)
    requires Trimmed(a, ca, b, now) && Trimmed(b, cb, c, now) && forall x :: Counted(cb, x) <= Counted(ca, x)
    ensures Trimmed(a, ca, c, now)
  {
  }
}
