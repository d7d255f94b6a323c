// The caches that let authentication skip the database, and how a revocation
// makes itself felt at once, whatever is in flight.
module RevocationCache {
  import opened Wrappers

  // Seconds on the server's monotonic clock. A device id or a session hash.
  type Time = real
  type Key = string

  // What is known of a key, as of when the knowledge was asked for.
  datatype Entry = Entry(asOf: Time, active: bool)

  type Cache = map<Key, Entry>

  const TTL := 30.0

  /** Keeps whichever value has the later `asOf`. */
  function WriteEntry(cache: Cache, k: Key, e: Entry): Cache
  {
    if k in cache && e.asOf <= cache[k].asOf then cache else cache[k := e]
  }

  function CachedActive(cache: Cache, k: Key, now: Time): Option<bool>
  {
    if k in cache && now - cache[k].asOf < TTL then Some(cache[k].active) else None
  }

  function Unexpired(cache: Cache, now: Time): Cache
  {
    map k | k in cache && now - cache[k].asOf < TTL :: cache[k]
  }

  // The shared map, changed in place.
  class Store {
    var cache: Cache

    constructor ()
      ensures cache == map[]
    {
      cache := map[];
    }

    method Write(k: Key, e: Entry)
      modifies this
      ensures cache == WriteEntry(old(cache), k, e)
      ensures k in cache && cache[k].asOf >= e.asOf && (k in old(cache) ==> cache[k].asOf >= old(cache)[k].asOf)
      ensures cache[k] == e || (k in old(cache) && cache[k] == old(cache)[k])
      ensures forall j :: j != k ==> (j in cache <==> j in old(cache)) && (j in cache ==> cache[j] == old(cache)[j])
    {
      if k in cache {
        if e.asOf > cache[k].asOf { cache := cache[k := e]; }
      } else {
        cache := cache[k := e];
      }
    }

    method Lookup(k: Key, now: Time) returns (r: Option<bool>)
      ensures r == CachedActive(cache, k, now)
      ensures r.Some? <==> k in cache && now < cache[k].asOf + TTL
      ensures r.Some? ==> Entry(cache[k].asOf, r.value) == cache[k]
    {
      if k in cache && now - cache[k].asOf < TTL { return Some(cache[k].active); }
      return None;
    }

    /** Drops what could not be read any more; no lookup notices. */
    method Sweep(now: Time)
      modifies this
      ensures cache == Unexpired(old(cache), now)
      ensures forall k, later :: later >= now ==> CachedActive(cache, k, later) == CachedActive(old(cache), k, later)
    {
      var left := cache.Keys;
      while left != {}
        invariant left <= cache.Keys <= old(cache.Keys)
        invariant forall k :: k in cache ==> cache[k] == old(cache)[k] && (k in left || now - cache[k].asOf < TTL)
        invariant forall k :: k in old(cache) && k !in cache ==> now - old(cache)[k].asOf >= TTL
        decreases left
      {
        var k :| k in left;
        left := left - {k};
        if now - cache[k].asOf >= TTL { cache := cache - {k}; }
      }
    }
  }

  // --- Requests in flight ---

  // An authentication that missed the cache: it has taken its stamp, or has asked
  // the database as well and is about to write the cache.
  datatype Reader = Stamped(k: Key, at: Time) | Asked(k: Key, at: Time, active: bool)

  // A revocation that has committed, or has taken its stamp as well and is about
  // to write the cache.
  datatype Revoker = Committed(k: Key) | Ready(k: Key, at: Time)

  // `committed[k]`: when the revocation of `k` was committed. `written[k]`: the
  // stamp of the first revocation of `k` to write the cache.
  datatype Server = Server(now: Time, cache: Cache, readers: seq<Reader>, revokers: seq<Revoker>, active: set<Key>,
                           committed: map<Key, Time>, written: map<Key, Time>)

  datatype Step =
    | Register(k: Key)
    | StartRead(k: Key)
    | AskDatabase(i: nat)
    | FinishRead(i: nat)
    | Commit(k: Key)
    | Stamp(i: nat)
    | FinishRevocation(i: nat)
    | Sweep

  ghost predicate Enabled(s: Server, at: Time, step: Step)
  {
    && at > s.now
    && match step
       case Register(k) => k !in s.committed
       case StartRead(k) => CachedActive(s.cache, k, at).None?
       case AskDatabase(i) => i < |s.readers| && s.readers[i].Stamped?
       case FinishRead(i) => i < |s.readers| && s.readers[i].Asked?
       case Commit(k) => true
       case Stamp(i) => i < |s.revokers| && s.revokers[i].Committed?
       case FinishRevocation(i) => i < |s.revokers| && s.revokers[i].Ready?
       case Sweep => true
  }

  function Removed<T>(list: seq<T>, i: nat): seq<T>
    requires i < |list|
  {
    list[..i] + list[i + 1..]
  }

  ghost function Next(s: Server, at: Time, step: Step): Server
    requires Enabled(s, at, step)
  {
    var t := s.(now := at);
    match step
    case Register(k) => t.(active := s.active + {k})
    case StartRead(k) => t.(readers := s.readers + [Stamped(k, at)])
    case AskDatabase(i) => t.(readers := s.readers[i := Asked(s.readers[i].k, s.readers[i].at,
      s.readers[i].k in s.active)])
    case FinishRead(i) =>
      var r := s.readers[i];
      t.(cache := WriteEntry(s.cache, r.k, Entry(r.at, r.active)), readers := Removed(s.readers, i))
    case Commit(k) =>
      t.(active := s.active - {k}, committed := if k in s.committed then s.committed
        else s.committed[k := at], revokers := s.revokers + [Committed(k)])
    case Stamp(i) => t.(revokers := s.revokers[i := Ready(s.revokers[i].k, at)])
    case FinishRevocation(i) =>
      var r := s.revokers[i];
      t.(cache := WriteEntry(s.cache, r.k, Entry(r.at, false)), revokers := Removed(s.revokers, i),
         written := if r.k in s.written then s.written else s.written[r.k := r.at])
    case Sweep => t.(cache := Unexpired(s.cache, at))
  }

  // --- What every step keeps ---

  /** Nobody who stamped after the commit found the key active. */
  ghost predicate Dated(s: Server, k: Key, asOf: Time, active: bool)
  {
    asOf <= s.now && (active && k in s.committed ==> asOf < s.committed[k])
  }

  ghost predicate ReaderOk(s: Server, r: Reader)
  {
    Dated(s, r.k, r.at, r.Asked? && r.active)
  }

  ghost predicate RevokerOk(s: Server, r: Revoker)
  {
    r.k in s.committed && (r.Ready? ==> s.committed[r.k] < r.at <= s.now)
  }

  /** Once written, the tombstone or something newer is in the cache, or it has
      been there long enough for anything older to have expired. */
  ghost predicate Tombstoned(s: Server, k: Key)
  {
    k in s.written ==>
      && k in s.committed && s.committed[k] < s.written[k] <= s.now
      && ((k in s.cache && s.cache[k].asOf >= s.written[k]) || s.now - s.written[k] >= TTL)
  }

  ghost predicate Inv(s: Server)
  {
    && (forall k :: k in s.committed ==> k !in s.active && s.committed[k] <= s.now)
    && (forall k :: k in s.cache ==> Dated(s, k, s.cache[k].asOf, s.cache[k].active))
    && (forall i :: 0 <= i < |s.readers| ==> ReaderOk(s, s.readers[i]))
    && (forall i :: 0 <= i < |s.revokers| ==> RevokerOk(s, s.revokers[i]))
    && (forall k :: Tombstoned(s, k))
  }

  ghost predicate Init(s: Server)
  {
    s.cache == map[] && s.readers == [] && s.revokers == [] && s.committed == map[] && s.written == map[]
  }

  lemma StepKeeps(s: Server, at: Time, step: Step)
    requires Inv(s) && Enabled(s, at, step)
    ensures Inv(Next(s, at, step))
  {
    var t := Next(s, at, step);
    forall k ensures Tombstoned(t, k) { TombstonedStep(s, at, step, k); }
    forall k | k in t.cache ensures Dated(t, k, t.cache[k].asOf, t.cache[k].active) { CacheStep(s, at, step, k); }
    forall i | 0 <= i < |t.readers| ensures ReaderOk(t, t.readers[i]) { ReaderStep(s, at, step, i); }
    forall i | 0 <= i < |t.revokers| ensures RevokerOk(t, t.revokers[i]) { RevokerStep(s, at, step, i); }
    hide Dated, ReaderOk, RevokerOk, Tombstoned, WriteEntry, Unexpired;
  }

  lemma DatedLater(s: Server, at: Time, step: Step, k: Key, asOf: Time, active: bool)
    requires Inv(s) && Enabled(s, at, step) && Dated(s, k, asOf, active)
    ensures Dated(Next(s, at, step), k, asOf, active)
  {
  }

  lemma CacheStep(s: Server, at: Time, step: Step, k: Key)
    requires Inv(s) && Enabled(s, at, step) && k in Next(s, at, step).cache
    ensures var t := Next(s, at, step); Dated(t, k, t.cache[k].asOf, t.cache[k].active)
  {
    if k in s.cache { DatedLater(s, at, step, k, s.cache[k].asOf, s.cache[k].active); }
    match step
    case FinishRead(i) =>
      assert ReaderOk(s, s.readers[i]);
      DatedLater(s, at, step, s.readers[i].k, s.readers[i].at, s.readers[i].active);
    case FinishRevocation(i) =>
      assert RevokerOk(s, s.revokers[i]);
    case _ =>
  }

  lemma ReaderStep(s: Server, at: Time, step: Step, i: nat)
    requires Inv(s) && Enabled(s, at, step) && i < |Next(s, at, step).readers|
    ensures ReaderOk(Next(s, at, step), Next(s, at, step).readers[i])
  {
    var r := Next(s, at, step).readers[i];
    var j := if step.FinishRead? && i >= step.i then i + 1 else i;
    if j < |s.readers| {
      assert ReaderOk(s, s.readers[j]);
      DatedLater(s, at, step, r.k, r.at, s.readers[j].Asked? && s.readers[j].active);
    }
  }

  lemma RevokerStep(s: Server, at: Time, step: Step, i: nat)
    requires Inv(s) && Enabled(s, at, step) && i < |Next(s, at, step).revokers|
    ensures RevokerOk(Next(s, at, step), Next(s, at, step).revokers[i])
  {
    var j := if step.FinishRevocation? && i >= step.i then i + 1 else i;
    if j < |s.revokers| { assert RevokerOk(s, s.revokers[j]); }
  }

  lemma TombstonedStep(s: Server, at: Time, step: Step, k: Key)
    requires Inv(s) && Enabled(s, at, step)
    ensures Tombstoned(Next(s, at, step), k)
  {
    assert Tombstoned(s, k);
    if step.FinishRevocation? { assert RevokerOk(s, s.revokers[step.i]); }
  }

  // --- Over whole runs ---

  ghost predicate Run(s: Server, steps: seq<(Time, Step)>, end: Server)
    decreases |steps|
  {
    if steps == [] then s == end
    else Enabled(s, steps[0].0, steps[0].1) && Run(Next(s, steps[0].0, steps[0].1), steps[1..], end)
  }

  lemma {:induction false} RunKeeps(s: Server, steps: seq<(Time, Step)>, end: Server)
    requires Inv(s) && Run(s, steps, end)
    ensures Inv(end)
    decreases |steps|
  {
    if steps != [] {
      StepKeeps(s, steps[0].0, steps[0].1);
      RunKeeps(Next(s, steps[0].0, steps[0].1), steps[1..], end);
    }
  }

  /** From the moment a revocation has written the cache, no lookup finds the key
      active: not while readers that asked before the revocation are still to
      write, and not after the tombstone has been swept either. */
  lemma RevokedStaysRevoked(start: Server, steps: seq<(Time, Step)>, s: Server, k: Key, at: Time)
    requires Init(start) && Run(start, steps, s) && k in s.written && at >= s.now
    ensures CachedActive(s.cache, k, at) != Some(true)
  {
    RunKeeps(start, steps, s);
    assert Tombstoned(s, k);
    if k in s.cache { assert Dated(s, k, s.cache[k].asOf, s.cache[k].active); }
  }

  /** And what a lookup does find is right, up to revocations still on their way:
      a key found active was active after the stamp. */
  lemma FoundActiveWasActive(start: Server, steps: seq<(Time, Step)>, s: Server, k: Key, at: Time)
    requires Init(start) && Run(start, steps, s) && at >= s.now && CachedActive(s.cache, k, at) == Some(true)
    ensures k in s.committed ==> s.cache[k].asOf < s.committed[k] && at - s.committed[k] < TTL
  {
    RunKeeps(start, steps, s);
    assert Dated(s, k, s.cache[k].asOf, s.cache[k].active);
  }
}
