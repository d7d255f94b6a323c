// Fractional indexing for sibling order: a key strictly between two others.
module FractionalIndex {
  import opened Wrappers
  import opened Keys

  const BASE := 62
  const START := 'V'

  datatype KeyError = NotOrdered | InvalidCharacter

  predicate IsDigit(c: char)
  {
    '0' <= c <= '9' || 'A' <= c <= 'Z' || 'a' <= c <= 'z'
  }

  /** The place of a digit in "0-9A-Za-z". */
  function DigitIndex(c: char): (v: nat)
    requires IsDigit(c)
    ensures v < BASE
  {
    if c <= '9' then c as int - '0' as int
    else if c <= 'Z' then 10 + (c as int - 'A' as int)
    else 36 + (c as int - 'a' as int)
  }

  function Digit(v: nat): (c: char)
    requires v < BASE
    ensures IsDigit(c) && DigitIndex(c) == v
  {
    if v < 10 then ('0' as int + v) as char
    else if v < 36 then ('A' as int + (v - 10)) as char
    else ('a' as int + (v - 36)) as char
  }

  /** The alphabet is in code order, so comparing digit places agrees with
      comparing characters. */
  lemma DigitOrder(c: char, d: char)
    requires IsDigit(c) && IsDigit(d)
    ensures DigitIndex(c) < DigitIndex(d) <==> c < d
    ensures DigitIndex(c) == DigitIndex(d) <==> c == d
  {
  }

  predicate IsKey(k: Key)
  {
    forall i :: 0 <= i < |k| ==> IsDigit(k[i])
  }

  function Zeros(n: nat): (z: Key)
    ensures |z| == n && forall i :: 0 <= i < n ==> z[i] == '0'
  {
    seq(n, _ => '0')
  }

  /** `hi` is `lo` followed by zeros only. */
  predicate Crowded(lo: Key, hi: Key)
  {
    lo <= hi && hi[|lo|..] == Zeros(|hi| - |lo|)
  }

  /** A missing lower bound behaves like the empty key, which is below every
      other one. */
  function Floor(lo: Option<Key>): Key
  {
    if lo.Some? then lo.value else []
  }

  lemma ExtensionAbove(a: Key, s: Key)
    requires s != []
    ensures Less(a, a + s)
  {
    SamePrefix(a, [], s);
    assert a + [] == a;
  }

  lemma DecidedAt(p: Key, c: char, s: Key, d: char, t: Key)
    requires c < d
    ensures Less(p + [c] + s, p + [d] + t)
  {
    assert p + [c] + s == p + ([c] + s) && p + [d] + t == p + ([d] + t);
    SamePrefix(p, [c] + s, [d] + t);
  }

  lemma NextDigits(lo: Key, hi: Key, i: nat)
    requires Less(lo, hi) && i <= |lo| && i <= |hi| && lo[..i] == hi[..i]
    ensures i < |hi|
    ensures i < |lo| ==> lo[i] <= hi[i]
  {
    assert lo == lo[..i] + lo[i..] && hi == lo[..i] + hi[i..];
    SamePrefix(lo[..i], lo[i..], hi[i..]);
  }

  lemma CrowdedAt(lo: Key, hi: Key, i: nat)
    requires Crowded(lo, hi) && i < |hi|
    ensures hi[i] == if i < |lo| then lo[i] else '0'
  {
    if i >= |lo| { assert hi[i] == hi[|lo|..][i - |lo|]; }
  }

  function LongerBound(lo: Key, hi: Key): nat
  {
    if |lo| >= |hi| then |lo| else |hi|
  }

  /** What a new key between two bounds has to be. */
  ghost predicate Fits(lo: Option<Key>, hi: Option<Key>, k: Key)
  {
    && (lo.Some? ==> Less(lo.value, k))
    && (hi.Some? ==> (Less(k, hi.value) <==> !Crowded(Floor(lo), hi.value)))
    && (hi.Some? && Crowded(Floor(lo), hi.value) ==> k == hi.value + [START])
    && IsKey(k) && k != [] && k[|k| - 1] != '0'
    && |k| <= LongerBound(Floor(lo), Floor(hi)) + 1
  }

  /** What the loop knows. `base` holds the digits already fixed and dropped
      from `lo`; the last `i` digits of `prefix` follow `lo`, with zeros once
      `lo` has ended. */
  ghost predicate Progress(lo0: Key, hi0: Option<Key>, base: Key, lo: Key, hi: Option<Key>, prefix: Key, i: nat)
  {
    && lo0 == base + lo
    && prefix == base + (if i <= |lo| then lo[..i] else lo + Zeros(i - |lo|))
    && (hi.None? ==> i <= |lo|)
    && (hi.Some? ==> base == [] && hi == hi0 && prefix <= hi.value)
    && (hi.None? && hi0.Some? ==> (forall s :: Less(base + s, hi0.value)) && !Crowded(lo0, hi0.value))
  }

  lemma AboveLo(lo0: Key, hi0: Option<Key>, base: Key, lo: Key, hi: Option<Key>, prefix: Key, i: nat, d: char, t: Key)
    requires Progress(lo0, hi0, base, lo, hi, prefix, i)
    requires i < |lo| ==> lo[i] < d
    ensures Less(lo0, prefix + [d] + t) && |prefix| == |base| + i
  {
    hide Less, Crowded;
    if i < |lo| {
      assert lo == lo[..i] + [lo[i]] + lo[i + 1..];
      assert lo0 == prefix + [lo[i]] + lo[i + 1..];
      DecidedAt(prefix, lo[i], lo[i + 1..], d, t);
    } else {
      var z := Zeros(i - |lo|);
      assert prefix + [d] + t == lo0 + (z + [d] + t);
      ExtensionAbove(lo0, z + [d] + t);
    }
  }

  lemma BelowHi(lo0: Key, hi0: Option<Key>, base: Key, lo: Key, hi: Option<Key>, prefix: Key, i: nat, d: char, t: Key)
    requires Progress(lo0, hi0, base, lo, hi, prefix, i) && hi0.Some?
    requires hi.Some? ==> i < |hi.value| && d < hi.value[i]
    requires hi.Some? ==> hi.value[i] != if i < |lo| then lo[i] else '0'
    ensures Less(prefix + [d] + t, hi0.value) && !Crowded(lo0, hi0.value)
  {
    hide Less, Crowded;
    if hi.Some? {
      var h := hi.value;
      assert h == prefix + [h[i]] + h[i + 1..];
      DecidedAt(prefix, d, t, h[i], h[i + 1..]);
      if Crowded(lo0, h) { CrowdedAt(lo0, h, i); }
    } else {
      assert prefix + [d] + t == base + (lo[..i] + [d] + t);
    }
  }

  /** A key that continues `prefix` with digit `d`, once `lo` has ended or has a
      smaller digit there and `hi` has a larger one, is strictly between. */
  lemma Between(lo0: Option<Key>, hi0: Option<Key>, base: Key, lo: Key, hi: Option<Key>, prefix: Key, i: nat, d: char,
      t: Key)
    requires Progress(Floor(lo0), hi0, base, lo, hi, prefix, i)
    requires IsKey(prefix + [d] + t) && (prefix + [d] + t)[|prefix| + |t|] != '0'
    requires |t| <= if hi.Some? then 1 else 0
    requires i < |lo| ==> lo[i] < d
    requires hi.Some? ==> i < |hi.value| && d < hi.value[i]
    requires hi.Some? ==> hi.value[i] != if i < |lo| then lo[i] else '0'
    ensures Fits(lo0, hi0, prefix + [d] + t)
  {
    hide Less, Crowded;
    AboveLo(Floor(lo0), hi0, base, lo, hi, prefix, i, d, t);
    if hi0.Some? { BelowHi(Floor(lo0), hi0, base, lo, hi, prefix, i, d, t); }
  }

  lemma EndedTogether(lo0: Key, hi0: Option<Key>, base: Key, lo: Key, hi: Option<Key>, prefix: Key, i: nat)
    requires Progress(lo0, hi0, base, lo, hi, prefix, i)
    requires i >= |lo| && hi.Some? && i >= |hi.value|
    ensures hi0 == Some(prefix) && prefix == lo0 + Zeros(i - |lo|) && Crowded(lo0, prefix)
  {
    var z := Zeros(i - |lo|);
    assert prefix == hi.value == lo0 + z;
    assert prefix[|lo0|..] == z;
  }

  /** Fixing `lo`'s digit where the two bounds are adjacent leaves everything
      that follows below `hi`. */
  lemma Unbounded(lo0: Key, hi0: Option<Key>, base: Key, lo: Key, hi: Option<Key>, prefix: Key, i: nat)
    requires Progress(lo0, hi0, base, lo, hi, prefix, i)
    requires i < |lo| && (hi.Some? ==> i < |hi.value| && lo[i] < hi.value[i])
    ensures Progress(lo0, hi0, prefix + [lo[i]], lo[i + 1..], None, prefix + [lo[i]], 0)
  {
    var q := prefix + [lo[i]];
    assert lo == lo[..i] + [lo[i]] + lo[i + 1..];
    assert q + lo[i + 1..] == lo0;
    assert q == q + lo[i + 1..][..0];
    if hi0.Some? {
      forall s ensures Less(q + s, hi0.value) {
        if hi.Some? {
          var h := hi.value;
          assert h == prefix + [h[i]] + h[i + 1..];
          DecidedAt(prefix, lo[i], s, h[i], h[i + 1..]);
        } else {
          assert q + s == base + (lo[..i] + [lo[i]] + s);
        }
      }
      if hi.Some? && Crowded(lo0, hi0.value) { CrowdedAt(lo0, hi0.value, i); }
    }
  }

  /** One more digit of `lo` (or a zero past its end) that `hi` shares. */
  lemma Deeper(lo0: Key, hi0: Option<Key>, base: Key, lo: Key, hi: Option<Key>, prefix: Key, i: nat, d: char)
    requires Progress(lo0, hi0, base, lo, hi, prefix, i)
    requires hi.Some? && i < |hi.value| && hi.value[i] == d
    requires d == if i < |lo| then lo[i] else '0'
    ensures Progress(lo0, hi0, base, lo, hi, prefix + [d], i + 1)
  {
    if i < |lo| {
      assert lo[..i + 1] == lo[..i] + [d];
    } else {
      assert Zeros(i + 1 - |lo|) == Zeros(i - |lo|) + ['0'];
      assert lo[..|lo|] == lo;
    }
    assert prefix + [d] == hi.value[..i + 1];
  }

  /** The digit of a bound at `i`, -1 once the bound has ended. */
  function LoDigit(lo: Option<Key>, i: nat): int
    requires lo.Some? && i < |lo.value| ==> IsDigit(lo.value[i])
  {
    if lo.Some? && i < |lo.value| then DigitIndex(lo.value[i]) else -1
  }

  function HiDigit(hi: Option<Key>, i: nat): int
    requires hi.Some? && i < |hi.value| ==> IsDigit(hi.value[i])
  {
    if hi.Some? && i < |hi.value| then DigitIndex(hi.value[i]) else if hi.None? then BASE else -1
  }

  ghost predicate Readable(k: Option<Key>, i: nat)
  {
    k.Some? && i < |k.value| ==> IsDigit(k.value[i])
  }

  /** The loop's invariant. */
  ghost predicate Going(lo0: Option<Key>, hi0: Option<Key>, base: Key, lo: Option<Key>, hi: Option<Key>, prefix: Key,
      i: nat)
  {
    (lo.Some? ==> lo0.Some?) && Progress(Floor(lo0), hi0, base, Floor(lo), hi, prefix, i) && IsKey(prefix)
  }

  /** `Between`, in terms of digit places. */
  lemma Chosen(lo0: Option<Key>, hi0: Option<Key>, base: Key, lo: Option<Key>, hi: Option<Key>, prefix: Key, i: nat,
      v: nat, t: Key)
    requires Going(lo0, hi0, base, lo, hi, prefix, i) && Readable(lo, i) && Readable(hi, i)
    requires LoDigit(lo, i) < v < HiDigit(hi, i) && (v > 0 || LoDigit(lo, i) == -1)
    requires (t == [] && v > 0) || (t == [START] && HiDigit(hi, i) == 1)
    requires v < BASE
    ensures Fits(lo0, hi0, prefix + [Digit(v)] + t)
  {
    var d := Digit(v);
    hide Progress;
    if lo.Some? && i < |lo.value| { DigitOrder(lo.value[i], d); }
    if hi.Some? && i < |hi.value| {
      DigitOrder(d, hi.value[i]);
      DigitOrder('0', hi.value[i]);
      if lo.Some? && i < |lo.value| { DigitOrder(lo.value[i], hi.value[i]); }
    }
    DigitOrder('0', d);
    Between(lo0, hi0, base, Floor(lo), hi, prefix, i, d, t);
  }

  lemma ChosenDigit(lo0: Option<Key>, hi0: Option<Key>, base: Key, lo: Option<Key>, hi: Option<Key>, prefix: Key,
      i: nat, v: nat)
    requires Going(lo0, hi0, base, lo, hi, prefix, i) && Readable(lo, i) && Readable(hi, i)
    requires LoDigit(lo, i) < v < HiDigit(hi, i) && 0 < v < BASE
    ensures Fits(lo0, hi0, prefix + [Digit(v)])
  {
    Chosen(lo0, hi0, base, lo, hi, prefix, i, v, []);
    assert prefix + [Digit(v)] + [] == prefix + [Digit(v)];
  }

  /** Where both bounds have a digit, `hi`'s is not smaller, nor can `hi` have
      ended before `lo`. */
  lemma HiAtLeastLo(lo0: Option<Key>, hi0: Option<Key>, base: Key, lo: Option<Key>, hi: Option<Key>, prefix: Key,
      i: nat)
    requires Going(lo0, hi0, base, lo, hi, prefix, i) && Readable(lo, i) && Readable(hi, i)
    requires lo0.Some? && hi0.Some? ==> Less(lo0.value, hi0.value)
    requires lo.Some? && i < |lo.value|
    ensures LoDigit(lo, i) <= HiDigit(hi, i)
  {
    if hi.Some? {
      assert lo0.value == lo.value && prefix == lo.value[..i] == hi.value[..i];
      NextDigits(lo.value, hi.value, i);
      DigitOrder(lo.value[i], hi.value[i]);
    }
  }

  lemma Adjacent(lo0: Option<Key>, hi0: Option<Key>, base: Key, lo: Option<Key>, hi: Option<Key>, prefix: Key, i: nat)
    requires Going(lo0, hi0, base, lo, hi, prefix, i) && Readable(lo, i) && Readable(hi, i)
    requires 0 <= LoDigit(lo, i) < HiDigit(hi, i)
    ensures Going(lo0, hi0, prefix + [lo.value[i]], Some(lo.value[i + 1..]), None, prefix + [lo.value[i]], 0)
  {
    if hi.Some? { DigitOrder(lo.value[i], hi.value[i]); }
    Unbounded(Floor(lo0), hi0, base, Floor(lo), hi, prefix, i);
  }

  lemma Shared(lo0: Option<Key>, hi0: Option<Key>, base: Key, lo: Option<Key>, hi: Option<Key>, prefix: Key, i: nat,
      d: char)
    requires Going(lo0, hi0, base, lo, hi, prefix, i) && Readable(lo, i) && Readable(hi, i)
    requires hi.Some? && IsDigit(d) && DigitIndex(d) == HiDigit(hi, i)
    requires LoDigit(lo, i) == DigitIndex(d) || (LoDigit(lo, i) == -1 && d == '0')
    ensures Going(lo0, hi0, base, lo, hi, prefix + [d], i + 1)
  {
    DigitOrder(d, hi.value[i]);
    if i < |Floor(lo)| { DigitOrder(lo.value[i], d); }
    Deeper(Floor(lo0), hi0, base, Floor(lo), hi, prefix, i, d);
  }

  lemma ReadsTheBounds(lo0: Option<Key>, hi0: Option<Key>, base: Key, lo: Option<Key>, hi: Option<Key>, prefix: Key,
      i: nat)
    requires Going(lo0, hi0, base, lo, hi, prefix, i)
    requires !Readable(lo, i) || !Readable(hi, i)
    ensures !IsKey(Floor(lo0)) || !IsKey(Floor(hi0))
  {
    if !Readable(lo, i) { assert Floor(lo0)[|base| + i] == lo.value[i]; }
  }

  /** The bounds ran out together: `hi` was `lo` followed by zeros, and the key
      chosen is above both. */
  lemma BothEnded(lo0: Option<Key>, hi0: Option<Key>, base: Key, lo: Option<Key>, hi: Option<Key>, prefix: Key, i: nat)
    requires Going(lo0, hi0, base, lo, hi, prefix, i)
    requires i >= |Floor(lo)| && hi.Some? && i >= |hi.value|
    ensures Fits(lo0, hi0, prefix + [START])
  {
    EndedTogether(Floor(lo0), hi0, base, Floor(lo), hi, prefix, i);
    var floor, z := Floor(lo0), Zeros(i - |Floor(lo)|);
    hide Progress, Crowded, Less, Zeros;
    ExtensionAbove(prefix, [START]);
    Asymmetric(prefix, prefix + [START]);
    assert prefix + [START] == floor + (z + [START]);
    ExtensionAbove(floor, z + [START]);
  }

  lemma DigitsAre(lo: Option<Key>, hi: Option<Key>, i: nat)
    requires Readable(lo, i) && Readable(hi, i)
    ensures -1 <= LoDigit(lo, i) < BASE && -1 <= HiDigit(hi, i) <= BASE
    ensures LoDigit(lo, i) >= 0 ==>
      lo.Some? && i < |lo.value| && IsDigit(lo.value[i]) && DigitIndex(lo.value[i]) == LoDigit(lo, i)
    ensures LoDigit(lo, i) == -1 <==> i >= |Floor(lo)|
    ensures HiDigit(hi, i) == BASE <==> hi.None?
    ensures HiDigit(hi, i) == -1 <==> hi.Some? && i >= |hi.value|
  {
  }

  /** A key strictly between `lo0` and `hi0` (a missing bound is open), never
      ending in the smallest digit, so it can be a bound again. It stays below
      `hi0` unless `hi0` is `lo0` followed by zeros. */
  method KeyBetween(lo0: Option<Key>, hi0: Option<Key>) returns (r: Result<Key, KeyError>)
    ensures r == Failure(NotOrdered) <==> lo0.Some? && hi0.Some? && !Less(lo0.value, hi0.value)
    ensures r == Failure(InvalidCharacter) ==> !IsKey(Floor(lo0)) || !IsKey(Floor(hi0))
    ensures r.Success? ==> Fits(lo0, hi0, r.value)
  {
    if lo0.None? && hi0.None? { return Success([START]); }
    if lo0.Some? && hi0.Some? && !Less(lo0.value, hi0.value) { return Failure(NotOrdered); }

    var lo, hi := lo0, hi0;
    var prefix: Key, i := [], 0;
    ghost var base: Key := [];
    assert Going(lo0, hi0, base, lo, hi, prefix, i);
    hide Going, Progress, Fits, Less, Digit, DigitIndex, LoDigit, HiDigit, IsKey, IsDigit, Crowded, Zeros, LongerBound;
    while true
      invariant Going(lo0, hi0, base, lo, hi, prefix, i)
      decreases if hi.Some? then 1 else 0, if hi.Some? then |hi.value| - i else |Floor(lo)| - i
    {
      if !(lo.Some? && i < |lo.value| ==> IsDigit(lo.value[i]))
        || !(hi.Some? && i < |hi.value| ==> IsDigit(hi.value[i])) {
        ReadsTheBounds(lo0, hi0, base, lo, hi, prefix, i);
        return Failure(InvalidCharacter);
      }
      var loDigit, hiDigit := LoDigit(lo, i), HiDigit(hi, i);
      DigitsAre(lo, hi, i);

      if loDigit == -1 && hiDigit == -1 {
        BothEnded(lo0, hi0, base, lo, hi, prefix, i);
        return Success(prefix + [START]);
      }

      if loDigit == -1 {
        if hiDigit > 1 {
          ChosenDigit(lo0, hi0, base, lo, hi, prefix, i, hiDigit / 2);
          return Success(prefix + [Digit(hiDigit / 2)]);
        }
        if hiDigit == 1 {
          Chosen(lo0, hi0, base, lo, hi, prefix, i, 0, [START]);
          return Success(prefix + [Digit(0)] + [START]);
        }
        Shared(lo0, hi0, base, lo, hi, prefix, i, Digit(0));
        prefix, i := prefix + [Digit(0)], i + 1;
        continue;
      }

      HiAtLeastLo(lo0, hi0, base, lo, hi, prefix, i);
      if hiDigit - loDigit > 1 {
        var mid := loDigit + (hiDigit - loDigit) / 2;
        ChosenDigit(lo0, hi0, base, lo, hi, prefix, i, mid);
        return Success(prefix + [Digit(mid)]);
      }

      if hiDigit - loDigit == 1 {
        Adjacent(lo0, hi0, base, lo, hi, prefix, i);
        prefix := prefix + [lo.value[i]];
        base := prefix;
        lo := Some(lo.value[i + 1..]);
        hi := None;
        i := 0;
        continue;
      }

      Shared(lo0, hi0, base, lo, hi, prefix, i, lo.value[i]);
      prefix, i := prefix + [lo.value[i]], i + 1;
    }
  }

  /** The bounds `KeyBetween` cannot separate hold no usable key at all: every
      key between them ends in the smallest digit. */
  lemma {:induction false} CrowdedHoldsNoUsableKey(lo: Key, hi: Key, k: Key)
    requires Crowded(lo, hi) && IsKey(k) && Less(lo, k) && Less(k, hi)
    ensures k[|k| - 1] == '0'
    decreases |k|
  {
    CrowdedAt(lo, hi, 0);
    if lo == [] {
      assert IsDigit(k[0]) && k[0] <= '0';
      if |k| > 1 {
        assert hi[1..][|lo|..] == Zeros(|hi| - 1);
        ExtensionAbove([], k[1..]);
        assert [] + k[1..] == k[1..];
        CrowdedHoldsNoUsableKey([], hi[1..], k[1..]);
      }
    } else {
      assert lo[0] == k[0] == hi[0];
      assert hi[1..][|lo| - 1..] == hi[|lo|..];
      CrowdedHoldsNoUsableKey(lo[1..], hi[1..], k[1..]);
    }
  }

  /** `KeyBetween` stays below its upper bound whenever any usable key does. */
  lemma BelowWheneverPossible(lo: Option<Key>, hi: Key, k: Key, other: Key)
    requires Fits(lo, Some(hi), k)
    requires IsKey(other) && other != [] && other[|other| - 1] != '0'
    requires lo.Some? ==> Less(lo.value, other)
    requires Less(other, hi)
    ensures Less(k, hi)
  {
    if Crowded(Floor(lo), hi) {
      if lo.None? { ExtensionAbove([], other); assert [] + other == other; }
      CrowdedHoldsNoUsableKey(Floor(lo), hi, other);
    }
  }

  /** The bounds "a" and "a0" are in order, and the key for them is above both. */
  method BetweenCrowdedBounds() returns (k: Key)
    ensures k == "a0V" && Less("a", "a0") && Less("a0", k)
  {
    assert "a0"[|"a"|..] == Zeros(1) && Crowded("a", "a0");
    assert "a" + "0" == "a0" && "a0" + "V" == "a0V";
    ExtensionAbove("a", "0");
    ExtensionAbove("a0", "V");
    var r := KeyBetween(Some("a"), Some("a0"));
    assert IsKey("a") && IsKey("a0");
    match r {
      case Success(v) => k := v;
      case Failure(error) => match error { case NotOrdered => case InvalidCharacter => }
    }
  }
}
