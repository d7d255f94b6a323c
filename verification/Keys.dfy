// Position keys and the plain string order used to compare them.
module Keys {

  type Key = string

  /** Plain string comparison: a proper prefix is smaller, otherwise the first
      differing character decides. */
  predicate Less(a: Key, b: Key)
  {
    b != [] && (a == [] || a[0] < b[0] || (a[0] == b[0] && Less(a[1..], b[1..])))
  }

  predicate LessOrEqual(a: Key, b: Key)
  {
    a == b || Less(a, b)
  }

  lemma {:induction false} Irreflexive(a: Key)
    ensures !Less(a, a)
  {
    if a != [] { Irreflexive(a[1..]); }
  }

  lemma {:induction false} Transitive(a: Key, b: Key, c: Key)
    requires Less(a, b) && Less(b, c)
    ensures Less(a, c)
  {
    if a != [] && a[0] == b[0] == c[0] {
      Transitive(a[1..], b[1..], c[1..]);
    }
  }

  lemma {:induction false} Total(a: Key, b: Key)
    ensures a == b || Less(a, b) || Less(b, a)
  {
    if a != [] && b != [] && a[0] == b[0] {
      Total(a[1..], b[1..]);
      assert a == [a[0]] + a[1..] && b == [b[0]] + b[1..];
    }
  }

  lemma Asymmetric(a: Key, b: Key)
    requires Less(a, b)
    ensures !Less(b, a) && a != b
  {
    if Less(b, a) { Transitive(a, b, a); }
    Irreflexive(a);
  }

  /** A common prefix does not affect the comparison. */
  lemma {:induction false} SamePrefix(p: Key, a: Key, b: Key)
    ensures Less(p + a, p + b) <==> Less(a, b)
  {
    if p == [] {
      assert p + a == a && p + b == b;
    } else {
      assert (p + a)[1..] == p[1..] + a && (p + b)[1..] == p[1..] + b;
      SamePrefix(p[1..], a, b);
    }
  }

  /** Keys in strictly increasing order, as sibling positions should be. */
  ghost predicate Increasing(keys: seq<Key>)
  {
    forall i, j :: 0 <= i < j < |keys| ==> Less(keys[i], keys[j])
  }

  /** Increasing from each key to the next is enough. */
  lemma {:induction false} StepwiseIncreasing(keys: seq<Key>)
    requires forall i :: 0 < i < |keys| ==> Less(keys[i - 1], keys[i])
    ensures Increasing(keys)
  {
    if |keys| > 1 {
      var rest, last := keys[..|keys| - 1], keys[|keys| - 1];
      StepwiseIncreasing(rest);
      forall i | 0 <= i < |rest| ensures Less(keys[i], last) {
        if i < |rest| - 1 { Transitive(rest[i], rest[|rest| - 1], last); }
      }
    }
  }
}
