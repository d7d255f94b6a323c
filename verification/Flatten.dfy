// Sequences put together from short pieces, one per element of a list.
module Flatten {

  function Concat<T>(parts: seq<seq<T>>): seq<T>
  {
    if parts == [] then [] else Concat(parts[..|parts| - 1]) + parts[|parts| - 1]
  }

  lemma {:induction false} ConcatEmpty<T>(parts: seq<seq<T>>)
    ensures Concat(parts) == [] <==> forall i :: 0 <= i < |parts| ==> parts[i] == []
  {
    if parts != [] { ConcatEmpty(parts[..|parts| - 1]); }
  }

  /** Emptying the first non-empty piece takes off the front. */
  lemma {:induction false} ConcatStep<T>(parts: seq<seq<T>>, i: nat)
    requires i < |parts| && forall j :: 0 <= j < i ==> parts[j] == []
    ensures Concat(parts) == parts[i] + Concat(parts[i := []])
  {
    var rest, after := parts[..|parts| - 1], parts[i := []];
    if i < |rest| {
      ConcatStep(rest, i);
      assert after[..|after| - 1] == rest[i := []];
    } else {
      ConcatEmpty(rest);
      ConcatEmpty(after);
    }
  }

  /** The piece a concatenation of one-element pieces starts with. */
  lemma ConcatFirst<T>(parts: seq<seq<T>>) returns (i: nat)
    requires Concat(parts) != []
    requires forall j :: 0 <= j < |parts| ==> |parts[j]| <= 1
    ensures i < |parts| && parts[i] == [Concat(parts)[0]]
    ensures forall j :: 0 <= j < i ==> parts[j] == []
  {
    ConcatEmpty(parts);
    i := 0;
    while parts[i] == []
      invariant i < |parts| && forall j :: 0 <= j < i ==> parts[j] == []
      decreases |parts| - i
    {
      i := i + 1;
    }
    ConcatStep(parts, i);
  }
}
