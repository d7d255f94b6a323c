// Position keys for the children of one folder.
module Positions {
  import opened Wrappers
  import opened Keys
  import opened FractionalIndex

  /** A recorded position that can follow `prev`. */
  predicate Usable(own: Option<Key>, prev: Option<Key>)
  {
    own.Some? && own.value != [] && (prev.Some? ==> Less(prev.value, own.value))
  }

  /** The first position from `j` on that can still come after `prev`. */
  function NextUsable(own: seq<Option<Key>>, j: nat, prev: Option<Key>): (hi: Option<Key>)
    ensures hi.Some? ==> Usable(hi, prev) && exists k :: j <= k < |own| && own[k] == hi
    decreases |own| - j
  {
    if j >= |own| then None
    else if Usable(own[j], prev) then own[j]
    else NextUsable(own, j + 1, prev)
  }

  ghost function Before(positions: seq<Key>, i: nat): Option<Key>
    requires i <= |positions|
  {
    if i == 0 then None else Some(positions[i - 1])
  }

  /** The key for the `i`th sibling, `prev` being the one before it. */
  ghost predicate NormalAt(own: seq<Option<Key>>, i: nat, prev: Option<Key>, key: Key)
    requires i < |own|
  {
    if Usable(own[i], prev) then key == own[i].value
    else Fits(prev, NextUsable(own, i + 1, prev), key)
  }

  /** Positions that keep every recorded one that can be kept, and otherwise
      fill in keys between their neighbours. */
  ghost predicate Normalized(own: seq<Option<Key>>, positions: seq<Key>)
  {
    && |positions| <= |own|
    && forall i :: 0 <= i < |positions| ==> NormalHere(own, positions, i)
  }

  ghost predicate NormalHere(own: seq<Option<Key>>, positions: seq<Key>, i: nat)
    requires i < |positions| <= |own|
  {
    NormalAt(own, i, Before(positions, i), positions[i])
  }

  method FindNextUsable(own: seq<Option<Key>>, from: nat, prev: Option<Key>) returns (hi: Option<Key>)
    requires from <= |own|
    ensures hi == NextUsable(own, from, prev)
  {
    var j := from;
    while j < |own|
      invariant from <= j <= |own|
      invariant NextUsable(own, from, prev) == NextUsable(own, j, prev)
    {
      if Usable(own[j], prev) { return own[j]; }
      j := j + 1;
    }
    return None;
  }

  ghost predicate AllKeys(own: seq<Option<Key>>)
  {
    forall k :: 0 <= k < |own| && own[k].Some? ==> IsKey(own[k].value)
  }

  method NormalizePositions(own: seq<Option<Key>>) returns (r: Result<seq<Key>, KeyError>)
    ensures r.Success? ==> |r.value| == |own| && Normalized(own, r.value)
    ensures AllKeys(own) ==> r.Success?
  {
    var positions: seq<Key> := [];
    var prev: Option<Key> := None;
    for i := 0 to |own|
      invariant |positions| == i && prev == Before(positions, i)
      invariant Normalized(own, positions)
      invariant AllKeys(own) && prev.Some? ==> IsKey(prev.value)
    {
      if Usable(own[i], prev) {
        NormalizedExtend(own, positions, own[i].value);
        positions, prev := positions + [own[i].value], own[i];
        continue;
      }
      var hi := FindNextUsable(own, i + 1, prev);
      var key := KeyBetween(prev, hi);
      if key.Failure? {
        assert hi.Some? ==> Usable(hi, prev);
        assert key != Failure(NotOrdered);
        match key.error { case NotOrdered => case InvalidCharacter => }
        return Failure(key.error);
      }
      NormalizedExtend(own, positions, key.value);
      positions, prev := positions + [key.value], Some(key.value);
    }
    return Success(positions);
  }

  lemma NormalizedExtend(own: seq<Option<Key>>, positions: seq<Key>, key: Key)
    requires Normalized(own, positions) && |positions| < |own|
    requires NormalAt(own, |positions|, Before(positions, |positions|), key)
    ensures Normalized(own, positions + [key])
  {
    forall i | 0 <= i <= |positions| ensures NormalHere(own, positions + [key], i) {
      assert i < |positions| ==> NormalHere(own, positions, i);
      assert Before(positions + [key], i) == Before(positions, i);
    }
  }

  lemma NormalAtAbove(own: seq<Option<Key>>, i: nat, prev: Option<Key>, key: Key)
    requires i < |own| && NormalAt(own, i, prev, key)
    ensures key != [] && (prev.Some? ==> Less(prev.value, key))
  {
  }

  /** Whatever was recorded, the result is strictly increasing. */
  lemma NormalizedIncreases(own: seq<Option<Key>>, positions: seq<Key>)
    requires Normalized(own, positions)
    ensures Increasing(positions)
    ensures forall k :: k in positions ==> k != []
  {
    forall i | 0 <= i < |positions| ensures positions[i] != [] && (i > 0 ==> Less(positions[i - 1], positions[i])) {
      assert NormalHere(own, positions, i);
      NormalAtAbove(own, i, Before(positions, i), positions[i]);
    }
    StepwiseIncreasing(positions);
  }

  ghost predicate AlreadyIncreasing(own: seq<Option<Key>>)
  {
    && (forall i :: 0 <= i < |own| ==> own[i].Some? && own[i].value != [])
    && (forall i, j :: 0 <= i < j < |own| ==> Less(own[i].value, own[j].value))
  }

  /** Positions that already increase are kept as they are. */
  lemma {:induction false} NormalizedKeeps(own: seq<Option<Key>>, positions: seq<Key>, i: nat)
    requires Normalized(own, positions) && AlreadyIncreasing(own)
    requires i < |positions|
    ensures Some(positions[i]) == own[i]
    decreases i
  {
    var prev, key := Before(positions, i), positions[i];
    assert NormalHere(own, positions, i);
    if i > 0 { NormalizedKeeps(own, positions, i - 1); }
    assert Usable(own[i], prev) by {
      if i > 0 { assert prev == own[i - 1] && Less(own[i - 1].value, own[i].value); }
    }
    KeptAt(own, i, prev, key);
  }

  lemma KeptAt(own: seq<Option<Key>>, i: nat, prev: Option<Key>, key: Key)
    requires i < |own| && NormalAt(own, i, prev, key) && Usable(own[i], prev)
    ensures Some(key) == own[i]
  {
  }

  // --- First import of a folder ---

  // A child of a folder being imported: new to the account, or already known,
  // then with the position recorded for it, if any.
  datatype Child = New | Known(position: Option<Key>)
  {
    function Existing(): Option<Key> { if Known? then position else None }
  }

  /** Positions in sibling order, where there are any. */
  ghost predicate InOrder(positions: seq<Option<Key>>)
  {
    forall i, j :: 0 <= i < j < |positions| && positions[i].Some? && positions[j].Some? ==>
      Less(positions[i].value, positions[j].value)
  }

  function NextExisting(children: seq<Child>, i: nat): (hi: Option<Key>)
    ensures hi.Some? ==> exists j :: i <= j < |children| && children[j].Existing() == hi
    decreases |children| - i
  {
    if i >= |children| then None
    else if children[i].Existing().Some? then children[i].Existing()
    else NextExisting(children, i + 1)
  }

  ghost function ExistingPositions(children: seq<Child>): seq<Option<Key>>
  {
    seq(|children|, i requires 0 <= i < |children| => children[i].Existing())
  }

  /** Recorded positions a key can always be fitted below. */
  ghost predicate Separable(children: seq<Child>)
  {
    && InOrder(ExistingPositions(children))
    && forall i :: 0 <= i < |children| && children[i].Existing().Some? ==>
         var k := children[i].Existing().value; IsKey(k) && k != [] && k[|k| - 1] != '0'
  }

  method NextExistingOf(children: seq<Child>) returns (next: seq<Option<Key>>)
    ensures |next| == |children| && forall i :: 0 <= i < |children| ==> next[i] == NextExisting(children, i + 1)
  {
    next := seq(|children|, _ => None);
    var i := |children| - 2;
    while i >= 0
      invariant -2 <= i < |children| && (children == [] || i >= -1) && |next| == |children|
      invariant forall k :: i < k < |children| && 0 <= k ==> next[k] == NextExisting(children, k + 1)
    {
      next := next[i := if children[i + 1].Existing().Some? then children[i + 1].Existing() else next[i + 1]];
      i := i - 1;
    }
  }

  lemma UsableBoundIsNotCrowded(lo: Key, hi: Key)
    requires Less(lo, hi) || lo == []
    requires hi != [] && hi[|hi| - 1] != '0'
    ensures !Crowded(lo, hi)
  {
    Irreflexive(lo);
  }

  /** `lo` is the last position placed; what follows is placed above it. */
  ghost predicate Placed(positions: seq<Option<Key>>, lo: Option<Key>)
  {
    && InOrder(positions)
    && forall i :: 0 <= i < |positions| && positions[i].Some? ==> lo.Some? && LessOrEqual(positions[i].value, lo.value)
  }

  lemma PlaceNext(positions: seq<Option<Key>>, lo: Option<Key>, k: Key)
    requires Placed(positions, lo) && (lo.Some? ==> Less(lo.value, k))
    ensures Placed(positions + [Some(k)], Some(k))
  {
    forall i | 0 <= i < |positions| && positions[i].Some? ensures Less(positions[i].value, k) {
      if positions[i].value != lo.value { Transitive(positions[i].value, lo.value, k); }
    }
  }

  /** Imports a folder's children: each new one gets a position after its
      nearest preceding sibling and, if that can be, below the next recorded
      one. A folder whose recorded positions were in order stays in order. */
  method BackfillFolder(children: seq<Child>) returns (r: Result<seq<Option<Key>>, KeyError>)
    ensures Separable(children) ==> r.Success?
    ensures r.Success? ==> |r.value| == |children| && forall i :: 0 <= i < |children| ==>
              if children[i].New? then r.value[i].Some? else r.value[i] == children[i].position
    ensures r.Success? && Separable(children) ==> InOrder(r.value)
  {
    var next := NextExistingOf(children);
    var runningLo: Option<Key> := None;
    var positions: seq<Option<Key>> := [];
    for i := 0 to |children|
      invariant |positions| == i
      invariant forall k :: 0 <= k < i ==>
        if children[k].New? then positions[k].Some? else positions[k] == children[k].position
      invariant Separable(children) ==> Placed(positions, runningLo)
      invariant Separable(children) && runningLo.Some? ==> IsKey(runningLo.value)
      invariant Separable(children) && runningLo.Some? && NextExisting(children, i).Some? ==>
        Less(runningLo.value, NextExisting(children, i).value)
    {
      match children[i]
      case Known(position) =>
        if position.Some? {
          if Separable(children) {
            PlaceNext(positions, runningLo, position.value);
            NextAbove(children, i);
          }
          runningLo := position;
        }
        positions := positions + [position];
      case New =>
        var hi := next[i];
        var bound := if hi.Some? && (runningLo.None? || Less(runningLo.value, hi.value)) then hi else None;
        var key := KeyBetween(runningLo, bound);
        if key.Failure? {
          if Separable(children) { FillsTheGap(children, i, runningLo, hi); }
          assert key != Failure(NotOrdered);
          match key.error { case NotOrdered => case InvalidCharacter => }
          return Failure(key.error);
        }
        if Separable(children) {
          FillsTheGap(children, i, runningLo, hi);
          PlaceNext(positions, runningLo, key.value);
        }
        runningLo := Some(key.value);
        positions := positions + [Some(key.value)];
    }
    return Success(positions);
  }

  lemma NextAbove(children: seq<Child>, i: nat)
    requires Separable(children) && i < |children| && children[i].Existing().Some?
    ensures NextExisting(children, i + 1).Some? ==>
      Less(children[i].Existing().value, NextExisting(children, i + 1).value)
  {
    var hi := NextExisting(children, i + 1);
    if hi.Some? {
      var j :| i + 1 <= j < |children| && children[j].Existing() == hi;
      assert ExistingPositions(children)[i] == children[i].Existing() && ExistingPositions(children)[j] == hi;
    }
  }

  lemma FillsTheGap(children: seq<Child>, i: nat, lo: Option<Key>, hi: Option<Key>)
    requires Separable(children) && i < |children| && children[i].New? && hi == NextExisting(children, i + 1)
    requires lo.Some? ==> IsKey(lo.value)
    requires lo.Some? && hi.Some? ==> Less(lo.value, hi.value)
    ensures IsKey(Floor(lo)) && IsKey(Floor(hi))
    ensures hi == NextExisting(children, i)
    ensures hi.Some? ==> !Crowded(Floor(lo), hi.value)
  {
    if hi.Some? {
      var j :| i + 1 <= j < |children| && children[j].Existing() == hi;
      UsableBoundIsNotCrowded(Floor(lo), hi.value);
    }
  }
}
