/** Scroll-triggered fade-in. Each target block has an "is-visible" mark (the CSS class);
    the observer watches a set of targets and, when one is reported as intersecting,
    marks it and stops watching it. Targets are numbered 0 .. n-1 in document order;
    whether an entry intersects is an input, the viewport geometry behind it is not
    modelled. */
module Reveal {

  /** One intersection report: which target, and whether it is in view. */
  datatype Entry = Entry(target: nat, isIntersecting: bool)

  /** The targets a batch of reports reveals: those reported at least once as intersecting. */
  function Revealing(entries: seq<Entry>): (r: set<nat>)
    ensures forall t :: t in r <==>
      exists k :: 0 <= k < |entries| && entries[k].target == t && entries[k].isIntersecting
    decreases |entries|
  {
    if entries == [] then {}
    else
      var last := entries[|entries| - 1];
      var before := Revealing(entries[..|entries| - 1]);
      if last.isIntersecting then before + {last.target} else before
  }

  class RevealObserver {
    /** revealed[t] is true when target t carries the "is-visible" class. */
    const revealed: array<bool>
    /** Targets the observer still watches. */
    var observed: set<nat>

    /** Only page targets are watched, and a target is revealed exactly when it is no
        longer watched. */
    ghost predicate Valid()
      reads this, revealed
    {
      (forall t :: t in observed ==> t < revealed.Length) &&
      (forall t :: 0 <= t < revealed.Length ==> (revealed[t] <==> t !in observed))
    }

    /** Set-up of the n targets: with the observer available (and at least one target)
        every target is watched and none is marked; otherwise every target is marked at
        once and nothing is watched. */
    constructor (n: nat, observerAvailable: bool)
      ensures Valid() && fresh(revealed) && revealed.Length == n
      ensures observerAvailable && n > 0 ==>
        (forall t: nat :: t in observed <==> t < n) && forall t :: 0 <= t < n ==> !revealed[t]
      ensures !(observerAvailable && n > 0) ==>
        observed == {} && forall t :: 0 <= t < n ==> revealed[t]
    {
      revealed := new bool[n](_ => false);
      observed := {};
      new;
      var i := 0;
      if observerAvailable && n > 0 {
        while i < n
          invariant 0 <= i <= n
          invariant forall t: nat :: t in observed <==> t < i
          invariant revealed.Length == n && forall t :: 0 <= t < n ==> !revealed[t]
        {
          observed := observed + {i};
          i := i + 1;
        }
      } else {
        while i < n
          invariant 0 <= i <= n
          invariant observed == {}
          invariant revealed.Length == n && forall t :: 0 <= t < n ==> revealed[t] == (t < i)
          modifies revealed
        {
          revealed[i] := true;
          i := i + 1;
        }
      }
    }

    /** The observer callback for one batch of reports, handled in order. */
    method OnIntersection(entries: seq<Entry>)
      requires Valid()
      requires forall k :: 0 <= k < |entries| ==> entries[k].target < revealed.Length
      modifies this, revealed
      ensures Valid()
      ensures forall t :: 0 <= t < revealed.Length ==>
        revealed[t] == (old(revealed[t]) || t in Revealing(entries))
      ensures observed == old(observed) - Revealing(entries)
      ensures forall t :: 0 <= t < revealed.Length && old(revealed[t]) ==> revealed[t]
    {
      var i := 0;
      while i < |entries|
        invariant 0 <= i <= |entries|
        invariant forall t :: 0 <= t < revealed.Length ==>
          revealed[t] == (old(revealed[t]) || t in Revealing(entries[..i]))
        invariant observed == old(observed) - Revealing(entries[..i])
        invariant Valid()
      {
        var entry := entries[i];
        if entry.isIntersecting {
          revealed[entry.target] := true;
          observed := observed - {entry.target};
        }
        assert entries[..i + 1][..i] == entries[..i];
        i := i + 1;
      }
      assert entries[..i] == entries;
    }
  }
}
