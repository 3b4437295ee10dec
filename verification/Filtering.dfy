/** Filtering a list while keeping its order, and cutting the result to its last elements. */
module Filtering {
  import opened Prelude

  /** `iter().filter(keep).collect()`. */
  function Filter<T>(s: seq<T>, keep: T -> bool): (r: seq<T>)
    ensures |r| <= |s|
  {
    if s == [] then []
    else Filter(s[..|s| - 1], keep) + if keep(s[|s| - 1]) then [s[|s| - 1]] else []
  }

  /** places is a strictly increasing list of places in s whose elements are kept. */
  predicate Picks<T>(s: seq<T>, keep: T -> bool, places: seq<nat>)
  {
    && (forall j | 0 <= j < |places| :: places[j] < |s| && keep(s[places[j]]))
    && (forall j, k | 0 <= j < k < |places| :: places[j] < places[k])
  }

  /** Every place that is kept, in order. */
  function Places<T>(s: seq<T>, keep: T -> bool): (places: seq<nat>)
    ensures Picks(s, keep, places)
  {
    if s == [] then []
    else
      var front := Places(s[..|s| - 1], keep);
      assert forall j | 0 <= j < |front| :: s[..|s| - 1][front[j]] == s[front[j]];
      front + if keep(s[|s| - 1]) then [|s| - 1] else []
  }

  lemma {:induction false} FilterIsPlaces<T>(s: seq<T>, keep: T -> bool)
    ensures |Filter(s, keep)| == |Places(s, keep)|
    ensures forall j | 0 <= j < |Filter(s, keep)| :: Filter(s, keep)[j] == s[Places(s, keep)[j]]
  {
    if s != [] {
      FilterIsPlaces(s[..|s| - 1], keep);
    }
  }

  /** No kept element is without a place. */
  lemma {:induction false} PlacesComplete<T>(s: seq<T>, keep: T -> bool, i: nat)
    requires i < |s| && keep(s[i])
    ensures i in Places(s, keep)
  {
    if i < |s| - 1 {
      PlacesComplete(s[..|s| - 1], keep, i);
    }
  }

  /** Place i comes before every one of the places. */
  predicate OlderThanAll(i: nat, places: seq<nat>) { forall j | 0 <= j < |places| :: i < places[j] }

  /** In an increasing list, what is not among the last `limit` is older than all of them. */
  lemma {:induction false} DroppedAreOlder(all: seq<nat>, limit: nat, i: nat)
    requires forall j, k | 0 <= j < k < |all| :: all[j] < all[k]
    requires i in all && i !in LastN(all, limit)
    ensures |LastN(all, limit)| == limit && OlderThanAll(i, LastN(all, limit))
  {
    var places := LastN(all, limit);
    var skipped := |all| - |places|;
    assert forall k | skipped <= k < |all| :: all[k] == places[k - skipped] && all[k] in places;
  }

  /**
   The last `limit` kept elements: they stand at strictly increasing places and are all kept, and a kept
   element is missing only when it is older than all of the `limit` elements that are there.
   */
  lemma {:induction false} LastKept<T>(s: seq<T>, keep: T -> bool, limit: nat)
    ensures var r := LastN(Filter(s, keep), limit);
            var places := LastN(Places(s, keep), limit);
            && |r| == |places|
            && Picks(s, keep, places)
            && (forall j | 0 <= j < |r| :: r[j] == s[places[j]])
            && (forall i | 0 <= i < |s| && keep(s[i]) && i !in places :: |places| == limit && OlderThanAll(i, places))
  {
    FilterIsPlaces(s, keep);
    var all := Places(s, keep);
    forall i | 0 <= i < |s| && keep(s[i]) && i !in LastN(all, limit)
      ensures |LastN(all, limit)| == limit && OlderThanAll(i, LastN(all, limit))
    {
      PlacesComplete(s, keep, i);
      DroppedAreOlder(all, limit, i);
    }
  }
}
