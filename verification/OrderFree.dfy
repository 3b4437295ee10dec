/** Folding keyed assignments over a record: when the order of the keys cannot matter. */
module OrderFree {
  import opened Prelude

  /** A record read by part, and keys that each assign at most one part. */
  datatype Engine<!C, !K, !P, !V> = Engine(get: (C, P) -> V, apply: (C, K) -> C, meaning: K -> Option<(P, V)>)

  ghost predicate Clash<C, K, P, V>(e: Engine<C, K, P, V>, j: K, k: K)
  {
    && e.meaning(j).Some? && e.meaning(k).Some?
    && e.meaning(j).value.0 == e.meaning(k).value.0 && e.meaning(j).value.1 != e.meaning(k).value.1
  }

  ghost predicate Speaks<C, K, P, V>(e: Engine<C, K, P, V>, k: K, p: P)
  {
    e.meaning(k).Some? && e.meaning(k).value.0 == p
  }

  ghost predicate SameParts<C, K, P(!new), V>(e: Engine<C, K, P, V>, a: C, b: C)
  {
    forall p :: e.get(a, p) == e.get(b, p)
  }

  /** Applying a key sets the part it means to the value it means, and parts determine the record. */
  ghost predicate Lawful<C(!new), K(!new), P(!new), V(!new)>(e: Engine<C, K, P, V>)
  {
    && (forall c, k, p :: e.get(e.apply(c, k), p) == if Speaks(e, k, p) then e.meaning(k).value.1 else e.get(c, p))
    && (forall a, b | SameParts(e, a, b) :: a == b)
  }

  function Fold<C, K, P, V>(e: Engine<C, K, P, V>, c: C, order: seq<K>): C
  {
    if order == [] then c else e.apply(Fold(e, c, order[..|order| - 1]), order[|order| - 1])
  }

  ghost predicate Enumerates<K(!new)>(order: seq<K>, keys: set<K>)
  {
    && (forall k :: k in order <==> k in keys)
    && (forall i, j | 0 <= i < j < |order| :: order[i] != order[j])
  }

  ghost predicate Agree<C, K, P, V>(e: Engine<C, K, P, V>, keys: set<K>)
  {
    forall j, k | j in keys && k in keys :: !Clash(e, j, k)
  }

  /** Agreeing keys fix every part: the value any speaking key means, or the original one. */
  lemma {:induction false} Outcome<C(!new), K(!new), P(!new), V(!new)>(e: Engine<C, K, P, V>, c: C, order: seq<K>, p: P)
    requires Lawful(e)
    requires forall j, k | j in order && k in order :: !Clash(e, j, k)
    ensures forall k | k in order && Speaks(e, k, p) :: e.get(Fold(e, c, order), p) == e.meaning(k).value.1
    ensures (forall k | k in order :: !Speaks(e, k, p)) ==> e.get(Fold(e, c, order), p) == e.get(c, p)
  {
    if order != [] {
      var front, last := order[..|order| - 1], order[|order| - 1];
      assert order == front + [last];
      assert forall k | k in front :: k in order;
      Outcome(e, c, front, p);
      assert last in order && forall k | k in front :: !Clash(e, k, last);
    }
  }

  lemma {:induction false} Enumeration<K(!new)>(keys: set<K>) returns (order: seq<K>)
    ensures Enumerates(order, keys)
    decreases |keys|
  {
    if keys == {} {
      order := [];
    } else {
      var k :| k in keys;
      order := Enumeration(keys - {k});
      order := order + [k];
    }
  }

  ghost predicate OrderIndependent<C, K(!new), P, V>(e: Engine<C, K, P, V>, c: C, keys: set<K>)
  {
    forall a, b | Enumerates(a, keys) && Enumerates(b, keys) :: Fold(e, c, a) == Fold(e, c, b)
  }

  lemma {:induction false} SameOutcome<C(!new), K(!new), P(!new), V(!new)>(
    e: Engine<C, K, P, V>, c: C, a: seq<K>, b: seq<K>, keys: set<K>)
    requires Lawful(e) && Agree(e, keys) && Enumerates(a, keys) && Enumerates(b, keys)
    ensures Fold(e, c, a) == Fold(e, c, b)
  {
    forall p
      ensures e.get(Fold(e, c, a), p) == e.get(Fold(e, c, b), p)
    {
      Outcome(e, c, a, p);
      Outcome(e, c, b, p);
      if k :| k in keys && Speaks(e, k, p) {
        assert k in a && k in b;
      }
    }
    assert SameParts(e, Fold(e, c, a), Fold(e, c, b));
  }

  lemma {:induction false} ClashShows<C(!new), K(!new), P(!new), V(!new)>(
    e: Engine<C, K, P, V>, c: C, j: K, k: K, keys: set<K>)
    requires Lawful(e) && j in keys && k in keys && Clash(e, j, k)
    ensures !OrderIndependent(e, c, keys)
  {
    var p := e.meaning(j).value.0;
    var rest := Enumeration(keys - {j, k});
    var a, b := rest + [j] + [k], rest + [k] + [j];
    assert Enumerates(a, keys) && Enumerates(b, keys);
    assert a[..|a| - 1] == rest + [j] && b[..|b| - 1] == rest + [k];
    assert e.get(Fold(e, c, a), p) == e.meaning(k).value.1;
    assert e.get(Fold(e, c, b), p) == e.meaning(j).value.1;
  }

  /** The order of the keys cannot matter exactly when no two of them mean different values for one part. */
  lemma {:induction false} OrderIndependence<C(!new), K(!new), P(!new), V(!new)>(
    e: Engine<C, K, P, V>, c: C, keys: set<K>)
    requires Lawful(e)
    ensures OrderIndependent(e, c, keys) <==> Agree(e, keys)
  {
    if Agree(e, keys) {
      forall a, b | Enumerates(a, keys) && Enumerates(b, keys)
        ensures Fold(e, c, a) == Fold(e, c, b)
      {
        SameOutcome(e, c, a, b, keys);
      }
    } else {
      var j, k :| j in keys && k in keys && Clash(e, j, k);
      ClashShows(e, c, j, k, keys);
    }
  }
}
