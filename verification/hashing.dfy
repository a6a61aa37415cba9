/**
 * The edge and face id tables of the DOF pass (mfem::HashTable with
 * Hashed2 / Hashed4 nodes).  A table hands out dense ids 0, 1, 2, ... in the
 * order keys are first inserted; the hashing itself is not modelled, only
 * the key each entity is filed under and the insertion-order ids.
 */
module Hashing {
  import opened Seqs

  /** INT_MAX, the pad the converter puts in the fourth slot of a triangle. */
  const IntMax: int := 0x7fff_ffff

  /** Hashed2 key: the two vertices of an edge, smaller first. */
  datatype Hashed2 = Hashed2(p1: int, p2: int)

  /** Hashed4 key: the three smallest of the four vertex slots, in increasing order. */
  datatype Hashed4 = Hashed4(p1: int, p2: int, p3: int)

  function EdgeKey(a: int, b: int): (k: Hashed2)
    ensures k.p1 <= k.p2
    ensures multiset{k.p1, k.p2} == multiset{a, b}
  {
    if a <= b then Hashed2(a, b) else Hashed2(b, a)
  }

  /** Two edges are filed under the same key exactly when they have the same two vertices. */
  lemma EdgeKeyMatch(a: int, b: int, c: int, d: int)
    ensures EdgeKey(a, b) == EdgeKey(c, d) <==> multiset{a, b} == multiset{c, d}
  {
    if multiset{a, b} == multiset{c, d} {
      assert a in multiset{c, d} && b in multiset{c, d};
      if a == c {
        assert multiset{a, b} - multiset{a} == multiset{b};
        assert multiset{c, d} - multiset{a} == multiset{d};
      } else {
        assert a == d;
        assert multiset{a, b} - multiset{a} == multiset{b};
        assert multiset{c, d} - multiset{a} == multiset{c};
      }
    }
  }

  function Min(x: int, y: int): int { if x <= y then x else y }
  function Max(x: int, y: int): int { if x <= y then y else x }

  /**
   * The face key of four vertex slots (a triangle comes with INT_MAX in the
   * fourth): the slots are sorted by a four-input network and the largest is
   * dropped.
   */
  function FaceKey(a: int, b: int, c: int, d: int): (k: Hashed4)
    ensures k.p1 <= k.p2 <= k.p3
  {
    var lo1, hi1 := Min(a, b), Max(a, b);
    var lo2, hi2 := Min(c, d), Max(c, d);
    var mid1, mid2 := Max(lo1, lo2), Min(hi1, hi2);
    Hashed4(Min(lo1, lo2), Min(mid1, mid2), Max(mid1, mid2))
  }

  /** The key is the three smallest slots in increasing order: it picks values among the slots and drops one at least as large. */
  lemma FaceKeyIsSmallestThree(a: int, b: int, c: int, d: int)
    ensures var k := FaceKey(a, b, c, d);
      && k.p1 == Min(Min(a, b), Min(c, d))
      && multiset{k.p1, k.p2, k.p3, Max(Max(a, b), Max(c, d))} == multiset{a, b, c, d}
  {
    var lo1, hi1 := Min(a, b), Max(a, b);
    var lo2, hi2 := Min(c, d), Max(c, d);
    var mid1, mid2 := Max(lo1, lo2), Min(hi1, hi2);
    MinMaxPair(a, b);
    MinMaxPair(c, d);
    MinMaxPair(lo1, lo2);
    MinMaxPair(hi1, hi2);
    MinMaxPair(mid1, mid2);
    NetworkKeeps(a, b, c, d, lo1, hi1, lo2, hi2, Min(lo1, lo2), mid1, mid2, Max(hi1, hi2), Min(mid1, mid2), Max(mid1, mid2));
  }

  /** A network of comparators, each keeping the multiset of its two inputs, keeps the multiset of all four. */
  lemma NetworkKeeps(a: int, b: int, c: int, d: int, lo1: int, hi1: int, lo2: int, hi2: int,
                     p1: int, mid1: int, mid2: int, top: int, p2: int, p3: int)
    requires multiset{lo1, hi1} == multiset{a, b} && multiset{lo2, hi2} == multiset{c, d}
    requires multiset{p1, mid1} == multiset{lo1, lo2} && multiset{mid2, top} == multiset{hi1, hi2}
    requires multiset{p2, p3} == multiset{mid1, mid2}
    ensures multiset{p1, p2, p3, top} == multiset{a, b, c, d}
  {
    Display4(a, b, c, d);
    Regroup(lo1, hi1, lo2, hi2);
    Swap2(mid2, top);
    Regroup(p1, mid1, top, mid2);
    Regroup(p1, top, p2, p3);
    Swap2(p3, top);
    Display4(p1, p2, p3, top);
  }

  lemma Display4(p: int, q: int, r: int, s: int)
    ensures multiset{p, q, r, s} == multiset{p, q} + multiset{r, s}
  {
  }

  lemma Regroup(p: int, q: int, r: int, s: int)
    ensures multiset{p, q} + multiset{r, s} == multiset{p, r} + multiset{q, s}
  {
  }

  lemma Swap2(p: int, q: int)
    ensures multiset{p, q} == multiset{q, p}
  {
  }

  /** A comparator keeps its two inputs. */
  lemma MinMaxPair(x: int, y: int)
    ensures multiset{Min(x, y), Max(x, y)} == multiset{x, y}
  {
  }

  /** Exchanging two adjacent slots keeps the key, so any reordering of the four slots does. */
  lemma FaceKeyOrderFree(a: int, b: int, c: int, d: int)
    ensures FaceKey(a, b, c, d) == FaceKey(b, a, c, d)
    ensures FaceKey(a, b, c, d) == FaceKey(a, c, b, d)
    ensures FaceKey(a, b, c, d) == FaceKey(a, b, d, c)
  {
  }

  /** Rotating or reflecting a quadrilateral keeps its key. */
  lemma FaceKeyDihedral(a: int, b: int, c: int, d: int)
    ensures FaceKey(a, b, c, d) == FaceKey(b, c, d, a)
    ensures FaceKey(a, b, c, d) == FaceKey(d, c, b, a)
  {
    FaceKeyOrderFree(a, b, c, d);
    FaceKeyOrderFree(b, a, c, d);
    FaceKeyOrderFree(b, c, a, d);
    FaceKeyOrderFree(d, c, b, a);
    FaceKeyOrderFree(c, d, b, a);
    FaceKeyOrderFree(c, b, d, a);
    FaceKeyOrderFree(b, c, d, a);
    FaceKeyOrderFree(a, c, b, d);
  }

  /**
   * The key ignores the largest slot: two faces that share their three
   * smallest vertices are filed under one key, whatever their fourth slot
   * (a triangle padded with INT_MAX included).
   */
  lemma FaceKeyIgnoresLargest(a: int, b: int, c: int, d: int, e: int)
    requires a <= b <= c <= d && c <= e
    ensures FaceKey(a, b, c, d) == FaceKey(a, b, c, e) == Hashed4(a, b, c)
  {
  }

  /**
   * An insertion-order id table.  `keys[i]` is the key that received id `i`;
   * `ids` is the lookup structure (the hash buckets of the source).
   */
  class HashTable<K(==)> {
    var keys: seq<K>
    var ids: map<K, nat>

    ghost predicate Valid()
      reads this
    {
      && (forall k :: k in ids ==> ids[k] < |keys| && keys[ids[k]] == k)
      && (forall i :: 0 <= i < |keys| ==> keys[i] in ids && ids[keys[i]] == i)
    }

    constructor ()
      ensures Valid() && keys == []
    {
      keys := [];
      ids := map[];
    }

    /** Ids are dense and never shared: the keys of a valid table are distinct. */
    lemma KeysDistinct()
      requires Valid()
      ensures Distinct(keys)
    {
      forall i, j | 0 <= i < j < |keys| ensures keys[i] != keys[j] {
        assert ids[keys[i]] == i && ids[keys[j]] == j;
      }
    }

    /** GetId: the id of `k`, allocating the next id when `k` is new. */
    method GetId(k: K) returns (id: nat)
      requires Valid()
      modifies this
      ensures Valid()
      ensures k in old(keys) ==> keys == old(keys) && id == IndexOf(keys, k)
      ensures k !in old(keys) ==> keys == old(keys) + [k] && id == |old(keys)|
    {
      KeysDistinct();
      if k in ids {
        id := ids[k];
        IndexOfDistinct(keys, id);
      } else {
        assert k !in keys;
        id := |keys|;
        keys := keys + [k];
        ids := ids[k := id];
      }
    }

    /** FindId: the id of `k`, or a negative value when `k` was never inserted. */
    method FindId(k: K) returns (id: int)
      requires Valid()
      ensures id == IndexOf(keys, k)
      ensures id >= 0 ==> keys[id] == k
    {
      KeysDistinct();
      if k in ids {
        id := ids[k];
        IndexOfDistinct(keys, id);
      } else {
        assert k !in keys;
        id := -1;
      }
    }
  }
}
