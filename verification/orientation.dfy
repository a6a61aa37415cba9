/**
 * Orientation of an entity occurrence relative to the canonical vertex order
 * the mesh recorded for that entity (fmsconvert.cpp, edge and face cases of
 * the DOF pass).  The code selects the DOF permutation for the occurrence.
 */
module Orientation {
  import opened Seqs

  /** Edge code: 0 when the occurrence starts at the canonical first vertex, 1 otherwise. */
  function EdgeOri(occ: seq<int>, canon: seq<int>): (o: nat)
    requires |occ| >= 1 && |canon| >= 1
    ensures o <= 1
  {
    if occ[0] == canon[0] then 0 else 1
  }

  /**
   * An occurrence of an edge with two distinct canonical vertices, found
   * under the same unordered key: code 0 exactly when it lists the vertices
   * in canonical order, code 1 exactly when it lists them reversed.
   */
  lemma EdgeOriMeaning(occ: seq<int>, canon: seq<int>)
    requires |occ| == 2 && |canon| == 2 && canon[0] != canon[1]
    requires multiset(occ) == multiset(canon)
    ensures EdgeOri(occ, canon) == 0 <==> occ == canon
    ensures EdgeOri(occ, canon) == 1 <==> occ == [canon[1], canon[0]]
  {
    assert occ == [occ[0], occ[1]] && canon == [canon[0], canon[1]];
    assert occ[0] in multiset(canon) && occ[1] in multiset(canon);
    if occ[0] == canon[0] {
      assert multiset(occ) - multiset{canon[0]} == multiset{occ[1]};
      assert multiset(canon) - multiset{canon[0]} == multiset{canon[1]};
    } else {
      assert occ[0] == canon[1];
      assert multiset(occ) - multiset{canon[1]} == multiset{occ[1]};
      assert multiset(canon) - multiset{canon[1]} == multiset{canon[0]};
    }
  }

  /**
   * Face code: with `r` the position of the canonical first vertex in the
   * occurrence, `2r` when the occurrence continues with the canonical second
   * vertex, `2r + 1` when it does not.
   */
  function FaceOri(occ: seq<int>, canon: seq<int>): (o: nat)
    requires |canon| >= 2 && canon[0] in occ
    ensures o < 2 * |occ|
  {
    var r := IndexOf(occ, canon[0]);
    if occ[(r + 1) % |occ|] == canon[1] then 2 * r else 2 * r + 1
  }

  /** The face code decodes back to the rotation and the direction that produced it. */
  lemma FaceOriDecode(occ: seq<int>, canon: seq<int>)
    requires |canon| >= 2 && canon[0] in occ
    ensures var o := FaceOri(occ, canon);
      && o / 2 < |occ|
      && occ[o / 2] == canon[0]
      && (forall k :: 0 <= k < o / 2 ==> occ[k] != canon[0])
      && (o % 2 == 0 <==> occ[(o / 2 + 1) % |occ|] == canon[1])
  {
    var r := IndexOf(occ, canon[0]);
    var o := FaceOri(occ, canon);
    assert o == 2 * r || o == 2 * r + 1;
    assert o / 2 == r;
  }

  /**
   * The DOF pass's search loop: advance `ori` until the occurrence holds the
   * canonical first vertex, then fold in the direction bit.
   */
  method FaceOrientation(occ: seq<int>, canon: seq<int>) returns (ori: nat)
    requires |canon| >= 2 && canon[0] in occ
    ensures ori == FaceOri(occ, canon)
  {
    ori := 0;
    while occ[ori] != canon[0]
      invariant ori < |occ|
      invariant forall k :: 0 <= k < ori ==> occ[k] != canon[0]
      invariant canon[0] in occ[ori..]
      decreases |occ| - ori
    {
      ori := ori + 1;
    }
    assert IndexOf(occ, canon[0]) == ori;
    ori := if occ[(ori + 1) % |occ|] == canon[1] then 2 * ori else 2 * ori + 1;
  }

  /** The occurrence that lists a cyclic face starting at its position `r` and running forward. */
  function Rotated(canon: seq<int>, r: nat): (occ: seq<int>)
    requires r < |canon|
    ensures |occ| == |canon|
  {
    seq(|canon|, k requires 0 <= k < |canon| => canon[(k + |canon| - r) % |canon|])
  }

  /** The occurrence that lists a cyclic face starting at its position `r` and running backward. */
  function Reflected(canon: seq<int>, r: nat): (occ: seq<int>)
    requires r < |canon|
    ensures |occ| == |canon|
  {
    seq(|canon|, k requires 0 <= k < |canon| => canon[(r + |canon| - k) % |canon|])
  }

  /** `a` and `a + n` leave the same remainder `a` modulo `n`. */
  lemma ModWrap(a: nat, n: nat)
    requires a < n
    ensures a % n == a && (a + n) % n == a
  {
  }

  /** Rotating a triangle or quadrilateral with distinct vertices by `r` gives code `2r`. */
  lemma FaceOriOfRotation(canon: seq<int>, r: nat)
    requires |canon| == 3 || |canon| == 4
    requires Distinct(canon) && r < |canon|
    ensures canon[0] in Rotated(canon, r)
    ensures FaceOri(Rotated(canon, r), canon) == 2 * r
  {
    var occ := Rotated(canon, r);
    var n := |canon|;
    ModWrap(0, n);
    assert occ[r] == canon[0];
    forall k | 0 <= k < r ensures occ[k] != canon[0] {
      ModWrap(k + n - r, n);
    }
    assert IndexOf(occ, canon[0]) == r;
    assert occ[(r + 1) % n] == canon[1] by {
      if r + 1 < n {
        ModWrap(r + 1, n); ModWrap(1, n);
        assert (r + 1 + n - r) % n == (1 + n) % n;
      } else {
        ModWrap(0, n); ModWrap(1, n);
        assert (r + 1) % n == 0 && (0 + n - r) % n == 1 % n;
      }
    }
  }

  /** Reflecting a triangle or quadrilateral with distinct vertices at `r` gives code `2r + 1`. */
  lemma FaceOriOfReflection(canon: seq<int>, r: nat)
    requires |canon| == 3 || |canon| == 4
    requires Distinct(canon) && r < |canon|
    ensures canon[0] in Reflected(canon, r)
    ensures FaceOri(Reflected(canon, r), canon) == 2 * r + 1
  {
    var occ := Reflected(canon, r);
    var n := |canon|;
    ModWrap(0, n);
    assert occ[r] == canon[0];
    forall k | 0 <= k < r ensures occ[k] != canon[0] {
      ModWrap(r - k, n);
      assert (r + n - k) % n == r - k;
    }
    assert IndexOf(occ, canon[0]) == r;
    assert occ[(r + 1) % n] == canon[n - 1] by {
      ModWrap(n - 1, n);
      if r + 1 < n {
        ModWrap(r + 1, n);
        assert (r + n - (r + 1)) % n == n - 1;
      } else {
        ModWrap(0, n);
        assert (r + 1) % n == 0 && (r + n - 0) % n == n - 1;
      }
    }
  }
}
