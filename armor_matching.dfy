/**
 * Pairing light blobs into armors (`GyroDetector::findArmors`): the blobs
 * are sorted left to right in place, then every pair `i < j` is tried.
 */
module ArmorMatching {
  import opened Common
  import opened DetectorTypes

  /** Non-decreasing in center x. */
  predicate SortedByX(s: seq<LightBlob>)
  {
    forall p, q :: 0 <= p < q < |s| ==> s[p].center.x <= s[q].center.x
  }

  method Swap(a: array<LightBlob>, i: int, j: int)
    requires 0 <= i < a.Length && 0 <= j < a.Length
    modifies a
    ensures a[..] == old(a[..])[i := old(a[j])][j := old(a[i])]
    ensures multiset(a[..]) == multiset(old(a[..]))
  {
    a[i], a[j] := a[j], a[i];
  }

  /**
   * Moves `a[i]` left past every larger element of the sorted prefix
   * `a[..i]`, so that `a[..i + 1]` is sorted.
   */
  method InsertLeft(a: array<LightBlob>, i: int)
    requires 0 <= i < a.Length
    requires SortedByX(a[..i])
    modifies a
    ensures SortedByX(a[..i + 1])
    ensures multiset(a[..]) == multiset(old(a[..]))
  {
    var j := i;
    while j > 0 && a[j - 1].center.x > a[j].center.x
      invariant 0 <= j <= i
      invariant multiset(a[..]) == multiset(old(a[..]))
      invariant forall p, q :: 0 <= p < q <= i && p != j && q != j ==> a[p].center.x <= a[q].center.x
      invariant forall q :: j < q <= i ==> a[j].center.x < a[q].center.x
    {
      Swap(a, j - 1, j);
      j := j - 1;
    }
  }

  /**
   * Sorts the blobs by center x, in place. `std::sort` is not stable, so
   * only sortedness and permutation are promised.
   */
  method SortByX(a: array<LightBlob>)
    modifies a
    ensures SortedByX(a[..])
    ensures multiset(a[..]) == multiset(old(a[..]))
  {
    for i := 0 to a.Length
      invariant SortedByX(a[..i])
      invariant multiset(a[..]) == multiset(old(a[..]))
    {
      InsertLeft(a, i);
    }
    assert a[..a.Length] == a[..];
  }

  /** Some blob strictly between positions `i` and `j` lies inside `armor`. */
  predicate ContainsBetween(v: Primitives, s: seq<LightBlob>, i: int, j: int, armor: Armor)
    requires 0 <= i && j <= |s|
  {
    exists k :: i < k < j && v.isContainBlob(s[k], armor)
  }

  /**
   * The armor pair `(i, j)` contributes: `make_combo` succeeds and no blob
   * strictly between the two lies inside the armor.
   */
  function Candidate(v: Primitives, s: seq<LightBlob>, i: int, j: int): (r: Option<Armor>)
    requires 0 <= i < j < |s|
    ensures r.Some? <==> v.makeCombo(s[i], s[j]).Some? && !ContainsBetween(v, s, i, j, v.makeCombo(s[i], s[j]).value)
    ensures r.Some? ==> v.makeCombo(s[i], s[j]) == r
  {
    match v.makeCombo(s[i], s[j])
    case None => None
    case Some(armor) => if ContainsBetween(v, s, i, j, armor) then None else Some(armor)
  }

  /** The armors of the pairs `(i, j)` with `lo <= j < hi`, in order of `j`. */
  function Row(v: Primitives, s: seq<LightBlob>, i: int, lo: int, hi: int): seq<Armor>
    requires 0 <= i < lo <= hi <= |s|
    decreases hi - lo
  {
    if hi == lo then [] else Row(v, s, i, lo, hi - 1) + OptionToSeq(Candidate(v, s, i, hi - 1))
  }

  /** The armors of all pairs whose first blob lies before position `i`, in lexicographic order. */
  function PairsBefore(v: Primitives, s: seq<LightBlob>, i: int): seq<Armor>
    requires 0 <= i < |s|
  {
    if i == 0 then [] else PairsBefore(v, s, i - 1) + Row(v, s, i - 1, i, |s|)
  }

  /** The armors `findArmors` returns for the already sorted blobs `s`. */
  function Matches(v: Primitives, s: seq<LightBlob>): seq<Armor>
  {
    if |s| < 2 then [] else PairsBefore(v, s, |s| - 1)
  }

  /** The containment scan of one pair, stopping at the first blob inside the armor. */
  method ContainsBlob(v: Primitives, s: seq<LightBlob>, i: int, j: int, armor: Armor) returns (contain: bool)
    requires 0 <= i < j <= |s|
    ensures contain == ContainsBetween(v, s, i, j, armor)
  {
    contain := false;
    var k := i + 1;
    while k < j
      invariant i + 1 <= k <= j
      invariant forall m :: i < m < k ==> !v.isContainBlob(s[m], armor)
    {
      if v.isContainBlob(s[k], armor) {
        contain := true;
        break;
      }
      k := k + 1;
    }
  }

  /** The inner loop of `findArmors`: the armors of the pairs `(i, j)`, `j > i`. */
  method MatchRow(v: Primitives, s: seq<LightBlob>, i: int) returns (row: seq<Armor>)
    requires 0 <= i < |s|
    ensures row == Row(v, s, i, i + 1, |s|)
  {
    row := [];
    for j := i + 1 to |s|
      invariant row == Row(v, s, i, i + 1, j)
    {
      var armor := v.makeCombo(s[i], s[j]);
      if armor == None {
        continue;
      }
      var contain := ContainsBlob(v, s, i, j, armor.value);
      if contain {
        continue;
      }
      row := row + [armor.value];
    }
  }

  /** The pair enumeration of `findArmors`, over blobs already sorted. */
  method MatchPairs(v: Primitives, s: seq<LightBlob>) returns (armors: seq<Armor>)
    ensures armors == Matches(v, s)
  {
    armors := [];
    if |s| < 2 {
      return;
    }
    var i := 0;
    while i + 1 < |s|
      invariant 0 <= i < |s|
      invariant armors == PairsBefore(v, s, i)
    {
      var row := MatchRow(v, s, i);
      armors := armors + row;
      i := i + 1;
    }
  }

  /** Sorts the blobs left to right in place, then matches every pair. */
  method FindArmors(v: Primitives, blobs: array<LightBlob>) returns (armors: seq<Armor>)
    modifies blobs
    ensures SortedByX(blobs[..])
    ensures multiset(blobs[..]) == multiset(old(blobs[..]))
    ensures armors == Matches(v, blobs[..])
  {
    SortByX(blobs);
    armors := MatchPairs(v, blobs[..]);
  }

  // ---------------------------------------------------------------------------
  // What the matcher's output is
  // ---------------------------------------------------------------------------

  lemma {:induction false} RowMembership(v: Primitives, s: seq<LightBlob>, i: int, lo: int, hi: int, a: Armor)
    requires 0 <= i < lo <= hi <= |s|
    ensures a in Row(v, s, i, lo, hi) <==> exists j :: lo <= j < hi && Candidate(v, s, i, j) == Some(a)
    decreases hi - lo
  {
    if hi > lo {
      RowMembership(v, s, i, lo, hi - 1, a);
    }
  }

  lemma {:induction false} PairsBeforeMembership(v: Primitives, s: seq<LightBlob>, n: int, a: Armor)
    requires 0 <= n < |s|
    ensures a in PairsBefore(v, s, n) <==> exists i, j :: 0 <= i < n && i < j < |s| && Candidate(v, s, i, j) == Some(a)
  {
    if n > 0 {
      var before, row := PairsBefore(v, s, n - 1), Row(v, s, n - 1, n, |s|);
      assert PairsBefore(v, s, n) == before + row;
      PairsBeforeMembership(v, s, n - 1, a);
      RowMembership(v, s, n - 1, n, |s|, a);
      if a in before + row {
        if a in before {
          var i, j :| 0 <= i < n - 1 && i < j < |s| && Candidate(v, s, i, j) == Some(a);
          assert 0 <= i < n && i < j < |s|;
        } else {
          var j :| n <= j < |s| && Candidate(v, s, n - 1, j) == Some(a);
          assert 0 <= n - 1 < n && n - 1 < j < |s|;
        }
      }
      if exists i, j :: 0 <= i < n && i < j < |s| && Candidate(v, s, i, j) == Some(a) {
        var i, j :| 0 <= i < n && i < j < |s| && Candidate(v, s, i, j) == Some(a);
        if i < n - 1 {
          assert a in before;
        } else {
          assert n <= j < |s|;
          assert a in row;
        }
      }
    }
  }

  /**
   * An armor is produced exactly when some pair `i < j` accepts it:
   * `make_combo` succeeds and no blob strictly between the two is inside it.
   */
  lemma MatchesMembership(v: Primitives, s: seq<LightBlob>, a: Armor)
    ensures a in Matches(v, s) <==> exists i, j :: 0 <= i < j < |s| && Candidate(v, s, i, j) == Some(a)
  {
    if |s| >= 2 {
      PairsBeforeMembership(v, s, |s| - 1, a);
    }
  }

  lemma {:induction false} RowLength(v: Primitives, s: seq<LightBlob>, i: int, lo: int, hi: int)
    requires 0 <= i < lo <= hi <= |s|
    ensures |Row(v, s, i, lo, hi)| <= hi - lo
    decreases hi - lo
  {
    if hi > lo {
      RowLength(v, s, i, lo, hi - 1);
    }
  }

  /** The number of pairs `(i, j)` with `i < n` and `i < j < m`. */
  function PairBudget(m: int, n: nat): int
  {
    if n == 0 then 0 else PairBudget(m, n - 1) + (m - n)
  }

  lemma {:induction false} PairBudgetClosedForm(m: int, n: nat)
    ensures 2 * PairBudget(m, n) == n * (2 * m - n - 1)
  {
    if n > 0 {
      PairBudgetClosedForm(m, n - 1);
      calc {
        2 * PairBudget(m, n);
        2 * PairBudget(m, n - 1) + 2 * (m - n);
        (n - 1) * (2 * m - n) + 2 * (m - n);
        { assert (n - 1) * (2 * m - n) == n * (2 * m - n) - (2 * m - n); }
        n * (2 * m - n) - (2 * m - n) + 2 * (m - n);
        n * (2 * m - n) - n;
        { assert n * (2 * m - n) - n == n * (2 * m - n - 1); }
        n * (2 * m - n - 1);
      }
    }
  }

  lemma {:induction false} PairsBeforeLength(v: Primitives, s: seq<LightBlob>, n: int)
    requires 0 <= n < |s|
    ensures |PairsBefore(v, s, n)| <= PairBudget(|s|, n)
  {
    if n > 0 {
      var before, row := PairsBefore(v, s, n - 1), Row(v, s, n - 1, n, |s|);
      assert PairsBefore(v, s, n) == before + row;
      PairsBeforeLength(v, s, n - 1);
      RowLength(v, s, n - 1, n, |s|);
      assert |before + row| == |before| + |row|;
      assert PairBudget(|s|, n) == PairBudget(|s|, n - 1) + (|s| - n);
    }
  }

  /** At most one armor per unordered pair: no more than n(n-1)/2 armors. */
  lemma MatchesLength(v: Primitives, s: seq<LightBlob>)
    ensures 2 * |Matches(v, s)| <= |s| * (|s| - 1)
  {
    if |s| >= 2 {
      var m := |s|;
      PairsBeforeLength(v, s, m - 1);
      PairBudgetClosedForm(m, m - 1);
      assert (m - 1) * (2 * m - (m - 1) - 1) == (m - 1) * m;
    }
  }

  /**
   * Blobs at x = 0, 10, 20: when the armor of the outer pair encloses the
   * middle blob, that pair yields nothing.
   */
  lemma ContainedPairRejected(v: Primitives, s: seq<LightBlob>, a: Armor)
    requires |s| == 3
    requires v.makeCombo(s[0], s[2]) == Some(a) && v.isContainBlob(s[1], a)
    ensures Candidate(v, s, 0, 2) == None
  {
    assert ContainsBetween(v, s, 0, 2, a);
  }
}
