/**
 * Resolving armors that share a light blob (`GyroDetector::eraseErrorArmors`)
 * and dropping armors of unknown type (`GyroDetector::eraseFakeArmors`).
 */
module ArmorSelection {
  import opened Common
  import opened DetectorTypes
  import opened Sequences

  /** Both armors use the same left blob, or the same right blob. */
  predicate SameSide(x: Armor, y: Armor)
  {
    x.left == y.left || x.right == y.right
  }

  /** One armor's left blob is the other's right blob. */
  predicate OppositeSide(x: Armor, y: Armor)
  {
    x.left == y.right || x.right == y.left
  }

  /**
   * The armor that the comparison of `x` (earlier) with `y` (later) marks
   * for removal, if any: on a same-side share the wider one, otherwise on an
   * opposite-side share the one with the larger error; ties mark `y`.
   */
  function Loser(x: Armor, y: Armor): (r: Option<Armor>)
    ensures r.Some? <==> SameSide(x, y) || OppositeSide(x, y)
    ensures SameSide(x, y) ==> r == Some(if x.width > y.width then x else y)
    ensures !SameSide(x, y) && OppositeSide(x, y) ==> r == Some(if x.error > y.error then x else y)
  {
    if x.left == y.left || x.right == y.right then
      Some(if x.width > y.width then x else y)
    else if x.left == y.right || x.right == y.left then
      Some(if x.error > y.error then x else y)
    else
      None
  }

  /** The armors marked by comparing `s[i]` with `s[q]`, `lo <= q < hi`. */
  function RowMarks(s: seq<Armor>, i: int, lo: int, hi: int): set<Armor>
    requires 0 <= i < lo <= hi <= |s|
    decreases hi - lo
  {
    if hi == lo then {}
    else RowMarks(s, i, lo, hi - 1) + (match Loser(s[i], s[hi - 1]) case None => {} case Some(w) => {w})
  }

  /** The armors marked by the comparisons whose first armor lies before position `i`. */
  function MarksBefore(s: seq<Armor>, i: int): set<Armor>
    requires 0 <= i <= |s|
  {
    if i == 0 then {} else MarksBefore(s, i - 1) + RowMarks(s, i - 1, i, |s|)
  }

  /** Every armor some comparison marked: the flags `eraseErrorArmors` sets. */
  function Marks(s: seq<Armor>): set<Armor>
  {
    MarksBefore(s, |s|)
  }

  function UnmarkedFn(s: seq<Armor>): Armor -> bool
  {
    a => a !in Marks(s)
  }

  /** What `eraseErrorArmors` leaves: fewer than two armors are left alone. */
  function Survivors(s: seq<Armor>): seq<Armor>
  {
    if |s| < 2 then s else Filter(s, UnmarkedFn(s))
  }

  lemma {:induction false} RowMarksExactly(s: seq<Armor>, i: int, lo: int, hi: int, a: Armor)
    requires 0 <= i < lo <= hi <= |s|
    ensures a in RowMarks(s, i, lo, hi) <==> exists q :: lo <= q < hi && Loser(s[i], s[q]) == Some(a)
    decreases hi - lo
  {
    if hi > lo {
      RowMarksExactly(s, i, lo, hi - 1, a);
    }
  }

  lemma {:induction false} MarksBeforeExactly(s: seq<Armor>, i: int, a: Armor)
    requires 0 <= i <= |s|
    ensures a in MarksBefore(s, i) <==> exists p, q :: 0 <= p < i && p < q < |s| && Loser(s[p], s[q]) == Some(a)
  {
    if i > 0 {
      MarksBeforeExactly(s, i - 1, a);
      RowMarksExactly(s, i - 1, i, |s|, a);
      assert MarksBefore(s, i) == MarksBefore(s, i - 1) + RowMarks(s, i - 1, i, |s|);
      if a in RowMarks(s, i - 1, i, |s|) {
        var q :| i <= q < |s| && Loser(s[i - 1], s[q]) == Some(a);
        assert 0 <= i - 1 < i && i - 1 < q < |s|;
      } else if a in MarksBefore(s, i - 1) {
        var p, q :| 0 <= p < i - 1 && p < q < |s| && Loser(s[p], s[q]) == Some(a);
        assert 0 <= p < i;
      } else {
        forall p, q | 0 <= p < i && p < q < |s|
          ensures Loser(s[p], s[q]) != Some(a)
        {
          if p == i - 1 {
            assert i <= q;
          }
        }
      }
    }
  }

  /** An armor is marked exactly when the comparison of some pair `p < q` marks it. */
  lemma MarksExactly(s: seq<Armor>, a: Armor)
    ensures a in Marks(s) <==> exists p, q :: 0 <= p < q < |s| && Loser(s[p], s[q]) == Some(a)
  {
    MarksBeforeExactly(s, |s|, a);
  }

  /** The comparison of `s[p]` with `s[q]` marks whatever loser it names. */
  lemma LoserMarked(s: seq<Armor>, p: int, q: int)
    requires 0 <= p < q < |s|
    ensures Loser(s[p], s[q]).Some? ==> Loser(s[p], s[q]).value in Marks(s)
  {
    match Loser(s[p], s[q])
    case None =>
    case Some(w) =>
      MarksExactly(s, w);
  }

  /** The flag loop of `eraseErrorArmors`, for the comparisons of `armors[i]` with later armors. */
  method MarkRow(armors: seq<Armor>, i: int, flags: map<Armor, bool>) returns (flags': map<Armor, bool>)
    requires 0 <= i < |armors|
    requires forall a :: a in flags ==> (flags[a] <==> a in MarksBefore(armors, i))
    requires forall k :: 0 <= k < |armors| ==> armors[k] in flags
    ensures forall k :: 0 <= k < |armors| ==> armors[k] in flags'
    ensures forall a :: a in flags' ==> (flags'[a] <==> a in MarksBefore(armors, i + 1))
  {
    flags' := flags;
    for j := i + 1 to |armors|
      invariant forall k :: 0 <= k < |armors| ==> armors[k] in flags'
      invariant forall a :: a in flags' ==> (flags'[a] <==> a in MarksBefore(armors, i) + RowMarks(armors, i, i + 1, j))
    {
      if armors[i].left == armors[j].left || armors[i].right == armors[j].right {
        var loser := if armors[i].width > armors[j].width then armors[i] else armors[j];
        flags' := flags'[loser := true];
      } else if armors[i].left == armors[j].right || armors[i].right == armors[j].left {
        var loser := if armors[i].error > armors[j].error then armors[i] else armors[j];
        flags' := flags'[loser := true];
      }
    }
  }

  method EraseErrorArmors(armors: seq<Armor>) returns (result: seq<Armor>)
    ensures result == Survivors(armors)
  {
    if |armors| < 2 {
      return armors;
    }
    var flags: map<Armor, bool> := map[];
    for k := 0 to |armors|
      invariant forall m :: 0 <= m < k ==> armors[m] in flags
      invariant forall a :: a in flags ==> !flags[a]
    {
      flags := flags[armors[k] := false];
    }
    var i := 0;
    while i + 1 < |armors|
      invariant 0 <= i < |armors|
      invariant forall k :: 0 <= k < |armors| ==> armors[k] in flags
      invariant forall a :: a in flags ==> (flags[a] <==> a in MarksBefore(armors, i))
    {
      flags := MarkRow(armors, i, flags);
      i := i + 1;
    }
    assert MarksBefore(armors, |armors|) == MarksBefore(armors, i);
    result := RemoveFlagged(armors, flags);
  }

  /** `erase(remove_if(...))` over the flags: keeps the unflagged armors in order. */
  method RemoveFlagged(armors: seq<Armor>, flags: map<Armor, bool>) returns (result: seq<Armor>)
    requires forall k :: 0 <= k < |armors| ==> armors[k] in flags
    requires forall a :: a in flags ==> (flags[a] <==> a in Marks(armors))
    ensures result == Filter(armors, UnmarkedFn(armors))
  {
    result := [];
    for k := 0 to |armors|
      invariant result == Filter(armors[..k], UnmarkedFn(armors))
    {
      FilterPrefixStep(armors, k, UnmarkedFn(armors));
      if !flags[armors[k]] {
        result := result + [armors[k]];
      }
    }
    assert armors[..|armors|] == armors;
  }

  // ---------------------------------------------------------------------------
  // What the disambiguator guarantees
  // ---------------------------------------------------------------------------

  /** The survivors are an order-preserving subsequence of the input. */
  lemma SurvivorsSubsequence(s: seq<Armor>)
    ensures IsSubsequence(Survivors(s), s)
  {
    if |s| < 2 {
      SelectsSelf(s);
    } else {
      FilterIsSubsequence(s, UnmarkedFn(s));
    }
  }

  /** With two or more armors, an armor survives exactly when no comparison marked it. */
  lemma SurvivorsExactly(s: seq<Armor>, a: Armor)
    requires |s| >= 2
    ensures a in Survivors(s) <==> a in s && !exists p, q :: 0 <= p < q < |s| && Loser(s[p], s[q]) == Some(a)
  {
    FilterMembership(s, UnmarkedFn(s), a);
    MarksExactly(s, a);
  }

  /** No two surviving armors share a light blob, on either side. */
  lemma SurvivorsShareNoBlob(s: seq<Armor>)
    ensures var r := Survivors(s);
      forall p, q :: 0 <= p < q < |r| ==> !SameSide(r[p], r[q]) && !OppositeSide(r[p], r[q])
  {
    var r := Survivors(s);
    if |s| >= 2 {
      var keep := UnmarkedFn(s);
      FilterSelectsKept(s, keep);
      var idx := FilterIndices(s, keep);
      forall p, q | 0 <= p < q < |r|
        ensures !SameSide(r[p], r[q]) && !OppositeSide(r[p], r[q])
      {
        var i, j := idx[p], idx[q];
        assert r[p] == s[i] && r[q] == s[j] && i < j;
        LoserMarked(s, i, j);
      }
    }
  }

  /** A same-side share removes the strictly wider armor, and the later one on a tie. */
  lemma SameSideTieBreak(s: seq<Armor>, i: int, j: int)
    requires 0 <= i < j < |s|
    requires SameSide(s[i], s[j])
    ensures (if s[i].width > s[j].width then s[i] else s[j]) !in Survivors(s)
  {
    LoserMarked(s, i, j);
    FilterMembership(s, UnmarkedFn(s), if s[i].width > s[j].width then s[i] else s[j]);
  }

  /**
   * An opposite-side share, looked at only when there is no same-side share,
   * removes the armor with the strictly larger error, and the later one on a tie.
   */
  lemma OppositeSideTieBreak(s: seq<Armor>, i: int, j: int)
    requires 0 <= i < j < |s|
    requires !SameSide(s[i], s[j]) && OppositeSide(s[i], s[j])
    ensures (if s[i].error > s[j].error then s[i] else s[j]) !in Survivors(s)
  {
    LoserMarked(s, i, j);
    FilterMembership(s, UnmarkedFn(s), if s[i].error > s[j].error then s[i] else s[j]);
  }

  // ---------------------------------------------------------------------------
  // eraseFakeArmors
  // ---------------------------------------------------------------------------

  function IsKnownFn(): Armor -> bool
  {
    (a: Armor) => a.robotType != Unknown
  }

  /** Removes the armors whose robot type is unknown, keeping the others in order. */
  method EraseFakeArmors(armors: seq<Armor>) returns (result: seq<Armor>)
    ensures result == Filter(armors, IsKnownFn())
  {
    result := [];
    for k := 0 to |armors|
      invariant result == Filter(armors[..k], IsKnownFn())
    {
      FilterPrefixStep(armors, k, IsKnownFn());
      if armors[k].robotType != Unknown {
        result := result + [armors[k]];
      }
    }
    assert armors[..|armors|] == armors;
  }

  /** An armor survives `eraseFakeArmors` exactly when it was there and its type is known. */
  lemma EraseFakeArmorsExactly(armors: seq<Armor>, a: Armor)
    ensures a in Filter(armors, IsKnownFn()) <==> a in armors && a.robotType != Unknown
  {
    FilterMembership(armors, IsKnownFn(), a);
  }
}
