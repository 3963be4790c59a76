/** `Solution::two_sum` (leetcode/src/two_sum.rs): every pair of positions
    whose numbers add up to the target, flattened into one list
    `[i0, j0, i1, j1, ...]`, in the order the nested loops meet them. */
module TwoSum {
  import opened Common

  /** The pairs (i, j) with i < j < m whose numbers add up to `target`, for a fixed i. */
  function RowPairs(nums: seq<int>, target: int, i: nat, m: nat): seq<(nat, nat)>
    requires i < |nums| && m <= |nums|
    decreases m
  {
    if m <= i + 1 then []
    else RowPairs(nums, target, i, m - 1) + (if nums[i] + nums[m - 1] == target then [(i, m - 1)] else [])
  }

  /** All matching pairs whose first position is below n, in loop order. */
  function PairsBefore(nums: seq<int>, target: int, n: nat): seq<(nat, nat)>
    requires n <= |nums|
    decreases n
  {
    if n == 0 then [] else PairsBefore(nums, target, n - 1) + RowPairs(nums, target, n - 1, |nums|)
  }

  function AllPairs(nums: seq<int>, target: int): seq<(nat, nat)>
  {
    PairsBefore(nums, target, |nums|)
  }

  /** The pairs written out one position after the other. */
  function Flatten(ps: seq<(nat, nat)>): seq<int>
    decreases |ps|
  {
    if ps == [] then [] else Flatten(ps[..|ps| - 1]) + [ps[|ps| - 1].0, ps[|ps| - 1].1]
  }

  lemma {:induction false} FlattenSpec(ps: seq<(nat, nat)>)
    ensures |Flatten(ps)| == 2 * |ps|
    ensures forall k :: 0 <= k < |ps| ==> Flatten(ps)[2 * k] == ps[k].0 && Flatten(ps)[2 * k + 1] == ps[k].1
    decreases |ps|
  {
    if ps != [] {
      FlattenSpec(ps[..|ps| - 1]);
    }
  }

  lemma FlattenSnoc(ps: seq<(nat, nat)>, p: (nat, nat))
    ensures Flatten(ps + [p]) == Flatten(ps) + [p.0, p.1]
  {
    assert (ps + [p])[..|ps|] == ps;
  }

  lemma RowStep(found: seq<(nat, nat)>, nums: seq<int>, target: int, i: nat, j: nat)
    requires i < j < |nums|
    ensures found + RowPairs(nums, target, i, j + 1) ==
            if nums[i] + nums[j] == target then found + RowPairs(nums, target, i, j) + [(i, j)]
            else found + RowPairs(nums, target, i, j)
  {
  }

  /** Adding the numbers at any two positions stays within an `i32`. */
  predicate SumsFit(nums: seq<int>)
  {
    forall i: nat, j: nat :: i < j < |nums| ==> IsI32(PairSum(nums, i, j))
  }

  function PairSum(nums: seq<int>, i: nat, j: nat): int
    requires i < j < |nums|
  {
    nums[i] + nums[j]
  }

  /** `two_sum`. */
  method TwoSum(nums: seq<i32>, target: i32) returns (result: seq<int>)
    requires |nums| <= I32_MAX && SumsFit(nums)
    ensures result == Flatten(AllPairs(nums, target))
  {
    result := [];
    ghost var ps: seq<(nat, nat)> := [];
    var i: nat := 0;
    while i < |nums|
      invariant i <= |nums|
      invariant ps == PairsBefore(nums, target, i)
      invariant result == Flatten(ps)
    {
      result := ScanRow(nums, target, i, ps, result);
      ps := ps + RowPairs(nums, target, i, |nums|);
      i := i + 1;
    }
  }

  /** The inner loop of `two_sum`: appends the matches (i, j) for every
      j after i. */
  method ScanRow(nums: seq<i32>, target: i32, i: nat, ghost found: seq<(nat, nat)>, prefix: seq<int>)
    returns (result: seq<int>)
    requires i < |nums| <= I32_MAX && SumsFit(nums)
    requires prefix == Flatten(found)
    ensures result == Flatten(found + RowPairs(nums, target, i, |nums|))
  {
    result := prefix;
    ghost var ps := found;
    assert found + RowPairs(nums, target, i, i + 1) == found;
    var j: nat := i + 1;
    while j < |nums|
      invariant i < j <= |nums|
      invariant ps == found + RowPairs(nums, target, i, j)
      invariant result == Flatten(ps)
    {
      // neither the sum nor the two casts to `i32` overflow
      assert IsI32(PairSum(nums, i, j)) && IsI32(i) && IsI32(j);
      RowStep(found, nums, target, i, j);
      if nums[i] + nums[j] == target {
        FlattenSnoc(ps, (i, j));
        ps := ps + [(i, j)];
        result := result + [i, j];
      }
      j := j + 1;
    }
  }

  // ---------------------------------------------------------------------
  // Properties

  predicate Matches(nums: seq<int>, target: int, p: (nat, nat))
  {
    p.0 < p.1 < |nums| && nums[p.0] + nums[p.1] == target
  }

  /** Every pair of `ps` starts at i, ends below m and matches. */
  predicate RowSound(nums: seq<int>, target: int, ps: seq<(nat, nat)>, i: nat, m: nat)
  {
    forall a :: 0 <= a < |ps| ==> ps[a].0 == i && ps[a].1 < m && Matches(nums, target, ps[a])
  }

  lemma {:induction false} RowPairsSound(nums: seq<int>, target: int, i: nat, m: nat)
    requires i < |nums| && m <= |nums|
    ensures RowSound(nums, target, RowPairs(nums, target, i, m), i, m)
    decreases m
  {
    if m > i + 1 {
      RowPairsSound(nums, target, i, m - 1);
      var prev := RowPairs(nums, target, i, m - 1);
      var extra := if nums[i] + nums[m - 1] == target then [(i, m - 1)] else [];
      var ps := RowPairs(nums, target, i, m);
      assert ps == prev + extra;
      forall a | 0 <= a < |ps| ensures ps[a].0 == i && ps[a].1 < m && Matches(nums, target, ps[a]) {
        if a < |prev| {
          assert ps[a] == prev[a];
        } else {
          assert ps[a] == extra[a - |prev|];
        }
      }
    }
  }

  lemma {:induction false} RowPairsComplete(nums: seq<int>, target: int, i: nat, j: nat, m: nat)
    requires i < j < m <= |nums| && nums[i] + nums[j] == target
    ensures (i, j) in RowPairs(nums, target, i, m)
    decreases m
  {
    var last: nat := m - 1;
    var prev := RowPairs(nums, target, i, last);
    var extra := if nums[i] + nums[last] == target then [(i, last)] else [];
    assert RowPairs(nums, target, i, m) == prev + extra;
    if j < last {
      RowPairsComplete(nums, target, i, j, m - 1);
    } else {
      assert extra == [(i, j)];
    }
  }

  predicate SecondsIncreasing(ps: seq<(nat, nat)>)
  {
    forall a, b :: 0 <= a < b < |ps| ==> ps[a].1 < ps[b].1
  }

  lemma {:induction false} RowPairsOrdered(nums: seq<int>, target: int, i: nat, m: nat)
    requires i < |nums| && m <= |nums|
    ensures SecondsIncreasing(RowPairs(nums, target, i, m))
    decreases m
  {
    if m > i + 1 {
      RowPairsOrdered(nums, target, i, m - 1);
      RowPairsSound(nums, target, i, m - 1);
      var prev := RowPairs(nums, target, i, m - 1);
      var extra := if nums[i] + nums[m - 1] == target then [(i, m - 1)] else [];
      var ps := RowPairs(nums, target, i, m);
      assert ps == prev + extra;
      forall a, b | 0 <= a < b < |ps| ensures ps[a].1 < ps[b].1 {
        assert ps[a] == prev[a];
        if b < |prev| {
          assert ps[b] == prev[b];
        } else {
          assert ps[b] == extra[b - |prev|] == (i, m - 1);
        }
      }
    }
  }

  /** Every pair of `ps` starts below n and matches. */
  predicate AllSound(nums: seq<int>, target: int, ps: seq<(nat, nat)>, n: nat)
  {
    forall a :: 0 <= a < |ps| ==> ps[a].0 < n && Matches(nums, target, ps[a])
  }

  /** Every pair listed matches: its positions are in order and in range,
      and their numbers add up to the target. */
  lemma {:induction false} PairsSound(nums: seq<int>, target: int, n: nat)
    requires n <= |nums|
    ensures AllSound(nums, target, PairsBefore(nums, target, n), n)
    decreases n
  {
    if n > 0 {
      PairsSound(nums, target, n - 1);
      RowPairsSound(nums, target, n - 1, |nums|);
      var front, row := PairsBefore(nums, target, n - 1), RowPairs(nums, target, n - 1, |nums|);
      var ps := PairsBefore(nums, target, n);
      assert ps == front + row;
      forall a | 0 <= a < |ps| ensures ps[a].0 < n && Matches(nums, target, ps[a]) {
        if a < |front| {
          assert ps[a] == front[a] && front[a].0 < n - 1 && Matches(nums, target, front[a]);
        } else {
          var b := a - |front|;
          assert ps[a] == row[b] && row[b].0 == n - 1 && Matches(nums, target, row[b]);
        }
      }
    }
  }

  /** Every matching pair is listed: the search does not stop at the first. */
  lemma {:induction false} PairsComplete(nums: seq<int>, target: int, n: nat, i: nat, j: nat)
    requires n <= |nums| && i < n && i < j < |nums| && nums[i] + nums[j] == target
    ensures (i, j) in PairsBefore(nums, target, n)
    decreases n
  {
    var front, row := PairsBefore(nums, target, n - 1), RowPairs(nums, target, n - 1, |nums|);
    assert PairsBefore(nums, target, n) == front + row;
    if i < n - 1 {
      PairsComplete(nums, target, n - 1, i, j);
      InLeft(front, row, (i, j));
    } else {
      RowPairsComplete(nums, target, i, j, |nums|);
      InRight(front, row, (i, j));
    }
  }

  lemma InLeft(front: seq<(nat, nat)>, row: seq<(nat, nat)>, p: (nat, nat))
    requires p in front
    ensures p in front + row
  {
  }

  lemma InRight(front: seq<(nat, nat)>, row: seq<(nat, nat)>, p: (nat, nat))
    requires p in row
    ensures p in front + row
  {
  }

  predicate LexLess(p: (nat, nat), q: (nat, nat))
  {
    p.0 < q.0 || (p.0 == q.0 && p.1 < q.1)
  }

  predicate LexOrdered(ps: seq<(nat, nat)>)
  {
    forall a, b :: 0 <= a < b < |ps| ==> LexLess(ps[a], ps[b])
  }

  /** The pairs come in increasing lexicographic order, so none repeats. */
  lemma {:induction false} PairsOrdered(nums: seq<int>, target: int, n: nat)
    requires n <= |nums|
    ensures LexOrdered(PairsBefore(nums, target, n))
    decreases n
  {
    if n > 0 {
      var front, row := PairsBefore(nums, target, n - 1), RowPairs(nums, target, n - 1, |nums|);
      PairsOrdered(nums, target, n - 1);
      PairsFirsts(nums, target, n - 1);
      RowFirsts(nums, target, n - 1, |nums|);
      RowPairsOrdered(nums, target, n - 1, |nums|);
      OrderedConcat(front, row, n - 1);
    }
  }

  predicate FirstsBelow(ps: seq<(nat, nat)>, k: nat)
  {
    forall a :: 0 <= a < |ps| ==> ps[a].0 < k
  }

  predicate FirstsAre(ps: seq<(nat, nat)>, k: nat)
  {
    forall a :: 0 <= a < |ps| ==> ps[a].0 == k
  }

  lemma PairsFirsts(nums: seq<int>, target: int, n: nat)
    requires n <= |nums|
    ensures FirstsBelow(PairsBefore(nums, target, n), n)
  {
    PairsSound(nums, target, n);
  }

  lemma RowFirsts(nums: seq<int>, target: int, i: nat, m: nat)
    requires i < |nums| && m <= |nums|
    ensures FirstsAre(RowPairs(nums, target, i, m), i)
  {
    RowPairsSound(nums, target, i, m);
  }

  /** Pairs whose first positions are all below k, followed by ordered pairs
      whose first position is k, stay ordered. */
  lemma OrderedConcat(front: seq<(nat, nat)>, row: seq<(nat, nat)>, k: nat)
    requires LexOrdered(front) && FirstsBelow(front, k)
    requires SecondsIncreasing(row) && FirstsAre(row, k)
    ensures LexOrdered(front + row)
  {
    var ps := front + row;
    forall a, b | 0 <= a < b < |ps| ensures LexLess(ps[a], ps[b]) {
      if b < |front| {
        assert ps[a] == front[a] && ps[b] == front[b];
      } else if a < |front| {
        assert ps[a] == front[a] && ps[b] == row[b - |front|];
      } else {
        assert ps[a] == row[a - |front|] && ps[b] == row[b - |front|];
      }
    }
  }

  /** The result of `two_sum` holds whole pairs: (r[2k], r[2k+1]). */
  lemma ResultIsPairs(nums: seq<int>, target: int)
    ensures |Flatten(AllPairs(nums, target))| == 2 * |AllPairs(nums, target)|
  {
    FlattenSpec(AllPairs(nums, target));
  }

  /** Every pair in the result is two distinct positions, in order, whose
      numbers add up to the target. */
  lemma TwoSumSound(nums: seq<int>, target: int)
    ensures var r := Flatten(AllPairs(nums, target));
            forall k :: 0 <= k < |r| / 2 ==>
              0 <= r[2 * k] < r[2 * k + 1] < |nums| && nums[r[2 * k]] + nums[r[2 * k + 1]] == target
  {
    var ps := AllPairs(nums, target);
    var r := Flatten(ps);
    FlattenSpec(ps);
    PairsSound(nums, target, |nums|);
    forall k | 0 <= k < |r| / 2
      ensures 0 <= r[2 * k] < r[2 * k + 1] < |nums| && nums[r[2 * k]] + nums[r[2 * k + 1]] == target
    {
      assert Matches(nums, target, ps[k]);
    }
  }

  /** Every matching pair of positions is in the result. */
  lemma TwoSumComplete(nums: seq<int>, target: int, i: nat, j: nat)
    requires i < j < |nums| && nums[i] + nums[j] == target
    ensures var r := Flatten(AllPairs(nums, target));
            exists k :: 0 <= k < |r| / 2 && r[2 * k] == i && r[2 * k + 1] == j
  {
    var ps := AllPairs(nums, target);
    var r := Flatten(ps);
    FlattenSpec(ps);
    PairsComplete(nums, target, |nums|, i, j);
    var k :| 0 <= k < |ps| && ps[k] == (i, j);
    assert r[2 * k] == i && r[2 * k + 1] == j;
  }

  /** The pairs come in increasing lexicographic order. */
  lemma TwoSumOrdered(nums: seq<int>, target: int)
    ensures var r := Flatten(AllPairs(nums, target));
            forall k, l :: 0 <= k < l < |r| / 2 ==>
              r[2 * k] < r[2 * l] || (r[2 * k] == r[2 * l] && r[2 * k + 1] < r[2 * l + 1])
  {
    var ps := AllPairs(nums, target);
    var r := Flatten(ps);
    FlattenSpec(ps);
    PairsOrdered(nums, target, |nums|);
    forall k, l | 0 <= k < l < |r| / 2
      ensures r[2 * k] < r[2 * l] || (r[2 * k] == r[2 * l] && r[2 * k + 1] < r[2 * l + 1])
    {
      assert LexLess(ps[k], ps[l]);
    }
  }

  /** No matching pair: an empty result. */
  lemma TwoSumEmpty(nums: seq<int>, target: int)
    requires forall i, j :: 0 <= i < j < |nums| ==> nums[i] + nums[j] != target
    ensures Flatten(AllPairs(nums, target)) == []
  {
    var ps := AllPairs(nums, target);
    PairsSound(nums, target, |nums|);
  }

  /** The three cases of the unit test. */
  lemma Examples()
    ensures Flatten(AllPairs([2, 7, 11, 15], 9)) == [0, 1]
    ensures Flatten(AllPairs([3, 2, 4], 6)) == [1, 2]
    ensures Flatten(AllPairs([3, 3], 6)) == [0, 1]
  {
    assert RowPairs([2, 7, 11, 15], 9, 0, 4) == [(0, 1)];
    assert PairsBefore([2, 7, 11, 15], 9, 4) == [(0, 1)];
    assert Flatten([(0, 1)]) == [0, 1] by { assert [(0, 1)][..0] == []; }
    assert PairsBefore([3, 2, 4], 6, 3) == [(1, 2)];
    assert Flatten([(1, 2)]) == [1, 2] by { assert [(1, 2)][..0] == []; }
    assert PairsBefore([3, 3], 6, 2) == [(0, 1)];
  }
}
