/**
 * Axis extents of the line chart (`calculateExtent` and `calculateYExtent` in
 * LineChart.tsx): one linear min/max pass, constant-series padding, 5 % padding,
 * and the clamp of the value axis to non-negative numbers.
 */
module Extent {

  /** A closed interval `[lo, hi]` used to scale one axis. */
  datatype Range = Range(lo: real, hi: real)

  function Abs(x: real): (r: real)
    ensures r >= 0.0 && (r == x || r == -x)
  {
    if x < 0.0 then -x else x
  }

  /** `Math.max` on two numbers. */
  function MaxOf(a: real, b: real): (r: real)
    ensures r >= a && r >= b && (r == a || r == b)
  {
    if a < b then b else a
  }

  /** The smallest element, folded from the left as the scan does. */
  function Min(s: seq<real>): (m: real)
    requires |s| > 0
    ensures m in s
    ensures forall i :: 0 <= i < |s| ==> m <= s[i]
  {
    if |s| == 1 then s[0]
    else
      var m' := Min(s[..|s| - 1]);
      assert s[..|s| - 1] <= s;
      if s[|s| - 1] < m' then s[|s| - 1] else m'
  }

  /** The largest element, folded from the left as the scan does. */
  function Max(s: seq<real>): (m: real)
    requires |s| > 0
    ensures m in s
    ensures forall i :: 0 <= i < |s| ==> s[i] <= m
  {
    if |s| == 1 then s[0]
    else
      var m' := Max(s[..|s| - 1]);
      assert s[..|s| - 1] <= s;
      if s[|s| - 1] > m' then s[|s| - 1] else m'
  }

  /** Every element of `s` equals `v`. */
  predicate AllEqual(s: seq<real>, v: real)
  {
    forall i :: 0 <= i < |s| ==> s[i] == v
  }

  /** The single pass of LineChart.tsx:30-36: running minimum and maximum. */
  method ScanMinMax(nums: seq<real>) returns (min: real, max: real)
    requires |nums| > 0
    ensures min in nums && max in nums
    ensures forall i :: 0 <= i < |nums| ==> min <= nums[i] <= max
    ensures min == Min(nums) && max == Max(nums)
  {
    min := nums[0];
    max := nums[0];
    var i := 0;
    while i < |nums|
      invariant 0 <= i <= |nums|
      invariant min in nums && max in nums
      invariant i == 0 ==> min == nums[0] && max == nums[0]
      invariant i > 0 ==> min == Min(nums[..i]) && max == Max(nums[..i])
    {
      var n := nums[i];
      assert nums[..i + 1][..i] == nums[..i];
      if n < min {
        min := n;
      }
      if n > max {
        max := n;
      }
      i := i + 1;
    }
    assert nums[..|nums|] == nums;
  }

  /** A series is constant exactly when its minimum equals its maximum. */
  lemma ConstantIffMinIsMax(nums: seq<real>)
    requires |nums| > 0
    ensures Min(nums) == Max(nums) <==> AllEqual(nums, nums[0])
  {
    if Min(nums) == Max(nums) {
      forall i | 0 <= i < |nums|
        ensures nums[i] == nums[0]
      {
        assert Min(nums) <= nums[i] <= Max(nums);
        assert Min(nums) <= nums[0] <= Max(nums);
      }
    } else {
      var a :| 0 <= a < |nums| && nums[a] == Min(nums);
      var b :| 0 <= b < |nums| && nums[b] == Max(nums);
      assert nums[a] != nums[b];
    }
  }

  /** The padded range of the time axis (LineChart.tsx:27-45). */
  function CalculateExtent(nums: seq<real>): (e: Range)
    ensures |nums| == 0 ==> e == Range(0.0, 1.0)
    ensures e.lo < e.hi
    ensures forall i :: 0 <= i < |nums| ==> e.lo < nums[i] < e.hi
    ensures |nums| > 0 && Min(nums) == Max(nums) ==>
      && e.lo + e.hi == 2.0 * nums[0]
      && e.hi - e.lo == MaxOf(1.0, Abs(nums[0])) / 5.0
    ensures |nums| > 0 && Min(nums) < Max(nums) ==>
      && Min(nums) - e.lo == (Max(nums) - Min(nums)) / 20.0
      && e.hi - Max(nums) == (Max(nums) - Min(nums)) / 20.0
  {
    if |nums| == 0 then Range(0.0, 1.0)
    else
      var min, max := Min(nums), Max(nums);
      if min == max then
        var delta := MaxOf(1.0, Abs(min)) * 0.1;
        Range(min - delta, max + delta)
      else
        var padding := (max - min) * 0.05;
        Range(min - padding, max + padding)
  }

  /**
   * The padded range of the value axis (LineChart.tsx:47-66): the same padding as
   * the time axis with the lower bound clamped to zero.
   */
  function CalculateYExtent(nums: seq<real>): (e: Range)
    ensures e.lo >= 0.0
    ensures e.hi == CalculateExtent(nums).hi
    ensures e.lo == MaxOf(0.0, CalculateExtent(nums).lo)
    ensures (forall i :: 0 <= i < |nums| ==> nums[i] >= 0.0) ==>
      && e.lo < e.hi
      && forall i :: 0 <= i < |nums| ==> e.lo <= nums[i] < e.hi
  {
    if |nums| == 0 then Range(0.0, 1.0)
    else
      var min, max := Min(nums), Max(nums);
      if min == max then
        var delta := MaxOf(1.0, Abs(min)) * 0.1;
        Range(MaxOf(0.0, min - delta), max + delta)
      else
        var padding := (max - min) * 0.05;
        Range(MaxOf(0.0, min - padding), max + padding)
  }

  /**
   * A constant series `v` is padded by `max(1, |v|) / 10` on each side; for
   * `|v| >= 1` that is a tenth of `|v|`, below that a fixed 0.1.
   */
  lemma ConstantSeriesExtent(nums: seq<real>, v: real)
    requires |nums| > 0 && AllEqual(nums, v)
    ensures CalculateExtent(nums) == Range(v - MaxOf(1.0, Abs(v)) / 10.0, v + MaxOf(1.0, Abs(v)) / 10.0)
    ensures Abs(v) >= 1.0 ==> CalculateExtent(nums) == Range(v - Abs(v) / 10.0, v + Abs(v) / 10.0)
    ensures Abs(v) < 1.0 ==> CalculateExtent(nums) == Range(v - 0.1, v + 0.1)
  {
    ConstantIffMinIsMax(nums);
    assert nums[0] == v;
    assert Min(nums) == v && Max(nums) == v;
  }
}
