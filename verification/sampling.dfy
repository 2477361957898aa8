/**
 * The sample filter and downsampler of the chart (LineChart.tsx:209-238): drop
 * negative readings, then keep every k-th sample with `k = ceil(n / cap)`.
 */
module Sampling {

  /** One chart sample: its time as epoch milliseconds and its reading. */
  datatype Sample = Sample(time: int, value: real)

  /** `data.filter(d => d.value >= 0)`: negative readings mark missing data. */
  function FilterNonNegative(data: seq<Sample>): (r: seq<Sample>)
    ensures |r| <= |data|
    ensures forall s :: s in r <==> s in data && s.value >= 0.0
  {
    if |data| == 0 then []
    else
      var last := data[|data| - 1];
      assert data == data[..|data| - 1] + [last];
      FilterNonNegative(data[..|data| - 1]) + (if last.value >= 0.0 then [last] else [])
  }

  /** Filtering keeps the relative order of the samples: it distributes over concatenation. */
  lemma {:induction false} FilterDistributes(a: seq<Sample>, b: seq<Sample>)
    ensures FilterNonNegative(a + b) == FilterNonNegative(a) + FilterNonNegative(b)
    decreases |b|
  {
    if |b| == 0 {
      assert a + b == a;
    } else {
      var b' := b[..|b| - 1];
      assert (a + b)[..|a + b| - 1] == a + b';
      FilterDistributes(a, b');
    }
  }

  /** Nothing survives the filter exactly when every reading is negative. */
  lemma FilterEmptyIffAllNegative(data: seq<Sample>)
    ensures FilterNonNegative(data) == [] <==> forall i :: 0 <= i < |data| ==> data[i].value < 0.0
  {
    if FilterNonNegative(data) != [] {
      var s := FilterNonNegative(data)[0];
      assert s in FilterNonNegative(data);
    } else {
      forall i | 0 <= i < |data|
        ensures data[i].value < 0.0
      {
        assert data[i] in data;
      }
    }
  }

  /** `Math.ceil(n / c)` on whole numbers: the least `q` with `q * c >= n`. */
  function CeilDiv(n: nat, c: nat): (q: nat)
    requires c > 0
    ensures q * c >= n
    ensures q == 0 || (q - 1) * c < n
  {
    var q := (n + c - 1) / c;
    assert q * c + (n + c - 1) % c == n + c - 1;
    q
  }

  /** Adding one index grows `ceil(m / k)` exactly when `m` is a multiple of `k`. */
  lemma CeilDivStep(m: nat, k: nat)
    requires k > 0
    ensures m % k == 0 ==> CeilDiv(m + 1, k) == CeilDiv(m, k) + 1 && m == CeilDiv(m, k) * k
    ensures m % k != 0 ==> CeilDiv(m + 1, k) == CeilDiv(m, k)
  {
    var q, r := m / k, m % k;
    var qk := q * k;
    assert m == qk + r && 0 <= r < k;
    assert (q + 1) * k == qk + k;
    if r == 0 {
      assert q == 0 || (q - 1) * k == qk - k;
      CeilDivUnique(m, k, q);
      CeilDivUnique(m + 1, k, q + 1);
    } else {
      CeilDivUnique(m, k, q + 1);
      CeilDivUnique(m + 1, k, q + 1);
    }
  }

  /** The ceiling is the only number with its two defining properties. */
  lemma CeilDivUnique(n: nat, c: nat, q: nat)
    requires c > 0 && q * c >= n && (q == 0 || (q - 1) * c < n)
    ensures CeilDiv(n, c) == q
  {
    var p := CeilDiv(n, c);
    if p < q {
      assert p <= q - 1;
      MulMonotone(p, q - 1, c);
    } else if p > q {
      assert q <= p - 1;
      MulMonotone(q, p - 1, c);
    }
  }

  lemma MulMonotone(a: nat, b: nat, c: nat)
    requires a <= b
    ensures a * c <= b * c
  {
  }

  /**
   * The decimation stride for `n` samples and a cap `cap < n`. A cap of 0 makes
   * JavaScript's `Math.ceil(n / 0)` infinite, and `i % Infinity == 0` holds only
   * for `i == 0`; a stride of `n` keeps the same single index.
   */
  function Stride(n: nat, cap: nat): (k: nat)
    requires n > cap
    ensures k >= 1
    ensures cap >= 1 ==> k * cap >= n && (k - 1) * cap < n
    ensures cap == 0 ==> k == n
  {
    if cap == 0 then n else CeilDiv(n, cap)
  }

  /** `xs.filter((_, i) => i % k === 0)`, folded over prefixes as the filter visits them. */
  function KeepEvery<T>(xs: seq<T>, k: nat): (r: seq<T>)
    requires k >= 1
    ensures |r| == CeilDiv(|xs|, k)
    ensures forall j :: 0 <= j < |r| ==> j * k < |xs| && r[j] == xs[j * k]
  {
    if |xs| == 0 then []
    else
      var m := |xs| - 1;
      var prev := KeepEvery(xs[..m], k);
      KeepEveryStep(xs, k, prev);
      if m % k == 0 then prev + [xs[m]] else prev
  }

  /** One more index extends the kept elements exactly when it is a multiple of `k`. */
  lemma KeepEveryStep<T>(xs: seq<T>, k: nat, prev: seq<T>)
    requires k >= 1 && |xs| > 0
    requires |prev| == CeilDiv(|xs| - 1, k)
    requires forall j :: 0 <= j < |prev| ==> j * k < |xs| - 1 && prev[j] == xs[..|xs| - 1][j * k]
    ensures var r := if (|xs| - 1) % k == 0 then prev + [xs[|xs| - 1]] else prev;
      && |r| == CeilDiv(|xs|, k)
      && forall j :: 0 <= j < |r| ==> j * k < |xs| && r[j] == xs[j * k]
  {
    var m := |xs| - 1;
    CeilDivStep(m, k);
    var r := if m % k == 0 then prev + [xs[m]] else prev;
    forall j | 0 <= j < |r|
      ensures j * k < |xs| && r[j] == xs[j * k]
    {
      if j < |prev| {
        assert r[j] == prev[j] == xs[..m][j * k];
      } else {
        assert j == |prev| && m == j * k;
      }
    }
  }

  /**
   * `r` holds exactly the elements of `xs` at indices `0, k, 2k, ...`, in order:
   * an order-preserving subsequence that misses no multiple of `k`.
   */
  ghost predicate EveryKth<T>(r: seq<T>, xs: seq<T>, k: nat)
  {
    && k >= 1
    && |r| == CeilDiv(|xs|, k)
    && forall j :: 0 <= j < |r| ==> j * k < |xs| && r[j] == xs[j * k]
  }

  /** The stride actually used: 1 when the list already fits under the cap. */
  function DownsampleStride(n: nat, cap: nat): (k: nat)
    ensures k >= 1
  {
    if n <= cap then 1 else Stride(n, cap)
  }

  /** LineChart.tsx:230-232: pass short lists through, decimate long ones. */
  function Downsample<T>(xs: seq<T>, cap: nat): (r: seq<T>)
    ensures |xs| <= cap ==> r == xs
    ensures EveryKth(r, xs, DownsampleStride(|xs|, cap))
    ensures |r| <= |xs|
    ensures |xs| > 0 ==> |r| > 0 && r[0] == xs[0]
    ensures cap >= 1 ==> |r| <= cap
    ensures cap == 0 && |xs| > 0 ==> r == [xs[0]]
  {
    if |xs| <= cap then
      assert CeilDiv(|xs|, 1) == |xs| by { CeilDivUnique(|xs|, 1, |xs|); }
      xs
    else
      var k := Stride(|xs|, cap);
      var r := KeepEvery(xs, k);
      DecimatedFitsCap(|xs|, cap);
      CeilDivAtMost(|xs|, k);
      if cap == 0 then
        assert CeilDiv(|xs|, k) == 1 by { CeilDivUnique(|xs|, k, 1); }
        r
      else
        r
  }

  /** `ceil(n / k) <= n` for every positive stride. */
  lemma CeilDivAtMost(n: nat, k: nat)
    requires k >= 1
    ensures CeilDiv(n, k) <= n
  {
    var q := CeilDiv(n, k);
    if q > n {
      MulMonotone(n, q - 1, k);
      MulMonotone(1, k, n);
    }
  }

  /** With stride `ceil(n / cap)` at most `cap` indices below `n` are multiples of it. */
  lemma DecimatedFitsCap(n: nat, cap: nat)
    requires n > cap
    ensures cap >= 1 ==> CeilDiv(n, Stride(n, cap)) <= cap
  {
    if cap == 0 {
      return;
    }
    var k := Stride(n, cap);
    var q := CeilDiv(n, k);
    if q > cap {
      MulMonotone(cap, q - 1, k);
    }
  }

  /**
   * With a cap of at least 2, decimation never shrinks two or more samples to
   * one, so the chart keeps a path whenever two samples pass the filter.
   */
  lemma DownsampleKeepsTwo<T>(xs: seq<T>, cap: nat)
    requires cap >= 2 && |xs| >= 2
    ensures |Downsample(xs, cap)| >= 2
  {
    var n := |xs|;
    if n > cap {
      var k := Stride(n, cap);
      assert k < n by {
        if k >= n {
          MulMonotone(n - 1, k - 1, cap);
          MulMonotone(2, cap, n - 1);
        }
      }
      var q := CeilDiv(n, k);
      assert q >= 2 by {
        if q < 2 {
          MulMonotone(q, 1, k);
        }
      }
    }
  }

  /** With a cap of 1 two samples decimate to one (stride 2). */
  lemma CapOneKeepsOne()
    ensures |Downsample([Sample(0, 1.0), Sample(1, 2.0)], 1)| == 1
  {
    var xs := [Sample(0, 1.0), Sample(1, 2.0)];
    assert Stride(2, 1) == 2 by { CeilDivUnique(2, 1, 2); }
    assert CeilDiv(2, 2) == 1 by { CeilDivUnique(2, 2, 1); }
  }
}
