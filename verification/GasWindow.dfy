/**
 * The statistics of a sliding window of gas values, computed naively: what the circular buffer's
 * incremental sum, lazily repaired maximum and median are measured against.
 */
module GasWindow {
  import opened Basics
  import opened NatSeqs

  function SaturatingAdd(a: nat, b: nat): nat { if a + b <= U64_MAX then a + b else U64_MAX }

  /** The last `c` values of a history. */
  function Last(h: seq<nat>, c: nat): (w: seq<nat>)
    requires c <= |h|
    ensures |w| == c
  {
    h[|h| - c..]
  }

  /** The window is all that later windows depend on, so a batch may be split anywhere. */
  lemma SplitBatch(h: seq<nat>, a: seq<nat>, b: seq<nat>, c: nat)
    requires c <= |h|
    ensures Last(h + (a + b), c) == Last(Last(h + a, c) + b, c)
    ensures Last(h + a + b, c) == Last(h + (a + b), c)
  {
    assert h + a + b == h + (a + b);
  }

  // ----- sum -----

  /** The saturating sum of a sequence, from the left. */
  function SaturatingTotal(s: seq<nat>): nat {
    if s == [] then 0 else SaturatingAdd(SaturatingTotal(s[..|s| - 1]), s[|s| - 1])
  }

  lemma {:induction false} SaturatingTotalIsMin(s: seq<nat>)
    ensures SaturatingTotal(s) == if Total(s) <= U64_MAX then Total(s) else U64_MAX
    decreases |s|
  {
    if s != [] {
      SaturatingTotalIsMin(s[..|s| - 1]);
    }
  }

  /** The window after one more value: the oldest one leaves. */
  function Slide(w: seq<nat>, v: nat): (r: seq<nat>)
    requires w != []
    ensures |r| == |w|
  {
    w[1..] + [v]
  }

  lemma SlideTotal(w: seq<nat>, v: nat)
    requires w != []
    ensures Total(Slide(w, v)) == Total(w) + v - w[0]
  {
    assert w == [w[0]] + w[1..];
    TotalAppend([w[0]], w[1..]);
    TotalAppend(w[1..], [v]);
    assert Total([w[0]]) == w[0] && Total([v]) == v;
  }

  /** The incremental sum after one insertion: saturating add, then saturating subtract. */
  function SumInsert(sum: nat, v: nat, oldest: nat): nat {
    SaturatingSub(SaturatingAdd(sum, v), oldest)
  }

  /** The incremental sum after inserting the values one by one into window `w`. */
  function SumAfter(w: seq<nat>, sum: nat, vs: seq<nat>): nat
    requires w != []
    decreases |vs|
  {
    if vs == [] then sum
    else
      var front := vs[..|vs| - 1];
      SumInsert(SumAfter(w, sum, front), vs[|vs| - 1], Last(w + front, |w|)[0])
  }

  lemma SlideLast(w: seq<nat>, front: seq<nat>, v: nat)
    requires w != []
    ensures Last(w + (front + [v]), |w|) == Slide(Last(w + front, |w|), v)
  {
    assert w + (front + [v]) == (w + front) + [v];
  }

  /** A window and its incremental sum. */
  datatype Summed = Summed(window: seq<nat>, sum: nat)

  function InsertOne(s: Summed, v: nat): (r: Summed)
    requires s.window != []
    ensures |r.window| == |s.window|
  {
    Summed(Slide(s.window, v), SumInsert(s.sum, v, s.window[0]))
  }

  function InsertEach(s: Summed, vs: seq<nat>): (r: Summed)
    requires s.window != []
    ensures |r.window| == |s.window|
    decreases |vs|
  {
    if vs == [] then s else InsertOne(InsertEach(s, vs[..|vs| - 1]), vs[|vs| - 1])
  }

  lemma InsertNext(s: Summed, vs: seq<nat>, k: nat)
    requires s.window != [] && k < |vs|
    ensures InsertEach(s, vs[..k + 1]) == InsertOne(InsertEach(s, vs[..k]), vs[k])
  {
    assert vs[..k + 1][..k] == vs[..k];
  }

  /** Inserting one by one slides the window over all values. */
  lemma {:induction false} InsertEachIs(w: seq<nat>, sum: nat, vs: seq<nat>)
    requires w != []
    ensures InsertEach(Summed(w, sum), vs) == Summed(Last(w + vs, |w|), SumAfter(w, sum, vs))
    decreases |vs|
  {
    if vs == [] {
      assert w + vs == w;
    } else {
      var front, v := vs[..|vs| - 1], vs[|vs| - 1];
      InsertEachIs(w, sum, front);
      SlideLast(w, front, v);
      assert vs == front + [v];
    }
  }

  /** One insertion into an exact sum is exact if and only if the addition does not saturate. */
  lemma InsertExactly(w: seq<nat>, v: nat)
    requires w != [] && Total(w) <= U64_MAX
    ensures SumInsert(Total(w), v, w[0]) == Total(Slide(w, v)) <==> Total(w) + v <= U64_MAX
  {
    SlideTotal(w, v);
    HeadBelowTotal(w);
  }

  lemma HeadBelowTotal(w: seq<nat>)
    requires w != []
    ensures w[0] <= Total(w)
  {
    assert w == [w[0]] + w[1..];
    TotalAppend([w[0]], w[1..]);
    assert Total([w[0]]) == w[0];
  }

  /** In every run the incremental sum never exceeds the true one. */
  lemma {:induction false} SumNeverAbove(w: seq<nat>, sum: nat, vs: seq<nat>)
    requires w != [] && sum <= Total(w)
    ensures SumAfter(w, sum, vs) <= Total(Last(w + vs, |w|))
    decreases |vs|
  {
    if vs == [] {
      assert w + vs == w;
    } else {
      var front, v := vs[..|vs| - 1], vs[|vs| - 1];
      SumNeverAbove(w, sum, front);
      SlideLast(w, front, v);
      assert vs == front + [v];
      SlideTotal(Last(w + front, |w|), v);
      HeadBelowTotal(Last(w + front, |w|));
    }
  }

  /** The largest value such that a window of `c` of them and one more do not overflow. */
  function Limit(c: nat): nat { U64_MAX / (c + 1) }

  predicate Small(s: seq<nat>, c: nat) {
    forall i :: 0 <= i < |s| ==> s[i] <= Limit(c)
  }

  lemma DivideBounds(x: nat, c: nat, q: nat)
    requires c > 0 && q == x / c
    ensures q * c <= x < q * c + c
  {
    assert x == c * (x / c) + x % c;
    assert q * c == c * q;
  }

  /** A value is within the limit exactly when one more of it than the window holds still fits. */
  lemma LimitMeans(c: nat, v: nat)
    ensures v <= Limit(c) <==> (c + 1) * v <= U64_MAX
  {
    var q := Limit(c);
    DivideBounds(U64_MAX, c + 1, q);
    Distribute(c, v);
    Distribute(c, q);
    if v <= q {
      ProductMonotone(v, q, c);
      assert v * c == c * v && q * c == c * q;
    } else {
      ProductMonotone(q + 1, v, c + 1);
      assert (q + 1) * (c + 1) == q * (c + 1) + (c + 1);
      assert v * (c + 1) == (c + 1) * v;
    }
  }

  /** A window of small values and one more small value never reach the maximum. */
  lemma SmallFits(w: seq<nat>, v: nat)
    requires Small(w, |w|) && v <= Limit(|w|)
    ensures Total(w) + v <= U64_MAX
  {
    TotalBound(w, Limit(|w|));
    LimitMeans(|w|, Limit(|w|));
    Distribute(|w|, Limit(|w|));
  }

  /** If all values are small, the incremental sum is the true sum after every insertion. */
  lemma {:induction false} SumExact(w: seq<nat>, vs: seq<nat>)
    requires w != [] && Small(w, |w|) && Small(vs, |w|)
    ensures SumAfter(w, Total(w), vs) == Total(Last(w + vs, |w|))
    decreases |vs|
  {
    if vs == [] {
      assert w + vs == w;
    } else {
      var front, v := vs[..|vs| - 1], vs[|vs| - 1];
      SumExact(w, front);
      SmallFits(Last(w + front, |w|), v);
      SlideLast(w, front, v);
      assert vs == front + [v];
      InsertExactly(Last(w + front, |w|), v);
    }
  }

  /** No addition of the run saturates. */
  predicate NeverSaturates(w: seq<nat>, vs: seq<nat>) {
    forall k :: 0 <= k < |vs| ==> Total(Last(w + vs[..k], |w|)) + vs[k] <= U64_MAX
  }

  predicate ExactAt(w: seq<nat>, vs: seq<nat>, k: nat)
    requires w != [] && k <= |vs|
  {
    SumAfter(w, Total(w), vs[..k]) == Total(Last(w + vs[..k], |w|)) <= U64_MAX
  }

  lemma ExactNext(w: seq<nat>, vs: seq<nat>, k: nat)
    requires w != [] && k < |vs| && ExactAt(w, vs, k)
    ensures ExactAt(w, vs, k + 1) <==> Total(Last(w + vs[..k], |w|)) + vs[k] <= U64_MAX
  {
    var now := Last(w + vs[..k], |w|);
    assert vs[..k + 1] == vs[..k] + [vs[k]] && vs[..k + 1][..k] == vs[..k];
    SlideLast(w, vs[..k], vs[k]);
    InsertExactly(now, vs[k]);
    SlideTotal(now, vs[k]);
  }

  /** In a run from an exact sum, the sum is exact after every insertion if and only if no addition saturates. */
  lemma ExactThroughout(w: seq<nat>, vs: seq<nat>)
    requires w != [] && Total(w) <= U64_MAX
    ensures NeverSaturates(w, vs) <==> forall k :: 0 <= k <= |vs| ==> ExactAt(w, vs, k)
  {
    if NeverSaturates(w, vs) {
      forall k | 0 <= k <= |vs| ensures ExactAt(w, vs, k) {
        ExactUpTo(w, vs, k);
      }
    } else {
      var k :| 0 <= k < |vs| && Total(Last(w + vs[..k], |w|)) + vs[k] > U64_MAX;
      if ExactAt(w, vs, k) {
        ExactNext(w, vs, k);
      }
    }
  }

  lemma {:induction false} ExactUpTo(w: seq<nat>, vs: seq<nat>, k: nat)
    requires w != [] && Total(w) <= U64_MAX && NeverSaturates(w, vs) && k <= |vs|
    ensures ExactAt(w, vs, k)
    decreases k
  {
    if k == 0 {
      assert w + vs[..0] == w;
    } else {
      ExactUpTo(w, vs, k - 1);
      ExactNext(w, vs, k - 1);
    }
  }

  /** The sum after a push: incremental for a short batch, computed from scratch for one that fills the window. */
  function SumPush(w: seq<nat>, sum: nat, values: seq<nat>): nat
    requires w != []
  {
    if |values| < |w| then SumAfter(w, sum, values) else SaturatingTotal(Last(w + values, |w|))
  }

  /** A push onto an exact sum gives the true sum of the new window, unless an addition saturates. */
  lemma PushExact(w: seq<nat>, values: seq<nat>)
    requires w != [] && Total(w) <= U64_MAX && NeverSaturates(w, values)
    ensures SumPush(w, Total(w), values) == Total(Last(w + values, |w|)) <= U64_MAX
  {
    ExactUpTo(w, values, |values|);
    assert values[..|values|] == values;
    SaturatingTotalIsMin(Last(w + values, |w|));
  }

  lemma NeverSaturatesSplit(w: seq<nat>, a: seq<nat>, b: seq<nat>)
    requires w != [] && NeverSaturates(w, a + b)
    ensures NeverSaturates(w, a) && NeverSaturates(Last(w + a, |w|), b)
  {
    forall k | 0 <= k < |a| ensures Total(Last(w + a[..k], |w|)) + a[k] <= U64_MAX {
      assert (a + b)[..k] == a[..k] && (a + b)[k] == a[k];
    }
    forall k | 0 <= k < |b| ensures Total(Last(Last(w + a, |w|) + b[..k], |w|)) + b[k] <= U64_MAX {
      assert (a + b)[..|a| + k] == a + b[..k] && (a + b)[|a| + k] == b[k];
      SplitBatch(w, a, b[..k], |w|);
    }
  }

  /** While no addition saturates, splitting a batch changes neither the window nor the sum, nor so the mean. */
  lemma SplitSum(w: seq<nat>, a: seq<nat>, b: seq<nat>)
    requires w != [] && Total(w) <= U64_MAX && NeverSaturates(w, a + b)
    ensures var mid := Last(w + a, |w|);
      && Last(mid + b, |w|) == Last(w + (a + b), |w|)
      && SumPush(mid, SumPush(w, Total(w), a), b) == SumPush(w, Total(w), a + b)
  {
    NeverSaturatesSplit(w, a, b);
    SplitBatch(w, a, b, |w|);
    PushExact(w, a);
    PushExact(Last(w + a, |w|), b);
    PushExact(w, a + b);
  }

  /** After an addition saturated the sum can be too low: here it is 0 for a window that holds the maximum. */
  lemma SaturationDrifts()
    ensures var vs := [U64_MAX, U64_MAX, 0];
      SumAfter([0, 0], 0, vs) == 0 && Total(Last([0, 0] + vs, 2)) == U64_MAX
  {
    var w, vs := [0, 0], [U64_MAX, U64_MAX, 0];
    assert vs[..2] == [U64_MAX, U64_MAX] && vs[..2][..1] == [U64_MAX] && vs[..2][..1][..0] == [];
    assert SumAfter(w, 0, vs[..2][..1]) == U64_MAX;
    assert SumAfter(w, 0, vs[..2]) == U64_MAX;
    var last := Last(w + vs, 2);
    assert last == [U64_MAX, 0] && last[..1] == [U64_MAX] && last[..1][..0] == [];
    assert Total(last[..1]) == U64_MAX;
  }

  // ----- maximum -----

  /** The value at `m` is a largest one. */
  predicate IsMaxAt(s: seq<nat>, m: nat) {
    m < |s| && forall i :: 0 <= i < |s| ==> s[i] <= s[m]
  }

  // ----- median -----

  /** The middle element of the sorted values, the upper one of two. */
  function Median(s: seq<nat>): nat
    requires s != []
  {
    Sorted(s)[|s| / 2]
  }

  /** `m` splits the values: at most half of them are below it, and more than half are at most it. */
  predicate Splits(s: seq<nat>, m: nat) {
    CountBelow(s, m) <= |s| / 2 < CountBelow(s, m + 1)
  }

  /** The median is the one value that splits the window. */
  lemma MedianSplits(s: seq<nat>, m: nat)
    requires s != []
    ensures m == Median(s) <==> Splits(s, m)
  {
    var r, k := Sorted(s), |s| / 2;
    CountSorted(s, m);
    CountSorted(s, m + 1);
    RankInSorted(r, k, m);
    RankInSorted(r, k, m + 1);
  }

  lemma RotationCounts(a: seq<nat>, b: seq<nat>, x: nat)
    ensures CountBelow(a + b, x) == CountBelow(b + a, x)
  {
    CountAppend(a, b, x);
    CountAppend(b, a, x);
  }

  /** The median sees only the values of the window, not where in the buffer it starts. */
  lemma MedianOfRotation(a: seq<nat>, b: seq<nat>)
    requires a + b != []
    ensures Median(a + b) == Median(b + a)
  {
    var m := Median(a + b);
    RotationCounts(a, b, m);
    RotationCounts(a, b, m + 1);
    MedianSplits(a + b, m);
    MedianSplits(b + a, m);
  }

  // ----- mean -----

  /** The reported mean: the sum plus half the length, saturating, divided by the length. */
  function MeanOf(sum: nat, length: nat): nat
    requires length > 0
  {
    SaturatingAdd(sum, length / 2) / length
  }

  /** `mean` is `total / length` rounded to the nearest integer, halves upwards. */
  predicate RoundsHalfUp(total: nat, length: nat, mean: nat) {
    2 * (mean * length) <= 2 * total + length < 2 * (mean * length + length)
  }

  lemma DivideBelow(x: nat, c: nat, bound: nat)
    requires c > 0 && x < bound * c + c
    ensures x / c <= bound
  {
    var q := x / c;
    DivideBounds(x, c, q);
    assert (bound + 1) * c == bound * c + c;
    if q > bound {
      ProductMonotone(bound + 1, q, c);
    }
  }

  /** Whatever saturation did to the sum, the mean never exceeds the maximum. */
  lemma MeanBelowMax(w: seq<nat>, sum: nat)
    requires w != [] && sum <= Total(w)
    ensures MeanOf(sum, |w|) <= Biggest(w)
  {
    var c, most := |w|, Biggest(w);
    TotalBound(w, most);
    assert most * c == c * most;
    DivideBelow(SaturatingAdd(sum, c / 2), c, most);
  }

  /** With an exact sum that leaves room for the rounding term, the mean is the true mean rounded half up. */
  lemma MeanRounds(w: seq<nat>)
    requires w != [] && Total(w) + |w| / 2 <= U64_MAX
    ensures RoundsHalfUp(Total(w), |w|, MeanOf(Total(w), |w|))
  {
    var c, x := |w|, Total(w) + |w| / 2;
    var mean := MeanOf(Total(w), c);
    DivideBounds(x, c, mean);
  }
}
