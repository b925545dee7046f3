/** Mean, maximum and median of the gas of the most recent transactions. */
module OnlineMeanModule {
  import opened GasWindow
  import opened NatSeqs
  import opened CircularBuffer

  const MAX_GAS_HISTORY: nat := 1000

  /** A full history of small values leaves room for the rounding term of the mean. */
  lemma SmallTotal(w: seq<nat>)
    requires |w| == MAX_GAS_HISTORY && Small(w, MAX_GAS_HISTORY)
    ensures Total(w) + |w| / 2 <= U64_MAX
  {
    TotalBound(w, Limit(MAX_GAS_HISTORY));
  }

  /** The sum after a push is exact when all values that entered it are small. */
  lemma StaysExact(w: seq<nat>, values: seq<nat>, sum: nat)
    requires w != [] && Small(values, |w|) && (|values| >= |w| || (Small(w, |w|) && sum == Total(w)))
    ensures SumPush(w, sum, values) == Total(Last(w + values, |w|))
  {
    if |values| < |w| {
      SumExact(w, values);
    } else {
      SmallFits(Last(w + values, |w|), 0);
      SaturatingTotalIsMin(Last(w + values, |w|));
    }
  }

  /** When the sum `after` a push is that of the new window `now`. */
  lemma ExactAfter(w: seq<nat>, sum: nat, values: seq<nat>, now: seq<nat>, after: nat)
    requires w != [] && now == Last(w + values, |w|) && after == SumPush(w, sum, values)
    ensures sum == Total(w) <= U64_MAX && NeverSaturates(w, values) ==> after == Total(now)
    ensures Small(values, |w|) && |values| >= |w| ==> after == Total(now)
    ensures Small(values, |w|) && sum == Total(w) && Small(w, |w|) ==> after == Total(now) && Small(now, |w|)
  {
    if sum == Total(w) <= U64_MAX && NeverSaturates(w, values) {
      PushExact(w, values);
    }
    if Small(values, |w|) && (|values| >= |w| || (Small(w, |w|) && sum == Total(w))) {
      StaysExact(w, values, sum);
    }
  }

  // ----- whole runs -----

  /** The window and the sum after pushing the batches one after the other. */
  function WindowAfter(w: seq<nat>, batches: seq<seq<nat>>): (r: seq<nat>)
    ensures |r| == |w|
    decreases |batches|
  {
    if batches == [] then w
    else Last(WindowAfter(w, batches[..|batches| - 1]) + batches[|batches| - 1], |w|)
  }

  function SumAfterAll(w: seq<nat>, sum: nat, batches: seq<seq<nat>>): nat
    requires w != []
    decreases |batches|
  {
    if batches == [] then sum
    else
      var front := batches[..|batches| - 1];
      SumPush(WindowAfter(w, front), SumAfterAll(w, sum, front), batches[|batches| - 1])
  }

  predicate AllSmall(batches: seq<seq<nat>>, c: nat) {
    forall i :: 0 <= i < |batches| ==> Small(batches[i], c)
  }

  lemma {:induction false} RunStaysExact(w: seq<nat>, batches: seq<seq<nat>>)
    requires w != [] && Small(w, |w|) && AllSmall(batches, |w|)
    ensures Small(WindowAfter(w, batches), |w|)
    ensures SumAfterAll(w, Total(w), batches) == Total(WindowAfter(w, batches))
    decreases |batches|
  {
    if batches != [] {
      var front, last := batches[..|batches| - 1], batches[|batches| - 1];
      RunStaysExact(w, front);
      assert Small(last, |w|);
      StaysExact(WindowAfter(w, front), last, Total(WindowAfter(w, front)));
    }
  }

  /** After any pushes of values within the limit, the mean is the true mean of the window, rounded half up. */
  lemma MeanOfRun(w: seq<nat>, batches: seq<seq<nat>>)
    requires |w| == MAX_GAS_HISTORY && Small(w, MAX_GAS_HISTORY) && AllSmall(batches, MAX_GAS_HISTORY)
    ensures RoundsHalfUp(Total(WindowAfter(w, batches)), MAX_GAS_HISTORY,
                         MeanOf(SumAfterAll(w, Total(w), batches), MAX_GAS_HISTORY))
  {
    RunStaysExact(w, batches);
    SmallTotal(WindowAfter(w, batches));
    MeanRounds(WindowAfter(w, batches));
  }

  /** The largest value of the buffer is the largest of the window. */
  lemma BiggestOfRotation(inner: seq<nat>, index: nat, m: nat)
    requires index < |inner| && IsMaxAt(inner, m)
    ensures Biggest(Circular(inner, index)) == inner[m]
  {
    var w := Circular(inner, index);
    var at := Age(|inner|, index, m);
    assert w[at] == inner[m];
    var b := Biggest(w);
    var j :| 0 <= j < |w| && w[j] == b;
    assert w[j] == if j < |inner| - index then inner[index + j] else inner[j - (|inner| - index)];
  }

  lemma ZeroMean(length: nat)
    requires length > 0
    ensures MeanOf(0, length) == 0
  {
    DivideBelow(SaturatingAdd(0, length / 2), length, 0);
  }

  function Filled(v: nat, n: nat): (w: seq<nat>)
    ensures |w| == n && forall i :: 0 <= i < |w| ==> w[i] == v
  {
    seq(n, i => v)
  }

  class OnlineMean {
    var curMean: nat
    const history: MaxCircularBuffer

    ghost predicate Valid()
      reads this, history, history.inner
    {
      history.Valid() && curMean == MeanOf(history.currSum, history.inner.Length)
    }

    ghost function Window(): (w: seq<nat>)
      requires Valid()
      reads this, history, history.inner
      ensures |w| == history.inner.Length
    {
      history.Window()
    }

    /** No addition has saturated since the sum was last computed from scratch. */
    ghost predicate Exact()
      requires Valid()
      reads this, history, history.inner
    {
      history.currSum == Total(Window())
    }

    /** A history of `capacity` zeros. */
    constructor Zeros(capacity: nat)
      requires capacity > 0
      ensures Valid() && fresh(history) && fresh(history.inner) && history.inner.Length == capacity
    {
      history := new MaxCircularBuffer(capacity);
      curMean := 0;
      ZeroMean(capacity);
    }

    /** The history of past transactions, filled with the start value. */
    static method New(startValue: nat) returns (m: OnlineMean)
      ensures fresh(m) && fresh(m.history) && fresh(m.history.inner)
      ensures m.Valid() && m.history.inner.Length == MAX_GAS_HISTORY
      ensures forall i :: 0 <= i < MAX_GAS_HISTORY ==> m.Window()[i] == startValue
      ensures startValue <= Limit(MAX_GAS_HISTORY) ==> m.Exact() && Small(m.Window(), MAX_GAS_HISTORY)
    {
      m := new OnlineMean.Zeros(MAX_GAS_HISTORY);
      m.Push(Filled(startValue, MAX_GAS_HISTORY));
    }

    /**
     * The window slides over the batch. The sum stays exact if no addition saturates, in particular if all
     * values, old and new, are small; and a batch of small values that fills the window makes it exact again.
     */
    method Push(values: seq<nat>)
      requires Valid()
      modifies this, history, history.inner
      ensures Valid() && Window() == Last(old(Window()) + values, history.inner.Length)
      ensures history.currSum == SumPush(old(Window()), old(history.currSum), values)
      ensures old(Exact()) && NeverSaturates(old(Window()), values) && old(history.currSum) <= U64_MAX ==> Exact()
      ensures Small(values, history.inner.Length) && |values| >= history.inner.Length ==> Exact()
      ensures Small(values, history.inner.Length) && old(Exact()) && Small(old(Window()), history.inner.Length) ==>
        Exact() && Small(Window(), history.inner.Length)
    {
      ghost var w, sum := Window(), history.currSum;
      history.Push(values);
      curMean := MeanOf(history.currSum, history.inner.Length);
      ExactAfter(w, sum, values, history.Window(), history.currSum);
    }

    /** Never above the maximum; the true mean rounded half up when the sum is exact and rounding cannot overflow. */
    method Mean() returns (mean: nat)
      requires Valid()
      ensures mean == MeanOf(history.currSum, |Window()|) <= Biggest(Window())
      ensures Exact() && Total(Window()) + |Window()| / 2 <= U64_MAX ==>
        RoundsHalfUp(Total(Window()), |Window()|, mean)
      ensures Exact() && |Window()| == MAX_GAS_HISTORY && Small(Window(), MAX_GAS_HISTORY) ==>
        RoundsHalfUp(Total(Window()), |Window()|, mean)
    {
      mean := curMean;
      MeanBelowMax(Window(), history.currSum);
      if |Window()| == MAX_GAS_HISTORY && Small(Window(), MAX_GAS_HISTORY) {
        SmallTotal(Window());
      }
      if Exact() && Total(Window()) + |Window()| / 2 <= U64_MAX {
        MeanRounds(Window());
      }
    }

    method Max() returns (max: nat)
      requires Valid()
      ensures max == Biggest(Window())
    {
      max := history.Max();
      BiggestOfRotation(history.inner[..], history.index, history.maxIndex);
    }

    method Median() returns (median: nat)
      requires Valid()
      ensures Splits(Window(), median)
    {
      median := history.median;
      MedianSplits(Window(), median);
    }
  }
}
