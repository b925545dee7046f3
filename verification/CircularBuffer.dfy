/** The circular buffer of recent gas values, and the running mean over it. */
module CircularBuffer {
  import opened Basics
  import opened GasWindow
  import opened NatSeqs

  /** The values oldest first: the buffer read circularly from the next insertion index. */
  function Circular(inner: seq<nat>, index: nat): (w: seq<nat>)
    requires index <= |inner|
    ensures |w| == |inner|
  {
    inner[index..] + inner[..index]
  }

  /** The place of a buffer position in the window; it is overwritten by the insertion of that number. */
  function Age(capacity: nat, index: nat, position: nat): nat
    requires index < capacity && position < capacity
  {
    if index <= position then position - index else position + capacity - index
  }

  /** The insertion index after the next one. */
  function Next(capacity: nat, index: nat): (r: nat)
    requires index < capacity
    ensures r < capacity
  {
    if index + 1 == capacity then 0 else index + 1
  }

  /** Indices wrap around at the capacity. */
  lemma WrapAround(capacity: nat, x: nat)
    requires x < 2 * capacity
    ensures x % capacity == if x < capacity then x else x - capacity
  {
    if x >= capacity {
      assert x == capacity + (x - capacity);
    }
  }

  lemma CircularInsert(inner: seq<nat>, index: nat, v: nat)
    requires index < |inner|
    ensures Circular(inner[index := v], Next(|inner|, index)) == Slide(Circular(inner, index), v)
  {
    var after := inner[index := v];
    assert after[..index + 1] == inner[..index] + [v] && after[index + 1..] == inner[index + 1..];
    if index + 1 == |inner| {
      assert after == inner[..index] + [v];
    }
  }

  /** An insertion makes every position one younger, and the one it wrote the youngest. */
  lemma AgeAfter(capacity: nat, index: nat, position: nat)
    requires index < capacity && position < capacity
    ensures Age(capacity, Next(capacity, index), position)
            == if position == index then capacity - 1 else Age(capacity, index, position) - 1
  {
  }

  /** The wrap-around test of `push`: the batch may reach the position of the maximum. */
  predicate Flagged(capacity: nat, index: nat, maxIndex: nat, count: nat)
    requires capacity > 0
  {
    (index <= maxIndex && maxIndex < index + count) || (maxIndex < index && maxIndex < (index + count) % capacity)
  }

  /**
   * The test flags every batch that overwrites the maximum, and besides those only the batches that stay
   * above a maximum already passed.
   */
  lemma FlagsEveryOverwrite(capacity: nat, index: nat, maxIndex: nat, count: nat)
    requires index < capacity && maxIndex < capacity && count < capacity
    ensures Flagged(capacity, index, maxIndex, count) <==>
      Age(capacity, index, maxIndex) < count || (maxIndex < index && index + count < capacity)
  {
    WrapAround(capacity, index + count);
  }

  /** An insertion elsewhere keeps a maximum, moving it to the new value if that is as large. */
  lemma MaxAfterInsert(inner: seq<nat>, index: nat, m: nat, v: nat, left: nat)
    requires index < |inner| && IsMaxAt(inner, m) && 0 < left < |inner| && left <= Age(|inner|, index, m)
    ensures var m' := if v >= inner[m] then index else m;
      IsMaxAt(inner[index := v], m') && left - 1 <= Age(|inner|, Next(|inner|, index), m')
  {
    AgeAfter(|inner|, index, m);
    AgeAfter(|inner|, index, index);
  }

  lemma PushKeepsWindow(h: seq<nat>, w: seq<nat>, values: seq<nat>)
    requires |w| <= |h| && w == Last(h, |w|)
    ensures Last(h + values, |w|) == Last(w + values, |w|)
    ensures |values| >= |w| ==> Last(values, |w|) == Last(w + values, |w|)
  {
  }

  class MaxCircularBuffer {
    const inner: array<nat>
    /** Where the next value goes. */
    var index: nat
    /** Where a largest value is. */
    var maxIndex: nat
    var currSum: nat
    var median: nat
    /** The initial zeros followed by every value pushed. */
    ghost var history: seq<nat>

    /** Positions are in range; between the insertions of a batch nothing more is known. */
    ghost predicate InRange()
      reads this
    {
      index < inner.Length && maxIndex < inner.Length
    }

    ghost function Window(): (w: seq<nat>)
      requires index <= inner.Length
      reads this, inner
      ensures |w| == inner.Length
    {
      Circular(inner[..], index)
    }

    ghost function Stats(): Summed
      requires index <= inner.Length
      reads this, inner
    {
      Summed(Window(), currSum)
    }

    /** The statistics agree with the naive ones, except that saturation may have lowered the sum. */
    ghost predicate Valid()
      reads this, inner
    {
      && InRange()
      && IsMaxAt(inner[..], maxIndex)
      && median == Median(Window())
      && currSum <= Total(Window())
      && inner.Length <= |history| && Window() == Last(history, inner.Length)
    }

    constructor (capacity: nat)
      requires capacity > 0
      ensures Valid() && fresh(inner) && inner.Length == capacity
      ensures Total(history) == 0 && currSum == 0
    {
      inner := new nat[capacity](i => 0);
      index, maxIndex, currSum, median := 0, 0, 0, 0;
      history := Zeros(capacity);
      new;
      assert inner[..] == Zeros(capacity);
      ZeroWindow(capacity, inner[..]);
    }

    function Max(): nat
      requires InRange()
      reads this, inner
    {
      inner[maxIndex]
    }

    method Insert(v: nat)
      requires InRange()
      modifies this`index, this`maxIndex, this`currSum, inner
      ensures InRange() && index == Next(inner.Length, old(index))
      ensures inner[..] == old(inner[..])[old(index) := v]
      ensures Stats() == InsertOne(old(Stats()), v)
      ensures maxIndex == if v >= old(inner[maxIndex]) then old(index) else old(maxIndex)
    {
      CircularInsert(inner[..], index, v);
      currSum := SaturatingSub(SaturatingAdd(currSum, v), inner[index]);
      if v >= Max() {
        maxIndex := index;
      }
      inner[index] := v;
      WrapAround(inner.Length, index + 1);
      index := (index + 1) % inner.Length;
    }

    /** Inserts a batch shorter than the buffer. A maximum that the batch does not reach stays exact. */
    method InsertAll(values: seq<nat>)
      requires InRange() && |values| < inner.Length
      modifies this`index, this`maxIndex, this`currSum, inner
      ensures InRange()
      ensures Stats() == InsertEach(old(Stats()), values)
      ensures old(IsMaxAt(inner[..], maxIndex)) && |values| <= Age(inner.Length, old(index), old(maxIndex)) ==>
        IsMaxAt(inner[..], maxIndex)
    {
      ghost var start := Stats();
      ghost var kept := IsMaxAt(inner[..], maxIndex) && |values| <= Age(inner.Length, index, maxIndex);
      var j := 0;
      while j < |values|
        invariant 0 <= j <= |values| && InRange()
        invariant Stats() == InsertEach(start, values[..j])
        invariant kept ==> IsMaxAt(inner[..], maxIndex) && |values| - j <= Age(inner.Length, index, maxIndex)
      {
        InsertNext(start, values, j);
        if kept {
          MaxAfterInsert(inner[..], index, maxIndex, values[j], |values| - j);
        }
        Insert(values[j]);
        j := j + 1;
      }
      assert values[..j] == values;
    }

    /** The case of a batch shorter than the buffer; the maximum is repaired only if it was overwritten. */
    method PushShort(values: seq<nat>)
      requires Valid() && |values| < inner.Length
      modifies this`index, this`maxIndex, this`currSum, inner
      ensures InRange() && IsMaxAt(inner[..], maxIndex)
      ensures Window() == Last(old(Window()) + values, inner.Length)
      ensures currSum == SumAfter(old(Window()), old(currSum), values)
    {
      var updatingMax := Flagged(inner.Length, index, maxIndex, |values|);
      FlagsEveryOverwrite(inner.Length, index, maxIndex, |values|);
      InsertEachIs(Window(), currSum, values);
      InsertAll(values);
      if updatingMax {
        UpdateMaxIndex();
      }
    }

    /** The case of a batch that fills the buffer: only its last values are kept. */
    method PushLong(values: seq<nat>)
      requires 0 < inner.Length <= |values|
      modifies this`index, this`maxIndex, this`currSum, inner
      ensures InRange() && IsMaxAt(inner[..], maxIndex)
      ensures Window() == Last(values, inner.Length)
      ensures currSum == SaturatingTotal(Window())
    {
      var start := |values| - inner.Length;
      forall i | 0 <= i < inner.Length {
        inner[i] := values[start + i];
      }
      index := 0;
      assert inner[..] == Last(values, inner.Length) == Window();
      UpdateCurrentSum();
      UpdateMaxIndex();
    }

    /**
     * Pushes a batch. The window is the last values of the history; the maximum and the median are those
     * of the window; the sum is the incremental one, recomputed when the batch fills the buffer.
     */
    method Push(values: seq<nat>)
      requires Valid()
      modifies this, inner
      ensures Valid() && history == old(history) + values
      ensures Window() == Last(old(Window()) + values, inner.Length)
      ensures currSum == SumPush(old(Window()), old(currSum), values)
    {
      ghost var w, h := Window(), history;
      PushKeepsWindow(h, w, values);
      if values == [] {
        assert h + values == h;
        return;
      }
      if |values| < inner.Length {
        PushShort(values);
        SumNeverAbove(w, old(currSum), values);
      } else {
        PushLong(values);
        SaturatingTotalIsMin(Window());
      }
      history := history + values;
      UpdateMedian();
    }

    method UpdateCurrentSum()
      modifies this`currSum
      ensures currSum == SaturatingTotal(inner[..])
    {
      currSum := 0;
      var i := 0;
      while i < inner.Length
        invariant 0 <= i <= inner.Length
        invariant currSum == SaturatingTotal(inner[..i])
      {
        currSum := SaturatingAdd(currSum, inner[i]);
        i := i + 1;
        assert inner[..i][..i - 1] == inner[..i - 1];
      }
      assert inner[..i] == inner[..];
    }

    /** The last of the largest values. */
    method UpdateMaxIndex()
      requires inner.Length > 0
      modifies this`maxIndex
      ensures IsMaxAt(inner[..], maxIndex)
      ensures forall i :: maxIndex < i < inner.Length ==> inner[i] < inner[maxIndex]
    {
      maxIndex := 0;
      var i := 1;
      while i < inner.Length
        invariant 1 <= i <= inner.Length && maxIndex < i
        invariant forall j :: 0 <= j < i ==> inner[j] <= inner[maxIndex]
        invariant forall j :: maxIndex < j < i ==> inner[j] < inner[maxIndex]
      {
        if inner[i] >= inner[maxIndex] {
          maxIndex := i;
        }
        i := i + 1;
      }
    }

    method UpdateMedian()
      requires index < inner.Length
      modifies this`median
      ensures median == Median(Window())
    {
      var sorted := Sorted(inner[..]);
      median := sorted[|sorted| / 2];
      assert inner[..] == inner[..index] + inner[index..];
      MedianOfRotation(inner[..index], inner[index..]);
    }
  }

  /** The statistics of a buffer of zeros. */
  lemma ZeroWindow(capacity: nat, s: seq<nat>)
    requires capacity > 0 && s == Zeros(capacity)
    ensures Circular(s, 0) == Last(s, capacity) == s && IsMaxAt(s, 0) && Median(s) == 0 && Total(s) == 0
  {
    ZeroMedian(s);
  }

  lemma {:induction false} ZeroMedian(s: seq<nat>)
    requires s != [] && forall i :: 0 <= i < |s| ==> s[i] == 0
    ensures Median(s) == 0 && Total(s) == 0
  {
    ZeroCounts(s);
    MedianSplits(s, 0);
  }

  lemma {:induction false} ZeroCounts(s: seq<nat>)
    requires forall i :: 0 <= i < |s| ==> s[i] == 0
    ensures CountBelow(s, 0) == 0 && CountBelow(s, 1) == |s| && Total(s) == 0
    decreases |s|
  {
    if s != [] {
      ZeroCounts(s[..|s| - 1]);
    }
  }
}
