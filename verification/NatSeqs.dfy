/** Sums, largest elements, sorting and counting over sequences of naturals. */
module NatSeqs {

  const U64_MAX: nat := 0xFFFF_FFFF_FFFF_FFFF

  function Zeros(n: nat): (z: seq<nat>)
    ensures |z| == n && forall i :: 0 <= i < n ==> z[i] == 0
  {
    seq(n, i => 0)
  }

  function Total(s: seq<nat>): nat {
    if s == [] then 0 else Total(s[..|s| - 1]) + s[|s| - 1]
  }

  lemma {:induction false} TotalAppend(a: seq<nat>, b: seq<nat>)
    ensures Total(a + b) == Total(a) + Total(b)
    decreases |b|
  {
    if b == [] {
      assert a + b == a;
    } else {
      TotalAppend(a, b[..|b| - 1]);
      assert (a + b)[..|a + b| - 1] == a + b[..|b| - 1];
    }
  }

  lemma ProductMonotone(a: nat, b: nat, c: nat)
    requires a <= b
    ensures a * c <= b * c
  {
    assert b * c == a * c + (b - a) * c;
  }

  lemma Distribute(c: nat, x: nat)
    ensures (c + 1) * x == c * x + x
    ensures x * (c + 1) == c * x + x
  {
  }

  lemma {:induction false} TotalBound(s: seq<nat>, most: nat)
    requires forall i :: 0 <= i < |s| ==> s[i] <= most
    ensures Total(s) <= |s| * most
    decreases |s|
  {
    if s != [] {
      TotalBound(s[..|s| - 1], most);
      Distribute(|s| - 1, most);
    }
  }

  function Biggest(s: seq<nat>): (most: nat)
    requires s != []
    ensures most in s
    ensures forall i :: 0 <= i < |s| ==> s[i] <= most
    decreases |s|
  {
    if |s| == 1 then s[0]
    else
      var rest := Biggest(s[..|s| - 1]);
      if s[|s| - 1] >= rest then s[|s| - 1] else rest
  }

  predicate Ascending(s: seq<nat>) {
    forall i, j :: 0 <= i < j < |s| ==> s[i] <= s[j]
  }

  function InsertSorted(s: seq<nat>, v: nat): (r: seq<nat>)
    requires Ascending(s)
    ensures Ascending(r) && |r| == |s| + 1
    ensures r[|s|] == if s == [] || s[|s| - 1] <= v then v else s[|s| - 1]
    decreases |s|
  {
    if s == [] || s[|s| - 1] <= v then s + [v]
    else InsertSorted(s[..|s| - 1], v) + [s[|s| - 1]]
  }

  function Sorted(s: seq<nat>): (r: seq<nat>)
    ensures Ascending(r) && |r| == |s|
    decreases |s|
  {
    if s == [] then [] else InsertSorted(Sorted(s[..|s| - 1]), s[|s| - 1])
  }

  /** How many values are below `x`. Two sequences hold the same values when they agree on this for all `x`. */
  function CountBelow(s: seq<nat>, x: nat): (n: nat)
    ensures n <= |s|
    decreases |s|
  {
    if s == [] then 0 else CountBelow(s[..|s| - 1], x) + if s[|s| - 1] < x then 1 else 0
  }

  lemma {:induction false} CountAppend(a: seq<nat>, b: seq<nat>, x: nat)
    ensures CountBelow(a + b, x) == CountBelow(a, x) + CountBelow(b, x)
    decreases |b|
  {
    if b == [] {
      assert a + b == a;
    } else {
      CountAppend(a, b[..|b| - 1], x);
      assert (a + b)[..|a + b| - 1] == a + b[..|b| - 1];
    }
  }

  lemma {:induction false} CountInsert(s: seq<nat>, v: nat, x: nat)
    requires Ascending(s)
    ensures CountBelow(InsertSorted(s, v), x) == CountBelow(s, x) + if v < x then 1 else 0
    decreases |s|
  {
    if s == [] || s[|s| - 1] <= v {
      assert (s + [v])[..|s|] == s;
    } else {
      CountInsert(s[..|s| - 1], v, x);
      var r := InsertSorted(s[..|s| - 1], v);
      assert (r + [s[|s| - 1]])[..|r|] == r;
    }
  }

  /** Sorting keeps the values. */
  lemma {:induction false} CountSorted(s: seq<nat>, x: nat)
    ensures CountBelow(Sorted(s), x) == CountBelow(s, x)
    decreases |s|
  {
    if s != [] {
      CountSorted(s[..|s| - 1], x);
      CountInsert(Sorted(s[..|s| - 1]), s[|s| - 1], x);
    }
  }

  /** In a sorted sequence, more than `k` values are below `x` exactly when the one at `k` is. */
  lemma {:induction false} RankInSorted(s: seq<nat>, k: nat, x: nat)
    requires Ascending(s) && k < |s|
    ensures s[k] < x <==> CountBelow(s, x) > k
    decreases |s|
  {
    var front := s[..|s| - 1];
    if k < |front| {
      RankInSorted(front, k, x);
    } else if |front| > 0 {
      RankInSorted(front, k - 1, x);
    }
  }

  lemma {:induction false} TotalInsert(s: seq<nat>, v: nat)
    requires Ascending(s)
    ensures Total(InsertSorted(s, v)) == Total(s) + v
    decreases |s|
  {
    if s == [] || s[|s| - 1] <= v {
      assert (s + [v])[..|s|] == s;
    } else {
      TotalInsert(s[..|s| - 1], v);
      var r := InsertSorted(s[..|s| - 1], v);
      assert (r + [s[|s| - 1]])[..|r|] == r;
    }
  }

  lemma {:induction false} TotalSorted(s: seq<nat>)
    ensures Total(Sorted(s)) == Total(s)
    decreases |s|
  {
    if s != [] {
      TotalSorted(s[..|s| - 1]);
      TotalInsert(Sorted(s[..|s| - 1]), s[|s| - 1]);
    }
  }
}
