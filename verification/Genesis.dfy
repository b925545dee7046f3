/**
 * Assignment of delegators to the foundation's delegation pools at genesis: each delegator, smallest
 * first, joins the pool that holds the least.
 */
module Genesis {
  import opened NatSeqs

  /** How many pools a schedule uses, and the balances of its delegators if it has any. */
  datatype Schedule = Schedule(pools: nat, delegators: seq<nat>, populated: bool)

  /** A delegator's stake, the position whose balance it was added to, and the pool it was assigned to. */
  datatype Assignment = Assignment(amount: nat, slot: nat, owner: nat)

  datatype Error = NotEnoughPools | TooManyDelegators | Panic

  datatype Progress = Progress(balances: seq<nat>, placed: seq<Assignment>) | Stopped(error: Error)

  // ----- the greedy choice -----

  /** The search for the lowest balance among the first `n`, as the loop carries it. */
  function LowestOf(b: seq<nat>, n: nat): (r: (nat, nat))
    requires n <= |b|
    ensures r.0 == 0 || r.0 < n
    ensures r.1 <= U64_MAX && forall i :: 0 <= i < n ==> r.1 <= b[i] || r.1 == U64_MAX
    ensures r.1 < U64_MAX ==> r.0 < n && b[r.0] == r.1
    ensures forall i :: 0 <= i < n && b[i] < U64_MAX ==> r.1 <= b[i]
    ensures forall i :: 0 <= i < r.0 ==> b[i] > r.1
    decreases n
  {
    if n == 0 then (0, U64_MAX)
    else
      var before := LowestOf(b, n - 1);
      if b[n - 1] < before.1 then (n - 1, b[n - 1]) else before
  }

  function Lowest(b: seq<nat>): nat { LowestOf(b, |b|).0 }

  /** While no balance overflows, the choice is the first lowest balance. */
  lemma LowestIsLowest(b: seq<nat>)
    requires b != [] && forall i :: 0 <= i < |b| ==> b[i] <= U64_MAX
    ensures Lowest(b) < |b| && forall i :: 0 <= i < |b| ==> b[Lowest(b)] <= b[i]
    ensures forall i :: 0 <= i < Lowest(b) ==> b[i] > b[Lowest(b)]
  {
  }

  /**
   * One delegator. The position is chosen among the balances of all schedules so far, but is then used
   * to index the `pools` pools of this schedule, which begin after the first `before` pools.
   */
  function Place(p: Progress, before: nat, pools: nat, amount: nat): Progress {
    match p
    case Stopped(_) => p
    case Progress(b, placed) =>
      var slot := Lowest(b);
      if slot >= pools || slot >= |b| || b[slot] + amount > U64_MAX then Stopped(Panic)
      else Progress(b[slot := b[slot] + amount], placed + [Assignment(amount, slot, before + slot)])
  }

  function PlaceAll(p: Progress, before: nat, pools: nat, amounts: seq<nat>): Progress
    decreases |amounts|
  {
    if amounts == [] then p
    else Place(PlaceAll(p, before, pools, amounts[..|amounts| - 1]), before, pools, amounts[|amounts| - 1])
  }

  /** One schedule: it must find its pools, and contributes balances only if it has delegators. */
  function AssignSchedule(poolCount: nat, p: Progress, s: Schedule): Progress {
    match p
    case Stopped(_) => p
    case Progress(b, placed) =>
      if |b| + s.pools > poolCount && s.pools > 0 then Stopped(NotEnoughPools)
      else if !s.populated then p
      else PlaceAll(Progress(b + Zeros(s.pools), placed), |b|, s.pools, Sorted(s.delegators))
  }

  function AssignAll(poolCount: nat, schedules: seq<Schedule>): Progress
    decreases |schedules|
  {
    if schedules == [] then Progress([], [])
    else AssignSchedule(poolCount, AssignAll(poolCount, schedules[..|schedules| - 1]), schedules[|schedules| - 1])
  }

  // ----- what a faithful assignment keeps -----

  /** Every stake was added to the balance of the pool it was assigned to. */
  predicate Faithful(placed: seq<Assignment>) {
    forall i :: 0 <= i < |placed| ==> placed[i].slot == placed[i].owner
  }

  /** The stake assigned to a pool. */
  function StakeOf(placed: seq<Assignment>, owner: nat): nat {
    if placed == [] then 0
    else
      var last := placed[|placed| - 1];
      StakeOf(placed[..|placed| - 1], owner) + if last.owner == owner then last.amount else 0
  }

  /**
   * The balances are those of the pools they stand for, sum up to `total`, and differ from each other
   * by no more than `most`.
   */
  predicate Balanced(b: seq<nat>, placed: seq<Assignment>, total: nat, most: nat) {
    && Faithful(placed)
    && Total(b) == total
    && Stakes(b, placed)
    && Spread(b, most)
  }

  lemma {:induction false} ElementBelowTotal(b: seq<nat>, i: nat)
    requires i < |b|
    ensures b[i] <= Total(b)
    decreases |b|
  {
    if i < |b| - 1 {
      ElementBelowTotal(b[..|b| - 1], i);
    }
  }

  lemma {:induction false} TotalUpdate(b: seq<nat>, i: nat, v: nat)
    requires i < |b|
    ensures Total(b[i := v]) == Total(b) - b[i] + v
    decreases |b|
  {
    var c := b[i := v];
    if i < |b| - 1 {
      TotalUpdate(b[..|b| - 1], i, v);
      assert c[..|b| - 1] == b[..|b| - 1][i := v];
    } else {
      assert c[..|b| - 1] == b[..|b| - 1];
    }
  }

  lemma {:induction false} TotalZeros(z: seq<nat>)
    requires forall i :: 0 <= i < |z| ==> z[i] == 0
    ensures Total(z) == 0
    decreases |z|
  {
    if z != [] {
      TotalZeros(z[..|z| - 1]);
    }
  }

  predicate Spread(b: seq<nat>, most: nat) {
    forall i, j :: 0 <= i < |b| && 0 <= j < |b| ==> b[i] <= b[j] + most
  }

  lemma SpreadAfter(b: seq<nat>, slot: nat, amount: nat, most: nat)
    requires slot < |b| && amount <= most && Spread(b, most)
    requires forall i :: 0 <= i < |b| ==> b[slot] <= b[i]
    ensures Spread(b[slot := b[slot] + amount], most)
  {
  }

  predicate Stakes(b: seq<nat>, placed: seq<Assignment>) {
    forall i :: 0 <= i < |b| ==> b[i] == StakeOf(placed, i)
  }

  lemma StakesAfter(b: seq<nat>, placed: seq<Assignment>, slot: nat, amount: nat)
    requires slot < |b| && Stakes(b, placed)
    ensures Stakes(b[slot := b[slot] + amount], placed + [Assignment(amount, slot, slot)])
  {
    var a := Assignment(amount, slot, slot);
    assert (placed + [a])[..|placed|] == placed;
  }

  /** A lowest balance has room for what the total has room for. */
  lemma LowestHasRoom(b: seq<nat>, total: nat, amount: nat)
    requires b != [] && Total(b) == total && total + amount <= U64_MAX
    ensures Lowest(b) < |b| && b[Lowest(b)] + amount <= U64_MAX
    ensures forall i :: 0 <= i < |b| ==> b[Lowest(b)] <= b[i]
  {
    forall i | 0 <= i < |b| ensures b[i] <= total {
      ElementBelowTotal(b, i);
    }
    LowestIsLowest(b);
  }

  /** Placing one delegator on the pool with the lowest balance keeps the pools balanced. */
  lemma PlaceBalanced(b: seq<nat>, placed: seq<Assignment>, pools: nat, amount: nat, total: nat, most: nat)
    requires |b| == pools > 0 && Balanced(b, placed, total, most)
    requires amount <= most && total + amount <= U64_MAX
    ensures var p := Place(Progress(b, placed), 0, pools, amount);
      p.Progress? && |p.balances| == pools && Balanced(p.balances, p.placed, total + amount, most)
  {
    LowestHasRoom(b, total, amount);
    BalancedAfter(b, placed, Lowest(b), amount, total, most);
  }

  lemma BalancedAfter(b: seq<nat>, placed: seq<Assignment>, slot: nat, amount: nat, total: nat, most: nat)
    requires slot < |b| && Balanced(b, placed, total, most) && amount <= most
    requires forall i :: 0 <= i < |b| ==> b[slot] <= b[i]
    ensures Balanced(b[slot := b[slot] + amount], placed + [Assignment(amount, slot, slot)], total + amount, most)
  {
    TotalUpdate(b, slot, b[slot] + amount);
    SpreadAfter(b, slot, amount, most);
    StakesAfter(b, placed, slot, amount);
  }

  lemma {:induction false} PlaceAllBalanced(pools: nat, amounts: seq<nat>, most: nat)
    requires pools > 0 && Total(amounts) <= U64_MAX
    requires forall i :: 0 <= i < |amounts| ==> amounts[i] <= most
    ensures var p := PlaceAll(Progress(Zeros(pools), []), 0, pools, amounts);
      p.Progress? && |p.balances| == pools && Balanced(p.balances, p.placed, Total(amounts), most)
    decreases |amounts|
  {
    if amounts == [] {
      TotalZeros(Zeros(pools));
    } else {
      var front := amounts[..|amounts| - 1];
      PlaceAllBalanced(pools, front, most);
      var p := PlaceAll(Progress(Zeros(pools), []), 0, pools, front);
      PlaceBalanced(p.balances, p.placed, pools, amounts[|amounts| - 1], Total(front), most);
    }
  }

  // ----- order and size -----

  function Amounts(placed: seq<Assignment>): (r: seq<nat>)
    ensures |r| == |placed| && forall i :: 0 <= i < |r| ==> r[i] == placed[i].amount
  {
    seq(|placed|, i requires 0 <= i < |placed| => placed[i].amount)
  }

  predicate AllFitIn64Bits(b: seq<nat>) { forall i :: 0 <= i < |b| ==> b[i] <= U64_MAX }

  lemma {:induction false} PlacedInOrder(p: Progress, before: nat, pools: nat, amounts: seq<nat>)
    requires p.Progress? && AllFitIn64Bits(p.balances)
    ensures var q := PlaceAll(p, before, pools, amounts);
      q.Progress? ==>
        && Amounts(q.placed) == Amounts(p.placed) + amounts && AllFitIn64Bits(q.balances)
        && forall i :: |p.placed| <= i < |q.placed| ==>
             q.placed[i].slot < pools && q.placed[i].owner == before + q.placed[i].slot
    decreases |amounts|
  {
    if amounts == [] {
      assert Amounts(p.placed) + amounts == Amounts(p.placed);
    } else {
      var front, v := amounts[..|amounts| - 1], amounts[|amounts| - 1];
      PlacedInOrder(p, before, pools, front);
      var f, q := PlaceAll(p, before, pools, front), PlaceAll(p, before, pools, amounts);
      if q.Progress? {
        assert amounts == front + [v];
        assert Amounts(q.placed) == Amounts(f.placed) + [v];
      }
    }
  }

  /**
   * A schedule's delegators are all placed, in ascending order of their stakes and into its own pools, and
   * no balance ever exceeds 64 bits.
   */
  lemma ScheduleInOrder(poolCount: nat, p: Progress, s: Schedule)
    requires p.Progress? && AllFitIn64Bits(p.balances) && s.populated && AssignSchedule(poolCount, p, s).Progress?
    ensures var q := AssignSchedule(poolCount, p, s);
      && |q.placed| == |p.placed| + |s.delegators| && Amounts(q.placed[..|p.placed|]) == Amounts(p.placed)
      && Ascending(Amounts(q.placed[|p.placed|..])) && AllFitIn64Bits(q.balances)
      && (forall x :: CountBelow(Amounts(q.placed[|p.placed|..]), x) == CountBelow(s.delegators, x))
      && forall i :: |p.placed| <= i < |q.placed| ==> |p.balances| <= q.placed[i].owner < |p.balances| + s.pools
  {
    var start := Progress(p.balances + Zeros(s.pools), p.placed);
    var q := AssignSchedule(poolCount, p, s);
    PlacedInOrder(start, |p.balances|, s.pools, Sorted(s.delegators));
    assert Amounts(q.placed[|p.placed|..]) == Sorted(s.delegators);
    assert Amounts(q.placed[..|p.placed|]) == Amounts(p.placed);
    forall x ensures CountBelow(Sorted(s.delegators), x) == CountBelow(s.delegators, x) {
      CountSorted(s.delegators, x);
    }
  }

  // ----- which schedules are assigned faithfully -----

  /** A schedule that hands out no stake, or has a pool when none was taken before. */
  predicate Alone(before: nat, s: Schedule) {
    !s.populated || s.delegators == [] || (before == 0 && s.pools > 0)
  }

  /** The first delegator of a schedule goes wrong if earlier schedules had pools, or this one has none. */
  lemma FirstPlacement(p: Progress, before: nat, pools: nat, amount: nat)
    requires p.Progress? && |p.balances| == before + pools && (before > 0 || pools == 0)
    ensures var q := Place(p, before, pools, amount); q.Progress? ==> !Faithful(q.placed)
  {
    var q := Place(p, before, pools, amount);
    if q.Progress? {
      assert q.placed[|p.placed|].slot != q.placed[|p.placed|].owner;
    }
  }

  lemma {:induction false} StaysUnfaithful(p: Progress, before: nat, pools: nat, amounts: seq<nat>)
    ensures var q := PlaceAll(p, before, pools, amounts);
      && (q.Progress? ==> p.Progress? && |q.balances| == |p.balances| && p.placed <= q.placed)
      && (q.Progress? && !Faithful(p.placed) ==> !Faithful(q.placed))
      && (q.Progress? && q.balances == [] ==> q.placed == p.placed)
    decreases |amounts|
  {
    if amounts != [] {
      StaysUnfaithful(p, before, pools, amounts[..|amounts| - 1]);
    }
  }

  lemma {:induction false} PlaceAllUnfaithful(p: Progress, before: nat, pools: nat, amounts: seq<nat>)
    requires p.Progress? && |p.balances| == before + pools && (before > 0 || pools == 0) && amounts != []
    ensures var q := PlaceAll(p, before, pools, amounts); q.Progress? ==> !Faithful(q.placed)
    decreases |amounts|
  {
    var front := amounts[..|amounts| - 1];
    if front == [] {
      FirstPlacement(p, before, pools, amounts[0]);
    } else {
      PlaceAllUnfaithful(p, before, pools, front);
      var q := PlaceAll(p, before, pools, front);
      StaysUnfaithful(q, before, pools, [amounts[|amounts| - 1]]);
      var last := [amounts[|amounts| - 1]];
      assert last[..0] == [];
      assert PlaceAll(q, before, pools, last) == PlaceAll(p, before, pools, amounts);
    }
  }

  /**
   * Given enough pools and no overflow, a schedule is assigned without a panic, and each stake to the
   * pool whose balance it raised, if and only if it hands out nothing, or has a pool and none was taken
   * before.
   */
  lemma FaithfulExactly(poolCount: nat, p: Progress, s: Schedule)
    requires p.Progress? && Faithful(p.placed) && (p.balances == [] ==> p.placed == [])
    requires (s.pools > 0 ==> |p.balances| + s.pools <= poolCount) && Total(s.delegators) <= U64_MAX
    ensures var q := AssignSchedule(poolCount, p, s);
      (q.Progress? && Faithful(q.placed)) <==> Alone(|p.balances|, s)
  {
    var start := Progress(p.balances + Zeros(s.pools), p.placed);
    SortedEmpty(s.delegators);
    if s.populated && s.delegators != [] {
      if Alone(|p.balances|, s) {
        assert start == Progress(Zeros(s.pools), []);
        TotalSorted(s.delegators);
        PlaceAllBalanced(s.pools, Sorted(s.delegators), Biggest(Sorted(s.delegators)));
      } else {
        PlaceAllUnfaithful(start, |p.balances|, s.pools, Sorted(s.delegators));
      }
    }
  }

  /** The pools that the schedules take: those of every schedule with a list of accounts, even an empty one. */
  function PoolsTaken(schedules: seq<Schedule>): nat {
    if schedules == [] then 0
    else
      var last := schedules[|schedules| - 1];
      PoolsTaken(schedules[..|schedules| - 1]) + if last.populated then last.pools else 0
  }

  /** Every schedule finds its pools, and its own stake does not overflow. */
  predicate Provided(poolCount: nat, schedules: seq<Schedule>) {
    forall i :: 0 <= i < |schedules| ==>
      && (schedules[i].pools > 0 ==> PoolsTaken(schedules[..i]) + schedules[i].pools <= poolCount)
      && Total(schedules[i].delegators) <= U64_MAX
  }

  /** Every schedule hands out nothing, or has a pool and no earlier one has taken any. */
  predicate AllAlone(schedules: seq<Schedule>) {
    forall i :: 0 <= i < |schedules| ==> Alone(PoolsTaken(schedules[..i]), schedules[i])
  }

  lemma {:induction false} BalancesOfPools(poolCount: nat, schedules: seq<Schedule>)
    ensures var p := AssignAll(poolCount, schedules);
      p.Progress? ==> |p.balances| == PoolsTaken(schedules) && (p.balances == [] ==> p.placed == [])
    decreases |schedules|
  {
    if schedules != [] {
      var front, s := schedules[..|schedules| - 1], schedules[|schedules| - 1];
      BalancesOfPools(poolCount, front);
      var p := AssignAll(poolCount, front);
      if p.Progress? && s.populated {
        StaysUnfaithful(Progress(p.balances + Zeros(s.pools), p.placed), |p.balances|, s.pools, Sorted(s.delegators));
      }
    }
  }

  lemma AloneSplit(schedules: seq<Schedule>)
    requires schedules != []
    ensures var front, s := schedules[..|schedules| - 1], schedules[|schedules| - 1];
      AllAlone(schedules) <==> AllAlone(front) && Alone(PoolsTaken(front), s)
  {
    var front := schedules[..|schedules| - 1];
    assert forall i :: 0 <= i < |front| ==> front[..i] == schedules[..i];
  }

  lemma ProvidedFront(poolCount: nat, schedules: seq<Schedule>)
    requires schedules != [] && Provided(poolCount, schedules)
    ensures Provided(poolCount, schedules[..|schedules| - 1])
  {
    var front := schedules[..|schedules| - 1];
    assert forall i :: 0 <= i < |front| ==> front[..i] == schedules[..i];
  }

  lemma ScheduleStaysUnfaithful(poolCount: nat, p: Progress, s: Schedule)
    requires p.Progress? && !Faithful(p.placed)
    ensures var q := AssignSchedule(poolCount, p, s); q.Progress? ==> !Faithful(q.placed)
  {
    StaysUnfaithful(Progress(p.balances + Zeros(s.pools), p.placed), |p.balances|, s.pools, Sorted(s.delegators));
  }

  /**
   * Which configurations are assigned faithfully: given enough pools and no overflow, the whole assignment
   * goes through without a panic, and each stake to the pool whose balance it raised, if and only if every
   * schedule that hands out stake has a pool and comes before any other that takes pools.
   */
  lemma {:induction false} AllFaithfulExactly(poolCount: nat, schedules: seq<Schedule>)
    requires Provided(poolCount, schedules)
    ensures var p := AssignAll(poolCount, schedules); (p.Progress? && Faithful(p.placed)) <==> AllAlone(schedules)
    decreases |schedules|
  {
    if schedules != [] {
      var front, s := schedules[..|schedules| - 1], schedules[|schedules| - 1];
      ProvidedFront(poolCount, schedules);
      AllFaithfulExactly(poolCount, front);
      BalancesOfPools(poolCount, front);
      AloneSplit(schedules);
      var p := AssignAll(poolCount, front);
      if p.Progress? && Faithful(p.placed) {
        FaithfulExactly(poolCount, p, s);
      } else if p.Progress? {
        ScheduleStaysUnfaithful(poolCount, p, s);
      }
    }
  }

  lemma SortedEmpty(s: seq<nat>)
    ensures Sorted(s) == [] <==> s == []
  {
  }

  /** With two schedules of one pool and one delegator each, the second delegator already panics. */
  lemma TwoSchedulesPanic()
    ensures AssignAll(2, [Schedule(1, [5], true), Schedule(1, [7], true)]) == Stopped(Panic)
  {
    var one, two := Schedule(1, [5], true), Schedule(1, [7], true);
    var both := [one, two];
    assert both[..1] == [one] && [one][..0] == [];
    assert Sorted([5]) == [5] && Sorted([7]) == [7];
    var first := Progress([5], [Assignment(5, 0, 0)]);
    assert AssignAll(2, [one]) == first by {
      assert [] + Zeros(1) == [0];
      assert LowestOf([0], 1) == (0, 0);
      assert [5][..0] == [];
      assert Place(Progress([0], []), 0, 1, 5) == first;
    }
    assert [5] + Zeros(1) == [5, 0];
    assert LowestOf([5, 0], 1) == (0, 5) && LowestOf([5, 0], 2) == (1, 0);
    assert [7][..0] == [];
    assert Place(Progress([5, 0], first.placed), 1, 1, 7) == Stopped(Panic);
  }

  // ----- the one populated schedule -----

  /** All schedules but the one at `k` have no delegators to assign. */
  predicate OnlyPopulated(schedules: seq<Schedule>, k: nat) {
    k < |schedules| && schedules[k].populated
    && forall i :: 0 <= i < |schedules| && i != k ==> !schedules[i].populated
  }

  /** Schedules without delegators take no pools. */
  lemma {:induction false} NothingAssigned(poolCount: nat, schedules: seq<Schedule>)
    requires forall i :: 0 <= i < |schedules| ==> !schedules[i].populated
    ensures var p := AssignAll(poolCount, schedules); p == Progress([], []) || p == Stopped(NotEnoughPools)
    ensures AssignAll(poolCount, schedules).Progress? <==> AllFit(poolCount, schedules, 0)
    decreases |schedules|
  {
    if schedules != [] {
      NothingAssigned(poolCount, schedules[..|schedules| - 1]);
      FitsSplit(poolCount, schedules, 0);
    }
  }

  /** Each schedule that wants pools finds as many when `taken` are taken. */
  predicate AllFit(poolCount: nat, schedules: seq<Schedule>, taken: nat) {
    forall i :: 0 <= i < |schedules| && schedules[i].pools > 0 ==> taken + schedules[i].pools <= poolCount
  }

  lemma FitsSplit(poolCount: nat, schedules: seq<Schedule>, taken: nat)
    requires schedules != []
    ensures var front, last := schedules[..|schedules| - 1], schedules[|schedules| - 1];
      AllFit(poolCount, schedules, taken) <==>
        AllFit(poolCount, front, taken) && (last.pools > 0 ==> taken + last.pools <= poolCount)
  {
    var front, last := schedules[..|schedules| - 1], schedules[|schedules| - 1];
    assert schedules == front + [last];
  }

  /** Up to the populated schedule all pools are free; after it, its own are taken. */
  predicate EnoughPools(poolCount: nat, schedules: seq<Schedule>, k: nat)
    requires k < |schedules|
  {
    AllFit(poolCount, schedules[..k + 1], 0) && AllFit(poolCount, schedules[k + 1..], schedules[k].pools)
  }

  /** All of the stake is assigned, to pools that end up balanced. */
  predicate GreedyResult(p: Progress, s: Schedule) {
    s.delegators != [] && p.Progress? && |p.balances| == s.pools
    && Balanced(p.balances, p.placed, Total(s.delegators), Biggest(s.delegators))
  }

  /**
   * Greedy balance: with one populated schedule that has a pool, and no overflow, the assignment fails
   * only for lack of pools. Otherwise all stake is assigned, every pool's balance is the stake assigned
   * to its owner, and two pools differ by at most the largest single stake.
   */
  lemma {:induction false} GreedyBalance(poolCount: nat, schedules: seq<Schedule>, k: nat)
    requires OnlyPopulated(schedules, k) && schedules[k].pools > 0 && schedules[k].delegators != []
    requires Total(schedules[k].delegators) <= U64_MAX
    ensures var p := AssignAll(poolCount, schedules);
      if EnoughPools(poolCount, schedules, k) then GreedyResult(p, schedules[k]) else p == Stopped(NotEnoughPools)
    decreases |schedules|
  {
    var front, last := schedules[..|schedules| - 1], schedules[|schedules| - 1];
    if k < |front| {
      GreedyBalance(poolCount, front, k);
      GreedyGoesOn(poolCount, schedules, k);
    } else {
      assert schedules[..k + 1] == schedules && schedules[k + 1..] == [];
      NothingAssigned(poolCount, front);
      FitsSplit(poolCount, schedules, 0);
      if AssignAll(poolCount, front).Progress? && last.pools <= poolCount {
        GreedySchedule(poolCount, last);
      }
    }
  }

  lemma GreedyGoesOn(poolCount: nat, schedules: seq<Schedule>, k: nat)
    requires k < |schedules| - 1
    ensures EnoughPools(poolCount, schedules, k) <==>
      && EnoughPools(poolCount, schedules[..|schedules| - 1], k)
      && var last := schedules[|schedules| - 1];
         (last.pools > 0 ==> schedules[k].pools + last.pools <= poolCount)
  {
    var front, rest := schedules[..|schedules| - 1], schedules[k + 1..];
    assert front[..k + 1] == schedules[..k + 1] && front[k + 1..] == rest[..|rest| - 1];
    FitsSplit(poolCount, rest, schedules[k].pools);
  }

  lemma GreedySchedule(poolCount: nat, s: Schedule)
    requires s.populated && s.delegators != [] && 0 < s.pools <= poolCount && Total(s.delegators) <= U64_MAX
    ensures GreedyResult(AssignSchedule(poolCount, Progress([], []), s), s)
  {
    TotalSorted(s.delegators);
    SortedBelow(s.delegators, Biggest(s.delegators));
    assert [] + Zeros(s.pools) == Zeros(s.pools);
    PlaceAllBalanced(s.pools, Sorted(s.delegators), Biggest(s.delegators));
  }

  lemma {:induction false} SortedBelow(s: seq<nat>, most: nat)
    requires forall i :: 0 <= i < |s| ==> s[i] <= most
    ensures forall i :: 0 <= i < |s| ==> Sorted(s)[i] <= most
    decreases |s|
  {
    if s != [] {
      SortedBelow(s[..|s| - 1], most);
    }
  }

  // ----- the per-pool limit -----

  function CountOf(placed: seq<Assignment>, owner: nat): nat {
    if placed == [] then 0
    else CountOf(placed[..|placed| - 1], owner) + if placed[|placed| - 1].owner == owner then 1 else 0
  }

  /** The tally kept for a pool: its first delegator counts 0, so the tally is one short. */
  ghost predicate TallyOf(tally: map<nat, nat>, placed: seq<Assignment>) {
    forall owner :: if owner in tally then tally[owner] + 1 == CountOf(placed, owner) else CountOf(placed, owner) == 0
  }

  datatype Result = Assigned(placed: seq<Assignment>) | Rejected(error: Error)

  /** Some pool has more delegators than the check lets through: one more than the limit it states. */
  ghost predicate OverLimit(placed: seq<Assignment>, limit: nat) {
    exists owner :: CountOf(placed, owner) > limit + 1
  }

  /** With a limit of one delegator a pool, a pool with two passes the check. */
  lemma LimitIsOneShort()
    ensures var p := AssignAll(1, [Schedule(1, [3, 4], true)]);
      p.Progress? && CountOf(p.placed, 0) == 2 && !OverLimit(p.placed, 1)
  {
    var s, two := Schedule(1, [3, 4], true), [Assignment(3, 0, 0), Assignment(4, 0, 0)];
    OneSchedule(1, s);
    TwoInOnePool(s, two);
    forall owner ensures CountOf(two, owner) == if owner == 0 then 2 else 0 {
      CountTwo(two, owner);
    }
  }

  lemma OneSchedule(poolCount: nat, s: Schedule)
    ensures AssignAll(poolCount, [s]) == AssignSchedule(poolCount, Progress([], []), s)
  {
    assert [s][..0] == [];
  }

  lemma TwoInOnePool(s: Schedule, two: seq<Assignment>)
    requires s == Schedule(1, [3, 4], true) && two == [Assignment(3, 0, 0), Assignment(4, 0, 0)]
    ensures AssignSchedule(1, Progress([], []), s) == Progress([7], two)
  {
    assert [] + Zeros(1) == [0];
    assert Sorted(s.delegators) == [3, 4] by {
      assert [3, 4][..1] == [3] && Sorted([3]) == [3];
    }
    PlaceTwo(two);
  }

  lemma PlaceTwo(two: seq<Assignment>)
    requires two == [Assignment(3, 0, 0), Assignment(4, 0, 0)]
    ensures PlaceAll(Progress([0], []), 0, 1, [3, 4]) == Progress([7], two)
  {
    assert [3, 4][..1] == [3] && [3][..0] == [];
    assert LowestOf([0], 1) == (0, 0) && LowestOf([3], 1) == (0, 3);
    var one := [Assignment(3, 0, 0)];
    assert [0][0 := 3] == [3] && [3][0 := 7] == [7];
    assert Place(Progress([0], []), 0, 1, 3) == Progress([3], one);
    assert one + [Assignment(4, 0, 0)] == two;
    assert Place(Progress([3], one), 0, 1, 4) == Progress([7], two);
  }

  lemma CountTwo(two: seq<Assignment>, owner: nat)
    requires |two| == 2 && two[0].owner == 0 && two[1].owner == 0
    ensures CountOf(two, owner) == if owner == 0 then 2 else 0
  {
    var one := two[..1];
    assert one[..0] == [];
    assert CountOf(one, owner) == if owner == 0 then 1 else 0;
  }

  /** The loop that looks for the pool with the lowest balance. */
  method FindLowest(b: seq<nat>) returns (poolIndex: nat)
    ensures poolIndex == Lowest(b)
  {
    poolIndex := 0;
    var minBalance := U64_MAX;
    var j := 0;
    while j < |b|
      invariant 0 <= j <= |b| && (poolIndex, minBalance) == LowestOf(b, j)
    {
      if b[j] < minBalance {
        minBalance := b[j];
        poolIndex := j;
      }
      j := j + 1;
    }
  }

  /** One delegator joins the pool found; `tally` keeps the counts per pool. */
  method PlaceDelegator(b: seq<nat>, placed: seq<Assignment>, tally: map<nat, nat>, before: nat, pools: nat, amount: nat)
    returns (r: Progress, counts: map<nat, nat>)
    requires TallyOf(tally, placed)
    ensures r == Place(Progress(b, placed), before, pools, amount)
    ensures r.Progress? ==> TallyOf(counts, r.placed)
  {
    var slot := FindLowest(b);
    if slot >= pools || slot >= |b| || b[slot] + amount > U64_MAX {
      return Stopped(Panic), tally;
    }
    var owner := before + slot;
    TallyAfter(tally, placed, Assignment(amount, slot, owner));
    counts := tally[owner := if owner in tally then tally[owner] + 1 else 0];
    r := Progress(b[slot := b[slot] + amount], placed + [Assignment(amount, slot, owner)]);
  }

  lemma PlaceNext(p: Progress, before: nat, pools: nat, amounts: seq<nat>, i: nat)
    requires i < |amounts|
    ensures PlaceAll(p, before, pools, amounts[..i + 1])
            == Place(PlaceAll(p, before, pools, amounts[..i]), before, pools, amounts[i])
  {
    assert amounts[..i + 1][..i] == amounts[..i];
  }

  /** The delegators of one schedule, smallest first. */
  method PlaceDelegators(b: seq<nat>, placed: seq<Assignment>, tally: map<nat, nat>,
                         before: nat, pools: nat, amounts: seq<nat>)
    returns (r: Progress, counts: map<nat, nat>)
    requires TallyOf(tally, placed)
    ensures r == PlaceAll(Progress(b, placed), before, pools, amounts)
    ensures r.Progress? ==> TallyOf(counts, r.placed)
  {
    ghost var p := Progress(b, placed);
    r, counts := Progress(b, placed), tally;
    var i := 0;
    while i < |amounts|
      invariant 0 <= i <= |amounts|
      invariant r.Progress? && r == PlaceAll(p, before, pools, amounts[..i])
      invariant TallyOf(counts, r.placed)
    {
      PlaceNext(p, before, pools, amounts, i);
      StaysStopped(p, before, pools, amounts, i + 1);
      r, counts := PlaceDelegator(r.balances, r.placed, counts, before, pools, amounts[i]);
      if r.Stopped? {
        return;
      }
      i := i + 1;
    }
    assert amounts[..i] == amounts;
  }

  lemma TallyAfter(tally: map<nat, nat>, placed: seq<Assignment>, a: Assignment)
    requires TallyOf(tally, placed)
    ensures TallyOf(tally[a.owner := if a.owner in tally then tally[a.owner] + 1 else 0], placed + [a])
  {
    assert (placed + [a])[..|placed|] == placed;
  }

  lemma {:induction false} StaysStopped(p: Progress, before: nat, pools: nat, amounts: seq<nat>, i: nat)
    requires i <= |amounts|
    ensures PlaceAll(p, before, pools, amounts[..i]).Stopped? ==>
      PlaceAll(p, before, pools, amounts) == PlaceAll(p, before, pools, amounts[..i])
    decreases |amounts|
  {
    if i < |amounts| {
      var front := amounts[..|amounts| - 1];
      StaysStopped(p, before, pools, front, i);
      assert front[..i] == amounts[..i];
    } else {
      assert amounts[..i] == amounts;
    }
  }

  lemma {:induction false} AllStaysStopped(poolCount: nat, schedules: seq<Schedule>, i: nat)
    requires i <= |schedules|
    ensures AssignAll(poolCount, schedules[..i]).Stopped? ==>
      AssignAll(poolCount, schedules) == AssignAll(poolCount, schedules[..i])
    decreases |schedules|
  {
    if i < |schedules| {
      var front := schedules[..|schedules| - 1];
      AllStaysStopped(poolCount, front, i);
      assert front[..i] == schedules[..i];
    } else {
      assert schedules[..i] == schedules;
    }
  }

  /** The final check: rejected if and only if some tally is above the limit. */
  method CheckLimit(tally: map<nat, nat>, ghost placed: seq<Assignment>, limit: nat) returns (ok: bool)
    requires TallyOf(tally, placed)
    ensures ok <==> !OverLimit(placed, limit)
  {
    var owners := tally.Keys;
    while owners != {}
      invariant owners <= tally.Keys
      invariant forall o :: o in tally.Keys - owners ==> tally[o] <= limit
      decreases owners
    {
      var o :| o in owners;
      if tally[o] > limit {
        assert CountOf(placed, o) > limit + 1;
        return false;
      }
      owners := owners - {o};
    }
    ok := true;
  }

  /** The whole assignment: the greedy one, unless some pool got more than one delegator over the limit. */
  method AssignDelegators(poolCount: nat, schedules: seq<Schedule>, limit: nat) returns (r: Result)
    ensures match AssignAll(poolCount, schedules)
      case Stopped(e) => r == Rejected(e)
      case Progress(_, placed) => r == if OverLimit(placed, limit) then Rejected(TooManyDelegators) else Assigned(placed)
  {
    var p, counts := Progress([], []), map[];
    var i := 0;
    while i < |schedules|
      invariant 0 <= i <= |schedules|
      invariant p.Progress? && p == AssignAll(poolCount, schedules[..i]) && TallyOf(counts, p.placed)
    {
      assert schedules[..i + 1][..i] == schedules[..i];
      AllStaysStopped(poolCount, schedules, i + 1);
      p, counts := PlaceSchedule(poolCount, p.balances, p.placed, counts, schedules[i]);
      if p.Stopped? {
        return Rejected(p.error);
      }
      i := i + 1;
    }
    assert schedules[..i] == schedules;
    var ok := CheckLimit(counts, p.placed, limit);
    r := if ok then Assigned(p.placed) else Rejected(TooManyDelegators);
  }

  /** One round of the outer loop: find the schedule's pools, then place its delegators. */
  method PlaceSchedule(poolCount: nat, b: seq<nat>, placed: seq<Assignment>, tally: map<nat, nat>, s: Schedule)
    returns (r: Progress, counts: map<nat, nat>)
    requires TallyOf(tally, placed)
    ensures r == AssignSchedule(poolCount, Progress(b, placed), s)
    ensures r.Progress? ==> TallyOf(counts, r.placed)
  {
    r, counts := Progress(b, placed), tally;
    var available := if |b| <= poolCount then poolCount - |b| else 0;
    if available < s.pools {
      return Stopped(NotEnoughPools), tally;
    }
    if s.populated {
      r, counts := PlaceDelegators(b + Zeros(s.pools), placed, tally, |b|, s.pools, Sorted(s.delegators));
    }
  }
}
