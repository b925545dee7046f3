/** Which funding requests are served, by which minter, and why a request is turned away. */
module FaucetFunding {
  import opened Basics
  import opened FaucetMinters

  // ----- a request that runs uninterrupted -----

  function Iterate<T>(turn: T -> T, x: T, k: nat): T {
    if k == 0 then x else turn(Iterate(turn, x, k - 1))
  }

  lemma {:induction false} IterateAfter<T>(turn: T -> T, x: T, j: nat, k: nat)
    ensures Iterate(turn, x, j + k) == Iterate(turn, Iterate(turn, x, j), k)
    decreases k
  {
    if k > 0 {
      IterateAfter(turn, x, j, k - 1);
      assert j + k - 1 == j + (k - 1);
    }
  }

  /** One step of the task. */
  function Turn(id: TaskId): Faucet -> Faucet { f => Next(f, Step(id)) }

  /** The task takes its next `k` steps with nothing in between. */
  function Alone(f: Faucet, id: TaskId, k: nat): Faucet { Iterate(Turn(id), f, k) }

  /** No task is inside a lock. */
  predicate LocksFree(f: Faucet) {
    forall m :: 0 <= m < |f.minters| ==> IsFree(f.minters[m]) || IsBusy(f.minters[m])
  }

  /** `m` is the first free minter from `start` on. */
  predicate FirstFree(f: Faucet, start: nat, m: nat) {
    start <= m < |f.minters| && IsFree(f.minters[m]) && forall j :: start <= j < m ==> !IsFree(f.minters[j])
  }

  predicate NoneFree(f: Faucet, start: nat) {
    forall j :: start <= j < |f.minters| ==> !IsFree(f.minters[j])
  }

  /** The task works through minter `m` for `target`; nothing else has changed since `f`. */
  predicate Funds(f: Faucet, g: Faucet, id: TaskId, target: nat, m: nat) {
    && m < |f.minters|
    && g.minters == f.minters[m := Minter(Some(Busy(target)), None)]
    && id in g.tasks && g.tasks == f.tasks[id := Attempting(target, m)]
  }

  predicate TurnedAway(f: Faucet, g: Faucet, id: TaskId) {
    g.minters == f.minters && id in g.tasks && g.tasks == f.tasks[id := Rejected]
  }

  lemma AloneAfter(f: Faucet, id: TaskId, j: nat, k: nat)
    ensures Alone(f, id, j + k) == Alone(Alone(f, id, j), id, k)
  {
    IterateAfter(Turn(id), f, j, k);
  }

  lemma AloneNext(f: Faucet, id: TaskId, k: nat, g: Faucet)
    requires Alone(f, id, k) == g
    ensures Alone(f, id, k + 1) == Next(g, Step(id))
  {
  }

  function FreeCount(f: Faucet, k: nat): nat
    requires k <= |f.minters|
  {
    if k == 0 then 0 else FreeCount(f, k - 1) + if IsFree(f.minters[k - 1]) then 1 else 0
  }

  lemma {:induction false} CountIsZero(f: Faucet, k: nat)
    requires k <= |f.minters|
    ensures FreeCount(f, k) == 0 <==> forall j :: 0 <= j < k ==> !IsFree(f.minters[j])
    decreases k
  {
    if k > 0 {
      CountIsZero(f, k - 1);
    }
  }

  lemma TaskOver(f: Faucet, id: TaskId, t: Task, u: Task)
    ensures WithTask(WithTask(f, id, t), id, u) == WithTask(f, id, u)
  {
    assert f.tasks[id := t][id := u] == f.tasks[id := u];
  }

  lemma {:induction false} CountsAll(f: Faucet, id: TaskId, target: nat, k: nat)
    requires LocksFree(f) && k <= |f.minters|
    ensures Alone(WithTask(f, id, Counting(target, 0, 0)), id, k) == WithTask(f, id, Counting(target, k, FreeCount(f, k)))
    decreases k
  {
    if k > 0 {
      CountsAll(f, id, target, k - 1);
      AloneNext(WithTask(f, id, Counting(target, 0, 0)), id, k - 1, WithTask(f, id, Counting(target, k - 1, FreeCount(f, k - 1))));
      CountsOne(f, id, target, k - 1, FreeCount(f, k - 1));
    }
  }

  lemma CountsOne(f: Faucet, id: TaskId, target: nat, m: nat, free: nat)
    requires LocksFree(f) && m < |f.minters|
    ensures Next(WithTask(f, id, Counting(target, m, free)), Step(id))
            == WithTask(f, id, Counting(target, m + 1, if IsFree(f.minters[m]) then free + 1 else free))
  {
    assert IsFree(f.minters[m]) || IsBusy(f.minters[m]);
    TaskOver(f, id, Counting(target, m, free), Counting(target, m + 1, if IsFree(f.minters[m]) then free + 1 else free));
  }

  lemma {:induction false} PassesBusy(f: Faucet, id: TaskId, target: nat, start: nat, k: nat)
    requires LocksFree(f) && start + k <= |f.minters|
    requires forall j :: start <= j < start + k ==> !IsFree(f.minters[j])
    ensures Alone(WithTask(f, id, Trying(target, start)), id, k) == WithTask(f, id, Trying(target, start + k))
    decreases k
  {
    if k > 0 {
      PassesBusy(f, id, target, start, k - 1);
      AloneNext(WithTask(f, id, Trying(target, start)), id, k - 1, WithTask(f, id, Trying(target, start + k - 1)));
      PassesOne(f, id, target, start + k - 1);
    }
  }

  lemma PassesOne(f: Faucet, id: TaskId, target: nat, m: nat)
    requires LocksFree(f) && m < |f.minters| && !IsFree(f.minters[m])
    ensures Next(WithTask(f, id, Trying(target, m)), Step(id)) == WithTask(f, id, Trying(target, m + 1))
  {
    assert IsBusy(f.minters[m]);
    TaskOver(f, id, Trying(target, m), Trying(target, m + 1));
  }

  /** Two steps on a free minter: its state is taken out under the lock and replaced by `Busy`. */
  lemma TakesFree(f: Faucet, id: TaskId, target: nat, m: nat)
    requires m < |f.minters| && IsFree(f.minters[m])
    ensures Funds(f, Alone(WithTask(f, id, Trying(target, m)), id, 2), id, target, m)
  {
    var f0 := WithTask(f, id, Trying(target, m));
    var f1 := Next(f0, Step(id));
    assert f1.tasks == f.tasks[id := Holding(target, m)];
    var f2 := Next(f1, Step(id));
    assert f2.tasks == f.tasks[id := Attempting(target, m)];
    assert f2.minters == f.minters[m := Minter(Some(Busy(target)), None)];
    AloneNext(f0, id, 0, f0);
    AloneNext(f0, id, 1, f1);
  }

  /** Past the last minter the request is turned away. */
  lemma EndsAway(f: Faucet, id: TaskId, target: nat, g: Faucet)
    requires g == WithTask(f, id, Trying(target, |f.minters|)) || g == WithTask(f, id, Counting(target, |f.minters|, 0))
    ensures TurnedAway(f, Next(g, Step(id)), id)
  {
    assert Next(g, Step(id)).tasks == f.tasks[id := Rejected];
  }

  /** Trying the minters from `start` on ends at the first free one. */
  lemma FindsFirst(f: Faucet, id: TaskId, target: nat, start: nat, m: nat, k: nat)
    requires LocksFree(f) && FirstFree(f, start, m) && k == m - start
    ensures Funds(f, Alone(WithTask(f, id, Trying(target, start)), id, k + 2), id, target, m)
  {
    PassesBusy(f, id, target, start, k);
    AloneAfter(WithTask(f, id, Trying(target, start)), id, k, 2);
    TakesFree(f, id, target, m);
  }

  /** If there is none, the request is turned away. */
  lemma FindsNone(f: Faucet, id: TaskId, target: nat, start: nat, k: nat)
    requires LocksFree(f) && NoneFree(f, start) && start + k == |f.minters|
    ensures TurnedAway(f, Alone(WithTask(f, id, Trying(target, start)), id, k + 1), id)
  {
    PassesBusy(f, id, target, start, k);
    AloneNext(WithTask(f, id, Trying(target, start)), id, k, WithTask(f, id, Trying(target, start + k)));
    EndsAway(f, id, target, WithTask(f, id, Trying(target, start + k)));
  }

  /**
   * A request that runs uninterrupted is submitted through the first free minter, and turned away if and
   * only if no minter is free.
   */
  lemma RequestIsServed(f: Faucet, id: TaskId, target: nat, m: nat)
    requires LocksFree(f) && id !in f.tasks
    ensures var g, n := Next(f, Request(id, target)), |f.minters|;
      && (FirstFree(f, 0, m) ==> Funds(f, Alone(g, id, n + 1 + (m + 2)), id, target, m))
      && (NoneFree(f, 0) <==> TurnedAway(f, Alone(g, id, n + 1), id))
  {
    var g, n := Next(f, Request(id, target)), |f.minters|;
    var counted := WithTask(f, id, Counting(target, n, FreeCount(f, n)));
    CountsAll(f, id, target, n);
    CountIsZero(f, n);
    AloneNext(g, id, n, counted);
    if FreeCount(f, n) == 0 {
      EndsAway(f, id, target, counted);
    } else {
      TaskOver(f, id, Counting(target, n, FreeCount(f, n)), Trying(target, 0));
      if FirstFree(f, 0, m) {
        AloneAfter(g, id, n + 1, m + 2);
        FindsFirst(f, id, target, 0, m, m);
      }
    }
  }

  /** After a failed submission the minter is free again and the request goes on to the next free one. */
  lemma FailureMovesOn(f: Faucet, id: TaskId, m: nat)
    requires LocksFree(f) && id in f.tasks && f.tasks[id].Attempting? && f.tasks[id].minter < |f.minters|
    ensures var t := f.tasks[id];
      var g := Next(f, SubmissionFailed(id));
      var freed := WithMinter(f, t.minter, Minter(Some(Free), None));
      && IsFree(g.minters[t.minter])
      && (FirstFree(freed, t.minter + 1, m) ==>
            Funds(freed, Alone(g, id, m - (t.minter + 1) + 2), id, t.target, m))
      && (NoneFree(freed, t.minter + 1) ==>
            TurnedAway(freed, Alone(g, id, |f.minters| - (t.minter + 1) + 1), id))
  {
    var t := f.tasks[id];
    var freed := WithMinter(f, t.minter, Minter(Some(Free), None));
    assert IsBusy(f.minters[t.minter]) || IsFree(f.minters[t.minter]);
    assert Next(f, SubmissionFailed(id)) == WithTask(freed, id, Trying(t.target, t.minter + 1));
    if FirstFree(freed, t.minter + 1, m) {
      FindsFirst(freed, id, t.target, t.minter + 1, m, m - (t.minter + 1));
    }
    if NoneFree(freed, t.minter + 1) {
      FindsNone(freed, id, t.target, t.minter + 1, |f.minters| - (t.minter + 1));
    }
  }

  // ----- requests that interleave -----

  /** The step looks at minter `m` and finds it busy. */
  predicate FoundBusy(f: Faucet, ev: Event, id: TaskId, m: nat) {
    && ev == Step(id) && id in f.tasks
    && (f.tasks[id].Counting? || f.tasks[id].Trying?) && f.tasks[id].next == m
    && m < |f.minters| && IsBusy(f.minters[m])
  }

  predicate FailedAt(f: Faucet, ev: Event, id: TaskId, m: nat) {
    ev == SubmissionFailed(id) && id in f.tasks && f.tasks[id].Attempting? && f.tasks[id].minter == m
  }

  /** At event `k` the request finds minter `m` busy, or its submission through it fails. */
  predicate NoHelpAt(f: Faucet, events: seq<Event>, k: nat, id: TaskId, m: nat) {
    k < |events| && (FoundBusy(Run(f, events[..k]), events[k], id, m) || FailedAt(Run(f, events[..k]), events[k], id, m))
  }

  ghost predicate NoHelp(f: Faucet, events: seq<Event>, id: TaskId, m: nat) {
    exists k: nat :: NoHelpAt(f, events, k, id, m)
  }

  /** Up to which minter the request has got in vain. */
  function Reached(t: Task, n: nat): nat {
    match t
    case Counting(_, next, free) => if free == 0 then next else 0
    case Trying(_, next) => next
    case Holding(_, m) => m
    case Attempting(_, m) => m
    case Rejected => n
    case _ => 0
  }

  lemma NoHelpLater(f: Faucet, events: seq<Event>, id: TaskId, m: nat)
    requires events != [] && NoHelp(f, events[..|events| - 1], id, m)
    ensures NoHelp(f, events, id, m)
  {
    var front := events[..|events| - 1];
    var k: nat :| NoHelpAt(f, front, k, id, m);
    assert front[..k] == events[..k];
    assert NoHelpAt(f, events, k, id, m);
  }

  /** A step gets a request at most one minter further, and only past one that is no help. */
  lemma OneFurther(f: Faucet, ev: Event, id: TaskId)
    requires id in Next(f, ev).tasks
    ensures var n := |f.minters|;
      var before := if id in f.tasks then Reached(f.tasks[id], n) else 0;
      var after := Reached(Next(f, ev).tasks[id], n);
      after <= before || (after == before + 1 && (FoundBusy(f, ev, id, before) || FailedAt(f, ev, id, before)))
  {
  }

  lemma {:induction false} InVain(n: nat, events: seq<Event>, id: TaskId, m: nat)
    requires id in Run(Initial(n), events).tasks && m < Reached(Run(Initial(n), events).tasks[id], n)
    ensures NoHelp(Initial(n), events, id, m)
    decreases |events|
  {
    if events != [] {
      var last := |events| - 1;
      var front, ev := events[..last], events[last];
      var f := Run(Initial(n), front);
      SameMinters(Initial(n), front);
      OneFurther(f, ev, id);
      if id in f.tasks && m < Reached(f.tasks[id], n) {
        InVain(n, front, id, m);
        NoHelpLater(Initial(n), events, id, m);
      } else {
        assert NoHelpAt(Initial(n), events, last, id, m);
      }
    }
  }

  /**
   * Under every interleaving a request is turned away only if every minter was no help to it: it found it
   * busy when it looked, or its submission through it failed.
   */
  lemma RejectedOnlyInVain(n: nat, events: seq<Event>, id: TaskId, m: nat)
    requires id in Run(Initial(n), events).tasks && Run(Initial(n), events).tasks[id].Rejected? && m < n
    ensures NoHelp(Initial(n), events, id, m)
  {
    InVain(n, events, id, m);
  }

  // ----- how long a minter is busy -----

  /** A submitted request is answered, and the minter stays busy in the hands of the waiter. */
  lemma SubmittedHandsOver(f: Faucet, id: TaskId, waiter: TaskId)
    requires FaucetSafe(f) && id in f.tasks && f.tasks[id].Attempting? && waiter !in f.tasks
    ensures var g, m := Next(f, Submitted(id, waiter)), f.tasks[id].minter;
      && g.tasks[id] == Accepted && g.tasks[waiter] == Waiting(m)
      && g.minters == f.minters && m < |g.minters| && IsBusy(g.minters[m])
  {
    UserSees(f, id);
  }

  /**
   * A minter stays busy, for the same target, until the submission of its user fails or the transaction its
   * user waits for is done. So no second transaction goes through it before the first is finished.
   */
  lemma BusyUntilDone(f: Faucet, ev: Event, m: nat)
    requires FaucetSafe(f) && m < |f.minters| && IsBusy(f.minters[m])
    ensures var g := Next(f, ev);
      || g.minters[m] == f.minters[m]
      || (IsFree(g.minters[m]) && (ev.SubmissionFailed? || ev.TransactionDone?) && UsedBy(f, m, ev.id)
          && (if ev.SubmissionFailed? then f.tasks[ev.id].Attempting? else f.tasks[ev.id].Waiting?))
  {
    if ev.Step? && ev.id in f.tasks && f.tasks[ev.id].Holding? {
      UserSees(f, ev.id);
    }
  }
}
