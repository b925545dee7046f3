/**
 * The faucet's minters under concurrency. Requests and the tasks that wait for a funding transaction
 * run interleaved; each step below is one section under a minter's lock, or the gap between two.
 */
module FaucetMinters {
  import opened Basics

  type TaskId = nat

  datatype Delegate = Free | Busy(target: nat)

  /** A minter's guarded state; `holder` is the task inside the lock, if it stopped midway. */
  datatype Minter = Minter(delegate: Option<Delegate>, holder: Option<TaskId>)

  /**
   * Where a task is: counting the free minters, trying the minters in order, holding the lock of one
   * with its state taken out, or awaiting the submission of its transaction; waiting for the transaction to
   * be executed; or finished: the request turned away or accepted, the waiter done, or either dropped.
   */
  datatype Task =
    | Counting(target: nat, next: nat, free: nat)
    | Trying(target: nat, next: nat)
    | Holding(target: nat, minter: nat)
    | Attempting(target: nat, minter: nat)
    | Waiting(minter: nat)
    | Rejected
    | Accepted
    | Ended
    | Dropped

  /** `bug` is set by any of the program's "[BUG]" panics and by its debug assertion. */
  datatype Faucet = Faucet(minters: seq<Minter>, tasks: map<TaskId, Task>, lost: set<nat>, bug: bool)

  datatype Event =
    | Request(id: TaskId, target: nat)
    | Step(id: TaskId)
    | SubmissionFailed(id: TaskId)
    | Submitted(id: TaskId, waiter: TaskId)
    | TransactionDone(id: TaskId)
    | Abandoned(id: TaskId)

  predicate Unlocked(f: Faucet, m: nat) { m < |f.minters| && f.minters[m].holder.None? }

  function WithTask(f: Faucet, id: TaskId, t: Task): Faucet { f.(tasks := f.tasks[id := t]) }

  function WithMinter(f: Faucet, m: nat, x: Minter): Faucet
    requires m < |f.minters|
  {
    f.(minters := f.minters[m := x])
  }

  /** Counting the free minters before anything else: none free, and the request is rejected. */
  function CountStep(f: Faucet, id: TaskId, target: nat, next: nat, free: nat): Faucet {
    if next >= |f.minters| then WithTask(f, id, if free == 0 then Rejected else Trying(target, 0))
    else if !Unlocked(f, next) then f
    else
      match f.minters[next].delegate
      case None => f.(bug := true)
      case Some(d) => WithTask(f, id, Counting(target, next + 1, if d.Free? then free + 1 else free))
  }

  /** A busy minter is passed over; a free one has its state taken out, under its lock. */
  function TryStep(f: Faucet, id: TaskId, target: nat, next: nat): Faucet {
    if next >= |f.minters| then WithTask(f, id, Rejected)
    else if !Unlocked(f, next) then f
    else
      match f.minters[next].delegate
      case None => f.(bug := true)
      case Some(Busy(_)) => WithTask(f, id, Trying(target, next + 1))
      case Some(Free) =>
        WithTask(WithMinter(f, next, Minter(None, Some(id))), id, Holding(target, next))
  }

  /** The taken state is replaced by `Busy` before the lock is released. */
  function HoldStep(f: Faucet, id: TaskId, target: nat, m: nat): Faucet {
    if m >= |f.minters| then f
    else WithTask(WithMinter(f, m, Minter(Some(Busy(target)), None)), id, Attempting(target, m))
  }

  function Next(f: Faucet, ev: Event): Faucet {
    match ev
    case Request(id, target) => if id in f.tasks then f else WithTask(f, id, Counting(target, 0, 0))
    case Step(id) =>
      if id !in f.tasks then f
      else
        (match f.tasks[id]
         case Counting(target, next, free) => CountStep(f, id, target, next, free)
         case Trying(target, next) => TryStep(f, id, target, next)
         case Holding(target, m) => HoldStep(f, id, target, m)
         case _ => f)
    case SubmissionFailed(id) =>
      if id in f.tasks && f.tasks[id].Attempting? && Unlocked(f, f.tasks[id].minter) then
        var t := f.tasks[id];
        WithTask(WithMinter(f, t.minter, Minter(Some(Free), None)), id, Trying(t.target, t.minter + 1))
      else f
    case Submitted(id, waiter) =>
      if id in f.tasks && f.tasks[id].Attempting? && waiter !in f.tasks then
        WithTask(WithTask(f, id, Accepted), waiter, Waiting(f.tasks[id].minter))
      else f
    case TransactionDone(id) =>
      if id in f.tasks && f.tasks[id].Waiting? && Unlocked(f, f.tasks[id].minter) then
        var m := f.tasks[id].minter;
        if f.minters[m].delegate.None? || f.minters[m].delegate.value.Free? then f.(bug := true)
        else WithTask(WithMinter(f, m, Minter(Some(Free), None)), id, Ended)
      else f
    case Abandoned(id) =>
      // Shutdown of a waiter, or a request dropped while it awaits: the minter is never freed again.
      if id in f.tasks && (f.tasks[id].Attempting? || f.tasks[id].Waiting?) then
        WithTask(f, id, Dropped).(lost := f.lost + {f.tasks[id].minter})
      else f
  }

  function Run(f: Faucet, events: seq<Event>): Faucet
    decreases |events|
  {
    if events == [] then f else Next(Run(f, events[..|events| - 1]), events[|events| - 1])
  }

  function Initial(n: nat): Faucet {
    Faucet(seq(n, i => Minter(Some(Free), None)), map[], {}, false)
  }

  // ----- the invariant -----

  /** The task is working with minter `m`: taking it, submitting through it, or waiting for it. */
  predicate Working(t: Task) { t.Holding? || t.Attempting? || t.Waiting? }

  predicate UsedBy(f: Faucet, m: nat, id: TaskId) {
    id in f.tasks && Working(f.tasks[id]) && f.tasks[id].minter == m
  }

  predicate IsBusy(x: Minter) { x.holder.None? && x.delegate.Some? && x.delegate.value.Busy? }

  predicate IsFree(x: Minter) { x.holder.None? && x.delegate == Some(Free) }

  /** The task using the minter found it in the state that its phase calls for. */
  predicate UserSafe(f: Faucet, m: nat, a: TaskId)
    requires m < |f.minters| && UsedBy(f, m, a)
  {
    if f.tasks[a].Holding? then f.minters[m] == Minter(None, Some(a)) else IsBusy(f.minters[m])
  }

  ghost predicate Unused(f: Faucet, m: nat) {
    forall a :: !UsedBy(f, m, a)
  }

  /**
   * At most one task uses the minter; a free minter has none; a busy one has one unless it was
   * abandoned; and its state is empty only while a task holds its lock.
   */
  ghost predicate MinterSafe(f: Faucet, m: nat)
    requires m < |f.minters|
  {
    && (forall a, b :: UsedBy(f, m, a) && UsedBy(f, m, b) ==> a == b)
    && (forall a :: UsedBy(f, m, a) ==> UserSafe(f, m, a))
    && (IsFree(f.minters[m]) || IsBusy(f.minters[m]) || !Unused(f, m))
    && (IsBusy(f.minters[m]) && m !in f.lost ==> !Unused(f, m))
    && (m in f.lost ==> IsBusy(f.minters[m]) && Unused(f, m))
  }

  ghost predicate FaucetSafe(f: Faucet) {
    && !f.bug
    && (forall id :: id in f.tasks && Working(f.tasks[id]) ==> f.tasks[id].minter < |f.minters|)
    && (forall m: nat :: m < |f.minters| ==> MinterSafe(f, m))
  }

  // ----- every step keeps it -----

  /** The minter looks the same, and is used by the same tasks in the same phase. */
  ghost predicate SameFor(f: Faucet, g: Faucet, m: nat) {
    && |g.minters| == |f.minters| && m < |f.minters| && g.minters[m] == f.minters[m]
    && (forall a :: UsedBy(f, m, a) <==> UsedBy(g, m, a))
    && (forall a :: UsedBy(f, m, a) ==> a in g.tasks && g.tasks[a] == f.tasks[a])
    && (m in g.lost <==> m in f.lost)
  }

  lemma Frame(f: Faucet, g: Faucet, m: nat)
    requires SameFor(f, g, m) && MinterSafe(f, m)
    ensures MinterSafe(g, m)
  {
    if !Unused(f, m) {
      var a :| UsedBy(f, m, a);
      assert UsedBy(g, m, a);
    }
  }

  /** A step of a task that uses no minter, to a phase that uses none. */
  lemma IdleStep(f: Faucet, id: TaskId, t: Task)
    requires FaucetSafe(f) && !Working(t) && (id in f.tasks ==> !Working(f.tasks[id]))
    ensures FaucetSafe(WithTask(f, id, t))
  {
    var g := WithTask(f, id, t);
    forall m: nat | m < |f.minters| ensures MinterSafe(g, m) {
      assert SameFor(f, g, m);
      Frame(f, g, m);
    }
  }

  /** A step in which one task takes over, passes on or gives back minter `m`. */
  lemma MinterStep(f: Faucet, m: nat, x: Minter, id: TaskId, t: Task, lost: set<nat>)
    requires FaucetSafe(f) && m < |f.minters|
    requires id in f.tasks && Working(f.tasks[id]) ==> f.tasks[id].minter == m
    requires Working(t) ==> t.minter == m
    requires lost == f.lost || lost == f.lost + {m}
    requires MinterSafe(WithTask(WithMinter(f, m, x), id, t).(lost := lost), m)
    ensures FaucetSafe(WithTask(WithMinter(f, m, x), id, t).(lost := lost))
  {
    var g := WithTask(WithMinter(f, m, x), id, t).(lost := lost);
    forall k: nat | k < |g.minters| ensures MinterSafe(g, k) {
      if k != m {
        assert SameFor(f, g, k);
        Frame(f, g, k);
      }
    }
  }

  lemma FreeIsUnused(f: Faucet, m: nat)
    requires m < |f.minters| && MinterSafe(f, m) && IsFree(f.minters[m])
    ensures Unused(f, m) && m !in f.lost
  {
    forall a ensures !UsedBy(f, m, a) {
    }
  }

  /** A minter outside its lock is never empty. */
  lemma NeverEmpty(f: Faucet, m: nat)
    requires FaucetSafe(f) && Unlocked(f, m)
    ensures f.minters[m].delegate.Some?
  {
    assert MinterSafe(f, m);
    if !Unused(f, m) {
      var a :| UsedBy(f, m, a);
      assert UserSafe(f, m, a);
    }
  }

  lemma TryStepSafe(f: Faucet, id: TaskId)
    requires FaucetSafe(f) && id in f.tasks && f.tasks[id].Trying?
    ensures FaucetSafe(TryStep(f, id, f.tasks[id].target, f.tasks[id].next))
  {
    var t, m := f.tasks[id], f.tasks[id].next;
    if m >= |f.minters| {
      IdleStep(f, id, Rejected);
    } else if Unlocked(f, m) {
      NeverEmpty(f, m);
      if f.minters[m].delegate.value.Busy? {
        IdleStep(f, id, Trying(t.target, m + 1));
      } else {
        FreeIsUnused(f, m);
        var x, u := Minter(None, Some(id)), Holding(t.target, m);
        TakenBy(f, m, x, id, u);
        MinterStep(f, m, x, id, u, f.lost);
      }
    }
  }

  /** The task becomes, or stays, the one user of the minter. */
  lemma TakenBy(f: Faucet, m: nat, x: Minter, id: TaskId, t: Task)
    requires m < |f.minters| && MinterSafe(f, m) && (Unused(f, m) || UsedBy(f, m, id)) && m !in f.lost
    requires Working(t) && t.minter == m
    requires if t.Holding? then x == Minter(None, Some(id)) else IsBusy(x)
    ensures MinterSafe(WithTask(WithMinter(f, m, x), id, t), m)
  {
    var g := WithTask(WithMinter(f, m, x), id, t);
    assert UsedBy(g, m, id);
    forall a | UsedBy(g, m, a) ensures a == id {
      assert a != id ==> UsedBy(f, m, a);
    }
  }

  /** The one user of the minter leaves it: free, or busy for ever. */
  lemma LeftBy(f: Faucet, m: nat, x: Minter, id: TaskId, t: Task, lost: set<nat>)
    requires m < |f.minters| && MinterSafe(f, m) && UsedBy(f, m, id) && !Working(t)
    requires if m in lost then IsBusy(x) else IsFree(x)
    ensures MinterSafe(WithTask(WithMinter(f, m, x), id, t).(lost := lost), m)
  {
    var g := WithTask(WithMinter(f, m, x), id, t).(lost := lost);
    forall a ensures !UsedBy(g, m, a) {
      assert UsedBy(g, m, a) ==> a != id && UsedBy(f, m, a);
    }
  }

  /** A minter that is used was not abandoned, and its user sees it as its phase calls for. */
  lemma UserSees(f: Faucet, id: TaskId)
    requires FaucetSafe(f) && id in f.tasks && Working(f.tasks[id])
    ensures var m := f.tasks[id].minter;
      && m < |f.minters| && MinterSafe(f, m) && UsedBy(f, m, id) && m !in f.lost
      && (if f.tasks[id].Holding? then f.minters[m] == Minter(None, Some(id)) else IsBusy(f.minters[m]))
  {
    var m := f.tasks[id].minter;
    assert MinterSafe(f, m) && UsedBy(f, m, id);
    assert UserSafe(f, m, id);
  }

  lemma CountStepSafe(f: Faucet, id: TaskId)
    requires FaucetSafe(f) && id in f.tasks && f.tasks[id].Counting?
    ensures FaucetSafe(CountStep(f, id, f.tasks[id].target, f.tasks[id].next, f.tasks[id].free))
  {
    var t := f.tasks[id];
    if t.next < |f.minters| && Unlocked(f, t.next) {
      NeverEmpty(f, t.next);
    }
    var g := CountStep(f, id, t.target, t.next, t.free);
    if g != f {
      IdleStep(f, id, g.tasks[id]);
    }
  }

  lemma HoldStepSafe(f: Faucet, id: TaskId)
    requires FaucetSafe(f) && id in f.tasks && f.tasks[id].Holding?
    ensures FaucetSafe(HoldStep(f, id, f.tasks[id].target, f.tasks[id].minter))
  {
    var t := f.tasks[id];
    UserSees(f, id);
    var x, u := Minter(Some(Busy(t.target)), None), Attempting(t.target, t.minter);
    TakenBy(f, t.minter, x, id, u);
    MinterStep(f, t.minter, x, id, u, f.lost);
  }

  /** A task gives its minter back as free, or leaves it busy for ever. */
  lemma LeaveSafe(f: Faucet, id: TaskId, x: Minter, t: Task, lost: set<nat>)
    requires FaucetSafe(f) && id in f.tasks && Working(f.tasks[id]) && !Working(t)
    requires (IsFree(x) && lost == f.lost) || (IsBusy(x) && lost == f.lost + {f.tasks[id].minter})
    requires f.tasks[id].minter < |f.minters|
    ensures FaucetSafe(WithTask(WithMinter(f, f.tasks[id].minter, x), id, t).(lost := lost))
  {
    var m := f.tasks[id].minter;
    UserSees(f, id);
    LeftBy(f, m, x, id, t, lost);
    MinterStep(f, m, x, id, t, lost);
  }

  /** The request hands its minter on to the task that waits for the transaction. */
  lemma SubmittedSafe(f: Faucet, id: TaskId, waiter: TaskId)
    requires FaucetSafe(f) && id in f.tasks && f.tasks[id].Attempting? && waiter !in f.tasks
    ensures FaucetSafe(WithTask(WithTask(f, id, Accepted), waiter, Waiting(f.tasks[id].minter)))
  {
    var m := f.tasks[id].minter;
    UserSees(f, id);
    var g := WithTask(WithTask(f, id, Accepted), waiter, Waiting(m));
    assert UsedBy(g, m, waiter);
    forall a | UsedBy(g, m, a) ensures a == waiter {
      assert a != waiter ==> a != id && UsedBy(f, m, a);
    }
    forall k: nat | k < |g.minters| ensures MinterSafe(g, k) {
      if k != m {
        assert SameFor(f, g, k);
        Frame(f, g, k);
      }
    }
  }

  lemma NextSafe(f: Faucet, ev: Event)
    requires FaucetSafe(f)
    ensures FaucetSafe(Next(f, ev))
  {
    match ev {
      case Request(id, target) =>
        if id !in f.tasks { IdleStep(f, id, Counting(target, 0, 0)); }
      case Step(id) =>
        if id in f.tasks {
          match f.tasks[id] {
            case Counting(_, _, _) => CountStepSafe(f, id);
            case Trying(_, _) => TryStepSafe(f, id);
            case Holding(_, _) => HoldStepSafe(f, id);
            case _ =>
          }
        }
      case SubmissionFailed(id) =>
        if id in f.tasks && f.tasks[id].Attempting? {
          UserSees(f, id);
          LeaveSafe(f, id, Minter(Some(Free), None), Trying(f.tasks[id].target, f.tasks[id].minter + 1), f.lost);
        }
      case Submitted(id, waiter) =>
        if id in f.tasks && f.tasks[id].Attempting? && waiter !in f.tasks { SubmittedSafe(f, id, waiter); }
      case TransactionDone(id) =>
        if id in f.tasks && f.tasks[id].Waiting? {
          UserSees(f, id);
          LeaveSafe(f, id, Minter(Some(Free), None), Ended, f.lost);
        }
      case Abandoned(id) =>
        if id in f.tasks && (f.tasks[id].Attempting? || f.tasks[id].Waiting?) {
          UserSees(f, id);
          var m := f.tasks[id].minter;
          LeaveSafe(f, id, f.minters[m], Dropped, f.lost + {m});
          assert f.minters[m := f.minters[m]] == f.minters;
        }
    }
  }

  lemma {:induction false} RunSafe(f: Faucet, events: seq<Event>)
    requires FaucetSafe(f)
    ensures FaucetSafe(Run(f, events))
    decreases |events|
  {
    if events != [] {
      RunSafe(f, events[..|events| - 1]);
      NextSafe(Run(f, events[..|events| - 1]), events[|events| - 1]);
    }
  }

  // ----- main results -----

  /**
   * Minter exclusivity: under every interleaving, at most one request or waiter works with a minter at a
   * time and a free minter has none; outside the lock a minter is never empty; and none of the program's
   * "[BUG]" panics, nor the waiter's assertion that its minter is busy, ever fires.
   */
  lemma MinterExclusivity(n: nat, events: seq<Event>, m: nat)
    requires m < n
    ensures var f := Run(Initial(n), events);
      && !f.bug && |f.minters| == n
      && (forall a, b :: UsedBy(f, m, a) && UsedBy(f, m, b) ==> a == b)
      && (IsFree(f.minters[m]) ==> Unused(f, m))
      && (f.minters[m].holder.None? ==> f.minters[m].delegate.Some?)
  {
    InitialSafe(n);
    RunSafe(Initial(n), events);
    SameMinters(Initial(n), events);
    var f := Run(Initial(n), events);
    assert MinterSafe(f, m);
    if IsFree(f.minters[m]) {
      FreeIsUnused(f, m);
    }
    if f.minters[m].holder.None? {
      NeverEmpty(f, m);
    }
  }

  lemma InitialSafe(n: nat)
    ensures FaucetSafe(Initial(n))
  {
  }

  lemma {:induction false} SameMinters(f: Faucet, events: seq<Event>)
    ensures |Run(f, events).minters| == |f.minters|
    decreases |events|
  {
    if events != [] {
      SameMinters(f, events[..|events| - 1]);
    }
  }

  /** The event drops the request or shuts down the waiter that works with minter `m`. */
  predicate Abandons(f: Faucet, ev: Event, m: nat) {
    && ev.Abandoned? && ev.id in f.tasks
    && (f.tasks[ev.id].Attempting? || f.tasks[ev.id].Waiting?) && f.tasks[ev.id].minter == m
  }

  lemma LostByStep(f: Faucet, ev: Event, m: nat)
    ensures m in Next(f, ev).lost <==> m in f.lost || Abandons(f, ev, m)
  {
  }

  /** Event `k` of the run abandons minter `m`. */
  predicate AbandonedAt(f: Faucet, events: seq<Event>, k: nat, m: nat) {
    k < |events| && Abandons(Run(f, events[..k]), events[k], m)
  }

  lemma AbandonedInFront(f: Faucet, events: seq<Event>, k: nat, m: nat)
    requires k < |events| - 1
    ensures AbandonedAt(f, events[..|events| - 1], k, m) == AbandonedAt(f, events, k, m)
  {
    assert events[..|events| - 1][..k] == events[..k];
  }

  /** A minter is lost exactly when its user was abandoned at some point of the run. */
  lemma {:induction false} LostExactly(f: Faucet, events: seq<Event>, m: nat)
    requires f.lost == {}
    ensures m in Run(f, events).lost <==> exists k :: AbandonedAt(f, events, k, m)
    decreases |events|
  {
    if events != [] {
      var front, last := events[..|events| - 1], |events| - 1;
      LostExactly(f, front, m);
      LostByStep(Run(f, front), events[last], m);
      assert AbandonedAt(f, events, last, m) == Abandons(Run(f, front), events[last], m);
      forall k: nat | k < last ensures AbandonedAt(f, front, k, m) == AbandonedAt(f, events, k, m) {
        AbandonedInFront(f, events, k, m);
      }
    }
  }

  lemma {:induction false} LostStays(f: Faucet, events: seq<Event>, k: nat, m: nat)
    requires k <= |events| && m in Run(f, events[..k]).lost
    ensures m in Run(f, events).lost
    decreases |events|
  {
    if k == |events| {
      assert events[..k] == events;
    } else {
      var front := events[..|events| - 1];
      assert front[..k] == events[..k];
      LostStays(f, front, k, m);
      LostByStep(Run(f, front), events[|events| - 1], m);
    }
  }

  /**
   * The minters no task works with are the free ones and the abandoned ones, and an abandoned minter is busy
   * for ever: once its request was dropped or its waiter shut down, it is busy and unused after every longer
   * run. Nothing else makes a minter unavailable for good.
   */
  lemma AbandonedForGood(n: nat, events: seq<Event>, k: nat, m: nat)
    requires m < n && k <= |events|
    ensures var f := Run(Initial(n), events);
      && |f.minters| == n
      && (Unused(f, m) <==> IsFree(f.minters[m]) || m in f.lost)
      && (m in Run(Initial(n), events[..k]).lost ==> m in f.lost && IsBusy(f.minters[m]) && Unused(f, m))
      && (m in f.lost <==> exists j :: AbandonedAt(Initial(n), events, j, m))
  {
    InitialSafe(n);
    RunSafe(Initial(n), events);
    SameMinters(Initial(n), events);
    LostExactly(Initial(n), events, m);
    if m in Run(Initial(n), events[..k]).lost {
      LostStays(Initial(n), events, k, m);
    }
    var f := Run(Initial(n), events);
    assert MinterSafe(f, m);
    if IsFree(f.minters[m]) {
      FreeIsUnused(f, m);
    }
  }

  /** A minter that is busy but not abandoned has a user, and the end of that user's work frees it. */
  lemma BusyMintersComeBack(n: nat, events: seq<Event>, m: nat)
    requires m < n
    ensures var f := Run(Initial(n), events);
      |f.minters| == n && (IsBusy(f.minters[m]) && m !in f.lost ==>
        exists id :: UsedBy(f, m, id)
          && (f.tasks[id].Waiting? ==> IsFree(Next(f, TransactionDone(id)).minters[m]))
          && (f.tasks[id].Attempting? ==> IsFree(Next(f, SubmissionFailed(id)).minters[m])))
  {
    InitialSafe(n);
    RunSafe(Initial(n), events);
    SameMinters(Initial(n), events);
    var f := Run(Initial(n), events);
    assert MinterSafe(f, m);
    if IsBusy(f.minters[m]) && m !in f.lost {
      var id :| UsedBy(f, m, id);
      UserSees(f, id);
    }
  }
}
