/**
 * What every step of the assembler keeps, whatever blocks the provider sends and whenever an
 * input/output operation fails.
 */
module AssemblerSafety {
  import opened Basics
  import opened Blocks
  import opened BlockVerification
  import opened Errors
  import opened AssemblerSpec

  // ----- the invariant -----

  /** `b` passed verification under some epoch before it was stored. */
  ghost predicate Vetted(rules: Rules, h: History, b: CertifiedBlock) {
    exists a :: a in h.accepted && a.block.base == b && Verify(rules, a.epoch, a.block) == Success
  }

  predicate OnDisk(d: Disk, b: CertifiedBlock) {
    b.Height() in d.blocks && d.blocks[b.Height()] == b
  }

  ghost predicate Good(rules: Rules, d: Disk, h: History, b: CertifiedBlock) {
    Vetted(rules, h, b) && OnDisk(d, b)
  }

  /** The executed blocks are one linked chain, verified and on disk, and the record names its end. */
  ghost predicate ChainSafe(rules: Rules, d: Disk, h: History) {
    && |h.executed| > 0
    && Linked(h.executed)
    && d.executed == Some(h.executed[|h.executed| - 1])
    && forall i :: 1 <= i < |h.executed| ==> Good(rules, d, h, h.executed[i])
  }

  /** Every batch of every accepted block is on disk. */
  ghost predicate BatchesStored(d: Disk, h: History) {
    forall a, p :: a in h.accepted && p in a.block.batches ==> p.key in d.batches
  }

  /** The committed record equals the executed one, or is its verified direct successor. */
  ghost predicate RecordsLinked(rules: Rules, d: Disk, h: History) {
    && d.committed.Some? && d.executed.Some?
    && (d.committed == d.executed
        || (Follows(d.executed.value, d.committed.value) && Good(rules, d, h, d.committed.value)))
  }

  ghost predicate DiskSafe(rules: Rules, d: Disk, h: History) {
    ChainSafe(rules, d, h) && BatchesStored(d, h) && RecordsLinked(rules, d, h)
  }

  ghost predicate SlotSafe(rules: Rules, s: State, k: Height) {
    k in s.pending ==>
      && k > s.lastCommitted
      && match s.pending[k]
         case Waiting(b) => b.Height() == k && Good(rules, s.disk, s.history, b)
         case Scheduled(_) => k == s.Next()
  }

  /** The part of the invariant that does not mention the feedback channel. */
  ghost predicate Core(rules: Rules, s: State) {
    && DiskSafe(rules, s.disk, s.history)
    && s.disk.committed == s.disk.executed
    && s.disk.executed.value.Info() == s.lastExecuted
    && s.lastCommitted == s.lastExecuted.Height()
    && (forall k :: k in s.pending ==> SlotSafe(rules, s, k))
    && (s.pendingSync.Some? ==> s.pendingSync.value == s.Next())
  }

  /** Single flight: the channel holds the one scheduled block, which is the next one to execute. */
  ghost predicate InFlight(rules: Rules, s: State) {
    if s.channel == [] then
      s.Next() in s.pending ==> s.pending[s.Next()].Waiting?
    else
      && |s.channel| == 1
      && !s.epoch.over
      && s.channel[0].Height() == s.Next()
      && s.Next() in s.pending && s.pending[s.Next()] == Scheduled(s.channel[0].Info())
      && Good(rules, s.disk, s.history, s.channel[0])
  }

  ghost predicate Safe(rules: Rules, s: State) {
    Core(rules, s) && InFlight(rules, s)
  }

  /** Errors an arbitrary provider, epoch manager, disk or executor can cause. */
  predicate External(e: AssemblerError) {
    match e
    case Fatal(c) => c in {StoreFailure, ByzantineBlock, ParentMismatch, EpochNotOver, BadNewEpoch}
    case ExecutionFailed => true
    case _ => false
  }

  /** The run goes on with at most a failed send to report, or ends with an external error. */
  predicate OnlyExternalErrors(o: Outcome) {
    match o
    case Running(_, report) => report.Some? ==> report.value == RpcInternalError && !Ends(report.value)
    case Halted(_, _, cause) => cause.Some? ==> External(cause.value) && Ends(cause.value)
  }

  ghost predicate OutcomeSafe(rules: Rules, o: Outcome) {
    && OnlyExternalErrors(o)
    && if o.Running? then Safe(rules, o.state) else DiskSafe(rules, o.disk, o.history)
  }

  // ----- small facts -----

  lemma {:induction false} LinkedHeights(c: seq<CertifiedBlock>, i: nat)
    requires Linked(c) && i < |c|
    ensures c[i].Height() == c[0].Height() + i
  {
    if i > 0 {
      LinkedHeights(c, i - 1);
      assert Follows(c[i - 1], c[i - 1 + 1]);
    }
  }

  /** A history and disk that only grow, away from `b`'s height, keep `b` good. */
  lemma GoodGrows(rules: Rules, d: Disk, h: History, d': Disk, h': History, b: CertifiedBlock)
    requires Good(rules, d, h, b) && h.accepted <= h'.accepted && OnDisk(d', b)
    ensures Good(rules, d', h', b)
  {
    var a :| a in h.accepted && a.block.base == b && Verify(rules, a.epoch, a.block) == Success;
    assert a in h'.accepted;
  }

  lemma {:induction false} WriteBatchesKeys(m: map<Hash, seq<nat>>, batches: seq<PackedBatch>)
    ensures forall k :: k in m ==> k in WriteBatches(m, batches)
    ensures forall p :: p in batches ==> p.key in WriteBatches(m, batches)
    decreases |batches|
  {
    if |batches| > 0 {
      var front := batches[..|batches| - 1];
      WriteBatchesKeys(m, front);
      assert batches == front + [batches[|batches| - 1]];
    }
  }

  // ----- each operation keeps the invariant -----

  lemma TrySyncSafe(rules: Rules, s: State, io: Io)
    requires Safe(rules, s)
    ensures OutcomeSafe(rules, TrySync(s, io)) && TrySync(s, io).Running?
  {
    var o := TrySync(s, io);
    assert o.Running?;
    SameSafe(rules, s, o.state);
  }

  /** Safety does not depend on the requests sent, the heights received or the highest block seen. */
  lemma SameSafe(rules: Rules, s: State, s': State)
    requires Safe(rules, s)
    requires s' == s.(pendingSync := s'.pendingSync, highest := s'.highest,
                      history := s.history.(requests := s'.history.requests, received := s'.history.received))
    requires s'.pendingSync.Some? ==> s'.pendingSync.value == s.Next()
    ensures Safe(rules, s')
  {
    SameDisk(rules, s, s');
    forall k | k in s'.pending ensures SlotSafe(rules, s', k) {
      assert SlotSafe(rules, s, k);
    }
  }

  lemma SameDisk(rules: Rules, s: State, s': State)
    requires DiskSafe(rules, s.disk, s.history)
    requires s'.disk == s.disk
    requires s'.history.accepted == s.history.accepted && s'.history.executed == s.history.executed
    ensures DiskSafe(rules, s'.disk, s'.history)
    ensures forall b :: Good(rules, s'.disk, s'.history, b) <==> Good(rules, s.disk, s.history, b)
  {
  }

  /** `b` may be executed now: verified, stored, next in the chain, nothing else in flight. */
  ghost predicate Ready(rules: Rules, s: State, b: CertifiedBlock) {
    && Core(rules, s)
    && s.channel == [] && !s.epoch.over && s.pendingSync == None
    && Good(rules, s.disk, s.history, b)
    && b.Height() == s.Next() && b.Parent() == s.lastExecuted.hash
  }

  /** Recording the next block keeps the chain, whether or not the run survives. */
  lemma RecordSafe(rules: Rules, d: Disk, h: History, b: CertifiedBlock)
    requires DiskSafe(rules, d, h) && d.executed.Some?
    requires Follows(d.executed.value, b) && Good(rules, d, h, b)
    ensures DiskSafe(rules, d.(committed := Some(b)), h)
    ensures DiskSafe(rules, d.(committed := Some(b), executed := Some(b)), Record(h, b))
  {
    var d1, d2, h2 := d.(committed := Some(b)), d.(committed := Some(b), executed := Some(b)), Record(h, b);
    forall i | 1 <= i < |h.executed| ensures Good(rules, d1, h, h.executed[i]) {
      GoodGrows(rules, d, h, d1, h, h.executed[i]);
    }
    GoodGrows(rules, d, h, d1, h, b);
    forall i | 1 <= i < |h2.executed| ensures Good(rules, d2, h2, h2.executed[i]) {
      GoodGrows(rules, d, h, d2, h2, h2.executed[i]);
    }
  }

  lemma AdvanceSafe(rules: Rules, s: State, b: CertifiedBlock, epochChanged: bool)
    requires Ready(rules, s, b)
    ensures Safe(rules, Advance(s, b, epochChanged))
  {
    var s' := Advance(s, b, epochChanged);
    RecordSafe(rules, s.disk, s.history, b);
    forall k | k in s'.pending ensures SlotSafe(rules, s', k) && s'.pending[k].Waiting? {
      assert SlotSafe(rules, s, k);
      if s.pending[k].Waiting? {
        GoodGrows(rules, s.disk, s.history, s'.disk, s'.history, s.pending[k].block);
      }
    }
  }

  lemma ExecuteBlockSafe(rules: Rules, s: State, b: CertifiedBlock, io: Io)
    requires Ready(rules, s, b)
    ensures OutcomeSafe(rules, ExecuteBlock(s, b, io))
  {
    RecordSafe(rules, s.disk, s.history, b);
    if io.commitOk && io.exec.Executed? {
      AdvanceSafe(rules, s, b, io.exec.epochChanged);
    }
  }

  lemma ScheduleNextSafe(rules: Rules, s: State, io: Io)
    requires Safe(rules, s) && s.channel == [] && !s.epoch.over
    ensures OutcomeSafe(rules, ScheduleNext(s, io))
  {
    var o := ScheduleNext(s, io);
    if s.Next() in s.pending && s.pending[s.Next()].Waiting? {
      assert SlotSafe(rules, s, s.Next());
      if o.Running? {
        forall k | k in o.state.pending ensures SlotSafe(rules, o.state, k) {
          assert SlotSafe(rules, s, k);
        }
      }
    } else {
      TrySyncSafe(rules, s, io);
    }
  }

  lemma EndEpochSafe(rules: Rules, s: State, b: CertifiedBlock, io: Io)
    requires Safe(rules, s) && s.channel == []
    ensures OutcomeSafe(rules, EndEpochAt(s, b, io))
  {
    var o := EndEpochAt(s, b, io);
    if o.Running? {
      BoundarySafe(rules, s, b.qc);
    }
  }

  lemma BoundarySafe(rules: Rules, s: State, qc: Certificate)
    requires Safe(rules, s)
    ensures Safe(rules, s.(disk := s.disk.(boundary := Some(qc))))
  {
    var s' := s.(disk := s.disk.(boundary := Some(qc)));
    forall b | Good(rules, s.disk, s.history, b) ensures Good(rules, s'.disk, s'.history, b) {
      GoodGrows(rules, s.disk, s.history, s'.disk, s'.history, b);
    }
    forall k | k in s'.pending ensures SlotSafe(rules, s', k) {
      assert SlotSafe(rules, s, k);
    }
  }

  lemma ExecuteChainSafe(rules: Rules, s: State, b: CertifiedBlock, io: Io)
    requires Ready(rules, s, b)
    ensures OutcomeSafe(rules, ExecuteChain(s, b, io))
  {
    ExecuteBlockSafe(rules, s, b, io);
    var o := ExecuteBlock(s, b, io);
    if o.Running? {
      if o.state.epoch.over {
        EndEpochSafe(rules, o.state, b, io);
      } else {
        ScheduleNextSafe(rules, o.state, io);
      }
    }
  }

  /** Writing batches, and a block at a height above everything executed, overwrites nothing needed. */
  lemma PersistKeepsDisk(rules: Rules, d: Disk, h: History, b: FullBlock, writes: nat)
    requires DiskSafe(rules, d, h) && d.committed == d.executed
    requires b.base.Height() > d.executed.value.Height()
    ensures DiskSafe(rules, PersistOnDisk(d, b, writes), h)
  {
    var d' := PersistOnDisk(d, b, writes);
    WriteBatchesKeys(d.batches, b.batches);
    if writes <= |b.batches| {
      WriteBatchesKeys(d.batches, b.batches[..writes]);
    }
    forall i | 1 <= i < |h.executed| ensures Good(rules, d', h, h.executed[i]) {
      LinkedHeights(h.executed, i);
      LinkedHeights(h.executed, |h.executed| - 1);
      GoodGrows(rules, d, h, d', h, h.executed[i]);
    }
  }

  lemma PersistedSafe(rules: Rules, s: State, b: FullBlock)
    requires Safe(rules, s) && !s.HasEntry(b.base.Height())
    requires Verify(rules, s.epoch, b) == Success
    ensures Safe(rules, Persisted(s, b))
    ensures Good(rules, Persisted(s, b).disk, Persisted(s, b).history, b.base)
  {
    var s' := Persisted(s, b);
    PersistKeepsDisk(rules, s.disk, s.history, b, |b.batches| + 1);
    WriteBatchesKeys(s.disk.batches, b.batches);
    assert Acceptance(b, s.epoch) in s'.history.accepted;
    forall x | Good(rules, s.disk, s.history, x) && x.Height() != b.base.Height()
      ensures Good(rules, s'.disk, s'.history, x)
    {
      GoodGrows(rules, s.disk, s.history, s'.disk, s'.history, x);
    }
    assert ChainSafe(rules, s'.disk, s'.history) by {
      forall i | 1 <= i < |s.history.executed| ensures Good(rules, s'.disk, s'.history, s.history.executed[i]) {
        LinkedHeights(s.history.executed, i);
        LinkedHeights(s.history.executed, |s.history.executed| - 1);
      }
    }
    forall k | k in s'.pending ensures SlotSafe(rules, s', k) {
      assert SlotSafe(rules, s, k);
    }
  }

  lemma CachedSafe(rules: Rules, s: State, b: CertifiedBlock)
    requires Safe(rules, s) && !s.HasEntry(b.Height()) && Good(rules, s.disk, s.history, b)
    requires b.Height() != s.Next()
    ensures Safe(rules, s.(pending := s.pending[b.Height() := Waiting(b)]))
  {
    var s' := s.(pending := s.pending[b.Height() := Waiting(b)]);
    forall k | k in s'.pending ensures SlotSafe(rules, s', k) {
      assert k != b.Height() ==> SlotSafe(rules, s, k);
    }
  }

  lemma CacheSafe(rules: Rules, s: State, b: CertifiedBlock, io: Io)
    requires Safe(rules, s) && !s.HasEntry(b.Height()) && Good(rules, s.disk, s.history, b)
    requires b.Height() != s.Next()
    ensures OutcomeSafe(rules, CacheAndSync(s, b, io))
  {
    CachedSafe(rules, s, b);
    TrySyncSafe(rules, s.(pending := s.pending[b.Height() := Waiting(b)]), io);
  }

  lemma HandleFullBlockSafe(rules: Rules, s: State, b: FullBlock, io: Io)
    requires Safe(rules, s) && !Skips(s, b.base) && Verify(rules, s.epoch, b) == Success
    ensures OutcomeSafe(rules, HandleFullBlock(s, b, io))
  {
    PersistKeepsDisk(rules, s.disk, s.history, b, io.persistWrites);
    PersistedSafe(rules, s, b);
    if io.persistWrites > |b.batches| {
      var s1 := Persisted(s, b);
      var s2 := ClearSync(s1, b.base.Height());
      SameSafe(rules, s1, s2);
      match FollowsChain(s1, b.base) {
        case None =>
        case Some(true) =>
          assert s.channel == [];
          ExecuteChainSafe(rules, s2, b.base, io);
        case Some(false) =>
          CacheSafe(rules, s2, b.base, io);
      }
    }
  }

  lemma HandleIncomingSafe(rules: Rules, s: State, b: FullBlock, io: Io)
    requires Safe(rules, s)
    ensures OutcomeSafe(rules, HandleIncoming(rules, s, b, io))
  {
    var s1 := Receive(Observe(s, b.base), b);
    SameSafe(rules, s, s1);
    if !Skips(s1, b.base) {
      match Verify(rules, s1.epoch, b) {
        case OldEpochBlock =>
        case InvalidBlock =>
        case FutureEpochBlock => TrySyncSafe(rules, s1, io);
        case Success => HandleFullBlockSafe(rules, s1, b, io);
      }
    }
  }

  /** Taking the block out of the channel leaves it ready for execution if its parent matches. */
  lemma TakenReady(rules: Rules, s: State)
    requires Safe(rules, s) && s.channel != []
    ensures var s1 := ClearSync(s.(channel := s.channel[1..]), s.channel[0].Height());
      s.channel[0].Parent() == s.lastExecuted.hash ==> Ready(rules, s1, s.channel[0])
  {
    var s1 := ClearSync(s.(channel := s.channel[1..]), s.channel[0].Height());
    forall k | k in s1.pending ensures SlotSafe(rules, s1, k) {
      assert SlotSafe(rules, s, k);
    }
  }

  lemma HandleScheduledSafe(rules: Rules, s: State, io: Io)
    requires Safe(rules, s) && s.channel != []
    ensures OutcomeSafe(rules, HandleScheduled(s.(channel := s.channel[1..]), s.channel[0], io))
  {
    TakenReady(rules, s);
    if s.channel[0].Parent() == s.lastExecuted.hash {
      ExecuteChainSafe(rules, ClearSync(s.(channel := s.channel[1..]), s.channel[0].Height()), s.channel[0], io);
    }
  }

  lemma HandleNotificationSafe(rules: Rules, s: State, note: Notification, io: Io)
    requires Safe(rules, s)
    ensures OutcomeSafe(rules, HandleNotification(rules, s, note, io))
  {
    if s.epoch.over && note.NewEpoch? && !note.state.over && rules.extendsEpoch(note.state, s.epoch) {
      var s' := s.(pending := Above(s.pending, note.state.startHeight), epoch := note.state);
      forall k | k in s'.pending ensures SlotSafe(rules, s', k) {
        assert SlotSafe(rules, s, k);
      }
      TrySyncSafe(rules, s', io);
    }
  }

  /** One turn of the loop, on any event and any failure, keeps the invariant. */
  lemma StepSafe(rules: Rules, s: State, ev: Event)
    requires Safe(rules, s)
    ensures OutcomeSafe(rules, Step(rules, s, ev))
  {
    match ev {
      case EpochNotification(note, io) => HandleNotificationSafe(rules, s, note, io);
      case IncomingBlock(b, io) => HandleIncomingSafe(rules, s, b, io);
      case ScheduledBlock(io) => if s.channel != [] { HandleScheduledSafe(rules, s, io); }
      case SyncTimer(io) => SameSafe(rules, s, Step(rules, s, ev).state);
      case InputClosed =>
    }
  }

  /** A whole session from a safe state stays safe and meets only external errors. */
  lemma {:induction false} RunSafe(rules: Rules, s: State, events: seq<Event>)
    requires Safe(rules, s)
    ensures OutcomeSafe(rules, Run(rules, s, events))
    decreases |events|
  {
    if events != [] {
      RunSafe(rules, s, events[..|events| - 1]);
      var o := Run(rules, s, events[..|events| - 1]);
      if o.Running? {
        StepSafe(rules, o.state, events[|events| - 1]);
      }
    }
  }
}
