/**
 * The assembler as the program has it: an object over a block store, a synchronizer and a verifier.
 * Every method is proved to do what the machine over plain values does, whatever the bucket size of
 * the store, so the results about runs of that machine hold of `Run`.
 */
module ChainStateAssemblerModule {
  import opened Basics
  import opened Blocks
  import opened Errors
  import opened AssemblerSpec
  import opened BlockStoreModule
  import opened Synchronizer
  import opened BlockVerification
  import opened AssemblerSafety
  import Lifetime

  /** The result of a step: `Done(true)` to go on, `Done(false)` to stop, or an error. */
  datatype StepResult = Done(goOn: bool) | Failed(error: AssemblerError)

  function Report(o: Outcome): StepResult {
    match o
    case Running(_, report) => if report.Some? then Failed(report.value) else Done(true)
    case Halted(_, _, cause) => if cause.Some? then Failed(cause.value) else Done(false)
  }

  /** The run loop's decision after a step. */
  predicate GoesOn(r: StepResult) {
    match r
    case Done(goOn) => goOn
    case Failed(error) => !Ends(error)
  }

  lemma ReportDecides(o: Outcome)
    requires OnlyExternalErrors(o)
    ensures GoesOn(Report(o)) == o.Running?
  {
  }

  /**
   * `seen` is `io`, except that a block held in memory is there even if reading the disk would fail.
   */
  ghost predicate SameIo(io: Io, seen: Io) {
    seen == io || seen == io.(loadOk := true)
  }

  ghost predicate SameEvent(ev: Event, seen: Event) {
    match (ev, seen)
    case (IncomingBlock(b, io), IncomingBlock(b', io')) => b == b' && SameIo(io, io')
    case (ScheduledBlock(io), ScheduledBlock(io')) => SameIo(io, io')
    case _ => ev == seen
  }

  /** `seen` is how a first part of `events` was seen. */
  ghost predicate SameEvents(events: seq<Event>, seen: seq<Event>) {
    |seen| <= |events| && forall i :: 0 <= i < |seen| ==> SameEvent(events[i], seen[i])
  }

  lemma SameEventsExtend(events: seq<Event>, seen: seq<Event>, ev: Event)
    requires SameEvents(events, seen) && |seen| < |events| && SameEvent(events[|seen|], ev)
    ensures SameEvents(events, seen + [ev])
  {
  }

  lemma RunExtends(rules: Rules, s: State, events: seq<Event>, ev: Event)
    requires AssemblerSpec.Run(rules, s, events).Running?
    ensures AssemblerSpec.Run(rules, s, events + [ev]) == Step(rules, AssemblerSpec.Run(rules, s, events).state, ev)
  {
    assert (events + [ev])[..|events|] == events;
  }

  lemma KeysAbove(rules: Rules, s: State, c: Cache, blocks: map<Height, CertifiedBlock>)
    requires Safe(rules, s) && CacheValid(c, blocks) && s.pending == PlainMap(c, blocks)
    ensures forall k :: k in c ==> k > s.lastCommitted
  {
    forall k | k in c ensures k > s.lastCommitted {
      assert k in s.pending && SlotSafe(rules, s, k);
    }
  }

  class ChainStateAssembler {
    const store: BlockStore
    const synchronizer: SynchronizationContext
    const verifier: BlockVerifier
    var lastExecutedBlockInfo: BlockInfo
    var lastObservedHighestBlock: Option<BlockInfo>
    /** The feedback channel of capacity one. */
    var readyToExecute: seq<CertifiedBlock>

    ghost var executed: seq<CertifiedBlock>
    ghost var accepted: set<Acceptance>
    ghost var received: set<Height>

    /** Commitment is ahead of execution by one block at most. */
    ghost predicate Valid()
      reads this, store
    {
      store.Valid() && store.lastCommittedHeight <= NextBlockHeight()
    }

    ghost function Past(): History
      reads this, synchronizer
    {
      History(executed, accepted, received, synchronizer.sent)
    }

    /** The plain state this object stands for. */
    ghost function View(): State
      requires store.Valid()
      reads this, store, synchronizer, verifier
    {
      State(lastExecutedBlockInfo, lastObservedHighestBlock, synchronizer.pendingSyncRequest, store.Pending(),
            store.lastCommittedHeight, verifier.epochState, readyToExecute, store.disk, Past())
    }

    /** The object is where the machine's outcome says, and reported what it says. */
    ghost predicate Matches(r: StepResult, o: Outcome)
      reads this, store, synchronizer, verifier
    {
      match o
      case Running(s, _) =>
        Valid() && View() == s && r == Report(o)
      case Halted(d, h, _) =>
        store.disk == d && Past() == h && r == Report(o)
    }

    /** Over an initialised store. The blocks recorded so far are `past`. */
    constructor (store: BlockStore, epoch: EpochState, ghost past: History)
      requires store.disk.executed.Some? && store.Valid() && store.pendingExecution == map[]
      ensures this.store == store && fresh(synchronizer) && fresh(verifier)
      ensures store.lastCommittedHeight <= store.disk.executed.value.Height() + 1 ==> Valid()
      ensures View() == Lifetime.Fresh(store.disk, store.lastCommittedHeight, past, epoch)
    {
      this.store := store;
      synchronizer := new SynchronizationContext();
      verifier := new BlockVerifier(epoch);
      lastExecutedBlockInfo := store.disk.executed.value.Info();
      lastObservedHighestBlock := None;
      readyToExecute := [];
      executed, accepted, received := past.executed, past.accepted, {};
    }

    function NextBlockHeight(): Height
      reads this
    {
      lastExecutedBlockInfo.Height() + 1
    }

    method TryToSyncSkippedBlocks(io: Io) returns (r: StepResult)
      requires Valid()
      modifies synchronizer
      ensures Matches(r, TrySync(old(View()), io))
    {
      if lastObservedHighestBlock.Some? {
        var next := NextBlockHeight();
        if lastObservedHighestBlock.value.Height() >= next && !store.HasEntry(next) {
          var error := synchronizer.TryPostSyncRequest(next, io.sendOk);
          if error.Some? {
            return Failed(error.value);
          }
        }
      }
      r := Done(true);
    }

    method ExecuteBlock(b: CertifiedBlock, io: Io) returns (r: StepResult)
      requires store.Valid() && store.lastCommittedHeight <= b.Height()
      modifies this, store, verifier
      ensures Matches(r, AssemblerSpec.ExecuteBlock(old(View()), b, io))
      ensures r.Done? ==> store.pendingExecution == Above(old(store.pendingExecution), b.Height())
    {
      var committed := store.UpdateLastCommittedBlockInfo(b, io.commitOk);
      if committed.Err? {
        return Failed(FromStoreError(committed.error));
      }
      match io.exec {
        case ExecutionError(recorded) =>
          if recorded {
            store.RecordExecuted(b);
            executed := executed + [b];
          }
          return Failed(ExecutionFailed);
        case Executed(epochChanged) =>
          store.RecordExecuted(b);
          executed := executed + [b];
          if epochChanged {
            verifier.EndCurrentEpoch();
          }
          lastExecutedBlockInfo := b.Info();
          store.Retain(b.Height());
          r := Done(true);
      }
    }

    /** Sends the block waiting at the next height to the feedback channel, or asks the provider for it. */
    method ScheduleNextBlock(io: Io) returns (r: StepResult, ghost seen: Io)
      requires Valid()
      modifies this`readyToExecute, store, synchronizer
      ensures SameIo(io, seen) && Matches(r, ScheduleNext(old(View()), seen))
    {
      seen := if store.NeedsLoad(NextBlockHeight()) then io else io.(loadOk := true);
      var next := store.TakeNextReadyBlockByHeight(NextBlockHeight(), io.loadOk);
      match next {
        case Err(error) =>
          r := Failed(FromStoreError(error));
        case Ok(Some(block)) =>
          if |readyToExecute| >= 1 {
            r := Failed(Fatal(ChannelFull));
          } else {
            readyToExecute := readyToExecute + [block];
            r := Done(true);
          }
        case Ok(None) =>
          r := TryToSyncSkippedBlocks(io);
      }
    }

    method TryExecuteBlockChain(b: CertifiedBlock, io: Io) returns (r: StepResult, ghost seen: Io)
      requires Valid() && store.lastCommittedHeight <= b.Height()
      modifies this, store, verifier, synchronizer
      ensures SameIo(io, seen) && Matches(r, ExecuteChain(old(View()), b, seen))
    {
      seen := io;
      r := ExecuteBlock(b, io);
      if r.Failed? {
        return;
      }
      if verifier.epochState.over {
        var updated := store.UpdateEpochBoundaryBlockInfo(b, io.boundaryOk);
        if updated.Err? {
          r := Failed(FromStoreError(updated.error));
        }
        return;
      }
      r, seen := ScheduleNextBlock(io);
    }

    /** Whether the block is the direct successor of the last executed one; `None` on a wrong parent. */
    function DoesFollowChain(b: CertifiedBlock): (r: Option<bool>)
      requires Valid()
      reads this, store, synchronizer, verifier
      ensures r == FollowsChain(View(), b)
    {
      if b.Height() == NextBlockHeight() then
        if b.Parent() == lastExecutedBlockInfo.hash then Some(true) else None
      else Some(false)
    }

    /** Caches a stored block for later, and asks for the next one if that is missing. */
    method CacheBlock(b: CertifiedBlock, io: Io) returns (r: StepResult)
      requires Valid() && OnDisk(store.disk, b)
      modifies store, synchronizer
      ensures Matches(r, CacheAndSync(old(View()), b, io))
    {
      var cached := store.Cache(b);
      if cached.Err? {
        return Failed(FromStoreError(cached.error));
      }
      r := TryToSyncSkippedBlocks(io);
    }

    /** Called for a verified block that has no entry in the store, so nothing cached is overwritten. */
    method HandleFullBlock(b: FullBlock, io: Io) returns (r: StepResult, ghost seen: Io)
      requires Valid() && b.base.Height() !in store.pendingExecution
      modifies this, store, verifier, synchronizer
      ensures SameIo(io, seen) && Matches(r, AssemblerSpec.HandleFullBlock(old(View()), b, seen))
    {
      seen := io;
      if b.base.Height() <= lastExecutedBlockInfo.Height() {
        return Failed(Regression), io;
      }
      var persisted := store.Persist(b, io.persistWrites);
      if persisted.Err? {
        return Failed(FromStoreError(persisted.error)), io;
      }
      accepted := accepted + {Acceptance(b, verifier.epochState)};
      var follows := DoesFollowChain(b.base);
      if follows.None? {
        return Failed(Fatal(ParentMismatch)), io;
      }
      synchronizer.Clear(b.base.Height());
      if follows.value {
        r, seen := TryExecuteBlockChain(b.base, io);
      } else {
        r := CacheBlock(b.base, io);
      }
    }

    method ObserveBlock(b: CertifiedBlock)
      requires Valid()
      modifies this`lastObservedHighestBlock
      ensures View() == Observe(old(View()), b)
    {
      var highest := if lastObservedHighestBlock.Some? then lastObservedHighestBlock.value.Height() else 0;
      if b.Height() > highest {
        lastObservedHighestBlock := Some(b.Info());
      }
    }

    predicate ShouldBeSkipped(b: CertifiedBlock)
      reads this, store, verifier
    {
      verifier.epochState.over || b.Height() <= lastExecutedBlockInfo.Height() || store.HasEntry(b.Height())
    }

    method HandleIncomingBlock(rules: Rules, b: FullBlock, io: Io) returns (r: StepResult, ghost seen: Io)
      requires Valid()
      modifies this, store, verifier, synchronizer
      ensures SameIo(io, seen) && Matches(r, HandleIncoming(rules, old(View()), b, seen))
    {
      seen := io;
      ObserveBlock(b.base);
      if b.base.Epoch() == verifier.epochState.epoch {
        received := received + {b.base.Height()};
      }
      assert View() == Receive(Observe(old(View()), b.base), b);
      if ShouldBeSkipped(b.base) {
        return Done(true), io;
      }
      match Verify(rules, verifier.epochState, b) {
        case OldEpochBlock => r := Done(true);
        case FutureEpochBlock => r := TryToSyncSkippedBlocks(io);
        case InvalidBlock => r := Failed(Fatal(ByzantineBlock));
        case Success => r, seen := HandleFullBlock(b, io);
      }
    }

    method HandleScheduledBlock(b: CertifiedBlock, io: Io) returns (r: StepResult, ghost seen: Io)
      requires Valid()
      modifies this, store, verifier, synchronizer
      ensures SameIo(io, seen) && Matches(r, HandleScheduled(old(View()), b, seen))
    {
      seen := io;
      synchronizer.Clear(b.Height());
      if verifier.epochState.over {
        return Failed(Regression), io;
      }
      match DoesFollowChain(b) {
        case None => r := Failed(Fatal(ParentMismatch));
        case Some(true) => r, seen := TryExecuteBlockChain(b, io);
        case Some(false) =>
          store.Retain(b.Height());
          r := Failed(Regression);
      }
    }

    method HandleEpochManagerNotification(rules: Rules, note: Notification, io: Io) returns (r: StepResult)
      requires Valid()
      modifies this, store, verifier, synchronizer
      ensures Matches(r, HandleNotification(rules, old(View()), note, io))
    {
      if !verifier.epochState.over {
        return Failed(Fatal(EpochNotOver));
      }
      match note {
        case EndEpoch => r := Done(true);
        case NewEpoch(e) =>
          if e.over || !rules.extendsEpoch(e, verifier.epochState) {
            return Failed(Fatal(BadNewEpoch));
          }
          store.Retain(e.startHeight);
          verifier.Update(e);
          r := TryToSyncSkippedBlocks(io);
      }
    }

    method DoStep(rules: Rules, ev: Event) returns (r: StepResult, ghost seen: Event)
      requires Valid()
      modifies this, store, verifier, synchronizer
      ensures SameEvent(ev, seen) && Matches(r, Step(rules, old(View()), seen))
    {
      seen := ev;
      match ev {
        case EpochNotification(note, io) =>
          r := HandleEpochManagerNotification(rules, note, io);
        case InputClosed =>
          r := Done(false);
        case IncomingBlock(b, io) =>
          ghost var seenIo;
          r, seenIo := HandleIncomingBlock(rules, b, io);
          seen := IncomingBlock(b, seenIo);
        case ScheduledBlock(io) =>
          if readyToExecute == [] {
            return Done(true), ev;
          }
          var b := readyToExecute[0];
          readyToExecute := readyToExecute[1..];
          ghost var seenIo;
          r, seenIo := HandleScheduledBlock(b, io);
          seen := ScheduledBlock(seenIo);
        case SyncTimer(io) =>
          var error := synchronizer.Retry(io.sendOk);
          r := if error.Some? then Failed(error.value) else Done(true);
      }
    }

    /**
     * One turn of the loop, and whether it was the last: only fatal and execution errors end the run.
     * The session began in `s0` and took the events `past` so far.
     */
    method Turn(rules: Rules, ev: Event, ghost s0: State, ghost past: seq<Event>)
      returns (r: StepResult, goOn: bool, ghost seen: Event)
      requires Safe(rules, s0) && Valid() && InSession(rules, s0, past)
      modifies this, store, verifier, synchronizer
      ensures SameEvent(ev, seen) && Matches(r, AssemblerSpec.Run(rules, s0, past + [seen]))
      ensures goOn == AssemblerSpec.Run(rules, s0, past + [seen]).Running?
    {
      RunSafe(rules, s0, past);
      r, seen := DoStep(rules, ev);
      RunExtends(rules, s0, past, seen);
      RunSafe(rules, s0, past + [seen]);
      goOn := GoesOn(r);
      ReportDecides(AssemblerSpec.Run(rules, s0, past + [seen]));
    }

    /** The session that began in `s0` is still running after `past`, and is where this object is. */
    ghost predicate InSession(rules: Rules, s0: State, past: seq<Event>)
      requires Valid()
      reads this, store, synchronizer, verifier
    {
      var o := AssemblerSpec.Run(rules, s0, past);
      o.Running? && o.state == View()
    }

    /** Bounded memory: at every turn the store holds at most its bucket size of full blocks. */
    lemma SafeAndBounded(rules: Rules, s0: State, past: seq<Event>)
      requires Safe(rules, s0) && Valid() && InSession(rules, s0, past)
      ensures Safe(rules, View()) && |InMemoryHeights(store.pendingExecution)| <= store.bucketSize
    {
      RunSafe(rules, s0, past);
      KeysAbove(rules, View(), store.pendingExecution, store.disk.blocks);
      BoundedMemory(store.pendingExecution, store.lastCommittedHeight, store.bucketSize);
    }

    /**
     * The run loop. From a safe state it follows the plain machine on the events it takes, so
     * `RunSafe` and all that follows from it apply, for every bucket size; and it never holds more full
     * blocks than the bucket size.
     */
    method Run(rules: Rules, events: seq<Event>, ghost s0: State) returns (r: StepResult, ghost seen: seq<Event>)
      requires Valid() && s0 == View() && Safe(rules, s0)
      modifies this, store, verifier, synchronizer
      ensures SameEvents(events, seen)
      ensures AssemblerSpec.Run(rules, s0, seen).Halted? ==>
        Matches(r, AssemblerSpec.Run(rules, s0, seen))
      ensures AssemblerSpec.Run(rules, s0, seen).Running? ==>
        && |seen| == |events| && Valid() && InSession(rules, s0, seen)
        && |InMemoryHeights(store.pendingExecution)| <= store.bucketSize
    {
      r, seen := Done(true), [];
      var i := 0;
      while i < |events|
        invariant i == |seen| && SameEvents(events, seen)
        invariant Valid() && InSession(rules, s0, seen)
      {
        var goOn;
        ghost var seenEvent;
        r, goOn, seenEvent := Turn(rules, events[i], s0, seen);
        SameEventsExtend(events, seen, seenEvent);
        seen := seen + [seenEvent];
        i := i + 1;
        if !goOn {
          return;
        }
      }
      SafeAndBounded(rules, s0, seen);
    }
  }

  /**
   * Start-up: initialise the store, build the assembler, and execute the committed block if execution
   * was left behind. Yields no assembler when the store refuses the disk or the execution fails.
   */
  method Boot(rules: Rules, disk: Disk, bucketSize: nat, genesis: CertifiedBlock, writes: nat,
              epoch: EpochState, io: Io, ghost past: History)
    returns (a: ChainStateAssembler?, left: Disk)
    ensures match Lifetime.BootNode(rules, disk, past, genesis, writes, epoch, io)
      case Up(s) => a != null && a.Valid() && a.View() == s && left == s.disk
      case Down(d, _) => a == null && left == d
  {
    var store := new BlockStore(disk, bucketSize);
    var initialised := store.Initialize(rules, genesis, writes);
    if initialised.Err? {
      return null, store.disk;
    }
    var assembler := new ChainStateAssembler(store, epoch, if disk.executed.None? then Record(past, genesis) else past);
    if store.disk.committed != store.disk.executed {
      var executed := assembler.ExecuteBlock(store.disk.committed.value, io);
      if executed.Failed? {
        return null, store.disk;
      }
    }
    return assembler, store.disk;
  }
}
