/** What the assembler answers to one event, said without the verifier and the handlers themselves. */
module AssemblerAnswers {
  import opened Basics
  import opened Blocks
  import opened BlockVerification
  import opened Errors
  import opened AssemblerSpec
  import opened AssemblerSafety

  // ----- received blocks -----

  /** Nothing is done with the block: the epoch is over, or its height was executed or is held. */
  predicate Ignored(s: State, b: CertifiedBlock) {
    s.epoch.over || b.Height() <= s.lastExecuted.Height() || b.Height() in s.pending
  }

  /** The block proves its sender wrong: a bad commit certificate, or a bad block of the current epoch. */
  predicate Forged(rules: Rules, e: EpochState, b: FullBlock) {
    || !rules.commitCertified(b.base)
    || (b.base.Epoch() == e.epoch
        && !(rules.consistent(b) && (rules.skipQcVerification || rules.committeeAccepts(e.committee, b.base))))
  }

  predicate Ended(o: Outcome, cause: Cause) { o.Halted? && o.cause == Some(Fatal(cause)) }

  /** Only what was seen and received is noted. */
  predicate OnlyNoted(s: State, o: Outcome) {
    && o.Running? && o.report == None
    && o.state == s.(highest := o.state.highest, history := s.history.(received := o.state.history.received))
  }

  predicate Stored(s: State, b: FullBlock, o: Outcome) {
    && o.History().accepted == s.history.accepted + {Acceptance(b, s.epoch)}
    && OnDisk(o.Disk(), b.base)
  }

  lemma VerdictExactly(rules: Rules, s: State, b: FullBlock)
    requires b.base.Height() > 0
    ensures Verify(rules, s.epoch, b) ==
      if Forged(rules, s.epoch, b) then InvalidBlock
      else if b.base.Epoch() < s.epoch.epoch then OldEpochBlock
      else if b.base.Epoch() > s.epoch.epoch then FutureEpochBlock
      else Success
  {
  }

  /**
   * What becomes of a received block. A forged one ends the run unless it is ignored anyway. One that is
   * ignored or of an old epoch leaves no trace but in what was seen. One of the current epoch is stored, if
   * the disk works. It ends the run as a mismatch exactly when it has the next height and another parent.
   */
  lemma IncomingExactly(rules: Rules, s: State, b: FullBlock, io: Io)
    requires Safe(rules, s)
    ensures var o := HandleIncoming(rules, s, b, io);
      var forged, current := Forged(rules, s.epoch, b), b.base.Epoch() == s.epoch.epoch;
      var stored := !Ignored(s, b.base) && !forged && current && io.persistWrites > |b.batches|;
      && (Ended(o, ByzantineBlock) <==> !Ignored(s, b.base) && forged)
      && (Ignored(s, b.base) || (!forged && b.base.Epoch() < s.epoch.epoch) ==> OnlyNoted(s, o))
      && (stored ==> Stored(s, b, o))
      && (Ended(o, ParentMismatch) <==>
            stored && b.base.Height() == s.Next() && b.base.Parent() != s.lastExecuted.hash)
      && (!Ignored(s, b.base) && !forged && current && !stored ==> Ended(o, StoreFailure))
  {
    if !Ignored(s, b.base) {
      VerdictExactly(rules, s, b);
      var s1 := Receive(Observe(s, b.base), b);
      if Verify(rules, s.epoch, b) == Success {
        StoredExactly(s1, b, io);
      }
    }
  }

  lemma StoredExactly(s: State, b: FullBlock, io: Io)
    requires b.base.Height() > s.lastExecuted.Height()
    ensures var o := HandleFullBlock(s, b, io);
      var stored := io.persistWrites > |b.batches|;
      && (stored ==> Stored(s, b, o))
      && (Ended(o, ParentMismatch) <==>
            stored && b.base.Height() == s.Next() && b.base.Parent() != s.lastExecuted.hash)
      && (!stored ==> Ended(o, StoreFailure))
      && !Ended(o, ByzantineBlock)
  {
    if io.persistWrites > |b.batches| {
      var s2 := ClearSync(Persisted(s, b), b.base.Height());
      assert OnDisk(s2.disk, b.base);
      KeepsStored(s2, b.base, io);
    }
  }

  /** Execution and caching leave the stored blocks and batches alone. */
  lemma KeepsStored(s: State, b: CertifiedBlock, io: Io)
    ensures Harmless(s, ExecuteChain(s, b, io)) && Harmless(s, CacheAndSync(s, b, io))
  {
    var o := ExecuteBlock(s, b, io);
    if o.Running? {
      assert Harmless(o.state, ScheduleNext(o.state, io)) && Harmless(o.state, EndEpochAt(o.state, b, io));
    }
  }

  predicate Harmless(s: State, o: Outcome) {
    SameStore(s, o) && !Ended(o, ByzantineBlock) && !Ended(o, ParentMismatch)
  }

  predicate SameStore(s: State, o: Outcome) {
    && o.Disk().blocks == s.disk.blocks && o.Disk().batches == s.disk.batches
    && o.History().accepted == s.history.accepted
  }

  // ----- epoch notifications -----

  /**
   * A notification ends the run exactly when the current epoch is not over, or when the new epoch is over
   * already or does not extend the current one. Otherwise a new epoch is adopted, and of the pending blocks
   * exactly those above its first height are kept.
   */
  lemma NotificationExactly(rules: Rules, s: State, note: Notification, io: Io)
    requires Safe(rules, s)
    ensures var o := HandleNotification(rules, s, note, io);
      var bad := note.NewEpoch? && (note.state.over || !rules.extendsEpoch(note.state, s.epoch));
      && (Ended(o, EpochNotOver) <==> !s.epoch.over)
      && (Ended(o, BadNewEpoch) <==> s.epoch.over && bad)
      && (o.Running? <==> s.epoch.over && !bad)
      && (o.Running? && note.EndEpoch? ==> o.state == s)
      && (o.Running? && note.NewEpoch? ==>
            && o.state.epoch == note.state && o.state.lastExecuted == s.lastExecuted && o.state.disk == s.disk
            && (forall k :: k in o.state.pending <==> k in s.pending && k > note.state.startHeight)
            && (forall k :: k in o.state.pending ==> o.state.pending[k] == s.pending[k]))
  {
    if s.epoch.over && note.NewEpoch? {
      var s' := s.(pending := Above(s.pending, note.state.startHeight), epoch := note.state);
      assert TrySync(s', io).Running?;
    }
  }

  // ----- which input/output a step relies on -----

  /** The step executed a block: it grew the chain. */
  predicate Grew(s: State, o: Outcome) { |o.History().executed| > |s.history.executed| }

  /** A block is executed only if its commitment was written; and a run that goes on did all it was to do. */
  predicate Done(s: State, io: Io, o: Outcome) {
    && (Grew(s, o) ==> io.commitOk)
    && (Grew(s, o) && o.Running? ==>
          && io.exec.Executed?
          && (io.exec.epochChanged ==> o.state.epoch.over)
          && (o.state.epoch.over ==> io.boundaryOk && o.state.disk.boundary == Some(o.state.history.executed[|s.history.executed|].qc))
          && (o.state.channel != [] ==> io.loadOk))
    && (Grew(s, o) && o.Halted? && o.cause == Some(ExecutionFailed) ==> io.exec == ExecutionError(true))
    && (!Grew(s, o) && o.Running? ==>
          o.state.disk.boundary == s.disk.boundary && (o.state.epoch.over ==> s.epoch.over))
  }

  lemma ExecuteChainDone(s: State, b: CertifiedBlock, io: Io)
    requires s.channel == [] && !s.epoch.over
    ensures Done(s, io, ExecuteChain(s, b, io))
    ensures ExecuteChain(s, b, io).Running? ==> Grew(s, ExecuteChain(s, b, io))
    ensures io.commitOk && io.exec.ExecutionError? ==>
      var o := ExecuteChain(s, b, io);
      o.Halted? && o.cause == Some(ExecutionFailed) && o.disk.committed == Some(b) && (Grew(s, o) <==> io.exec.recorded)
  {
  }

  /** The block due in this step: the one in the channel, or a received direct successor that is stored. */
  predicate Due(rules: Rules, s: State, ev: Event) {
    match ev
    case ScheduledBlock(_) => s.channel != []
    case IncomingBlock(b, io) =>
      && !Ignored(s, b.base) && !Forged(rules, s.epoch, b) && b.base.Epoch() == s.epoch.epoch
      && b.base.Height() == s.Next() && b.base.Parent() == s.lastExecuted.hash && io.persistWrites > |b.batches|
    case _ => false
  }

  /**
   * A step executes a block only if one is due and its commitment is written, and the run goes on after that
   * only if the executor, the epoch boundary record and the reload of the next block all worked. In
   * particular no failed write is passed over.
   */
  lemma StepDone(rules: Rules, s: State, ev: Event)
    requires Safe(rules, s) && !ev.InputClosed?
    ensures var o := Step(rules, s, ev);
      && Done(s, ev.io, o)
      && (Grew(s, o) ==> Due(rules, s, ev))
      && (Due(rules, s, ev) && o.Running? ==> Grew(s, o))
  {
    match ev {
      case IncomingBlock(b, io) => IncomingDone(rules, s, b, io);
      case ScheduledBlock(io) => if s.channel != [] { ScheduledDone(rules, s, io); }
      case EpochNotification(note, io) => NotificationExactly(rules, s, note, io);
      case SyncTimer(io) =>
    }
  }

  lemma ScheduledDone(rules: Rules, s: State, io: Io)
    requires Safe(rules, s) && s.channel != []
    ensures var o := HandleScheduled(s.(channel := s.channel[1..]), s.channel[0], io);
      Done(s, io, o) && (o.Running? ==> Grew(s, o))
  {
    var s1 := ClearSync(s.(channel := s.channel[1..]), s.channel[0].Height());
    ExecuteChainDone(s1, s.channel[0], io);
  }

  lemma IncomingDone(rules: Rules, s: State, b: FullBlock, io: Io)
    requires Safe(rules, s)
    ensures var o := HandleIncoming(rules, s, b, io);
      && Done(s, io, o)
      && (Grew(s, o) ==> Due(rules, s, IncomingBlock(b, io)))
      && (Due(rules, s, IncomingBlock(b, io)) && o.Running? ==> Grew(s, o))
  {
    if !Ignored(s, b.base) {
      VerdictExactly(rules, s, b);
      var s1 := Receive(Observe(s, b.base), b);
      match Verify(rules, s1.epoch, b) {
        case OldEpochBlock =>
        case InvalidBlock =>
        case FutureEpochBlock => assert Done(s1, io, TrySync(s1, io));
        case Success =>
          FullBlockDone(s1, b, io);
          DoneSame(s, s1, io, HandleFullBlock(s1, b, io));
      }
    }
  }

  lemma DoneSame(s: State, s1: State, io: Io, o: Outcome)
    requires Done(s1, io, o) && s1.history.executed == s.history.executed
    requires s1.disk.boundary == s.disk.boundary && s1.epoch == s.epoch
    ensures Done(s, io, o) && Grew(s, o) == Grew(s1, o)
  {
  }

  lemma FullBlockDone(s: State, b: FullBlock, io: Io)
    requires b.base.Height() > s.lastExecuted.Height() && !s.epoch.over && (b.base.Height() == s.Next() ==> s.channel == [])
    ensures var o := HandleFullBlock(s, b, io);
      var due := b.base.Height() == s.Next() && b.base.Parent() == s.lastExecuted.hash && io.persistWrites > |b.batches|;
      Done(s, io, o) && (Grew(s, o) ==> due) && (due && o.Running? ==> Grew(s, o))
  {
    if io.persistWrites > |b.batches| && b.base.Height() == s.Next() {
      var s2 := ClearSync(Persisted(s, b), b.base.Height());
      ExecuteChainDone(s2, b.base, io);
    }
  }

  // ----- the epoch boundary record -----

  /**
   * In a state whose epoch is over the boundary record holds the certificate of the last executed block,
   * unless the session began in that state and has executed nothing.
   */
  ghost predicate BoundaryRecorded(s0: State, s: State) {
    s.epoch.over ==>
      || (s0.epoch.over && s.history.executed == s0.history.executed && s.disk.boundary == s0.disk.boundary)
      || (s.history.executed != [] && s.disk.boundary == Some(s.history.executed[|s.history.executed| - 1].qc))
  }

  lemma StepBoundary(rules: Rules, s0: State, s: State, ev: Event)
    requires Safe(rules, s) && BoundaryRecorded(s0, s) && Step(rules, s, ev).Running?
    ensures BoundaryRecorded(s0, Step(rules, s, ev).state)
  {
    if !ev.InputClosed? {
      StepDone(rules, s, ev);
      assert GrowsByAtMostOne(s.history.executed, Step(rules, s, ev).History().executed);
    }
  }

  lemma {:induction false} RunBoundary(rules: Rules, s0: State, events: seq<Event>)
    requires Safe(rules, s0) && Run(rules, s0, events).Running?
    ensures BoundaryRecorded(s0, Run(rules, s0, events).state)
    decreases |events|
  {
    if events != [] {
      var front := events[..|events| - 1];
      RunBoundary(rules, s0, front);
      RunSafe(rules, s0, front);
      StepBoundary(rules, s0, Run(rules, s0, front).state, events[|events| - 1]);
    }
  }
}
