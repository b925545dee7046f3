/**
 * The assembler fed from one canonical chain, in any order and with any duplication: no internal
 * error, no lost wake-up, the same result for every delivery order, and steady progress.
 */
module AssemblerProgress {
  import opened Basics
  import opened Blocks
  import opened BlockVerification
  import opened Errors
  import opened AssemblerSpec
  import opened AssemblerSafety
  import opened AssemblerRequests

  /** The canonical chain: the block at every height. */
  type Chain = Height -> CertifiedBlock

  /** The block after `h` names the one at `h` as its parent and is of the same or a later epoch. */
  predicate LinkedAt(chain: Chain, h: Height) {
    Follows(chain(h), chain(h + 1)) && chain(h).Epoch() <= chain(h + 1).Epoch()
  }

  ghost predicate Canonical(rules: Rules, chain: Chain) {
    && (forall h: Height :: chain(h).Height() == h)
    && (forall h: Height :: LinkedAt(chain, h))
    && (forall h: Height :: rules.commitCertified(chain(h)))
  }

  predicate LastOfEpoch(chain: Chain, h: Height) {
    chain(h + 1).Epoch() != chain(h).Epoch()
  }

  /** The committee of this epoch accepts the canonical blocks of this epoch. */
  ghost predicate Certifies(rules: Rules, chain: Chain, e: EpochState) {
    forall h: Height :: chain(h).Epoch() == e.epoch ==> rules.committeeAccepts(e.committee, chain(h))
  }

  /** The executor reports an epoch change exactly on the last block of an epoch. */
  predicate Truthful(chain: Chain, h: Height, io: Io) {
    io.exec.Executed? ==> io.exec.epochChanged == LastOfEpoch(chain, h)
  }

  /** What the canonical environment may do next in state `s`. */
  ghost predicate Allowed(rules: Rules, chain: Chain, s: State, ev: Event) {
    match ev
    case IncomingBlock(b, io) =>
      b.base == chain(b.base.Height()) && rules.consistent(b) && Truthful(chain, b.base.Height(), io)
    case ScheduledBlock(io) => Truthful(chain, s.Next(), io)
    case EpochNotification(note, _) =>
      s.epoch.over && (note.NewEpoch? ==>
        && !note.state.over && rules.extendsEpoch(note.state, s.epoch)
        && note.state.epoch == chain(s.Next()).Epoch() && Certifies(rules, chain, note.state))
    case SyncTimer(_) => true
    case InputClosed => true
  }

  // ----- the invariant -----

  ghost predicate SlotOnChain(chain: Chain, s: State, k: Height) {
    k in s.pending ==>
      && (s.pending[k].Waiting? ==> s.pending[k].block == chain(k))
      && chain(k).Epoch() == s.epoch.epoch
      && s.highest.Some? && k <= s.highest.value.Height()
  }

  ghost predicate OnChain(rules: Rules, chain: Chain, s: State) {
    && s.lastExecuted == chain(s.lastExecuted.Height()).Info()
    && (forall k :: k in s.pending ==> SlotOnChain(chain, s, k))
    && (s.channel != [] ==> s.channel[0] == chain(s.Next()))
    && (if s.epoch.over then chain(s.Next()).Epoch() > s.epoch.epoch
        else chain(s.Next()).Epoch() == s.epoch.epoch)
    && Certifies(rules, chain, s.epoch)
  }

  /** A block already there for the next height is in the channel, not left waiting. */
  predicate NextInFlight(s: State) {
    s.Next() in s.pending ==> s.channel != []
  }

  predicate NothingNew(s: State) {
    s.highest.None? || s.highest.value.Height() <= s.lastExecuted.Height()
  }

  /** Something will make the next block happen: the epoch change, the channel, or a sync request. */
  predicate Awake(s: State) {
    s.epoch.over || NothingNew(s) || s.channel != [] || s.pendingSync == Some(s.Next())
  }

  /** Since the session began in `s0`, exactly the canonical blocks up to the last one were executed. */
  ghost predicate Extends(chain: Chain, s0: State, s: State) {
    var before, now := s0.history.executed, s.history.executed;
    && |now| - |before| == s.lastExecuted.Height() - s0.lastExecuted.Height() >= 0
    && before == now[..|before|]
    && (forall i :: |before| <= i < |now| ==> now[i] == chain(s0.lastExecuted.Height() + 1 + i - |before|))
  }

  /** Every height received is executed or pending, and every executed or pending one was received. */
  ghost predicate Accounted(chain: Chain, s0: State, s: State) {
    && Extends(chain, s0, s)
    && (forall h :: s0.lastExecuted.Height() < h <= s.lastExecuted.Height() ==> h in s.history.received)
    && (forall h :: h in s.history.received && h > s.lastExecuted.Height() ==> h in s.pending)
    && (forall h :: h in s.pending ==> h in s.history.received)
  }

  /** The invariant without the wake-up clauses, which hold again only at the end of a step. */
  ghost predicate Settled(rules: Rules, chain: Chain, s0: State, s: State) {
    Safe(rules, s) && OnChain(rules, chain, s) && Accounted(chain, s0, s)
  }

  ghost predicate CanonState(rules: Rules, chain: Chain, s0: State, s: State) {
    Settled(rules, chain, s0, s) && NextInFlight(s) && Awake(s)
  }

  /** A new assembler whose last executed block is canonical and whose epoch is that of its successor. */
  ghost predicate CanonStart(rules: Rules, chain: Chain, s: State) {
    && Safe(rules, s) && OnChain(rules, chain, s)
    && s.pending == map[] && s.channel == [] && s.highest == None && s.history.received == {}
  }

  /** The step went on, reporting at most a failed send, or an input/output operation of it failed. */
  predicate ErrorFree(io: Io, batches: nat, o: Outcome) {
    match o
    case Running(_, report) => report.Some? ==> report.value == RpcInternalError && !io.sendOk
    case Halted(_, _, cause) =>
      match cause
      case Some(Fatal(StoreFailure)) =>
        io.persistWrites <= batches || !io.commitOk || !io.boundaryOk || !io.loadOk
      case Some(ExecutionFailed) => io.exec.ExecutionError?
      case _ => false
  }

  ghost predicate CanonOutcome(rules: Rules, chain: Chain, s0: State, io: Io, batches: nat, o: Outcome) {
    ErrorFree(io, batches, o) && (o.Running? ==> CanonState(rules, chain, s0, o.state))
  }

  // ----- small facts -----

  lemma {:induction false} EpochsRise(rules: Rules, chain: Chain, i: Height, j: Height)
    requires Canonical(rules, chain) && i <= j
    ensures chain(i).Epoch() <= chain(j).Epoch()
    decreases j
  {
    if i < j {
      EpochsRise(rules, chain, i, j - 1);
      assert LinkedAt(chain, j - 1);
    }
  }

  /** Nothing of the old epoch is left pending once the epoch is over. */
  lemma NothingPendingWhenOver(rules: Rules, chain: Chain, s: State)
    requires Canonical(rules, chain) && Safe(rules, s) && OnChain(rules, chain, s) && s.epoch.over
    ensures s.pending == map[]
  {
    if k :| k in s.pending {
      assert SlotSafe(rules, s, k) && SlotOnChain(chain, s, k);
      EpochsRise(rules, chain, s.Next(), k);
      assert false;
    }
  }

  predicate HighestKept(s: State, s': State) {
    s.highest.Some? ==> s'.highest.Some? && s.highest.value.Height() <= s'.highest.value.Height()
  }

  /** Lying on the chain depends only on what is held, on the last block executed and on the epoch. */
  lemma OnChainKept(rules: Rules, chain: Chain, s: State, s': State)
    requires OnChain(rules, chain, s) && HighestKept(s, s')
    requires s'.lastExecuted == s.lastExecuted && s'.epoch == s.epoch && s'.pending == s.pending
    requires s'.channel == [] || s'.channel == s.channel
    ensures OnChain(rules, chain, s')
  {
    forall k | k in s'.pending ensures SlotOnChain(chain, s', k) {
      assert SlotOnChain(chain, s, k);
    }
  }

  // ----- each operation -----

  lemma TrySyncCanon(rules: Rules, chain: Chain, s0: State, s: State, io: Io, batches: nat)
    requires Settled(rules, chain, s0, s) && NextInFlight(s)
    ensures CanonOutcome(rules, chain, s0, io, batches, TrySync(s, io))
  {
    TrySyncSafe(rules, s, io);
    OnChainKept(rules, chain, s, TrySync(s, io).state);
  }

  lemma AdvanceOnChain(rules: Rules, chain: Chain, s: State, epochChanged: bool)
    requires Canonical(rules, chain) && OnChain(rules, chain, s) && s.channel == [] && !s.epoch.over
    requires epochChanged == LastOfEpoch(chain, s.Next())
    ensures OnChain(rules, chain, Advance(s, chain(s.Next()), epochChanged))
  {
    var s' := Advance(s, chain(s.Next()), epochChanged);
    EpochsRise(rules, chain, s.Next(), s.Next() + 1);
    forall k | k in s'.pending ensures SlotOnChain(chain, s', k) {
      assert SlotOnChain(chain, s, k);
    }
  }

  lemma AdvanceAccounted(chain: Chain, s0: State, s: State, epochChanged: bool)
    requires chain(s.Next()).Height() == s.Next() && AccountedNext(chain, s0, s)
    ensures Accounted(chain, s0, Advance(s, chain(s.Next()), epochChanged))
  {
  }

  lemma AdvanceCanon(rules: Rules, chain: Chain, s0: State, s: State, io: Io)
    requires Canonical(rules, chain)
    requires Ready(rules, s, chain(s.Next())) && OnChain(rules, chain, s) && AccountedNext(chain, s0, s)
    requires io.exec.Executed? && Truthful(chain, s.Next(), io)
    ensures Settled(rules, chain, s0, Advance(s, chain(s.Next()), io.exec.epochChanged))
  {
    AdvanceSafe(rules, s, chain(s.Next()), io.exec.epochChanged);
    AdvanceOnChain(rules, chain, s, io.exec.epochChanged);
    AdvanceAccounted(chain, s0, s, io.exec.epochChanged);
  }

  /** As `Accounted`, while the next block is on its way to execution. */
  ghost predicate AccountedNext(chain: Chain, s0: State, s: State) {
    && Extends(chain, s0, s)
    && (forall h :: s0.lastExecuted.Height() < h <= s.Next() ==> h in s.history.received)
    && (forall h :: h in s.history.received && h > s.Next() ==> h in s.pending)
    && (forall h :: h in s.pending ==> h in s.history.received)
  }

  lemma ScheduleNextCanon(rules: Rules, chain: Chain, s0: State, s: State, io: Io, batches: nat)
    requires Settled(rules, chain, s0, s) && s.channel == [] && !s.epoch.over
    ensures CanonOutcome(rules, chain, s0, io, batches, ScheduleNext(s, io))
  {
    ScheduleNextSafe(rules, s, io);
    if s.Next() in s.pending {
      assert SlotOnChain(chain, s, s.Next());
      if io.loadOk {
        var s' := ScheduleNext(s, io).state;
        forall k | k in s'.pending ensures SlotOnChain(chain, s', k) {
          assert SlotOnChain(chain, s, k);
        }
      }
    } else {
      TrySyncCanon(rules, chain, s0, s, io, batches);
    }
  }

  /** Executing the last block of an epoch leaves nothing pending and stops at the epoch change. */
  lemma EndEpochCanon(rules: Rules, chain: Chain, s0: State, s: State, b: CertifiedBlock, io: Io, batches: nat)
    requires Canonical(rules, chain) && Settled(rules, chain, s0, s) && s.epoch.over
    ensures CanonOutcome(rules, chain, s0, io, batches, EndEpochAt(s, b, io))
  {
    NothingPendingWhenOver(rules, chain, s);
    BoundarySafe(rules, s, b.qc);
  }

  lemma ExecuteChainCanon(rules: Rules, chain: Chain, s0: State, s: State, io: Io, batches: nat)
    requires Canonical(rules, chain)
    requires Ready(rules, s, chain(s.Next())) && OnChain(rules, chain, s) && AccountedNext(chain, s0, s)
    requires Truthful(chain, s.Next(), io)
    ensures CanonOutcome(rules, chain, s0, io, batches, ExecuteChain(s, chain(s.Next()), io))
  {
    var b := chain(s.Next());
    if io.commitOk && io.exec.Executed? {
      AdvanceCanon(rules, chain, s0, s, io);
      var s1 := Advance(s, b, io.exec.epochChanged);
      if s1.epoch.over {
        EndEpochCanon(rules, chain, s0, s1, b, io, batches);
        assert ExecuteChain(s, b, io) == EndEpochAt(s1, b, io);
      } else {
        ScheduleNextCanon(rules, chain, s0, s1, io, batches);
        assert ExecuteChain(s, b, io) == ScheduleNext(s1, io);
      }
    }
  }

  /** Storing a canonical block on disk changes nothing the run depends on. */
  lemma PersistedCanon(rules: Rules, chain: Chain, s0: State, s: State, b: FullBlock)
    requires Safe(rules, s) && OnChain(rules, chain, s) && AccountedBut(chain, s0, s, b.base.Height())
    requires !Skips(s, b.base) && Verify(rules, s.epoch, b) == Success
    ensures var s1 := ClearSync(Persisted(s, b), b.base.Height());
      && Safe(rules, s1) && OnChain(rules, chain, s1) && AccountedBut(chain, s0, s1, b.base.Height())
      && Good(rules, s1.disk, s1.history, b.base)
  {
    PersistedSafe(rules, s, b);
    var s1 := ClearSync(Persisted(s, b), b.base.Height());
    SameSafe(rules, Persisted(s, b), s1);
    OnChainKept(rules, chain, s, s1);
  }

  /** Where a stored block goes: to execution if it is the direct successor, else to the cache. */
  lemma StoredBlockGoes(s: State, b: FullBlock, io: Io)
    requires io.persistWrites > |b.batches| && b.base.Height() > s.lastExecuted.Height()
    requires b.base.Height() == s.Next() ==> b.base.Parent() == s.lastExecuted.hash
    ensures var s1 := ClearSync(Persisted(s, b), b.base.Height());
      HandleFullBlock(s, b, io)
      == if b.base.Height() == s.Next() then ExecuteChain(s1, b.base, io) else CacheAndSync(s1, b.base, io)
  {
  }

  lemma HandleFullBlockCanon(rules: Rules, chain: Chain, s0: State, s: State, b: FullBlock, io: Io)
    requires Canonical(rules, chain)
    requires Safe(rules, s) && OnChain(rules, chain, s) && NextInFlight(s)
    requires AccountedBut(chain, s0, s, b.base.Height())
    requires !Skips(s, b.base) && Verify(rules, s.epoch, b) == Success
    requires b.base == chain(b.base.Height()) && Truthful(chain, b.base.Height(), io)
    requires s.highest.Some? && b.base.Height() <= s.highest.value.Height()
    ensures CanonOutcome(rules, chain, s0, io, |b.batches|, HandleFullBlock(s, b, io))
  {
    if io.persistWrites > |b.batches| {
      PersistedCanon(rules, chain, s0, s, b);
      ChildOfLast(rules, chain, s);
      StoredBlockGoes(s, b, io);
      StoredCanon(rules, chain, s0, ClearSync(Persisted(s, b), b.base.Height()), b.base, io, |b.batches|);
    }
  }

  lemma StoredCanon(rules: Rules, chain: Chain, s0: State, s: State, b: CertifiedBlock, io: Io, batches: nat)
    requires Canonical(rules, chain) && Safe(rules, s) && OnChain(rules, chain, s) && NextInFlight(s)
    requires AccountedBut(chain, s0, s, b.Height()) && Good(rules, s.disk, s.history, b)
    requires !s.epoch.over && !s.HasEntry(b.Height()) && b.Epoch() == s.epoch.epoch && s.pendingSync != Some(b.Height())
    requires b == chain(b.Height()) && Truthful(chain, b.Height(), io)
    requires s.highest.Some? && b.Height() <= s.highest.value.Height()
    ensures CanonOutcome(rules, chain, s0, io, batches,
                         if b.Height() == s.Next() then ExecuteChain(s, b, io) else CacheAndSync(s, b, io))
  {
    if b.Height() == s.Next() {
      ExecuteStoredCanon(rules, chain, s0, s, b, io, batches);
    } else {
      CacheCanon(rules, chain, s0, s, b, io, batches);
    }
  }

  lemma ExecuteStoredCanon(rules: Rules, chain: Chain, s0: State, s: State, b: CertifiedBlock, io: Io, batches: nat)
    requires Canonical(rules, chain) && Safe(rules, s) && OnChain(rules, chain, s) && AccountedBut(chain, s0, s, b.Height())
    requires Good(rules, s.disk, s.history, b) && s.channel == [] && !s.epoch.over && s.pendingSync == None
    requires b.Height() == s.Next() && b == chain(s.Next()) && Truthful(chain, s.Next(), io)
    ensures CanonOutcome(rules, chain, s0, io, batches, ExecuteChain(s, b, io))
  {
    ChildOfLast(rules, chain, s);
    ExecuteChainCanon(rules, chain, s0, s, io, batches);
  }

  lemma ChildOfLast(rules: Rules, chain: Chain, s: State)
    requires Canonical(rules, chain) && OnChain(rules, chain, s)
    ensures chain(s.Next()).Height() == s.Next() && chain(s.Next()).Parent() == s.lastExecuted.hash
  {
    assert LinkedAt(chain, s.lastExecuted.Height());
  }

  /** As `Accounted`, with height `h` received but not yet stored. */
  ghost predicate AccountedBut(chain: Chain, s0: State, s: State, h: Height) {
    && Extends(chain, s0, s)
    && h in s.history.received
    && (forall k :: s0.lastExecuted.Height() < k <= s.lastExecuted.Height() ==> k in s.history.received)
    && (forall k :: k in s.history.received && k > s.lastExecuted.Height() && k != h ==> k in s.pending)
    && (forall k :: k in s.pending ==> k in s.history.received)
  }

  lemma CacheCanon(rules: Rules, chain: Chain, s0: State, s: State, b: CertifiedBlock, io: Io, batches: nat)
    requires Safe(rules, s) && OnChain(rules, chain, s) && NextInFlight(s)
    requires AccountedBut(chain, s0, s, b.Height())
    requires !s.HasEntry(b.Height()) && Good(rules, s.disk, s.history, b) && b.Height() != s.Next()
    requires b == chain(b.Height()) && b.Epoch() == s.epoch.epoch
    requires s.highest.Some? && b.Height() <= s.highest.value.Height()
    ensures CanonOutcome(rules, chain, s0, io, batches, CacheAndSync(s, b, io))
  {
    CachedSafe(rules, s, b);
    CachedOnChain(rules, chain, s, b);
    TrySyncCanon(rules, chain, s0, s.(pending := s.pending[b.Height() := Waiting(b)]), io, batches);
  }

  lemma CachedOnChain(rules: Rules, chain: Chain, s: State, b: CertifiedBlock)
    requires OnChain(rules, chain, s) && b == chain(b.Height()) && b.Epoch() == s.epoch.epoch
    requires s.highest.Some? && b.Height() <= s.highest.value.Height()
    ensures OnChain(rules, chain, s.(pending := s.pending[b.Height() := Waiting(b)]))
  {
    var s' := s.(pending := s.pending[b.Height() := Waiting(b)]);
    forall k | k in s'.pending ensures SlotOnChain(chain, s', k) {
      assert k != b.Height() ==> SlotOnChain(chain, s, k);
    }
  }

  /** Receiving a block touches neither the blocks held nor the chain they lie on. */
  lemma ReceiveCanon(rules: Rules, chain: Chain, s0: State, s: State, b: FullBlock)
    requires CanonState(rules, chain, s0, s)
    ensures var s1 := Receive(Observe(s, b.base), b);
      && Safe(rules, s1) && OnChain(rules, chain, s1) && NextInFlight(s1)
      && s1.highest.Some? == (s.highest.Some? || b.base.Height() > 0)
      && (s1.highest.Some? ==> b.base.Height() <= s1.highest.value.Height())
      && (if b.base.Epoch() == s.epoch.epoch then AccountedBut(chain, s0, s1, b.base.Height())
          else Accounted(chain, s0, s1))
  {
    var s1 := Receive(Observe(s, b.base), b);
    SameSafe(rules, s, s1);
    OnChainKept(rules, chain, s, s1);
  }

  lemma SkippedCanon(rules: Rules, chain: Chain, s0: State, s: State, b: FullBlock)
    requires Canonical(rules, chain) && CanonState(rules, chain, s0, s) && b.base == chain(b.base.Height())
    requires Skips(s, b.base)
    ensures CanonState(rules, chain, s0, Receive(Observe(s, b.base), b))
  {
    ReceiveCanon(rules, chain, s0, s, b);
    var h := b.base.Height();
    assert h in s.pending ==> SlotOnChain(chain, s, h);
    if h >= s.Next() {
      EpochsRise(rules, chain, s.Next(), h);
    }
  }

  /** A canonical block that is not skipped is of the current epoch and verifies, or is of a later one. */
  lemma CanonicalVerifies(rules: Rules, chain: Chain, s: State, b: FullBlock)
    requires Canonical(rules, chain) && OnChain(rules, chain, s)
    requires b.base == chain(b.base.Height()) && rules.consistent(b)
    requires !s.epoch.over && b.base.Height() > s.lastExecuted.Height()
    ensures Verify(rules, s.epoch, b) == if b.base.Epoch() == s.epoch.epoch then Success else FutureEpochBlock
  {
    EpochsRise(rules, chain, s.Next(), b.base.Height());
  }

  /** What becomes of a received block that is not skipped. */
  lemma ReceivedBlockGoes(rules: Rules, s: State, b: FullBlock, io: Io)
    requires !Skips(s, b.base)
    ensures var s1 := Receive(Observe(s, b.base), b);
      && (Verify(rules, s.epoch, b) == FutureEpochBlock ==> HandleIncoming(rules, s, b, io) == TrySync(s1, io))
      && (Verify(rules, s.epoch, b) == Success ==> HandleIncoming(rules, s, b, io) == HandleFullBlock(s1, b, io))
  {
  }

  lemma FutureCanon(rules: Rules, chain: Chain, s0: State, s: State, b: FullBlock, io: Io)
    requires Canonical(rules, chain) && CanonState(rules, chain, s0, s)
    requires Allowed(rules, chain, s, IncomingBlock(b, io))
    requires !Skips(s, b.base) && b.base.Epoch() != s.epoch.epoch
    ensures CanonOutcome(rules, chain, s0, io, |b.batches|, HandleIncoming(rules, s, b, io))
  {
    var s1 := Receive(Observe(s, b.base), b);
    ReceiveCanon(rules, chain, s0, s, b);
    CanonicalVerifies(rules, chain, s, b);
    ReceivedBlockGoes(rules, s, b, io);
    TrySyncCanon(rules, chain, s0, s1, io, |b.batches|);
  }

  lemma AcceptedCanon(rules: Rules, chain: Chain, s0: State, s: State, b: FullBlock, io: Io)
    requires Canonical(rules, chain) && CanonState(rules, chain, s0, s)
    requires Allowed(rules, chain, s, IncomingBlock(b, io))
    requires !Skips(s, b.base) && b.base.Epoch() == s.epoch.epoch
    ensures CanonOutcome(rules, chain, s0, io, |b.batches|, HandleIncoming(rules, s, b, io))
  {
    var s1 := Receive(Observe(s, b.base), b);
    ReceiveCanon(rules, chain, s0, s, b);
    CanonicalVerifies(rules, chain, s, b);
    ReceivedBlockGoes(rules, s, b, io);
    HandleFullBlockCanon(rules, chain, s0, s1, b, io);
  }

  lemma HandleIncomingCanon(rules: Rules, chain: Chain, s0: State, s: State, b: FullBlock, io: Io)
    requires Canonical(rules, chain) && CanonState(rules, chain, s0, s)
    requires Allowed(rules, chain, s, IncomingBlock(b, io))
    ensures CanonOutcome(rules, chain, s0, io, |b.batches|, HandleIncoming(rules, s, b, io))
  {
    if Skips(s, b.base) {
      SkippedCanon(rules, chain, s0, s, b);
    } else if b.base.Epoch() == s.epoch.epoch {
      AcceptedCanon(rules, chain, s0, s, b, io);
    } else {
      FutureCanon(rules, chain, s0, s, b, io);
    }
  }

  /** Taking the block out of the channel leaves a state ready to execute it. */
  lemma TakenCanon(rules: Rules, chain: Chain, s0: State, s: State)
    requires Canonical(rules, chain) && CanonState(rules, chain, s0, s) && s.channel != []
    ensures var s1 := ClearSync(s.(channel := s.channel[1..]), s.channel[0].Height());
      Ready(rules, s1, chain(s1.Next())) && OnChain(rules, chain, s1) && AccountedNext(chain, s0, s1)
  {
    var s1 := ClearSync(s.(channel := s.channel[1..]), s.channel[0].Height());
    ChildOfLast(rules, chain, s);
    TakenReady(rules, s);
    OnChainKept(rules, chain, s, s1);
    TakenAccounted(chain, s0, s);
  }

  lemma TakenAccounted(chain: Chain, s0: State, s: State)
    requires Accounted(chain, s0, s) && s.Next() in s.pending && s.channel != []
    ensures AccountedNext(chain, s0, ClearSync(s.(channel := s.channel[1..]), s.channel[0].Height()))
  {
  }

  lemma HandleScheduledCanon(rules: Rules, chain: Chain, s0: State, s: State, io: Io)
    requires Canonical(rules, chain) && CanonState(rules, chain, s0, s) && s.channel != []
    requires Truthful(chain, s.Next(), io)
    ensures CanonOutcome(rules, chain, s0, io, 0, HandleScheduled(s.(channel := s.channel[1..]), s.channel[0], io))
  {
    var b, taken := s.channel[0], s.(channel := s.channel[1..]);
    TakenCanon(rules, chain, s0, s);
    ExecuteChainCanon(rules, chain, s0, ClearSync(taken, b.Height()), io, 0);
    assert HandleScheduled(taken, b, io) == ExecuteChain(ClearSync(taken, b.Height()), b, io);
  }

  lemma HandleNotificationCanon(rules: Rules, chain: Chain, s0: State, s: State, note: Notification, io: Io)
    requires Canonical(rules, chain) && CanonState(rules, chain, s0, s)
    requires Allowed(rules, chain, s, EpochNotification(note, io))
    ensures CanonOutcome(rules, chain, s0, io, 0, HandleNotification(rules, s, note, io))
  {
    NothingPendingWhenOver(rules, chain, s);
    if note.NewEpoch? {
      TrySyncCanon(rules, chain, s0, s.(pending := Above(s.pending, note.state.startHeight), epoch := note.state), io, 0);
    }
  }

  function BatchesOf(ev: Event): nat {
    if ev.IncomingBlock? then |ev.block.batches| else 0
  }

  lemma StepCanon(rules: Rules, chain: Chain, s0: State, s: State, ev: Event)
    requires Canonical(rules, chain) && CanonState(rules, chain, s0, s) && Allowed(rules, chain, s, ev)
    ensures var o := Step(rules, s, ev);
      if ev.InputClosed? then o.Halted? && o.cause == None
      else CanonOutcome(rules, chain, s0, ev.io, BatchesOf(ev), o)
  {
    match ev {
      case EpochNotification(note, io) => HandleNotificationCanon(rules, chain, s0, s, note, io);
      case IncomingBlock(b, io) => HandleIncomingCanon(rules, chain, s0, s, b, io);
      case ScheduledBlock(io) => if s.channel != [] { HandleScheduledCanon(rules, chain, s0, s, io); }
      case SyncTimer(io) => RetryCanon(rules, chain, s0, s, io);
      case InputClosed =>
    }
  }

  lemma RetryCanon(rules: Rules, chain: Chain, s0: State, s: State, io: Io)
    requires CanonState(rules, chain, s0, s)
    ensures CanonOutcome(rules, chain, s0, io, 0, Retry(s, io))
  {
    var s' := Retry(s, io).state;
    SameSafe(rules, s, s');
    OnChainKept(rules, chain, s, s');
  }

  // ----- whole sessions -----

  /** A session in which every event is one the canonical environment may produce at that point. */
  ghost predicate AllowedRun(rules: Rules, chain: Chain, s0: State, events: seq<Event>)
    decreases |events|
  {
    events == [] ||
    var front := events[..|events| - 1];
    var o := Run(rules, s0, front);
    AllowedRun(rules, chain, s0, front) && (o.Running? ==> Allowed(rules, chain, o.state, events[|events| - 1]))
  }

  lemma {:induction false} RunCanon(rules: Rules, chain: Chain, s0: State, events: seq<Event>)
    requires Canonical(rules, chain) && CanonStart(rules, chain, s0) && AllowedRun(rules, chain, s0, events)
    ensures var o := Run(rules, s0, events); o.Running? ==> CanonState(rules, chain, s0, o.state)
    decreases |events|
  {
    if events != [] {
      var front := events[..|events| - 1];
      RunCanon(rules, chain, s0, front);
      var o := Run(rules, s0, front);
      if o.Running? {
        StepCanon(rules, chain, s0, o.state, events[|events| - 1]);
      }
    }
  }

  /**
   * Error freedom: on a canonical chain no run reaches a fatal, regression or block-store error. A step
   * ends the run only if its own input/output failed or the input closed, and a failed send is survived.
   */
  lemma ErrorFreedom(rules: Rules, chain: Chain, s0: State, events: seq<Event>, ev: Event)
    requires Canonical(rules, chain) && CanonStart(rules, chain, s0)
    requires AllowedRun(rules, chain, s0, events) && Run(rules, s0, events).Running?
    requires Allowed(rules, chain, Run(rules, s0, events).state, ev)
    ensures var o := Step(rules, Run(rules, s0, events).state, ev);
      if ev.InputClosed? then o.Halted? && o.cause == None else ErrorFree(ev.io, BatchesOf(ev), o)
  {
    RunCanon(rules, chain, s0, events);
    StepCanon(rules, chain, s0, Run(rules, s0, events).state, ev);
  }

  /** No lost wake-up: whenever something above the last executed block was seen, its successor is on its way. */
  lemma NoLostWakeUp(rules: Rules, chain: Chain, s0: State, events: seq<Event>)
    requires Canonical(rules, chain) && CanonStart(rules, chain, s0)
    requires AllowedRun(rules, chain, s0, events) && Run(rules, s0, events).Running?
    ensures var s := Run(rules, s0, events).state;
      || s.epoch.over
      || (s.highest.Some? ==> s.highest.value.Height() <= s.lastExecuted.Height())
      || s.channel == [chain(s.Next())]
      || s.pendingSync == Some(s.Next())
  {
    RunCanon(rules, chain, s0, events);
  }

  // ----- delivery order -----

  /** `end` closes the longest run of heights in `received` that begins right after `start`. */
  ghost predicate ContiguousEnd(start: Height, received: set<Height>, end: Height) {
    start <= end && (forall h :: start < h <= end ==> h in received) && end + 1 !in received
  }

  /**
   * Whenever the channel is empty, the last executed height is the end of the longest run of received
   * heights, and what this session executed is the canonical chain up to there.
   */
  lemma DeliveryOrder(rules: Rules, chain: Chain, s0: State, events: seq<Event>)
    requires Canonical(rules, chain) && CanonStart(rules, chain, s0)
    requires AllowedRun(rules, chain, s0, events)
    requires Run(rules, s0, events).Running? && Run(rules, s0, events).state.channel == []
    ensures var s := Run(rules, s0, events).state;
      var last := s.lastExecuted.Height();
      && ContiguousEnd(s0.lastExecuted.Height(), s.history.received, last)
      && s.history.executed == Executions(chain, s0, last)
  {
    RunCanon(rules, chain, s0, events);
    Drained(rules, chain, s0, Run(rules, s0, events).state);
  }

  lemma Drained(rules: Rules, chain: Chain, s0: State, s: State)
    requires CanonState(rules, chain, s0, s) && s.channel == []
    ensures ContiguousEnd(s0.lastExecuted.Height(), s.history.received, s.lastExecuted.Height())
    ensures s.history.executed == Executions(chain, s0, s.lastExecuted.Height())
  {
  }

  /** The history of a session from `s0` that executed the canonical chain up to height `last`. */
  function Executions(chain: Chain, s0: State, last: Height): seq<CertifiedBlock>
    requires last >= s0.lastExecuted.Height()
  {
    s0.history.executed + seq(last - s0.lastExecuted.Height(), i requires 0 <= i => chain(s0.lastExecuted.Height() + 1 + i))
  }

  /** The height an event delivers for an epoch, if any. */
  function DeliveredBy(ev: Event, epoch: nat): set<Height> {
    if ev.IncomingBlock? && ev.block.base.Epoch() == epoch then {ev.block.base.Height()} else {}
  }

  /** The heights of the blocks of one epoch among the events. */
  function Delivered(events: seq<Event>, epoch: nat): set<Height>
    decreases |events|
  {
    if events == [] then {}
    else Delivered(events[..|events| - 1], epoch) + DeliveredBy(events[|events| - 1], epoch)
  }

  predicate WithinOneEpoch(events: seq<Event>) {
    forall i :: 0 <= i < |events| && events[i].EpochNotification? ==> events[i].note.EndEpoch?
  }

  lemma {:induction false} ReceivedIsDelivered(rules: Rules, s0: State, events: seq<Event>)
    requires WithinOneEpoch(events) && s0.history.received == {} && Run(rules, s0, events).Running?
    ensures var s := Run(rules, s0, events).state;
      s.epoch.epoch == s0.epoch.epoch && s.history.received == Delivered(events, s0.epoch.epoch)
    decreases |events|
  {
    if events != [] {
      var front, last := events[..|events| - 1], events[|events| - 1];
      ReceivedIsDelivered(rules, s0, front);
      var s := Run(rules, s0, front).state;
      StepReceives(rules, s, last);
    }
  }

  lemma IncomingReceives(rules: Rules, s: State, b: FullBlock, io: Io)
    requires HandleIncoming(rules, s, b, io).Running?
    ensures var s' := HandleIncoming(rules, s, b, io).state;
      && s'.epoch.epoch == s.epoch.epoch
      && s'.history.received == s.history.received + (if b.base.Epoch() == s.epoch.epoch then {b.base.Height()} else {})
      && s'.highest == Observe(s, b.base).highest
  {
  }

  lemma StepReceives(rules: Rules, s: State, ev: Event)
    requires ev.EpochNotification? ==> ev.note.EndEpoch?
    requires Step(rules, s, ev).Running?
    ensures var s' := Step(rules, s, ev).state;
      s'.epoch.epoch == s.epoch.epoch && s'.history.received == s.history.received + DeliveredBy(ev, s.epoch.epoch)
  {
    if ev.IncomingBlock? {
      IncomingReceives(rules, s, ev.block, ev.io);
    }
  }

  /**
   * Delivery-order independence: two sessions of one epoch from the same start that were sent the same
   * heights, in any order and with any duplication, and that have both drained their channel, have
   * executed exactly the same blocks.
   */
  lemma OrderIndependence(rules: Rules, chain: Chain, s0: State, one: seq<Event>, two: seq<Event>)
    requires Canonical(rules, chain) && CanonStart(rules, chain, s0)
    requires WithinOneEpoch(one) && AllowedRun(rules, chain, s0, one)
    requires WithinOneEpoch(two) && AllowedRun(rules, chain, s0, two)
    requires Delivered(one, s0.epoch.epoch) == Delivered(two, s0.epoch.epoch)
    requires Run(rules, s0, one).Running? && Run(rules, s0, one).state.channel == []
    requires Run(rules, s0, two).Running? && Run(rules, s0, two).state.channel == []
    ensures var a, b := Run(rules, s0, one).state, Run(rules, s0, two).state;
      && a.lastExecuted == b.lastExecuted
      && a.history.executed == b.history.executed
      && ContiguousEnd(s0.lastExecuted.Height(), Delivered(one, s0.epoch.epoch), a.lastExecuted.Height())
  {
    var a, b := Run(rules, s0, one).state, Run(rules, s0, two).state;
    RunCanon(rules, chain, s0, one);
    RunCanon(rules, chain, s0, two);
    ReceivedIsDelivered(rules, s0, one);
    ReceivedIsDelivered(rules, s0, two);
    Drained(rules, chain, s0, a);
    Drained(rules, chain, s0, b);
    assert a.lastExecuted.Height() == b.lastExecuted.Height();
  }

  // ----- progress -----

  /** A provider that answers a request with a canonical block, and the epoch states to come. */
  datatype World = World(provide: Height -> FullBlock, epochs: nat -> EpochState)

  ghost predicate Serves(rules: Rules, chain: Chain, w: World) {
    && (forall h: Height :: w.provide(h).base == chain(h) && rules.consistent(w.provide(h)))
    && (forall n: nat :: w.epochs(n).epoch == n && !w.epochs(n).over && Certifies(rules, chain, w.epochs(n)))
    && (forall n: nat, e: EpochState :: e.epoch < n ==> rules.extendsEpoch(w.epochs(n), e))
  }

  function Works(chain: Chain, h: Height, batches: nat): Io {
    Io(batches + 1, true, Executed(LastOfEpoch(chain, h)), true, true, true)
  }

  /** The last request that reached the provider is for a block it has not delivered. */
  predicate Unanswered(s: State) {
    var sent := s.history.requests;
    sent != [] && sent[|sent| - 1] !in s.history.received
  }

  /**
   * What a fair environment does next: it only ever sends the block that was asked for last, and lets the
   * timer fire when nothing else happens.
   */
  function Helpful(chain: Chain, w: World, s: State): Event {
    if s.epoch.over then EpochNotification(NewEpoch(w.epochs(chain(s.Next()).Epoch())), Works(chain, s.Next(), 0))
    else if s.channel != [] then ScheduledBlock(Works(chain, s.Next(), 0))
    else if Unanswered(s) then
      var h := s.history.requests[|s.history.requests| - 1];
      IncomingBlock(w.provide(h), Works(chain, h, |w.provide(h).batches|))
    else SyncTimer(Works(chain, s.Next(), 0))
  }

  /** Steps left to reach height `target`: two a block, one more if the epoch is over or the timer has to fire. */
  function Distance(target: Height, s: State): int {
    2 * (target - s.lastExecuted.Height()) + if s.epoch.over || (s.channel == [] && !Unanswered(s)) then 1 else 0
  }

  /** One turn against that environment. */
  function FairTurn(rules: Rules, chain: Chain, w: World): State -> Outcome {
    s => Step(rules, s, Helpful(chain, w, s))
  }

  function Repeat(turn: State -> Outcome, s: State, n: nat): Outcome
    decreases n
  {
    if n == 0 then Running(s, None)
    else if turn(s).Running? then Repeat(turn, turn(s).state, n - 1)
    else turn(s)
  }

  ghost predicate Seen(target: Height, s: State) {
    s.highest.Some? && s.highest.value.Height() >= target
  }

  predicate Approaches(target: Height, s: State, o: Outcome) {
    && o.Running?
    && o.state.lastExecuted.Height() >= s.lastExecuted.Height()
    && (s.lastExecuted.Height() < target ==> Distance(target, o.state) < Distance(target, s))
  }

  /** The step goes on in a canonical state that has still seen `target`, nearer to it unless there. */
  ghost predicate Nearer(rules: Rules, chain: Chain, s0: State, s: State, target: Height, o: Outcome) {
    Approaches(target, s, o) && CanonState(rules, chain, s0, o.state) && Seen(target, o.state)
  }

  lemma HelpfulExecution(rules: Rules, chain: Chain, s0: State, s: State, target: Height, io: Io)
    requires Canonical(rules, chain) && CanonState(rules, chain, s0, s) && Seen(target, s)
    requires s.channel != [] && io == Works(chain, s.Next(), 0)
    ensures Nearer(rules, chain, s0, s, target, Step(rules, s, ScheduledBlock(io)))
  {
    var o := HandleScheduled(s.(channel := s.channel[1..]), s.channel[0], io);
    HandleScheduledCanon(rules, chain, s0, s, io);
    WorkingGoesOn(rules, chain, s0, io, 0, o);
    ScheduledExecutes(rules, chain, s, io);
    NearerByOne(rules, chain, s0, s, target, o);
  }

  /** With working input/output a canonical step goes on. */
  lemma WorkingGoesOn(rules: Rules, chain: Chain, s0: State, io: Io, batches: nat, o: Outcome)
    requires CanonOutcome(rules, chain, s0, io, batches, o)
    requires io.persistWrites > batches && io.commitOk && io.exec.Executed? && io.boundaryOk && io.loadOk
    ensures o.Running? && CanonState(rules, chain, s0, o.state)
  {
  }

  lemma NearerByOne(rules: Rules, chain: Chain, s0: State, s: State, target: Height, o: Outcome)
    requires Seen(target, s) && !s.epoch.over
    requires o.Running? && CanonState(rules, chain, s0, o.state)
    requires o.state.lastExecuted.Height() == s.Next() && HighestKept(s, o.state)
    ensures Nearer(rules, chain, s0, s, target, o)
  {
  }

  lemma ScheduledExecutes(rules: Rules, chain: Chain, s: State, io: Io)
    requires Canonical(rules, chain) && OnChain(rules, chain, s) && s.channel != [] && !s.epoch.over
    requires HandleScheduled(s.(channel := s.channel[1..]), s.channel[0], io).Running?
    ensures var s' := HandleScheduled(s.(channel := s.channel[1..]), s.channel[0], io).state;
      s'.lastExecuted.Height() == s.Next() && s'.highest == s.highest
  {
    ChildOfLast(rules, chain, s);
  }

  lemma HelpfulAnswer(rules: Rules, chain: Chain, s0: State, s: State, target: Height, b: FullBlock, io: Io)
    requires Canonical(rules, chain) && CanonState(rules, chain, s0, s) && Seen(target, s)
    requires !s.epoch.over && s.channel == []
    requires b.base == chain(s.Next()) && rules.consistent(b) && io == Works(chain, s.Next(), |b.batches|)
    ensures Nearer(rules, chain, s0, s, target, Step(rules, s, IncomingBlock(b, io)))
  {
    HandleIncomingCanon(rules, chain, s0, s, b, io);
    AnswerExecutes(rules, chain, s0, s, b, io);
    NearerByOne(rules, chain, s0, s, target, HandleIncoming(rules, s, b, io));
  }

  lemma AnswerExecutes(rules: Rules, chain: Chain, s0: State, s: State, b: FullBlock, io: Io)
    requires Canonical(rules, chain) && CanonState(rules, chain, s0, s)
    requires !s.epoch.over && s.channel == []
    requires b.base == chain(s.Next()) && rules.consistent(b) && io == Works(chain, s.Next(), |b.batches|)
    requires HandleIncoming(rules, s, b, io).Running?
    ensures var s' := HandleIncoming(rules, s, b, io).state;
      s'.lastExecuted == b.base.Info() && s'.highest == Observe(s, b.base).highest
  {
    var s1 := Receive(Observe(s, b.base), b);
    assert LinkedAt(chain, s.lastExecuted.Height());
    assert !Skips(s1, b.base) && Verify(rules, s1.epoch, b) == Success;
    FullBlockExecutes(s1, b, io);
  }

  lemma FullBlockExecutes(s: State, b: FullBlock, io: Io)
    requires b.base.Height() == s.Next() && b.base.Parent() == s.lastExecuted.hash
    requires HandleFullBlock(s, b, io).Running?
    ensures HandleFullBlock(s, b, io).state.lastExecuted == b.base.Info()
  {
  }

  /** A request for the next height that was sent last is unanswered. */
  lemma SentIsUnanswered(rules: Rules, chain: Chain, s0: State, s: State)
    requires CanonState(rules, chain, s0, s) && s.channel == []
    requires s.history.requests != [] && s.history.requests[|s.history.requests| - 1] == s.Next()
    ensures Unanswered(s)
  {
  }

  /** An unanswered request is for the next height. */
  lemma UnansweredIsNext(rules: Rules, chain: Chain, s0: State, s: State)
    requires CanonState(rules, chain, s0, s) && AskingState(rules, s0, s) && Unanswered(s)
    ensures s.history.requests[|s.history.requests| - 1] == s.Next()
  {
    var last := |s.history.requests| - 1;
    assert s0.lastExecuted.Height() < s.history.requests[last] <= s.Next();
  }

  /** A step without execution after which the next block is newly or again requested. */
  lemma RequestIsNearer(rules: Rules, chain: Chain, s0: State, s: State, target: Height, o: Outcome, again: bool)
    requires Seen(target, s) && o.Running? && CanonState(rules, chain, s0, o.state) && HighestKept(s, o.state)
    requires o.state.lastExecuted == s.lastExecuted && !o.state.epoch.over && o.state.channel == []
    requires Asks(s, true, again, o) && (again || s.pendingSync == None)
    requires s.epoch.over || (s.channel == [] && !Unanswered(s))
    ensures Nearer(rules, chain, s0, s, target, o)
  {
    var s' := o.state;
    if s.lastExecuted.Height() < target {
      assert s'.pendingSync == Some(s'.Next());
      assert s'.history.requests == s.history.requests + [s'.Next()];
      SentIsUnanswered(rules, chain, s0, s');
    }
  }

  lemma HelpfulNewEpoch(rules: Rules, chain: Chain, s0: State, s: State, target: Height, e: EpochState, io: Io)
    requires Canonical(rules, chain) && CanonState(rules, chain, s0, s) && AskingState(rules, s0, s)
    requires Seen(target, s) && s.epoch.over && io.sendOk
    requires Allowed(rules, chain, s, EpochNotification(NewEpoch(e), io))
    ensures Nearer(rules, chain, s0, s, target, Step(rules, s, EpochNotification(NewEpoch(e), io)))
  {
    HandleNotificationCanon(rules, chain, s0, s, NewEpoch(e), io);
    HandleNotificationAsks(rules, s, NewEpoch(e), io);
    RequestIsNearer(rules, chain, s0, s, target, HandleNotification(rules, s, NewEpoch(e), io), false);
  }

  lemma HelpfulTimer(rules: Rules, chain: Chain, s0: State, s: State, target: Height, io: Io)
    requires CanonState(rules, chain, s0, s) && AskingState(rules, s0, s)
    requires Seen(target, s) && !s.epoch.over && s.channel == [] && !Unanswered(s) && io.sendOk
    ensures Nearer(rules, chain, s0, s, target, Step(rules, s, SyncTimer(io)))
  {
    RetryCanon(rules, chain, s0, s, io);
    StepAsks(rules, s, SyncTimer(io));
    RequestIsNearer(rules, chain, s0, s, target, Retry(s, io), true);
  }

  lemma HelpfulStep(rules: Rules, chain: Chain, w: World, s0: State, s: State, target: Height)
    requires Canonical(rules, chain) && Serves(rules, chain, w) && CanonState(rules, chain, s0, s)
    requires AskingState(rules, s0, s) && Seen(target, s)
    ensures Nearer(rules, chain, s0, s, target, Step(rules, s, Helpful(chain, w, s)))
  {
    var ev := Helpful(chain, w, s);
    if s.epoch.over {
      HelpfulNewEpoch(rules, chain, s0, s, target, ev.note.state, ev.io);
    } else if s.channel != [] {
      HelpfulExecution(rules, chain, s0, s, target, ev.io);
    } else if Unanswered(s) {
      UnansweredIsNext(rules, chain, s0, s);
      HelpfulAnswer(rules, chain, s0, s, target, ev.block, ev.io);
    } else {
      HelpfulTimer(rules, chain, s0, s, target, ev.io);
    }
  }

  /** A turn that stays inside `inv` and gets nearer to `target` until it is there, gets there. */
  lemma {:induction false} RepeatReaches(inv: State -> bool, turn: State -> Outcome, s: State, target: Height, n: nat)
    requires forall x :: inv(x) ==> Approaches(target, x, turn(x)) && inv(turn(x).state)
    requires inv(s) && (s.lastExecuted.Height() >= target || n >= Distance(target, s))
    ensures var o := Repeat(turn, s, n);
      o.Running? && inv(o.state) && o.state.lastExecuted.Height() >= target
    decreases n
  {
    if n > 0 {
      RepeatReaches(inv, turn, turn(s).state, target, n - 1);
    }
  }

  /**
   * Catching up: against a provider that only ever answers the last request it was sent, and across any
   * number of epoch changes, the assembler reaches every height it has seen within two steps a block.
   */
  lemma CatchUp(rules: Rules, chain: Chain, w: World, s0: State, s: State, target: Height, n: nat)
    requires Canonical(rules, chain) && Serves(rules, chain, w)
    requires CanonState(rules, chain, s0, s) && AskingState(rules, s0, s)
    requires Seen(target, s) && n >= Distance(target, s)
    ensures var o := Repeat(FairTurn(rules, chain, w), s, n);
      o.Running? && CanonState(rules, chain, s0, o.state) && o.state.lastExecuted.Height() >= target
  {
    var inv := (x: State) => CanonState(rules, chain, s0, x) && AskingState(rules, s0, x) && Seen(target, x);
    var turn := FairTurn(rules, chain, w);
    forall x | inv(x) ensures Approaches(target, x, turn(x)) && inv(turn(x).state) {
      HelpfulStep(rules, chain, w, s0, x, target);
      StepAsking(rules, s0, x, Helpful(chain, w, x));
    }
    RepeatReaches(inv, turn, s, target, n);
  }

  /**
   * From any point of a canonical session: however it got there and whichever sends failed so far, it can
   * still catch up.
   */
  lemma EverySessionCatchesUp(rules: Rules, chain: Chain, w: World, s0: State, events: seq<Event>, target: Height, n: nat)
    requires Canonical(rules, chain) && Serves(rules, chain, w) && CanonStart(rules, chain, s0)
    requires s0.pendingSync == None && s0.history.requests == []
    requires AllowedRun(rules, chain, s0, events) && Run(rules, s0, events).Running?
    requires var s := Run(rules, s0, events).state; Seen(target, s) && n >= Distance(target, s)
    ensures var o := Repeat(FairTurn(rules, chain, w), Run(rules, s0, events).state, n);
      o.Running? && o.state.lastExecuted.Height() >= target
  {
    RunCanon(rules, chain, s0, events);
    RequestsAreSent(rules, s0, events);
    CatchUp(rules, chain, w, s0, Run(rules, s0, events).state, target, n);
  }
}
