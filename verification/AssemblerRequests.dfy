/**
 * What the assembler asks its provider for: exactly the blocks that are missing, when they are missing, and
 * again when the timer fires.
 */
module AssemblerRequests {
  import opened Basics
  import opened Blocks
  import opened BlockVerification
  import opened Errors
  import opened AssemblerSpec
  import opened AssemblerSafety

  /**
   * A pending request is for the next height of a running epoch, which is not held although it or something
   * above it was seen.
   */
  predicate Justified(s: State) {
    s.pendingSync.Some? ==>
      && s.pendingSync.value == s.Next() && !s.epoch.over
      && s.highest.Some? && s.highest.value.Height() >= s.Next()
      && !s.HasEntry(s.Next())
  }

  predicate SendOk(ev: Event) { ev.InputClosed? || ev.io.sendOk }

  /** What an operation sends: one request for the next height if one became pending or is repeated. */
  function Sent(s: State, s': State, sendOk: bool, again: bool): seq<Height> {
    if sendOk && s'.pendingSync.Some? && (again || s'.pendingSync != s.pendingSync) then [s'.Next()] else []
  }

  predicate Asks(s: State, sendOk: bool, again: bool, o: Outcome) {
    match o
    case Halted(_, h, _) => h.requests == s.history.requests
    case Running(s', _) =>
      Justified(s') && s'.history.requests == s.history.requests + Sent(s, s', sendOk, again)
  }

  // ----- each operation -----

  lemma TrySyncAsks(s: State, io: Io)
    requires Justified(s) && !s.epoch.over
    ensures Asks(s, io.sendOk, false, TrySync(s, io))
  {
  }

  lemma ScheduleNextAsks(s: State, io: Io)
    requires Justified(s) && !s.epoch.over
    ensures Asks(s, io.sendOk, false, ScheduleNext(s, io))
  {
    TrySyncAsks(s, io);
  }

  lemma ExecuteChainAsks(s: State, b: CertifiedBlock, io: Io)
    requires s.pendingSync == None
    ensures Asks(s, io.sendOk, false, ExecuteChain(s, b, io))
  {
    var o := ExecuteBlock(s, b, io);
    if o.Running? && !o.state.epoch.over {
      ScheduleNextAsks(o.state, io);
    }
  }

  lemma CacheAsks(s: State, b: CertifiedBlock, io: Io)
    requires Justified(s) && !s.epoch.over && b.Height() != s.Next()
    ensures Asks(s, io.sendOk, false, CacheAndSync(s, b, io))
  {
    TrySyncAsks(s.(pending := s.pending[b.Height() := Waiting(b)]), io);
  }

  /** What is sent after a pending request was met is sent for another height. */
  lemma AsksAfterClear(s: State, s1: State, io: Io, o: Outcome)
    requires Justified(s) && Asks(s1, io.sendOk, false, o) && s1.history.requests == s.history.requests
    requires s1.pendingSync == None && (o.Running? ==> o.state.Next() > s.Next())
    ensures Asks(s, io.sendOk, false, o)
  {
  }

  lemma HandleFullBlockAsks(s: State, b: FullBlock, io: Io)
    requires Justified(s) && !s.epoch.over && s.lastCommitted == s.lastExecuted.Height() && !s.HasEntry(b.base.Height())
    ensures Asks(s, io.sendOk, false, HandleFullBlock(s, b, io))
  {
    if io.persistWrites > |b.batches| {
      var s2 := ClearSync(Persisted(s, b), b.base.Height());
      if b.base.Height() != s.Next() {
        CacheAsks(s2, b.base, io);
      } else if b.base.Parent() == s.lastExecuted.hash {
        ExecuteChainAsks(s2, b.base, io);
        AsksAfterClear(s, s2, io, ExecuteChain(s2, b.base, io));
      }
    }
  }

  lemma HandleIncomingAsks(rules: Rules, s: State, b: FullBlock, io: Io)
    requires Justified(s) && s.lastCommitted == s.lastExecuted.Height()
    ensures Asks(s, io.sendOk, false, HandleIncoming(rules, s, b, io))
  {
    var s1 := Receive(Observe(s, b.base), b);
    if !Skips(s1, b.base) {
      match Verify(rules, s1.epoch, b) {
        case OldEpochBlock =>
        case InvalidBlock =>
        case FutureEpochBlock =>
          TrySyncAsks(s1, io);
          AsksSame(s, s1, io, TrySync(s1, io));
        case Success =>
          HandleFullBlockAsks(s1, b, io);
          AsksSame(s, s1, io, HandleFullBlock(s1, b, io));
      }
    }
  }

  lemma AsksSame(s: State, s1: State, io: Io, o: Outcome)
    requires Asks(s1, io.sendOk, false, o)
    requires s1.history.requests == s.history.requests && s1.pendingSync == s.pendingSync
    ensures Asks(s, io.sendOk, false, o)
  {
  }

  lemma HandleScheduledAsks(rules: Rules, s: State, io: Io)
    requires Safe(rules, s) && Justified(s) && s.channel != []
    ensures Asks(s, io.sendOk, false, HandleScheduled(s.(channel := s.channel[1..]), s.channel[0], io))
  {
    var b := s.channel[0];
    var s1 := ClearSync(s.(channel := s.channel[1..]), b.Height());
    if b.Parent() == s.lastExecuted.hash {
      ExecuteChainAsks(s1, b, io);
      AsksAfterClear(s, s1, io, ExecuteChain(s1, b, io));
    }
  }

  lemma HandleNotificationAsks(rules: Rules, s: State, note: Notification, io: Io)
    requires Justified(s)
    ensures Asks(s, io.sendOk, false, HandleNotification(rules, s, note, io))
  {
    if s.epoch.over && note.NewEpoch? && !note.state.over {
      TrySyncAsks(s.(pending := Above(s.pending, note.state.startHeight), epoch := note.state), io);
    }
  }

  /**
   * Exactly what one step sends: nothing, or the next height, once. It is sent when it becomes pending, and
   * again on every timer while it is pending, provided the send works; and it is pending only while it is
   * missing and something at or above it was seen.
   */
  lemma StepAsks(rules: Rules, s: State, ev: Event)
    requires Safe(rules, s) && Justified(s)
    ensures Asks(s, SendOk(ev), ev.SyncTimer?, Step(rules, s, ev))
  {
    match ev {
      case EpochNotification(note, io) => HandleNotificationAsks(rules, s, note, io);
      case IncomingBlock(b, io) => HandleIncomingAsks(rules, s, b, io);
      case ScheduledBlock(io) => if s.channel != [] { HandleScheduledAsks(rules, s, io); }
      case SyncTimer(io) =>
      case InputClosed =>
    }
  }

  // ----- whole sessions -----

  /** Everything requested in the session begun in `s0` was at some point the next height. */
  predicate WithinReach(s0: State, s: State) {
    forall i :: 0 <= i < |s.history.requests| ==> s0.lastExecuted.Height() < s.history.requests[i] <= s.Next()
  }

  /** The pending request is the last one that reached the provider. */
  predicate LastSent(s: State) {
    var sent := s.history.requests;
    s.pendingSync.Some? ==> sent != [] && sent[|sent| - 1] == s.pendingSync.value
  }

  lemma NeverFallsBack(rules: Rules, s: State, ev: Event)
    requires Safe(rules, s) && Step(rules, s, ev).Running?
    ensures Step(rules, s, ev).state.lastExecuted.Height() >= s.lastExecuted.Height()
  {
    StepSafe(rules, s, ev);
    LongerIsHigher(s.history.executed, Step(rules, s, ev).state.history.executed);
  }

  lemma LongerIsHigher(before: seq<CertifiedBlock>, after: seq<CertifiedBlock>)
    requires before != [] && Linked(after) && GrowsByAtMostOne(before, after)
    ensures after[|after| - 1].Height() >= before[|before| - 1].Height()
  {
    LinkedHeights(after, |before| - 1);
    LinkedHeights(after, |after| - 1);
    assert after[|before| - 1] == before[|before| - 1];
  }

  lemma StepWithinReach(rules: Rules, s0: State, s: State, ev: Event)
    requires Safe(rules, s) && Justified(s) && WithinReach(s0, s) && Step(rules, s, ev).Running?
    requires s0.lastExecuted.Height() <= s.lastExecuted.Height()
    ensures WithinReach(s0, Step(rules, s, ev).state)
  {
    StepAsks(rules, s, ev);
    NeverFallsBack(rules, s, ev);
  }

  lemma StepLastSent(rules: Rules, s: State, ev: Event)
    requires Safe(rules, s) && Justified(s) && LastSent(s) && SendOk(ev) && Step(rules, s, ev).Running?
    ensures LastSent(Step(rules, s, ev).state)
  {
    StepAsks(rules, s, ev);
    var s' := Step(rules, s, ev).state;
    assert s'.history.requests == s.history.requests + Sent(s, s', true, ev.SyncTimer?);
  }

  ghost predicate AskingState(rules: Rules, s0: State, s: State) {
    Safe(rules, s) && Justified(s) && WithinReach(s0, s) && s0.lastExecuted.Height() <= s.lastExecuted.Height()
  }

  predicate AllSend(events: seq<Event>) {
    forall i :: 0 <= i < |events| ==> SendOk(events[i])
  }

  lemma StepAsking(rules: Rules, s0: State, s: State, ev: Event)
    requires AskingState(rules, s0, s) && Step(rules, s, ev).Running?
    ensures AskingState(rules, s0, Step(rules, s, ev).state)
  {
    StepSafe(rules, s, ev);
    StepAsks(rules, s, ev);
    NeverFallsBack(rules, s, ev);
    StepWithinReach(rules, s0, s, ev);
  }

  /**
   * In every session, whatever is received, a request is pending only for a block that is missing, and
   * everything ever requested was the next height at that time. If the sends work, the pending request is
   * the last one that was sent.
   */
  lemma {:induction false} RequestsAreSent(rules: Rules, s0: State, events: seq<Event>)
    requires Safe(rules, s0) && s0.pendingSync == None && s0.history.requests == [] && Run(rules, s0, events).Running?
    ensures var s := Run(rules, s0, events).state;
      AskingState(rules, s0, s) && (AllSend(events) ==> LastSent(s))
    decreases |events|
  {
    if events != [] {
      var front, ev := events[..|events| - 1], events[|events| - 1];
      RequestsAreSent(rules, s0, front);
      var s := Run(rules, s0, front).state;
      StepAsking(rules, s0, s, ev);
      if AllSend(events) {
        assert SendOk(events[|events| - 1]);
        StepLastSent(rules, s, ev);
      }
    }
  }

  // ----- what was seen -----

  /** `highest` is the header and digest of a highest block among the events; nothing was seen above genesis if none. */
  ghost predicate HighestOf(events: seq<Event>, highest: Option<BlockInfo>) {
    && (forall k :: 0 <= k < |events| && events[k].IncomingBlock? ==>
          events[k].block.base.Height() <= if highest.Some? then highest.value.Height() else 0)
    && (highest.Some? ==>
          exists k :: 0 <= k < |events| && events[k].IncomingBlock? && events[k].block.base.Info() == highest.value)
  }

  lemma StepSees(rules: Rules, s: State, ev: Event)
    requires Step(rules, s, ev).Running?
    ensures Step(rules, s, ev).state.highest == if ev.IncomingBlock? then Observe(s, ev.block.base).highest else s.highest
  {
  }

  lemma HighestExtends(events: seq<Event>, before: Option<BlockInfo>, now: Option<BlockInfo>)
    requires events != [] && HighestOf(events[..|events| - 1], before)
    requires var ev := events[|events| - 1];
      now == if ev.IncomingBlock? && ev.block.base.Height() > (if before.Some? then before.value.Height() else 0)
             then Some(ev.block.base.Info()) else before
    ensures HighestOf(events, now)
  {
    var front := events[..|events| - 1];
    if now.Some? {
      if now == before {
        var k :| 0 <= k < |front| && front[k].IncomingBlock? && front[k].block.base.Info() == now.value;
        assert events[k].IncomingBlock? && events[k].block.base.Info() == now.value;
      } else {
        assert events[|front|].IncomingBlock? && events[|front|].block.base.Info() == now.value;
      }
    }
  }

  /** The highest block observed in a session is a highest one of all that were received, of whatever epoch. */
  lemma {:induction false} HighestIsHighest(rules: Rules, s0: State, events: seq<Event>)
    requires s0.highest == None && Run(rules, s0, events).Running?
    ensures HighestOf(events, Run(rules, s0, events).state.highest)
    decreases |events|
  {
    if events != [] {
      var s := Run(rules, s0, events[..|events| - 1]).state;
      HighestIsHighest(rules, s0, events[..|events| - 1]);
      StepSees(rules, s, events[|events| - 1]);
      HighestExtends(events, s.highest, Run(rules, s0, events).state.highest);
    }
  }
}
