/**
 * The life of a node fed from one canonical chain: crashes and restarts do not take it out of the
 * states in which nothing is lost and no internal error can occur.
 */
module CanonicalLifetime {
  import opened Basics
  import opened Blocks
  import opened AssemblerSpec
  import opened AssemblerSafety
  import opened AssemblerProgress
  import opened Lifetime

  /** The blocks accepted so far, and the first executed one, are canonical. */
  ghost predicate CanonHistory(chain: Chain, h: History) {
    && (forall a :: a in h.accepted ==> a.block.base == chain(a.block.base.Height()))
    && |h.executed| > 0 && h.executed[0] == chain(0)
  }

  /**
   * The epoch a node is told when it starts is that of the block after its last executed one, or the one
   * that ended with its last executed block, if it stopped before the new epoch was announced.
   */
  ghost predicate EpochFits(rules: Rules, chain: Chain, d: Disk, epoch: EpochState) {
    && d.executed.Some? && Certifies(rules, chain, epoch)
    && var next := d.executed.value.Height() + 1;
       if epoch.over then d.committed == d.executed && chain(next).Epoch() > epoch.epoch
       else chain(next).Epoch() == epoch.epoch
  }

  /** What the canonical environment may do next to a node. */
  ghost predicate NodeAllowed(rules: Rules, chain: Chain, n: Node, ev: NodeEvent) {
    match (n, ev)
    case (Up(s), Work(e)) => Allowed(rules, chain, s, e)
    case (Down(d, _), Boot(genesis, writes, epoch, io)) =>
      var ready := Initialize(rules, d, genesis, writes).disk;
      genesis == chain(0) && (ready.executed.Some? ==>
        EpochFits(rules, chain, ready, epoch) && Truthful(chain, ready.executed.value.Height() + 1, io))
    case _ => true
  }

  ghost predicate AllowedLife(rules: Rules, chain: Chain, n: Node, events: seq<NodeEvent>)
    decreases |events|
  {
    events == [] ||
    var front := events[..|events| - 1];
    AllowedLife(rules, chain, n, front) && NodeAllowed(rules, chain, Live(rules, n, front), events[|events| - 1])
  }

  /** A running node is where some canonical session would be; a stopped one has canonical records. */
  ghost predicate NodeCanon(rules: Rules, chain: Chain, n: Node) {
    && NodeSafe(rules, n) && (n.History().executed != [] ==> CanonHistory(chain, n.History()))
    && (n.Up? ==> exists s0 :: CanonState(rules, chain, s0, n.state))
  }

  /** Everything executed or committed is canonical, since it was accepted. */
  lemma CanonRecords(rules: Rules, chain: Chain, d: Disk, h: History)
    requires Canonical(rules, chain) && DiskSafe(rules, d, h) && CanonHistory(chain, h)
    ensures d.executed.value == chain(d.executed.value.Height())
    ensures d.committed.value == chain(d.committed.value.Height())
  {
    var last := |h.executed| - 1;
    if last > 0 {
      assert Good(rules, d, h, h.executed[last]);
    }
  }

  lemma FreshCanon(rules: Rules, chain: Chain, s: State)
    requires CanonStart(rules, chain, s)
    ensures CanonState(rules, chain, s, s)
  {
  }

  /** A start whose records agree comes up where it stopped. */
  lemma LevelStartCanon(rules: Rules, chain: Chain, d: Disk, h: History, epoch: EpochState, io: Io)
    requires Canonical(rules, chain) && DiskSafe(rules, d, h) && CanonHistory(chain, h)
    requires EpochFits(rules, chain, d, epoch) && d.committed == d.executed
    ensures var n := StartUp(d, d.committed.value.Height(), h, epoch, io); n.Up? && CanonStart(rules, chain, n.state)
  {
    StartSafe(rules, d, h, epoch, io);
    CanonRecords(rules, chain, d, h);
  }

  /** A start that finds execution behind executes the committed block first. */
  lemma BehindStartCanon(rules: Rules, chain: Chain, d: Disk, h: History, epoch: EpochState, io: Io)
    requires Canonical(rules, chain) && DiskSafe(rules, d, h) && CanonHistory(chain, h)
    requires EpochFits(rules, chain, d, epoch) && Truthful(chain, d.executed.value.Height() + 1, io)
    requires d.committed != d.executed && StartUp(d, d.committed.value.Height(), h, epoch, io).Up?
    ensures CanonStart(rules, chain, StartUp(d, d.committed.value.Height(), h, epoch, io).state)
  {
    var s := Fresh(d, d.committed.value.Height(), h, epoch);
    CanonRecords(rules, chain, d, h);
    StartSafe(rules, d, h, epoch, io);
    FreshOnChain(rules, chain, d, d.committed.value.Height(), h, epoch);
    BehindStart(d, h, epoch, io);
    AdvanceOnChain(rules, chain, s, io.exec.epochChanged);
  }

  lemma FreshOnChain(rules: Rules, chain: Chain, d: Disk, lastCommitted: Height, h: History, epoch: EpochState)
    requires EpochFits(rules, chain, d, epoch) && d.executed.value == chain(d.executed.value.Height())
    ensures OnChain(rules, chain, Fresh(d, lastCommitted, h, epoch))
  {
  }

  lemma BehindStart(d: Disk, h: History, epoch: EpochState, io: Io)
    requires d.committed.Some? && d.executed.Some? && d.committed != d.executed
    requires StartUp(d, d.committed.value.Height(), h, epoch, io).Up?
    ensures io.exec.Executed?
    ensures StartUp(d, d.committed.value.Height(), h, epoch, io).state
            == Advance(Fresh(d, d.committed.value.Height(), h, epoch), d.committed.value, io.exec.epochChanged)
  {
  }

  /** A start over an initialised disk begins a new canonical session. */
  lemma StartUpCanon(rules: Rules, chain: Chain, d: Disk, h: History, epoch: EpochState, io: Io)
    requires Canonical(rules, chain) && DiskSafe(rules, d, h) && CanonHistory(chain, h)
    requires EpochFits(rules, chain, d, epoch) && Truthful(chain, d.executed.value.Height() + 1, io)
    ensures var n := StartUp(d, d.committed.value.Height(), h, epoch, io); n.Up? ==> CanonStart(rules, chain, n.state)
  {
    if d.committed == d.executed {
      LevelStartCanon(rules, chain, d, h, epoch, io);
    } else if StartUp(d, d.committed.value.Height(), h, epoch, io).Up? {
      BehindStartCanon(rules, chain, d, h, epoch, io);
    }
  }

  /** Every start, the first one or one after any crash, begins a new canonical session. */
  lemma BootCanon(rules: Rules, chain: Chain, d: Disk, h: History, genesis: CertifiedBlock, writes: nat,
                  epoch: EpochState, io: Io)
    requires Canonical(rules, chain) && NodeCanon(rules, chain, Down(d, h))
    requires NodeAllowed(rules, chain, Down(d, h), Boot(genesis, writes, epoch, io))
    ensures var n := BootNode(rules, d, h, genesis, writes, epoch, io); n.Up? ==> CanonStart(rules, chain, n.state)
  {
    var init := Initialize(rules, d, genesis, writes);
    if init.Ready? {
      if d.executed.None? {
        FirstStartCanon(rules, chain, init.disk, h, epoch, io);
      } else {
        StartUpCanon(rules, chain, d, h, epoch, io);
      }
    }
  }

  lemma FirstStartCanon(rules: Rules, chain: Chain, d: Disk, h: History, epoch: EpochState, io: Io)
    requires Canonical(rules, chain) && h.executed == [] && h.accepted == {}
    requires d.committed == Some(chain(0)) && d.executed == Some(chain(0))
    requires EpochFits(rules, chain, d, epoch) && Truthful(chain, 1, io)
    ensures var n := StartUp(d, 0, Record(h, chain(0)), epoch, io); n.Up? ==> CanonStart(rules, chain, n.state)
  {
    GenesisSafe(rules, d, h, chain(0));
    assert chain(0).Height() == 0;
    StartUpCanon(rules, chain, d, Record(h, chain(0)), epoch, io);
  }

  lemma WorkCanon(rules: Rules, chain: Chain, s: State, ev: Event)
    requires Canonical(rules, chain) && NodeCanon(rules, chain, Up(s)) && Allowed(rules, chain, s, ev)
    ensures NodeCanon(rules, chain, NodeStep(rules, Up(s), Work(ev)))
  {
    var s0 :| CanonState(rules, chain, s0, s);
    StepCanon(rules, chain, s0, s, ev);
    StepSafe(rules, s, ev);
    AcceptsCanonical(rules, chain, s, ev);
  }

  lemma AcceptsCanonical(rules: Rules, chain: Chain, s: State, ev: Event)
    requires CanonHistory(chain, s.history) && Allowed(rules, chain, s, ev)
    ensures CanonHistory(chain, Step(rules, s, ev).History())
  {
    var before, after := s.history.executed, Step(rules, s, ev).History().executed;
    assert before <= after;
  }

  lemma BootNodeCanon(rules: Rules, chain: Chain, d: Disk, h: History, genesis: CertifiedBlock, writes: nat,
                      epoch: EpochState, io: Io)
    requires Canonical(rules, chain) && NodeCanon(rules, chain, Down(d, h))
    requires NodeAllowed(rules, chain, Down(d, h), Boot(genesis, writes, epoch, io))
    ensures NodeCanon(rules, chain, BootNode(rules, d, h, genesis, writes, epoch, io))
  {
    BootSafe(rules, d, h, genesis, writes, epoch, io);
    BootCanon(rules, chain, d, h, genesis, writes, epoch, io);
    var m := BootNode(rules, d, h, genesis, writes, epoch, io);
    if m.Up? {
      FreshCanon(rules, chain, m.state);
    }
    if h.executed == [] {
      BootBegins(rules, d, h, genesis, writes, epoch, io);
    } else {
      assert h.executed <= m.History().executed;
    }
  }

  lemma NodeStepCanon(rules: Rules, chain: Chain, n: Node, ev: NodeEvent)
    requires Canonical(rules, chain) && NodeCanon(rules, chain, n) && NodeAllowed(rules, chain, n, ev)
    ensures NodeCanon(rules, chain, NodeStep(rules, n, ev))
  {
    match (n, ev) {
      case (Up(s), Work(e)) => WorkCanon(rules, chain, s, e);
      case (Down(d, h), Boot(genesis, writes, epoch, io)) =>
        BootNodeCanon(rules, chain, d, h, genesis, writes, epoch, io);
      case _ =>
    }
  }

  lemma {:induction false} LifeCanon(rules: Rules, chain: Chain, n: Node, events: seq<NodeEvent>)
    requires Canonical(rules, chain) && NodeCanon(rules, chain, n) && AllowedLife(rules, chain, n, events)
    ensures NodeCanon(rules, chain, Live(rules, n, events))
    decreases |events|
  {
    if events != [] {
      LifeCanon(rules, chain, n, events[..|events| - 1]);
      NodeStepCanon(rules, chain, Live(rules, n, events[..|events| - 1]), events[|events| - 1]);
    }
  }

  /**
   * Over a whole life from a blank disk on, with crashes at any point, a running node is never asleep: the epoch is over, or
   * it has seen nothing new, or the next canonical block is in its channel, or it has asked for it. And
   * everything it executed is the canonical chain from genesis on.
   */
  lemma NeverAsleepForGood(rules: Rules, chain: Chain, d: Disk, events: seq<NodeEvent>)
    requires Canonical(rules, chain) && Blank(d)
    requires AllowedLife(rules, chain, Unstarted(d), events)
    ensures var n := Live(rules, Unstarted(d), events);
      && (n.Up? ==> Awake(n.state) && (n.state.channel == [] || n.state.channel == [chain(n.state.Next())]))
      && (forall i :: 0 <= i < |n.History().executed| ==> n.History().executed[i] == chain(i))
  {
    LifeCanon(rules, chain, Unstarted(d), events);
    var n := Live(rules, Unstarted(d), events);
    if n.Up? {
      AwakeNode(rules, chain, n);
    }
    if n.History().executed != [] {
      ExecutedIsChain(rules, chain, n);
    }
  }

  lemma AwakeNode(rules: Rules, chain: Chain, n: Node)
    requires NodeCanon(rules, chain, n) && n.Up?
    ensures Awake(n.state) && (n.state.channel == [] || n.state.channel == [chain(n.state.Next())])
  {
    var s0 :| CanonState(rules, chain, s0, n.state);
  }

  lemma ExecutedIsChain(rules: Rules, chain: Chain, n: Node)
    requires Canonical(rules, chain) && NodeCanon(rules, chain, n) && n.History().executed != []
    ensures var e := n.History().executed; forall i :: 0 <= i < |e| ==> e[i] == chain(i)
  {
    var e := n.History().executed;
    forall i | 0 <= i < |e| ensures e[i] == chain(i) {
      LinkedHeights(e, i);
      if i > 0 {
        assert Good(rules, n.Disk(), n.History(), e[i]);
      }
    }
  }
}
