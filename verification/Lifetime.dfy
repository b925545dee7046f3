/**
 * The life of a node: sessions of the assembler separated by crashes and restarts. A crash inside a
 * step is a step whose next input/output operation fails; a crash between steps is `PowerLoss`.
 */
module Lifetime {
  import opened Basics
  import opened Blocks
  import opened BlockVerification
  import opened Errors
  import opened AssemblerSpec
  import opened AssemblerSafety

  datatype Node = Up(state: State) | Down(disk: Disk, history: History) {
    function Disk(): Disk { if Up? then state.disk else disk }
    function History(): History { if Up? then state.history else history }
  }

  datatype NodeEvent =
    | Work(event: Event)
    | PowerLoss
    | Boot(genesis: CertifiedBlock, writes: nat, epoch: EpochState, io: Io)

  datatype InitResult = Ready(disk: Disk, lastCommitted: Height) | Refused(disk: Disk, error: BlockStoreError)

  /**
   * `BlockStore::initialize`. On a blank disk it records the genesis block in two separate writes, of
   * which `writes` succeed; otherwise it checks the two records against each other.
   */
  function Initialize(rules: Rules, d: Disk, genesis: CertifiedBlock, writes: nat): (r: InitResult)
    ensures r.Ready? ==> r.disk.committed.Some? && r.disk.executed.Some?
  {
    match (d.committed, d.executed)
    case (None, None) =>
      if writes == 0 then Refused(d, PersistentStore)
      else if writes == 1 then Refused(d.(committed := Some(genesis)), PersistentStore)
      else Ready(d.(committed := Some(genesis), executed := Some(genesis)), genesis.Height())
    case (Some(c), Some(e)) =>
      if c != e && !rules.correctlyExtends(c, e.qc) then Refused(d, FatalStore) else Ready(d, c.Height())
    case _ => Refused(d, FatalStore)
  }

  /** The state of a new assembler over an initialised disk; a new session has received and sent nothing. */
  function Fresh(d: Disk, lastCommitted: Height, h: History, epoch: EpochState): State
    requires d.executed.Some?
  {
    State(d.executed.value.Info(), None, None, map[], lastCommitted, epoch, [], d, h.(received := {}, requests := []))
  }

  /** A new assembler over an initialised disk first executes the committed block if execution is behind. */
  function StartUp(d: Disk, lastCommitted: Height, h: History, epoch: EpochState, io: Io): (n: Node)
    requires d.committed.Some? && d.executed.Some?
    ensures GrowsByAtMostOne(h.executed, n.History().executed)
    ensures d.committed == d.executed ==> n.History().executed == h.executed
    ensures n.History().accepted == h.accepted
  {
    var s := Fresh(d, lastCommitted, h, epoch);
    if d.committed == d.executed then Up(s)
    else
      match ExecuteBlock(s, d.committed.value, io)
      case Running(s', _) => Up(s')
      case Halted(d', h', _) => Down(d', h')
  }

  /** Start of the node, on whatever disk: initialise the store, then start up. A first start records genesis. */
  function BootNode(rules: Rules, d: Disk, h: History, genesis: CertifiedBlock, writes: nat, epoch: EpochState, io: Io): (n: Node)
    ensures GrowsByAtMostOne(h.executed, n.History().executed)
    ensures n.History().accepted == h.accepted
  {
    match Initialize(rules, d, genesis, writes)
    case Refused(d', _) => Down(d', h)
    case Ready(d', lastCommitted) =>
      StartUp(d', lastCommitted, if d.executed.None? then Record(h, genesis) else h, epoch, io)
  }

  function NodeStep(rules: Rules, n: Node, ev: NodeEvent): (m: Node)
    ensures GrowsByAtMostOne(n.History().executed, m.History().executed)
  {
    match (n, ev)
    case (Up(s), Work(e)) =>
      (match Step(rules, s, e)
       case Running(s', _) => Up(s')
       case Halted(d, h, _) => Down(d, h))
    case (Up(s), PowerLoss) => Down(s.disk, s.history)
    case (Down(d, h), Boot(genesis, writes, epoch, io)) => BootNode(rules, d, h, genesis, writes, epoch, io)
    case _ => n
  }

  function Live(rules: Rules, n: Node, events: seq<NodeEvent>): Node
    decreases |events|
  {
    if events == [] then n
    else NodeStep(rules, Live(rules, n, events[..|events| - 1]), events[|events| - 1])
  }

  /** A node that was never started. */
  function Unstarted(d: Disk): Node { Down(d, History([], {}, {}, [])) }

  predicate Blank(d: Disk) { d.committed == None && d.executed == None }

  /** Nothing was ever executed or accepted; at most the first write of a first start was made. */
  predicate NeverStarted(d: Disk, h: History) {
    d.executed == None && h.executed == [] && h.accepted == {}
  }

  ghost predicate NodeSafe(rules: Rules, n: Node) {
    match n
    case Up(s) => Safe(rules, s)
    case Down(d, h) => DiskSafe(rules, d, h) || NeverStarted(d, h)
  }

  /** The check of a block against a certificate holds between a block and the child naming it. */
  ghost predicate AcceptsChildren(rules: Rules) {
    forall a, b :: Follows(a, b) ==> rules.correctlyExtends(b, a.qc)
  }

  /** The genesis block alone is a safe chain. */
  lemma GenesisSafe(rules: Rules, d: Disk, h: History, genesis: CertifiedBlock)
    requires h.executed == [] && h.accepted == {}
    requires d.committed == Some(genesis) && d.executed == Some(genesis)
    ensures DiskSafe(rules, d, Record(h, genesis))
  {
  }

  lemma StartSafe(rules: Rules, d: Disk, h: History, epoch: EpochState, io: Io)
    requires DiskSafe(rules, d, h)
    ensures NodeSafe(rules, StartUp(d, d.committed.value.Height(), h, epoch, io))
  {
    var c, e := d.committed.value, d.executed.value;
    var s := Fresh(d, c.Height(), h, epoch);
    SameDisk(rules, State(e.Info(), None, None, map[], 0, epoch, [], d, h), s);
    if c != e {
      assert Good(rules, d, s.history, c) by { GoodGrows(rules, d, h, d, s.history, c); }
      RecordSafe(rules, d, s.history, c);
      assert Above(s.pending, c.Height()) == map[];
    }
  }

  lemma BootSafe(rules: Rules, d: Disk, h: History, genesis: CertifiedBlock, writes: nat, epoch: EpochState, io: Io)
    requires NodeSafe(rules, Down(d, h))
    ensures NodeSafe(rules, BootNode(rules, d, h, genesis, writes, epoch, io))
  {
    var init := Initialize(rules, d, genesis, writes);
    if init.Ready? {
      if d.executed.None? {
        GenesisSafe(rules, init.disk, h, genesis);
        StartSafe(rules, init.disk, Record(h, genesis), epoch, io);
      } else {
        StartSafe(rules, d, h, epoch, io);
      }
    }
  }

  lemma NodeStepSafe(rules: Rules, n: Node, ev: NodeEvent)
    requires NodeSafe(rules, n)
    ensures NodeSafe(rules, NodeStep(rules, n, ev))
  {
    match (n, ev) {
      case (Up(s), Work(e)) => StepSafe(rules, s, e);
      case (Down(d, h), Boot(genesis, writes, epoch, io)) => BootSafe(rules, d, h, genesis, writes, epoch, io);
      case _ =>
    }
  }

  /** Every state a node reaches, over any number of sessions and crashes, satisfies the invariant. */
  lemma {:induction false} LiveSafe(rules: Rules, n: Node, events: seq<NodeEvent>)
    requires NodeSafe(rules, n)
    ensures NodeSafe(rules, Live(rules, n, events))
    decreases |events|
  {
    if events != [] {
      LiveSafe(rules, n, events[..|events| - 1]);
      NodeStepSafe(rules, Live(rules, n, events[..|events| - 1]), events[|events| - 1]);
    }
  }

  predicate SameGenesis(events: seq<NodeEvent>, genesis: CertifiedBlock) {
    forall i :: 0 <= i < |events| && events[i].Boot? ==> events[i].genesis == genesis
  }

  lemma BootBegins(rules: Rules, d: Disk, h: History, genesis: CertifiedBlock, writes: nat, epoch: EpochState, io: Io)
    requires NodeSafe(rules, Down(d, h)) && (h.executed != [] ==> h.executed[0] == genesis)
    ensures var e := BootNode(rules, d, h, genesis, writes, epoch, io).History().executed;
      e != [] ==> e[0] == genesis
  {
  }

  /** The first block a node executes is the genesis block it was first started with. */
  lemma {:induction false} BeginsWithGenesis(rules: Rules, d: Disk, genesis: CertifiedBlock, events: seq<NodeEvent>)
    requires Blank(d) && SameGenesis(events, genesis)
    ensures var e := Live(rules, Unstarted(d), events).History().executed; e != [] ==> e[0] == genesis
    decreases |events|
  {
    if events != [] {
      var front, ev := events[..|events| - 1], events[|events| - 1];
      BeginsWithGenesis(rules, d, genesis, front);
      LiveSafe(rules, Unstarted(d), front);
      var n := Live(rules, Unstarted(d), front);
      if n.Down? && ev.Boot? {
        BootBegins(rules, n.disk, n.history, ev.genesis, ev.writes, ev.epoch, ev.io);
      }
    }
  }

  // ----- main results, for every provider, every failure and every crash -----

  /**
   * Chain safety: over the whole life of a node from a blank disk on, whatever it is sent, the executed
   * blocks form one hash-linked chain from the genesis block it was first started with, with heights rising
   * by one; each later one passed verification and is on disk at its height; and while running, the
   * committed and executed heights agree.
   */
  lemma ChainSafety(rules: Rules, d: Disk, genesis: CertifiedBlock, events: seq<NodeEvent>)
    requires Blank(d) && SameGenesis(events, genesis)
    ensures
      var n := Live(rules, Unstarted(d), events);
      var chain := n.History().executed;
      && Linked(chain)
      && (n.Disk().executed == if chain == [] then None else Some(chain[|chain| - 1]))
      && (chain != [] ==> chain[0] == genesis)
      && (forall i :: 1 <= i < |chain| ==>
            Vetted(rules, n.History(), chain[i]) && OnDisk(n.Disk(), chain[i]))
      && (n.Up? ==>
            && chain != []
            && n.state.lastCommitted == n.state.lastExecuted.Height()
            && n.state.lastExecuted == chain[|chain| - 1].Info()
            && n.state.disk.committed == n.state.disk.executed)
  {
    LiveSafe(rules, Unstarted(d), events);
    BeginsWithGenesis(rules, d, genesis, events);
    var n := Live(rules, Unstarted(d), events);
    var chain := n.History().executed;
    forall i | 1 <= i < |chain| ensures Vetted(rules, n.History(), chain[i]) && OnDisk(n.Disk(), chain[i]) {
      assert Good(rules, n.Disk(), n.History(), chain[i]);
    }
  }

  /**
   * What it took to execute a block: it came from the provider as a block with a valid commit certificate,
   * consistent with its batches, in the epoch current at that moment and accepted by its committee unless
   * that check is switched off; and all its batches are on disk.
   */
  lemma ExecutedWasVerified(rules: Rules, d: Disk, events: seq<NodeEvent>, i: nat)
    requires Blank(d) && 1 <= i < |Live(rules, Unstarted(d), events).History().executed|
    ensures
      var n := Live(rules, Unstarted(d), events);
      var b := n.History().executed[i];
      && rules.commitCertified(b)
      && exists a :: a in n.History().accepted && a.block.base == b
           && rules.consistent(a.block)
           && a.epoch.epoch == b.Epoch()
           && (rules.skipQcVerification || rules.committeeAccepts(a.epoch.committee, b))
           && forall p :: p in a.block.batches ==> p.key in n.Disk().batches
  {
    LiveSafe(rules, Unstarted(d), events);
    var n := Live(rules, Unstarted(d), events);
    var b := n.History().executed[i];
    assert Good(rules, n.Disk(), n.History(), b);
    var a :| a in n.History().accepted && a.block.base == b && Verify(rules, a.epoch, a.block) == Success;
    assert forall p :: p in a.block.batches ==> p.key in n.Disk().batches;
  }

  /** No run ever takes back an executed block: what was executed stays a prefix of the chain. */
  lemma {:induction false} NeverRollsBack(rules: Rules, n: Node, events: seq<NodeEvent>, k: nat)
    requires k <= |events|
    ensures Live(rules, n, events[..k]).History().executed <= Live(rules, n, events).History().executed
    decreases |events|
  {
    if k == |events| {
      assert events[..k] == events;
    } else {
      var front := events[..|events| - 1];
      NeverRollsBack(rules, n, front, k);
      assert front[..k] == events[..k];
    }
  }

  /**
   * Single flight: the one-slot channel holds a block exactly when the entry after the last executed
   * block is `Scheduled`, no other entry is, and it is empty whenever the epoch is over.
   */
  lemma SingleFlight(rules: Rules, n: Node, events: seq<NodeEvent>)
    requires NodeSafe(rules, n) && Live(rules, n, events).Up?
    ensures
      var s := Live(rules, n, events).state;
      && |s.channel| <= 1
      && (s.channel != [] <==> s.Next() in s.pending && s.pending[s.Next()].Scheduled?)
      && (s.channel != [] ==> s.pending[s.Next()].info == s.channel[0].Info())
      && (forall k :: k in s.pending && s.pending[k].Scheduled? ==> k == s.Next())
      && (s.epoch.over ==> s.channel == [])
  {
    LiveSafe(rules, n, events);
    var s := Live(rules, n, events).state;
    forall k | k in s.pending && s.pending[k].Scheduled? ensures k == s.Next() {
      assert SlotSafe(rules, s, k);
    }
  }

  /**
   * Sync coherence, and which errors are unreachable: in every run the pending request is for the
   * next height, and no step ends with a sync mismatch, an overfull channel, a regression, or an
   * invalid use or state of the block store.
   */
  lemma InternalErrorsUnreachable(rules: Rules, n: Node, events: seq<NodeEvent>, ev: Event)
    requires NodeSafe(rules, n) && Live(rules, n, events).Up?
    ensures
      var s := Live(rules, n, events).state;
      && (s.pendingSync.Some? ==> s.pendingSync.value == s.Next())
      && OnlyExternalErrors(Step(rules, s, ev))
  {
    LiveSafe(rules, n, events);
    StepSafe(rules, Live(rules, n, events).state, ev);
  }

  /**
   * Crash consistency: wherever a node that was started once stops, its records are equal or parent-linked,
   * so the store accepts them; and if the executor then works, the node comes up with the two records equal.
   */
  lemma CrashConsistency(rules: Rules, n: Node, events: seq<NodeEvent>, genesis: CertifiedBlock, writes: nat,
                         epoch: EpochState, io: Io)
    requires AcceptsChildren(rules) && NodeSafe(rules, n) && Live(rules, n, events).History().executed != []
    ensures
      var d := Live(rules, n, events).Disk();
      && d.committed.Some? && d.executed.Some?
      && (d.committed == d.executed || Follows(d.executed.value, d.committed.value))
      && Initialize(rules, d, genesis, writes) == Ready(d, d.committed.value.Height())
      && (io.commitOk && io.exec.Executed? ==>
            var up := BootNode(rules, d, Live(rules, n, events).History(), genesis, writes, epoch, io);
            up.Up? && Safe(rules, up.state) && up.state.disk.executed == d.committed)
  {
    LiveSafe(rules, n, events);
    var m := Live(rules, n, events);
    BootSafe(rules, m.Disk(), m.History(), genesis, writes, epoch, io);
  }

  // ----- initialisation -----

  /**
   * What initialisation accepts and writes: a blank disk on which both writes succeed, which then holds the
   * genesis block in both records and is otherwise as before; or two records that are equal or pass the check
   * of a block against its parent's certificate, and these are left alone. It fails otherwise, and then at
   * most the committed record of a blank disk was written.
   */
  lemma InitializeExactly(rules: Rules, d: Disk, genesis: CertifiedBlock, writes: nat)
    ensures var r := Initialize(rules, d, genesis, writes);
      && (r.Ready? <==>
            || (Blank(d) && writes >= 2)
            || (d.committed.Some? && d.executed.Some?
                && (d.committed == d.executed || rules.correctlyExtends(d.committed.value, d.executed.value.qc))))
      && (r.Ready? ==> r.lastCommitted == r.disk.committed.value.Height())
      && (Blank(d) && writes >= 2 ==> r.disk == d.(committed := Some(genesis), executed := Some(genesis)))
      && (Blank(d) && writes == 1 ==> r.disk == d.(committed := Some(genesis)))
      && (!Blank(d) || writes == 0 ==> r.disk == d)
  {
  }

  /** A first start with working writes comes up after genesis: its child is the next block to execute. */
  lemma FirstStartComesUp(rules: Rules, d: Disk, genesis: CertifiedBlock, writes: nat, epoch: EpochState, io: Io,
                          child: CertifiedBlock)
    requires Blank(d) && writes >= 2 && Follows(genesis, child)
    ensures var n := BootNode(rules, d, Unstarted(d).History(), genesis, writes, epoch, io);
      && n.Up? && Safe(rules, n.state)
      && n.state.history.executed == [genesis] && n.state.disk.executed == Some(genesis)
      && n.state.lastCommitted == genesis.Height() && n.state.epoch == epoch
      && FollowsChain(n.state, child) == Some(true)
  {
    BootSafe(rules, d, Unstarted(d).History(), genesis, writes, epoch, io);
  }

  /** Every session begins with nothing received, seen, pending, scheduled or requested. */
  lemma BootIsFresh(rules: Rules, d: Disk, h: History, genesis: CertifiedBlock, writes: nat, epoch: EpochState, io: Io)
    requires BootNode(rules, d, h, genesis, writes, epoch, io).Up?
    ensures var s := BootNode(rules, d, h, genesis, writes, epoch, io).state;
      && s.highest == None && s.pendingSync == None && s.pending == map[] && s.channel == []
      && s.history.received == {} && s.history.requests == []
      && s.epoch.epoch == epoch.epoch && (epoch.over ==> s.epoch.over)
  {
    var nothing: map<Height, Slot> := map[];
    assert forall k: Height :: Above(nothing, k) == nothing;
  }

  /**
   * The two writes of a first start are not atomic: a blank disk can be initialised again after a
   * failed first start if and only if the failure did not fall between them.
   */
  lemma FirstStart(rules: Rules, d: Disk, genesis: CertifiedBlock, writes: nat, again: nat)
    requires Blank(d) && again >= 2
    ensures
      var first := Initialize(rules, d, genesis, writes);
      Initialize(rules, first.disk, genesis, again).Ready? <==> writes != 1
  {
  }
}
