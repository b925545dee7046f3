/**
 * The chain state assembler as a state machine over plain values.
 *
 * The pending blocks are kept here in a plain map that always holds the full block. The classes
 * `BlockStore` and `ChainStateAssembler` keep some of them as memos on disk and are proved to refine
 * this machine, so everything proved about its runs holds of them for every bucket size.
 */
module AssemblerSpec {
  import opened Basics
  import opened Blocks
  import opened BlockVerification
  import opened Errors

  datatype Slot = Waiting(block: CertifiedBlock) | Scheduled(info: BlockInfo)

  /** Everything that survives a crash. */
  datatype Disk = Disk(
    blocks: map<Height, CertifiedBlock>,
    batches: map<Hash, seq<nat>>,
    committed: Option<CertifiedBlock>,
    executed: Option<CertifiedBlock>,
    boundary: Option<Certificate>)

  datatype Acceptance = Acceptance(block: FullBlock, epoch: EpochState)

  /**
   * What happened so far: the blocks recorded as executed, the blocks that passed verification, the
   * heights received from the epoch current at that moment, the sync requests sent.
   */
  datatype History = History(
    executed: seq<CertifiedBlock>,
    accepted: set<Acceptance>,
    received: set<Height>,
    requests: seq<Height>)

  datatype State = State(
    lastExecuted: BlockInfo,
    highest: Option<BlockInfo>,
    pendingSync: Option<Height>,
    pending: map<Height, Slot>,
    lastCommitted: Height,
    epoch: EpochState,
    channel: seq<CertifiedBlock>,
    disk: Disk,
    history: History)
  {
    function Next(): Height { lastExecuted.Height() + 1 }
    predicate HasEntry(h: Height) { h <= lastCommitted || h in pending }
  }

  datatype ExecResult = Executed(epochChanged: bool) | ExecutionError(recorded: bool)

  /**
   * The outcome of each input/output operation of one step. `persistWrites` is the number of writes of
   * `persist` that succeed. A failed operation leaves the disk as a crash at that point would.
   */
  datatype Io = Io(
    persistWrites: nat,
    commitOk: bool,
    exec: ExecResult,
    boundaryOk: bool,
    loadOk: bool,
    sendOk: bool)

  datatype Notification = EndEpoch | NewEpoch(state: EpochState)

  datatype Event =
    | EpochNotification(note: Notification, io: Io)
    | IncomingBlock(block: FullBlock, io: Io)
    | ScheduledBlock(io: Io)
    | SyncTimer(io: Io)
    | InputClosed

  /** `Running` may carry an error that was only logged; `Halted` is the end of the run loop. */
  datatype Outcome =
    | Running(state: State, report: Option<AssemblerError>)
    | Halted(disk: Disk, history: History, cause: Option<AssemblerError>)
  {
    function Disk(): Disk { if Running? then state.disk else disk }
    function History(): History { if Running? then state.history else history }
  }

  function Above<T>(m: map<Height, T>, h: Height): map<Height, T> {
    map k | k in m && k > h :: m[k]
  }

  /** `after` is `before`, or `before` with one more block. */
  predicate GrowsByAtMostOne(before: seq<CertifiedBlock>, after: seq<CertifiedBlock>) {
    before == after || (|after| == |before| + 1 && before == after[..|before|])
  }

  /** What a step's inner operations leave alone: the session's inputs and the epoch's number. */
  predicate KeepsInputs(s: State, o: Outcome) {
    o.Running? ==>
      && o.state.history.received == s.history.received
      && o.state.highest == s.highest
      && o.state.epoch.epoch == s.epoch.epoch
  }

  // ----- block store -----

  function WriteBatches(m: map<Hash, seq<nat>>, batches: seq<PackedBatch>): map<Hash, seq<nat>>
    decreases |batches|
  {
    if |batches| == 0 then m
    else
      var last := |batches| - 1;
      WriteBatches(m, batches[..last])[batches[last].key := batches[last].batch]
  }

  /** The disk after the first `writes` writes of persisting `b`: its batches, then the block. */
  function PersistOnDisk(d: Disk, b: FullBlock, writes: nat): Disk {
    if writes <= |b.batches| then d.(batches := WriteBatches(d.batches, b.batches[..writes]))
    else d.(batches := WriteBatches(d.batches, b.batches), blocks := d.blocks[b.base.Height() := b.base])
  }

  // ----- synchronizer -----

  function PostSync(s: State, h: Height, io: Io): (o: Outcome)
    ensures o.History().executed == s.history.executed
    ensures KeepsInputs(s, o)
    ensures o.Running? ==> o.state.lastExecuted == s.lastExecuted && o.state.epoch == s.epoch
    ensures o.History().accepted == s.history.accepted
  {
    match s.pendingSync
    case None =>
      var s' := s.(pendingSync := Some(h));
      if io.sendOk then Running(s'.(history := s.history.(requests := s.history.requests + [h])), None)
      else Running(s', Some(RpcInternalError))
    case Some(ongoing) =>
      if ongoing == h then Running(s, None)
      else Halted(s.disk, s.history, Some(Fatal(SyncMismatch)))
  }

  function Retry(s: State, io: Io): (o: Outcome)
    ensures o.History().executed == s.history.executed
    ensures KeepsInputs(s, o)
    ensures o.Running? ==> o.state.lastExecuted == s.lastExecuted && o.state.epoch == s.epoch
    ensures o.History().accepted == s.history.accepted
  {
    match s.pendingSync
    case None => Running(s, None)
    case Some(h) =>
      if io.sendOk then Running(s.(history := s.history.(requests := s.history.requests + [h])), None)
      else Running(s, Some(RpcInternalError))
  }

  function ClearSync(s: State, h: Height): State {
    if s.pendingSync == Some(h) then s.(pendingSync := None) else s
  }

  function TrySync(s: State, io: Io): (o: Outcome)
    ensures o.History().executed == s.history.executed
    ensures KeepsInputs(s, o)
    ensures o.Running? ==> o.state.lastExecuted == s.lastExecuted && o.state.epoch == s.epoch
    ensures o.History().accepted == s.history.accepted
  {
    if s.highest.Some? && s.highest.value.Height() >= s.Next() && !s.HasEntry(s.Next())
    then PostSync(s, s.Next(), io)
    else Running(s, None)
  }

  // ----- execution -----

  function Record(h: History, b: CertifiedBlock): History {
    h.(executed := h.executed + [b])
  }

  /** The state after `b` was committed and executed. */
  function Advance(s: State, b: CertifiedBlock, epochChanged: bool): State {
    s.(lastExecuted := b.Info(),
       lastCommitted := b.Height(),
       pending := Above(s.pending, b.Height()),
       epoch := s.epoch.(over := s.epoch.over || epochChanged),
       disk := s.disk.(committed := Some(b), executed := Some(b)),
       history := Record(s.history, b))
  }

  function ExecuteBlock(s: State, b: CertifiedBlock, io: Io): (o: Outcome)
    ensures GrowsByAtMostOne(s.history.executed, o.History().executed)
    ensures KeepsInputs(s, o)
    ensures o.Running? ==> o.state.lastExecuted == b.Info()
    ensures o.History().accepted == s.history.accepted
  {
    if !io.commitOk then Halted(s.disk, s.history, Some(Fatal(StoreFailure)))
    else
      var d := s.disk.(committed := Some(b));
      match io.exec
      case ExecutionError(recorded) =>
        if recorded then Halted(d.(executed := Some(b)), Record(s.history, b), Some(ExecutionFailed))
        else Halted(d, s.history, Some(ExecutionFailed))
      case Executed(epochChanged) => Running(Advance(s, b, epochChanged), None)
  }

  /** Hands the block waiting at the next height to the feedback channel, or asks for it. */
  function ScheduleNext(s: State, io: Io): (o: Outcome)
    ensures o.History().executed == s.history.executed
    ensures KeepsInputs(s, o)
    ensures o.Running? ==> o.state.lastExecuted == s.lastExecuted && o.state.epoch == s.epoch
    ensures o.History().accepted == s.history.accepted
  {
    if s.Next() in s.pending && s.pending[s.Next()].Waiting? then
      var next := s.pending[s.Next()].block;
      if !io.loadOk || |s.channel| >= 1 then
        Halted(s.disk, s.history, Some(Fatal(if io.loadOk then ChannelFull else StoreFailure)))
      else
        Running(s.(pending := s.pending[s.Next() := Scheduled(next.Info())], channel := s.channel + [next]), None)
    else TrySync(s, io)
  }

  function EndEpochAt(s: State, b: CertifiedBlock, io: Io): (o: Outcome)
    ensures o.History().executed == s.history.executed
    ensures KeepsInputs(s, o)
    ensures o.Running? ==> o.state.lastExecuted == s.lastExecuted && o.state.epoch == s.epoch
    ensures o.History().accepted == s.history.accepted
  {
    if io.boundaryOk then Running(s.(disk := s.disk.(boundary := Some(b.qc))), None)
    else Halted(s.disk, s.history, Some(Fatal(StoreFailure)))
  }

  function ExecuteChain(s: State, b: CertifiedBlock, io: Io): (o: Outcome)
    ensures GrowsByAtMostOne(s.history.executed, o.History().executed)
    ensures KeepsInputs(s, o)
    ensures o.Running? ==> o.state.lastExecuted == b.Info()
    ensures o.History().accepted == s.history.accepted
  {
    var o := ExecuteBlock(s, b, io);
    if o.Halted? then o
    else if o.state.epoch.over then EndEpochAt(o.state, b, io)
    else ScheduleNext(o.state, io)
  }

  // ----- the arms of a step -----

  function Observe(s: State, b: CertifiedBlock): State {
    if b.Height() > (if s.highest.Some? then s.highest.value.Height() else 0)
    then s.(highest := Some(b.Info())) else s
  }

  function Receive(s: State, b: FullBlock): State {
    if b.base.Epoch() == s.epoch.epoch
    then s.(history := s.history.(received := s.history.received + {b.base.Height()})) else s
  }

  predicate Skips(s: State, b: CertifiedBlock) {
    s.epoch.over || b.Height() <= s.lastExecuted.Height() || s.HasEntry(b.Height())
  }

  /** `Some(true)`: the direct successor; `Some(false)`: another height; `None`: wrong parent. */
  function FollowsChain(s: State, b: CertifiedBlock): Option<bool> {
    if b.Height() != s.Next() then Some(false)
    else if b.Parent() == s.lastExecuted.hash then Some(true)
    else None
  }

  function CacheAndSync(s: State, b: CertifiedBlock, io: Io): (o: Outcome)
    ensures o.History().executed == s.history.executed
    ensures KeepsInputs(s, o)
    ensures o.History().accepted == s.history.accepted
  {
    if b.Height() <= s.lastCommitted || (b.Height() in s.pending && s.pending[b.Height()].Scheduled?)
    then Running(s, Some(InvalidBlockStoreOperation))
    else TrySync(s.(pending := s.pending[b.Height() := Waiting(b)]), io)
  }

  /** The state after a verified block was written to disk. */
  function Persisted(s: State, b: FullBlock): State {
    s.(disk := PersistOnDisk(s.disk, b, |b.batches| + 1),
       history := s.history.(accepted := s.history.accepted + {Acceptance(b, s.epoch)}))
  }

  function HandleFullBlock(s: State, b: FullBlock, io: Io): (o: Outcome)
    ensures GrowsByAtMostOne(s.history.executed, o.History().executed)
    ensures KeepsInputs(s, o)
    ensures o.History().accepted <= s.history.accepted + {Acceptance(b, s.epoch)}
  {
    if b.base.Height() <= s.lastExecuted.Height() then Running(s, Some(Regression))
    else
      if io.persistWrites <= |b.batches|
      then Halted(PersistOnDisk(s.disk, b, io.persistWrites), s.history, Some(Fatal(StoreFailure)))
      else
        var s1 := Persisted(s, b);
        match FollowsChain(s1, b.base)
        case None => Halted(s1.disk, s1.history, Some(Fatal(ParentMismatch)))
        case Some(follows) =>
          var s2 := ClearSync(s1, b.base.Height());
          if follows then ExecuteChain(s2, b.base, io) else CacheAndSync(s2, b.base, io)
  }

  function HandleIncoming(rules: Rules, s: State, b: FullBlock, io: Io): (o: Outcome)
    ensures GrowsByAtMostOne(s.history.executed, o.History().executed)
    ensures o.History().accepted <= s.history.accepted + {Acceptance(b, s.epoch)}
  {
    var s1 := Receive(Observe(s, b.base), b);
    if Skips(s1, b.base) then Running(s1, None)
    else
      match Verify(rules, s1.epoch, b)
      case OldEpochBlock => Running(s1, None)
      case FutureEpochBlock => TrySync(s1, io)
      case InvalidBlock => Halted(s1.disk, s1.history, Some(Fatal(ByzantineBlock)))
      case Success => HandleFullBlock(s1, b, io)
  }

  function HandleScheduled(s: State, b: CertifiedBlock, io: Io): (o: Outcome)
    ensures GrowsByAtMostOne(s.history.executed, o.History().executed)
    ensures KeepsInputs(s, o)
    ensures o.History().accepted == s.history.accepted
  {
    var s1 := ClearSync(s, b.Height());
    if s1.epoch.over then Running(s1, Some(Regression))
    else
      match FollowsChain(s1, b)
      case None => Halted(s1.disk, s1.history, Some(Fatal(ParentMismatch)))
      case Some(true) => ExecuteChain(s1, b, io)
      case Some(false) => Running(s1.(pending := Above(s1.pending, b.Height())), Some(Regression))
  }

  function HandleNotification(rules: Rules, s: State, note: Notification, io: Io): (o: Outcome)
    ensures o.History().executed == s.history.executed
    ensures o.History().accepted == s.history.accepted
  {
    if !s.epoch.over then Halted(s.disk, s.history, Some(Fatal(EpochNotOver)))
    else
      match note
      case EndEpoch => Running(s, None)
      case NewEpoch(e) =>
        if e.over || !rules.extendsEpoch(e, s.epoch) then Halted(s.disk, s.history, Some(Fatal(BadNewEpoch)))
        else TrySync(s.(pending := Above(s.pending, e.startHeight), epoch := e), io)
  }

  /** One turn of the run loop. A turn on an empty feedback channel never fires and changes nothing. */
  function Step(rules: Rules, s: State, ev: Event): (o: Outcome)
    ensures GrowsByAtMostOne(s.history.executed, o.History().executed)
  {
    match ev
    case EpochNotification(note, io) => HandleNotification(rules, s, note, io)
    case IncomingBlock(b, io) => HandleIncoming(rules, s, b, io)
    case ScheduledBlock(io) =>
      if s.channel == [] then Running(s, None)
      else HandleScheduled(s.(channel := s.channel[1..]), s.channel[0], io)
    case SyncTimer(io) => Retry(s, io)
    case InputClosed => Halted(s.disk, s.history, None)
  }

  /** The outcome of a whole session: a run of steps, cut short when a step ends the loop. */
  function Run(rules: Rules, s: State, events: seq<Event>): Outcome
    decreases |events|
  {
    if events == [] then Running(s, None)
    else
      var o := Run(rules, s, events[..|events| - 1]);
      if o.Halted? then o else Step(rules, o.state, events[|events| - 1])
  }
}
