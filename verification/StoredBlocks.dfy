/** What is on disk: the batches of every stored block, with their contents, at every point of a node's life. */
module StoredBlocks {
  import opened Basics
  import opened Blocks
  import opened BlockVerification
  import opened AssemblerSpec
  import opened AssemblerSafety
  import opened AssemblerAnswers
  import opened Lifetime

  // ----- one write after the other -----

  /** The last batch written under a key is what is found there. */
  lemma {:induction false} BatchWritten(m: map<Hash, seq<nat>>, batches: seq<PackedBatch>, i: nat)
    requires i < |batches| && forall j :: i < j < |batches| ==> batches[j].key != batches[i].key
    ensures batches[i].key in WriteBatches(m, batches)
    ensures WriteBatches(m, batches)[batches[i].key] == batches[i].batch
    decreases |batches|
  {
    if i < |batches| - 1 {
      BatchWritten(m, batches[..|batches| - 1], i);
    }
  }

  /** Other keys are left alone. */
  lemma {:induction false} BatchKept(m: map<Hash, seq<nat>>, batches: seq<PackedBatch>, k: Hash)
    requires forall j :: 0 <= j < |batches| ==> batches[j].key != k
    ensures k in WriteBatches(m, batches) <==> k in m
    ensures k in m ==> WriteBatches(m, batches)[k] == m[k]
    decreases |batches|
  {
    if batches != [] {
      BatchKept(m, batches[..|batches| - 1], k);
    }
  }

  /** `i` is the last of the first `n` batches that has its key. */
  predicate LastOfKey(batches: seq<PackedBatch>, n: nat, i: nat)
    requires n <= |batches|
  {
    i < n && forall j :: i < j < n ==> batches[j].key != batches[i].key
  }

  /**
   * What persisting a block has written when it stops after any number of writes: of the batches written so
   * far, the last of each key, and nothing under other keys; the block only after all of its batches; and
   * none of the records.
   */
  lemma PersistExactly(d: Disk, b: FullBlock, writes: nat)
    ensures var after := PersistOnDisk(d, b, writes);
      var n := if writes < |b.batches| then writes else |b.batches|;
      && (forall i: nat :: LastOfKey(b.batches, n, i) ==>
            b.batches[i].key in after.batches && after.batches[b.batches[i].key] == b.batches[i].batch)
      && (forall k :: (forall j :: 0 <= j < n ==> b.batches[j].key != k) ==>
            (k in after.batches <==> k in d.batches) && (k in d.batches ==> after.batches[k] == d.batches[k]))
      && after.blocks == (if writes > |b.batches| then d.blocks[b.base.Height() := b.base] else d.blocks)
      && after.committed == d.committed && after.executed == d.executed && after.boundary == d.boundary
  {
    var after := PersistOnDisk(d, b, writes);
    var n := if writes < |b.batches| then writes else |b.batches|;
    var written := b.batches[..n];
    assert b.batches[..|b.batches|] == b.batches;
    assert after.batches == WriteBatches(d.batches, written);
    forall i: nat | LastOfKey(b.batches, n, i)
      ensures b.batches[i].key in after.batches && after.batches[b.batches[i].key] == b.batches[i].batch
    {
      BatchWritten(d.batches, written, i);
    }
    forall k | forall j :: 0 <= j < n ==> b.batches[j].key != k
      ensures (k in after.batches <==> k in d.batches) && (k in d.batches ==> after.batches[k] == d.batches[k])
    {
      BatchKept(d.batches, written, k);
    }
  }

  // ----- contents over a life -----

  /** What a key stands for: equal keys carry equal batches. */
  type Contents = Hash -> seq<nat>

  predicate Keyed(content: Contents, batches: seq<PackedBatch>) {
    forall i :: 0 <= i < |batches| ==> batches[i].batch == content(batches[i].key)
  }

  predicate Holds(content: Contents, m: map<Hash, seq<nat>>, k: Hash) { k in m && m[k] == content(k) }

  /** Every batch of every accepted block is on disk with its contents. */
  ghost predicate BatchesHeld(content: Contents, m: map<Hash, seq<nat>>, accepted: set<Acceptance>) {
    forall a :: a in accepted ==> BlockHeld(content, m, a.block)
  }

  predicate BlockHeld(content: Contents, m: map<Hash, seq<nat>>, b: FullBlock) {
    Keyed(content, b.batches) && forall i :: 0 <= i < |b.batches| ==> Holds(content, m, b.batches[i].key)
  }

  /** A block on disk was there from the start or was accepted. */
  ghost predicate OnlyAccepted(blocks0: map<Height, CertifiedBlock>, blocks: map<Height, CertifiedBlock>, accepted: set<Acceptance>) {
    forall k :: k in blocks ==> WasThere(blocks0, blocks, k) || Accepted(accepted, blocks[k])
  }

  predicate WasThere(blocks0: map<Height, CertifiedBlock>, blocks: map<Height, CertifiedBlock>, k: Height) {
    k in blocks0 && k in blocks && blocks0[k] == blocks[k]
  }

  ghost predicate Accepted(accepted: set<Acceptance>, b: CertifiedBlock) {
    exists a :: a in accepted && a.block.base == b
  }

  ghost predicate StoreComplete(content: Contents, blocks0: map<Height, CertifiedBlock>, d: Disk, h: History) {
    BatchesHeld(content, d.batches, h.accepted) && OnlyAccepted(blocks0, d.blocks, h.accepted)
  }

  lemma {:induction false} WritingKeeps(content: Contents, m: map<Hash, seq<nat>>, batches: seq<PackedBatch>, k: Hash)
    requires Keyed(content, batches)
    ensures Holds(content, m, k) ==> Holds(content, WriteBatches(m, batches), k)
    ensures (exists i :: 0 <= i < |batches| && batches[i].key == k) ==> Holds(content, WriteBatches(m, batches), k)
    decreases |batches|
  {
    if batches != [] {
      WritingKeeps(content, m, batches[..|batches| - 1], k);
    }
  }

  lemma WritingKeepsHeld(content: Contents, m: map<Hash, seq<nat>>, batches: seq<PackedBatch>, accepted: set<Acceptance>)
    requires Keyed(content, batches) && BatchesHeld(content, m, accepted)
    ensures BatchesHeld(content, WriteBatches(m, batches), accepted)
  {
    forall a | a in accepted ensures BlockHeld(content, WriteBatches(m, batches), a.block) {
      assert BlockHeld(content, m, a.block);
      forall i | 0 <= i < |a.block.batches| ensures Holds(content, WriteBatches(m, batches), a.block.batches[i].key) {
        WritingKeeps(content, m, batches, a.block.batches[i].key);
      }
    }
  }

  lemma WritingHolds(content: Contents, m: map<Hash, seq<nat>>, b: FullBlock)
    requires Keyed(content, b.batches)
    ensures BlockHeld(content, WriteBatches(m, b.batches), b)
  {
    forall i | 0 <= i < |b.batches| ensures Holds(content, WriteBatches(m, b.batches), b.batches[i].key) {
      WritingKeeps(content, m, b.batches, b.batches[i].key);
    }
  }

  lemma PersistKeepsComplete(content: Contents, blocks0: map<Height, CertifiedBlock>, s: State, b: FullBlock, writes: nat)
    requires StoreComplete(content, blocks0, s.disk, s.history) && Keyed(content, b.batches)
    ensures writes <= |b.batches| ==> StoreComplete(content, blocks0, PersistOnDisk(s.disk, b, writes), s.history)
    ensures StoreComplete(content, blocks0, Persisted(s, b).disk, Persisted(s, b).history)
  {
    if writes <= |b.batches| {
      WritingKeepsHeld(content, s.disk.batches, b.batches[..writes], s.history.accepted);
    }
    WritingKeepsHeld(content, s.disk.batches, b.batches, s.history.accepted);
    WritingHolds(content, s.disk.batches, b);
    NewBlockAccepted(blocks0, s, b);
  }

  lemma NewBlockAccepted(blocks0: map<Height, CertifiedBlock>, s: State, b: FullBlock)
    requires OnlyAccepted(blocks0, s.disk.blocks, s.history.accepted)
    ensures OnlyAccepted(blocks0, Persisted(s, b).disk.blocks, Persisted(s, b).history.accepted)
  {
    var s' := Persisted(s, b);
    assert Acceptance(b, s.epoch) in s'.history.accepted;
    forall k | k in s'.disk.blocks ensures WasThere(blocks0, s'.disk.blocks, k) || Accepted(s'.history.accepted, s'.disk.blocks[k]) {
      if k != b.base.Height() && !WasThere(blocks0, s.disk.blocks, k) {
        var a :| a in s.history.accepted && a.block.base == s.disk.blocks[k];
        assert a in s'.history.accepted;
      }
    }
  }

  lemma HandleFullBlockComplete(content: Contents, blocks0: map<Height, CertifiedBlock>, s: State, b: FullBlock, io: Io)
    requires StoreComplete(content, blocks0, s.disk, s.history) && Keyed(content, b.batches)
    ensures var o := HandleFullBlock(s, b, io); StoreComplete(content, blocks0, o.Disk(), o.History())
  {
    PersistKeepsComplete(content, blocks0, s, b, io.persistWrites);
    if io.persistWrites > |b.batches| {
      KeepsStored(ClearSync(Persisted(s, b), b.base.Height()), b.base, io);
    }
  }

  /** The event brings no batch under the key of another. */
  predicate KeyedEvent(content: Contents, ev: Event) {
    ev.IncomingBlock? ==> Keyed(content, ev.block.batches)
  }

  lemma StepComplete(content: Contents, blocks0: map<Height, CertifiedBlock>, rules: Rules, s: State, ev: Event)
    requires StoreComplete(content, blocks0, s.disk, s.history) && KeyedEvent(content, ev)
    ensures var o := Step(rules, s, ev); StoreComplete(content, blocks0, o.Disk(), o.History())
  {
    match ev {
      case IncomingBlock(b, io) => IncomingComplete(content, blocks0, rules, s, b, io);
      case ScheduledBlock(io) => if s.channel != [] { ScheduledKeepsStore(s, io); }
      case EpochNotification(note, io) => NotificationKeepsStore(rules, s, note, io);
      case SyncTimer(io) =>
      case InputClosed =>
    }
  }

  lemma ScheduledKeepsStore(s: State, io: Io)
    requires s.channel != []
    ensures SameStore(s, HandleScheduled(s.(channel := s.channel[1..]), s.channel[0], io))
  {
    KeepsStored(ClearSync(s.(channel := s.channel[1..]), s.channel[0].Height()), s.channel[0], io);
  }

  lemma NotificationKeepsStore(rules: Rules, s: State, note: Notification, io: Io)
    ensures SameStore(s, HandleNotification(rules, s, note, io))
  {
  }

  lemma IncomingComplete(content: Contents, blocks0: map<Height, CertifiedBlock>, rules: Rules, s: State, b: FullBlock, io: Io)
    requires StoreComplete(content, blocks0, s.disk, s.history) && Keyed(content, b.batches)
    ensures var o := HandleIncoming(rules, s, b, io); StoreComplete(content, blocks0, o.Disk(), o.History())
  {
    var s1 := Receive(Observe(s, b.base), b);
    if !Skips(s1, b.base) {
      match Verify(rules, s1.epoch, b) {
        case OldEpochBlock =>
        case InvalidBlock =>
        case FutureEpochBlock => assert SameStore(s1, TrySync(s1, io));
        case Success => HandleFullBlockComplete(content, blocks0, s1, b, io);
      }
    }
  }

  predicate KeyedLife(content: Contents, events: seq<NodeEvent>) {
    forall i :: 0 <= i < |events| && events[i].Work? ==> KeyedEvent(content, events[i].event)
  }

  lemma BootKeepsStore(rules: Rules, d: Disk, h: History, ev: NodeEvent)
    requires ev.Boot?
    ensures var n := BootNode(rules, d, h, ev.genesis, ev.writes, ev.epoch, ev.io);
      n.Disk().blocks == d.blocks && n.Disk().batches == d.batches && n.Disk().boundary == d.boundary
  {
  }

  /**
   * The record of an epoch's end is written after its last block was executed. If that write fails, the block
   * stays recorded as executed, the boundary record is the old one, and no later start changes it.
   */
  lemma BoundaryCanBeLost(rules: Rules, s: State, b: CertifiedBlock, io: Io, ev: NodeEvent)
    requires AssemblerSafety.Ready(rules, s, b) && io.commitOk && io.exec == Executed(true) && ev.Boot?
    ensures var o := ExecuteChain(s, b, io);
      var again := BootNode(rules, o.Disk(), o.History(), ev.genesis, ev.writes, ev.epoch, ev.io);
      && o.Disk().executed == Some(b)
      && again.Disk().boundary == if io.boundaryOk then Some(b.qc) else s.disk.boundary
  {
    var o := ExecuteChain(s, b, io);
    BootKeepsStore(rules, o.Disk(), o.History(), ev);
  }

  lemma {:induction false} LifeComplete(content: Contents, rules: Rules, d: Disk, events: seq<NodeEvent>)
    requires KeyedLife(content, events)
    ensures var n := Live(rules, Unstarted(d), events); StoreComplete(content, d.blocks, n.Disk(), n.History())
    decreases |events|
  {
    if events != [] {
      var front, ev := events[..|events| - 1], events[|events| - 1];
      LifeComplete(content, rules, d, front);
      var n := Live(rules, Unstarted(d), front);
      if n.Up? && ev.Work? {
        StepComplete(content, d.blocks, rules, n.state, ev.event);
      } else if n.Down? && ev.Boot? {
        BootKeepsStore(rules, n.disk, n.history, ev);
      }
    }
  }

  /** The block is on disk with all its batches, as it was received. */
  ghost predicate HeldInFull(d: Disk, h: History, b: CertifiedBlock) {
    exists a :: a in h.accepted && a.block.base == b
      && forall i :: 0 <= i < |a.block.batches| ==>
           a.block.batches[i].key in d.batches && d.batches[a.block.batches[i].key] == a.block.batches[i].batch
  }

  lemma AcceptedInFull(content: Contents, d: Disk, h: History, b: CertifiedBlock)
    requires BatchesHeld(content, d.batches, h.accepted) && Accepted(h.accepted, b)
    ensures HeldInFull(d, h, b)
  {
    var a :| a in h.accepted && a.block.base == b;
    assert BlockHeld(content, d.batches, a.block);
    forall i | 0 <= i < |a.block.batches|
      ensures a.block.batches[i].key in d.batches && d.batches[a.block.batches[i].key] == a.block.batches[i].batch
    {
      assert Holds(content, d.batches, a.block.batches[i].key);
    }
  }

  /**
   * No block without its batches: at every point of a node's life, also after a crash in the middle of
   * storing one, every block that this node has put on disk is there with all its batches and their contents,
   * provided equal keys carry equal batches.
   */
  lemma BlocksHaveTheirBatches(content: Contents, rules: Rules, d: Disk, events: seq<NodeEvent>, k: Height)
    requires KeyedLife(content, events) && k in Live(rules, Unstarted(d), events).Disk().blocks
    ensures var n := Live(rules, Unstarted(d), events);
      WasThere(d.blocks, n.Disk().blocks, k) || HeldInFull(n.Disk(), n.History(), n.Disk().blocks[k])
  {
    LifeComplete(content, rules, d, events);
    var n := Live(rules, Unstarted(d), events);
    if !WasThere(d.blocks, n.Disk().blocks, k) {
      AcceptedInFull(content, n.Disk(), n.History(), n.Disk().blocks[k]);
    }
  }

  /** Every block is executed with the batches it was received with. */
  lemma ExecutedInFull(content: Contents, rules: Rules, d: Disk, events: seq<NodeEvent>, i: nat)
    requires Blank(d) && KeyedLife(content, events)
    requires 1 <= i < |Live(rules, Unstarted(d), events).History().executed|
    ensures var n := Live(rules, Unstarted(d), events); HeldInFull(n.Disk(), n.History(), n.History().executed[i])
  {
    LifeComplete(content, rules, d, events);
    LiveSafe(rules, Unstarted(d), events);
    var n := Live(rules, Unstarted(d), events);
    assert Good(rules, n.Disk(), n.History(), n.History().executed[i]);
    AcceptedInFull(content, n.Disk(), n.History(), n.History().executed[i]);
  }
}
