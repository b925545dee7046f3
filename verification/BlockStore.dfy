/**
 * The block store: blocks waiting for execution, the near ones in memory and the far ones as memos of
 * what is on disk. `Pending()` is the plain map it stands for.
 */
module BlockStoreModule {
  import opened Basics
  import opened Blocks
  import opened Errors
  import opened AssemblerSpec
  import Lifetime

  datatype BlockReference = InMemory(block: CertifiedBlock) | Memo(info: BlockInfo) | Claimed(info: BlockInfo)

  type Cache = map<Height, Option<BlockReference>>

  datatype Result<+T> = Ok(value: T) | Err(error: BlockStoreError)

  // ----- how a cache stands for a plain map -----

  /** The entry at `k` has data: a block of that height, or a memo of the block on disk there. */
  predicate EntryValid(c: Cache, blocks: map<Height, CertifiedBlock>, k: Height)
    requires k in c
  {
    match c[k]
    case None => false
    case Some(InMemory(b)) => b.Height() == k
    case Some(Memo(info)) => k in blocks && blocks[k].Info() == info && info.Height() == k
    case Some(Claimed(_)) => true
  }

  predicate CacheValid(c: Cache, blocks: map<Height, CertifiedBlock>) {
    forall k :: k in c ==> EntryValid(c, blocks, k)
  }

  /** The slot an entry stands for; a memo stands for the block it reloads. */
  function SlotAt(c: Cache, blocks: map<Height, CertifiedBlock>, k: Height): Slot
    requires k in c && EntryValid(c, blocks, k)
  {
    match c[k].value
    case InMemory(b) => Waiting(b)
    case Memo(_) => Waiting(blocks[k])
    case Claimed(info) => Scheduled(info)
  }

  function PlainMap(c: Cache, blocks: map<Height, CertifiedBlock>): map<Height, Slot>
    requires CacheValid(c, blocks)
  {
    map k | k in c :: SlotAt(c, blocks, k)
  }

  /** The full blocks in memory are those of the window above the last committed height. */
  predicate WithinWindow(c: Cache, lastCommitted: Height, bucket: nat) {
    forall k :: k in c && c[k].Some? && c[k].value.InMemory? ==> k <= lastCommitted + bucket
  }

  function InMemoryHeights(c: Cache): set<Height> {
    set k | k in c && c[k].Some? && c[k].value.InMemory?
  }

  lemma {:induction false} SizeOfWindow(s: set<Height>, low: Height, size: nat)
    requires forall k :: k in s ==> low < k <= low + size
    ensures |s| <= size
    decreases size
  {
    if size == 0 {
      assert s == {};
    } else {
      var rest := s - {low + size};
      SizeOfWindow(rest, low, size - 1);
      assert s <= rest + {low + size};
      assert |s| <= |rest + {low + size}|;
    }
  }

  /** Bounded memory: a cache trimmed to above the last committed height holds at most `bucket` full blocks. */
  lemma BoundedMemory(c: Cache, lastCommitted: Height, bucket: nat)
    requires WithinWindow(c, lastCommitted, bucket)
    requires forall k :: k in c ==> k > lastCommitted
    ensures |InMemoryHeights(c)| <= bucket
  {
    SizeOfWindow(InMemoryHeights(c), lastCommitted, bucket);
  }

  class BlockStore {
    /** The persistent store, shared with the executor. */
    var disk: Disk
    var pendingExecution: Cache
    const bucketSize: nat
    var lastCommittedHeight: Height

    ghost predicate Valid()
      reads this
    {
      CacheValid(pendingExecution, disk.blocks) && WithinWindow(pendingExecution, lastCommittedHeight, bucketSize)
    }

    ghost function Pending(): map<Height, Slot>
      requires Valid()
      reads this
    {
      PlainMap(pendingExecution, disk.blocks)
    }

    constructor (disk: Disk, bucketSize: nat)
      ensures Valid() && Pending() == map[]
      ensures this.disk == disk && this.bucketSize == bucketSize && lastCommittedHeight == 0
    {
      this.disk := disk;
      this.bucketSize := bucketSize;
      pendingExecution := map[];
      lastCommittedHeight := 0;
    }

    method Initialize(rules: Rules, genesis: CertifiedBlock, writes: nat) returns (r: Result<()>)
      requires pendingExecution == map[]
      modifies this`disk, this`lastCommittedHeight
      ensures var expected := Lifetime.Initialize(rules, old(disk), genesis, writes);
        && disk == expected.disk
        && match expected
           case Ready(_, height) => r == Ok(()) && lastCommittedHeight == height
           case Refused(_, error) => r == Err(error)
    {
      if disk.committed.None? && disk.executed.None? {
        var committed := UpdateLastCommittedBlockInfo(genesis, writes > 0);
        if committed.Err? {
          return committed;
        }
        if writes < 2 {
          return Err(PersistentStore);
        }
        disk := disk.(executed := Some(genesis));
      } else if disk.committed.Some? && disk.executed.Some? {
        var c, e := disk.committed.value, disk.executed.value;
        if c != e && !rules.correctlyExtends(c, e.qc) {
          return Err(FatalStore);
        }
        lastCommittedHeight := c.Height();
      } else {
        return Err(FatalStore);
      }
      r := Ok(());
    }

    /** Writes the batches one by one, then the block; `writes` of these writes succeed. */
    method Persist(b: FullBlock, writes: nat) returns (r: Result<()>)
      modifies this`disk
      ensures disk == PersistOnDisk(old(disk), b, writes)
      ensures r == if writes > |b.batches| then Ok(()) else Err(PersistentStore)
      ensures old(Valid()) && b.base.Height() !in pendingExecution ==> Valid() && Pending() == old(Pending())
    {
      var i := 0;
      while i < |b.batches|
        invariant 0 <= i <= |b.batches| && i <= writes
        invariant disk == old(disk).(batches := WriteBatches(old(disk).batches, b.batches[..i]))
      {
        if writes == i {
          return Err(PersistentStore);
        }
        disk := disk.(batches := disk.batches[b.batches[i].key := b.batches[i].batch]);
        i := i + 1;
        assert b.batches[..i][..i - 1] == b.batches[..i - 1];
      }
      assert b.batches[..i] == b.batches;
      if writes == i {
        return Err(PersistentStore);
      }
      disk := disk.(blocks := disk.blocks[b.base.Height() := b.base]);
      r := Ok(());
    }

    /** Refused at or below the committed height, and where an entry is already scheduled. */
    predicate CanBeCached(h: Height)
      reads this
    {
      h > lastCommittedHeight
      && !(h in pendingExecution && pendingExecution[h].Some? && pendingExecution[h].value.Claimed?)
    }

    method Cache(b: CertifiedBlock) returns (r: Result<()>)
      modifies this`pendingExecution
      ensures r == if old(CanBeCached(b.Height())) then Ok(()) else Err(InvalidOperation)
      ensures r.Err? ==> pendingExecution == old(pendingExecution)
      ensures r.Ok? ==> pendingExecution == old(pendingExecution)[b.Height() := Some(
        if b.Height() <= lastCommittedHeight + bucketSize then InMemory(b) else Memo(b.Info()))]
      ensures r.Ok? && old(Valid()) && b.Height() in disk.blocks && disk.blocks[b.Height()] == b ==>
        Valid() && Pending() == old(Pending())[b.Height() := Waiting(b)]
    {
      var h := b.Height();
      if !CanBeCached(h) {
        return Err(InvalidOperation);
      }
      var ref := if h <= lastCommittedHeight + bucketSize then InMemory(b) else Memo(b.Info());
      pendingExecution := pendingExecution[h := Some(ref)];
      r := Ok(());
    }

    /** Taking the block at `h` has to read the disk. */
    ghost predicate NeedsLoad(h: Height)
      reads this
    {
      h in pendingExecution && pendingExecution[h].Some? && pendingExecution[h].value.Memo?
    }

    /**
     * Claims the block waiting at `h` for execution. On a valid store this is a lookup in the plain map:
     * a memo yields the very block it was made from. An entry without data is dropped and reported; a
     * failed read leaves one.
     */
    method TakeNextReadyBlockByHeight(h: Height, loadOk: bool) returns (r: Result<Option<CertifiedBlock>>)
      modifies this`pendingExecution
      ensures old(Valid()) && (loadOk || !old(NeedsLoad(h))) ==>
        && Valid()
        && if h in old(Pending()) && old(Pending())[h].Waiting?
           then r == Ok(Some(old(Pending())[h].block))
                && Pending() == old(Pending())[h := Scheduled(old(Pending())[h].block.Info())]
           else r == Ok(None) && pendingExecution == old(pendingExecution)
      ensures old(NeedsLoad(h)) && !loadOk ==>
        r == Err(PersistentStore) && pendingExecution == old(pendingExecution)[h := None]
      ensures h in old(pendingExecution) && old(pendingExecution)[h].None? ==>
        r == Err(InvalidState) && pendingExecution == old(pendingExecution) - {h}
      ensures old(NeedsLoad(h)) && loadOk && old(pendingExecution)[h].value.info.Height() !in disk.blocks ==>
        r == Err(InvalidState) && pendingExecution == old(pendingExecution) - {h}
    {
      if h !in pendingExecution {
        return Ok(None);
      }
      var taken := pendingExecution[h];
      pendingExecution := pendingExecution[h := None];
      match taken {
        case None =>
          pendingExecution := pendingExecution - {h};
          return Err(InvalidState);
        case Some(InMemory(b)) =>
          pendingExecution := pendingExecution[h := Some(Claimed(b.Info()))];
          return Ok(Some(b));
        case Some(Memo(info)) =>
          if !loadOk {
            return Err(PersistentStore);
          }
          if info.Height() !in disk.blocks {
            pendingExecution := pendingExecution - {h};
            return Err(InvalidState);
          }
          pendingExecution := pendingExecution[h := Some(Claimed(info))];
          return Ok(Some(disk.blocks[info.Height()]));
        case Some(Claimed(info)) =>
          pendingExecution := pendingExecution[h := Some(Claimed(info))];
          return Ok(None);
      }
    }

    method Retain(lowerBound: Height)
      modifies this`pendingExecution
      ensures pendingExecution == Above(old(pendingExecution), lowerBound)
      ensures old(Valid()) ==> Valid() && Pending() == Above(old(Pending()), lowerBound)
    {
      pendingExecution := map k | k in pendingExecution && k > lowerBound :: pendingExecution[k];
    }

    /** The height in memory moves even when the write fails. */
    method UpdateLastCommittedBlockInfo(b: CertifiedBlock, ok: bool) returns (r: Result<()>)
      modifies this`disk, this`lastCommittedHeight
      ensures lastCommittedHeight == b.Height()
      ensures disk == if ok then old(disk).(committed := Some(b)) else old(disk)
      ensures r == if ok then Ok(()) else Err(PersistentStore)
      ensures old(Valid()) && old(lastCommittedHeight) <= b.Height() ==> Valid() && Pending() == old(Pending())
    {
      lastCommittedHeight := b.Height();
      if !ok {
        return Err(PersistentStore);
      }
      disk := disk.(committed := Some(b));
      r := Ok(());
    }

    method UpdateEpochBoundaryBlockInfo(b: CertifiedBlock, ok: bool) returns (r: Result<()>)
      modifies this`disk
      ensures disk == if ok then old(disk).(boundary := Some(b.qc)) else old(disk)
      ensures r == if ok then Ok(()) else Err(PersistentStore)
      ensures old(Valid()) ==> Valid() && Pending() == old(Pending())
    {
      if !ok {
        return Err(PersistentStore);
      }
      disk := disk.(boundary := Some(b.qc));
      r := Ok(());
    }

    /** The executor's write to the shared store. */
    method RecordExecuted(b: CertifiedBlock)
      modifies this`disk
      ensures disk == old(disk).(executed := Some(b))
      ensures old(Valid()) ==> Valid() && Pending() == old(Pending())
    {
      disk := disk.(executed := Some(b));
    }

    predicate HasEntry(h: Height)
      reads this
    {
      h <= lastCommittedHeight || h in pendingExecution
    }
  }
}
