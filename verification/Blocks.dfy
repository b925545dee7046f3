/** Blocks, epochs and the parts of the node this model treats as parameters. */
module Blocks {
  import opened Basics

  type Height = nat
  type Hash = nat
  type Certificate = nat

  datatype BlockHeader = BlockHeader(height: Height, epoch: nat, parent: Hash)

  /** A block together with the quorum certificate that commits it. */
  datatype CertifiedBlock = CertifiedBlock(header: BlockHeader, hash: Hash, qc: Certificate) {
    function Height(): Height { header.height }
    function Epoch(): nat { header.epoch }
    function Parent(): Hash { header.parent }
    function Info(): BlockInfo { BlockInfo(header, hash) }
  }

  /** Header and digest of a block: what is remembered of a block whose body was dropped. */
  datatype BlockInfo = BlockInfo(header: BlockHeader, hash: Hash) {
    function Height(): Height { header.height }
  }

  datatype PackedBatch = PackedBatch(key: Hash, batch: seq<nat>)

  /** A block as the provider sends it: the certified block and the batches it refers to. */
  datatype FullBlock = FullBlock(base: CertifiedBlock, batches: seq<PackedBatch>)

  datatype EpochState = EpochState(epoch: nat, startHeight: Height, committee: nat, over: bool)

  /**
   * Checks made by code outside this repository, left arbitrary. `correctlyExtends` is the check of a
   * block against the certificate of its parent; `extendsEpoch` relates a new epoch to the current one.
   */
  datatype Rules = Rules(
    commitCertified: CertifiedBlock -> bool,
    consistent: FullBlock -> bool,
    committeeAccepts: (nat, CertifiedBlock) -> bool,
    skipQcVerification: bool,
    extendsEpoch: (EpochState, EpochState) -> bool,
    correctlyExtends: (CertifiedBlock, Certificate) -> bool)

  /** `b` is the next block after `a`: one height up, naming `a` as its parent. */
  predicate Follows(a: CertifiedBlock, b: CertifiedBlock) {
    b.Height() == a.Height() + 1 && b.Parent() == a.hash
  }

  /** The blocks form one hash-linked chain whose heights rise by exactly one. */
  predicate Linked(blocks: seq<CertifiedBlock>) {
    forall i :: 0 <= i < |blocks| - 1 ==> Follows(blocks[i], blocks[i + 1])
  }
}
