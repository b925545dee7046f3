/** Verification of received blocks against the current epoch. */
module BlockVerification {
  import opened Blocks

  datatype VerificationResult = Success | OldEpochBlock | FutureEpochBlock | InvalidBlock

  /** The verifier's decision on a received block under the current epoch. */
  function Verify(rules: Rules, epoch: EpochState, b: FullBlock): VerificationResult {
    if b.base.Height() == 0 then InvalidBlock
    else if !rules.commitCertified(b.base) then InvalidBlock
    else if b.base.Epoch() < epoch.epoch then OldEpochBlock
    else if b.base.Epoch() > epoch.epoch then FutureEpochBlock
    else if !rules.consistent(b) then InvalidBlock
    else if rules.skipQcVerification then Success
    else if !rules.committeeAccepts(epoch.committee, b.base) then InvalidBlock
    else Success
  }

  class BlockVerifier {
    /** Only the current epoch is retained. */
    var epochState: EpochState

    constructor (epochState: EpochState)
      ensures this.epochState == epochState
    {
      this.epochState := epochState;
    }

    method Update(e: EpochState)
      modifies this
      ensures epochState == e
    {
      epochState := e;
    }

    method EndCurrentEpoch()
      modifies this
      ensures epochState == old(epochState).(over := true)
    {
      epochState := epochState.(over := true);
    }
  }
}
