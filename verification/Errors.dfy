/** Errors of the block store and of the assembler, and which of them end the run. */
module Errors {

  datatype BlockStoreError = PersistentStore | StorageWriter | InvalidOperation | InvalidState | FatalStore

  /** Why a fatal error was raised; the program puts this into the message. */
  datatype Cause =
    | StoreFailure
    | InconsistentRecords
    | ByzantineBlock
    | ParentMismatch
    | ChannelFull
    | SyncMismatch
    | EpochNotOver
    | BadNewEpoch

  datatype AssemblerError =
    | RpcInternalError
    | Fatal(cause: Cause)
    | InvalidBlockStoreState
    | InvalidBlockStoreOperation
    | Regression
    | ExecutionFailed

  function FromStoreError(e: BlockStoreError): AssemblerError {
    match e
    case InvalidOperation => InvalidBlockStoreOperation
    case InvalidState => InvalidBlockStoreState
    case PersistentStore => Fatal(StoreFailure)
    case FatalStore => Fatal(InconsistentRecords)
    case StorageWriter => Fatal(StoreFailure)
  }

  /** The run loop returns on these; every other error is logged and the loop goes on. */
  predicate Ends(e: AssemblerError) {
    e.Fatal? || e.ExecutionFailed?
  }
}
