/** The one outstanding request for a missing block. The timer that retries it is an event of the run. */
module Synchronizer {
  import opened Basics
  import opened Blocks
  import opened Errors

  class SynchronizationContext {
    var pendingSyncRequest: Option<Height>
    /** The requests that reached the block provider. */
    var sent: seq<Height>

    constructor ()
      ensures pendingSyncRequest == None && sent == []
    {
      pendingSyncRequest, sent := None, [];
    }

    method PostSyncRequest(h: Height, sendOk: bool) returns (r: Option<AssemblerError>)
      modifies this`sent
      ensures sent == if sendOk then old(sent) + [h] else old(sent)
      ensures r == if sendOk then None else Some(RpcInternalError)
    {
      if !sendOk {
        return Some(RpcInternalError);
      }
      sent := sent + [h];
      r := None;
    }

    method Retry(sendOk: bool) returns (r: Option<AssemblerError>)
      modifies this`sent
      ensures pendingSyncRequest.None? ==> r == None && sent == old(sent)
      ensures pendingSyncRequest.Some? ==>
        && sent == (if sendOk then old(sent) + [pendingSyncRequest.value] else old(sent))
        && r == if sendOk then None else Some(RpcInternalError)
    {
      if pendingSyncRequest.Some? {
        r := PostSyncRequest(pendingSyncRequest.value, sendOk);
      } else {
        r := None;
      }
    }

    /** The request is remembered before it is sent, so a failed send leaves it pending. */
    method TryPostSyncRequest(h: Height, sendOk: bool) returns (r: Option<AssemblerError>)
      modifies this
      ensures old(pendingSyncRequest).None? ==>
        && pendingSyncRequest == Some(h)
        && sent == (if sendOk then old(sent) + [h] else old(sent))
        && r == if sendOk then None else Some(RpcInternalError)
      ensures old(pendingSyncRequest).Some? ==>
        && pendingSyncRequest == old(pendingSyncRequest) && sent == old(sent)
        && r == if pendingSyncRequest == Some(h) then None else Some(Fatal(SyncMismatch))
    {
      match pendingSyncRequest {
        case None =>
          pendingSyncRequest := Some(h);
          r := PostSyncRequest(h, sendOk);
        case Some(ongoing) =>
          r := if ongoing == h then None else Some(Fatal(SyncMismatch));
      }
    }

    method Clear(h: Height)
      modifies this`pendingSyncRequest
      ensures pendingSyncRequest == if old(pendingSyncRequest) == Some(h) then None else old(pendingSyncRequest)
    {
      if pendingSyncRequest == Some(h) {
        pendingSyncRequest := None;
      }
    }
  }
}
