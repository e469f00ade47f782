/**
 * The client hook that keeps a page's live results: it connects for a
 * non-empty poll code, joins that poll's room on open, and replaces its
 * results with each VOTE_UPDATE for its own code.
 */
module LivePollHook {
  import opened Common
  import opened PollModel
  import Rooms
  import VoteWorker

  /** A frame from the server after JSON parsing: garbage, or an update-shaped object. */
  datatype ServerFrame = Garbled | Update(data: VoteUpdate)

  /** The hook accepts an update only when it is a VOTE_UPDATE for its own poll code. */
  predicate Accepts(pollCode: string, data: VoteUpdate) {
    data.kind == VoteUpdateKind && data.pollCode == pollCode
  }

  /** The hook's state for one mounted poll code. */
  class LivePoll {
    const pollCode: string
    var hasSocket: bool
    var isConnected: bool
    var liveResults: Option<seq<LiveResult>>
    var sent: seq<Rooms.ClientFrame>

    /** Mounting: the effect opens a connection only for a non-empty code. */
    constructor (pollCode: string)
      ensures this.pollCode == pollCode
      ensures hasSocket <==> pollCode != ""
      ensures !isConnected && liveResults == None && sent == []
    {
      this.pollCode := pollCode;
      hasSocket := pollCode != "";
      isConnected := false;
      liveResults := None;
      sent := [];
    }

    /** `onopen`: marks the hook connected and sends exactly one join for its own code. */
    method OnOpen()
      requires hasSocket
      modifies this`isConnected, this`sent
      ensures isConnected
      ensures sent == old(sent) + [Rooms.JoinFrame(pollCode)]
    {
      isConnected := true;
      sent := sent + [Rooms.JoinFrame(pollCode)];
    }

    /** `onmessage`: an accepted update replaces the results wholesale; anything else changes nothing. */
    method OnMessage(frame: ServerFrame)
      requires hasSocket
      modifies this`liveResults
      ensures liveResults ==
        if frame.Update? && Accepts(pollCode, frame.data) then Some(frame.data.results) else old(liveResults)
    {
      match frame
      case Garbled =>
      case Update(data) =>
        if data.kind == VoteUpdateKind && data.pollCode == pollCode {
          liveResults := Some(data.results);
        }
    }

    /** `onclose`. */
    method OnClose()
      requires hasSocket
      modifies this`isConnected
      ensures !isConnected
    {
      isConnected := false;
    }
  }

  /** The join a hook sends is one the server registers under the hook's code. */
  lemma JoinFrameIsJoin(pollCode: string)
    requires pollCode != ""
    ensures Rooms.IsJoin(Rooms.JoinFrame(pollCode))
    ensures Rooms.JoinFrame(pollCode).pollCode == Some(pollCode)
  {
  }

  /**
   * The update the worker publishes for a poll is accepted by exactly the
   * hooks mounted for that poll, and carries the poll's counts in order.
   */
  lemma PublishedUpdateReachesOnlyItsPoll(hookCode: string, pollCode: string, opts: seq<PollOption>)
    ensures Accepts(hookCode, VoteWorker.UpdateMessage(pollCode, opts).data) <==> hookCode == pollCode
    ensures VoteWorker.UpdateMessage(pollCode, opts).data.results == LiveResults(opts)
  {
  }
}
