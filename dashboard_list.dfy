/** The dashboard's delete flow: confirm, ask the server, then drop the poll from the list. */
module DashboardList {
  import opened Common

  /** A poll card on the dashboard. */
  datatype PollSummary = PollSummary(id: string, title: string, pollCode: string, isPublicResult: bool)

  /** What the delete handler did: whether it sent the request, and the list it leaves. */
  datatype DeleteOutcome = DeleteOutcome(requestSent: bool, polls: seq<PollSummary>)

  function WithoutCode(polls: seq<PollSummary>, pollCode: string): seq<PollSummary> {
    Filter(polls, (p: PollSummary) => p.pollCode != pollCode)
  }

  /**
   * `handleDelete`, given the user's answer to the confirmation and whether the
   * server accepted the delete. The list changes only after a confirmed and
   * successful request.
   */
  function HandleDelete(polls: seq<PollSummary>, pollCode: string, confirmed: bool, serverAccepted: bool): (out: DeleteOutcome)
    ensures out.requestSent <==> confirmed
    ensures out.polls != polls ==> confirmed && serverAccepted
  {
    if !confirmed then DeleteOutcome(false, polls)
    else if serverAccepted then DeleteOutcome(true, WithoutCode(polls, pollCode))
    else DeleteOutcome(true, polls)
  }

  /**
   * After a successful delete no card with the code is left, every other card
   * is kept, and the kept cards are in their original order.
   */
  lemma DeleteRemovesOnlyThatCode(polls: seq<PollSummary>, pollCode: string)
    ensures var r := HandleDelete(polls, pollCode, true, true).polls;
      && (forall p :: p in r ==> p.pollCode != pollCode)
      && (forall p :: p in polls && p.pollCode != pollCode ==> p in r)
      && IsSubsequence(r, polls)
  {
    FilterIsSubsequence(polls, (p: PollSummary) => p.pollCode != pollCode);
  }

  /** A list without the code is left as it is. */
  lemma DeleteOfAbsentCodeKeepsList(polls: seq<PollSummary>, pollCode: string)
    requires forall p :: p in polls ==> p.pollCode != pollCode
    ensures HandleDelete(polls, pollCode, true, true).polls == polls
  {
    FilterKeepsAll(polls, (p: PollSummary) => p.pollCode != pollCode);
  }
}
