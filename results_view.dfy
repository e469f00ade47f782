/** The results page's live sync: a new total and rows recomputed from each live update. */
module ResultsView {
  import opened PollModel
  import PollController

  const DefaultTitle := "Poll Results"

  /**
   * The page state after `liveResults` changes: the previous title (or the
   * default when there was none or it was empty), the recomputed total, and one
   * row per live entry.
   */
  function LiveSync(prev: Common.Option<ResultSnapshot>, live: seq<LiveResult>): (view: ResultSnapshot)
    ensures |view.results| == |live|
  {
    var total := LiveTotal(live);
    ResultSnapshot(
      if prev.Some? && prev.value.title != "" then prev.value.title else DefaultTitle,
      total,
      LiveRows(live, total))
  }

  /** One row per live entry, with its percentage of `total`. */
  function LiveRows(live: seq<LiveResult>, total: nat): seq<ResultRow> {
    seq(|live|, i requires 0 <= i < |live| => ResultRow(live[i].text, live[i].votes, PercentOf(live[i].votes, total)))
  }

  /**
   * The recomputed view keeps each entry's text and count in order, its total
   * is the sum of the counts, every percentage is "0.0" exactly when that total
   * is zero, and the title is never empty.
   */
  lemma LiveSyncConsistent(prev: Common.Option<ResultSnapshot>, live: seq<LiveResult>)
    ensures var v := LiveSync(prev, live);
      && v.title != ""
      && (prev.Some? && prev.value.title != "" ==> v.title == prev.value.title)
      && (forall i :: 0 <= i < |live| ==> v.results[i].text == live[i].text && v.results[i].votes == live[i].votes)
      && v.totalVotes == PollController.RowsTotal(v.results)
      && (forall i :: 0 <= i < |live| ==> (v.results[i].percentage == ZeroPercent <==> v.totalVotes == 0))
  {
    RowsMatchLive(live, LiveTotal(live));
  }

  lemma {:induction false} RowsMatchLive(live: seq<LiveResult>, total: nat)
    ensures PollController.RowsTotal(LiveRows(live, total)) == LiveTotal(live)
  {
    if live != [] {
      assert LiveRows(live, total)[1..] == LiveRows(live[1..], total);
      RowsMatchLive(live[1..], total);
    }
  }

  /**
   * A live update built from a poll's options gives the page exactly the
   * snapshot the results endpoint computes for that poll, title aside.
   */
  lemma {:induction false} LiveSyncAgreesWithServer(prev: Common.Option<ResultSnapshot>, opts: seq<PollOption>)
    ensures var v := LiveSync(prev, LiveResults(opts));
      var s := PollController.ComputeSnapshot(v.title, opts);
      v == s
  {
    LiveResultsTotal(opts);
  }
}
