/**
 * The documents and messages of the vote pipeline, and the pure meaning of the
 * atomic conditional update that applies one vote to a poll.
 */
module PollModel {
  import opened Common

  type UserId = string

  /** One entry of a poll's `options` array: display text and a non-negative counter. */
  datatype PollOption = PollOption(text: string, votes: nat)

  /** One `{text, votes}` entry of a live update. */
  datatype LiveResult = LiveResult(text: string, votes: nat)

  /** The data a vote job carries through the queue. */
  datatype VoteJob = VoteJob(pollCode: string, selectedOptions: seq<string>, voterIP: string, userId: Option<UserId>)

  /** A document of the votes collection: the audit trail of vote attempts on live polls. */
  datatype AuditVote = AuditVote(poll: string, selectedOptions: seq<string>, voterIP: string, user: Option<UserId>, createdAt: int)

  /**
   * A percentage as shown to users: the string "0.0" when nothing has been
   * counted, otherwise `votes / total * 100` formatted with one decimal.
   */
  datatype Percentage = ZeroPercent | Share(votes: nat, total: nat)

  datatype ResultRow = ResultRow(text: string, votes: nat, percentage: Percentage)

  /** The body of a results response: title, total and one row per option. */
  datatype ResultSnapshot = ResultSnapshot(title: string, totalVotes: nat, results: seq<ResultRow>)

  /** The `data` part of a bus message, forwarded verbatim to viewers. */
  datatype VoteUpdate = VoteUpdate(kind: string, pollCode: string, results: seq<LiveResult>)

  /** A message on the `poll_updates` channel. */
  datatype BusMessage = BusMessage(pollCode: string, data: VoteUpdate)

  const VoteUpdateKind := "VOTE_UPDATE"

  function PercentOf(votes: nat, total: nat): (p: Percentage)
    ensures p == ZeroPercent <==> total == 0
    ensures p.Share? ==> p.votes == votes && p.total == total
  {
    if total > 0 then Share(votes, total) else ZeroPercent
  }

  /** The sum of the options' counts (`reduce` over `votes`). */
  function TotalVotes(opts: seq<PollOption>): nat {
    if opts == [] then 0 else opts[0].votes + TotalVotes(opts[1..])
  }

  /** The client's sum over a pushed result list. */
  function LiveTotal(rs: seq<LiveResult>): nat {
    if rs == [] then 0 else rs[0].votes + LiveTotal(rs[1..])
  }

  /** The total is at least every option's count, and zero exactly when every count is. */
  lemma {:induction false} TotalVotesBounds(opts: seq<PollOption>)
    ensures forall i :: 0 <= i < |opts| ==> opts[i].votes <= TotalVotes(opts)
    ensures TotalVotes(opts) == 0 <==> forall i :: 0 <= i < |opts| ==> opts[i].votes == 0
  {
    if opts != [] {
      TotalVotesBounds(opts[1..]);
      assert forall i :: 1 <= i < |opts| ==> opts[i] == opts[1..][i - 1];
    }
  }

  /** The same two bounds for the total the client sums over a pushed list. */
  lemma {:induction false} LiveTotalBounds(rs: seq<LiveResult>)
    ensures forall i :: 0 <= i < |rs| ==> rs[i].votes <= LiveTotal(rs)
    ensures LiveTotal(rs) == 0 <==> forall i :: 0 <= i < |rs| ==> rs[i].votes == 0
  {
    if rs != [] {
      LiveTotalBounds(rs[1..]);
      assert forall i :: 1 <= i < |rs| ==> rs[i] == rs[1..][i - 1];
    }
  }

  /** The `{text, votes}` list published after a vote: every option, in order. */
  function LiveResults(opts: seq<PollOption>): (rs: seq<LiveResult>)
    ensures |rs| == |opts|
  {
    seq(|opts|, i requires 0 <= i < |opts| => LiveResult(opts[i].text, opts[i].votes))
  }

  lemma {:induction false} LiveResultsTotal(opts: seq<PollOption>)
    ensures LiveTotal(LiveResults(opts)) == TotalVotes(opts)
  {
    if opts != [] {
      assert LiveResults(opts)[1..] == LiveResults(opts[1..]);
      LiveResultsTotal(opts[1..]);
    }
  }

  // ----- the conditional update -----

  function Bumped(o: PollOption, selected: seq<string>): PollOption {
    if o.text in selected then o.(votes := o.votes + 1) else o
  }

  /** The `$inc` with an array filter: each option whose text is selected gains one. */
  function Incremented(opts: seq<PollOption>, selected: seq<string>): (r: seq<PollOption>)
    ensures |r| == |opts|
    ensures forall i :: 0 <= i < |opts| ==> r[i].text == opts[i].text && opts[i].votes <= r[i].votes <= opts[i].votes + 1
  {
    seq(|opts|, i requires 0 <= i < |opts| => Bumped(opts[i], selected))
  }

  /** Each selected option gains exactly one, however often its text is repeated; the rest are untouched. */
  lemma IncrementedChangesOnlySelected(opts: seq<PollOption>, selected: seq<string>, i: nat)
    requires i < |opts|
    ensures Incremented(opts, selected)[i].text == opts[i].text
    ensures opts[i].text in selected ==> Incremented(opts, selected)[i].votes == opts[i].votes + 1
    ensures opts[i].text !in selected ==> Incremented(opts, selected)[i] == opts[i]
  {
  }

  /** The options whose text is selected. */
  function Matching(opts: seq<PollOption>, selected: seq<string>): seq<PollOption> {
    Filter(opts, Selects(selected))
  }

  /** The array filter of the update: an option matches when its text is among the selected. */
  function Selects(selected: seq<string>): PollOption -> bool {
    (o: PollOption) => o.text in selected
  }

  /** The total grows by the number of options the selection matches, and by nothing else. */
  lemma {:induction false} IncrementedTotal(opts: seq<PollOption>, selected: seq<string>)
    ensures TotalVotes(Incremented(opts, selected)) == TotalVotes(opts) + |Matching(opts, selected)|
  {
    if opts != [] {
      assert Incremented(opts, selected)[1..] == Incremented(opts[1..], selected);
      IncrementedTotal(opts[1..], selected);
    }
  }

  predicate TextsDistinct(opts: seq<PollOption>) {
    forall i, j :: 0 <= i < j < |opts| ==> opts[i].text != opts[j].text
  }

  /** With distinct option texts, a one-element selection naming an option matches exactly one. */
  lemma {:induction false} SingleSelectionMatchesOne(opts: seq<PollOption>, t: string)
    requires TextsDistinct(opts)
    requires exists i :: 0 <= i < |opts| && opts[i].text == t
    ensures |Matching(opts, [t])| == 1
  {
    assert opts != [];
    if opts[0].text == t {
      forall o | o in opts[1..] ensures !Selects([t])(o) {
        var j :| 0 <= j < |opts[1..]| && opts[1..][j] == o;
        assert opts[j + 1] == o;
      }
      FilterRejectsAll(opts[1..], Selects([t]));
      assert Matching(opts, [t]) == [opts[0]] + Filter(opts[1..], Selects([t]));
    } else {
      var i :| 0 <= i < |opts| && opts[i].text == t;
      assert opts[1..][i - 1].text == t;
      SingleSelectionMatchesOne(opts[1..], t);
    }
  }

  /** The counter-and-ledger part of a poll document. */
  datatype Tally = Tally(options: seq<PollOption>, voters: seq<string>)

  /**
   * The effect of the conditional update on a poll's tally: increment the
   * selected options and append the IP, but only when the IP is not yet in the
   * ledger. A duplicate leaves the tally exactly as it was.
   */
  function ApplyVote(t: Tally, voterIP: string, selected: seq<string>): (r: Tally)
    ensures voterIP in r.voters
  {
    if voterIP in t.voters then t else Tally(Incremented(t.options, selected), t.voters + [voterIP])
  }

  /** Applying the same vote twice has the effect of applying it once. */
  lemma ApplyVoteIdempotent(t: Tally, voterIP: string, selected: seq<string>)
    ensures ApplyVote(ApplyVote(t, voterIP, selected), voterIP, selected) == ApplyVote(t, voterIP, selected)
  {
  }

  /** Counters never decrease, the ledger only grows, and it stays free of repeated IPs. */
  lemma ApplyVoteMonotone(t: Tally, voterIP: string, selected: seq<string>)
    ensures |ApplyVote(t, voterIP, selected).options| == |t.options|
    ensures forall i :: 0 <= i < |t.options| ==> ApplyVote(t, voterIP, selected).options[i].votes >= t.options[i].votes
    ensures t.voters <= ApplyVote(t, voterIP, selected).voters
    ensures NoDuplicates(t.voters) ==> NoDuplicates(ApplyVote(t, voterIP, selected).voters)
  {
  }

  /** A fresh IP is recorded even when nothing it selected names an option. */
  lemma UnmatchedSelectionStillRecordsVoter(t: Tally, voterIP: string, selected: seq<string>)
    requires voterIP !in t.voters
    requires forall o :: o in t.options ==> o.text !in selected
    ensures ApplyVote(t, voterIP, selected) == Tally(t.options, t.voters + [voterIP])
  {
    var r := Incremented(t.options, selected);
    forall i | 0 <= i < |t.options| ensures r[i] == t.options[i] {
      assert t.options[i] in t.options;
    }
  }

  /** Applies a sequence of jobs in order, as the worker does when it drains the queue. */
  function ApplyAll(t: Tally, jobs: seq<VoteJob>): Tally
    decreases |jobs|
  {
    if jobs == [] then t else ApplyAll(ApplyVote(t, jobs[0].voterIP, jobs[0].selectedOptions), jobs[1..])
  }

  function VoterIPs(jobs: seq<VoteJob>): seq<string> {
    seq(|jobs|, k requires 0 <= k < |jobs| => jobs[k].voterIP)
  }

  /** Each job selects exactly one text, and that text names an option. */
  predicate SingleChoiceJobs(opts: seq<PollOption>, jobs: seq<VoteJob>) {
    forall k :: 0 <= k < |jobs| ==>
      |jobs[k].selectedOptions| == 1 &&
      exists i :: 0 <= i < |opts| && opts[i].text == jobs[k].selectedOptions[0]
  }

  /** One fresh IP choosing one existing option adds one vote and one ledger entry, and keeps the texts. */
  lemma FreshSingleVoteAddsOne(t: Tally, voterIP: string, text: string)
    requires TextsDistinct(t.options)
    requires exists i :: 0 <= i < |t.options| && t.options[i].text == text
    requires voterIP !in t.voters
    ensures TotalVotes(ApplyVote(t, voterIP, [text]).options) == TotalVotes(t.options) + 1
    ensures ApplyVote(t, voterIP, [text]).voters == t.voters + [voterIP]
    ensures |ApplyVote(t, voterIP, [text]).options| == |t.options|
    ensures forall i :: 0 <= i < |t.options| ==> ApplyVote(t, voterIP, [text]).options[i].text == t.options[i].text
  {
    IncrementedTotal(t.options, [text]);
    SingleSelectionMatchesOne(t.options, text);
  }

  /**
   * No lost votes: K jobs from K distinct new IPs, each choosing one existing
   * option of a poll with distinct option texts, raise the total by exactly K
   * and add exactly K ledger entries, whatever order they are applied in.
   */
  lemma {:induction false} DistinctVotersAllCounted(t: Tally, jobs: seq<VoteJob>)
    requires TextsDistinct(t.options)
    requires SingleChoiceJobs(t.options, jobs)
    requires NoDuplicates(VoterIPs(jobs))
    requires forall k :: 0 <= k < |jobs| ==> jobs[k].voterIP !in t.voters
    ensures TotalVotes(ApplyAll(t, jobs).options) == TotalVotes(t.options) + |jobs|
    ensures |ApplyAll(t, jobs).voters| == |t.voters| + |jobs|
    decreases |jobs|
  {
    if jobs != [] {
      var j := jobs[0];
      var text := j.selectedOptions[0];
      assert j.selectedOptions == [text];
      FreshSingleVoteAddsOne(t, j.voterIP, text);
      var t' := ApplyVote(t, j.voterIP, [text]);
      assert TextsDistinct(t'.options);
      assert SingleChoiceJobs(t'.options, jobs[1..]) by {
        forall k | 0 <= k < |jobs[1..]|
          ensures exists i :: 0 <= i < |t'.options| && t'.options[i].text == jobs[1..][k].selectedOptions[0]
        {
          var i :| 0 <= i < |t.options| && t.options[i].text == jobs[k + 1].selectedOptions[0];
          assert t'.options[i].text == t.options[i].text;
        }
      }
      assert VoterIPs(jobs[1..]) == VoterIPs(jobs)[1..];
      forall k | 0 <= k < |jobs[1..]| ensures jobs[1..][k].voterIP !in t'.voters {
        assert VoterIPs(jobs)[0] != VoterIPs(jobs)[k + 1];
      }
      DistinctVotersAllCounted(t', jobs[1..]);
    }
  }
}
