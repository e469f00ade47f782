/**
 * The vote worker: checks that the poll is live, writes the audit record,
 * applies the atomic conditional update, then throttles the broadcast.
 */
module VoteWorker {
  import opened Common
  import opened PollModel
  import opened Infra

  /** Length of the broadcast cooldown (PX 1000). */
  const CooldownMillis: nat := 1000

  /** How a job ends. `PollNotFound` is the error the worker throws, so the queue counts the job as failed. */
  datatype JobOutcome = PollNotFound | Expired | Duplicate | Applied

  /** A poll with an expiry instant strictly before `now` no longer takes votes. */
  predicate IsExpired(expiresAt: Option<int>, now: int) {
    expiresAt.Some? && expiresAt.value < now
  }

  /** The objects the conditional update may write: the poll's document and its options array. */
  function DocFrame(store: PollStore, code: string): set<object>
    reads store
  {
    if code in store.polls then {store.polls[code], store.polls[code].options} else {}
  }

  function AuditOf(job: VoteJob, poll: PollDoc, now: int): AuditVote {
    AuditVote(poll.id, job.selectedOptions, job.voterIP, job.userId, now)
  }

  /** The live update published for a poll whose options now read `opts`. */
  function UpdateMessage(pollCode: string, opts: seq<PollOption>): BusMessage {
    BusMessage(pollCode, VoteUpdate(VoteUpdateKind, pollCode, LiveResults(opts)))
  }

  /** The `$inc` on `options.$[elem].votes` for every element whose text is selected, done in place. */
  method IncrementSelected(options: array<PollOption>, selected: seq<string>)
    modifies options
    ensures options[..] == Incremented(old(options[..]), selected)
  {
    for i := 0 to options.Length
      invariant forall k :: 0 <= k < i ==> options[k] == Bumped(old(options[k]), selected)
      invariant forall k :: i <= k < options.Length ==> options[k] == old(options[k])
    {
      if options[i].text in selected {
        options[i] := options[i].(votes := options[i].votes + 1);
      }
    }
  }

  /**
   * Steps 1 to 3 of a job: liveness check, audit record, and the conditional
   * update, which changes the document exactly as `ApplyVote` says.
   */
  method ApplyJob(job: VoteJob, now: int, store: PollStore) returns (outcome: JobOutcome)
    modifies store`audits, DocFrame(store, job.pollCode)
    ensures outcome == PollNotFound <==> job.pollCode !in store.polls
    ensures job.pollCode in store.polls ==>
      (outcome == Expired <==> IsExpired(store.polls[job.pollCode].expiresAt, now))
    ensures outcome == PollNotFound || outcome == Expired ==> store.audits == old(store.audits)
    ensures outcome == Duplicate || outcome == Applied ==>
      store.audits == old(store.audits) + [AuditOf(job, store.polls[job.pollCode], now)]
    ensures outcome == Duplicate ==> job.voterIP in old(store.polls[job.pollCode].voters)
    ensures outcome == Applied ==> job.voterIP !in old(store.polls[job.pollCode].voters)
    ensures job.pollCode in store.polls ==>
      store.polls[job.pollCode].Tally() ==
        if outcome == Duplicate || outcome == Applied
        then ApplyVote(old(store.polls[job.pollCode].Tally()), job.voterIP, job.selectedOptions)
        else old(store.polls[job.pollCode].Tally())
  {
    if job.pollCode !in store.polls {
      return PollNotFound;
    }
    var poll := store.polls[job.pollCode];
    if IsExpired(poll.expiresAt, now) {
      return Expired;
    }
    store.CreateAudit(AuditOf(job, poll, now));
    // The conditional update: matches only while the IP is absent from the ledger.
    if job.voterIP in poll.voters {
      return Duplicate;
    }
    IncrementSelected(poll.options, job.selectedOptions);
    poll.voters := poll.voters + [job.voterIP];
    outcome := Applied;
  }

  /**
   * The worker's job handler as written: after an applied vote, the results
   * cache is dropped and the update published only when this call is the one
   * that newly sets the poll's one-second cooldown key.
   */
  method ProcessVote(job: VoteJob, now: int, store: PollStore, redis: Redis) returns (outcome: JobOutcome, broadcast: bool)
    modifies store`audits, DocFrame(store, job.pollCode), redis`flags, redis`cache, redis`published
    ensures outcome == PollNotFound <==> job.pollCode !in store.polls
    ensures job.pollCode in store.polls ==>
      (outcome == Expired <==> IsExpired(store.polls[job.pollCode].expiresAt, now))
    ensures outcome == PollNotFound || outcome == Expired ==> store.audits == old(store.audits)
    ensures outcome == Duplicate || outcome == Applied ==>
      store.audits == old(store.audits) + [AuditOf(job, store.polls[job.pollCode], now)]
    ensures outcome == Duplicate ==> job.voterIP in old(store.polls[job.pollCode].voters)
    ensures outcome == Applied ==> job.voterIP !in old(store.polls[job.pollCode].voters)
    ensures job.pollCode in store.polls ==>
      store.polls[job.pollCode].Tally() ==
        if outcome == Duplicate || outcome == Applied
        then ApplyVote(old(store.polls[job.pollCode].Tally()), job.voterIP, job.selectedOptions)
        else old(store.polls[job.pollCode].Tally())
    ensures broadcast <==> outcome == Applied && !old(redis.FlagLive(CooldownKey(job.pollCode), now))
    ensures redis.flags ==
      if outcome == Applied && broadcast then old(redis.flags)[CooldownKey(job.pollCode) := now + CooldownMillis]
      else old(redis.flags)
    ensures redis.cache == if broadcast then old(redis.cache) - {ResultsKey(job.pollCode)} else old(redis.cache)
    ensures redis.published ==
      if broadcast then old(redis.published) + [UpdateMessage(job.pollCode, store.polls[job.pollCode].options[..])]
      else old(redis.published)
  {
    outcome := ApplyJob(job, now, store);
    broadcast := false;
    if outcome == Applied {
      var poll := store.polls[job.pollCode];
      broadcast := redis.SetNX(CooldownKey(job.pollCode), CooldownMillis, now);
      if broadcast {
        redis.Del(ResultsKey(job.pollCode));
        redis.Publish(UpdateMessage(job.pollCode, poll.options[..]));
      }
    }
  }

  /**
   * The handler with the cache invalidation moved out of the throttle: every
   * applied vote drops the poll's cached results, and only the publish is
   * coalesced by the cooldown.
   */
  method ProcessVoteCoherent(job: VoteJob, now: int, store: PollStore, redis: Redis) returns (outcome: JobOutcome, broadcast: bool)
    modifies store`audits, DocFrame(store, job.pollCode), redis`flags, redis`cache, redis`published
    ensures outcome == PollNotFound <==> job.pollCode !in store.polls
    ensures job.pollCode in store.polls ==>
      (outcome == Expired <==> IsExpired(store.polls[job.pollCode].expiresAt, now))
    ensures outcome == PollNotFound || outcome == Expired ==> store.audits == old(store.audits)
    ensures outcome == Duplicate || outcome == Applied ==>
      store.audits == old(store.audits) + [AuditOf(job, store.polls[job.pollCode], now)]
    ensures outcome == Duplicate ==> job.voterIP in old(store.polls[job.pollCode].voters)
    ensures outcome == Applied ==> job.voterIP !in old(store.polls[job.pollCode].voters)
    ensures job.pollCode in store.polls ==>
      store.polls[job.pollCode].Tally() ==
        if outcome == Duplicate || outcome == Applied
        then ApplyVote(old(store.polls[job.pollCode].Tally()), job.voterIP, job.selectedOptions)
        else old(store.polls[job.pollCode].Tally())
    ensures broadcast <==> outcome == Applied && !old(redis.FlagLive(CooldownKey(job.pollCode), now))
    ensures redis.flags ==
      if broadcast then old(redis.flags)[CooldownKey(job.pollCode) := now + CooldownMillis]
      else old(redis.flags)
    ensures redis.cache == if outcome == Applied then old(redis.cache) - {ResultsKey(job.pollCode)} else old(redis.cache)
    ensures outcome == Applied ==> ResultsKey(job.pollCode) !in redis.cache
    ensures redis.published ==
      if broadcast then old(redis.published) + [UpdateMessage(job.pollCode, store.polls[job.pollCode].options[..])]
      else old(redis.published)
  {
    outcome := ApplyJob(job, now, store);
    broadcast := false;
    if outcome == Applied {
      var poll := store.polls[job.pollCode];
      redis.Del(ResultsKey(job.pollCode));
      broadcast := redis.SetNX(CooldownKey(job.pollCode), CooldownMillis, now);
      if broadcast {
        redis.Publish(UpdateMessage(job.pollCode, poll.options[..]));
      }
    }
  }
}
