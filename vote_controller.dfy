/**
 * The vote endpoint: validates the payload, takes the per-(poll, voter) lock
 * with SET NX, and queues one job for a first-time voter.
 */
module VoteController {
  import opened Common
  import opened PollModel
  import opened Infra

  /** Lifetime of an admission lock (EX 86400). */
  const LockTtlMillis: nat := 86400 * 1000

  /** The `selectedOptions` field of the request body: an array of texts, or anything else. */
  datatype SelectionField = NotAnArray | AnArray(items: seq<string>)

  /** What the handler reads from the request. Absent headers and addresses are `None`. */
  datatype VoteRequest = VoteRequest(
    pollCode: string,
    selectedOptions: SelectionField,
    forwardedFor: Option<string>,
    remoteAddress: Option<string>,
    user: Option<UserId>)

  /** A JavaScript string is truthy when it is present and not empty. */
  predicate Truthy(s: Option<string>) {
    s.Some? && s.value != ""
  }

  /** The voter fingerprint: `x-forwarded-for || socket address || "unknown"`. */
  function VoterIP(forwardedFor: Option<string>, remoteAddress: Option<string>): (ip: string)
    ensures ip != ""
    ensures Truthy(forwardedFor) ==> ip == forwardedFor.value
    ensures !Truthy(forwardedFor) && Truthy(remoteAddress) ==> ip == remoteAddress.value
    ensures !Truthy(forwardedFor) && !Truthy(remoteAddress) ==> ip == "unknown"
  {
    if Truthy(forwardedFor) then forwardedFor.value
    else if Truthy(remoteAddress) then remoteAddress.value
    else "unknown"
  }

  /** The selection is accepted only when it is an array with at least one element. */
  predicate ValidSelection(f: SelectionField) {
    f.AnArray? && |f.items| > 0
  }

  /** The job queued for an admitted request: exactly the request's code, selection, fingerprint and user. */
  function JobFor(req: VoteRequest): (job: VoteJob)
    requires req.selectedOptions.AnArray?
  {
    VoteJob(req.pollCode, req.selectedOptions.items, VoterIP(req.forwardedFor, req.remoteAddress), req.user)
  }

  /**
   * The handler. Returns the HTTP status: 400 for an invalid selection (no
   * lock, no job), 403 when a live lock for this (poll, voter) exists, and
   * 202 after setting the lock and queueing exactly one job.
   */
  method VotePoll(req: VoteRequest, now: int, redis: Redis, queue: VoteQueue) returns (status: int)
    modifies redis`flags, queue
    ensures !ValidSelection(req.selectedOptions) ==>
      status == 400 && redis.flags == old(redis.flags) && queue.jobs == old(queue.jobs)
    ensures ValidSelection(req.selectedOptions) ==>
      var key := LockKey(req.pollCode, VoterIP(req.forwardedFor, req.remoteAddress));
      (status == 202 <==> !old(redis.FlagLive(key, now))) &&
      (status == 202 || status == 403) &&
      (status == 202 ==> redis.flags == old(redis.flags)[key := now + LockTtlMillis]
                         && queue.jobs == old(queue.jobs) + [JobFor(req)]) &&
      (status == 403 ==> redis.flags == old(redis.flags) && queue.jobs == old(queue.jobs))
  {
    var voterIP := VoterIP(req.forwardedFor, req.remoteAddress);
    if !ValidSelection(req.selectedOptions) {
      return 400;
    }
    var isNewVote := redis.SetNX(LockKey(req.pollCode, voterIP), LockTtlMillis, now);
    if !isNewVote {
      return 403;
    }
    queue.Add(JobFor(req));
    status := 202;
  }

  /** Poll codes as generated never contain ':', which keeps lock keys apart. */
  predicate ColonFree(s: string) {
    forall i :: 0 <= i < |s| ==> s[i] != ':'
  }

  /**
   * Distinct (poll, voter) pairs get distinct lock keys whenever the poll codes
   * are colon-free, so one voter's lock never blocks another voter or poll.
   */
  lemma LockKeyInjective(code1: string, ip1: string, code2: string, ip2: string)
    requires ColonFree(code1) && ColonFree(code2)
    requires LockKey(code1, ip1) == LockKey(code2, ip2)
    ensures code1 == code2 && ip1 == ip2
  {
    if |code1| < |code2| {
      LockKeyCodeChar(code2, ip2, |code1|);
      LockKeySeparator(code1, ip1);
      assert false;
    } else if |code2| < |code1| {
      LockKeyCodeChar(code1, ip1, |code2|);
      LockKeySeparator(code2, ip2);
      assert false;
    } else {
      var k, p := LockKey(code1, ip1), |"vote_lock:"|;
      assert code1 == k[p..p + |code1|] && code2 == k[p..p + |code2|];
      assert ip1 == k[p + |code1| + 1..] && ip2 == k[p + |code2| + 1..];
    }
  }

  lemma LockKeySeparator(code: string, ip: string)
    ensures LockKey(code, ip)[|"vote_lock:"| + |code|] == ':'
  {
  }

  lemma LockKeyCodeChar(code: string, ip: string, i: nat)
    requires i < |code|
    ensures LockKey(code, ip)[|"vote_lock:"| + i] == code[i]
  {
  }
}
