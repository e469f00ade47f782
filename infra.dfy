/**
 * The stores the pipeline talks to, reduced to the state it reads and writes:
 * the Redis keyspace (with expiry instants in milliseconds instead of timers),
 * the polls and votes collections, and the vote queue.
 */
module Infra {
  import opened Common
  import opened PollModel

  /** Key of the per-(poll, voter) admission lock. */
  function LockKey(pollCode: string, voterIP: string): string {
    "vote_lock:" + pollCode + ":" + voterIP
  }

  /** Key of the per-poll broadcast cooldown. */
  function CooldownKey(pollCode: string): string {
    "broadcast_cooldown:" + pollCode
  }

  /** Key of the per-poll cached results snapshot. */
  function ResultsKey(pollCode: string): string {
    "poll:results:" + pollCode
  }

  datatype CacheEntry = CacheEntry(snapshot: ResultSnapshot, expiresAt: int)

  /**
   * The shared Redis instance. Flag keys (locks and cooldowns, written with
   * SET NX) and snapshot keys (written with SETEX) carry different prefixes,
   * so they are kept in two maps; each key maps to the instant its TTL ends.
   */
  class Redis {
    var flags: map<string, int>
    var cache: map<string, CacheEntry>
    var published: seq<BusMessage>

    constructor ()
      ensures flags == map[] && cache == map[] && published == []
    {
      flags, cache, published := map[], map[], [];
    }

    /** The key exists and its TTL has not run out at `now`. */
    predicate FlagLive(key: string, now: int)
      reads this
    {
      key in flags && now < flags[key]
    }

    /** SET key '1' NX with a TTL: succeeds, and writes the key, only when no live key exists. */
    method SetNX(key: string, ttlMillis: nat, now: int) returns (written: bool)
      modifies this`flags
      ensures written == !old(FlagLive(key, now))
      ensures flags == if written then old(flags)[key := now + ttlMillis] else old(flags)
    {
      written := !FlagLive(key, now);
      if written {
        flags := flags[key := now + ttlMillis];
      }
    }

    /** GET on a snapshot key: the snapshot if the key is live. */
    method GetSnapshot(key: string, now: int) returns (r: Option<ResultSnapshot>)
      ensures r.Some? <==> key in cache && now < cache[key].expiresAt
      ensures r.Some? ==> r.value == cache[key].snapshot
    {
      if key in cache && now < cache[key].expiresAt {
        r := Some(cache[key].snapshot);
      } else {
        r := None;
      }
    }

    /** SETEX: stores a snapshot for `ttlSeconds` seconds. */
    method SetEx(key: string, ttlSeconds: nat, value: ResultSnapshot, now: int)
      modifies this`cache
      ensures cache == old(cache)[key := CacheEntry(value, now + ttlSeconds * 1000)]
    {
      cache := cache[key := CacheEntry(value, now + ttlSeconds * 1000)];
    }

    /** DEL on a snapshot key. */
    method Del(key: string)
      modifies this`cache
      ensures cache == old(cache) - {key}
    {
      cache := cache - {key};
    }

    /** PUBLISH on the `poll_updates` channel. */
    method Publish(msg: BusMessage)
      modifies this`published
      ensures published == old(published) + [msg]
    {
      published := published + [msg];
    }
  }

  /** A poll document. The worker updates `options` in place and appends to `voters`. */
  class PollDoc {
    const id: string
    const title: string
    const pollCode: string
    const isMultipleChoice: bool
    const isPublicResult: bool
    const expiresAt: Option<int>
    const createdBy: Option<UserId>
    const options: array<PollOption>
    var voters: seq<string>

    constructor (id: string, title: string, pollCode: string, isMultipleChoice: bool, isPublicResult: bool,
                 expiresAt: Option<int>, createdBy: Option<UserId>, texts: seq<string>)
      ensures this.id == id && this.title == title && this.pollCode == pollCode
      ensures this.isMultipleChoice == isMultipleChoice && this.isPublicResult == isPublicResult
      ensures this.expiresAt == expiresAt && this.createdBy == createdBy
      ensures fresh(options) && options[..] == seq(|texts|, i requires 0 <= i < |texts| => PollOption(texts[i], 0))
      ensures voters == []
    {
      this.id, this.title, this.pollCode := id, title, pollCode;
      this.isMultipleChoice, this.isPublicResult := isMultipleChoice, isPublicResult;
      this.expiresAt, this.createdBy := expiresAt, createdBy;
      options := new PollOption[|texts|](i requires 0 <= i < |texts| => PollOption(texts[i], 0));
      voters := [];
    }

    /** The document's counters and ledger as a value. */
    function Tally(): PollModel.Tally
      reads this, options
    {
      PollModel.Tally(options[..], voters)
    }
  }

  /** The polls collection, by its unique pollCode index, and the votes (audit) collection. */
  class PollStore {
    var polls: map<string, PollDoc>
    var audits: seq<AuditVote>

    constructor ()
      ensures polls == map[] && audits == []
    {
      polls, audits := map[], [];
    }

    method Insert(doc: PollDoc)
      modifies this`polls
      ensures polls == old(polls)[doc.pollCode := doc]
    {
      polls := polls[doc.pollCode := doc];
    }

    method CreateAudit(v: AuditVote)
      modifies this`audits
      ensures audits == old(audits) + [v]
    {
      audits := audits + [v];
    }
  }

  /** The vote queue: jobs in the order they were added. */
  class VoteQueue {
    var jobs: seq<VoteJob>

    constructor ()
      ensures jobs == []
    {
      jobs := [];
    }

    method Add(job: VoteJob)
      modifies this
      ensures jobs == old(jobs) + [job]
    {
      jobs := jobs + [job];
    }
  }
}
