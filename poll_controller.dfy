/**
 * The poll read and delete endpoints: the vote-stripped poll fetch, the
 * cached results read with its visibility check, and owner-only deletion.
 */
module PollController {
  import opened Common
  import opened PollModel
  import opened Infra

  /** Lifetime of a cached results snapshot (SETEX 3600). */
  const ResultsTtlSeconds: nat := 3600

  /** An option as a voter sees it: its text only. */
  datatype OptionText = OptionText(text: string)

  /** The poll as returned to voters: no ledger, no owner, no counts. */
  datatype PollView = PollView(
    id: string, title: string, options: seq<OptionText>, pollCode: string,
    isMultipleChoice: bool, isPublicResult: bool, expiresAt: Option<int>)

  function StripVotes(opts: seq<PollOption>): (r: seq<OptionText>)
    ensures |r| == |opts|
  {
    seq(|opts|, i requires 0 <= i < |opts| => OptionText(opts[i].text))
  }

  /**
   * The stripped list keeps every text in order and reveals nothing about the
   * counts: two option lists with the same texts strip to the same list.
   */
  lemma StripVotesHidesCounts(a: seq<PollOption>, b: seq<PollOption>)
    ensures forall i :: 0 <= i < |a| ==> StripVotes(a)[i].text == a[i].text
    ensures |a| == |b| && (forall i :: 0 <= i < |a| ==> a[i].text == b[i].text) ==> StripVotes(a) == StripVotes(b)
  {
  }

  /** GET /polls/:code — 404 for an unknown code, otherwise the poll with vote-free options. */
  method GetPollByCode(store: PollStore, code: string) returns (r: Result<PollView>)
    ensures r.Err? <==> code !in store.polls
    ensures r.Err? ==> r.status == 404
    ensures r.Ok? ==>
      var p := store.polls[code];
      r.value.options == StripVotes(p.options[..]) &&
      r.value == PollView(p.id, p.title, r.value.options, p.pollCode, p.isMultipleChoice, p.isPublicResult, p.expiresAt)
  {
    if code !in store.polls {
      return Err(404);
    }
    var p := store.polls[code];
    r := Ok(PollView(p.id, p.title, StripVotes(p.options[..]), p.pollCode, p.isMultipleChoice, p.isPublicResult, p.expiresAt));
  }

  function ResultRows(opts: seq<PollOption>, total: nat): (rows: seq<ResultRow>)
    ensures |rows| == |opts|
  {
    seq(|opts|, i requires 0 <= i < |opts| => ResultRow(opts[i].text, opts[i].votes, PercentOf(opts[i].votes, total)))
  }

  /** The snapshot computed on a cache miss. */
  function ComputeSnapshot(title: string, opts: seq<PollOption>): (s: ResultSnapshot)
    ensures |s.results| == |opts|
  {
    var total := TotalVotes(opts);
    ResultSnapshot(title, total, ResultRows(opts, total))
  }

  function RowsTotal(rows: seq<ResultRow>): nat {
    if rows == [] then 0 else rows[0].votes + RowsTotal(rows[1..])
  }

  /**
   * A computed snapshot keeps each option's text and count in order, its total
   * is the sum of its rows, and every percentage is "0.0" exactly when no vote
   * has been counted.
   */
  lemma {:induction false} SnapshotConsistent(title: string, opts: seq<PollOption>)
    ensures var s := ComputeSnapshot(title, opts);
      && s.title == title
      && (forall i :: 0 <= i < |opts| ==> s.results[i].text == opts[i].text && s.results[i].votes == opts[i].votes)
      && s.totalVotes == RowsTotal(s.results)
      && (forall i :: 0 <= i < |opts| ==> (s.results[i].percentage == ZeroPercent <==> s.totalVotes == 0))
  {
    RowsTotalOf(opts, TotalVotes(opts));
  }

  lemma {:induction false} RowsTotalOf(opts: seq<PollOption>, total: nat)
    ensures RowsTotal(ResultRows(opts, total)) == TotalVotes(opts)
  {
    if opts != [] {
      assert ResultRows(opts, total)[1..] == ResultRows(opts[1..], total);
      RowsTotalOf(opts[1..], total);
    }
  }

  /** The requester may see the results: they are public, or the requester created the poll. */
  predicate MaySeeResults(isPublicResult: bool, createdBy: Option<UserId>, user: Option<UserId>) {
    isPublicResult || (user.Some? && createdBy == Some(user.value))
  }

  /**
   * GET /polls/:code/results. A live cached snapshot is returned as is, with no
   * store read and no visibility check. On a miss: 404 for an unknown code; a
   * 500 when a requester is signed in but the poll records no creator (the
   * creator comparison dereferences it); 403 for a private poll requested by
   * anyone but its creator; otherwise the computed snapshot, which is also
   * cached for an hour.
   */
  method GetPollResults(store: PollStore, redis: Redis, code: string, user: Option<UserId>, now: int)
    returns (r: Result<ResultSnapshot>)
    modifies redis`cache
    ensures var key := ResultsKey(code);
      if key in old(redis.cache) && now < old(redis.cache)[key].expiresAt then
        r == Ok(old(redis.cache)[key].snapshot) && redis.cache == old(redis.cache)
      else if code !in store.polls then
        r == Err(404) && redis.cache == old(redis.cache)
      else
        var p := store.polls[code];
        if user.Some? && p.createdBy.None? then
          r == Err(500) && redis.cache == old(redis.cache)
        else if !MaySeeResults(p.isPublicResult, p.createdBy, user) then
          r == Err(403) && redis.cache == old(redis.cache)
        else
          var snap := ComputeSnapshot(p.title, p.options[..]);
          r == Ok(snap) && redis.cache == old(redis.cache)[key := CacheEntry(snap, now + ResultsTtlSeconds * 1000)]
  {
    var cached := redis.GetSnapshot(ResultsKey(code), now);
    if cached.Some? {
      return Ok(cached.value);
    }
    if code !in store.polls {
      return Err(404);
    }
    var p := store.polls[code];
    if user.Some? && p.createdBy.None? {
      return Err(500);
    }
    var isCreator := user.Some? && p.createdBy.value == user.value;
    if !p.isPublicResult && !isCreator {
      return Err(403);
    }
    var snap := ComputeSnapshot(p.title, p.options[..]);
    redis.SetEx(ResultsKey(code), ResultsTtlSeconds, snap, now);
    r := Ok(snap);
  }

  /**
   * The results read with the visibility check ahead of the cache: the poll is
   * looked up and the requester checked first, so a snapshot cached for the
   * creator of a private poll is never served to anyone else.
   */
  method GetPollResultsGuarded(store: PollStore, redis: Redis, code: string, user: Option<UserId>, now: int)
    returns (r: Result<ResultSnapshot>)
    modifies redis`cache
    ensures r.Ok? <==> (code in store.polls && !(user.Some? && store.polls[code].createdBy.None?) &&
      MaySeeResults(store.polls[code].isPublicResult, store.polls[code].createdBy, user))
    ensures code !in store.polls ==> r == Err(404)
    ensures code in store.polls && user.Some? && store.polls[code].createdBy.None? ==> r == Err(500)
    ensures (code in store.polls && !(user.Some? && store.polls[code].createdBy.None?) &&
      !MaySeeResults(store.polls[code].isPublicResult, store.polls[code].createdBy, user)) ==> r == Err(403)
    ensures r.Err? ==> redis.cache == old(redis.cache)
    ensures r.Ok? ==> var key := ResultsKey(code);
      if key in old(redis.cache) && now < old(redis.cache)[key].expiresAt then
        r.value == old(redis.cache)[key].snapshot && redis.cache == old(redis.cache)
      else
        var snap := ComputeSnapshot(store.polls[code].title, store.polls[code].options[..]);
        r.value == snap && redis.cache == old(redis.cache)[key := CacheEntry(snap, now + ResultsTtlSeconds * 1000)]
  {
    if code !in store.polls {
      return Err(404);
    }
    var p := store.polls[code];
    if user.Some? && p.createdBy.None? {
      return Err(500);
    }
    var isCreator := user.Some? && p.createdBy.value == user.value;
    if !p.isPublicResult && !isCreator {
      return Err(403);
    }
    var cached := redis.GetSnapshot(ResultsKey(code), now);
    if cached.Some? {
      return Ok(cached.value);
    }
    var snap := ComputeSnapshot(p.title, p.options[..]);
    redis.SetEx(ResultsKey(code), ResultsTtlSeconds, snap, now);
    r := Ok(snap);
  }

  /**
   * DELETE /polls/:code. 404 for an unknown code; 403 when nobody is signed in,
   * or when the poll records a creator other than the requester; otherwise the
   * poll is removed and 200 returned.
   */
  method DeletePoll(store: PollStore, code: string, user: Option<UserId>) returns (status: int)
    modifies store`polls
    ensures code !in old(store.polls) ==> status == 404
    ensures code in old(store.polls) ==>
      var p := old(store.polls)[code];
      status == (if user.None? || (p.createdBy.Some? && p.createdBy.value != user.value) then 403 else 200)
    ensures store.polls == if status == 200 then old(store.polls) - {code} else old(store.polls)
  {
    if code !in store.polls {
      return 404;
    }
    var p := store.polls[code];
    if user.None? || (p.createdBy.Some? && p.createdBy.value != user.value) {
      return 403;
    }
    store.polls := store.polls - {code};
    status := 200;
  }
}
