/**
 * The outcome of concrete request sequences, stated and proved: two voters
 * through the gate and the worker, the stale results cache and the lost
 * update that the throttled broadcast leaves behind, and the socket rooms.
 */
module Scenarios {
  import opened Common
  import opened PollModel
  import opened Infra
  import opened VoteWorker
  import opened VoteController
  import opened PollController
  import Rooms

  const Code := "AB1234"

  method NewColorPoll(isPublicResult: bool) returns (store: PollStore, doc: PollDoc)
    ensures fresh(store) && fresh(doc) && fresh(doc.options)
    ensures store.polls == map[Code := doc] && store.audits == []
    ensures doc.pollCode == Code && !doc.isMultipleChoice && doc.isPublicResult == isPublicResult && doc.expiresAt == None
    ensures doc.title == "Best Color" && doc.createdBy == Some("owner")
    ensures doc.options[..] == [PollOption("A", 0), PollOption("B", 0)] && doc.voters == []
  {
    store := new PollStore();
    doc := new PollDoc("p1", "Best Color", Code, false, isPublicResult, None, Some("owner"), ["A", "B"]);
    store.Insert(doc);
  }

  lemma FirstVote()
    ensures Incremented([PollOption("A", 0), PollOption("B", 0)], ["A"]) == [PollOption("A", 1), PollOption("B", 0)]
    ensures TotalVotes([PollOption("A", 1), PollOption("B", 0)]) == 1
  {
    var r := Incremented([PollOption("A", 0), PollOption("B", 0)], ["A"]);
    assert r[0] == PollOption("A", 1) && r[1] == PollOption("B", 0);
    assert [PollOption("A", 1), PollOption("B", 0)][1..] == [PollOption("B", 0)];
  }

  lemma SecondVote()
    ensures Incremented([PollOption("A", 1), PollOption("B", 0)], ["B"]) == [PollOption("A", 1), PollOption("B", 1)]
    ensures TotalVotes([PollOption("A", 1), PollOption("B", 1)]) == 2
  {
    var r := Incremented([PollOption("A", 1), PollOption("B", 0)], ["B"]);
    assert r[0] == PollOption("A", 1) && r[1] == PollOption("B", 1);
    assert [PollOption("A", 1), PollOption("B", 1)][1..] == [PollOption("B", 1)];
  }

  /**
   * At the gate: F1's first request is admitted, F1's second request (a
   * different choice) is refused while the lock lives, and F2 is admitted.
   * Exactly the two admitted requests are queued.
   */
  method GateAdmitsEachVoterOnce() returns (statuses: seq<int>, jobs: seq<VoteJob>)
    ensures statuses == [202, 403, 202]
    ensures jobs == [VoteJob(Code, ["A"], "F1", None), VoteJob(Code, ["B"], "F2", None)]
  {
    var redis := new Redis();
    var queue := new VoteQueue();
    var s1 := VotePoll(VoteRequest(Code, AnArray(["A"]), Some("F1"), None, None), 0, redis, queue);
    var s2 := VotePoll(VoteRequest(Code, AnArray(["B"]), Some("F1"), None, None), 2, redis, queue);
    assert LockKey(Code, "F1") != LockKey(Code, "F2") by {
      assert LockKey(Code, "F1")[|"vote_lock:" + Code + ":"| + 1] == '1';
    }
    var s3 := VotePoll(VoteRequest(Code, AnArray(["B"]), Some("F2"), None, None), 4, redis, queue);
    statuses, jobs := [s1, s2, s3], queue.jobs;
  }

  /**
   * At the worker: F1's vote for A is applied; a replay of F1's job choosing B
   * is audited but counts nothing; F2's vote for B is applied. The poll ends at
   * A = 1, B = 1 with two ledger entries and three audit records.
   */
  method WorkerCountsEachVoterOnce() returns (outcomes: seq<JobOutcome>, counts: seq<PollOption>, voters: seq<string>, audits: nat)
    ensures outcomes == [Applied, Duplicate, Applied]
    ensures counts == [PollOption("A", 1), PollOption("B", 1)]
    ensures voters == ["F1", "F2"]
    ensures audits == 3
  {
    var store, doc := NewColorPoll(true);
    var o1 := ApplyJob(VoteJob(Code, ["A"], "F1", None), 1, store);
    FirstVote();
    var o2 := ApplyJob(VoteJob(Code, ["B"], "F1", None), 3, store);
    var o3 := ApplyJob(VoteJob(Code, ["B"], "F2", None), 5, store);
    SecondVote();
    outcomes, counts, voters, audits := [o1, o2, o3], doc.options[..], doc.voters, |store.audits|;
  }

  /**
   * As written, a vote applied inside another vote's cooldown does not drop the
   * cached results: a read between the two votes caches a total of 1, and the
   * read after the second vote is still served that total while the poll
   * counts 2.
   */
  method StaleCacheAfterThrottledVote() returns (served: ResultSnapshot, counted: nat)
    ensures served.totalVotes == 1 && counted == 2
  {
    var store, doc := NewColorPoll(true);
    var redis := new Redis();

    var o1, b1 := ProcessVote(VoteJob(Code, ["A"], "F1", None), 0, store, redis);
    FirstVote();
    assert o1 == Applied && b1;
    assert ResultsKey(Code) !in redis.cache;
    var r1 := GetPollResults(store, redis, Code, None, 10);
    assert r1.value.totalVotes == 1;
    assert redis.cache[ResultsKey(Code)].expiresAt > 30;

    var o2, b2 := ProcessVote(VoteJob(Code, ["B"], "F2", None), 20, store, redis);
    SecondVote();
    assert o2 == Applied && !b2;
    var r2 := GetPollResults(store, redis, Code, None, 30);
    served := r2.value;
    counted := TotalVotes(doc.options[..]);
  }

  lemma BothSelected()
    ensures Incremented([PollOption("A", 0), PollOption("B", 0)], ["A", "B"]) == [PollOption("A", 1), PollOption("B", 1)]
  {
    var r := Incremented([PollOption("A", 0), PollOption("B", 0)], ["A", "B"]);
    assert r[0] == PollOption("A", 1) && r[1] == PollOption("B", 1);
  }

  /**
   * The worker does not look at `isMultipleChoice`: one job selecting both
   * options of a single-choice poll is applied, and both counts go up.
   */
  method SingleChoicePollCountsTwoSelections() returns (outcome: JobOutcome, counted: seq<PollOption>)
    ensures outcome == Applied
    ensures counted == [PollOption("A", 1), PollOption("B", 1)]
  {
    var store, doc := NewColorPoll(true);
    assert !doc.isMultipleChoice;
    outcome := ApplyJob(VoteJob(Code, ["A", "B"], "F1", None), 0, store);
    BothSelected();
    counted := doc.options[..];
  }

  /**
   * Nothing keeps option texts distinct, and the array filter matches every
   * copy: one fresh vote for a text held by two options adds two to the total.
   */
  lemma RepeatedTextCountsOncePerCopy()
    ensures TotalVotes(ApplyVote(Tally([PollOption("Yes", 0), PollOption("Yes", 0)], []), "F1", ["Yes"]).options) == 2
  {
    var r := Incremented([PollOption("Yes", 0), PollOption("Yes", 0)], ["Yes"]);
    assert r[0] == PollOption("Yes", 1) && r[1] == PollOption("Yes", 1);
    assert r == [PollOption("Yes", 1), PollOption("Yes", 1)];
    assert r[1..] == [PollOption("Yes", 1)];
  }

  /**
   * The throttle drops the last update of a burst: the second vote lands
   * inside the first vote's cooldown, so the only message ever pushed carries
   * the counts before it, while the document already holds both votes.
   */
  method ThrottledVoteNotPushed() returns (pushed: seq<BusMessage>, counted: seq<PollOption>)
    ensures pushed == [UpdateMessage(Code, [PollOption("A", 1), PollOption("B", 0)])]
    ensures counted == [PollOption("A", 1), PollOption("B", 1)]
  {
    var store, doc := NewColorPoll(true);
    var redis := new Redis();

    var o1, b1 := ProcessVote(VoteJob(Code, ["A"], "F1", None), 0, store, redis);
    FirstVote();
    assert o1 == Applied && b1;

    var o2, b2 := ProcessVote(VoteJob(Code, ["B"], "F2", None), 20, store, redis);
    SecondVote();
    assert o2 == Applied && !b2;
    pushed := redis.published;
    counted := doc.options[..];
  }

  /** With the invalidation on every applied vote, the same reads see the second vote. */
  method FreshCacheAfterThrottledVote() returns (served: ResultSnapshot, counted: nat)
    ensures served.totalVotes == 2 && counted == 2
  {
    var store, doc := NewColorPoll(true);
    var redis := new Redis();

    var o1, b1 := ProcessVoteCoherent(VoteJob(Code, ["A"], "F1", None), 0, store, redis);
    FirstVote();
    assert o1 == Applied && b1;
    var r1 := GetPollResults(store, redis, Code, None, 10);

    var o2, b2 := ProcessVoteCoherent(VoteJob(Code, ["B"], "F2", None), 20, store, redis);
    SecondVote();
    assert o2 == Applied && !b2;
    var r2 := GetPollResults(store, redis, Code, None, 30);
    served := r2.value;
    counted := TotalVotes(doc.options[..]);
  }

  /**
   * A connection that joins a second poll is registered in both rooms, and its
   * close removes it only from the room it joined last (which, left empty,
   * is dropped): the first room keeps the closed socket. The leftover entry
   * costs memory only: a later update for the first poll skips the socket.
   */
  method RejoinedSocketStaysInFirstRoom() returns (inFirst: bool, secondRoomOpen: bool, received: seq<VoteUpdate>)
    ensures inFirst && !secondRoomOpen
    ensures received == []
  {
    var registry := new Rooms.Registry();
    var ws := new Rooms.Socket(Rooms.Open);
    registry.OnMessage(ws, Rooms.JoinFrame("AB1234"));
    registry.OnMessage(ws, Rooms.JoinFrame("CD5678"));
    ws.readyState := Rooms.Closed;
    registry.OnClose(ws);
    inFirst := "AB1234" in registry.rooms && ws in registry.rooms["AB1234"];
    secondRoomOpen := "CD5678" in registry.rooms;
    registry.Broadcast(UpdateMessage("AB1234", [PollOption("A", 1), PollOption("B", 0)]));
    received := ws.received;
  }

  /**
   * As written, a private poll's results read by its creator are cached, and
   * the cache hit then serves them to an anonymous requester.
   */
  method PrivateResultsServedFromCache() returns (ownerRead: Result<ResultSnapshot>, anonymousRead: Result<ResultSnapshot>)
    ensures ownerRead.Ok? && anonymousRead == ownerRead
  {
    var store, doc := NewColorPoll(false);
    var redis := new Redis();
    ownerRead := GetPollResults(store, redis, Code, Some("owner"), 0);
    anonymousRead := GetPollResults(store, redis, Code, None, 1);
  }

  /** With the check ahead of the cache, the anonymous read is refused. */
  method PrivateResultsGuarded() returns (ownerRead: Result<ResultSnapshot>, anonymousRead: Result<ResultSnapshot>)
    ensures ownerRead.Ok? && anonymousRead == Err(403)
  {
    var store, doc := NewColorPoll(false);
    var redis := new Redis();
    ownerRead := GetPollResultsGuarded(store, redis, Code, Some("owner"), 0);
    anonymousRead := GetPollResultsGuarded(store, redis, Code, None, 1);
  }
}
