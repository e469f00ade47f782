/** The voting page's selection rules: radio vs checkbox toggling, and the empty-selection guard. */
module VoteForm {
  import opened Common
  import PollController
  import VoteController

  /** Checkbox logic: a present option is unchecked (filtered out), an absent one is appended. */
  function Toggle(prev: seq<string>, optionText: string): (next: seq<string>)
    ensures forall o :: o in next <==> (o == optionText) != (o in prev)
    ensures |next| <= |prev| + 1
  {
    if optionText in prev then Filter(prev, Other(optionText)) else prev + [optionText]
  }

  /** The filter callback of an uncheck: keeps every option but the clicked one. */
  function Other(optionText: string): string -> bool {
    (o: string) => o != optionText
  }

  /** `handleOptionChange`: ignored until the poll is loaded; radio polls select exactly the clicked option. */
  function HandleOptionChange(poll: Option<PollController.PollView>, prev: seq<string>, optionText: string): (next: seq<string>)
    ensures poll.None? ==> next == prev
    ensures poll.Some? && !poll.value.isMultipleChoice ==> next == [optionText]
  {
    if poll.None? then prev
    else if poll.value.isMultipleChoice then Toggle(prev, optionText)
    else [optionText]
  }

  /** Checking an absent option appends it at the end. */
  lemma ToggleAbsentAppends(prev: seq<string>, t: string)
    requires t !in prev
    ensures Toggle(prev, t) == prev + [t]
  {
  }

  /**
   * Unchecking removes the option and leaves the rest in order: when the
   * option occurs once, at index i, the result is `prev` without index i.
   */
  lemma {:induction false} ToggleRemovesPresent(prev: seq<string>, t: string, i: nat)
    requires i < |prev| && prev[i] == t
    requires forall j :: 0 <= j < |prev| && j != i ==> prev[j] != t
    ensures Toggle(prev, t) == prev[..i] + prev[i + 1..]
  {
    var a, b := prev[..i], prev[i + 1..];
    assert prev == a + [t] + b;
    assert forall o :: o in a ==> Other(t)(o) by {
      forall o | o in a ensures Other(t)(o) { var j :| 0 <= j < |a| && a[j] == o; assert prev[j] == o; }
    }
    assert forall o :: o in b ==> Other(t)(o) by {
      forall o | o in b ensures Other(t)(o) { var j :| 0 <= j < |b| && b[j] == o; assert prev[i + 1 + j] == o; }
    }
    FilterDropsOne(a, t, b, Other(t));
  }

  /** Toggling keeps a duplicate-free selection duplicate-free. */
  lemma ToggleKeepsNoDuplicates(prev: seq<string>, t: string)
    requires NoDuplicates(prev)
    ensures NoDuplicates(Toggle(prev, t))
  {
    if t in prev {
      var i :| 0 <= i < |prev| && prev[i] == t;
      ToggleRemovesPresent(prev, t, i);
      RemoveAtKeepsNoDuplicates(prev, i);
    } else {
      var r := prev + [t];
      forall a, b | 0 <= a < b < |r| ensures r[a] != r[b] {
        if b == |prev| { assert r[a] in prev; }
      }
    }
  }

  lemma RemoveAtKeepsNoDuplicates(xs: seq<string>, i: nat)
    requires i < |xs| && NoDuplicates(xs)
    ensures NoDuplicates(xs[..i] + xs[i + 1..])
  {
    var r := xs[..i] + xs[i + 1..];
    forall a, b | 0 <= a < b < |r| ensures r[a] != r[b] {
      var a', b' := if a < i then a else a + 1, if b < i then b else b + 1;
      assert r[a] == xs[a'] && r[b] == xs[b'];
    }
  }

  /**
   * Clicking the same checkbox twice: an option that was unchecked is back to
   * exactly the original selection; one that was checked ends up with the same
   * options but moved to the end.
   */
  lemma {:induction false} ToggleTwice(prev: seq<string>, t: string)
    requires NoDuplicates(prev)
    ensures t !in prev ==> Toggle(Toggle(prev, t), t) == prev
    ensures t in prev ==>
      var i :| 0 <= i < |prev| && prev[i] == t;
      Toggle(Toggle(prev, t), t) == prev[..i] + prev[i + 1..] + [t]
  {
    if t !in prev {
      ToggleRemovesPresent(prev + [t], t, |prev|);
      assert (prev + [t])[..|prev|] == prev;
    } else {
      var i :| 0 <= i < |prev| && prev[i] == t;
      ToggleRemovesPresent(prev, t, i);
      assert t !in prev[..i] + prev[i + 1..];
    }
  }

  /** Two clicks give back the same selection exactly when the option was unchecked, or checked and last. */
  lemma ToggleTwiceRestoresIff(prev: seq<string>, t: string)
    requires NoDuplicates(prev)
    ensures Toggle(Toggle(prev, t), t) == prev <==> t !in prev || prev[|prev| - 1] == t
  {
    ToggleTwice(prev, t);
    if t in prev {
      var i :| 0 <= i < |prev| && prev[i] == t;
      var r := prev[..i] + prev[i + 1..] + [t];
      assert Toggle(Toggle(prev, t), t) == r;
      if i == |prev| - 1 {
        assert r == prev;
      } else {
        assert prev[|prev| - 1] != t;
        assert r[|r| - 1] == t;
      }
    }
  }

  /** `handleSubmit`: an empty selection sends nothing; otherwise the selection is posted as is. */
  function SubmitVote(selected: seq<string>): (body: Option<seq<string>>)
    ensures body.None? <==> selected == []
  {
    if |selected| == 0 then None else Some(selected)
  }

  /** Whatever the page posts passes the server's payload validation. */
  lemma SubmittedSelectionIsValid(selected: seq<string>)
    requires SubmitVote(selected).Some?
    ensures VoteController.ValidSelection(VoteController.AnArray(SubmitVote(selected).value))
    ensures SubmitVote(selected).value == selected
  {
  }
}
