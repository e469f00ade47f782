/** The landing page's code box: the typed code is trimmed and upper-cased before navigating. */
module HeroForm {
  import opened Common
  import opened Text
  import PollCodes

  /** `pollCode.trim().toUpperCase()`. */
  function NormalizeCode(input: string): (code: string)
    ensures |code| <= |input|
    ensures code == [] || (!IsJsSpace(code[0]) && !IsJsSpace(code[|code| - 1]))
    ensures forall i :: 0 <= i < |code| ==> !IsLowerAscii(code[i])
  {
    var trimmed := Trim(input);
    var code := ToUpperAscii(trimmed);
    assert code == [] || (IsJsSpace(code[0]) == IsJsSpace(trimmed[0]) && IsJsSpace(code[|code| - 1]) == IsJsSpace(trimmed[|trimmed| - 1]));
    code
  }

  /**
   * `onSubmit`: the route to navigate to. Blank input does nothing; any other
   * input navigates to `/vote/` followed by a code with no surrounding
   * whitespace and no lower-case ASCII letter.
   */
  function OnSubmit(input: string): (route: Option<string>)
    ensures route.None? <==> AllSpace(input)
    ensures route.Some? ==>
      var code := NormalizeCode(input);
      && route.value == "/vote/" + code
      && code != ""
      && !IsJsSpace(code[0]) && !IsJsSpace(code[|code| - 1])
      && (forall i :: 0 <= i < |code| ==> !IsLowerAscii(code[i]))
  {
    TrimEmptyIffBlank(input);
    var code := NormalizeCode(input);
    if code != "" then Some("/vote/" + code) else None
  }

  /** A string already free of surrounding whitespace is its own trim. */
  lemma {:induction false} TrimOfTrimmed(s: string)
    requires s == [] || (!IsJsSpace(s[0]) && !IsJsSpace(s[|s| - 1]))
    ensures Trim(s) == s
  {
  }

  /** Normalising twice is normalising once. */
  lemma NormalizeIdempotent(input: string)
    ensures NormalizeCode(NormalizeCode(input)) == NormalizeCode(input)
  {
    var c := NormalizeCode(input);
    TrimOfTrimmed(c);
    assert Trim(c) == c;
    assert ToUpperAscii(c) == c by {
      forall i | 0 <= i < |c| ensures ToUpperAscii(c)[i] == c[i] {
        assert !IsLowerAscii(c[i]);
      }
    }
  }

  /** A generated code typed in lower case, with spaces around it, leads to that code's page. */
  lemma TypedCodeReachesItsPoll(code: string, typed: string, before: string, after: string)
    requires PollCodes.WellFormedCode(code)
    requires AllSpace(before) && AllSpace(after)
    requires |typed| == |code| && forall i :: 0 <= i < |code| ==> UpperChar(typed[i]) == code[i]
    ensures OnSubmit(before + typed + after) == Some("/vote/" + code)
  {
    assert UpperChar(typed[0]) == code[0] && UpperChar(typed[5]) == code[5];
    TrimAround(before, typed, after);
    assert ToUpperAscii(typed) == code;
  }

  /** Whitespace around a word with non-space ends is exactly what `trim` removes. */
  lemma TrimAround(before: string, word: string, after: string)
    requires AllSpace(before) && AllSpace(after)
    requires word != [] && !IsJsSpace(word[0]) && !IsJsSpace(word[|word| - 1])
    ensures Trim(before + word + after) == word
  {
    TrimStartSkips(before, word + after);
    assert before + word + after == before + (word + after);
    TrimEndSkips(word, after);
  }

  lemma {:induction false} TrimStartSkips(spaces: string, rest: string)
    requires AllSpace(spaces) && rest != [] && !IsJsSpace(rest[0])
    ensures TrimStart(spaces + rest) == rest
    decreases |spaces|
  {
    var s := spaces + rest;
    if spaces != [] {
      assert s[0] == spaces[0] && IsJsSpace(s[0]);
      assert s[1..] == spaces[1..] + rest;
      TrimStartSkips(spaces[1..], rest);
      assert TrimStart(s) == TrimStart(s[1..]);
    } else {
      assert s == rest;
    }
  }

  lemma {:induction false} TrimEndSkips(body: string, spaces: string)
    requires AllSpace(spaces) && body != [] && !IsJsSpace(body[|body| - 1])
    ensures TrimEnd(body + spaces) == body
    decreases |spaces|
  {
    var s := body + spaces;
    if spaces != [] {
      assert s[|s| - 1] == spaces[|spaces| - 1] && IsJsSpace(s[|s| - 1]);
      assert s[..|s| - 1] == body + spaces[..|spaces| - 1];
      TrimEndSkips(body, spaces[..|spaces| - 1]);
      assert TrimEnd(s) == TrimEnd(s[..|s| - 1]);
    } else {
      assert body + spaces == body;
    }
  }
}
