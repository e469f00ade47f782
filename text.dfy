/** The string operations the client uses: JavaScript's `trim` and `toUpperCase`. */
module Text {

  /** The code points that JavaScript's `String.prototype.trim` strips: WhiteSpace and LineTerminator. */
  predicate IsJsSpace(c: char) {
    || c == '\t' || c == '\n' || c == '\U{B}' || c == '\U{C}' || c == '\r' || c == ' '
    || c == '\U{A0}' || c == '\U{1680}' || ('\U{2000}' <= c <= '\U{200A}')
    || c == '\U{2028}' || c == '\U{2029}' || c == '\U{202F}' || c == '\U{205F}'
    || c == '\U{3000}' || c == '\U{FEFF}'
  }

  predicate AllSpace(s: string) {
    forall i :: 0 <= i < |s| ==> IsJsSpace(s[i])
  }

  predicate IsLowerAscii(c: char) {
    'a' <= c <= 'z'
  }

  /** Drops leading whitespace: the result is a suffix of `s` and everything dropped is whitespace. */
  function TrimStart(s: string): (r: string)
    ensures |r| <= |s| && r == s[|s| - |r|..]
    ensures AllSpace(s[..|s| - |r|])
    ensures r == [] || !IsJsSpace(r[0])
  {
    if s != [] && IsJsSpace(s[0]) then TrimStart(s[1..]) else s
  }

  /** Drops trailing whitespace: the result is a prefix of `s` and everything dropped is whitespace. */
  function TrimEnd(s: string): (r: string)
    ensures |r| <= |s| && r == s[..|r|]
    ensures AllSpace(s[|r|..])
    ensures r == [] || !IsJsSpace(r[|r| - 1])
  {
    if s != [] && IsJsSpace(s[|s| - 1]) then TrimEnd(s[..|s| - 1]) else s
  }

  function Trim(s: string): (r: string)
    ensures |r| <= |s|
    ensures r == [] || (!IsJsSpace(r[0]) && !IsJsSpace(r[|r| - 1]))
  {
    TrimEnd(TrimStart(s))
  }

  /** `trim` yields the empty string exactly when the input is blank. */
  lemma TrimEmptyIffBlank(s: string)
    ensures Trim(s) == [] <==> AllSpace(s)
  {
    if AllSpace(s) {
      BlankTrimsToEmpty(s);
    } else {
      var k :| 0 <= k < |s| && !IsJsSpace(s[k]);
      TrimKeepsNonSpace(s, k);
    }
  }

  lemma BlankTrimsToEmpty(s: string)
    requires AllSpace(s)
    ensures Trim(s) == []
  {
    assert TrimStart(s) == [];
  }

  lemma TrimKeepsNonSpace(s: string, k: nat)
    requires k < |s| && !IsJsSpace(s[k])
    ensures Trim(s) != []
  {
    var t := TrimStart(s);
    var d := |s| - |t|;
    forall j | 0 <= j < d ensures IsJsSpace(s[j]) {
      assert s[..d][j] == s[j];
    }
    assert d <= k;
    assert t[k - d] == s[k];
    var r := TrimEnd(t);
    forall j | |r| <= j < |t| ensures IsJsSpace(t[j]) {
      assert t[|r|..][j - |r|] == t[j];
    }
    assert k - d < |r|;
  }

  function UpperChar(c: char): (u: char)
  {
    if IsLowerAscii(c) then (c as int - 32) as char else c
  }

  /** Upper-cases ASCII letters; every other character is kept. */
  function ToUpperAscii(s: string): (r: string)
    ensures |r| == |s|
    ensures forall i :: 0 <= i < |r| ==> !IsLowerAscii(r[i])
    ensures forall i :: 0 <= i < |r| ==> (IsJsSpace(r[i]) <==> IsJsSpace(s[i]))
  {
    seq(|s|, i requires 0 <= i < |s| => UpperChar(s[i]))
  }
}
