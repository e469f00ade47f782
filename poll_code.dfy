/**
 * Poll codes: two capital letters followed by four digits, each character
 * drawn from its alphabet by an independent random number in [0, 1).
 */
module PollCodes {

  /** 'ABCDEFGHIJKLMNOPQRSTUVWXYZ', written by position. */
  function Letters(): string {
    seq(26, i requires 0 <= i < 26 => ('A' as int + i) as char)
  }
  /** '0123456789', written by position. */
  function Digits(): string {
    seq(10, i requires 0 <= i < 10 => ('0' as int + i) as char)
  }

  lemma AlphabetsAsWritten()
    ensures Letters() == "ABCDEFGHIJKLMNOPQRSTUVWXYZ"
    ensures Digits() == "0123456789"
  {
  }

  /** A random number as `Math.random()` returns it. */
  predicate IsUnitRandom(r: real) {
    0.0 <= r < 1.0
  }

  /** `Math.floor(r * alphabet.length)`: an index into the alphabet. */
  function PickIndex(r: real, n: nat): (k: int)
    requires IsUnitRandom(r) && n > 0
    ensures 0 <= k < n
  {
    ScaleSign(r, n);
    ScaleSign(r - 1.0, n);
    assert (r - 1.0) * n as real == r * n as real - n as real;
    (r * n as real).Floor
  }

  /** Scaling by a positive whole number keeps the sign. */
  lemma {:induction false} ScaleSign(x: real, n: nat)
    requires n > 0
    ensures x < 0.0 <==> x * n as real < 0.0
  {
    if n > 1 {
      ScaleSign(x, n - 1);
      assert x * n as real == x * (n - 1) as real + x;
    }
  }

  /** `getRandom`: one character of `alphabet` per random number, concatenated. */
  function RandomString(alphabet: string, rs: seq<real>): (s: string)
    requires |alphabet| > 0
    requires forall i :: 0 <= i < |rs| ==> IsUnitRandom(rs[i])
    ensures |s| == |rs|
    ensures forall i :: 0 <= i < |rs| ==> s[i] in alphabet
  {
    seq(|rs|, i requires 0 <= i < |rs| => alphabet[PickIndex(rs[i], |alphabet|)])
  }

  /** The generator, given the six random numbers it draws. */
  function GeneratePollCode(letterRandoms: seq<real>, digitRandoms: seq<real>): (code: string)
    requires |letterRandoms| == 2 && |digitRandoms| == 4
    requires forall i :: 0 <= i < 2 ==> IsUnitRandom(letterRandoms[i])
    requires forall i :: 0 <= i < 4 ==> IsUnitRandom(digitRandoms[i])
    ensures WellFormedCode(code)
  {
    RandomString(Letters(), letterRandoms) + RandomString(Digits(), digitRandoms)
  }

  /** Six characters: capitals at positions 0-1, decimal digits at positions 2-5. */
  predicate WellFormedCode(code: string) {
    && |code| == 6
    && (forall i :: 0 <= i < 2 ==> 'A' <= code[i] <= 'Z')
    && (forall i :: 2 <= i < 6 ==> '0' <= code[i] <= '9')
  }

  /** The random number that makes `PickIndex` choose index `k`. */
  function RandomFor(k: nat, n: nat): (r: real)
    requires k < n
    ensures IsUnitRandom(r) && PickIndex(r, n) == k
  {
    var r := k as real / n as real;
    assert r * n as real == k as real;
    ScaleSign(r, n);
    ScaleSign(r - 1.0, n);
    assert (r - 1.0) * n as real == r * n as real - n as real;
    r
  }

  /**
   * Every well-formed code is generated by some draw: the shape above describes
   * exactly the codes the generator can return.
   */
  lemma EveryWellFormedCodeIsGenerated(code: string)
    requires WellFormedCode(code)
    ensures exists ls: seq<real>, ds: seq<real> ::
      |ls| == 2 && |ds| == 4 &&
      (forall i :: 0 <= i < 2 ==> IsUnitRandom(ls[i])) &&
      (forall i :: 0 <= i < 4 ==> IsUnitRandom(ds[i])) &&
      GeneratePollCode(ls, ds) == code
  {
    var ls := seq(2, i requires 0 <= i < 2 => RandomFor(code[i] as int - 'A' as int, 26));
    var ds := seq(4, i requires 0 <= i < 4 => RandomFor(code[i + 2] as int - '0' as int, 10));
    var g := GeneratePollCode(ls, ds);
    assert g == code;
  }

  /** Generated codes contain no ':' (they consist of letters and digits only). */
  lemma WellFormedCodeHasNoColon(code: string)
    requires WellFormedCode(code)
    ensures forall i :: 0 <= i < |code| ==> code[i] != ':'
  {
  }
}
