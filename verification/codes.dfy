/** Match codes: six symbols drawn from an alphabet without the characters
    that are easily confused when typed by hand. The random source is a
    parameter: `rnd(n)` is the value of the n-th call to the random number
    generator, a real in [0, 1). */
module MatchCodes {

  const Alphabet: string := "ABCDEFGHJKLMNPQRSTUVWXYZ23456789"
  const CodeLength: nat := 6

  /** A well-formed match code. */
  predicate IsCode(s: string) {
    |s| == CodeLength && forall i :: 0 <= i < |s| ==> s[i] in Alphabet
  }

  /** A symbol that cannot be mistaken for another when typed: an upper-case
      letter other than I and O, or a digit other than 0 and 1. */
  predicate Unambiguous(c: char) {
    ('A' <= c <= 'Z' && c != 'I' && c != 'O') || ('2' <= c <= '9')
  }

  /** The alphabet has 32 distinct symbols, all of them unambiguous. */
  lemma AlphabetShape()
    ensures |Alphabet| == 32
    ensures forall i :: 0 <= i < |Alphabet| ==> Unambiguous(Alphabet[i])
    ensures forall i, j :: 0 <= i < j < |Alphabet| ==> Alphabet[i] != Alphabet[j]
  {
  }

  /** No code contains 0, O, 1 or I. */
  lemma CodeIsUnambiguous(s: string)
    requires IsCode(s)
    ensures forall i :: 0 <= i < |s| ==> Unambiguous(s[i])
    ensures forall c :: c in s ==> c != '0' && c != 'O' && c != '1' && c != 'I'
  {
    AlphabetShape();
  }

  ghost predicate IsRandom(rnd: nat -> real) {
    forall n: nat :: 0.0 <= rnd(n) < 1.0
  }

  /** The alphabet index a random value in [0, 1) selects. */
  function PickIndex(x: real): (k: int)
    requires 0.0 <= x < 1.0
    ensures 0 <= k < |Alphabet|
  {
    (x * (|Alphabet| as real)).Floor
  }

  /** The code built from the draws rnd(from) up to rnd(from + 5). */
  function CodeAt(rnd: nat -> real, from: nat): (c: string)
    requires IsRandom(rnd)
    ensures IsCode(c)
  {
    var c := seq(CodeLength, i requires 0 <= i < CodeLength => Alphabet[PickIndex(rnd(from + i))]);
    assert forall i :: 0 <= i < |c| ==> c[i] == Alphabet[PickIndex(rnd(from + i))];
    c
  }

  /** The code produced by the k-th call to GenerateCode (counting from 0)
      when each call consumes CodeLength draws. */
  function Attempt(rnd: nat -> real, k: nat): (c: string)
    requires IsRandom(rnd)
    ensures IsCode(c)
  {
    CodeAt(rnd, CodeLength * k)
  }

  /** Builds a code one symbol at a time from successive draws. */
  method GenerateCode(rnd: nat -> real, from: nat) returns (code: string)
    requires IsRandom(rnd)
    ensures IsCode(code)
    ensures code == CodeAt(rnd, from)
  {
    code := "";
    for i := 0 to CodeLength
      invariant |code| == i
      invariant forall j :: 0 <= j < i ==> code[j] == Alphabet[PickIndex(rnd(from + j))]
    {
      code := code + [Alphabet[PickIndex(rnd(from + i))]];
    }
  }
}
