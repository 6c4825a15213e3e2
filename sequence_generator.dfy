/**
 * The sequence to memorize: sixteen random digits joined into one string
 * (`generateRandomSequence`). The random source is injected as the list of
 * draws `Random.nextInt(0, 10)` would have returned, one per position.
 */
module SequenceGenerator {
  import opened Decimal

  const SequenceLength: nat := 16

  /** What `Random.nextInt(0, 10)` can return. */
  predicate IsDigitDraw(d: int) {
    0 <= d < 10
  }

  predicate AreDigitDraws(draws: seq<int>) {
    forall i :: 0 <= i < |draws| ==> IsDigitDraw(draws[i])
  }

  /** `joinToString("")` over one-digit numbers: one character per draw. */
  function JoinDigits(draws: seq<int>): (s: string)
    requires AreDigitDraws(draws)
    ensures |s| == |draws| && IsDigitString(s)
  {
    if |draws| == 0 then "" else [DigitChar(draws[0])] + JoinDigits(draws[1..])
  }

  /** The digit each character of a digit string stands for. */
  function DigitsOf(s: string): (draws: seq<int>)
    requires IsDigitString(s)
    ensures |draws| == |s| && AreDigitDraws(draws)
  {
    if |s| == 0 then [] else [DigitValue(s[0])] + DigitsOf(s[1..])
  }

  /** `generateRandomSequence()`, with its sixteen draws given. */
  function GenerateRandomSequence(draws: seq<int>): (s: string)
    requires |draws| == SequenceLength && AreDigitDraws(draws)
    ensures |s| == SequenceLength && IsDigitString(s)
  {
    JoinDigits(draws)
  }

  /** Character i of the joined string prints draw i. */
  lemma {:induction false} JoinDigitsAt(draws: seq<int>, i: int)
    requires AreDigitDraws(draws) && 0 <= i < |draws|
    ensures JoinDigits(draws)[i] == DigitChar(draws[i])
  {
    if i > 0 {
      JoinDigitsAt(draws[1..], i - 1);
    }
  }

  /** The string records its draws: reading it back gives them again. */
  lemma {:induction false} JoinDigitsRoundTrip(draws: seq<int>)
    requires AreDigitDraws(draws)
    ensures DigitsOf(JoinDigits(draws)) == draws
  {
    if |draws| > 0 {
      var s := JoinDigits(draws);
      assert s[1..] == JoinDigits(draws[1..]);
      JoinDigitsRoundTrip(draws[1..]);
      DigitCharValue(draws[0]);
    }
  }

  /** Every digit string is the join of the digits it reads as. */
  lemma {:induction false} DigitsOfRoundTrip(s: string)
    requires IsDigitString(s)
    ensures JoinDigits(DigitsOf(s)) == s
  {
    if |s| > 0 {
      DigitsOfRoundTrip(s[1..]);
      DigitValueChar(s[0]);
      assert DigitsOf(s)[1..] == DigitsOf(s[1..]);
    }
  }

  /**
   * Distinct draws give distinct sequences, and every string of sixteen
   * digits is the sequence of some draws: the generator neither merges nor
   * misses any outcome.
   */
  lemma GeneratorIsBijective(draws1: seq<int>, draws2: seq<int>, s: string)
    requires |draws1| == SequenceLength && AreDigitDraws(draws1)
    requires |draws2| == SequenceLength && AreDigitDraws(draws2)
    requires |s| == SequenceLength && IsDigitString(s)
    ensures GenerateRandomSequence(draws1) == GenerateRandomSequence(draws2) ==> draws1 == draws2
    ensures GenerateRandomSequence(DigitsOf(s)) == s
  {
    JoinDigitsRoundTrip(draws1);
    JoinDigitsRoundTrip(draws2);
    DigitsOfRoundTrip(s);
  }
}
