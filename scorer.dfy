/**
 * Scoring an answer against the sequence: the count of correctly placed
 * digits (`input.zip(sequence).count { it.first == it.second }`) and the
 * green/red mark of each character shown on the result screen
 * (`input.padEnd(16, ' ')`, green where the character equals the sequence's).
 */
module Scorer {
  import opened Decimal

  /** Width of the answer row on the result screen. */
  const DisplayWidth: nat := 16

  /** The padding character of the answer row. */
  const Blank: char := ' '

  /** `input.zip(sequence).count { it.first == it.second }`. */
  function CorrectDigits(input: string, sequence: string): (n: nat)
    ensures n <= |input| && n <= |sequence|
  {
    if |input| == 0 || |sequence| == 0 then 0
    else (if input[0] == sequence[0] then 1 else 0) + CorrectDigits(input[1..], sequence[1..])
  }

  /** The positions, within both strings, where they hold the same character. */
  ghost function MatchPositions(input: string, sequence: string): set<int>
  {
    set i | 0 <= i < |input| && i < |sequence| && input[i] == sequence[i]
  }

  /** The positions at or after `k` where both strings agree. */
  ghost function MatchPositionsFrom(input: string, sequence: string, k: nat): set<int>
  {
    set i | k <= i < |input| && i < |sequence| && input[i] == sequence[i]
  }

  /** Counting the suffixes from `k` on counts the matches from `k` on. */
  lemma {:induction false} CorrectDigitsFrom(input: string, sequence: string, k: nat)
    requires k <= |input| && k <= |sequence|
    ensures CorrectDigits(input[k..], sequence[k..]) == |MatchPositionsFrom(input, sequence, k)|
    decreases |input| - k
  {
    if k == |input| || k == |sequence| {
      assert MatchPositionsFrom(input, sequence, k) == {};
    } else {
      CorrectDigitsFrom(input, sequence, k + 1);
      assert input[k..][1..] == input[k + 1..];
      assert sequence[k..][1..] == sequence[k + 1..];
      var head: set<int> := if input[k] == sequence[k] then {k} else {};
      assert MatchPositionsFrom(input, sequence, k) == head + MatchPositionsFrom(input, sequence, k + 1);
    }
  }

  /** The count is the number of positions where answer and sequence agree. */
  lemma CorrectDigitsCountsMatches(input: string, sequence: string)
    ensures CorrectDigits(input, sequence) == |MatchPositions(input, sequence)|
  {
    CorrectDigitsFrom(input, sequence, 0);
    assert input[0..] == input && sequence[0..] == sequence;
    assert MatchPositions(input, sequence) == MatchPositionsFrom(input, sequence, 0);
  }

  /** Kotlin's `padEnd`: extend `s` with `padChar` up to `length` characters. */
  function PadEnd(s: string, length: nat, padChar: char): (r: string)
    ensures |r| == if |s| < length then length else |s|
    ensures r[..|s|] == s
    ensures forall i :: |s| <= i < |r| ==> r[i] == padChar
    decreases length - |s|
  {
    if |s| >= length then s
    else
      var r := PadEnd(s + [padChar], length, padChar);
      assert r[..|s|] == r[..|s| + 1][..|s|];
      r
  }

  /** The colour of each character of the answer row: true is green, false red. */
  function ResultMarks(input: string, sequence: string): (marks: seq<bool>)
    ensures |marks| == if |input| < DisplayWidth then DisplayWidth else |input|
  {
    var shown := PadEnd(input, DisplayWidth, Blank);
    seq(|shown|, i requires 0 <= i < |shown| => i < |sequence| && shown[i] == sequence[i])
  }

  /** The positions coloured green. */
  ghost function GreenPositions(marks: seq<bool>): set<int>
  {
    set i | 0 <= i < |marks| && marks[i]
  }

  /**
   * Against a sequence of digits, a position is green exactly when the typed
   * character there equals the sequence's; padding is never green; and the
   * number of green positions is the correct-digit count.
   */
  lemma ResultMarksAgreeWithScore(input: string, sequence: string)
    requires IsDigitString(sequence)
    ensures forall i :: 0 <= i < |ResultMarks(input, sequence)| ==>
      (ResultMarks(input, sequence)[i] <==> i < |input| && i < |sequence| && input[i] == sequence[i])
    ensures forall i :: |input| <= i < |ResultMarks(input, sequence)| ==> !ResultMarks(input, sequence)[i]
    ensures |GreenPositions(ResultMarks(input, sequence))| == CorrectDigits(input, sequence)
  {
    var marks := ResultMarks(input, sequence);
    var shown := PadEnd(input, DisplayWidth, Blank);
    forall i | 0 <= i < |marks|
      ensures marks[i] <==> i < |input| && i < |sequence| && input[i] == sequence[i]
    {
      if i < |input| {
        assert shown[i] == shown[..|input|][i];
      } else if i < |sequence| {
        assert IsDigit(sequence[i]);
      }
    }
    assert GreenPositions(marks) == MatchPositions(input, sequence);
    CorrectDigitsCountsMatches(input, sequence);
  }

  /** Scoring aligned pieces separately and adding gives the score of the whole. */
  lemma {:induction false} CorrectDigitsConcat(a1: string, a2: string, s1: string, s2: string)
    requires |a1| == |s1|
    ensures CorrectDigits(a1 + a2, s1 + s2) == CorrectDigits(a1, s1) + CorrectDigits(a2, s2)
  {
    if |a1| > 0 {
      assert (a1 + a2)[1..] == a1[1..] + a2;
      assert (s1 + s2)[1..] == s1[1..] + s2;
      CorrectDigitsConcat(a1[1..], a2, s1[1..], s2);
    } else {
      assert a1 + a2 == a2 && s1 + s2 == s2;
    }
  }

  /** The four-digit blocks of the example below, scored one by one. */
  lemma ExampleBlocks()
    ensures CorrectDigits("9876", "9876") == 4
    ensures CorrectDigits("0000", "5432") == 0
    ensures CorrectDigits("0000", "1012") == 1
    ensures CorrectDigits("0000", "3456") == 0
  {
  }

  /**
   * "9876000000000000" against "9876543210123456" scores five: the first four
   * digits, and the '0' at position 9, where the sequence also holds a '0'.
   */
  lemma ExampleScoresFive(input: string, sequence: string)
    requires input == "9876" + "0000" + "0000" + "0000"
    requires sequence == "9876" + "5432" + "1012" + "3456"
    ensures CorrectDigits(input, sequence) == 5
  {
    ExampleBlocks();
    CorrectDigitsConcat("9876" + "0000" + "0000", "0000", "9876" + "5432" + "1012", "3456");
    CorrectDigitsConcat("9876" + "0000", "0000", "9876" + "5432", "1012");
    CorrectDigitsConcat("9876", "0000", "9876", "5432");
  }
}
