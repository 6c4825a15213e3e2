/**
 * The best-score ledger: for each count of correct digits, the shortest time
 * ever taken to reach it. A result replaces the entry for its count when the
 * count is positive and there is no entry yet or the new time is strictly
 * shorter.
 */
module Ledger {
  import opened Decimal

  function Min(a: int, b: int): int {
    if a <= b then a else b
  }

  /**
   * `correctDigits > 0 && (bestScores[correctDigits] == null ||
   * elapsedTime < bestScores[correctDigits]!!)`: the guard under which the
   * entry is written and the ledger saved.
   */
  predicate IsImprovement(scores: map<Int32, int>, count: Int32, time: int)
    ensures IsImprovement(scores, count, time) <==>
      count > 0 && (count !in scores || Min(scores[count], time) != scores[count])
  {
    count > 0 && (count !in scores || time < scores[count])
  }

  /** The ledger after one result with `count` correct digits taking `time`. */
  function RecordIfBest(scores: map<Int32, int>, count: Int32, time: int): (r: map<Int32, int>)
    ensures r.Keys == if count > 0 then scores.Keys + {count} else scores.Keys
    ensures count > 0 ==> r[count] == if count in scores then Min(scores[count], time) else time
    ensures forall n :: n in scores && n != count ==> r[n] == scores[n]
    ensures forall n :: n in scores ==> r[n] <= scores[n]
    ensures r != scores <==> IsImprovement(scores, count, time)
  {
    if IsImprovement(scores, count, time) then scores[count := time] else scores
  }

  /** The ledger after a series of results that all have the same count. */
  function RecordAll(scores: map<Int32, int>, count: Int32, times: seq<int>): map<Int32, int>
    decreases |times|
  {
    if |times| == 0 then scores else RecordAll(RecordIfBest(scores, count, times[0]), count, times[1..])
  }

  function SeqMin(times: seq<int>): int
    requires |times| > 0
  {
    if |times| == 1 then times[0] else Min(times[0], SeqMin(times[1..]))
  }

  /**
   * After a series of results with the same positive count, the entry for
   * that count is the minimum of its old value and all the times, and no
   * other entry has changed.
   */
  lemma {:induction false} RecordAllKeepsMinimum(scores: map<Int32, int>, count: Int32, times: seq<int>)
    requires count > 0 && |times| > 0
    ensures count in RecordAll(scores, count, times)
    ensures RecordAll(scores, count, times)[count] ==
      if count in scores then Min(scores[count], SeqMin(times)) else SeqMin(times)
    ensures forall n :: n != count ==>
      (n in RecordAll(scores, count, times) <==> n in scores)
    ensures forall n :: n != count && n in scores ==> RecordAll(scores, count, times)[n] == scores[n]
    decreases |times|
  {
    var next := RecordIfBest(scores, count, times[0]);
    if |times| > 1 {
      RecordAllKeepsMinimum(next, count, times[1..]);
    }
  }

  /** Results whose count is zero (or less) never touch the ledger. */
  lemma {:induction false} RecordAllZeroCount(scores: map<Int32, int>, count: Int32, times: seq<int>)
    requires count <= 0
    ensures RecordAll(scores, count, times) == scores
    decreases |times|
  {
    if |times| > 0 {
      RecordAllZeroCount(scores, count, times[1..]);
    }
  }
}
