/**
 * The state of the `MemoryTrainingApp` screen and the events that change it:
 * taps on the screen, the home icon, the reset button, edits of the answer
 * field and the ticks of the memorization timer. The clock reading of each
 * event and the draws of the random source are parameters; the preferences
 * file is a field holding the map it stands for.
 */
module MemoryTraining {
  import opened Wrappers
  import opened Decimal
  import opened SequenceGenerator
  import opened Scorer
  import opened Ledger
  import opened Preferences

  /** The four phases of a round. */
  datatype Phase = Instructions | Memorize | Recall | Result

  /**
   * The phase the tap handler's `when` selects from the three flags: the
   * first flag that is set wins, in the order instructions, result,
   * memorizing; with none set the player is recalling.
   */
  function TapPhase(showInstructions: bool, showResult: bool, isMemorizing: bool): (p: Phase)
    ensures p == Instructions <==> showInstructions
    ensures p == Result <==> !showInstructions && showResult
    ensures p == Memorize <==> !showInstructions && !showResult && isMemorizing
    ensures p == Recall <==> !showInstructions && !showResult && !isMemorizing
  {
    if showInstructions then Instructions
    else if showResult then Result
    else if isMemorizing then Memorize
    else Recall
  }

  /**
   * The phase the screen draws from the same flags: instructions first, and
   * otherwise the memorization view before the result view.
   */
  function ScreenPhase(showInstructions: bool, showResult: bool, isMemorizing: bool): (p: Phase)
    ensures p == Instructions <==> showInstructions
    ensures p == Memorize <==> !showInstructions && isMemorizing
    ensures p == Result <==> !showInstructions && !isMemorizing && showResult
    ensures p == Recall <==> !showInstructions && !showResult && !isMemorizing
  {
    if showInstructions then Instructions
    else if isMemorizing then Memorize
    else if showResult then Result
    else Recall
  }

  /**
   * The screen shows the phase a tap acts on exactly when the result and
   * memorizing flags are not both set outside the instructions.
   */
  lemma ScreenMatchesTap(showInstructions: bool, showResult: bool, isMemorizing: bool)
    ensures ScreenPhase(showInstructions, showResult, isMemorizing) == TapPhase(showInstructions, showResult, isMemorizing)
      <==> showInstructions || !(showResult && isMemorizing)
  {
  }

  class MemoryTrainingApp {
    var sequence: string
    var input: string
    var startTime: int
    var elapsedTime: int
    var isMemorizing: bool
    var showResult: bool
    var showInstructions: bool
    var bestScores: map<Int32, int>
    var lastScore: int
    /** The app's "memory_training" preferences file. */
    var preferences: Store

    /** The sequence is always sixteen digits. */
    ghost predicate Valid()
      reads this
    {
      |sequence| == SequenceLength && IsDigitString(sequence)
    }

    /** Every ledger entry is in the preferences file, under its key, as a Long. */
    ghost predicate Persisted()
      reads this
    {
      forall n :: n in bestScores ==> ScoreKey(n) in preferences && preferences[ScoreKey(n)] == LongPref(bestScores[n])
    }

    function Phase(): Phase
      reads this
    {
      TapPhase(showInstructions, showResult, isMemorizing)
    }

    function Screen(): Phase
      reads this
    {
      ScreenPhase(showInstructions, showResult, isMemorizing)
    }

    /** `input.zip(sequence).count { it.first == it.second }`, as the `Int` it is. */
    function Correct(): (n: Int32)
      reads this
      requires Valid()
      ensures 0 <= n as int <= SequenceLength
      ensures n as int == |MatchPositions(input, sequence)|
    {
      CorrectDigitsCountsMatches(input, sequence);
      CorrectDigits(input, sequence) as Int32
    }

    /** `bestScores[correctDigits]`, the best time the result screen shows, if any. */
    function BestTimeShown(): (t: Option<int>)
      reads this
      requires Valid()
      ensures t.Some? <==> Correct() in bestScores
      ensures t.Some? ==> t.value == bestScores[Correct()]
    {
      if Correct() in bestScores then Some(bestScores[Correct()]) else None
    }

    /**
     * The state the composable starts with, its sequence drawn from `draws`,
     * after the start-up effect has loaded the ledger from `stored`.
     */
    constructor(draws: seq<int>, stored: Store)
      requires |draws| == SequenceLength && AreDigitDraws(draws)
      ensures Valid() && Phase() == Instructions && Screen() == Instructions
      ensures sequence == GenerateRandomSequence(draws) && input == ""
      ensures startTime == 0 && elapsedTime == 0 && lastScore == 0
      ensures !isMemorizing && !showResult && showInstructions
      ensures LoadedInto(stored, map[], bestScores)
      ensures preferences == stored
    {
      sequence := GenerateRandomSequence(draws);
      input := "";
      startTime := 0;
      elapsedTime := 0;
      isMemorizing := false;
      showResult := false;
      showInstructions := true;
      lastScore := 0;
      preferences := stored;
      var loaded := LoadBestScores(stored, map[]);
      bestScores := loaded;
    }

    /**
     * A tap on the screen at clock reading `now`; `draws` are the digits the
     * random source would give if a new sequence is drawn.
     */
    method Tap(now: int, draws: seq<int>)
      requires Valid() && |draws| == SequenceLength && AreDigitDraws(draws)
      modifies this
      ensures Valid()
      ensures elapsedTime == old(elapsedTime)
      ensures old(Phase()) == Instructions ==>
        && !showInstructions && isMemorizing && startTime == now
        && showResult == old(showResult)
        && sequence == old(sequence) && input == old(input)
        && bestScores == old(bestScores) && lastScore == old(lastScore)
        && preferences == old(preferences)
        && Phase() == (if old(showResult) then Result else Memorize)
      ensures old(Phase()) == Result ==>
        && sequence == GenerateRandomSequence(draws) && input == ""
        && isMemorizing && !showResult && startTime == now
        && showInstructions == old(showInstructions)
        && bestScores == old(bestScores) && lastScore == old(lastScore)
        && preferences == old(preferences)
        && Phase() == Memorize
      ensures old(Phase()) == Memorize ==>
        && !isMemorizing
        && showInstructions == old(showInstructions) && showResult == old(showResult)
        && sequence == old(sequence) && input == old(input) && startTime == old(startTime)
        && bestScores == old(bestScores) && lastScore == old(lastScore)
        && preferences == old(preferences)
        && Phase() == Recall
      ensures old(Phase()) == Recall ==>
        && showResult && lastScore == old(elapsedTime)
        && showInstructions == old(showInstructions) && isMemorizing == old(isMemorizing)
        && sequence == old(sequence) && input == old(input) && startTime == old(startTime)
        && bestScores == RecordIfBest(old(bestScores), Correct(), old(elapsedTime))
        && preferences == (if IsImprovement(old(bestScores), Correct(), old(elapsedTime))
                           then SavedStore(old(preferences), bestScores) else old(preferences))
        && Phase() == Result
        && (Correct() > 0 ==> BestTimeShown().Some? && BestTimeShown().value <= lastScore)
        && (IsImprovement(old(bestScores), Correct(), old(elapsedTime)) ==> BestTimeShown() == Some(lastScore))
      ensures old(Persisted()) ==> Persisted()
    {
      if showInstructions {
        showInstructions := false;
        isMemorizing := true;
        startTime := now;
      } else if showResult {
        sequence := GenerateRandomSequence(draws);
        isMemorizing := true;
        startTime := now;
        input := "";
        showResult := false;
      } else if isMemorizing {
        isMemorizing := false;
      } else {
        FinishRecall();
      }
    }

    /** The recall branch of the tap handler: score the answer and keep the best time. */
    method FinishRecall()
      requires Valid() && Phase() == Recall
      modifies this
      ensures Valid()
      ensures showResult && lastScore == old(elapsedTime) && elapsedTime == old(elapsedTime)
      ensures showInstructions == old(showInstructions) && isMemorizing == old(isMemorizing)
      ensures sequence == old(sequence) && input == old(input) && startTime == old(startTime)
      ensures bestScores == RecordIfBest(old(bestScores), Correct(), old(elapsedTime))
      ensures preferences == (if IsImprovement(old(bestScores), Correct(), old(elapsedTime))
                              then SavedStore(old(preferences), bestScores) else old(preferences))
      ensures Correct() > 0 ==> BestTimeShown().Some? && BestTimeShown().value <= lastScore
      ensures IsImprovement(old(bestScores), Correct(), old(elapsedTime)) ==> BestTimeShown() == Some(lastScore)
      ensures !IsImprovement(old(bestScores), Correct(), old(elapsedTime)) ==> BestTimeShown() == old(BestTimeShown())
      ensures old(Persisted()) ==> Persisted()
    {
      showResult := true;
      var correctDigits := CorrectDigits(input, sequence) as Int32;
      lastScore := elapsedTime;
      if correctDigits > 0 && (correctDigits !in bestScores || elapsedTime < bestScores[correctDigits]) {
        bestScores := bestScores[correctDigits := elapsedTime];
        var saved := SaveBestScores(preferences, bestScores);
        preferences := saved;
        SavedStoreHoldsLedger(old(preferences), bestScores);
      }
    }

    /** One pass of the timer loop at clock reading `now`. */
    method Tick(now: int)
      modifies this
      ensures elapsedTime == if isMemorizing then now - startTime else old(elapsedTime)
      ensures sequence == old(sequence) && input == old(input) && startTime == old(startTime)
      ensures isMemorizing == old(isMemorizing) && showResult == old(showResult)
      ensures showInstructions == old(showInstructions) && bestScores == old(bestScores)
      ensures lastScore == old(lastScore) && preferences == old(preferences)
    {
      if isMemorizing {
        elapsedTime := now - startTime;
      }
    }

    /**
     * The timer effect, started at clock reading `now` when `isMemorizing`
     * changes, then looping with one pass per reading in `readings` for as
     * long as the player is memorizing. `trace` holds the elapsed time each
     * pass shows.
     */
    method RunTimer(now: int, readings: seq<int>) returns (trace: seq<int>)
      modifies this
      ensures startTime == if old(isMemorizing) then now else old(startTime)
      ensures |trace| == if isMemorizing then |readings| else 0
      ensures forall i :: 0 <= i < |trace| ==> trace[i] == readings[i] - startTime
      ensures elapsedTime == if |trace| > 0 then trace[|trace| - 1] else old(elapsedTime)
      ensures (forall i, j :: 0 <= i <= j < |readings| ==> readings[i] <= readings[j]) ==>
        forall i, j :: 0 <= i <= j < |trace| ==> trace[i] <= trace[j]
      ensures sequence == old(sequence) && input == old(input)
      ensures isMemorizing == old(isMemorizing) && showResult == old(showResult)
      ensures showInstructions == old(showInstructions) && bestScores == old(bestScores)
      ensures lastScore == old(lastScore) && preferences == old(preferences)
    {
      trace := [];
      if isMemorizing {
        startTime := now;
        var i := 0;
        while i < |readings| && isMemorizing
          invariant 0 <= i <= |readings| && isMemorizing
          invariant startTime == now
          invariant |trace| == i
          invariant forall j :: 0 <= j < i ==> trace[j] == readings[j] - startTime
          invariant elapsedTime == if i > 0 then trace[i - 1] else old(elapsedTime)
          invariant sequence == old(sequence) && input == old(input)
          invariant showResult == old(showResult) && showInstructions == old(showInstructions)
          invariant bestScores == old(bestScores) && lastScore == old(lastScore)
          invariant preferences == old(preferences)
          decreases |readings| - i
        {
          Tick(readings[i]);
          trace := trace + [elapsedTime];
          i := i + 1;
        }
      }
    }

    /** The home icon, outside the instructions: back to the instructions. */
    method GoHome()
      modifies this
      ensures showInstructions && Phase() == Instructions
      ensures sequence == old(sequence) && input == old(input) && startTime == old(startTime)
      ensures elapsedTime == old(elapsedTime) && isMemorizing == old(isMemorizing)
      ensures showResult == old(showResult) && bestScores == old(bestScores)
      ensures lastScore == old(lastScore) && preferences == old(preferences)
    {
      showInstructions := true;
    }

    /** The answer field, shown only while recalling, set to `value`. */
    method EditInput(value: string)
      modifies this
      ensures input == if old(Phase()) == Recall then value else old(input)
      ensures sequence == old(sequence) && startTime == old(startTime)
      ensures elapsedTime == old(elapsedTime) && isMemorizing == old(isMemorizing)
      ensures showResult == old(showResult) && showInstructions == old(showInstructions)
      ensures bestScores == old(bestScores)
      ensures lastScore == old(lastScore) && preferences == old(preferences)
    {
      if Phase() == Recall {
        input := value;
      }
    }

    /** The "Reset Best Scores" button, shown only with the instructions. */
    method ResetBestScores()
      modifies this
      ensures old(showInstructions) ==> bestScores == map[] && preferences == ClearBestScores(old(preferences))
      ensures !old(showInstructions) ==> bestScores == old(bestScores) && preferences == old(preferences)
      ensures sequence == old(sequence) && input == old(input) && startTime == old(startTime)
      ensures elapsedTime == old(elapsedTime) && isMemorizing == old(isMemorizing)
      ensures showResult == old(showResult) && showInstructions == old(showInstructions)
      ensures lastScore == old(lastScore)
      ensures old(Persisted()) ==> Persisted()
    {
      if showInstructions {
        bestScores := map[];
        preferences := ClearBestScores(preferences);
      }
    }
  }


  /**
   * Pressing the home icon on the result screen and tapping again leaves
   * both the result and memorizing flags set: the screen draws the
   * memorization view while the next tap is handled as a tap on the result
   * screen, which draws another sequence.
   */
  method HomeFromResult(draws: seq<int>, next: seq<int>, stored: Store) returns (app: MemoryTrainingApp)
    requires |draws| == SequenceLength && AreDigitDraws(draws)
    requires |next| == SequenceLength && AreDigitDraws(next)
    ensures app.Valid() && app.showResult && app.isMemorizing
    ensures app.Screen() == Memorize && app.Phase() == Result
    ensures app.sequence == GenerateRandomSequence(draws)
  {
    app := new MemoryTrainingApp(draws, stored);
    app.Tap(1000, next);
    app.Tap(4000, next);
    app.Tap(9000, next);
    app.GoHome();
    app.Tap(12000, next);
  }
}
