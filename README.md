# Code Memory: the game logic of `MemoryTrainingApp`

Code Memory is a one-screen Android memory exercise. The player taps to see
sixteen random digits and memorizes them against a running clock. Tapping
again hides them, so the player can type them back. A last tap scores the
answer. The app keeps, for every count of correctly placed digits, the
shortest time ever taken, and stores it in the app's "memory_training"
preferences file under the key `best_score_<count>`.

This project models that logic in Dafny and proves properties of it. It
covers the following, all from `MainActivity.kt`:

- the state the composable keeps;
- the tap handler and its four phases;
- the home icon, the reset button and the answer field;
- the timer effect;
- the scoring expressions and the green/red marks of the result screen;
- the sequence generator;
- the save, load and clear functions of the best-score file.

Modules, one per component:

- `Wrappers`: `Option`, and `Pick`, which chooses an element of a set. Iterating over a map visits its entries in this unspecified order.
- `Decimal`: Kotlin's `Int`, `Int.toString()` and `String.toIntOrNull()`, restricted to ASCII digits with an optional sign.
- `SequenceGenerator`: `generateRandomSequence`. The sixteen draws of `Random.nextInt(0, 10)` are a parameter.
- `Scorer`: the `zip`/`count` score, `padEnd`, and the per-position colour test.
- `Ledger`: the best-score rule as a function on the ledger map.
- `Preferences`: the key format and the `saveBestScores`, `loadBestScores` and `clearBestScores` functions.
  - The preferences file is a `map<string, PrefValue>`.
  - `PrefValue` is either a Long, which is what the ledger writes, or any other type, which loading skips.
  - Saving and loading are loops over the map, as in the source.
- `MemoryTraining`: the class `MemoryTrainingApp`.
  - Its fields are the composable's state variables, plus the preferences file.
  - Each event is a method: `Tap`, `Tick`, `RunTimer`, `GoHome`, `EditInput` and `ResetBestScores`.
  - The clock reading of an event and the random draws are parameters of that method.

The main results:

- The session:
  - A tap in each phase changes exactly the fields it does in the source.
  - The sequence always stays sixteen digits.
  - A tap that records a best time also writes the whole ledger to the file, so the ledger and the file stay in agreement once they agree.
- The score equals the number of positions where the answer and the sequence hold the same character. On the result screen, a position is green exactly when it is one of those positions, padding is never green, and the number of green positions is the score.
- The ledger rule:
  - It changes the map exactly when the count is positive and the time is new or strictly shorter.
  - It touches no other count and never raises an entry.
  - A count of zero never creates an entry.
  - The entry is the minimum time over any series of results.
- Each saved count is written under its own key, and what loading reads back from that key is the count itself.
- Loading a file that holds the saved ledger gives back exactly that ledger, provided its other entries are not score records.
- Loading after a clear gives an empty ledger.

Loading visits the file's entries in an unspecified order. Distinct keys can
name the same count: "best_score_4", "best_score_04" and "best_score_+4" all
read as 4. So `LoadBestScores` is specified by the relation `LoadedInto`.
Under `LoadedInto`:

- every count some score record names gets the time of one such record;
- every other entry is kept.

## Behaviour worth knowing

- The timer loop runs only while `isMemorizing` (lines 69-77).
  - So `elapsedTime` is frozen once the player taps to recall, and `lastScore` is the memorizing time (line 110).
- The tap from the instructions only clears `showInstructions` and sets `isMemorizing` and `startTime` (lines 92-96).
  - It draws no new sequence: the one drawn at start-up (line 46), or the previous round's, is kept along with its input.
  - Only the tap from the result draws a new sequence and clears the input (lines 98-101).
  - No tap resets `elapsedTime`. It keeps its old value until the timer's first pass.
- The phase is three flags, and they can be in a state that none of the four phases describes.
  - The home icon sets only `showInstructions` (line 287). Pressed on the result screen, it leaves `showResult` set, so the next tap sets `isMemorizing` as well.
  - The screen then draws the memorization view, because the drawing code tests `isMemorizing` first (line 211). The tap handler treats the next tap as a tap on the result screen, because the `when` tests `showResult` first (line 97), and that tap draws a new sequence.
  - `HomeFromResult` exhibits this state, and `ScreenMatchesTap` says exactly when drawing and handling agree.
- Loading accepts any `Int` after the prefix: 0, negative numbers, a leading `+` and leading zeros (line 316; `ToIntOrNullExactly`, `ParseScoreKeyExactly`).
  - So a file can put an entry for zero correct digits into the ledger (`LoadReadsAnyInt`, `LoadCanGiveZeroCount`).
  - The tap handler itself never creates one.
- Position 9 of "9876000000000000" and of "9876543210123456" both hold '0', so that answer scores 5, not just the four leading digits (line 109; `ExampleScoresFive`).

## Model

| member | source | states |
|---|---|---|
| `Decimal.IntToString` | app/src/main/java/com/example/myapplication/MainActivity.kt:306 | `Int.toString()` is non-empty, a '-' followed by digits for negative numbers, and digits otherwise |
| `Decimal.ToIntOrNullExactly` | app/src/main/java/com/example/myapplication/MainActivity.kt:316 | `toIntOrNull` gives `n` exactly for the numerals of `n`: an optional '+' (or '-', required when `n` is negative and allowed when it is 0), any number of leading zeros, then the digits of `n`'s magnitude |
| `Decimal.ParseNumeral` | app/src/main/java/com/example/myapplication/MainActivity.kt:316 | Every such numeral parses as its value, whether or not it fits an `Int` |
| `Decimal.ParsedIsNumeral` | app/src/main/java/com/example/myapplication/MainActivity.kt:316 | Every text the parser accepts is such a numeral of the value it gives |
| `Decimal.LeadingZerosValue` | app/src/main/java/com/example/myapplication/MainActivity.kt:316 | Leading zeros do not change the value of a digit string |
| `Decimal.CanonicalDigits` | app/src/main/java/com/example/myapplication/MainActivity.kt:316 | A digit string without leading zeros is the printed form of its value |
| `Decimal.SplitLeadingZeros` | app/src/main/java/com/example/myapplication/MainActivity.kt:316 | Every non-empty digit string is some zeros followed by the printed form of its value |
| `Decimal.NatToStringRoundTrip` | app/src/main/java/com/example/myapplication/MainActivity.kt:306 | The digits printed for a natural number read back as that number |
| `Decimal.ParseDecimalRoundTrip` | app/src/main/java/com/example/myapplication/MainActivity.kt:306 | Parsing the printed form of any integer, negative ones included, gives that integer |
| `Decimal.ToIntOrNullRoundTrip` | app/src/main/java/com/example/myapplication/MainActivity.kt:316 | `toIntOrNull` gives back every `Int` that `toString` printed |
| `Decimal.IntToStringInjective` | app/src/main/java/com/example/myapplication/MainActivity.kt:306 | Distinct integers print as distinct text |
| `SequenceGenerator.JoinDigits` | app/src/main/java/com/example/myapplication/MainActivity.kt:298 | Joining one-digit draws gives one digit character per draw |
| `SequenceGenerator.GenerateRandomSequence` | app/src/main/java/com/example/myapplication/MainActivity.kt:297-299 | The sequence has exactly sixteen characters, each in '0'..'9' |
| `SequenceGenerator.JoinDigitsAt` | app/src/main/java/com/example/myapplication/MainActivity.kt:298 | Character i of the sequence prints draw i |
| `SequenceGenerator.JoinDigitsRoundTrip` | app/src/main/java/com/example/myapplication/MainActivity.kt:298 | Reading the sequence's digits back gives the draws |
| `SequenceGenerator.DigitsOfRoundTrip` | app/src/main/java/com/example/myapplication/MainActivity.kt:298 | Every digit string is the join of its digits |
| `SequenceGenerator.GeneratorIsBijective` | app/src/main/java/com/example/myapplication/MainActivity.kt:297-299 | Different draws give different sequences, and every sixteen-digit string is produced by some draws |
| `Scorer.CorrectDigits` | app/src/main/java/com/example/myapplication/MainActivity.kt:109 | The count of `input.zip(sequence)` pairs that agree is at most the length of either string |
| `Scorer.CorrectDigitsFrom` | app/src/main/java/com/example/myapplication/MainActivity.kt:109 | Scoring the suffixes from position k counts the agreeing positions from k on |
| `Scorer.CorrectDigitsCountsMatches` | app/src/main/java/com/example/myapplication/MainActivity.kt:109 | The score is the number of positions below both lengths where input and sequence hold the same character |
| `Scorer.CorrectDigitsConcat` | app/src/main/java/com/example/myapplication/MainActivity.kt:249 | The score of aligned concatenations is the sum of the scores of the parts |
| `Scorer.ExampleBlocks` | app/src/main/java/com/example/myapplication/MainActivity.kt:109 | The scores of the four four-digit blocks of the worked example |
| `Scorer.ExampleScoresFive` | app/src/main/java/com/example/myapplication/MainActivity.kt:109 | "9876000000000000" against "9876543210123456" scores 5 |
| `Scorer.PadEnd` | app/src/main/java/com/example/myapplication/MainActivity.kt:225 | `padEnd(16, ' ')` is as long as the input or 16, whichever is larger, begins with the input, and holds blanks after it |
| `Scorer.ResultMarks` | app/src/main/java/com/example/myapplication/MainActivity.kt:225-236 | There is one mark per character of the padded answer row |
| `Scorer.ResultMarksAgreeWithScore` | app/src/main/java/com/example/myapplication/MainActivity.kt:225-236 | Against a digit sequence, position i is green iff i is within the input and the sequence and the characters agree. Padding is never green. The number of green positions equals the score of line 249 |
| `Ledger.IsImprovement` | app/src/main/java/com/example/myapplication/MainActivity.kt:111 | The guard holds exactly when the count is positive and the new time would change the count's best (minimum) time, or there is none yet |
| `Ledger.RecordIfBest` | app/src/main/java/com/example/myapplication/MainActivity.kt:111-114 | The map changes iff the count is positive and the entry is absent or strictly longer. The count's entry becomes the minimum of old and new. No other count is touched. No entry increases. A count of 0 adds no key |
| `Ledger.RecordAllKeepsMinimum` | app/src/main/java/com/example/myapplication/MainActivity.kt:111-112 | After any series of results with the same positive count, that count's entry is the minimum of its old value and all their times, and the other entries are unchanged |
| `Ledger.RecordAllZeroCount` | app/src/main/java/com/example/myapplication/MainActivity.kt:111 | Results with count 0 never change the ledger |
| `Preferences.ScoreKey` | app/src/main/java/com/example/myapplication/MainActivity.kt:306 | The key `"best_score_$digits"` begins with the prefix and has text after it |
| `Preferences.ParseScoreKey` | app/src/main/java/com/example/myapplication/MainActivity.kt:315-316 | A key is read as a count only if it begins with the prefix and has text after it |
| `Preferences.ParseScoreKeyExactly` | app/src/main/java/com/example/myapplication/MainActivity.kt:315-316 | Loading reads a key as the count `n` exactly when it is the prefix followed by a numeral of `n` |
| `Preferences.ScoreKeyRoundTrip` | app/src/main/java/com/example/myapplication/MainActivity.kt:315-316 | Loading's prefix test and `toIntOrNull` read the key "best_score_$digits" back as `digits` |
| `Preferences.ScoreKeyInjective` | app/src/main/java/com/example/myapplication/MainActivity.kt:306 | Distinct counts are written under distinct keys |
| `Preferences.ScoreKeysInjective` | app/src/main/java/com/example/myapplication/MainActivity.kt:306 | No two counts share a key |
| `Preferences.SavedStoreContents` | app/src/main/java/com/example/myapplication/MainActivity.kt:302-309 | After saving, the file has its old keys plus one key per ledger entry. Each count's key holds its time as a Long. Every other key keeps its value |
| `Preferences.WrittenEntriesContents` | app/src/main/java/com/example/myapplication/MainActivity.kt:305-307 | The editor's puts are one entry per count, under that count's key, holding its time as a Long |
| `Preferences.SavedStoreHoldsLedger` | app/src/main/java/com/example/myapplication/MainActivity.kt:305-307 | Every ledger entry can be read from the saved file under its key |
| `Preferences.SavedStoreUnique` | app/src/main/java/com/example/myapplication/MainActivity.kt:302-309 | A file with the keys and values of a saved file is that saved file |
| `Preferences.SavedStoreStep` | app/src/main/java/com/example/myapplication/MainActivity.kt:306 | Saving a ledger and then putting one more count gives the same file as saving the larger ledger |
| `Preferences.SavedStoreNothing` | app/src/main/java/com/example/myapplication/MainActivity.kt:302-309 | Saving an empty ledger leaves the file unchanged |
| `Preferences.SaveBestScores` | app/src/main/java/com/example/myapplication/MainActivity.kt:302-309 | The editor loop over the ledger, in any order, produces the saved file |
| `Preferences.LoadedIntoStep` | app/src/main/java/com/example/myapplication/MainActivity.kt:314-320 | Visiting one more entry keeps the loading relation. Score records set their count; other entries change nothing |
| `Preferences.LoadBestScores` | app/src/main/java/com/example/myapplication/MainActivity.kt:312-322 | The ledger after loading holds exactly the old counts plus the counts named by score records. Each loaded count has the time of one of its records, and every other entry is kept |
| `Preferences.ClearBestScores` | app/src/main/java/com/example/myapplication/MainActivity.kt:325-328 | The cleared file is empty |
| `Preferences.SavedCountsLoad` | app/src/main/java/com/example/myapplication/MainActivity.kt:315-318 | Every count of a saved ledger has a score record in the saved file holding its time |
| `Preferences.SavedRecordIsEntry` | app/src/main/java/com/example/myapplication/MainActivity.kt:315-318 | When the rest of the file has no score records, every score record of the saved file is the record of a ledger entry, with that entry's time |
| `Preferences.LoadFindsSavedCounts` | app/src/main/java/com/example/myapplication/MainActivity.kt:312-322 | Loading a saved file finds every saved count |
| `Preferences.LoadFindsOnlySavedCounts` | app/src/main/java/com/example/myapplication/MainActivity.kt:312-322 | Loading a saved file, whose other entries are not score records, yields only saved counts with their saved times |
| `Preferences.LoadAfterSave` | app/src/main/java/com/example/myapplication/MainActivity.kt:302-322 | Save, then load into an empty ledger, gives back the ledger, provided the file's other entries are not score records |
| `Preferences.LoadReadsAnyInt` | app/src/main/java/com/example/myapplication/MainActivity.kt:315-317 | Loading reads "best_score_0", "best_score_-3", "best_score_04" and "best_score_+4" as 0, -3, 4 and 4, and rejects "best_score_" and "best_score_x" |
| `Preferences.LoadCanGiveZeroCount` | app/src/main/java/com/example/myapplication/MainActivity.kt:312-322 | A file holding only "best_score_0" loads as a ledger whose only entry is for zero digits |
| `Preferences.LoadAfterClear` | app/src/main/java/com/example/myapplication/MainActivity.kt:312-328 | Loading after a clear gives an empty ledger |
| `MemoryTraining.TapPhase` | app/src/main/java/com/example/myapplication/MainActivity.kt:91-116 | In the tap handler, the first flag set wins: instructions, then result, then memorizing. Recall only when none is set |
| `MemoryTraining.ScreenPhase` | app/src/main/java/com/example/myapplication/MainActivity.kt:120-256 | On screen, instructions win, then the memorization view, then the result view. Recall only when no flag is set |
| `MemoryTraining.ScreenMatchesTap` | app/src/main/java/com/example/myapplication/MainActivity.kt:211-222 | Screen and tap handler agree iff result and memorizing are not both set outside the instructions |
| `MemoryTraining.MemoryTrainingApp.Correct` | app/src/main/java/com/example/myapplication/MainActivity.kt:249 | The result screen's `correctDigits` is between 0 and 16 and counts the agreeing positions |
| `MemoryTraining.MemoryTrainingApp.BestTimeShown` | app/src/main/java/com/example/myapplication/MainActivity.kt:249-255 | A best time is shown iff the ledger has an entry for the score, and it is that entry. After a recall tap (`FinishRecall`, `Tap`) it is always shown for a positive score, no longer than `lastScore`, and equal to it when the result improved the ledger |
| `MemoryTraining.MemoryTrainingApp.constructor` | app/src/main/java/com/example/myapplication/MainActivity.kt:46-66 | Initial state: a sixteen-digit sequence from the draws, empty input, zero times, instructions shown, and the ledger loaded from the file |
| `MemoryTraining.MemoryTrainingApp.Tap` | app/src/main/java/com/example/myapplication/MainActivity.kt:90-117 | One clause per phase; each gives the whole new state (below). Every branch keeps the sequence sixteen digits, leaves `elapsedTime` alone, and keeps the file holding the ledger if it did |
| `MemoryTraining.MemoryTrainingApp.FinishRecall` | app/src/main/java/com/example/myapplication/MainActivity.kt:107-115 | Shows the result and sets `lastScore` to `elapsedTime`. The ledger becomes `RecordIfBest` of the score. The file is the saved ledger iff the result improved it, and is untouched otherwise. For a positive score the result screen then shows a best time no longer than `lastScore`, equal to it on an improvement; without an improvement the best time shown is the one from before |
| `MemoryTraining.MemoryTrainingApp.Tick` | app/src/main/java/com/example/myapplication/MainActivity.kt:72-75 | While memorizing, `elapsedTime` becomes `now - startTime`. Otherwise nothing changes |
| `MemoryTraining.MemoryTrainingApp.RunTimer` | app/src/main/java/com/example/myapplication/MainActivity.kt:69-77 | If memorizing, `startTime` becomes the start reading and each pass shows reading minus `startTime`. The last pass's value stays. With non-decreasing readings the shown times never decrease. Not memorizing: no pass runs |
| `MemoryTraining.MemoryTrainingApp.GoHome` | app/src/main/java/com/example/myapplication/MainActivity.kt:286-288 | Only `showInstructions` changes, to true |
| `MemoryTraining.MemoryTrainingApp.EditInput` | app/src/main/java/com/example/myapplication/MainActivity.kt:258-260 | The answer becomes the edited text while recalling. In any other phase the field is absent and nothing changes |
| `MemoryTraining.MemoryTrainingApp.ResetBestScores` | app/src/main/java/com/example/myapplication/MainActivity.kt:151-155 | With the instructions shown, both the ledger and the file become empty. Otherwise the button is absent and nothing changes |
| `MemoryTraining.HomeFromResult` | app/src/main/java/com/example/myapplication/MainActivity.kt:90-117 | Instructions, four taps and a home press in between reach a state with result and memorizing both set. There the screen shows memorization while taps act as on the result screen |

`Tap`'s clauses, one per phase:

- From the instructions:
  - It clears `showInstructions`, sets `isMemorizing` and sets `startTime := now`.
  - The sequence, input, ledger, `lastScore` and file are unchanged.
  - The next phase is Memorize, or Result if `showResult` was left set.
- From the result:
  - It installs the new sequence, empties the input, clears `showResult`, sets `isMemorizing` and sets `startTime := now`.
  - The next phase is Memorize.
- From memorizing:
  - It clears only `isMemorizing`.
  - The next phase is Recall.
- From recall: as `FinishRecall`.

## Left out

- Compose layout and rendering are not modelled: text, fonts, colours, the grid of best scores with its `sortedBy`/`take(16)`, the icon, and the focus requester. They are presentation only. The colour test and the order in which the flags are drawn are modelled.
- The `LaunchedEffect` coroutines and `delay(1)` are not modelled as concurrency.
  - The timer effect is `RunTimer`, which sets the start time and then makes one `Tick` per clock reading given.
  - A tap that stops memorizing comes between two such calls, which stands for the point where the loop sees `isMemorizing` become false.
  - The start-up load effect runs inside the constructor.
- `System.currentTimeMillis()` is a parameter (`now`, `readings`).
- `kotlin.random.Random` is a parameter: the sixteen draws, each in 0..9.
- `Context`, `getSharedPreferences` and the asynchronous `editor.apply()` are not modelled as I/O.
  - The file is a map held in the app object.
  - Each save or clear takes effect at once and completely.
  - Storage failures are not modelled.
- `Long` overflow of times is not modelled: times are unbounded integers. Only the counts, which are `Int`, are modelled as 32-bit values.
- `toIntOrNull` is modelled only for an optional '+' or '-' sign followed by ASCII digits. Kotlin also accepts other Unicode decimal digits.
- Strings are sequences of Unicode scalar values, while Kotlin's `Char` is a UTF-16 code unit. `zip`, `padEnd(16, ' ')`, `forEachIndexed` and `sequence[index]` step by code unit (lines 109, 225-226, 249). An answer holding a character outside the Basic Multilingual Plane (one pasted into the field, say) is one position here and two in the app. The model's score, padding and marks are therefore shifted after such a character. For digit-only answers the two agree.
- `MainActivity.onCreate` and `DefaultPreview` are app bootstrapping.
- `Preferences.LoadBestScores`: when several keys name the same count, which record's time wins depends on the map's iteration order. The contract says only that it is one of those records' times.
