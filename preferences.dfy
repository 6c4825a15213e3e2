/**
 * Persistence of the ledger in the app's "memory_training" preferences file:
 * one Long entry under the key "best_score_<count>" per ledger entry
 * (`saveBestScores`), read back by keeping every Long entry whose key has
 * that prefix and an `Int` after it (`loadBestScores`), and wiped as a whole
 * (`clearBestScores`). The file is modelled as a map from key to value.
 */
module Preferences {
  import opened Wrappers
  import opened Decimal

  /**
   * A stored preference value. Only the type the ledger writes, Long,
   * carries a value here; every other type a preference can hold (Int,
   * String, Boolean, Float, string set) is one case, as loading skips them all.
   */
  datatype PrefValue = LongPref(long: int) | NonLongPref

  type Store = map<string, PrefValue>

  const KeyPrefix: string := "best_score_"

  /** `"best_score_$digits"`. */
  function ScoreKey(digits: Int32): (key: string)
    ensures |key| > |KeyPrefix| && key[..|KeyPrefix|] == KeyPrefix
  {
    KeyPrefix + IntToString(digits as int)
  }

  /** `key.startsWith("best_score_")`, then `removePrefix(...).toIntOrNull()`. */
  function ParseScoreKey(key: string): (r: Option<Int32>)
    ensures r.Some? ==> |key| > |KeyPrefix| && key[..|KeyPrefix|] == KeyPrefix
  {
    if |key| >= |KeyPrefix| && key[..|KeyPrefix|] == KeyPrefix then ToIntOrNull(key[|KeyPrefix|..])
    else None
  }

  /** Reading a key written for an `Int` count gives the count back. */
  lemma ScoreKeyRoundTrip(digits: Int32)
    ensures ParseScoreKey(ScoreKey(digits)) == Some(digits)
  {
    assert ScoreKey(digits)[|KeyPrefix|..] == IntToString(digits as int);
    ToIntOrNullRoundTrip(digits);
  }

  /**
   * Loading reads a key as the count `n` exactly when it is the prefix
   * followed by a numeral of `n`.
   */
  lemma ParseScoreKeyExactly(key: string, n: Int32)
    ensures ParseScoreKey(key) == Some(n) <==>
      |key| >= |KeyPrefix| && key[..|KeyPrefix|] == KeyPrefix && IsNumeralOf(key[|KeyPrefix|..], n as int)
  {
    if |key| >= |KeyPrefix| && key[..|KeyPrefix|] == KeyPrefix {
      ToIntOrNullExactly(key[|KeyPrefix|..], n);
    }
  }

  /** Different counts are written under different keys. */
  lemma ScoreKeyInjective(a: Int32, b: Int32)
    ensures ScoreKey(a) == ScoreKey(b) ==> a == b
  {
    if ScoreKey(a) == ScoreKey(b) {
      assert IntToString(a as int) == ScoreKey(a)[|KeyPrefix|..];
      assert IntToString(b as int) == ScoreKey(b)[|KeyPrefix|..];
      IntToStringInjective(a as int, b as int);
    }
  }

  lemma ScoreKeysInjective()
    ensures forall a, b :: ScoreKey(a) == ScoreKey(b) ==> a == b
  {
    forall a, b ensures ScoreKey(a) == ScoreKey(b) ==> a == b {
      ScoreKeyInjective(a, b);
    }
  }

  /** An entry that loading turns into a ledger entry. */
  predicate IsScoreRecord(store: Store, key: string)
    requires key in store
  {
    store[key].LongPref? && ParseScoreKey(key).Some?
  }

  /** The keys saving writes. */
  function SavedKeys(scores: map<Int32, int>): set<string>
  {
    set n | n in scores :: ScoreKey(n)
  }

  /** The entries saving puts: each count's time as a Long under its key. */
  function WrittenEntries(scores: map<Int32, int>): Store
  {
    ScoreKeysInjective();
    map n | n in scores :: ScoreKey(n) := LongPref(scores[n])
  }

  /** The preferences after `saveBestScores`: every entry put as a Long, the rest kept. */
  function SavedStore(store: Store, scores: map<Int32, int>): Store
  {
    store + WrittenEntries(scores)
  }

  /**
   * After saving, the file holds the old keys and one key per count; each
   * count's key holds its time as a Long, and every other key is unchanged.
   */
  lemma SavedStoreContents(store: Store, scores: map<Int32, int>)
    ensures SavedStore(store, scores).Keys == store.Keys + SavedKeys(scores)
    ensures forall n :: n in scores ==> SavedStore(store, scores)[ScoreKey(n)] == LongPref(scores[n])
    ensures forall k :: k in store && k !in SavedKeys(scores) ==> SavedStore(store, scores)[k] == store[k]
  {
    WrittenEntriesContents(scores);
  }

  /** The entries saving puts are one per count, each holding that count's time. */
  lemma WrittenEntriesContents(scores: map<Int32, int>)
    ensures WrittenEntries(scores).Keys == SavedKeys(scores)
    ensures forall n :: n in scores ==> WrittenEntries(scores)[ScoreKey(n)] == LongPref(scores[n])
  {
    ScoreKeysInjective();
  }

  /** After saving, every ledger entry can be read under its key. */
  lemma SavedStoreHoldsLedger(store: Store, scores: map<Int32, int>)
    ensures forall n :: n in scores ==>
      ScoreKey(n) in SavedStore(store, scores) && SavedStore(store, scores)[ScoreKey(n)] == LongPref(scores[n])
  {
    SavedStoreContents(store, scores);
    assert forall n :: n in scores ==> ScoreKey(n) in SavedKeys(scores);
  }

  lemma SavedKeysStep(scores: map<Int32, int>, n: Int32, t: int)
    ensures SavedKeys(scores[n := t]) == SavedKeys(scores) + {ScoreKey(n)}
  {
    forall k | k in SavedKeys(scores[n := t]) ensures k in SavedKeys(scores) || k == ScoreKey(n) {
      var m :| m in scores[n := t] && k == ScoreKey(m);
      if m != n {
        assert m in scores;
      }
    }
    forall k | k in SavedKeys(scores) ensures k in SavedKeys(scores[n := t]) {
      var m :| m in scores && k == ScoreKey(m);
      assert m in scores[n := t];
    }
  }

  /** A store with the keys and values of `SavedStore` is `SavedStore`. */
  lemma SavedStoreUnique(store: Store, scores: map<Int32, int>, r: Store)
    requires r.Keys == store.Keys + SavedKeys(scores)
    requires forall n :: n in scores ==> r[ScoreKey(n)] == LongPref(scores[n])
    requires forall k :: k in store && k !in SavedKeys(scores) ==> r[k] == store[k]
    ensures r == SavedStore(store, scores)
  {
    var s := SavedStore(store, scores);
    SavedStoreContents(store, scores);
    forall k | k in r ensures r[k] == s[k] {
      if k in SavedKeys(scores) {
        var m :| m in scores && k == ScoreKey(m);
      }
    }
  }

  /** The store after saving `scores` and then putting one more count `n`. */
  function SavedThenPut(store: Store, scores: map<Int32, int>, n: Int32, t: int): Store
  {
    SavedStore(store, scores)[ScoreKey(n) := LongPref(t)]
  }

  lemma SavedThenPutKeys(store: Store, scores: map<Int32, int>, n: Int32, t: int)
    ensures SavedThenPut(store, scores, n, t).Keys == store.Keys + SavedKeys(scores[n := t])
  {
    SavedStoreContents(store, scores);
    SavedKeysStep(scores, n, t);
  }

  lemma SavedThenPutValues(store: Store, scores: map<Int32, int>, n: Int32, t: int)
    ensures forall m :: m in scores[n := t] ==> SavedThenPut(store, scores, n, t)[ScoreKey(m)] == LongPref(scores[n := t][m])
  {
    var r := SavedThenPut(store, scores, n, t);
    SavedStoreContents(store, scores);
    forall m | m in scores[n := t] ensures r[ScoreKey(m)] == LongPref(scores[n := t][m]) {
      if m != n {
        ScoreKeyInjective(m, n);
      }
    }
  }

  lemma SavedThenPutKept(store: Store, scores: map<Int32, int>, n: Int32, t: int)
    ensures forall k :: k in store && k !in SavedKeys(scores[n := t]) ==> SavedThenPut(store, scores, n, t)[k] == store[k]
  {
    SavedStoreContents(store, scores);
    SavedKeysStep(scores, n, t);
  }

  /** Saving one more entry. */
  lemma SavedStoreStep(store: Store, scores: map<Int32, int>, n: Int32, t: int)
    ensures SavedThenPut(store, scores, n, t) == SavedStore(store, scores[n := t])
  {
    SavedThenPutKeys(store, scores, n, t);
    SavedThenPutValues(store, scores, n, t);
    SavedThenPutKept(store, scores, n, t);
    SavedStoreUnique(store, scores[n := t], SavedThenPut(store, scores, n, t));
  }

  /** Saving an empty ledger writes nothing. */
  lemma SavedStoreNothing(store: Store)
    ensures SavedStore(store, map[]) == store
  {
    var none: map<Int32, int> := map[];
    assert WrittenEntries(none) == map[];
  }

  /**
   * Part way through saving: the counts in `put` have been written, those
   * in `remaining` have not.
   */
  ghost predicate SaveProgress(store: Store, scores: map<Int32, int>, put: map<Int32, int>,
                               remaining: set<Int32>, saved: Store)
  {
    && put.Keys <= scores.Keys
    && remaining == scores.Keys - put.Keys
    && (forall n :: n in put ==> put[n] == scores[n])
    && saved == SavedStore(store, put)
  }

  lemma SaveProgressStart(store: Store, scores: map<Int32, int>)
    ensures SaveProgress(store, scores, map[], scores.Keys, store)
  {
    var none: map<Int32, int> := map[];
    SavedStoreNothing(store);
    assert scores.Keys - none.Keys == scores.Keys;
  }

  lemma SaveProgressStep(store: Store, scores: map<Int32, int>, put: map<Int32, int>,
                         remaining: set<Int32>, saved: Store, n: Int32)
    requires SaveProgress(store, scores, put, remaining, saved) && n in remaining
    ensures SaveProgress(store, scores, put[n := scores[n]], remaining - {n},
                         saved[ScoreKey(n) := LongPref(scores[n])])
  {
    SavedStoreStep(store, put, n, scores[n]);
    assert remaining - {n} == scores.Keys - put[n := scores[n]].Keys;
  }

  lemma SaveProgressEnd(store: Store, scores: map<Int32, int>, put: map<Int32, int>, saved: Store)
    requires SaveProgress(store, scores, put, {}, saved)
    ensures saved == SavedStore(store, scores)
  {
    forall n | n in scores ensures n in put && put[n] == scores[n] {
      assert n !in scores.Keys - put.Keys;
    }
    assert put == scores;
  }

  /** `saveBestScores`: an editor puts every ledger entry, then applies. */
  method SaveBestScores(store: Store, scores: map<Int32, int>) returns (saved: Store)
    ensures saved == SavedStore(store, scores)
  {
    saved := store;
    ghost var put: map<Int32, int> := map[];
    var remaining := scores.Keys;
    SaveProgressStart(store, scores);
    while remaining != {}
      invariant SaveProgress(store, scores, put, remaining, saved)
      decreases remaining
    {
      var digits := Pick(remaining);
      SaveProgressStep(store, scores, put, remaining, saved, digits);
      saved := saved[ScoreKey(digits) := LongPref(scores[digits])];
      put := put[digits := scores[digits]];
      remaining := remaining - {digits};
    }
    SaveProgressEnd(store, scores, put, saved);
  }

  /** Some score record of `store` is read as the ledger entry `n`. */
  ghost predicate IsLoadedCount(store: Store, n: Int32) {
    exists k :: k in store && IsScoreRecord(store, k) && ParseScoreKey(k) == Some(n)
  }

  /** `store` holds a score record that loads as entry `n` with time `t`. */
  ghost predicate LoadedFrom(store: Store, n: Int32, t: int) {
    exists k :: k in store && ParseScoreKey(k) == Some(n) && store[k] == LongPref(t)
  }

  /**
   * `after` is what loading `store` into `before` can give: each count some
   * score record names gets the time of one such record (which one, when
   * several keys read as the same count, depends on the iteration order of
   * the file), and every other entry of `before` is kept.
   */
  ghost predicate LoadedInto(store: Store, before: map<Int32, int>, after: map<Int32, int>) {
    && (forall n :: n in after <==> n in before || IsLoadedCount(store, n))
    && (forall n :: n in before && !IsLoadedCount(store, n) ==> after[n] == before[n])
    && (forall n :: n in after && IsLoadedCount(store, n) ==> LoadedFrom(store, n, after[n]))
  }

  /** The entries of `store` under the keys in `done`. */
  function Part(store: Store, done: set<string>): Store
  {
    map k | k in store && k in done :: store[k]
  }

  /** Loading one more entry of the file. */
  lemma LoadedIntoStep(store: Store, done: set<string>, key: string, before: map<Int32, int>, after: map<Int32, int>)
    requires key in store && key !in done
    requires LoadedInto(Part(store, done), before, after)
    ensures IsScoreRecord(store, key) ==>
      LoadedInto(Part(store, done + {key}), before, after[ParseScoreKey(key).value := store[key].long])
    ensures !IsScoreRecord(store, key) ==> LoadedInto(Part(store, done + {key}), before, after)
  {
    var old_ := Part(store, done);
    var new_ := Part(store, done + {key});
    assert forall k :: k in old_ ==> k in new_ && new_[k] == old_[k];
    forall n | IsLoadedCount(old_, n) ensures IsLoadedCount(new_, n) {
      var k :| k in old_ && IsScoreRecord(old_, k) && ParseScoreKey(k) == Some(n);
      assert k in new_ && IsScoreRecord(new_, k);
    }
    forall n, t | LoadedFrom(old_, n, t) ensures LoadedFrom(new_, n, t) {
      var k :| k in old_ && ParseScoreKey(k) == Some(n) && old_[k] == LongPref(t);
      assert k in new_;
    }
    if IsScoreRecord(store, key) {
      var digits := ParseScoreKey(key).value;
      assert key in new_ && IsScoreRecord(new_, key);
      assert IsLoadedCount(new_, digits);
      assert LoadedFrom(new_, digits, store[key].long);
      forall n | IsLoadedCount(new_, n) && n != digits ensures IsLoadedCount(old_, n) {
        var k :| k in new_ && IsScoreRecord(new_, k) && ParseScoreKey(k) == Some(n);
        assert k != key && k in old_;
      }
    } else {
      forall n | IsLoadedCount(new_, n) ensures IsLoadedCount(old_, n) {
        var k :| k in new_ && IsScoreRecord(new_, k) && ParseScoreKey(k) == Some(n);
        assert k != key && k in old_;
      }
    }
  }

  /**
   * `loadBestScores`: every entry of the file whose key starts with
   * "best_score_", whose value is a Long and whose key's remainder reads as
   * an `Int` is written into the ledger.
   */
  method LoadBestScores(store: Store, scores: map<Int32, int>) returns (loaded: map<Int32, int>)
    ensures LoadedInto(store, scores, loaded)
  {
    loaded := scores;
    var done: set<string> := {};
    var remaining := store.Keys;
    assert Part(store, done) == map[];
    while remaining != {}
      invariant remaining == store.Keys - done
      invariant LoadedInto(Part(store, done), scores, loaded)
      decreases remaining
    {
      var key := Pick(remaining);
      var value := store[key];
      LoadedIntoStep(store, done, key, scores, loaded);
      if |key| >= |KeyPrefix| && key[..|KeyPrefix|] == KeyPrefix && value.LongPref? {
        var digits := ToIntOrNull(key[|KeyPrefix|..]);
        if digits.Some? {
          loaded := loaded[digits.value := value.long];
        }
      }
      done := done + {key};
      remaining := remaining - {key};
    }
    assert Part(store, done) == store;
  }

  /** Two ledgers with the same counts and times are equal. */
  lemma SameLedger(a: map<Int32, int>, b: map<Int32, int>)
    requires forall n :: n in a <==> n in b
    requires forall n :: n in a ==> a[n] == b[n]
    ensures a == b
  {
    assert a.Keys == b.Keys;
    forall n | n in a ensures a[n] == b[n] {
    }
  }

  /** `clearBestScores`: the editor's `clear()` empties the whole file. */
  function ClearBestScores(store: Store): (r: Store)
    ensures |r| == 0
  {
    map[]
  }

  /** Every count of the saved ledger is read back from the saved file. */
  lemma SavedCountsLoad(other: Store, scores: map<Int32, int>, n: Int32)
    requires n in scores
    ensures LoadedFrom(SavedStore(other, scores), n, scores[n])
    ensures IsLoadedCount(SavedStore(other, scores), n)
  {
    var store := SavedStore(other, scores);
    SavedStoreContents(other, scores);
    ScoreKeyRoundTrip(n);
    assert ScoreKey(n) in SavedKeys(scores);
    assert ScoreKey(n) in store && IsScoreRecord(store, ScoreKey(n));
  }

  /**
   * A score record of the saved file, when the rest of the file holds none,
   * is the record of one of the ledger's counts with that count's time.
   */
  lemma SavedRecordIsEntry(other: Store, scores: map<Int32, int>, k: string, n: Int32, t: int)
    requires forall k :: k in other ==> !IsScoreRecord(other, k)
    requires k in SavedStore(other, scores) && ParseScoreKey(k) == Some(n)
    requires SavedStore(other, scores)[k] == LongPref(t)
    ensures n in scores && scores[n] == t
  {
    SavedStoreContents(other, scores);
    if k in SavedKeys(scores) {
      var m :| m in scores && k == ScoreKey(m);
      ScoreKeyRoundTrip(m);
    }
  }

  /** Loading the saved file finds every count of the saved ledger. */
  lemma LoadFindsSavedCounts(other: Store, scores: map<Int32, int>, loaded: map<Int32, int>)
    requires LoadedInto(SavedStore(other, scores), map[], loaded)
    ensures forall n :: n in scores ==> n in loaded
  {
    forall n | n in scores ensures n in loaded {
      SavedCountsLoad(other, scores, n);
    }
  }

  /** Loading the saved file, beside other entries that are not score records, invents nothing. */
  lemma LoadFindsOnlySavedCounts(other: Store, scores: map<Int32, int>, loaded: map<Int32, int>)
    requires forall k :: k in other ==> !IsScoreRecord(other, k)
    requires LoadedInto(SavedStore(other, scores), map[], loaded)
    ensures forall n :: n in loaded ==> n in scores && loaded[n] == scores[n]
  {
    var store := SavedStore(other, scores);
    forall n | n in loaded ensures n in scores && loaded[n] == scores[n] {
      var k :| k in store && ParseScoreKey(k) == Some(n) && store[k] == LongPref(loaded[n]);
      SavedRecordIsEntry(other, scores, k, n, loaded[n]);
    }
  }

  /**
   * Loading a file that holds the saved ledger, beside entries that are
   * not score records, into an empty ledger gives back the saved ledger.
   */
  lemma LoadAfterSave(other: Store, scores: map<Int32, int>, loaded: map<Int32, int>)
    requires forall k :: k in other ==> !IsScoreRecord(other, k)
    requires LoadedInto(SavedStore(other, scores), map[], loaded)
    ensures loaded == scores
  {
    LoadFindsSavedCounts(other, scores, loaded);
    LoadFindsOnlySavedCounts(other, scores, loaded);
    SameLedger(loaded, scores);
  }

  /**
   * Loading reads any `Int` after the prefix, including zero, negative
   * counts, a '+' sign and leading zeros, none of which saving writes.
   */
  lemma LoadReadsAnyInt()
    ensures ParseScoreKey("best_score_0") == Some(0)
    ensures ParseScoreKey("best_score_-3") == Some(-3)
    ensures ParseScoreKey("best_score_04") == Some(4) && ParseScoreKey("best_score_+4") == Some(4)
    ensures ParseScoreKey("best_score_") == None && ParseScoreKey("best_score_x") == None
  {
    assert "best_score_0"[..|KeyPrefix|] == KeyPrefix && "best_score_0"[|KeyPrefix|..] == "0";
    assert "0"[..0] == "" && DigitsValue("0") == 0;
    assert "best_score_-3"[|KeyPrefix|..] == "-3" && "-3"[1..] == "3";
    assert "best_score_04"[|KeyPrefix|..] == "04" && "04"[..1] == "0";
    assert "best_score_+4"[|KeyPrefix|..] == "+4" && "+4"[1..] == "4";
    assert "best_score_"[|KeyPrefix|..] == "";
    assert "best_score_x"[|KeyPrefix|..] == "x";
  }

  /** A file holding "best_score_0" as a Long loads an entry for zero correct digits. */
  lemma LoadCanGiveZeroCount(t: int, loaded: map<Int32, int>)
    requires LoadedInto(map["best_score_0" := LongPref(t)], map[], loaded)
    ensures loaded == map[0 := t]
  {
    var store := map["best_score_0" := LongPref(t)];
    LoadReadsAnyInt();
    assert IsScoreRecord(store, "best_score_0");
    assert IsLoadedCount(store, 0);
    forall n | n in loaded ensures n == 0 && loaded[n] == t {
      var k :| k in store && ParseScoreKey(k) == Some(n) && store[k] == LongPref(loaded[n]);
    }
    SameLedger(loaded, map[0 := t]);
  }

  /** After a clear, loading gives an empty ledger. */
  lemma LoadAfterClear(store: Store, loaded: map<Int32, int>)
    requires LoadedInto(ClearBestScores(store), map[], loaded)
    ensures loaded == map[]
  {
    forall n ensures n !in loaded {
      assert !IsLoadedCount(ClearBestScores(store), n);
    }
    SameLedger(loaded, map[]);
  }
}
