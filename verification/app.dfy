/** The "Trenuj dzień" button (app.py:119-122): a training run followed by recording it. */
module App {
  import opened Common
  import opened AudioCache
  import opened Sampling
  import opened Training
  import opened Progress

  /** What one click leaves behind: the run's outcome, the new progress record and the cache. */
  datatype Click = Click(run: Result<seq<Step>, TrainingError>, progress: Progress, cache: Cache)

  /**
   A click on the training button of `day`. As the code is written, the run is recorded even when
   `run_training` rejected the day: it returns early at app.py:58 and app.py:121 still executes.
   The model keeps that behaviour.
   */
  function TrainClick(env: Env, progress: Progress, cache: Cache, day: DayKey, words: seq<Word>,
                      perm: seq<nat>): (r: Click)
    requires |words| == WordsPerDay ==> IsPermutation(perm, |words|)
    ensures r.run.Err? <==> |words| != WordsPerDay
    ensures r.run.Err? ==> r.run.error == WrongWordCount(day, |words|) && r.cache == cache
    ensures Completed(r.progress, day) == Completed(progress, day) + 1
    ensures forall e :: e != day ==> Completed(r.progress, e) == Completed(progress, e)
    ensures r.progress.Keys == progress.Keys + {day}
  {
    var run := RunTraining(env, day, words, perm, cache);
    Click(run.outcome, RecordRun(progress, day), run.cache)
  }

  /**
   A click on a day with the wrong number of words shows the error, fetches no audio, and still
   adds one to the day's count.
   */
  lemma RejectedRunStillCounts(env: Env, progress: Progress, cache: Cache, day: DayKey,
                               words: seq<Word>, perm: seq<nat>)
    requires |words| != WordsPerDay
    ensures var r := TrainClick(env, progress, cache, day, words, perm);
            && r.run == Err(WrongWordCount(day, |words|))
            && r.cache == cache
            && Completed(r.progress, day) == Completed(progress, day) + 1
  {
  }

  /** A click on a five-word day presents a permutation of the day's words. */
  lemma AcceptedRunIsPermutation(env: Env, progress: Progress, cache: Cache, day: DayKey,
                                 words: seq<Word>, perm: seq<nat>)
    requires |words| == WordsPerDay
    requires IsPermutation(perm, |words|)
    ensures var r := TrainClick(env, progress, cache, day, words, perm);
            r.run.Ok? && multiset(WordsOf(r.run.value)) == multiset(words)
  {
    RunPresentsPermutation(env, day, words, perm, cache);
  }

  /**
   A click on a five-word day offers, for each word, the artifact the cache now holds under the
   word's digest, and leaves every artifact that was already cached as it was.
   */
  lemma AcceptedRunOffersCached(env: Env, progress: Progress, cache: Cache, day: DayKey,
                               words: seq<Word>, perm: seq<nat>)
    requires |words| == WordsPerDay
    requires IsPermutation(perm, |words|)
    ensures var r := TrainClick(env, progress, cache, day, words, perm);
            && r.run.Ok?
            && (forall i :: 0 <= i < |r.run.value| ==>
                  && env.hash(r.run.value[i].word) in r.cache.store
                  && r.run.value[i].audio == r.cache.store[env.hash(r.run.value[i].word)])
            && Extends(cache.store, r.cache.store)
  {
    var r := TrainClick(env, progress, cache, day, words, perm);
    PresentOffersCached(env, WordsOf(r.run.value), cache);
  }

  /** A click synthesises at most once per distinct digest among the day's words. */
  lemma AcceptedRunSynthesisBound(env: Env, progress: Progress, cache: Cache, day: DayKey,
                                  words: seq<Word>, perm: seq<nat>)
    requires |words| == WordsPerDay
    requires IsPermutation(perm, |words|)
    ensures var r := TrainClick(env, progress, cache, day, words, perm);
            r.cache.synthCalls <= cache.synthCalls + |KeysOf(env, words)|
  {
    var r := TrainClick(env, progress, cache, day, words, perm);
    var order := WordsOf(r.run.value);
    RunPresentsPermutation(env, day, words, perm, cache);
    PresentSynthesisCount(env, order, cache);
    KeysOfSameWords(env, order, words);
    SubsetCard(KeysOf(env, order) - cache.store.Keys, KeysOf(env, words));
  }

  /** Rearranging words does not change the digests they are stored under. */
  lemma KeysOfSameWords(env: Env, a: seq<Word>, b: seq<Word>)
    requires multiset(a) == multiset(b)
    ensures KeysOf(env, a) == KeysOf(env, b)
  {
    forall w ensures w in a <==> w in b {
      assert w in a <==> w in multiset(a);
      assert w in b <==> w in multiset(b);
    }
  }

  /** A subset is no larger than its superset. */
  lemma SubsetCard<K>(a: set<K>, b: set<K>)
    requires a <= b
    ensures |a| <= |b|
  {
    assert b == a + (b - a);
  }
}
