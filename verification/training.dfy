/**
 A training run for one day (`run_training`): reject a day that does not hold exactly five
 words, otherwise present the words one by one in a sampled order, each with its cached speech.
 */
module Training {
  import opened Common
  import opened AudioCache
  import opened Sampling

  /** The number of words a day must hold to be trained. */
  const WordsPerDay := 5

  /** How long a word stays on screen, in milliseconds (3.5 s). */
  const HoldMillis := 3500

  /** The blank pause after a word, in milliseconds (2 s). */
  const PauseMillis := 2000

  /** One presentation step: a word shown together with an audio player holding its speech. */
  datatype Step = Step(word: Word, audio: Audio)

  /** Why a day cannot be trained: it holds `count` words instead of five. */
  datatype TrainingError = WrongWordCount(day: DayKey, count: nat)

  /** The outcome of a run together with the audio cache it leaves behind. */
  datatype Run = Run(outcome: Result<seq<Step>, TrainingError>, cache: Cache)

  /** The steps of a presentation and the cache after fetching their audio. */
  datatype Presented = Presented(steps: seq<Step>, cache: Cache)

  /**
   What the learner is shown, one event at a time. `OfferAudio` is the `st.audio` player of
   app.py:74: it holds the bytes, and the learner starts playback.
   */
  datatype Event =
    | ShowWord(word: Word)
    | OfferAudio(audio: Audio)
    | Hold(millis: nat)
    | ClearScreen
    | Pause(millis: nat)

  /** The words of a sequence of steps, in order. */
  function WordsOf(steps: seq<Step>): (r: seq<Word>)
    ensures |r| == |steps|
    ensures forall i :: 0 <= i < |steps| ==> r[i] == steps[i].word
  {
    seq(|steps|, i requires 0 <= i < |steps| => steps[i].word)
  }

  /** Presents the words of `order` one after the other (the loop of app.py:65-80). */
  function Present(env: Env, order: seq<Word>, c: Cache): (r: Presented)
    ensures |r.steps| == |order|
    ensures forall i :: 0 <= i < |order| ==> r.steps[i].word == order[i]
    decreases |order|
  {
    if order == [] then
      Presented([], c)
    else
      var f := Fetch(env, c, order[0]);
      var rest := Present(env, order[1..], f.cache);
      Presented([Step(order[0], f.audio)] + rest.steps, rest.cache)
  }

  /**
   What a presentation does to the artifacts: step i offers the artifact stored under the digest
   of word i once the run is over, and no artifact that was there before is replaced.
   */
  lemma {:induction false} PresentOffersCached(env: Env, order: seq<Word>, c: Cache)
    ensures var r := Present(env, order, c);
            && (forall i :: 0 <= i < |order| ==>
                  && env.hash(order[i]) in r.cache.store
                  && r.steps[i].audio == r.cache.store[env.hash(order[i])])
            && Extends(c.store, r.cache.store)
    decreases |order|
  {
    if order != [] {
      var r := Present(env, order, c);
      var f := Fetch(env, c, order[0]);
      var rest := Present(env, order[1..], f.cache);
      PresentOffersCached(env, order[1..], f.cache);
      assert r.cache == rest.cache;
      forall i | 0 <= i < |order|
        ensures env.hash(order[i]) in r.cache.store
        ensures r.steps[i].audio == r.cache.store[env.hash(order[i])]
      {
        if i > 0 {
          assert r.steps[i] == rest.steps[i - 1];
          assert order[i] == order[1..][i - 1];
        }
      }
    }
  }

  /**
   What a presentation does to the directory: it gains exactly the digests of the presented
   words, and one synthesis happens for each such digest that was not cached before.
   */
  lemma {:induction false} PresentSynthesisCount(env: Env, order: seq<Word>, c: Cache)
    ensures var r := Present(env, order, c);
            && r.cache.store.Keys == c.store.Keys + KeysOf(env, order)
            && r.cache.synthCalls == c.synthCalls + |KeysOf(env, order) - c.store.Keys|
    decreases |order|
  {
    if order != [] {
      var k := env.hash(order[0]);
      var f := Fetch(env, c, order[0]);
      var rest := Present(env, order[1..], f.cache);
      assert Present(env, order, c).cache == rest.cache;
      PresentSynthesisCount(env, order[1..], f.cache);
      KeysOfCons(env, order);
      CountStep(KeysOf(env, order[1..]), c.store.Keys, k, c.synthCalls, f.cache.store.Keys,
                f.cache.synthCalls, rest.cache.store.Keys, rest.cache.synthCalls);
    }
  }

  /**
   One step of the synthesis count: a first lookup that stores key `k` (synthesising exactly
   when it was missing) followed by a rest that behaves as counted.
   */
  lemma CountStep<K>(tail: set<K>, s0: set<K>, k: K, n0: nat, s1: set<K>, n1: nat, s2: set<K>, n2: nat)
    requires s1 == s0 + {k}
    requires n1 == if k in s0 then n0 else n0 + 1
    requires s2 == s1 + tail
    requires n2 == n1 + |tail - s1|
    ensures s2 == s0 + ({k} + tail)
    ensures n2 == n0 + |({k} + tail) - s0|
  {
    NewKeysCount(tail, s0, k);
    if k in s0 {
      assert s1 == s0;
    }
  }

  /** The digests of a non-empty sequence: those of its first word and of the rest. */
  lemma KeysOfCons(env: Env, order: seq<Word>)
    requires |order| > 0
    ensures KeysOf(env, order) == {env.hash(order[0])} + KeysOf(env, order[1..])
  {
  }

  /**
   Counting new keys: a key already in `stored` adds nothing; a missing one is one new key more
   than what the rest adds once it is stored.
   */
  lemma NewKeysCount<K>(rest: set<K>, stored: set<K>, k: K)
    ensures k in stored ==> ({k} + rest) - stored == rest - stored
    ensures k !in stored ==> |({k} + rest) - stored| == 1 + |rest - (stored + {k})|
  {
    if k !in stored {
      assert ({k} + rest) - stored == {k} + (rest - (stored + {k}));
    }
  }

  /**
   A training run (app.py:52-82). A day without exactly five words is rejected with the actual
   count, and nothing is presented and no audio is fetched. Otherwise the play order is the
   sample `perm` of the words, and the run presents every word of it, in that order.
   */
  function RunTraining(env: Env, day: DayKey, words: seq<Word>, perm: seq<nat>, c: Cache): (r: Run)
    requires |words| == WordsPerDay ==> IsPermutation(perm, |words|)
    ensures r.outcome.Err? <==> |words| != WordsPerDay
    ensures r.outcome.Err? ==> r.outcome.error == WrongWordCount(day, |words|) && r.cache == c
    ensures r.outcome.Ok? ==>
              && |r.outcome.value| == WordsPerDay
              && (forall i :: 0 <= i < WordsPerDay ==> r.outcome.value[i].word == words[perm[i]])
              && r.outcome.value == Present(env, WordsOf(r.outcome.value), c).steps
              && r.cache == Present(env, WordsOf(r.outcome.value), c).cache
  {
    if |words| != WordsPerDay then
      Run(Err(WrongWordCount(day, |words|)), c)
    else
      var order := Sample(words, perm);
      var p := Present(env, order, c);
      assert WordsOf(p.steps) == order;
      Run(Ok(p.steps), p.cache)
  }

  /** A successful run presents a permutation of the day's words: the same words, each as often. */
  lemma RunPresentsPermutation(env: Env, day: DayKey, words: seq<Word>, perm: seq<nat>, c: Cache)
    requires |words| == WordsPerDay ==> IsPermutation(perm, |words|)
    ensures var r := RunTraining(env, day, words, perm, c);
            r.outcome.Ok? ==> multiset(WordsOf(r.outcome.value)) == multiset(words)
  {
    var r := RunTraining(env, day, words, perm, c);
    if r.outcome.Ok? {
      assert WordsOf(r.outcome.value) == Sample(words, perm);
    }
  }

  /** The five events of one step: show the word, show an audio player, hold 3.5 s, clear, pause 2 s. */
  function StepEvents(s: Step): seq<Event>
  {
    [ShowWord(s.word), OfferAudio(s.audio), Hold(HoldMillis), ClearScreen, Pause(PauseMillis)]
  }

  /**
   The timeline of a run: each step's five events as one uninterrupted block, the blocks in step
   order, so a word is shown only after the previous word's hold and pause are over.
   */
  function Timeline(steps: seq<Step>): (r: seq<Event>)
    ensures |r| == 5 * |steps|
    ensures forall i :: 0 <= i < |steps| ==> EventsAt(r, i, steps[i])
    decreases |steps|
  {
    if steps == [] then
      []
    else
      var rest := Timeline(steps[1..]);
      assert forall i :: 1 <= i < |steps| ==> EventsAt(StepEvents(steps[0]) + rest, i, steps[i]) by {
        forall i | 1 <= i < |steps|
          ensures EventsAt(StepEvents(steps[0]) + rest, i, steps[i])
        {
          assert steps[i] == steps[1..][i - 1];
          EventsShift(StepEvents(steps[0]), rest, i, steps[i]);
        }
      }
      StepEvents(steps[0]) + rest
  }

  /** Events 5i .. 5i+4 of `events` are the five events of step `s`, in order. */
  predicate EventsAt(events: seq<Event>, i: nat, s: Step)
  {
    && 5 * i + 5 <= |events|
    && events[5 * i] == ShowWord(s.word)
    && events[5 * i + 1] == OfferAudio(s.audio)
    && events[5 * i + 2] == Hold(HoldMillis)
    && events[5 * i + 3] == ClearScreen
    && events[5 * i + 4] == Pause(PauseMillis)
  }

  /** Putting one block of five in front moves every later block one step on. */
  lemma EventsShift(pre: seq<Event>, rest: seq<Event>, i: nat, s: Step)
    requires |pre| == 5 && i > 0
    requires EventsAt(rest, i - 1, s)
    ensures EventsAt(pre + rest, i, s)
  {
  }

  /**
   The events a run shows: the wrong-count error unchanged, or the timeline of its steps. Event
   5i shows word i of the play order and event 5i+1 offers that word's audio.
   */
  function RunEvents(outcome: Result<seq<Step>, TrainingError>): (r: Result<seq<Event>, TrainingError>)
    ensures r.Ok? <==> outcome.Ok?
    ensures r.Err? ==> r.error == outcome.error
    ensures r.Ok? ==>
              && |r.value| == 5 * |outcome.value|
              && forall i :: 0 <= i < |outcome.value| ==>
                   && r.value[5 * i] == ShowWord(outcome.value[i].word)
                   && r.value[5 * i + 1] == OfferAudio(outcome.value[i].audio)
                   && r.value[5 * i + 2] == Hold(HoldMillis)
                   && r.value[5 * i + 3] == ClearScreen
                   && r.value[5 * i + 4] == Pause(PauseMillis)
  {
    match outcome
    case Err(e) => Err(e)
    case Ok(steps) =>
      Ok(Timeline(steps))
  }

  /**
   When the store is consistent for a vocabulary without digest collisions and every presented
   word belongs to it, every step offers the synthesis of its own word.
   */
  lemma {:induction false} PresentOffersOwnSpeech(env: Env, order: seq<Word>, c: Cache, vocab: set<Word>)
    requires Consistent(env, c.store, vocab)
    requires CollisionFree(env, vocab)
    requires forall i :: 0 <= i < |order| ==> order[i] in vocab
    ensures forall i :: 0 <= i < |order| ==>
              Present(env, order, c).steps[i].audio == env.synth(order[i], Language)
    decreases |order|
  {
    if order != [] {
      var f := Fetch(env, c, order[0]);
      FetchReturnsOwnSpeech(env, c, order[0], vocab);
      FetchKeepsConsistent(env, c, order[0], vocab);
      PresentOffersOwnSpeech(env, order[1..], f.cache, vocab);
      var r := Present(env, order, c);
      var rest := Present(env, order[1..], f.cache);
      assert r.steps == [Step(order[0], f.audio)] + rest.steps;
      forall i | 0 < i < |order|
        ensures r.steps[i].audio == env.synth(order[i], Language)
      {
        assert r.steps[i] == rest.steps[i - 1];
        assert order[i] == order[1..][i - 1];
      }
    }
  }
}
