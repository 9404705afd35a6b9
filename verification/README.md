# Vocabulary drill core, modelled in Dafny

The program is a small Streamlit vocabulary drill, `app.py`. A catalog (`words.json`) maps day keys
such as `"1"` or `"12"` to lists of words. The main page lists the days in numeric order. Each line
shows how often the day has been trained and whether it is passed (three runs or more). A button
starts a training run. The run shows the day's five words one at a time in a random order, each
with an audio player holding synthesised Polish speech for it, and then adds one to the day's
count in `progress.json`.
Speech files live in a content-addressed cache, named by the MD5 digest of the word.

This project models the logic under the UI calls as pure functions over immutable maps and
sequences. State is passed explicitly and the random choice is a parameter:

- `common.dfy` (module `Common`): words, day keys, `Option` and `Result`.
- `audio_cache.dfy` (module `AudioCache`): `get_tts_audio_path` as a state machine over
  `map<Key, Audio>`. The digest and the synthesiser are uninterpreted fields of `Env`. The digest
  is not assumed injective. A `synthCalls` counter records how many synthesis calls were made.
- `sampling.dfy` (module `Sampling`): the play order `random.sample(words, len(words))`. It takes
  a permutation of positions and proves the result is a permutation of the words.
- `training.dfy` (module `Training`): `run_training`. It rejects a day with the wrong word count.
  Otherwise it produces one presentation step per word, fetching audio through the cache.
  `RunEvents` turns a run's outcome into what is shown: the error, or five events per step
  (show the word, offer its audio in a player, hold 3500 ms, clear, then pause 2000 ms).
- `progress.dfy` (module `Progress`): the progress map (a missing key counts as 0), recording
  a run, and the passed/in-progress status.
- `app.dfy` (module `App`): the training button. It runs the training, then records the run.
- `day_keys.dfy` (module `DayKeys`): `int(key)` for day keys, with a round trip against a
  decimal renderer.
- `stable_sort.dfy` (module `StableSort`): Python's stable `sorted(..., key=...)` as an insertion
  sort.
- `listing.dfy` (module `DayListing`): the day list on the main page.

## Behaviour of `app.py` worth knowing

- A click on a day without exactly five words is still counted. `run_training` only returns
  early (line 58), and line 121 still adds one to the day's count. `App.TrainClick` keeps this
  behaviour and `App.RejectedRunStillCounts` states it.
- Every listed day has a training button. Nothing in `app.py` locks later days, resets a count
  or marks a day as passed by hand.
- Nothing in `app.py` catches an exception. A failure of gTTS or of the file system propagates
  and ends the script run before line 121, so that click is not counted. Streamlit's own
  rerun/stop interruption, raised at the next `st.*` call, ends a run the same way.
  `tts.save` (line 47) opens `{digest}.mp3` before it downloads, so a failed synthesis can leave
  an empty or partial file, which later lookups (line 45) take as a hit.
- Each word is shown first (line 66) and its audio is fetched afterwards (line 72). Both happen
  before the 3.5 s hold. The model keeps this order.

## Model

| member | source | states |
|---|---|---|
| AudioCache.Fetch | app.py:40-49 | The artifact returned is the one stored under the word's digest afterwards. A hit leaves the cache and the synthesis count unchanged. A miss stores the Polish synthesis of the word under its digest and counts one synthesis. Only that key is added, and no existing artifact is replaced. |
| AudioCache.FetchTwice | app.py:45-47 | Two consecutive lookups of one word return the same artifact. The second changes nothing, and together they synthesise at most once. |
| AudioCache.FetchKeepsConsistent | app.py:42-47 | If every stored artifact is the synthesis of a vocabulary word with that digest, this still holds after looking up a vocabulary word. |
| AudioCache.FetchReturnsOwnSpeech | app.py:42-49 | With a consistent store and no digest collision inside the vocabulary, the artifact returned for a word is that word's own synthesis, on a hit as on a miss. |
| AudioCache.FetchCountsArtifacts | app.py:45-47 | A cache holding as many artifacts as synthesis calls made still does so after any lookup: in a sequential run without failures, each artifact costs exactly one synthesis. |
| Sampling.Sample | app.py:63 | The play order is a rearrangement of the day's words: it has the same multiset of words, duplicates included, and its i-th word is the day's word at the i-th sampled position. |
| Sampling.PickIsPermutation | app.py:63 | Picking every position of a sequence once, in any order, keeps each element with its multiplicity. |
| Training.Present | app.py:65-80 | The run has one step per word of the play order, in that order, and each step carries that word. |
| Training.PresentOffersCached | app.py:72-74 | Each step offers the artifact cached under its word's digest at the end of the run. Artifacts cached before the run are kept unchanged. |
| Training.PresentSynthesisCount | app.py:65-74 | After a run the cache holds exactly the old keys plus the digests of the presented words. The synthesis count rises by the number of those digests that were not cached before, so at most once per distinct digest. |
| Training.RunTraining | app.py:52-82 | A day fails with a wrong-count error carrying the actual count exactly when it does not have five words. That case presents nothing and fetches no audio. A five-word day presents five steps, and step i shows the word at sampled position i with its cached audio. |
| Training.RunPresentsPermutation | app.py:56-65 | A successful run presents a permutation of the day's words. |
| Training.PresentOffersOwnSpeech | app.py:65-74 | With a consistent store and no digest collision among the day's words, every step of a run offers the synthesis of its own word. |
| Training.Timeline | app.py:65-80 | The events are five per step: show the word, offer the audio in a player, hold 3500 ms, clear, pause 2000 ms. Events 5i to 5i+4 belong to step i, so the blocks follow one another in step order. |
| Training.RunEvents | app.py:56-80 | A rejected run yields only its wrong-count error (the heading and the closing message are UI glue). A successful run shows event 5i as word i of the play order, event 5i+1 as that word's audio, then the hold, the clear and the pause. |
| Progress.Completed | app.py:107 | The count shown for a day is its entry in the record, and a positive count implies the day has an entry (a missing day shows 0). |
| Progress.StatusOf | app.py:108 | A day is passed exactly when the record holds at least 3 runs for it, so a day without an entry is in progress. |
| Progress.RecordRun | app.py:121 | The day's count (0 when absent) goes up by exactly one. The day becomes a key if it was not one. Every other entry stays exactly as it was. |
| Progress.RecordRunLeavesOthers | app.py:121 | Recording a run of one day never changes another day's count. |
| Progress.PassedStaysPassed | app.py:107-108 | Once a day is passed, recording a run of any day keeps it passed. |
| Progress.RunsAddUp | app.py:107-121 | After n runs of a day its count has risen by n and other days are unchanged. The day is passed exactly when its earlier count plus n is at least 3. |
| Progress.ThirdRunPasses | app.py:107-108 | Starting from an empty record, a day is in progress after two runs and passed after three. |
| App.TrainClick | app.py:119-122 | A click runs the training and then records the run. The count rises by one and other days are unchanged, even when the run is rejected. A rejected run reports the actual word count and leaves the cache unchanged. |
| App.RejectedRunStillCounts | app.py:119-121 | A click on a day without five words gives the wrong-count error and fetches no audio, yet still adds one to the day's count. |
| App.AcceptedRunIsPermutation | app.py:119-120 | A click on a five-word day presents a permutation of its words. |
| App.AcceptedRunOffersCached | app.py:72-74 | A click on a five-word day offers, for each word, the artifact cached under its digest, and keeps every earlier artifact. |
| App.AcceptedRunSynthesisBound | app.py:45-47 | A click synthesises at most as many times as there are distinct digests among the day's words. |
| DayKeys.ParseDayKey | app.py:101 | A key has a number exactly when it is a non-empty string of digits. A key without leading zeros is the decimal spelling of its number. |
| DayKeys.ParseDecimal | app.py:101 | Reading back the decimal spelling of a day number gives that number. |
| DayKeys.LeadingZeroIgnored | app.py:101 | A leading zero does not change the number a digit string denotes. |
| DayKeys.ParseLeadingZero | app.py:101 | A key with a "0" in front reads exactly as the key itself, as `int("01") == int("1")`, so distinct keys can tie in the sort; a rejected key stays rejected. |
| StableSort.Sort | app.py:101 | The result is ascending by key and is a permutation of the input. For every key value, the elements with that value keep their input order. |
| StableSort.InsertIsStable | app.py:101 | Insertion puts the new element before the elements that share its key, and reorders nothing else. |
| DayListing.FirstBadKey | app.py:101 | There is no bad key exactly when every key reads as a number. Otherwise the key reported is the first one in dict order that does not, and all keys before it do. |
| DayListing.Listing | app.py:94-108 | For a catalog whose day keys are distinct, as a dict's are: an empty catalog gives no list. Otherwise the first key that `int()` rejects stops the listing. Otherwise the lines hold every catalog entry once, ascending by day number, with ties in catalog order. Each line shows the day's count (0 when absent) and is passed exactly when that count is at least 3. |

## Left out

- Streamlit rendering, columns, buttons, markdown/HTML, `st.error`/`st.success` messages and
  `st.experimental_rerun` are UI glue.
- Reading `words.json` and `progress.json`, the missing-file fallbacks, and `save_progress` are
  file I/O. The progress record is an in-memory map handed from call to call. The catalog is a
  sequence of entries in dict order, which is the order of each key's first occurrence in the
  file. `json.load` keeps the last value of a repeated key; the model takes the keys as already
  distinct.
- MD5 hashing and gTTS synthesis are foreign library calls. They are the uninterpreted
  `Env.hash` and `Env.synth`, and the model does not assume `Env.hash` is injective. Their
  failures (exceptions) are not modelled.
- AudioCache.Fetch: a synthesis that fails after `tts.save` has created the file leaves an empty
  or partial artifact that every later lookup returns as a hit. The model has no failing
  synthesis, so its cache holds only complete artifacts.
- App.TrainClick: counts every click, so it covers only runs that complete. In `app.py` a run
  that ends in an exception never reaches line 121, and that click is not counted. Such an
  exception can be a gTTS or file error (lines 46-47, 73). It can also be Streamlit's rerun or
  stop interruption, raised at the next `st.*` call (lines 66, 78-79) when the learner clicks
  another button or leaves the page during the sleeps.
- Concurrency: Streamlit runs each browser session's script in its own thread, and all sessions
  share `tts_cache/` and `progress.json`. Two sessions missing the same word both synthesise it,
  and two concurrent clicks can lose an increment. The model is one sequential session, so
  `AudioCache.FetchCountsArtifacts` and `Progress.RecordRun` hold only for such a run.
- `time.sleep(3.5)` and `time.sleep(2)` are not executed. They appear only as `Hold(3500)` and
  `Pause(2000)` events.
- `random.sample`'s distribution: the permutation of positions is a parameter, and uniformity
  is not claimed.
- DayKeys.ParseDayKey: accepts only non-empty strings of ASCII digits. Python's `int()` also
  accepts a sign, surrounding whitespace, underscores between digits and non-ASCII digits. The
  model reports such keys as `BadDayKey` although the source would sort them. In the other
  direction, `int()` raises ValueError on a string of more than 4300 digits (the default
  `sys.int_max_str_digits` of Python 3.11, also in patched 3.9 and 3.10 releases); the model
  reads such a key as a number, so `DayListing.Listing` returns a listing where the source fails.
- Progress values are modelled as natural numbers. A `progress.json` holding a negative or
  non-integer count is outside the model, although line 121 would add one to it like any other.
