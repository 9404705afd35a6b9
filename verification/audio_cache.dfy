/**
 The content-addressed speech cache (`get_tts_audio_path`): a word's audio lives under the
 digest of the word; a present entry is reused, a missing one is synthesised once and stored.
 */
module AudioCache {
  import opened Common

  /** The name of an artifact in the cache directory (the hex digest of the word). */
  type Key = string

  /** The bytes of one synthesised MP3 file. */
  type Audio = seq<bv8>

  /** The language code every synthesis request carries. */
  const Language: string := "pl"

  /**
   The two foreign collaborators, left uninterpreted: the digest of a word and the speech
   synthesiser (word, language) -> audio. Both are total, deterministic functions: the same word
   always gets the same digest, and synthesising it again would give the same bytes. Nothing else
   is assumed; in particular two different words may share a digest.
   */
  datatype Env = Env(hash: Word -> Key, synth: (Word, string) -> Audio)

  /**
   The cache directory as a map from key to artifact, plus a count of the synthesis calls made
   so far (a bookkeeping field of the model, not something the program stores).
   */
  datatype Cache = Cache(store: map<Key, Audio>, synthCalls: nat)

  /** The result of one lookup: the artifact handed back and the cache afterwards. */
  datatype Fetched = Fetched(audio: Audio, cache: Cache)

  /** Every artifact of `before` is still present, with the same bytes, in `after`. */
  ghost predicate Extends(before: map<Key, Audio>, after: map<Key, Audio>)
  {
    forall k :: k in before ==> k in after && after[k] == before[k]
  }

  /** The keys a sequence of words is stored under. */
  function KeysOf(env: Env, ws: seq<Word>): set<Key>
  {
    set w | w in ws :: env.hash(w)
  }

  /**
   Every artifact in the store is the synthesis of some word of `vocab` whose digest is its key:
   true of an empty directory and, by `FetchKeepsConsistent`, kept by every lookup of a word of
   `vocab`.
   */
  ghost predicate Consistent(env: Env, store: map<Key, Audio>, vocab: set<Word>)
  {
    forall k :: k in store ==>
      exists v :: v in vocab && env.hash(v) == k && store[k] == env.synth(v, Language)
  }

  /** No two different words of `vocab` share a digest. */
  ghost predicate CollisionFree(env: Env, vocab: set<Word>)
  {
    forall v, w :: v in vocab && w in vocab && env.hash(v) == env.hash(w) ==> v == w
  }

  /**
   Looks a word up (app.py:40-49). The artifact returned is the one now stored under the word's
   digest. A hit changes nothing and synthesises nothing; a miss synthesises the word once, in
   the fixed language, and adds exactly that one key. No existing artifact is ever replaced.
   */
  function Fetch(env: Env, c: Cache, w: Word): (r: Fetched)
    ensures env.hash(w) in r.cache.store && r.audio == r.cache.store[env.hash(w)]
    ensures Extends(c.store, r.cache.store)
    ensures r.cache.store.Keys == c.store.Keys + {env.hash(w)}
    ensures env.hash(w) in c.store ==> r.cache == c
    ensures env.hash(w) !in c.store ==>
              && r.audio == env.synth(w, Language)
              && r.cache.synthCalls == c.synthCalls + 1
  {
    var k := env.hash(w);
    if k in c.store then
      Fetched(c.store[k], c)
    else
      var a := env.synth(w, Language);
      Fetched(a, Cache(c.store[k := a], c.synthCalls + 1))
  }

  /**
   Two consecutive lookups of the same word return the same artifact, the second changes
   nothing, and together they synthesise at most once.
   */
  lemma FetchTwice(env: Env, c: Cache, w: Word)
    ensures var r1 := Fetch(env, c, w);
            var r2 := Fetch(env, r1.cache, w);
            && r2.audio == r1.audio
            && r2.cache == r1.cache
            && r2.cache.synthCalls <= c.synthCalls + 1
  {
  }

  /** A lookup keeps the store consistent: anything it adds is the synthesis of the looked-up word. */
  lemma FetchKeepsConsistent(env: Env, c: Cache, w: Word, vocab: set<Word>)
    requires Consistent(env, c.store, vocab)
    requires w in vocab
    ensures Consistent(env, Fetch(env, c, w).cache.store, vocab)
  {
  }

  /**
   When the store is consistent for a vocabulary in which no two words share a digest, the
   artifact handed back for a word of it is the synthesis of that very word, whether the lookup
   was a hit or a miss.
   */
  lemma FetchReturnsOwnSpeech(env: Env, c: Cache, w: Word, vocab: set<Word>)
    requires Consistent(env, c.store, vocab)
    requires CollisionFree(env, vocab)
    requires w in vocab
    ensures Fetch(env, c, w).audio == env.synth(w, Language)
  {
  }

  /**
   Over the store's lifetime there is one synthesis per stored artifact: a cache that started
   empty, or with as many artifacts as synthesis calls, keeps the two equal after every lookup.
   */
  lemma FetchCountsArtifacts(env: Env, c: Cache, w: Word)
    requires c.synthCalls == |c.store|
    ensures Fetch(env, c, w).cache.synthCalls == |Fetch(env, c, w).cache.store|
  {
  }
}
