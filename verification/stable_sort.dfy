/**
 A stable sort by a numeric key, the behaviour of Python's `sorted(..., key=...)`: written as an
 insertion sort so that its three promises (ascending, a permutation, ties kept in input order)
 can be proved.
 */
module StableSort {

  predicate Ascending<T>(key: T -> nat, s: seq<T>)
  {
    forall i, j :: 0 <= i < j < |s| ==> key(s[i]) <= key(s[j])
  }

  /** The elements of `s` whose key is `v`, in their order in `s`. */
  function WithKey<T>(key: T -> nat, s: seq<T>, v: nat): seq<T>
    decreases |s|
  {
    if s == [] then []
    else (if key(s[0]) == v then [s[0]] else []) + WithKey(key, s[1..], v)
  }

  /** Inserts `x` in front of the first element whose key is not smaller than the key of `x`. */
  function Insert<T>(key: T -> nat, x: T, s: seq<T>): seq<T>
    decreases |s|
  {
    if s == [] then
      [x]
    else if key(x) <= key(s[0]) then
      [x] + s
    else
      [s[0]] + Insert(key, x, s[1..])
  }

  /** Insertion adds exactly one `x` and loses nothing. */
  lemma {:induction false} InsertPermutes<T>(key: T -> nat, x: T, s: seq<T>)
    ensures multiset(Insert(key, x, s)) == multiset(s) + multiset{x}
    decreases |s|
  {
    if s != [] && key(x) > key(s[0]) {
      InsertPermutes(key, x, s[1..]);
      assert s == [s[0]] + s[1..];
    }
  }

  /** Every key of `s` is at least `b`. */
  predicate KeysAtLeast<T>(key: T -> nat, s: seq<T>, b: nat)
  {
    forall i :: 0 <= i < |s| ==> b <= key(s[i])
  }

  /** Inserting an element whose key is at least `b` keeps all keys at least `b`. */
  lemma {:induction false} InsertKeepsLowerBound<T>(key: T -> nat, x: T, s: seq<T>, b: nat)
    requires KeysAtLeast(key, s, b) && b <= key(x)
    ensures KeysAtLeast(key, Insert(key, x, s), b)
    decreases |s|
  {
    if s != [] && key(x) > key(s[0]) {
      var t := Insert(key, x, s[1..]);
      var r := Insert(key, x, s);
      InsertKeepsLowerBound(key, x, s[1..], b);
      assert r == [s[0]] + t;
      forall i | 0 < i < |r|
        ensures b <= key(r[i])
      {
        assert r[i] == t[i - 1];
      }
    }
  }

  /** Inserting into an ascending list gives an ascending list. */
  lemma {:induction false} InsertKeepsAscending<T>(key: T -> nat, x: T, s: seq<T>)
    requires Ascending(key, s)
    ensures Ascending(key, Insert(key, x, s))
    decreases |s|
  {
    if s != [] && key(x) > key(s[0]) {
      var t := Insert(key, x, s[1..]);
      InsertKeepsAscending(key, x, s[1..]);
      InsertKeepsLowerBound(key, x, s[1..], key(s[0]));
      var r := Insert(key, x, s);
      assert r == [s[0]] + t;
      forall i, j | 0 <= i < j < |r|
        ensures key(r[i]) <= key(r[j])
      {
        assert r[j] == t[j - 1];
        if i > 0 {
          assert r[i] == t[i - 1];
        }
      }
    }
  }

  /** Filtering a list with a first element: that element, if it has the key, then the rest. */
  lemma WithKeyCons<T>(key: T -> nat, a: T, s: seq<T>, v: nat)
    ensures WithKey(key, [a] + s, v) == (if key(a) == v then [a] else []) + WithKey(key, s, v)
  {
  }

  /** Insertion puts `x` in front of the elements that share its key, and reorders nothing else. */
  lemma {:induction false} InsertIsStable<T>(key: T -> nat, x: T, s: seq<T>, v: nat)
    requires Ascending(key, s)
    ensures WithKey(key, Insert(key, x, s), v) == (if key(x) == v then [x] else []) + WithKey(key, s, v)
    decreases |s|
  {
    if s == [] {
      WithKeyCons(key, x, [], v);
      assert Insert(key, x, s) == [x] + [];
    } else if key(x) <= key(s[0]) {
      WithKeyCons(key, x, s, v);
      assert Insert(key, x, s) == [x] + s;
    } else {
      var t := Insert(key, x, s[1..]);
      assert Insert(key, x, s) == [s[0]] + t;
      InsertIsStable(key, x, s[1..], v);
      PassOverSmaller(key, x, s, t, v);
    }
  }

  /**
   The step of `InsertIsStable` where `x` goes past the first element `s[0]`, whose key is
   smaller: filtering by one key value sees at most one of the two.
   */
  lemma PassOverSmaller<T>(key: T -> nat, x: T, s: seq<T>, t: seq<T>, v: nat)
    requires |s| > 0 && key(s[0]) < key(x)
    requires WithKey(key, t, v) == (if key(x) == v then [x] else []) + WithKey(key, s[1..], v)
    ensures WithKey(key, [s[0]] + t, v) == (if key(x) == v then [x] else []) + WithKey(key, s, v)
  {
  }

  /**
   The sorted list: ascending by key, a permutation of `s`, and for every key value the
   elements carrying it appear in the same order as in `s`.
   */
  function Sort<T>(key: T -> nat, s: seq<T>): (r: seq<T>)
    ensures Ascending(key, r)
    ensures multiset(r) == multiset(s)
    ensures forall v :: WithKey(key, r, v) == WithKey(key, s, v)
    decreases |s|
  {
    if s == [] then []
    else
      var t := Sort(key, s[1..]);
      SortStep(key, s, t);
      Insert(key, s[0], t)
  }

  /** Inserting the first element into the sorted rest sorts the whole list. */
  lemma SortStep<T>(key: T -> nat, s: seq<T>, t: seq<T>)
    requires |s| > 0
    requires Ascending(key, t)
    requires multiset(t) == multiset(s[1..])
    requires forall v :: WithKey(key, t, v) == WithKey(key, s[1..], v)
    ensures Ascending(key, Insert(key, s[0], t))
    ensures multiset(Insert(key, s[0], t)) == multiset(s)
    ensures forall v :: WithKey(key, Insert(key, s[0], t), v) == WithKey(key, s, v)
  {
    InsertKeepsAscending(key, s[0], t);
    InsertPermutes(key, s[0], t);
    assert s == [s[0]] + s[1..];
    forall v
      ensures WithKey(key, Insert(key, s[0], t), v) == WithKey(key, s, v)
    {
      InsertIsStable(key, s[0], t, v);
      WithKeyCons(key, s[0], s[1..], v);
    }
  }
}
