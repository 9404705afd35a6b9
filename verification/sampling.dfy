/**
 The play order of a training run (`random.sample(words, len(words))`). The random choice is not
 modelled: it arrives as a permutation of positions, and the order picks the words at those
 positions. What is proved is that such an order is a rearrangement of the day's words.
 */
module Sampling {

  /** `p` lists each of the positions 0 .. n-1 once: a sample without replacement of all of them. */
  predicate IsPermutation(p: seq<nat>, n: nat)
  {
    && |p| == n
    && (forall i :: 0 <= i < n ==> p[i] < n)
    && (forall i, j :: 0 <= i < j < n ==> p[i] != p[j])
  }

  /** The elements of `s` in the order the positions `p` name them. */
  function Pick<T>(s: seq<T>, p: seq<nat>): seq<T>
    requires IsPermutation(p, |s|)
  {
    seq(|s|, i requires 0 <= i < |s| => s[p[i]])
  }

  /**
   The play order: the day's words at the sampled positions. It is a rearrangement of the words,
   every word kept with its multiplicity.
   */
  function Sample<T>(s: seq<T>, p: seq<nat>): (r: seq<T>)
    requires IsPermutation(p, |s|)
    ensures |r| == |s|
    ensures forall i :: 0 <= i < |r| ==> r[i] == s[p[i]]
    ensures multiset(r) == multiset(s)
  {
    PickIsPermutation(s, p);
    Pick(s, p)
  }

  /** `s` without its element at position `k`. */
  function Without<T>(s: seq<T>, k: nat): (r: seq<T>)
    requires k < |s|
    ensures |r| == |s| - 1
    ensures multiset(r) + multiset{s[k]} == multiset(s)
  {
    assert s == s[..k] + [s[k]] + s[k + 1..];
    s[..k] + s[k + 1..]
  }

  /**
   The first `m` positions of `p` renumbered for the sequence without position `k`: positions
   after `k` move down by one.
   */
  function Renumber(p: seq<nat>, k: nat, m: nat): seq<nat>
    requires m <= |p|
  {
    seq(m, i requires 0 <= i < m => if p[i] > k then p[i] - 1 else p[i])
  }

  /**
   Dropping the position the last entry of `p` names, and renumbering the others, leaves a
   permutation of one fewer positions.
   */
  lemma RenumberIsPermutation(p: seq<nat>, n: nat)
    requires n > 0 && IsPermutation(p, n)
    ensures IsPermutation(Renumber(p, p[n - 1], n - 1), n - 1)
  {
  }

  /** Picking from the shortened sequence with the renumbered positions drops the last element. */
  lemma PickWithout<T>(s: seq<T>, p: seq<nat>)
    requires |s| > 0 && IsPermutation(p, |s|)
    requires IsPermutation(Renumber(p, p[|s| - 1], |s| - 1), |s| - 1)
    ensures Pick(Without(s, p[|s| - 1]), Renumber(p, p[|s| - 1], |s| - 1)) == Pick(s, p)[..|s| - 1]
  {
  }

  /** Picking all positions once keeps every element with its multiplicity. */
  lemma {:induction false} PickIsPermutation<T>(s: seq<T>, p: seq<nat>)
    requires IsPermutation(p, |s|)
    ensures multiset(Pick(s, p)) == multiset(s)
    decreases |s|
  {
    var n := |s|;
    if n == 0 {
      assert Pick(s, p) == [];
    } else {
      // Take out the element the last position names, and renumber the other positions.
      var k := p[n - 1];
      var q := Renumber(p, k, n - 1);
      RenumberIsPermutation(p, n);
      PickIsPermutation(Without(s, k), q);
      PickWithout(s, p);
      var r := Pick(s, p);
      assert r == r[..n - 1] + [s[k]];
      assert multiset(r) == multiset(r[..n - 1]) + multiset{s[k]};
    }
  }
}
