/** Shuffling as a rearrangement by an explicit permutation of indices.
    The source shuffles its lists with a library call whose randomness is not modelled:
    every shuffle here takes the permutation it applies as a parameter. */
module Permutations {

  /** `p` lists each of the indices 0 .. n-1 exactly once. */
  ghost predicate IsPermutation(p: seq<nat>, n: nat) {
    && |p| == n
    && (forall i :: 0 <= i < n ==> p[i] < n)
    && (forall i, j :: 0 <= i < j < n ==> p[i] != p[j])
    && (forall v :: 0 <= v < n ==> v in p)
  }

  /** The list `s` rearranged by `p`: position i of the result holds element p[i] of `s`. */
  function Shuffle<T>(s: seq<T>, p: seq<nat>): (r: seq<T>)
    requires IsPermutation(p, |s|)
  {
    seq(|s|, i requires 0 <= i < |s| => s[p[i]])
  }

  /** The entries of `p` that remain once entry j is dropped. */
  lemma RemovedAt(p: seq<nat>, j: nat, i: nat)
    requires j < |p| && i < |p| - 1
    ensures (p[..j] + p[j + 1..])[i] == if i < j then p[i] else p[i + 1]
  {
  }

  /** Dropping the entry that names the largest index leaves a permutation of the smaller range. */
  lemma RemoveLargest(p: seq<nat>, n: nat, j: nat)
    requires IsPermutation(p, n + 1)
    requires j < |p| && p[j] == n
    ensures IsPermutation(p[..j] + p[j + 1..], n)
  {
    var q := p[..j] + p[j + 1..];
    forall i | 0 <= i < n
      ensures q[i] < n
    {
      RemovedAt(p, j, i);
      var k := if i < j then i else i + 1;
      assert k != j;
    }
    forall i, i' | 0 <= i < i' < n
      ensures q[i] != q[i']
    {
      RemovedAt(p, j, i);
      RemovedAt(p, j, i');
      var k := if i < j then i else i + 1;
      var k' := if i' < j then i' else i' + 1;
      assert k < k';
    }
    forall v | 0 <= v < n
      ensures v in q
    {
      assert v in p;
      var k :| 0 <= k < |p| && p[k] == v;
      assert k != j;
      var i := if k < j then k else k - 1;
      RemovedAt(p, j, i);
      assert q[i] == v;
    }
  }

  /** Shuffling by `p` equals shuffling the shorter prefix by `p` with entry j removed,
      then inserting the last element at position j. */
  lemma ShuffleSplit<T>(s: seq<T>, p: seq<nat>, j: nat)
    requires |s| > 0 && IsPermutation(p, |s|)
    requires j < |p| && p[j] == |s| - 1
    requires IsPermutation(p[..j] + p[j + 1..], |s| - 1)
    ensures var t' := Shuffle(s[..|s| - 1], p[..j] + p[j + 1..]);
      Shuffle(s, p) == t'[..j] + [s[|s| - 1]] + t'[j..]
  {
    var n := |s| - 1;
    var p' := p[..j] + p[j + 1..];
    var t, t' := Shuffle(s, p), Shuffle(s[..n], p');
    var u := t'[..j] + [s[n]] + t'[j..];
    assert |u| == |t|;
    forall i | 0 <= i < |t|
      ensures t[i] == u[i]
    {
      if i < j {
        assert p'[i] == p[i];
      } else if i > j {
        assert p'[i - 1] == p[i];
      }
    }
  }

  /** Inserting an element anywhere adds it to the multiset. */
  lemma MultisetOfInsert<T>(u: seq<T>, j: nat, x: T)
    requires j <= |u|
    ensures multiset(u[..j] + [x] + u[j..]) == multiset(u) + multiset{x}
  {
    assert u == u[..j] + u[j..];
  }

  /** Shuffling keeps the length and the multiset of elements: it only reorders. */
  lemma {:induction false} ShufflePreservesMultiset<T>(s: seq<T>, p: seq<nat>)
    requires IsPermutation(p, |s|)
    ensures |Shuffle(s, p)| == |s|
    ensures multiset(Shuffle(s, p)) == multiset(s)
  {
    if |s| > 0 {
      var n := |s| - 1;
      assert n in p;
      var j :| 0 <= j < |p| && p[j] == n;
      var p' := p[..j] + p[j + 1..];
      RemoveLargest(p, n, j);
      var s' := s[..n];
      ShufflePreservesMultiset(s', p');
      ShuffleSplit(s, p, j);
      MultisetOfInsert(Shuffle(s', p'), j, s[n]);
      assert s == s' + [s[n]];
    }
  }
}
