/**
 * The pieces of the Swift standard library that the view-model code leans on:
 * `filter`, `Dictionary(uniqueKeysWithValues:)` and the order-preservation
 * notion used to state what they do.
 */
module Collections {
  import opened Options

  /** No element occurs twice in `s`. */
  predicate Distinct<T(==)>(s: seq<T>) {
    forall i, j :: 0 <= i < j < |s| ==> s[i] != s[j]
  }

  /** The two consecutive parts of a prefix of a sequence without repetitions share no element. */
  lemma DistinctParts<T>(s: seq<T>, p: seq<T>, q: seq<T>)
    requires Distinct(s) && p + q <= s
    ensures Distinct(q)
    ensures forall x :: x in q ==> x !in p
  {
    forall x | x in q ensures x !in p {
      var j :| 0 <= j < |q| && q[j] == x;
      assert s[|p| + j] == x;
      forall i | 0 <= i < |p| ensures p[i] != x {
        assert s[i] == p[i];
      }
    }
    forall i, j | 0 <= i < j < |q| ensures q[i] != q[j] {
      assert s[|p| + i] == q[i] && s[|p| + j] == q[j];
    }
  }

  /** `r` can be obtained from `s` by deleting elements, keeping the order of the rest. */
  ghost predicate IsSubsequence<T>(r: seq<T>, s: seq<T>)
    decreases |s|
  {
    r == [] || (s != [] && ((r[0] == s[0] && IsSubsequence(r[1..], s[1..])) || IsSubsequence(r, s[1..])))
  }

  lemma {:induction false} SubsequenceReflexive<T>(s: seq<T>)
    ensures IsSubsequence(s, s)
    decreases |s|
  {
    if s != [] {
      SubsequenceReflexive(s[1..]);
    }
  }

  /** Removing the element at `i` leaves a subsequence. */
  lemma {:induction false} RemovalIsSubsequence<T>(s: seq<T>, i: nat)
    requires i < |s|
    ensures IsSubsequence(s[..i] + s[i + 1..], s)
    decreases i
  {
    if i == 0 {
      assert s[..0] + s[1..] == s[1..];
      SubsequenceReflexive(s[1..]);
    } else {
      var r := s[..i] + s[i + 1..];
      RemovalIsSubsequence(s[1..], i - 1);
      assert r[0] == s[0];
      assert r[1..] == s[1..][..i - 1] + s[1..][i..];
    }
  }

  /** Swift's `filter`: the elements of `s` satisfying `p`, in their original order. */
  function Filter<T(!new)>(s: seq<T>, p: T -> bool): (r: seq<T>)
    ensures |r| <= |s|
    ensures forall x :: x in r <==> x in s && p(x)
    ensures forall x :: multiset(r)[x] == if p(x) then multiset(s)[x] else 0
    ensures IsSubsequence(r, s)
    decreases |s|
  {
    if s == [] then []
    else
      var rest := Filter(s[1..], p);
      assert s == [s[0]] + s[1..];
      if p(s[0]) then
        var r := [s[0]] + rest;
        assert r[1..] == rest;
        r
      else rest
  }

  /** Every pair's key differs from every other pair's key. */
  predicate UniqueKeys<K(==), V>(pairs: seq<(K, V)>) {
    forall i, j :: 0 <= i < j < |pairs| ==> pairs[i].0 != pairs[j].0
  }

  /**
   * Swift's `Dictionary(uniqueKeysWithValues:)`: inserts the pairs one by one.
   * Swift traps on a repeated key, hence the precondition.
   */
  function DictionaryOf<K(==,!new), V>(pairs: seq<(K, V)>): (d: map<K, V>)
    requires UniqueKeys(pairs)
    ensures forall k :: k in d <==> exists i :: 0 <= i < |pairs| && pairs[i].0 == k
    ensures forall i :: 0 <= i < |pairs| ==> pairs[i].0 in d && d[pairs[i].0] == pairs[i].1
    ensures |d| == |pairs|
    decreases |pairs|
  {
    if pairs == [] then map[]
    else
      var last := |pairs| - 1;
      UniqueKeysOfPrefix(pairs);
      var before := DictionaryOf(pairs[..last]);
      InsertLastPair(pairs, before);
      before[pairs[last].0 := pairs[last].1]
  }

  lemma UniqueKeysOfPrefix<K, V>(pairs: seq<(K, V)>)
    requires pairs != [] && UniqueKeys(pairs)
    ensures UniqueKeys(pairs[..|pairs| - 1])
  {
  }

  /** Inserting the last pair into the dictionary of the others adds one new key. */
  lemma InsertLastPair<K(!new), V>(pairs: seq<(K, V)>, before: map<K, V>)
    requires pairs != [] && UniqueKeys(pairs)
    requires var prefix := pairs[..|pairs| - 1];
      && (forall k :: k in before <==> exists i :: 0 <= i < |prefix| && prefix[i].0 == k)
      && (forall i :: 0 <= i < |prefix| ==> prefix[i].0 in before && before[prefix[i].0] == prefix[i].1)
      && |before| == |prefix|
    ensures var d := before[pairs[|pairs| - 1].0 := pairs[|pairs| - 1].1];
      && (forall k :: k in d <==> exists i :: 0 <= i < |pairs| && pairs[i].0 == k)
      && (forall i :: 0 <= i < |pairs| ==> pairs[i].0 in d && d[pairs[i].0] == pairs[i].1)
      && |d| == |pairs|
  {
    var last := |pairs| - 1;
    var prefix := pairs[..last];
    var key := pairs[last].0;
    assert forall i :: 0 <= i < last ==> prefix[i] == pairs[i];
    assert key !in before;
  }

  /** Swift's dictionary subscript: the value under `k`, if any. */
  function Get<K, V>(d: map<K, V>, k: K): Option<V> {
    if k in d then Some(d[k]) else None
  }
}
