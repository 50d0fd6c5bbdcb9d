/** Sequence helpers shared by the model: concatenation of slices, sums,
    index ranges, repetition, distinctness and permutations. */
module SeqUtil {

  /** Concatenation of a sequence of sequences (JavaScript `chunks.flat()`). */
  function Flatten<T>(ss: seq<seq<T>>): seq<T>
  {
    if |ss| == 0 then [] else Flatten(ss[..|ss| - 1]) + ss[|ss| - 1]
  }

  lemma FlattenSnoc<T>(ss: seq<seq<T>>, s: seq<T>)
    ensures Flatten(ss + [s]) == Flatten(ss) + s
  {
    assert (ss + [s])[..|ss|] == ss;
  }

  lemma {:induction false} FlattenAllEmpty<T>(ss: seq<seq<T>>)
    requires forall w :: 0 <= w < |ss| ==> ss[w] == []
    ensures Flatten(ss) == []
  {
    if |ss| > 0 {
      FlattenAllEmpty(ss[..|ss| - 1]);
    }
  }

  /** Replacing one slice changes the multiset of the concatenation by exactly
      the elements of the two slices. */
  lemma {:induction false} FlattenUpdateMultiset<T>(ss: seq<seq<T>>, w: nat, t: seq<T>)
    requires w < |ss|
    ensures multiset(Flatten(ss[w := t])) + multiset(ss[w]) == multiset(Flatten(ss)) + multiset(t)
  {
    var n := |ss|;
    if w == n - 1 {
      assert ss[w := t][..n - 1] == ss[..n - 1];
    } else {
      var u := ss[w := t];
      assert u[..n - 1] == ss[..n - 1][w := t];
      assert u[n - 1] == ss[n - 1];
      FlattenUpdateMultiset(ss[..n - 1], w, t);
      calc {
        multiset(Flatten(u)) + multiset(ss[w]);
        multiset(Flatten(u[..n - 1])) + multiset(ss[n - 1]) + multiset(ss[w]);
        multiset(Flatten(ss[..n - 1][w := t])) + multiset(ss[..n - 1][w]) + multiset(ss[n - 1]);
        multiset(Flatten(ss[..n - 1])) + multiset(t) + multiset(ss[n - 1]);
        multiset(Flatten(ss)) + multiset(t);
      }
    }
  }

  function Sum(s: seq<int>): int
  {
    if |s| == 0 then 0 else Sum(s[..|s| - 1]) + s[|s| - 1]
  }

  /** The indices `0, 1, ..., n - 1` (JavaScript `Array.from({ length: n }, (_, i) => i)`). */
  function Range(n: nat): (r: seq<int>)
    ensures |r| == n
    ensures forall i :: 0 <= i < n ==> r[i] == i
  {
    seq(n, i => i)
  }

  /** `n` copies of `x`. */
  function Repeat<T>(x: T, n: nat): (r: seq<T>)
    ensures |r| == n
    ensures forall i :: 0 <= i < n ==> r[i] == x
  {
    seq(n, _ => x)
  }

  ghost predicate StrictlyAscending(s: seq<int>)
  {
    forall i, j :: 0 <= i < j < |s| ==> s[i] < s[j]
  }

  ghost predicate Distinct<T>(s: seq<T>)
  {
    forall i, j :: 0 <= i < j < |s| ==> s[i] != s[j]
  }

  lemma {:induction false} DistinctCount<T>(s: seq<T>, x: T)
    requires Distinct(s)
    ensures multiset(s)[x] <= 1
  {
    if |s| > 0 {
      var n := |s|;
      assert s == s[..n - 1] + [s[n - 1]];
      DistinctCount(s[..n - 1], x);
      if s[n - 1] == x {
        assert x !in s[..n - 1];
      }
    }
  }

  /** A permutation of a sequence without repetitions has no repetitions
      and the same elements. */
  lemma PermutationOfDistinct<T>(a: seq<T>, b: seq<T>)
    requires multiset(a) == multiset(b)
    requires Distinct(b)
    ensures Distinct(a)
    ensures |a| == |b|
    ensures forall x :: x in a <==> x in b
  {
    assert |a| == |multiset(a)| == |multiset(b)| == |b|;
    forall x ensures x in a <==> x in b {
      assert x in a <==> x in multiset(a);
      assert x in b <==> x in multiset(b);
    }
    forall i, j | 0 <= i < j < |a| ensures a[i] != a[j] {
      if a[i] == a[j] {
        var x := a[i];
        assert a == a[..j] + a[j..];
        assert x in a[..j] && x in a[j..];
        assert multiset(a)[x] == multiset(a[..j])[x] + multiset(a[j..])[x] >= 2;
        DistinctCount(b, x);
        assert false;
      }
    }
  }

  lemma AscendingIsDistinct(s: seq<int>)
    requires StrictlyAscending(s)
    ensures Distinct(s)
  {
  }

  /** A sequence without repetitions has as many distinct elements as it
      has positions. */
  lemma {:induction false} DistinctSetSize<T>(s: seq<T>)
    requires Distinct(s)
    ensures |set x | x in s| == |s|
  {
    if |s| > 0 {
      var n := |s| - 1;
      var init := s[..n];
      DistinctSetSize(init);
      assert (set x | x in s) == (set x | x in init) + {s[n]};
      assert s[n] !in init;
    }
  }

  /** A map keyed by exactly the elements of a sequence without repetitions
      has as many keys as the sequence has positions. */
  lemma MapOverDistinct<V>(m: map<int, V>, s: seq<int>)
    requires Distinct(s)
    requires forall k :: k in m <==> k in s
    ensures |m.Keys| == |s|
  {
    var keys := set x | x in s;
    assert forall x :: x in m.Keys <==> x in keys;
    assert m.Keys == keys;
    DistinctSetSize(s);
  }

  /** Adding the same elements to both sides of a multiset equation can be
      undone. */
  lemma MultisetCancel<T>(x: multiset<T>, y: multiset<T>, z: multiset<T>)
    requires x + z == y + z
    ensures x == y
  {
    forall e ensures x[e] == y[e] {
      assert (x + z)[e] == (y + z)[e];
    }
  }
}
