/**
 * Sequence operations that the analyzer borrows from the JavaScript runtime:
 * de-duplication through a `Set` (first occurrence kept, insertion order),
 * `slice(0, n)`, and the stable `Array.prototype.sort` with a numeric key.
 */
module SeqUtil {

  /** No element occurs twice. */
  predicate Distinct<T(==)>(s: seq<T>) {
    forall i, j :: 0 <= i < j < |s| ==> s[i] != s[j]
  }

  /** `[...new Set(s)]`: each element once, in order of first appearance. */
  function Dedup<T(==, !new)>(s: seq<T>): (r: seq<T>)
    ensures Distinct(r)
    ensures forall x :: x in r <==> x in s
    ensures |r| <= |s|
  {
    if s == [] then []
    else
      var d := Dedup(s[..|s| - 1]);
      if s[|s| - 1] in d then d else d + [s[|s| - 1]]
  }

  /** `s.slice(0, n)`. */
  function Take<T(==)>(s: seq<T>, n: nat): (r: seq<T>)
    ensures |r| <= n && r <= s
    ensures |s| <= n ==> r == s
    ensures n <= |s| ==> |r| == n
  {
    if |s| <= n then s else s[..n]
  }

  lemma {:induction false} DistinctIsFixedPoint<T(!new)>(s: seq<T>)
    requires Distinct(s)
    ensures Dedup(s) == s
  {
    if s != [] {
      var p := s[..|s| - 1];
      assert Distinct(p);
      DistinctIsFixedPoint(p);
      assert s[|s| - 1] !in p;
      assert p + [s[|s| - 1]] == s;
    }
  }

  /** Unfolding step of `Dedup` at the end of the list, stated apart to keep callers cheap. */
  lemma DedupSnoc<T(!new)>(s: seq<T>, x: T)
    ensures Dedup(s + [x]) == if x in s then Dedup(s) else Dedup(s) + [x]
  {
    assert (s + [x])[..|s|] == s;
  }

  lemma {:induction false} DedupPrefix<T(!new)>(a: seq<T>, b: seq<T>)
    ensures Dedup(a) <= Dedup(a + b)
  {
    if b != [] {
      var b' := b[..|b| - 1];
      assert (a + b)[..|a + b| - 1] == a + b';
      DedupPrefix(a, b');
    } else {
      assert a + b == a;
    }
  }

  /** De-duplicating `a + b` only depends on the de-duplicated `a`. */
  lemma {:induction false} DedupOfDedup<T(!new)>(a: seq<T>, b: seq<T>)
    ensures Dedup(a + b) == Dedup(Dedup(a) + b)
  {
    if b == [] {
      assert a + b == a;
      assert Dedup(a) + b == Dedup(a);
      DistinctIsFixedPoint(Dedup(a));
    } else {
      var b' := b[..|b| - 1];
      assert (a + b)[..|a + b| - 1] == a + b';
      assert (Dedup(a) + b)[..|Dedup(a) + b| - 1] == Dedup(a) + b';
      DedupOfDedup(a, b');
    }
  }

  /**
   * Truncating the running union to `n` after every merge gives the same
   * result as one union of everything truncated once.
   */
  lemma TakeDedupAbsorbs<T(!new)>(a: seq<T>, b: seq<T>, n: nat)
    ensures Take(Dedup(Take(Dedup(a), n) + b), n) == Take(Dedup(a + b), n)
  {
    var d := Dedup(a);
    DedupPrefix(a, b);
    if |d| <= n {
      DedupOfDedup(a, b);
    } else {
      var p := d[..n];
      assert Distinct(p);
      DistinctIsFixedPoint(p);
      DedupPrefix(p, b);
      assert Take(Dedup(p + b), n) == p;
    }
  }

  /** Sum over the values `vs` of how often each occurs in `s`. */
  function SumOccurrences<T(==)>(vs: seq<T>, s: seq<T>): int {
    if vs == [] then 0 else SumOccurrences(vs[..|vs| - 1], s) + multiset(s)[vs[|vs| - 1]]
  }

  lemma {:induction false} SumOccurrencesStep<T>(vs: seq<T>, s: seq<T>, x: T)
    ensures SumOccurrences(vs, s + [x]) == SumOccurrences(vs, s) + multiset(vs)[x]
  {
    if vs != [] {
      var vs' := vs[..|vs| - 1];
      assert vs == vs' + [vs[|vs| - 1]];
      SumOccurrencesStep(vs', s, x);
    }
  }

  lemma {:induction false} DistinctOnce<T>(vs: seq<T>, x: T)
    requires Distinct(vs) && x in vs
    ensures multiset(vs)[x] == 1
  {
    var vs' := vs[..|vs| - 1];
    assert vs == vs' + [vs[|vs| - 1]];
    if vs[|vs| - 1] == x {
      assert x !in vs';
    } else {
      DistinctOnce(vs', x);
    }
  }

  /** The occurrence counts of distinct values covering `s` add up to `|s|`. */
  lemma {:induction false} SumOccurrencesCovering<T>(vs: seq<T>, s: seq<T>)
    requires Distinct(vs)
    requires forall x :: x in s ==> x in vs
    ensures SumOccurrences(vs, s) == |s|
  {
    if s == [] {
      ZeroOccurrences(vs, s);
    } else {
      var s' := s[..|s| - 1];
      var x := s[|s| - 1];
      assert s == s' + [x];
      SumOccurrencesCovering(vs, s');
      SumOccurrencesStep(vs, s', x);
      DistinctOnce(vs, x);
    }
  }

  lemma {:induction false} ZeroOccurrences<T>(vs: seq<T>, s: seq<T>)
    requires s == []
    ensures SumOccurrences(vs, s) == 0
  {
    if vs != [] {
      ZeroOccurrences(vs[..|vs| - 1], s);
    }
  }

  /** Grouping by distinct value partitions the sequence. */
  lemma GroupSizesSum<T(!new)>(s: seq<T>)
    ensures SumOccurrences(Dedup(s), s) == |s|
  {
    SumOccurrencesCovering(Dedup(s), s);
  }

  // ---------------------------------------------------------------------------
  // Stable sorting by an integer key
  // ---------------------------------------------------------------------------

  predicate SortedBy<T(==)>(s: seq<T>, key: T -> int) {
    forall i, j :: 0 <= i < j < |s| ==> key(s[i]) <= key(s[j])
  }

  /** The elements of `s` whose key is `k`, in their order in `s`. */
  function WithKey<T(==)>(s: seq<T>, key: T -> int, k: int): seq<T> {
    if s == [] then []
    else (if key(s[0]) == k then [s[0]] else []) + WithKey(s[1..], key, k)
  }

  function InsertBy<T(==)>(x: T, s: seq<T>, key: T -> int): (r: seq<T>)
    requires SortedBy(s, key)
    ensures SortedBy(r, key)
    ensures multiset(r) == multiset(s) + multiset{x}
    ensures |r| == |s| + 1
    ensures r != [] && (key(r[0]) == key(x) || (s != [] && r[0] == s[0]))
  {
    if s == [] || key(x) <= key(s[0]) then
      SortedCons(x, s, key);
      [x] + s
    else
      var t := InsertBy(x, s[1..], key);
      InsertStep(x, s, t, key);
      [s[0]] + t
  }

  /** The recursive step of `InsertBy`: `s[0]` goes in front of `x` inserted into the rest. */
  lemma InsertStep<T>(x: T, s: seq<T>, t: seq<T>, key: T -> int)
    requires SortedBy(s, key) && s != [] && key(x) > key(s[0])
    requires SortedBy(t, key) && multiset(t) == multiset(s[1..]) + multiset{x} && |t| == |s|
    requires key(t[0]) == key(x) || (s[1..] != [] && t[0] == s[1..][0])
    ensures SortedBy([s[0]] + t, key)
    ensures multiset([s[0]] + t) == multiset(s) + multiset{x}
  {
    assert key(s[0]) <= key(t[0]) by {
      if key(t[0]) != key(x) {
        assert t[0] == s[1];
      }
    }
    SortedCons(s[0], t, key);
    assert s == [s[0]] + s[1..];
  }

  /** Unfolding step: a key no larger than the head's keeps a sorted list sorted when put in front. */
  lemma SortedCons<T>(h: T, t: seq<T>, key: T -> int)
    requires SortedBy(t, key) && (t == [] || key(h) <= key(t[0]))
    ensures SortedBy([h] + t, key)
  {
    var r := [h] + t;
    forall i, j | 0 <= i < j < |r| ensures key(r[i]) <= key(r[j]) {
      if i > 0 {
        assert r[i] == t[i - 1] && r[j] == t[j - 1];
      } else {
        assert r[j] == t[j - 1];
      }
    }
  }

  /**
   * The stable sort performed by `Array.prototype.sort` with the comparator
   * `(a, b) => key(a) - key(b)`: the result is ordered by key and is a
   * permutation of the input (stability is `SortByIsStable`).
   */
  function SortBy<T(==)>(s: seq<T>, key: T -> int): (r: seq<T>)
    ensures SortedBy(r, key)
    ensures multiset(r) == multiset(s)
    ensures |r| == |s|
  {
    if s == [] then []
    else
      assert s == [s[0]] + s[1..];
      InsertBy(s[0], SortBy(s[1..], key), key)
  }

  /** Unfolding step of `WithKey` on a list built with a head, stated apart to keep callers cheap. */
  lemma WithKeyCons<T>(h: T, t: seq<T>, key: T -> int, k: int)
    ensures WithKey([h] + t, key, k) == (if key(h) == k then [h] else []) + WithKey(t, key, k)
  {
    assert ([h] + t)[1..] == t;
  }

  lemma {:induction false} InsertByIsStable<T>(x: T, s: seq<T>, key: T -> int, k: int)
    requires SortedBy(s, key)
    ensures WithKey(InsertBy(x, s, key), key, k) == WithKey([x] + s, key, k)
  {
    if s != [] && key(x) > key(s[0]) {
      InsertByIsStable(x, s[1..], key, k);
      StableStep(x, s[0], s[1..], InsertBy(x, s[1..], key), key, k);
      assert [s[0]] + s[1..] == s;
    }
  }

  /** Moving `x` past an element with another key does not change the order of either key's elements. */
  lemma StableStep<T>(x: T, h: T, rest: seq<T>, t: seq<T>, key: T -> int, k: int)
    requires key(x) != key(h)
    requires WithKey(t, key, k) == WithKey([x] + rest, key, k)
    ensures WithKey([h] + t, key, k) == WithKey([x] + ([h] + rest), key, k)
  {
    WithKeyCons(h, t, key, k);
    WithKeyCons(x, rest, key, k);
    WithKeyCons(x, [h] + rest, key, k);
    WithKeyCons(h, rest, key, k);
  }

  /** Elements with equal keys keep their relative input order. */
  lemma {:induction false} SortByIsStable<T>(s: seq<T>, key: T -> int, k: int)
    ensures WithKey(SortBy(s, key), key, k) == WithKey(s, key, k)
  {
    if s != [] {
      var r := SortBy(s[1..], key);
      SortByIsStable(s[1..], key, k);
      InsertByIsStable(s[0], r, key, k);
      assert ([s[0]] + r)[1..] == r;
    }
  }

  lemma DistinctPermutation<T>(a: seq<T>, b: seq<T>)
    requires multiset(a) == multiset(b) && Distinct(a)
    ensures Distinct(b)
  {
    forall i, j | 0 <= i < j < |b| ensures b[i] != b[j] {
      if b[i] == b[j] {
        var x := b[i];
        TwoOccurrences(b, i, j);
        assert x in a;
        DistinctOnce(a, x);
        assert false;
      }
    }
  }

  lemma TwoOccurrences<T>(b: seq<T>, i: nat, j: nat)
    requires i < j < |b| && b[i] == b[j]
    ensures multiset(b)[b[i]] >= 2
  {
    var x := b[i];
    var u, v, w := b[..i], b[i + 1..j], b[j + 1..];
    assert b == u + [x] + v + [x] + w;
    assert multiset(b) == multiset(u) + multiset{x} + multiset(v) + multiset{x} + multiset(w);
  }
}
