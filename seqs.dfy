/** Facts about sequences that the table operations and the page lemmas share. */
module Seqs {

  /** No element occurs twice. */
  predicate Distinct<T(==)>(s: seq<T>) {
    forall i, j :: 0 <= i < j < |s| ==> s[i] != s[j]
  }

  /** No element of `a` occurs in `b`. */
  predicate Disjoint<T(==)>(a: seq<T>, b: seq<T>) {
    forall i, j :: 0 <= i < |a| && 0 <= j < |b| ==> a[i] != b[j]
  }

  /** A concatenation is repetition-free exactly when both halves are and they share nothing. */
  lemma DistinctAppend<T>(a: seq<T>, b: seq<T>)
    ensures Distinct(a + b) <==> Distinct(a) && Distinct(b) && Disjoint(a, b)
  {
    if Distinct(a + b) {
      forall i, j | 0 <= i < j < |a| ensures a[i] != a[j] {
        assert a[i] == (a + b)[i] && a[j] == (a + b)[j];
      }
      forall i, j | 0 <= i < j < |b| ensures b[i] != b[j] {
        assert b[i] == (a + b)[|a| + i] && b[j] == (a + b)[|a| + j];
      }
      forall i, j | 0 <= i < |a| && 0 <= j < |b| ensures a[i] != b[j] {
        assert a[i] == (a + b)[i] && b[j] == (a + b)[|a| + j];
      }
    }
    if Distinct(a) && Distinct(b) && Disjoint(a, b) {
      forall i, j | 0 <= i < j < |a + b| ensures (a + b)[i] != (a + b)[j] {
        if j < |a| {
        } else if i < |a| {
          assert (a + b)[j] == b[j - |a|];
        } else {
          assert (a + b)[i] == b[i - |a|] && (a + b)[j] == b[j - |a|];
        }
      }
    }
  }

  /** Disjointness against a concatenation splits into its two halves. */
  lemma DisjointAppend<T>(a: seq<T>, b: seq<T>, c: seq<T>)
    ensures Disjoint(a, b + c) <==> Disjoint(a, b) && Disjoint(a, c)
  {
    if Disjoint(a, b + c) {
      forall i, j | 0 <= i < |a| && 0 <= j < |c| ensures a[i] != c[j] {
        assert c[j] == (b + c)[|b| + j];
      }
      forall i, j | 0 <= i < |a| && 0 <= j < |b| ensures a[i] != b[j] {
        assert b[j] == (b + c)[j];
      }
    }
  }

  /** The position of the first occurrence of `x` in `s`. */
  function IndexOf<T(==)>(s: seq<T>, x: T): (k: nat)
    requires x in s
    ensures k < |s| && s[k] == x
    ensures forall j :: 0 <= j < k ==> s[j] != x
  {
    if s[0] == x then 0 else 1 + IndexOf(s[1..], x)
  }

  /** In a repetition-free sequence an element is found at its own position. */
  lemma IndexOfDistinct<T>(s: seq<T>, k: nat)
    requires Distinct(s) && k < |s|
    ensures IndexOf(s, s[k]) == k
  {
  }

  /** The elements of `s` that are not in `drop`, in their order in `s`. */
  function Filter<T(==, !new)>(s: seq<T>, drop: set<T>): (r: seq<T>)
    ensures forall x :: x in r <==> x in s && x !in drop
    ensures |r| <= |s|
    ensures Distinct(s) ==> Distinct(r)
  {
    if |s| == 0 then []
    else if s[0] in drop then Filter(s[1..], drop)
    else [s[0]] + Filter(s[1..], drop)
  }

  /** Filtering out every element leaves nothing. */
  lemma FilterAll<T(!new)>(s: seq<T>, drop: set<T>)
    requires forall x :: x in s ==> x in drop
    ensures Filter(s, drop) == []
  {
  }

  /** Three blocks that are each repetition-free and pairwise disjoint make a
      repetition-free sequence. */
  lemma DistinctBlocks3<T>(a: seq<T>, b: seq<T>, c: seq<T>)
    requires Distinct(a) && Distinct(b) && Distinct(c)
    requires Disjoint(a, b) && Disjoint(a, c) && Disjoint(b, c)
    ensures Distinct(a + b + c)
  {
    DistinctAppend(a, b);
    DisjointAppend(c, a, b);
    DisjointSymmetric(c, a + b);
    DisjointSymmetric(c, a);
    DisjointSymmetric(c, b);
    DistinctAppend(a + b, c);
  }

  /** The same for four blocks. */
  lemma DistinctBlocks4<T>(a: seq<T>, b: seq<T>, c: seq<T>, d: seq<T>)
    requires Distinct(a) && Distinct(b) && Distinct(c) && Distinct(d)
    requires Disjoint(a, b) && Disjoint(a, c) && Disjoint(a, d)
    requires Disjoint(b, c) && Disjoint(b, d) && Disjoint(c, d)
    ensures Distinct(a + b + c + d)
  {
    DistinctBlocks3(a, b, c);
    DisjointAppend(d, a + b, c);
    DisjointAppend(d, a, b);
    DisjointSymmetric(d, a + b + c);
    DisjointSymmetric(d, a);
    DisjointSymmetric(d, b);
    DisjointSymmetric(d, c);
    DistinctAppend(a + b + c, d);
  }

  /** A sequence disjoint from each of three blocks is disjoint from their concatenation. */
  lemma DisjointBlocks3<T>(x: seq<T>, a: seq<T>, b: seq<T>, c: seq<T>)
    requires Disjoint(x, a) && Disjoint(x, b) && Disjoint(x, c)
    ensures Disjoint(x, a + b + c)
  {
    DisjointAppend(x, a, b);
    DisjointAppend(x, a + b, c);
  }

  /** The same for four blocks. */
  lemma DisjointBlocks4<T>(x: seq<T>, a: seq<T>, b: seq<T>, c: seq<T>, d: seq<T>)
    requires Disjoint(x, a) && Disjoint(x, b) && Disjoint(x, c) && Disjoint(x, d)
    ensures Disjoint(x, a + b + c + d)
  {
    DisjointBlocks3(x, a, b, c);
    DisjointAppend(x, a + b + c, d);
  }

  lemma DisjointSymmetric<T>(a: seq<T>, b: seq<T>)
    ensures Disjoint(a, b) <==> Disjoint(b, a)
  {
  }

  /** Filtering out elements that do not occur changes nothing. */
  lemma {:induction false} FilterNothing<T(!new)>(s: seq<T>, drop: set<T>)
    requires forall i :: 0 <= i < |s| ==> s[i] !in drop
    ensures Filter(s, drop) == s
  {
    if |s| > 0 {
      var tail := s[1..];
      assert forall i :: 0 <= i < |tail| ==> tail[i] !in drop by {
        forall i | 0 <= i < |tail| ensures tail[i] !in drop {
          assert tail[i] == s[i + 1];
        }
      }
      FilterNothing(tail, drop);
      assert Filter(s, drop) == [s[0]] + Filter(tail, drop);
      assert s == [s[0]] + tail;
    }
  }

  /** Filtering a concatenation filters each half. */
  lemma {:induction false} FilterAppend<T(!new)>(a: seq<T>, b: seq<T>, drop: set<T>)
    ensures Filter(a + b, drop) == Filter(a, drop) + Filter(b, drop)
  {
    if |a| == 0 {
      assert a + b == b;
    } else {
      var ab := a + b;
      assert ab[1..] == a[1..] + b;
      FilterAppend(a[1..], b, drop);
      var rest, tail := Filter(a[1..], drop), Filter(b, drop);
      if a[0] in drop {
        assert Filter(ab, drop) == rest + tail by {
          assert ab[0] == a[0];
        }
      } else {
        assert Filter(ab, drop) == [a[0]] + (rest + tail) by {
          assert ab[0] == a[0];
        }
        assert [a[0]] + (rest + tail) == ([a[0]] + rest) + tail;
      }
    }
  }


}
