/** Sorting as PHP's `sort` and `uksort` do it, over an arbitrary comparison:
    the sorted result is a permutation of the input, ordered by the
    comparison. */
module Sorting {

  predicate Sorted<T>(s: seq<T>, le: (T, T) -> bool) {
    forall i, j :: 0 <= i < j < |s| ==> le(s[i], s[j])
  }

  /** A comparison any two values can be put through. */
  ghost predicate Total<T(!new)>(le: (T, T) -> bool) {
    forall a, b :: le(a, b) || le(b, a)
  }

  ghost predicate Transitive<T(!new)>(le: (T, T) -> bool) {
    forall a, b, c :: le(a, b) && le(b, c) ==> le(a, c)
  }

  /** A comparison that tells every two distinct values apart. */
  ghost predicate Antisymmetric<T(!new)>(le: (T, T) -> bool) {
    forall a, b :: le(a, b) && le(b, a) ==> a == b
  }

  /** Puts `x` in front of the first element it does not come after. */
  function Insert<T>(x: T, s: seq<T>, le: (T, T) -> bool): (r: seq<T>)
    ensures multiset(r) == multiset(s) + multiset{x}
  {
    if s == [] then [x]
    else if le(x, s[0]) then [x] + s
    else
      assert s == [s[0]] + s[1..];
      [s[0]] + Insert(x, s[1..], le)
  }

  /** Insertion sort: each element is inserted into the sorted rest. */
  function SortBy<T>(s: seq<T>, le: (T, T) -> bool): (r: seq<T>)
    ensures multiset(r) == multiset(s)
  {
    if s == [] then []
    else
      assert s == [s[0]] + s[1..];
      Insert(s[0], SortBy(s[1..], le), le)
  }

  lemma {:induction false} InsertSorted<T(!new)>(x: T, s: seq<T>, le: (T, T) -> bool)
    requires Total(le) && Transitive(le)
    requires Sorted(s, le)
    ensures Sorted(Insert(x, s, le), le)
  {
    if s != [] && !le(x, s[0]) {
      InsertSorted(x, s[1..], le);
      var r := Insert(x, s, le);
      var t := Insert(x, s[1..], le);
      assert r == [s[0]] + t;
      assert le(s[0], x);
      forall j | 0 < j < |r| ensures le(s[0], r[j]) {
        assert r[j] in multiset(t);
        assert r[j] == x || r[j] in multiset(s[1..]);
        if r[j] != x {
          var k :| 0 <= k < |s[1..]| && s[1..][k] == r[j];
          assert r[j] == s[k + 1];
        }
      }
    }
  }

  /** The result of `SortBy` is ordered by the comparison. */
  lemma {:induction false} SortBySorted<T(!new)>(s: seq<T>, le: (T, T) -> bool)
    requires Total(le) && Transitive(le)
    ensures Sorted(SortBy(s, le), le)
  {
    if s != [] {
      SortBySorted(s[1..], le);
      InsertSorted(s[0], SortBy(s[1..], le), le);
    }
  }

  /** Under a comparison that tells distinct values apart, there is only one
      ordered arrangement of a multiset of values. */
  lemma {:induction false} SortedUnique<T(!new)>(a: seq<T>, b: seq<T>, le: (T, T) -> bool)
    requires Antisymmetric(le)
    requires Sorted(a, le) && Sorted(b, le)
    requires multiset(a) == multiset(b)
    ensures a == b
  {
    if a == [] {
      assert |b| == |multiset(b)| == 0;
    } else {
      assert |b| == |multiset(b)| == |multiset(a)| == |a|;
      SortedHeads(a, b, le);
      SameTails(a, b);
      assert Sorted(a[1..], le) && Sorted(b[1..], le);
      SortedUnique(a[1..], b[1..], le);
      assert a == [a[0]] + a[1..] && b == [b[0]] + b[1..];
    }
  }

  /** Both arrangements start with the same least element. */
  lemma SortedHeads<T(!new)>(a: seq<T>, b: seq<T>, le: (T, T) -> bool)
    requires Antisymmetric(le)
    requires Sorted(a, le) && Sorted(b, le)
    requires multiset(a) == multiset(b) && a != []
    ensures b != [] && a[0] == b[0]
  {
    assert a[0] in multiset(b);
    var k :| 0 <= k < |b| && b[k] == a[0];
    assert b[0] in multiset(a);
    var m :| 0 <= m < |a| && a[m] == b[0];
    if m != 0 {
      assert le(a[0], a[m]);
    }
    if k != 0 {
      assert le(b[0], b[k]);
    }
  }

  lemma SameTails<T>(a: seq<T>, b: seq<T>)
    requires a != [] && b != [] && a[0] == b[0]
    requires multiset(a) == multiset(b)
    ensures multiset(a[1..]) == multiset(b[1..])
  {
    assert a == [a[0]] + a[1..] && b == [b[0]] + b[1..];
    assert multiset(a[1..]) == multiset(a) - multiset{a[0]};
    assert multiset(b[1..]) == multiset(b) - multiset{b[0]};
  }

  /** Sorting forgets the input order: permutations of each other sort to
      the same sequence. */
  lemma SortByPermutation<T(!new)>(s: seq<T>, t: seq<T>, le: (T, T) -> bool)
    requires Total(le) && Transitive(le) && Antisymmetric(le)
    requires multiset(s) == multiset(t)
    ensures SortBy(s, le) == SortBy(t, le)
  {
    SortBySorted(s, le);
    SortBySorted(t, le);
    SortedUnique(SortBy(s, le), SortBy(t, le), le);
  }

  /** `array_map`: `f` applied to every element, in order. */
  function MapSeq<A, B>(f: A -> B, s: seq<A>): (r: seq<B>)
    ensures |r| == |s|
    ensures forall i {:trigger r[i]} :: 0 <= i < |s| ==> r[i] == f(s[i])
  {
    if s == [] then [] else [f(s[0])] + MapSeq(f, s[1..])
  }

  lemma {:induction false} MapSeqConcat<A, B>(f: A -> B, s: seq<A>, t: seq<A>)
    ensures MapSeq(f, s + t) == MapSeq(f, s) + MapSeq(f, t)
  {
    assert |MapSeq(f, s + t)| == |MapSeq(f, s) + MapSeq(f, t)|;
    forall i | 0 <= i < |s + t|
      ensures MapSeq(f, s + t)[i] == (MapSeq(f, s) + MapSeq(f, t))[i]
    {
      if i < |s| {
        assert (s + t)[i] == s[i];
      } else {
        assert (s + t)[i] == t[i - |s|];
      }
    }
  }

  /** Mapping permutations of each other gives permutations of each other. */
  lemma {:induction false} MapSeqPermutation<A, B>(f: A -> B, s: seq<A>, t: seq<A>)
    requires multiset(s) == multiset(t)
    ensures multiset(MapSeq(f, s)) == multiset(MapSeq(f, t))
    decreases |s|
  {
    if s == [] {
      assert |t| == |multiset(t)| == 0;
    } else {
      var x := s[0];
      assert s == [x] + s[1..];
      assert x in multiset(t);
      var k :| 0 <= k < |t| && t[k] == x;
      var u := t[..k] + t[k + 1..];
      RemoveAt(t, k);
      assert multiset(s[1..]) == multiset(u);
      MapSeqPermutation(f, s[1..], u);
      MapSeqRemove(f, t, k);
      assert MapSeq(f, s) == [f(x)] + MapSeq(f, s[1..]);
      MultisetHead(f(x), MapSeq(f, s[1..]));
    }
  }

  /** Taking out the element at `k` takes one copy of it out of the multiset. */
  lemma RemoveAt<A>(t: seq<A>, k: nat)
    requires k < |t|
    ensures multiset(t[..k] + t[k + 1..]) == multiset(t) - multiset{t[k]}
  {
    assert t == t[..k] + [t[k]] + t[k + 1..];
  }

  lemma MultisetHead<B>(y: B, c: seq<B>)
    ensures multiset([y] + c) == multiset(c) + multiset{y}
  {
  }

  /** Taking one element out of the input takes its image out of the output. */
  lemma MapSeqRemove<A, B>(f: A -> B, t: seq<A>, k: nat)
    requires k < |t|
    ensures multiset(MapSeq(f, t))
         == multiset(MapSeq(f, t[..k] + t[k + 1..])) + multiset{f(t[k])}
  {
    MapSeqSplit(f, t, k);
    MapSeqConcat(f, t[..k], t[k + 1..]);
    MultisetMiddle(MapSeq(f, t[..k]), f(t[k]), MapSeq(f, t[k + 1..]));
  }

  lemma MapSeqSplit<A, B>(f: A -> B, t: seq<A>, k: nat)
    requires k < |t|
    ensures MapSeq(f, t) == MapSeq(f, t[..k]) + ([f(t[k])] + MapSeq(f, t[k + 1..]))
  {
    var r := MapSeq(f, t[..k]) + ([f(t[k])] + MapSeq(f, t[k + 1..]));
    assert |r| == |t|;
    forall i | 0 <= i < |t| ensures r[i] == MapSeq(f, t)[i] {
      if i < k {
        assert r[i] == MapSeq(f, t[..k])[i];
      } else if i > k {
        assert r[i] == MapSeq(f, t[k + 1..])[i - k - 1];
      }
    }
  }

  lemma MultisetMiddle<B>(a: seq<B>, y: B, c: seq<B>)
    ensures multiset(a + ([y] + c)) == multiset(a + c) + multiset{y}
  {
  }
}
