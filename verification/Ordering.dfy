/**
 Stable sorting by a total preorder, and the facts the callers need: the result is
 sorted, it is a permutation of the input, and it is the only sorted permutation
 whenever order-equivalent elements of the input are equal.
 */
module Ordering {

  ghost predicate TotalPreorder<T(!new)>(leq: (T, T) -> bool) {
    && (forall a, b :: leq(a, b) || leq(b, a))
    && (forall a, b, c :: leq(a, b) && leq(b, c) ==> leq(a, c))
  }

  ghost predicate Sorted<T>(leq: (T, T) -> bool, s: seq<T>) {
    forall i, j :: 0 <= i < j < |s| ==> leq(s[i], s[j])
  }

  /** Order-equivalent members of `s` are equal. */
  ghost predicate Antisymmetric<T>(leq: (T, T) -> bool, s: seq<T>) {
    forall a, b :: a in s && b in s && leq(a, b) && leq(b, a) ==> a == b
  }

  function Insert<T>(leq: (T, T) -> bool, x: T, s: seq<T>): seq<T> {
    if s == [] then [x]
    else if leq(x, s[0]) then [x] + s
    else [s[0]] + Insert(leq, x, s[1..])
  }

  /** Insertion from the right, so order-equivalent elements keep their relative order. */
  function Sort<T>(leq: (T, T) -> bool, s: seq<T>): seq<T> {
    if s == [] then [] else Insert(leq, s[0], Sort(leq, s[1..]))
  }

  lemma SameMultisetSameMembers<T>(s: seq<T>, t: seq<T>)
    requires multiset(s) == multiset(t)
    ensures |s| == |t|
    ensures forall x :: x in s <==> x in t
  {
    assert |multiset(s)| == |s| && |multiset(t)| == |t|;
    forall x ensures x in s <==> x in t {
      assert x in s <==> x in multiset(s);
      assert x in t <==> x in multiset(t);
    }
  }

  lemma WithoutFirst<T>(s: seq<T>)
    requires s != []
    ensures multiset(s[1..]) == multiset(s) - multiset{s[0]} && s == [s[0]] + s[1..]
  {
    assert s == [s[0]] + s[1..];
    assert multiset(s) == multiset{s[0]} + multiset(s[1..]);
  }

  lemma {:induction false} InsertPermutes<T>(leq: (T, T) -> bool, x: T, s: seq<T>)
    ensures multiset(Insert(leq, x, s)) == multiset(s) + multiset{x}
  {
    if s != [] && !leq(x, s[0]) {
      InsertPermutes(leq, x, s[1..]);
      WithoutFirst(s);
    }
  }

  lemma {:induction false} InsertSorts<T(!new)>(leq: (T, T) -> bool, x: T, s: seq<T>)
    requires TotalPreorder(leq) && Sorted(leq, s)
    ensures Sorted(leq, Insert(leq, x, s))
  {
    if s != [] && !leq(x, s[0]) {
      var rest := Insert(leq, x, s[1..]);
      InsertSorts(leq, x, s[1..]);
      InsertPermutes(leq, x, s[1..]);
      forall i | 0 <= i < |rest| ensures leq(s[0], rest[i]) {
        assert rest[i] in multiset(rest);
        assert rest[i] == x || rest[i] in s[1..];
      }
    }
  }

  /** Sorting yields a sorted permutation. */
  lemma {:induction false} SortIsSortedPermutation<T(!new)>(leq: (T, T) -> bool, s: seq<T>)
    requires TotalPreorder(leq)
    ensures Sorted(leq, Sort(leq, s))
    ensures multiset(Sort(leq, s)) == multiset(s)
    ensures |Sort(leq, s)| == |s|
    ensures forall x :: x in Sort(leq, s) <==> x in s
  {
    if s != [] {
      SortIsSortedPermutation(leq, s[1..]);
      InsertSorts(leq, s[0], Sort(leq, s[1..]));
      InsertPermutes(leq, s[0], Sort(leq, s[1..]));
      WithoutFirst(s);
    }
    SameMultisetSameMembers(Sort(leq, s), s);
  }

  lemma Without<T>(s: seq<T>, i: nat)
    requires i < |s|
    ensures multiset(s[..i] + s[i + 1..]) == multiset(s) - multiset{s[i]}
    ensures s == s[..i] + [s[i]] + s[i + 1..]
  {
    assert s == s[..i] + [s[i]] + s[i + 1..];
    assert multiset(s) == multiset(s[..i]) + multiset{s[i]} + multiset(s[i + 1..]);
  }

  lemma SameLeast<T(!new)>(leq: (T, T) -> bool, s: seq<T>, t: seq<T>)
    requires TotalPreorder(leq) && Sorted(leq, s) && Sorted(leq, t) && s != [] && t != []
    requires s[0] in t && t[0] in s && Antisymmetric(leq, s)
    ensures s[0] == t[0]
  {
    var i :| 0 <= i < |t| && t[i] == s[0];
    var j :| 0 <= j < |s| && s[j] == t[0];
    assert leq(t[0], t[i]) && leq(s[0], s[j]);
  }

  /** Two sorted permutations of one another coincide when the order separates their members. */
  lemma {:induction false} SortedPermutationIsUnique<T(!new)>(leq: (T, T) -> bool, s: seq<T>, t: seq<T>)
    requires TotalPreorder(leq) && Sorted(leq, s) && Sorted(leq, t)
    requires multiset(s) == multiset(t) && Antisymmetric(leq, s)
    ensures s == t
  {
    SameMultisetSameMembers(s, t);
    if s != [] {
      SameLeast(leq, s, t);
      WithoutFirst(s);
      WithoutFirst(t);
      SortedPermutationIsUnique(leq, s[1..], t[1..]);
    }
  }

  /** Sorting forgets the input order when the order separates the input's members. */
  lemma SortForgetsOrder<T(!new)>(leq: (T, T) -> bool, s: seq<T>, t: seq<T>)
    requires TotalPreorder(leq) && multiset(s) == multiset(t) && Antisymmetric(leq, s)
    ensures Sort(leq, s) == Sort(leq, t)
  {
    SortIsSortedPermutation(leq, s);
    SortIsSortedPermutation(leq, t);
    SortedPermutationIsUnique(leq, Sort(leq, s), Sort(leq, t));
  }

  function Map<T, K>(key: T -> K, s: seq<T>): (r: seq<K>)
    ensures |r| == |s|
    ensures forall i :: 0 <= i < |s| ==> r[i] == key(s[i])
  {
    if s == [] then [] else [key(s[0])] + Map(key, s[1..])
  }

  lemma {:induction false} InsertMaps<T(!new), K>(leq: (T, T) -> bool, under: (K, K) -> bool, key: T -> K, x: T, s: seq<T>)
    requires forall a, b :: leq(a, b) <==> under(key(a), key(b))
    ensures Map(key, Insert(leq, x, s)) == Insert(under, key(x), Map(key, s))
  {
    if s != [] && !leq(x, s[0]) {
      InsertMaps(leq, under, key, x, s[1..]);
    }
  }

  /** Sorting by a key and then taking the keys is sorting the keys. */
  lemma {:induction false} SortMaps<T(!new), K>(leq: (T, T) -> bool, under: (K, K) -> bool, key: T -> K, s: seq<T>)
    requires forall a, b :: leq(a, b) <==> under(key(a), key(b))
    ensures Map(key, Sort(leq, s)) == Sort(under, Map(key, s))
  {
    if s != [] {
      SortMaps(leq, under, key, s[1..]);
      InsertMaps(leq, under, key, s[0], Sort(leq, s[1..]));
    }
  }

  /** A sorted sequence is left as it is. */
  lemma {:induction false} SortKeepsSorted<T(!new)>(leq: (T, T) -> bool, s: seq<T>)
    requires TotalPreorder(leq) && Sorted(leq, s)
    ensures Sort(leq, s) == s
  {
    if s != [] {
      SortKeepsSorted(leq, s[1..]);
      assert s == [s[0]] + s[1..];
    }
  }

  /** Lexicographic order on sequences of integers: characters by code point, bytes by value. */
  predicate LexLeq(a: seq<int>, b: seq<int>) {
    a == [] || (b != [] && (a[0] < b[0] || (a[0] == b[0] && LexLeq(a[1..], b[1..]))))
  }

  /** `a` comes first: it is a proper beginning of `b`, or smaller where they first differ. */
  ghost predicate Before(a: seq<int>, b: seq<int>) {
    a < b || exists i :: SmallerAt(a, b, i)
  }

  predicate SmallerAt(a: seq<int>, b: seq<int>, i: int) {
    0 <= i < |a| && i < |b| && a[..i] == b[..i] && a[i] < b[i]
  }

  /** What the order means, without its recursion. */
  lemma {:induction false} LexMeaning(a: seq<int>, b: seq<int>)
    ensures LexLeq(a, b) <==> a == b || Before(a, b)
  {
    if a != [] && b != [] {
      LexMeaning(a[1..], b[1..]);
      assert a == [a[0]] + a[1..] && b == [b[0]] + b[1..];
      if a[0] < b[0] {
        assert SmallerAt(a, b, 0);
      } else if a[0] == b[0] {
        BeforeTail(a, b);
      } else {
        forall i ensures !SmallerAt(a, b, i) {
          if SmallerAt(a, b, i) {
            FirstIsNotGreater(a, b, i);
          }
        }
      }
    }
  }

  lemma FirstIsNotGreater(a: seq<int>, b: seq<int>, i: int)
    requires SmallerAt(a, b, i)
    ensures a[0] <= b[0]
  {
    if i > 0 {
      assert a[..i][0] == b[..i][0];
    }
  }

  lemma BeforeTail(a: seq<int>, b: seq<int>)
    requires a != [] && b != [] && a[0] == b[0]
    ensures Before(a, b) <==> Before(a[1..], b[1..])
  {
    assert a == [a[0]] + a[1..] && b == [b[0]] + b[1..];
    if i :| SmallerAt(a, b, i) {
      assert a[1..][..i - 1] == a[..i][1..] && b[1..][..i - 1] == b[..i][1..];
      assert SmallerAt(a[1..], b[1..], i - 1);
    }
    if i :| SmallerAt(a[1..], b[1..], i) {
      assert a[..i + 1] == [a[0]] + a[1..][..i] && b[..i + 1] == [b[0]] + b[1..][..i];
      assert SmallerAt(a, b, i + 1);
    }
  }

  lemma {:induction false} LexTotal(a: seq<int>, b: seq<int>)
    ensures LexLeq(a, b) || LexLeq(b, a)
    ensures LexLeq(a, b) && LexLeq(b, a) ==> a == b
  {
    if a != [] && b != [] {
      LexTotal(a[1..], b[1..]);
      assert a == [a[0]] + a[1..] && b == [b[0]] + b[1..];
    }
  }

  lemma {:induction false} LexTransitive(a: seq<int>, b: seq<int>, c: seq<int>)
    requires LexLeq(a, b) && LexLeq(b, c)
    ensures LexLeq(a, c)
  {
    if a != [] && a[0] == c[0] {
      LexTransitive(a[1..], b[1..], c[1..]);
    }
  }

  lemma LexIsTotalPreorder()
    ensures TotalPreorder(LexLeq)
    ensures forall a, b :: LexLeq(a, b) && LexLeq(b, a) ==> a == b
  {
    forall a, b ensures LexLeq(a, b) || LexLeq(b, a) { LexTotal(a, b); }
    forall a, b | LexLeq(a, b) && LexLeq(b, a) ensures a == b { LexTotal(a, b); }
    forall a, b, c | LexLeq(a, b) && LexLeq(b, c) ensures LexLeq(a, c) { LexTransitive(a, b, c); }
  }
}
