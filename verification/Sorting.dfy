/**
 Stable insertion sort with a comparison passed as a function value, and the three
 facts about it that the models use: it permutes, it orders, and under a total order
 its result depends on the multiset of the input only. It stands for Python's
 `sorted` / `list.sort` and Rust's `sort_by`.
 */
module Sorting {

  ghost predicate TotalPreorder<T(!new)>(leq: (T, T) -> bool) {
    && (forall x, y :: leq(x, y) || leq(y, x))
    && (forall x, y, z :: leq(x, y) && leq(y, z) ==> leq(x, z))
  }

  ghost predicate Antisymmetric<T(!new)>(leq: (T, T) -> bool) {
    forall x, y :: leq(x, y) && leq(y, x) ==> x == y
  }

  ghost predicate Sorted<T>(s: seq<T>, leq: (T, T) -> bool) {
    forall i, j :: 0 <= i < j < |s| ==> leq(s[i], s[j])
  }

  function Insert<T>(x: T, s: seq<T>, leq: (T, T) -> bool): (r: seq<T>)
    ensures multiset(r) == multiset(s) + multiset{x}
    ensures |r| == |s| + 1
  {
    if s == [] then [x]
    else if leq(x, s[0]) then [x] + s
    else
      assert s == [s[0]] + s[1..];
      [s[0]] + Insert(x, s[1..], leq)
  }

  function Sort<T>(s: seq<T>, leq: (T, T) -> bool): (r: seq<T>)
    ensures multiset(r) == multiset(s)
    ensures |r| == |s|
  {
    if s == [] then [] else
    assert s == [s[0]] + s[1..];
    Insert(s[0], Sort(s[1..], leq), leq)
  }

  lemma {:induction false} InsertSorted<T(!new)>(x: T, s: seq<T>, leq: (T, T) -> bool)
    requires TotalPreorder(leq) && Sorted(s, leq)
    ensures Sorted(Insert(x, s, leq), leq)
  {
    if s != [] && !leq(x, s[0]) {
      var rest := Insert(x, s[1..], leq);
      InsertSorted(x, s[1..], leq);
      forall j | 0 <= j < |rest| ensures leq(s[0], rest[j]) {
        assert rest[j] in multiset(rest);
        assert rest[j] == x || rest[j] in s[1..];
      }
    }
  }

  lemma {:induction false} SortSorted<T(!new)>(s: seq<T>, leq: (T, T) -> bool)
    requires TotalPreorder(leq)
    ensures Sorted(Sort(s, leq), leq)
  {
    if s != [] {
      SortSorted(s[1..], leq);
      InsertSorted(s[0], Sort(s[1..], leq), leq);
    }
  }

  // The least element; of equivalent ones the first.
  function Least<T(!new)>(s: seq<T>, leq: (T, T) -> bool): (m: T)
    requires s != []
    ensures m in s
    ensures TotalPreorder(leq) ==> forall i :: 0 <= i < |s| ==> leq(m, s[i])
  {
    if |s| == 1 then s[0]
    else
      var n := |s| - 1;
      var m := Least(s[..n], leq);
      assert s == s[..n] + [s[n]];
      if leq(m, s[n]) then m else s[n]
  }

  // --- permutations ----------------------------------------------------------

  lemma SameMembers<T(!new)>(s: seq<T>, t: seq<T>)
    requires multiset(s) == multiset(t)
    ensures forall x :: x in s <==> x in t
  {
    forall x ensures x in s <==> x in t { assert x in multiset(s) <==> x in multiset(t); }
  }

  lemma TwiceIn<T>(t: seq<T>, i: nat, j: nat)
    requires i < j < |t| && t[i] == t[j]
    ensures multiset(t)[t[i]] >= 2
  {
    assert t == t[..i] + [t[i]] + t[i + 1..j] + [t[j]] + t[j + 1..];
  }

  lemma {:induction false} OnceIn<T>(s: seq<T>, x: T)
    requires forall i, j :: 0 <= i < j < |s| ==> s[i] != s[j]
    ensures multiset(s)[x] <= 1
  {
    if s != [] {
      var n := |s| - 1;
      OnceIn(s[..n], x);
      assert s == s[..n] + [s[n]];
      if x == s[n] { assert x !in s[..n]; }
    }
  }

  // The head of a sorted sequence is below every element of it.
  lemma HeadLeast<T(!new)>(s: seq<T>, x: T, leq: (T, T) -> bool)
    requires TotalPreorder(leq) && Sorted(s, leq) && x in s
    ensures leq(s[0], x)
  {
    var i :| 0 <= i < |s| && s[i] == x;
    if i > 0 { assert leq(s[0], s[i]); }
  }

  lemma MultisetTail<T>(s: seq<T>)
    requires s != []
    ensures multiset(s[1..]) == multiset(s) - multiset{s[0]}
  {
    assert s == [s[0]] + s[1..];
  }

  // Everything but the element at k.
  function Without<T>(s: seq<T>, k: nat): (r: seq<T>)
    requires k < |s|
    ensures |r| == |s| - 1
    ensures multiset(s) == multiset(r) + multiset{s[k]} && multiset(r) == multiset(s) - multiset{s[k]}
  {
    assert s == s[..k] + [s[k]] + s[k + 1..];
    s[..k] + s[k + 1..]
  }

  // Two sorted sequences with the same elements are the same sequence, if no two of the
  // elements are equivalent.
  lemma {:induction false} SortedUniqueOn<T(!new)>(s: seq<T>, t: seq<T>, leq: (T, T) -> bool)
    requires TotalPreorder(leq)
    requires forall x, y :: x in s && y in s && leq(x, y) && leq(y, x) ==> x == y
    requires Sorted(s, leq) && Sorted(t, leq) && multiset(s) == multiset(t)
    ensures s == t
  {
    assert |s| == |multiset(s)| == |multiset(t)| == |t|;
    if s != [] {
      assert s[0] == t[0] by {
        assert t[0] in multiset(s) && s[0] in multiset(t);
        HeadLeast(s, t[0], leq);
        HeadLeast(t, s[0], leq);
      }
      MultisetTail(s);
      MultisetTail(t);
      SortedUniqueOn(s[1..], t[1..], leq);
      assert s == [s[0]] + s[1..] && t == [t[0]] + t[1..];
    }
  }

  lemma SortedUnique<T(!new)>(s: seq<T>, t: seq<T>, leq: (T, T) -> bool)
    requires TotalPreorder(leq) && Antisymmetric(leq)
    requires Sorted(s, leq) && Sorted(t, leq) && multiset(s) == multiset(t)
    ensures s == t
  {
    SortedUniqueOn(s, t, leq);
  }

  lemma SortDependsOnMultiset<T(!new)>(s: seq<T>, t: seq<T>, leq: (T, T) -> bool)
    requires TotalPreorder(leq) && Antisymmetric(leq)
    requires multiset(s) == multiset(t)
    ensures Sort(s, leq) == Sort(t, leq)
  {
    SortSorted(s, leq);
    SortSorted(t, leq);
    SortedUnique(Sort(s, leq), Sort(t, leq), leq);
  }

  // --- sequences in lexicographic order --------------------------------------

  ghost predicate StrictTotal<T(!new)>(below: (T, T) -> bool) {
    && (forall x, y :: x == y || below(x, y) || below(y, x))
    && (forall x, y :: below(x, y) ==> x != y && !below(y, x))
    && (forall x, y, z :: below(x, y) && below(y, z) ==> below(x, z))
  }

  predicate LexLeq<T(==)>(a: seq<T>, b: seq<T>, below: (T, T) -> bool) {
    a == [] || (b != [] && (below(a[0], b[0]) || (a[0] == b[0] && LexLeq(a[1..], b[1..], below))))
  }

  lemma {:induction false} LexTotal<T(!new)>(a: seq<T>, b: seq<T>, below: (T, T) -> bool)
    requires StrictTotal(below)
    ensures LexLeq(a, b, below) || LexLeq(b, a, below)
  {
    if a != [] && b != [] { LexTotal(a[1..], b[1..], below); }
  }

  lemma {:induction false} LexTransitive<T(!new)>(a: seq<T>, b: seq<T>, c: seq<T>, below: (T, T) -> bool)
    requires StrictTotal(below) && LexLeq(a, b, below) && LexLeq(b, c, below)
    ensures LexLeq(a, c, below)
  {
    if a != [] && a[0] == b[0] == c[0] { LexTransitive(a[1..], b[1..], c[1..], below); }
  }

  lemma {:induction false} LexAntisymmetric<T(!new)>(a: seq<T>, b: seq<T>, below: (T, T) -> bool)
    requires StrictTotal(below) && LexLeq(a, b, below) && LexLeq(b, a, below)
    ensures a == b
  {
    if a != [] {
      LexAntisymmetric(a[1..], b[1..], below);
      assert a == [a[0]] + a[1..] && b == [b[0]] + b[1..];
    }
  }

  // Strings, by code point.
  predicate CharBelow(a: char, b: char) { a < b }

  predicate StringLeq(a: string, b: string) { LexLeq(a, b, CharBelow) }

  lemma StringOrder()
    ensures TotalPreorder(StringLeq) && Antisymmetric(StringLeq)
  {
    hide LexLeq;
    assert StrictTotal(CharBelow);
    forall a, b ensures StringLeq(a, b) || StringLeq(b, a) { LexTotal(a, b, CharBelow); }
    forall a, b, c | StringLeq(a, b) && StringLeq(b, c) ensures StringLeq(a, c) { LexTransitive(a, b, c, CharBelow); }
    forall a, b | StringLeq(a, b) && StringLeq(b, a) ensures a == b { LexAntisymmetric(a, b, CharBelow); }
  }
}
