/** Sorting under a total preorder, as sort.Slice does it: the result is some sorted
    permutation. SortedUnique says when there is only one. */
module Sorting {

  ghost predicate TotalPreorder<T(!new)>(le: (T, T) -> bool) {
    && (forall x, y :: le(x, y) || le(y, x))
    && (forall x, y, z :: le(x, y) && le(y, z) ==> le(x, z))
  }

  ghost predicate SortedBy<T>(le: (T, T) -> bool, s: seq<T>) {
    forall i, j | 0 <= i < j < |s| :: le(s[i], s[j])
  }

  ghost predicate IsSortOf<T>(le: (T, T) -> bool, s: seq<T>, r: seq<T>) {
    multiset(r) == multiset(s) && SortedBy(le, r)
  }

  lemma SameElements<T>(a: seq<T>, b: seq<T>)
    requires multiset(a) == multiset(b)
    ensures |a| == |b|
    ensures forall x :: x in a <==> x in b
  {
    assert |multiset(a)| == |multiset(b)|;
    forall x ensures x in a <==> x in b {
      assert x in a <==> x in multiset(a);
      assert x in b <==> x in multiset(b);
    }
  }

  lemma ConsSorted<T>(le: (T, T) -> bool, x: T, s: seq<T>)
    requires SortedBy(le, s) && forall y | y in s :: le(x, y)
    ensures SortedBy(le, [x] + s)
  {
  }

  lemma ConsMultiset<T>(x: T, s: seq<T>)
    ensures multiset([x] + s) == multiset{x} + multiset(s)
  {
  }

  lemma AppendCounts<T>(s: seq<T>, x: T, y: T)
    ensures multiset(s + [x])[y] == multiset(s)[y] + if x == y then 1 else 0
  {
  }

  /** Finds the head of one arrangement in another one, for induction on permutations. */
  lemma FindHead<T>(a: seq<T>, b: seq<T>) returns (k: nat)
    requires a != [] && multiset(a) == multiset(b)
    ensures k < |b| && b == b[..k] + ([a[0]] + b[k + 1..])
    ensures multiset(a[1..]) == multiset(b[..k] + b[k + 1..])
  {
    SameElements(a, b);
    assert a[0] in b;
    k :| 0 <= k < |b| && b[k] == a[0];
    var x, y := b[..k], b[k + 1..];
    assert b == x + ([a[0]] + y);
    assert a == [a[0]] + a[1..];
    ConsMultiset(a[0], a[1..]);
    ConsMultiset(a[0], y);
    assert multiset(b) == multiset(x) + (multiset{a[0]} + multiset(y));
    assert multiset(a[1..]) == multiset(a) - multiset{a[0]};
    assert multiset(x + y) == multiset(b) - multiset{a[0]};
  }

  function Insert<T>(le: (T, T) -> bool, x: T, s: seq<T>): (r: seq<T>)
    ensures |r| == |s| + 1
  {
    if s == [] || le(x, s[0]) then [x] + s else [s[0]] + Insert(le, x, s[1..])
  }

  /** One sorted permutation among those that sort.Slice may give. */
  function Sort<T>(le: (T, T) -> bool, s: seq<T>): (r: seq<T>)
    ensures |r| == |s|
  {
    if s == [] then [] else Insert(le, s[0], Sort(le, s[1..]))
  }

  lemma {:induction false} InsertSorts<T(!new)>(le: (T, T) -> bool, x: T, s: seq<T>)
    requires TotalPreorder(le) && SortedBy(le, s)
    ensures IsSortOf(le, [x] + s, Insert(le, x, s))
  {
    if s == [] {
    } else if le(x, s[0]) {
      assert forall y | y in s :: le(x, y);
      ConsSorted(le, x, s);
    } else {
      InsertSorts(le, x, s[1..]);
      var t := Insert(le, x, s[1..]);
      assert s == [s[0]] + s[1..];
      SameElements(t, [x] + s[1..]);
      ConsSorted(le, s[0], t);
      ConsMultiset(x, s);
      ConsMultiset(x, s[1..]);
      ConsMultiset(s[0], s[1..]);
      ConsMultiset(s[0], t);
    }
  }

  lemma {:induction false} SortSorts<T(!new)>(le: (T, T) -> bool, s: seq<T>)
    requires TotalPreorder(le)
    ensures IsSortOf(le, s, Sort(le, s))
  {
    if s != [] {
      var t := Sort(le, s[1..]);
      SortSorts(le, s[1..]);
      InsertSorts(le, s[0], t);
      assert s == [s[0]] + s[1..];
      ConsMultiset(s[0], s[1..]);
      ConsMultiset(s[0], t);
    }
  }

  /** The library sort. Callers know the contract alone: any sorted permutation. */
  method SortSlice<T(!new)>(le: (T, T) -> bool, s: seq<T>) returns (r: seq<T>)
    requires TotalPreorder(le)
    ensures IsSortOf(le, s, r)
  {
    r := Sort(le, s);
    SortSorts(le, s);
  }

  lemma HeadLeast<T>(le: (T, T) -> bool, s: seq<T>, x: T)
    requires s != [] && SortedBy(le, s) && x in s
    ensures x == s[0] || le(s[0], x)
  {
  }

  lemma TailMultiset<T>(a: seq<T>, b: seq<T>)
    requires a != [] && b != [] && a[0] == b[0] && multiset(a) == multiset(b)
    ensures multiset(a[1..]) == multiset(b[1..])
  {
    assert a == [a[0]] + a[1..] && b == [b[0]] + b[1..];
    ConsMultiset(a[0], a[1..]);
    ConsMultiset(b[0], b[1..]);
    assert multiset(a[1..]) == multiset(a) - multiset{a[0]};
    assert multiset(b[1..]) == multiset(b) - multiset{a[0]};
  }

  /** No two different elements of s tie under le. */
  ghost predicate NoTies<T>(le: (T, T) -> bool, s: seq<T>) {
    forall i, j | 0 <= i < |s| && 0 <= j < |s| && le(s[i], s[j]) && le(s[j], s[i]) :: s[i] == s[j]
  }

  /** Two sorted arrangements of the same elements are equal, provided that no two
      different elements tie. */
  lemma {:induction false} SortedUnique<T>(le: (T, T) -> bool, a: seq<T>, b: seq<T>)
    requires multiset(a) == multiset(b) && SortedBy(le, a) && SortedBy(le, b)
    requires NoTies(le, a)
    ensures a == b
  {
    SameElements(a, b);
    if a == [] {
    } else {
      assert a[0] == b[0] by {
        assert b[0] in a && a[0] in b;
        HeadLeast(le, a, b[0]);
        HeadLeast(le, b, a[0]);
      }
      TailMultiset(a, b);
      SortedUnique(le, a[1..], b[1..]);
      assert a == [a[0]] + a[1..] && b == [b[0]] + b[1..];
    }
  }
}
