/** The library sorts of the sources, specified by what any of them may return. */
module Sorting {

  /** Any two different elements of `s` are comparable. */
  ghost predicate Separates<T>(less: (T, T) -> bool, s: seq<T>) {
    forall x, y :: x in s && y in s && x != y ==> less(x, y) || less(y, x)
  }

  predicate Ascending<T>(less: (T, T) -> bool, s: seq<T>) {
    forall i, j :: 0 <= i < j < |s| ==> !less(s[j], s[i])
  }

  /** What a comparison sort may return: a permutation without an inversion. */
  ghost predicate IsSortOf<T>(less: (T, T) -> bool, input: seq<T>, output: seq<T>) {
    multiset(output) == multiset(input) && Ascending(less, output)
  }

  ghost predicate Distinct<T>(s: seq<T>) {
    forall i, j :: 0 <= i < j < |s| ==> s[i] != s[j]
  }

  lemma SameMembers<T>(a: seq<T>, b: seq<T>)
    requires multiset(a) == multiset(b)
    ensures |a| == |b|
    ensures forall x :: x in a <==> x in b
  {
    assert |a| == |multiset(a)| == |multiset(b)| == |b|;
    forall x ensures x in a <==> x in b {
      assert x in a <==> x in multiset(a);
      assert x in b <==> x in multiset(b);
    }
  }

  lemma SortHead<T>(less: (T, T) -> bool, a: seq<T>, b: seq<T>)
    requires Separates(less, a) && a != [] && b != []
    requires Ascending(less, a) && Ascending(less, b)
    requires a[0] in b && b[0] in a
    ensures a[0] == b[0]
  {
    var i :| 0 <= i < |b| && b[i] == a[0];
    var j :| 0 <= j < |a| && a[j] == b[0];
    if i > 0 && j > 0 {
      assert !less(b[i], b[0]) && !less(a[j], a[0]);
    }
  }

  lemma TailMembers<T>(a: seq<T>, b: seq<T>)
    requires a != [] && b != [] && a[0] == b[0] && multiset(a) == multiset(b)
    ensures multiset(a[1..]) == multiset(b[1..])
  {
    assert a == [a[0]] + a[1..] && b == [b[0]] + b[1..];
    assert multiset(a[1..]) == multiset(a) - multiset{a[0]};
    assert multiset(b[1..]) == multiset(b) - multiset{b[0]};
  }

  lemma TailSorted<T>(less: (T, T) -> bool, a: seq<T>)
    requires a != [] && Ascending(less, a) && Separates(less, a)
    ensures Ascending(less, a[1..]) && Separates(less, a[1..])
  {
    assert forall y :: y in a[1..] ==> y in a;
  }

  /** An unstable sort still has exactly one possible result when the order separates the elements. */
  lemma {:induction false} SortUnique<T>(less: (T, T) -> bool, a: seq<T>, b: seq<T>)
    requires Separates(less, a) && multiset(a) == multiset(b)
    requires Ascending(less, a) && Ascending(less, b)
    ensures a == b
    decreases |a|
  {
    SameMembers(a, b);
    if a == [] {
    } else {
      assert a[0] in b && b[0] in a;
      SortHead(less, a, b);
      TailMembers(a, b);
      TailSorted(less, a);
      assert forall i, j :: 0 <= i < j < |b[1..]| ==> b[1..][i] == b[i + 1] && b[1..][j] == b[j + 1];
      SortUnique(less, a[1..], b[1..]);
      assert a == [a[0]] + a[1..] && b == [b[0]] + b[1..];
    }
  }

  function Insert<T>(less: (T, T) -> bool, x: T, s: seq<T>): seq<T> {
    if s == [] || less(x, s[0]) then [x] + s else [s[0]] + Insert(less, x, s[1..])
  }

  /** Stable insertion sort: one result that satisfies `IsSortOf`. */
  function Sort<T>(less: (T, T) -> bool, s: seq<T>): seq<T> {
    if s == [] then [] else Insert(less, s[|s| - 1], Sort(less, s[..|s| - 1]))
  }

  lemma {:induction false} InsertMembers<T>(less: (T, T) -> bool, x: T, s: seq<T>)
    ensures multiset(Insert(less, x, s)) == multiset(s) + multiset{x}
  {
    if s == [] || less(x, s[0]) {
    } else {
      InsertMembers(less, x, s[1..]);
      assert s == [s[0]] + s[1..];
    }
  }

  /** The order is a strict weak one on everything the sort may compare. */
  ghost predicate WeakOrder<T(!new)>(less: (T, T) -> bool) {
    && (forall x :: !less(x, x))
    && (forall x, y, z :: less(x, y) && less(y, z) ==> less(x, z))
    && (forall x, y, z :: less(x, z) ==> less(x, y) || less(y, z))
  }

  lemma {:induction false} InsertAscending<T(!new)>(less: (T, T) -> bool, x: T, s: seq<T>)
    requires WeakOrder(less) && Ascending(less, s)
    ensures Ascending(less, Insert(less, x, s))
  {
    var r := Insert(less, x, s);
    if s == [] {
    } else if less(x, s[0]) {
      forall i, j | 0 <= i < j < |r| ensures !less(r[j], r[i]) {
        if i == 0 && j > 1 { assert !less(s[j - 1], s[0]); }
      }
    } else {
      InsertAscending(less, x, s[1..]);
      InsertMembers(less, x, s[1..]);
      var rest := Insert(less, x, s[1..]);
      forall j | 0 <= j < |rest| ensures !less(rest[j], s[0]) {
        assert rest[j] in multiset(rest);
        if rest[j] != x {
          var k :| 0 <= k < |s[1..]| && s[1..][k] == rest[j];
          assert s[k + 1] == rest[j];
        }
      }
    }
  }

  lemma {:induction false} SortSorts<T(!new)>(less: (T, T) -> bool, s: seq<T>)
    requires WeakOrder(less)
    ensures IsSortOf(less, s, Sort(less, s))
  {
    if s == [] {
    } else {
      var init := s[..|s| - 1];
      SortSorts(less, init);
      InsertMembers(less, s[|s| - 1], Sort(less, init));
      InsertAscending(less, s[|s| - 1], Sort(less, init));
      assert s == init + [s[|s| - 1]];
    }
  }

  lemma TwiceCounts<T>(s: seq<T>, i: nat, j: nat)
    requires i < j < |s| && s[i] == s[j]
    ensures multiset(s)[s[i]] >= 2
  {
    assert s == s[..j] + s[j..] && s[..j][i] == s[i] && s[j..][0] == s[j];
    assert s[i] in multiset(s[..j]) && s[j] in multiset(s[j..]);
  }

  lemma {:induction false} DistinctCounts<T>(s: seq<T>, x: T)
    requires Distinct(s)
    ensures multiset(s)[x] <= 1
  {
    if s == [] {
    } else {
      DistinctCounts(s[1..], x);
      assert s == [s[0]] + s[1..];
      if s[0] == x { assert x !in s[1..]; }
    }
  }

  /** No two positions of s carry the same key. */
  ghost predicate DistinctBy<T, K>(key: T -> K, s: seq<T>) {
    forall i, j :: 0 <= i < j < |s| ==> key(s[i]) != key(s[j])
  }

  lemma DistinctByPermutes<T, K>(key: T -> K, a: seq<T>, b: seq<T>)
    requires multiset(a) == multiset(b) && DistinctBy(key, a)
    ensures DistinctBy(key, b)
  {
    SameMembers(a, b);
    forall i, j | 0 <= i < j < |b| ensures key(b[i]) != key(b[j]) {
      assert b[i] in a && b[j] in a;
      if b[i] == b[j] {
        TwiceCounts(b, i, j);
        DistinctCounts(a, b[i]);
      }
    }
  }
}
