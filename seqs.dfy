/** Sequence helpers standing in for the JavaScript array library calls the bot uses:
    `filter` on first occurrence, `sort` with a numeric comparator, `indexOf`. */
module Seqs {

  /** No element occurs twice. */
  predicate NoDup<T(==)>(xs: seq<T>)
  {
    forall i, j :: 0 <= i < j < |xs| ==> xs[i] != xs[j]
  }

  /** `xs.filter((item, pos) => xs.indexOf(item) == pos)`: an element is kept exactly
      when it does not occur earlier in the array. */
  function Dedup<T(==)>(xs: seq<T>): seq<T>
  {
    if xs == [] then []
    else
      var init := xs[..|xs| - 1];
      Dedup(init) + (if xs[|xs| - 1] in init then [] else [xs[|xs| - 1]])
  }

  /** The first-occurrence filter leaves no duplicates and loses no element. */
  lemma {:induction false} DedupSpec<T>(xs: seq<T>)
    ensures NoDup(Dedup(xs))
    ensures forall x :: x in Dedup(xs) <==> x in xs
  {
    if xs != [] {
      var init, last := xs[..|xs| - 1], xs[|xs| - 1];
      assert xs == init + [last];
      DedupSpec(init);
    }
  }

  /** Index of the first occurrence of `x` (what `indexOf` returns when `x` is present). */
  function FirstIndex<T(==)>(xs: seq<T>, x: T): (k: nat)
    requires x in xs
    ensures k < |xs| && xs[k] == x && x !in xs[..k]
  {
    if xs[0] == x then 0
    else
      var k := FirstIndex(xs[1..], x);
      assert xs[..k + 1] == [xs[0]] + xs[1..][..k];
      k + 1
  }

  lemma FirstIndexUnique<T>(xs: seq<T>, x: T, k: nat)
    requires k < |xs| && xs[k] == x && x !in xs[..k]
    ensures FirstIndex(xs, x) == k
  {
  }

  /** The filter keeps the elements in the order of their first appearance. */
  lemma {:induction false} DedupFirstAppearance<T>(xs: seq<T>, i: nat, j: nat)
    requires i < j < |Dedup(xs)|
    ensures Dedup(xs)[i] in xs && Dedup(xs)[j] in xs
    ensures FirstIndex(xs, Dedup(xs)[i]) < FirstIndex(xs, Dedup(xs)[j])
  {
    DedupSpec(xs);
    var init, last := xs[..|xs| - 1], xs[|xs| - 1];
    assert xs == init + [last];
    DedupSpec(init);
    var d := Dedup(init);
    assert Dedup(xs) == d + (if last in init then [] else [last]);
    var a, b := Dedup(xs)[i], Dedup(xs)[j];
    if j < |d| {
      assert a == d[i] && b == d[j] && a in d && b in d;
      DedupFirstAppearance(init, i, j);
      FirstIndexPrefix(init, last, a);
      FirstIndexPrefix(init, last, b);
    } else {
      assert b == last && last !in init;
      assert xs[..|init|] == init;
      FirstIndexUnique(xs, b, |init|);
      assert a == d[i];
      DedupMember(init, i);
      FirstIndexPrefix(init, last, a);
    }
  }

  lemma DedupMember<T>(xs: seq<T>, k: nat)
    requires k < |Dedup(xs)|
    ensures Dedup(xs)[k] in xs
  {
    DedupSpec(xs);
    assert Dedup(xs)[k] in Dedup(xs);
  }

  lemma FirstIndexPrefix<T>(xs: seq<T>, y: T, x: T)
    requires x in xs
    ensures FirstIndex(xs + [y], x) == FirstIndex(xs, x)
  {
    var k := FirstIndex(xs, x);
    assert (xs + [y])[..k] == xs[..k];
    FirstIndexUnique(xs + [y], x, k);
  }

  /** Strictly ascending, hence duplicate-free. */
  predicate Ascending(xs: seq<int>)
  {
    forall i, j :: 0 <= i < j < |xs| ==> xs[i] < xs[j]
  }

  /** Inserts `x` before the first element not smaller than it. */
  function Insert(x: int, s: seq<int>): (r: seq<int>)
    ensures |r| == |s| + 1
    ensures multiset(r) == multiset(s) + multiset{x}
    ensures forall y :: y in r <==> y == x || y in s
  {
    if s == [] then [x]
    else if x <= s[0] then [x] + s
    else
      assert s == [s[0]] + s[1..];
      [s[0]] + Insert(x, s[1..])
  }

  lemma {:induction false} InsertAscending(x: int, s: seq<int>)
    requires Ascending(s) && x !in s
    ensures Ascending(Insert(x, s))
  {
    if s == [] {
    } else if x <= s[0] {
      forall y | y in s
        ensures x < y
      {
        AscendingFirst(s, y);
      }
      AscendingCons(x, s);
    } else {
      AscendingRest(s, x);
      InsertAscending(x, s[1..]);
      var r := Insert(x, s[1..]);
      forall y | y in r
        ensures s[0] < y
      {
        if y != x {
          AscendingRest(s, y);
          AscendingFirst(s, y);
        }
      }
      AscendingCons(s[0], r);
    }
  }

  /** An element below every element of an ascending list can go in front of it. */
  lemma AscendingCons(a: int, s: seq<int>)
    requires Ascending(s) && forall y :: y in s ==> a < y
    ensures Ascending([a] + s)
  {
    forall i, j | 0 <= i < j < |s| + 1
      ensures ([a] + s)[i] < ([a] + s)[j]
    {
      if i == 0 {
        assert s[j - 1] in s;
      }
    }
  }

  /** `xs.sort((a, b) => a - b)` on integers: insertion sort, the reference ordering. */
  function Sort(xs: seq<int>): (r: seq<int>)
    ensures |r| == |xs|
    ensures multiset(r) == multiset(xs)
    ensures forall y :: y in r <==> y in xs
  {
    if xs == [] then []
    else
      var init := xs[..|xs| - 1];
      assert xs == init + [xs[|xs| - 1]];
      Insert(xs[|xs| - 1], Sort(init))
  }

  /** Sorting a duplicate-free list gives its elements in strictly ascending order. */
  lemma {:induction false} SortAscending(xs: seq<int>)
    requires NoDup(xs)
    ensures Ascending(Sort(xs))
  {
    if xs != [] {
      var init := xs[..|xs| - 1];
      assert forall i, j :: 0 <= i < j < |init| ==> init[i] == xs[i] && init[j] == xs[j];
      SortAscending(init);
      assert xs[|xs| - 1] !in init;
      InsertAscending(xs[|xs| - 1], Sort(init));
    }
  }

  /** Two strictly ascending lists with the same elements are the same list: the
      ascending, duplicate-free list of a set is unique. */
  lemma {:induction false} AscendingUnique(a: seq<int>, b: seq<int>)
    requires Ascending(a) && Ascending(b)
    requires forall x :: x in a <==> x in b
    ensures a == b
  {
    if a != [] {
      assert a[0] in a;
    }
    if b != [] {
      assert b[0] in b;
    }
    if a != [] {
      assert a[0] in b && b[0] in a;
      AscendingFirst(a, b[0]);
      AscendingFirst(b, a[0]);
      forall x
        ensures x in a[1..] <==> x in b[1..]
      {
        AscendingRest(a, x);
        AscendingRest(b, x);
      }
      AscendingUnique(a[1..], b[1..]);
      assert a == [a[0]] + a[1..] && b == [b[0]] + b[1..];
    }
  }

  /** The head of an ascending list is its least element. */
  lemma AscendingFirst(a: seq<int>, x: int)
    requires Ascending(a) && x in a
    ensures a[0] <= x
  {
    var k :| 0 <= k < |a| && a[k] == x;
  }

  /** The tail of an ascending list holds every element but the head, and is ascending. */
  lemma AscendingRest(a: seq<int>, x: int)
    requires Ascending(a) && a != []
    ensures Ascending(a[1..])
    ensures x in a[1..] <==> x in a && x != a[0]
  {
    if x in a && x != a[0] {
      var k :| 0 <= k < |a| && a[k] == x;
      assert a[1..][k - 1] == x;
    }
  }

  lemma AppendAssoc<T>(a: seq<T>, b: seq<T>, c: seq<T>)
    ensures a + b + c == a + (b + c)
  {
  }
}
