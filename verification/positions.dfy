/** Positional helpers shared by both list variants: `del xs[i]`, `sorted(xs, reverse=True)`,
    `range(a, b)`, and the reference meaning of a batch deletion, "the list without these
    positions". */
module Positions {

  /** `del s[i]` for an index already resolved into range. */
  function RemoveAt<T>(s: seq<T>, i: nat): (r: seq<T>)
    requires i < |s|
    ensures |r| == |s| - 1
    ensures forall j :: 0 <= j < i ==> r[j] == s[j]
    ensures forall j :: i <= j < |r| ==> r[j] == s[j + 1]
  {
    s[..i] + s[i + 1..]
  }

  /** `list(range(lo, hi))`: lo, lo + 1, ..., hi - 1, and nothing when hi <= lo. */
  function Range(lo: int, hi: int): (r: seq<int>)
    ensures |r| == if lo < hi then hi - lo else 0
    ensures forall k :: 0 <= k < |r| ==> r[k] == lo + k
  {
    seq(if lo < hi then hi - lo else 0, k => lo + k)
  }

  ghost predicate Descending(s: seq<int>) {
    forall i, j :: 0 <= i < j < |s| ==> s[i] >= s[j]
  }

  ghost predicate StrictlyDescending(s: seq<int>) {
    forall i, j :: 0 <= i < j < |s| ==> s[i] > s[j]
  }

  /** No value occurs twice. */
  ghost predicate NoDuplicates(s: seq<int>) {
    forall x :: multiset(s)[x] <= 1
  }

  function InsertDesc(x: int, s: seq<int>): (r: seq<int>)
    requires Descending(s)
    ensures Descending(r)
    ensures multiset(r) == multiset(s) + multiset{x}
  {
    if |s| == 0 || x >= s[0] then [x] + s
    else
      var rest := InsertDesc(x, s[1..]);
      assert s == [s[0]] + s[1..];
      BoundedByHead(s, x, rest);
      [s[0]] + rest
  }

  /** The values of the tail of a descending sequence, and one more value no larger than its
      head, are all bounded by the head. */
  lemma BoundedByHead(s: seq<int>, x: int, rest: seq<int>)
    requires Descending(s) && |s| > 0 && x < s[0]
    requires multiset(rest) == multiset(s[1..]) + multiset{x}
    ensures forall j :: 0 <= j < |rest| ==> s[0] >= rest[j]
  {
    forall j | 0 <= j < |rest|
      ensures s[0] >= rest[j]
    {
      assert rest[j] in multiset(rest);
      if rest[j] != x {
        assert rest[j] in multiset(s[1..]);
        assert rest[j] in s[1..];
      }
    }
  }

  /** `sorted(s, reverse=True)`: the same values, largest first. */
  function SortDesc(s: seq<int>): (r: seq<int>)
    ensures Descending(r)
    ensures multiset(r) == multiset(s)
  {
    if |s| == 0 then []
    else
      assert s == [s[0]] + s[1..];
      InsertDesc(s[0], SortDesc(s[1..]))
  }

  /** Sorting keeps the values: the same ones occur before and after. */
  lemma SortDescSameValues(s: seq<int>)
    ensures forall x :: x in SortDesc(s) <==> x in s
  {
    var r := SortDesc(s);
    forall x
      ensures x in r <==> x in s
    {
      assert x in r <==> x in multiset(r);
      assert x in s <==> x in multiset(s);
    }
  }

  /** Two positions holding the same value make it occur twice. */
  lemma RepeatedValue(s: seq<int>, i: nat, j: nat)
    requires i < j < |s|
    ensures s[i] == s[j] ==> multiset(s)[s[i]] >= 2
  {
    assert s == s[..j] + s[j..];
    assert s[..j][i] == s[i];
    assert s[j..][0] == s[j];
    assert multiset(s) == multiset(s[..j]) + multiset(s[j..]);
  }

  /** Sorting values that are pairwise distinct gives a strictly descending sequence. */
  lemma SortDescStrict(s: seq<int>)
    requires NoDuplicates(s)
    ensures StrictlyDescending(SortDesc(s))
  {
    var r := SortDesc(s);
    forall i, j | 0 <= i < j < |r|
      ensures r[i] > r[j]
    {
      RepeatedValue(r, i, j);
    }
  }

  /** The reference meaning of a batch deletion: the entries of `s` whose positions are not in
      `P`, in their original order. */
  function Without<T>(s: seq<T>, P: set<int>): (r: seq<T>)
    ensures |r| <= |s|
  {
    if |s| == 0 then []
    else Without(s[..|s| - 1], P) + (if |s| - 1 in P then [] else [s[|s| - 1]])
  }

  /** Only the positions of `s` matter to `Without`. */
  lemma {:induction false} WithoutOnlyInRange<T>(s: seq<T>, P: set<int>, Q: set<int>)
    requires forall i :: 0 <= i < |s| ==> (i in P <==> i in Q)
    ensures Without(s, P) == Without(s, Q)
  {
    if |s| > 0 {
      WithoutOnlyInRange(s[..|s| - 1], P, Q);
    }
  }

  /** Appending entries none of whose positions is deleted appends them unchanged. */
  lemma {:induction false} WithoutAppend<T>(a: seq<T>, b: seq<T>, P: set<int>)
    requires forall p :: p in P ==> p < |a|
    ensures Without(a + b, P) == Without(a, P) + b
    decreases |b|
  {
    if |b| > 0 {
      var ab := a + b;
      assert ab[..|ab| - 1] == a + b[..|b| - 1];
      WithoutAppend(a, b[..|b| - 1], P);
      assert b == b[..|b| - 1] + [b[|b| - 1]];
    } else {
      assert a + b == a;
    }
  }

  /** Deleting the largest of the positions first and the smaller ones afterwards deletes
      exactly the positions of the original sequence: the others have not moved. */
  lemma RemoveLargestFirst<T>(s: seq<T>, k: nat, P: set<int>)
    requires k < |s|
    requires forall p :: p in P ==> p < k
    ensures Without(RemoveAt(s, k), P) == Without(s, P + {k})
  {
    assert RemoveAt(s, k) == s[..k] + s[k + 1..];
    WithoutAppend(s[..k], s[k + 1..], P);
    assert s == s[..k + 1] + s[k + 1..];
    WithoutAppend(s[..k + 1], s[k + 1..], P + {k});
    assert s[..k + 1][..k] == s[..k];
    WithoutOnlyInRange(s[..k], P + {k}, P);
  }

  /** Deleting no position leaves a list as it is. */
  lemma {:induction false} WithoutNothing<T>(s: seq<T>)
    ensures Without(s, {}) == s
  {
    if |s| > 0 {
      WithoutNothing(s[..|s| - 1]);
      assert s == s[..|s| - 1] + [s[|s| - 1]];
    }
  }

  /** Positions that are all deleted, after a prefix none of whose positions is, leave the
      prefix. */
  lemma {:induction false} WithoutDeletedTail<T>(a: seq<T>, c: seq<T>, P: set<int>)
    requires forall i :: 0 <= i < |a| ==> i !in P
    requires forall i :: |a| <= i < |a| + |c| ==> i in P
    ensures Without(a + c, P) == a
    decreases |c|
  {
    if |c| == 0 {
      assert a + c == a;
      WithoutOnlyInRange(a, P, {});
      WithoutNothing(a);
    } else {
      assert (a + c)[..|a + c| - 1] == a + c[..|c| - 1];
      WithoutDeletedTail(a, c[..|c| - 1], P);
    }
  }

  /** Deleting the block of positions lo .. hi - 1 cuts it out. */
  lemma WithoutBlock<T>(s: seq<T>, lo: nat, hi: nat, P: set<int>)
    requires lo <= hi <= |s|
    requires forall i :: i in P <==> lo <= i < hi
    ensures Without(s, P) == s[..lo] + s[hi..]
  {
    assert s == s[..hi] + s[hi..];
    WithoutAppend(s[..hi], s[hi..], P);
    assert s[..hi] == s[..lo] + s[lo..hi];
    WithoutDeletedTail(s[..lo], s[lo..hi], P);
  }
}
