/**
 `std::ranges::sort` and `std::ranges::unique` as the code uses them, and when a sorted arrangement is the only one.
 */
module Sorting {
  ghost predicate TotalPreorder<T(!new)>(le: (T, T) -> bool) {
    && (forall a, b :: le(a, b) || le(b, a))
    && (forall a, b, c :: le(a, b) && le(b, c) ==> le(a, c))
  }

  /** Different elements of the list never compare as equal. */
  predicate Separates<T(==)>(le: (T, T) -> bool, s: seq<T>) {
    forall i, j :: 0 <= i < |s| && 0 <= j < |s| && le(s[i], s[j]) && le(s[j], s[i]) ==> s[i] == s[j]
  }

  predicate Sorted<T>(le: (T, T) -> bool, s: seq<T>) { forall i, j :: 0 <= i < j < |s| ==> le(s[i], s[j]) }

  predicate NoDuplicates<T(==)>(s: seq<T>) { forall i, j :: 0 <= i < j < |s| ==> s[i] != s[j] }

  lemma {:induction false} InsertedSorted<T(!new)>(le: (T, T) -> bool, s: seq<T>, i: nat, e: T)
    requires TotalPreorder(le) && Sorted(le, s) && i <= |s|
    requires (i > 0 ==> le(s[i - 1], e)) && (i < |s| ==> le(e, s[i]))
    ensures Sorted(le, s[..i] + [e] + s[i..])
  {
    var r := s[..i] + [e] + s[i..];
    forall j, k | 0 <= j < k < |r|
      ensures le(r[j], r[k])
    {
      assert r[j] == if j < i then s[j] else if j == i then e else s[j - 1];
      assert r[k] == if k < i then s[k] else if k == i then e else s[k - 1];
      if j < i - 1 && k == i {
        assert le(s[j], s[i - 1]);
      }
      if j == i && k > i + 1 {
        assert le(s[i], s[k - 1]);
      }
    }
  }

  method Insert<T(!new)>(le: (T, T) -> bool, s: seq<T>, e: T) returns (r: seq<T>)
    requires TotalPreorder(le) && Sorted(le, s)
    ensures Sorted(le, r) && multiset(r) == multiset(s) + multiset{e}
  {
    var i := |s|;
    while i > 0 && !le(s[i - 1], e)
      invariant 0 <= i <= |s| && (i < |s| ==> le(e, s[i]))
    {
      i := i - 1;
    }
    InsertedSorted(le, s, i, e);
    assert s == s[..i] + s[i..];
    r := s[..i] + [e] + s[i..];
  }

  /** Only what the standard promises: sorted, and the same elements. Elements that compare equal may change places. */
  method Sort<T(!new)>(le: (T, T) -> bool, s: seq<T>) returns (r: seq<T>)
    requires TotalPreorder(le)
    ensures Sorted(le, r) && multiset(r) == multiset(s)
  {
    r := [];
    for i := 0 to |s|
      invariant Sorted(le, r) && multiset(r) == multiset(s[..i])
    {
      assert s[..i + 1] == s[..i] + [s[i]];
      r := Insert(le, r, s[i]);
    }
    assert s[..|s|] == s;
  }

  /** `r` holds one of each run of equal elements of the sorted list `s`. */
  ghost predicate OneOfEach<T(!new)>(le: (T, T) -> bool, s: seq<T>, r: seq<T>) {
    && Sorted(le, r) && NoDuplicates(r)
    && (forall t :: t in r <==> t in s)
    && (s != [] ==> r != [] && r[|r| - 1] == s[|s| - 1])
    && (NoDuplicates(s) ==> r == s)
  }

  /** In a sorted list, what differs from its neighbour differs from everything before. */
  lemma {:induction false} DiffersFromAll<T>(le: (T, T) -> bool, s: seq<T>, e: T, k: nat)
    requires Sorted(le, s + [e]) && Separates(le, s + [e]) && k < |s| && s[|s| - 1] != e
    ensures le(s[k], e) && s[k] != e
  {
    var all := s + [e];
    assert le(all[k], all[|s|]);
    assert k == |s| - 1 || le(all[k], all[|s| - 1]);
    assert le(all[|s| - 1], all[|s|]);
  }

  lemma {:induction false} NextOfEach<T(!new)>(le: (T, T) -> bool, s: seq<T>, e: T, r: seq<T>)
    requires OneOfEach(le, s, r) && Sorted(le, s + [e]) && Separates(le, s + [e])
    ensures OneOfEach(le, s + [e], if r == [] || r[|r| - 1] != e then r + [e] else r)
  {
    if r == [] || r[|r| - 1] != e {
      forall j | 0 <= j < |r|
        ensures le(r[j], e) && r[j] != e
      {
        assert r[j] in s;
        var k :| 0 <= k < |s| && s[k] == r[j];
        DiffersFromAll(le, s, e, k);
      }
      assert NoDuplicates(s + [e]) ==> NoDuplicates(s) by {
        assert forall i :: 0 <= i < |s| ==> (s + [e])[i] == s[i];
      }
    } else {
      assert (s + [e])[|s| - 1] == (s + [e])[|s|];
    }
  }

  /** `unique` and `erase` on a sorted list. */
  method Unique<T(==, !new)>(le: (T, T) -> bool, s: seq<T>) returns (r: seq<T>)
    requires Sorted(le, s) && Separates(le, s)
    ensures Sorted(le, r) && NoDuplicates(r) && (forall t :: t in r <==> t in s)
    ensures NoDuplicates(s) ==> r == s
  {
    r := [];
    for i := 0 to |s|
      invariant OneOfEach(le, s[..i], r)
    {
      PrefixSorted(le, s, i + 1);
      assert s[..i + 1] == s[..i] + [s[i]];
      NextOfEach(le, s[..i], s[i], r);
      if r == [] || r[|r| - 1] != s[i] {
        r := r + [s[i]];
      }
    }
    assert s[..|s|] == s;
  }

  lemma {:induction false} PrefixSorted<T>(le: (T, T) -> bool, s: seq<T>, n: nat)
    requires n <= |s| && Sorted(le, s) && Separates(le, s)
    ensures Sorted(le, s[..n]) && Separates(le, s[..n])
  {
  }

  // ---------- Uniqueness of the arrangement ----------

  lemma {:induction false} TailSorted<T>(le: (T, T) -> bool, s: seq<T>)
    requires s != [] && Sorted(le, s) && Separates(le, s)
    ensures Sorted(le, s[1..]) && Separates(le, s[1..])
  {
  }

  lemma {:induction false} TailOfSorted<T>(le: (T, T) -> bool, s: seq<T>)
    requires s != [] && Sorted(le, s)
    ensures Sorted(le, s[1..])
  {
  }

  lemma {:induction false} HeadAndTail<T>(s: seq<T>, t: seq<T>)
    requires s != [] && t != [] && s[0] == t[0] && s[1..] == t[1..]
    ensures s == t
  {
    assert s == [s[0]] + s[1..] && t == [t[0]] + t[1..];
  }

  lemma {:induction false} TailElements<T>(s: seq<T>)
    requires s != []
    ensures multiset(s[1..]) == multiset(s) - multiset{s[0]}
  {
    assert s == [s[0]] + s[1..];
  }

  lemma {:induction false} SameFirst<T>(le: (T, T) -> bool, s: seq<T>, t: seq<T>)
    requires s != [] && t != [] && Sorted(le, s) && Sorted(le, t) && multiset(s) == multiset(t) && Separates(le, s)
    ensures s[0] == t[0]
  {
    assert t[0] in multiset(s) && s[0] in multiset(t);
    var i :| 0 <= i < |s| && s[i] == t[0];
    var j :| 0 <= j < |t| && t[j] == s[0];
    assert i == 0 || le(s[0], s[i]);
    assert j == 0 || le(t[0], t[j]);
  }

  /** Two sorted arrangements of the same elements are equal when the order separates them. */
  lemma {:induction false} SortedIsUnique<T>(le: (T, T) -> bool, s: seq<T>, t: seq<T>)
    requires Sorted(le, s) && Sorted(le, t) && multiset(s) == multiset(t) && Separates(le, s)
    ensures s == t
    decreases |s|
  {
    assert |multiset(s)| == |s| && |multiset(t)| == |t|;
    if s != [] {
      SameFirst(le, s, t);
      TailElements(s);
      TailElements(t);
      TailSorted(le, s);
      TailOfSorted(le, t);
      SortedIsUnique(le, s[1..], t[1..]);
      HeadAndTail(s, t);
    }
  }

  lemma {:induction false} CountAtMostOne<T>(s: seq<T>, e: T)
    requires NoDuplicates(s)
    ensures multiset(s)[e] == if e in s then 1 else 0
    decreases |s|
  {
    if s != [] {
      assert s == [s[0]] + s[1..];
      CountAtMostOne(s[1..], e);
    }
  }

  lemma {:induction false} SameElements<T>(s: seq<T>, t: seq<T>)
    requires NoDuplicates(s) && NoDuplicates(t) && (forall e :: e in s <==> e in t)
    ensures multiset(s) == multiset(t) && |s| == |t|
  {
    forall e
      ensures multiset(s)[e] == multiset(t)[e]
    {
      CountAtMostOne(s, e);
      CountAtMostOne(t, e);
    }
    assert |multiset(s)| == |s| && |multiset(t)| == |t|;
  }

  lemma {:induction false} RepeatedCount<T>(r: seq<T>, i: nat, j: nat)
    requires i < j < |r| && r[i] == r[j]
    ensures multiset(r)[r[i]] >= 2
  {
    var rest := r[..j] + r[j + 1..];
    assert r == r[..j] + [r[j]] + r[j + 1..];
    assert multiset(r) == multiset(rest) + multiset{r[j]};
    assert rest[i] == r[i];
  }

  /** Rearranging keeps a list free of duplicates. */
  lemma {:induction false} PermutedNoDuplicates<T>(s: seq<T>, r: seq<T>)
    requires NoDuplicates(s) && multiset(r) == multiset(s)
    ensures NoDuplicates(r) && |r| == |s|
  {
    assert |multiset(r)| == |r| && |multiset(s)| == |s|;
    forall i, j | 0 <= i < j < |r|
      ensures r[i] != r[j]
    {
      CountAtMostOne(s, r[i]);
      if r[i] == r[j] {
        RepeatedCount(r, i, j);
      }
    }
  }
}
