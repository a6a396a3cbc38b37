/** The two sequence operators the resolver applies before its scan:
    `Where` (filtering) and `OrderBy` (a stable sort on a string key). The
    string order is a parameter, because the framework's default comparer is
    culture-sensitive. */
module Linq {

  /** `s.Where(keep)`: the elements of `s` that `keep` accepts, in order. */
  function Where<T>(s: seq<T>, keep: T -> bool): seq<T> {
    if s == [] then []
    else (if keep(s[0]) then [s[0]] else []) + Where(s[1..], keep)
  }

  /** Filtering keeps each accepted element exactly as often as it occurs. */
  lemma {:induction false} WhereCount<T>(s: seq<T>, keep: T -> bool, x: T)
    ensures multiset(Where(s, keep))[x] == if keep(x) then multiset(s)[x] else 0
  {
    if s != [] {
      WhereCount(s[1..], keep, x);
      assert s == [s[0]] + s[1..];
    }
  }

  /** Filtering keeps an element exactly when the input holds it and `keep`
      accepts it, and never makes the sequence longer. */
  lemma {:induction false} WhereKeeps<T>(s: seq<T>, keep: T -> bool)
    ensures forall x :: x in Where(s, keep) <==> x in s && keep(x)
    ensures |Where(s, keep)| <= |s|
  {
    forall x
      ensures x in Where(s, keep) <==> x in s && keep(x)
    {
      WhereCount(s, keep, x);
    }
    WhereShorter(s, keep);
  }

  /** Filtering never lengthens the sequence. */
  lemma {:induction false} WhereShorter<T>(s: seq<T>, keep: T -> bool)
    ensures |Where(s, keep)| <= |s|
  {
    if s != [] {
      WhereShorter(s[1..], keep);
    }
  }

  /** Two inputs holding the same elements give filtered results holding
      the same elements. */
  lemma WherePreservesPermutation<T(!new)>(s: seq<T>, t: seq<T>, keep: T -> bool)
    requires multiset(s) == multiset(t)
    ensures multiset(Where(s, keep)) == multiset(Where(t, keep))
  {
    forall x
      ensures multiset(Where(s, keep))[x] == multiset(Where(t, keep))[x]
    {
      WhereCount(s, keep, x);
      WhereCount(t, keep, x);
    }
    assert multiset(Where(s, keep)) == multiset(Where(t, keep));
  }

  /** Filtering keeps some of the elements, none more often than before. */
  lemma WhereIsPart<T(!new)>(s: seq<T>, keep: T -> bool)
    ensures multiset(Where(s, keep)) <= multiset(s)
  {
    forall x
      ensures multiset(Where(s, keep))[x] <= multiset(s)[x]
    {
      WhereCount(s, keep, x);
    }
  }

  /** When every element is accepted, filtering changes nothing. */
  lemma {:induction false} WhereAll<T>(s: seq<T>, keep: T -> bool)
    requires forall x :: x in s ==> keep(x)
    ensures Where(s, keep) == s
  {
    if s != [] {
      WhereAll(s[1..], keep);
      assert [s[0]] + s[1..] == s;
    }
  }

  /** `le` is total and transitive: what a sort comparer must be. */
  ghost predicate TotalPreorder(le: (string, string) -> bool) {
    (forall a, b :: le(a, b) || le(b, a)) &&
    (forall a, b, c :: le(a, b) && le(b, c) ==> le(a, c))
  }

  /** No two different strings compare as equal. */
  ghost predicate Antisymmetric(le: (string, string) -> bool) {
    forall a, b :: le(a, b) && le(b, a) ==> a == b
  }

  ghost predicate SortedBy<T>(s: seq<T>, key: T -> string, le: (string, string) -> bool) {
    forall a, b :: 0 <= a < b < |s| ==> le(key(s[a]), key(s[b]))
  }

  /** Puts `x` before the first element whose key it does not exceed, so it
      goes ahead of elements with an equal key. */
  function Insert<T>(x: T, s: seq<T>, key: T -> string, le: (string, string) -> bool): seq<T> {
    if s == [] || le(key(x), key(s[0])) then [x] + s
    else [s[0]] + Insert(x, s[1..], key, le)
  }

  /** `s.OrderBy(key)` under the order `le`: an insertion sort that keeps the
      input order of elements with equal keys. */
  function OrderBy<T>(s: seq<T>, key: T -> string, le: (string, string) -> bool): seq<T> {
    if s == [] then [] else Insert(s[0], OrderBy(s[1..], key, le), key, le)
  }

  lemma {:induction false} InsertPermutes<T>(x: T, s: seq<T>, key: T -> string, le: (string, string) -> bool)
    ensures multiset(Insert(x, s, key, le)) == multiset(s) + multiset{x}
    ensures |Insert(x, s, key, le)| == |s| + 1
  {
    if s != [] && !le(key(x), key(s[0])) {
      InsertPermutes(x, s[1..], key, le);
      assert s == [s[0]] + s[1..];
    }
  }

  /** Sorting rearranges the elements and neither adds nor drops any. */
  lemma {:induction false} OrderByPermutes<T>(s: seq<T>, key: T -> string, le: (string, string) -> bool)
    ensures multiset(OrderBy(s, key, le)) == multiset(s)
    ensures |OrderBy(s, key, le)| == |s|
  {
    if s != [] {
      OrderByPermutes(s[1..], key, le);
      InsertPermutes(s[0], OrderBy(s[1..], key, le), key, le);
      assert s == [s[0]] + s[1..];
    }
  }

  /** Sorting keeps exactly the elements of the input. */
  lemma OrderByMembers<T>(s: seq<T>, key: T -> string, le: (string, string) -> bool)
    ensures forall x :: x in OrderBy(s, key, le) <==> x in s
  {
    OrderByPermutes(s, key, le);
    forall x
      ensures x in OrderBy(s, key, le) <==> x in s
    {
      assert x in s <==> x in multiset(s);
      assert x in OrderBy(s, key, le) <==> x in multiset(OrderBy(s, key, le));
    }
  }

  lemma {:induction false} InsertSorted<T>(x: T, s: seq<T>, key: T -> string, le: (string, string) -> bool)
    requires TotalPreorder(le)
    requires SortedBy(s, key, le)
    ensures SortedBy(Insert(x, s, key, le), key, le)
  {
    if s != [] && !le(key(x), key(s[0])) {
      var t := s[1..];
      InsertSorted(x, t, key, le);
      InsertPermutes(x, t, key, le);
      var r := Insert(x, t, key, le);
      assert multiset(r) == multiset(t) + multiset{x};
      forall b | 0 <= b < |r|
        ensures le(key(s[0]), key(r[b]))
      {
        assert r[b] in multiset(r);
        if r[b] != x {
          assert r[b] in t;
        }
      }
    }
  }

  /** `OrderBy` sorts by the key whenever `le` is a total preorder. */
  lemma {:induction false} OrderBySorted<T>(s: seq<T>, key: T -> string, le: (string, string) -> bool)
    requires TotalPreorder(le)
    ensures SortedBy(OrderBy(s, key, le), key, le)
  {
    if s != [] {
      OrderBySorted(s[1..], key, le);
      InsertSorted(s[0], OrderBy(s[1..], key, le), key, le);
    }
  }

  lemma SortedHeadIsLeast<T>(s: seq<T>, key: T -> string, le: (string, string) -> bool, y: T)
    requires TotalPreorder(le) && SortedBy(s, key, le)
    requires y in s
    ensures le(key(s[0]), key(y))
  {
    var k :| 0 <= k < |s| && s[k] == y;
    if k == 0 {
      assert le(key(y), key(y)) || le(key(y), key(y));
    }
  }

  /** No two positions of `s` hold elements with the same key. */
  ghost predicate DistinctKeys<T>(s: seq<T>, key: T -> string) {
    forall a, b :: 0 <= a < b < |s| ==> key(s[a]) != key(s[b])
  }

  /** An element found at two positions occurs at least twice. */
  lemma TwoPositions<T>(s: seq<T>, a: nat, b: nat)
    requires a < b < |s| && s[a] == s[b]
    ensures multiset(s)[s[a]] >= 2
  {
    assert s == s[..b] + [s[b]] + s[b + 1..];
    assert s[a] == s[..b][a];
  }

  /** With distinct keys, no element occurs twice. */
  lemma {:induction false} DistinctKeysOccurOnce<T>(s: seq<T>, key: T -> string, x: T)
    requires DistinctKeys(s, key)
    ensures multiset(s)[x] <= 1
  {
    if s != [] {
      assert s == [s[0]] + s[1..];
      assert DistinctKeys(s[1..], key);
      DistinctKeysOccurOnce(s[1..], key, x);
      if x == s[0] {
        assert s[0] !in s[1..] by {
          forall k | 0 <= k < |s[1..]| ensures s[1..][k] != s[0] {
            assert s[1..][k] == s[k + 1];
          }
        }
      }
    }
  }

  /** Keys stay distinct in any sequence that holds some of the same
      elements, each at most as often. */
  lemma DistinctKeysOfPart<T>(s: seq<T>, t: seq<T>, key: T -> string)
    requires DistinctKeys(s, key) && multiset(t) <= multiset(s)
    ensures DistinctKeys(t, key)
  {
    forall a, b | 0 <= a < b < |t|
      ensures key(t[a]) != key(t[b])
    {
      if t[a] == t[b] {
        TwoPositions(t, a, b);
        DistinctKeysOccurOnce(s, key, t[a]);
      } else {
        assert t[a] in multiset(s) && t[b] in multiset(s);
        var p :| 0 <= p < |s| && s[p] == t[a];
        var q :| 0 <= q < |s| && s[q] == t[b];
      }
    }
  }

  lemma SortedHeadsAgree<T>(s: seq<T>, t: seq<T>, key: T -> string, le: (string, string) -> bool)
    requires TotalPreorder(le) && Antisymmetric(le) && DistinctKeys(s, key)
    requires multiset(s) == multiset(t) && s != []
    requires SortedBy(s, key, le) && SortedBy(t, key, le)
    ensures t != [] && s[0] == t[0]
  {
    assert |t| == |multiset(t)| == |multiset(s)| == |s|;
    var x, y := s[0], t[0];
    assert x in multiset(t) && y in multiset(s);
    var p :| 0 <= p < |s| && s[p] == y;
    SortedHeadIsLeast(s, key, le, y);
    SortedHeadIsLeast(t, key, le, x);
  }

  lemma SortedTail<T>(s: seq<T>, key: T -> string, le: (string, string) -> bool)
    requires SortedBy(s, key, le) && s != []
    ensures SortedBy(s[1..], key, le)
  {
    forall a, b | 0 <= a < b < |s| - 1
      ensures le(key(s[1..][a]), key(s[1..][b]))
    {
      assert s[1..][a] == s[a + 1] && s[1..][b] == s[b + 1];
    }
  }

  /** Removing equal heads from two arrangements of the same collection
      leaves two arrangements of the same collection. */
  lemma SameTails<T>(s: seq<T>, t: seq<T>)
    requires multiset(s) == multiset(t) && s != [] && t != [] && s[0] == t[0]
    ensures multiset(s[1..]) == multiset(t[1..])
  {
    assert s == [s[0]] + s[1..] && t == [t[0]] + t[1..];
    assert multiset(s[1..]) == multiset(s) - multiset{s[0]};
    assert multiset(t[1..]) == multiset(t) - multiset{t[0]};
  }

  /** Under an antisymmetric total order, and when no two elements share a
      key, the sorted arrangement of a collection is unique. */
  lemma {:induction false} SortedIsUnique<T>(s: seq<T>, t: seq<T>, key: T -> string, le: (string, string) -> bool)
    requires TotalPreorder(le) && Antisymmetric(le) && DistinctKeys(s, key)
    requires multiset(s) == multiset(t)
    requires SortedBy(s, key, le) && SortedBy(t, key, le)
    ensures s == t
    decreases |s|
  {
    if s == [] {
      assert |t| == |multiset(t)| == 0;
    } else {
      SortedHeadsAgree(s, t, key, le);
      SameTails(s, t);
      SortedTail(s, key, le);
      SortedTail(t, key, le);
      assert DistinctKeys(s[1..], key);
      SortedIsUnique(s[1..], t[1..], key, le);
      assert s == [s[0]] + s[1..] && t == [t[0]] + t[1..];
    }
  }
}
