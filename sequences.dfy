/**
 * The query semantics of the document store, stated over sequences of
 * records kept in stored (natural) order: an equality filter (`find`), the
 * first match (`find_one`), removal of the first match (`delete_one`),
 * removal of every match (`delete_many`), a cursor sort and a cursor read
 * of at most a given number of documents (`to_list`).
 */
module Sequences {
  import opened Wrappers

  /** The documents of `s` that match `p`, in stored order (`find`). */
  function Filter<T(!new)>(s: seq<T>, p: T -> bool): (r: seq<T>)
    ensures |r| <= |s|
    ensures forall x :: x in r <==> x in s && p(x)
    decreases |s|
  {
    if s == [] then []
    else (if p(s[0]) then [s[0]] else []) + Filter(s[1..], p)
  }

  /** The complement of a filter. */
  function Not<T>(p: T -> bool): T -> bool {
    x => !p(x)
  }

  /** Filtering keeps stored order: a document appended at the end comes last. */
  lemma {:induction false} FilterSnoc<T(!new)>(s: seq<T>, x: T, p: T -> bool)
    ensures Filter(s + [x], p) == Filter(s, p) + (if p(x) then [x] else [])
    decreases |s|
  {
    if s == [] {
      assert [] + [x] == [x];
    } else {
      assert (s + [x])[1..] == s[1..] + [x];
      FilterSnoc(s[1..], x, p);
    }
  }

  /** A filter and its complement split the documents between them, counting duplicates. */
  lemma {:induction false} FilterPartition<T(!new)>(s: seq<T>, p: T -> bool)
    ensures multiset(Filter(s, p)) + multiset(Filter(s, Not(p))) == multiset(s)
    decreases |s|
  {
    if s != [] {
      FilterPartition(s[1..], p);
      assert s == [s[0]] + s[1..];
    }
  }

  /** The index of the first document matching `p`, if any (`find_one`). */
  function FirstIndex<T(!new)>(s: seq<T>, p: T -> bool): (r: Option<nat>)
    ensures r.Some? ==> r.value < |s| && p(s[r.value])
    ensures r.Some? ==> forall j :: 0 <= j < r.value ==> !p(s[j])
    ensures r.None? <==> forall x :: x in s ==> !p(x)
    decreases |s|
  {
    if s == [] then None
    else if p(s[0]) then Some(0)
    else match FirstIndex(s[1..], p)
      case None => None
      case Some(i) => Some(i + 1)
  }

  /** `s` without its first document matching `p` (`delete_one`). */
  function RemoveFirst<T(!new)>(s: seq<T>, p: T -> bool): (r: seq<T>)
    ensures FirstIndex(s, p).None? ==> r == s
    ensures forall x :: x in r ==> x in s
    ensures FirstIndex(s, p).Some? ==>
      |r| == |s| - 1 && multiset(r) + multiset{s[FirstIndex(s, p).value]} == multiset(s)
  {
    match FirstIndex(s, p)
    case None => s
    case Some(i) =>
      assert s == s[..i] + [s[i]] + s[i + 1..];
      s[..i] + s[i + 1..]
  }

  /** Removing the first match keeps every document that does not match. */
  lemma RemoveFirstKeepsOthers<T(!new)>(s: seq<T>, p: T -> bool)
    ensures forall x :: x in s && !p(x) ==> x in RemoveFirst(s, p)
  {
    var r := RemoveFirst(s, p);
    forall x | x in s && !p(x) ensures x in r {
      assert x in multiset(s);
      if FirstIndex(s, p).Some? {
        assert x != s[FirstIndex(s, p).value];
      }
    }
  }

  /** When at most one document matches, none is left after removing the first. */
  lemma RemoveFirstRemovesSoleMatch<T(!new)>(s: seq<T>, p: T -> bool)
    requires forall i, j :: 0 <= i < |s| && 0 <= j < |s| && i != j && p(s[i]) ==> !p(s[j])
    ensures forall x :: x in RemoveFirst(s, p) ==> !p(x)
  {
    var r := RemoveFirst(s, p);
    if FirstIndex(s, p).Some? {
      var i := FirstIndex(s, p).value;
      assert r == s[..i] + s[i + 1..];
      forall x | x in r ensures !p(x) {
        var k :| 0 <= k < |r| && r[k] == x;
        if k < i {
          assert x == s[k];
        } else {
          assert x == s[k + 1];
        }
      }
    }
  }

  /** At most `length` documents from the front of the cursor (`to_list(length)`). */
  function ToList<T>(s: seq<T>, length: nat): (r: seq<T>)
    ensures |r| <= length && |r| <= |s|
    ensures |s| <= length ==> r == s
    ensures |s| > length ==> |r| == length
    ensures r == s[..|r|]
  {
    if |s| <= length then s else s[..length]
  }

  /** Every document of `s` comes no later in `key` order than those after it. */
  ghost predicate SortedBy<T>(s: seq<T>, key: T -> int) {
    forall i, j :: 0 <= i < j < |s| ==> key(s[i]) <= key(s[j])
  }

  /** `x` put into `s` before the first document whose key is not smaller than its own. */
  function InsertBy<T>(x: T, s: seq<T>, key: T -> int): (r: seq<T>)
    ensures multiset(r) == multiset(s) + multiset{x}
    decreases |s|
  {
    if s == [] || key(x) <= key(s[0]) then [x] + s
    else
      assert s == [s[0]] + s[1..];
      [s[0]] + InsertBy(x, s[1..], key)
  }

  /** Inserting into a sorted cursor keeps it sorted. */
  lemma {:induction false} InsertBySorted<T>(x: T, s: seq<T>, key: T -> int)
    requires SortedBy(s, key)
    ensures SortedBy(InsertBy(x, s, key), key)
    decreases |s|
  {
    if s != [] && key(x) > key(s[0]) {
      var rest := InsertBy(x, s[1..], key);
      InsertBySorted(x, s[1..], key);
      forall y | y in rest ensures key(s[0]) <= key(y) {
        assert y in multiset(rest);
        assert y == x || y in multiset(s[1..]);
      }
      var r := [s[0]] + rest;
      forall i, j | 0 <= i < j < |r| ensures key(r[i]) <= key(r[j]) {
        if i > 0 {
          assert r[i] == rest[i - 1] && r[j] == rest[j - 1];
        } else {
          assert r[j] in rest;
        }
      }
    }
  }

  /** The cursor sorted ascending by `key` (`sort(key, 1)`); ties keep stored order. */
  function SortBy<T(!new)>(s: seq<T>, key: T -> int): (r: seq<T>)
    ensures SortedBy(r, key)
    ensures multiset(r) == multiset(s)
    decreases |s|
  {
    if s == [] then []
    else
      assert s == [s[0]] + s[1..];
      InsertBySorted(s[0], SortBy(s[1..], key), key);
      InsertBy(s[0], SortBy(s[1..], key), key)
  }

  /**
   * A page read from a sorted cursor is sorted and holds only the cursor's
   * documents: all of them when they fit, and otherwise those with the
   * smallest keys, so no document left off the page has a smaller key than
   * one on it.
   */
  lemma SortedPage<T(!new)>(s: seq<T>, key: T -> int, length: nat)
    ensures SortedBy(ToList(SortBy(s, key), length), key)
    ensures forall x :: x in ToList(SortBy(s, key), length) ==> x in s
    ensures |s| <= length ==> multiset(ToList(SortBy(s, key), length)) == multiset(s)
    ensures forall x, y ::
      (x in ToList(SortBy(s, key), length) && y in multiset(s) - multiset(ToList(SortBy(s, key), length))) ==>
      key(x) <= key(y)
  {
    var sorted := SortBy(s, key);
    var page := ToList(sorted, length);
    forall x | x in page ensures x in s {
      assert x in sorted;
      assert x in multiset(sorted);
    }
    PageHoldsSmallestKeys(sorted, page, s, key);
  }

  /** A prefix of a sorted permutation of `s` holds the smallest keys of `s`. */
  lemma PageHoldsSmallestKeys<T(!new)>(sorted: seq<T>, page: seq<T>, s: seq<T>, key: T -> int)
    requires SortedBy(sorted, key) && multiset(sorted) == multiset(s)
    requires |page| <= |sorted| && page == sorted[..|page|]
    ensures forall x, y :: x in page && y in multiset(s) - multiset(page) ==> key(x) <= key(y)
  {
    var rest := sorted[|page|..];
    assert sorted == page + rest;
    SortedSplit(sorted, key, |page|);
    LeftOff(sorted, page, rest);
  }

  /** What a prefix leaves of a sequence, duplicates counted, is the rest. */
  lemma LeftOff<T>(s: seq<T>, page: seq<T>, rest: seq<T>)
    requires s == page + rest
    ensures multiset(s) - multiset(page) == multiset(rest)
  {
    assert multiset(s) == multiset(page) + multiset(rest);
  }

  /** Cutting a sorted sequence leaves no smaller key after the cut than before it. */
  lemma SortedSplit<T(!new)>(sorted: seq<T>, key: T -> int, n: nat)
    requires SortedBy(sorted, key) && n <= |sorted|
    ensures forall x, y :: x in sorted[..n] && y in multiset(sorted[n..]) ==> key(x) <= key(y)
  {
    forall x, y | x in sorted[..n] && y in multiset(sorted[n..]) ensures key(x) <= key(y) {
      assert y in sorted[n..];
      var i :| 0 <= i < n && sorted[..n][i] == x;
      var j :| 0 <= j < |sorted| - n && sorted[n..][j] == y;
      assert sorted[i] == x && sorted[n + j] == y;
    }
  }
}
