/**
 * Ordering and paging as the store's queries do them: a sort on an integer
 * key in descending order (`order by activity_id desc`, Hash::sort on the
 * date, desc) and MySQL's `limit offset,count`.
 */
module Ordering {
  import opened Wrappers

  predicate SortedDesc<T>(s: seq<T>, key: T -> int) {
    forall i, j :: 0 <= i < j < |s| ==> key(s[i]) >= key(s[j])
  }

  /** Places `x` before the first element whose key is not above its own. */
  function Insert<T>(x: T, s: seq<T>, key: T -> int): seq<T> {
    if s == [] then [x]
    else if key(x) >= key(s[0]) then [x] + s
    else [s[0]] + Insert(x, s[1..], key)
  }

  /** Inserting adds `x` and loses nothing. */
  lemma {:induction false} InsertPermutes<T>(x: T, s: seq<T>, key: T -> int)
    ensures multiset(Insert(x, s, key)) == multiset(s) + multiset{x}
  {
    if s != [] && key(x) < key(s[0]) {
      InsertPermutes(x, s[1..], key);
      assert s == [s[0]] + s[1..];
    }
  }

  /** Inserting into a sorted sequence keeps it sorted. */
  lemma {:induction false} InsertSorted<T>(x: T, s: seq<T>, key: T -> int)
    requires SortedDesc(s, key)
    ensures SortedDesc(Insert(x, s, key), key)
  {
    if s != [] && key(x) < key(s[0]) {
      var rest := Insert(x, s[1..], key);
      InsertSorted(x, s[1..], key);
      InsertPermutes(x, s[1..], key);
      forall j | 0 <= j < |rest| ensures key(s[0]) >= key(rest[j]) {
        assert rest[j] in multiset(s[1..]) + multiset{x};
        if rest[j] != x {
          var k :| 0 <= k < |s[1..]| && s[1..][k] == rest[j];
          assert s[1..][k] == s[k + 1];
        }
      }
    }
  }

  /**
   * Sorts on `key`, largest first. The database leaves the order of rows
   * with equal keys open; this sort keeps their input order.
   */
  function SortDesc<T>(s: seq<T>, key: T -> int): seq<T> {
    if s == [] then [] else Insert(s[0], SortDesc(s[1..], key), key)
  }

  /** The sort is a permutation of its input, and sorted. */
  lemma {:induction false} SortDescSpec<T>(s: seq<T>, key: T -> int)
    ensures multiset(SortDesc(s, key)) == multiset(s)
    ensures SortedDesc(SortDesc(s, key), key)
  {
    if s != [] {
      var sorted := SortDesc(s[1..], key);
      SortDescSpec(s[1..], key);
      InsertPermutes(s[0], sorted, key);
      InsertSorted(s[0], sorted, key);
      assert s == [s[0]] + s[1..];
    }
  }

  function Min(a: int, b: int): int { if a <= b then a else b }

  /** The rows `offset`, `offset + 1`, ... of `s`, at most `count` of them. */
  function Window<T>(s: seq<T>, offset: nat, count: nat): (r: seq<T>)
    ensures |r| == if offset >= |s| then 0 else Min(count, |s| - offset)
    ensures forall i :: 0 <= i < |r| ==> r[i] == s[offset + i]
  {
    s[Min(offset, |s|)..Min(offset + count, |s|)]
  }

  /**
   * `limit offset,count` appended to a query when a limit is given, the
   * offset defaulting to 0; with no limit the whole result, whatever the
   * offset.
   */
  function Paginate<T>(s: seq<T>, limit: Option<nat>, offset: Option<nat>): (r: seq<T>)
    ensures limit.None? ==> r == s
    ensures limit.Some? ==> r == Window(s, offset.GetOr(0), limit.value)
  {
    match limit
    case None => s
    case Some(count) => Window(s, offset.GetOr(0), count)
  }

  /** The first `n` pages of `size` rows, requested one after another at offsets 0, size, 2·size, ... */
  function Pages<T>(s: seq<T>, size: nat, n: nat): seq<T> {
    if n == 0 then [] else Pages(s, size, n - 1) + Paginate(s, Some(size), Some((n - 1) * size))
  }

  lemma PageStep(n: nat, size: nat)
    requires n > 0
    ensures (n - 1) * size + size == n * size
  {
  }

  /** Contiguous pages neither skip nor repeat a row: together they are a prefix of the result. */
  lemma {:induction false} PagesArePrefix<T>(s: seq<T>, size: nat, n: nat)
    ensures Pages(s, size, n) == s[..Min(n * size, |s|)]
  {
    if n > 0 {
      PagesArePrefix(s, size, n - 1);
      PageStep(n, size);
      PrefixThenWindow(s, (n - 1) * size, size);
    }
  }

  /** The prefix up to `start` followed by the window at `start` is the longer prefix. */
  lemma PrefixThenWindow<T>(s: seq<T>, start: nat, size: nat)
    ensures s[..Min(start, |s|)] + Paginate(s, Some(size), Some(start)) == s[..Min(start + size, |s|)]
  {
    var a := Min(start, |s|);
    var b := Min(start + size, |s|);
    assert Paginate(s, Some(size), Some(start)) == s[a..b];
    assert s[..a] + s[a..b] == s[..b];
  }

  /** Once the pages reach the end of the result they hold every row exactly once. */
  lemma PagesCoverAll<T>(s: seq<T>, size: nat, n: nat)
    requires n * size >= |s|
    ensures Pages(s, size, n) == s
    ensures |Pages(s, size, n)| == |s|
  {
    PagesArePrefix(s, size, n);
  }
}
