/**
 * The query operators the controllers chain on a table: enumerating the
 * rows, `Where`, `Select`, `OrderBy`/`OrderByDescending`, and
 * `Skip`/`Take` as the SQLite provider runs them (`OFFSET` and `LIMIT`).
 */
module Linq {
  import opened Clr

  /** A page of a listing with the number of matching rows counted before paging. */
  datatype Paged<T> = Paged(items: seq<T>, totalCount: nat)

  // ---------------------------------------------------------------- rows

  lemma {:induction false} MinExists(ks: set<int>)
    requires ks != {}
    ensures exists k :: k in ks && forall j :: j in ks ==> k <= j
    decreases |ks|
  {
    if forall y :: y !in ks {
      assert false;
    }
    var x :| x in ks;
    var rest := ks - {x};
    if rest == {} {
      assert forall j :: j in ks ==> j == x by {
        forall j | j in ks ensures j == x {
          assert j == x || j in rest;
        }
      }
      assert x in ks && forall j :: j in ks ==> x <= j;
    } else {
      MinExists(rest);
      var m :| m in rest && forall j :: j in rest ==> m <= j;
      var k := if x < m then x else m;
      assert forall j :: j in ks ==> j == x || j in rest;
      assert k in ks && forall j :: j in ks ==> k <= j;
    }
  }

  function MinKey(ks: set<int>): (k: int)
    requires ks != {}
    ensures k in ks && forall j :: j in ks ==> k <= j
  {
    MinExists(ks);
    var k :| k in ks && forall j :: j in ks ==> k <= j;
    k
  }

  /** The rows of a table keyed by id, in ascending id order (the order of a table scan). */
  function Rows<T(==, !new)>(m: map<int, T>): (r: seq<T>)
    ensures |r| == |m|
    ensures forall x :: x in r <==> x in m.Values
    decreases |m|
  {
    if |m| == 0 then []
    else
      var k := MinKey(m.Keys);
      var rest := m - {k};
      assert rest.Keys == m.Keys - {k};
      assert m.Values == rest.Values + {m[k]} by {
        forall x | x in m.Values ensures x in rest.Values + {m[k]} {
          var j :| j in m && m[j] == x;
          if j != k { assert j in rest; }
        }
      }
      [m[k]] + Rows(rest)
  }

  // ---------------------------------------------------------------- Where / Select

  /** `r` keeps some of the elements of `s`, in their order. */
  ghost predicate IsSubsequence<T>(r: seq<T>, s: seq<T>)
    decreases |s|
  {
    r == [] || (s != [] && ((r[0] == s[0] && IsSubsequence(r[1..], s[1..])) || IsSubsequence(r, s[1..])))
  }

  lemma {:induction false} SubsequenceOfItself<T>(s: seq<T>)
    ensures IsSubsequence(s, s)
    decreases |s|
  {
    if s != [] {
      SubsequenceOfItself(s[1..]);
    }
  }

  /** `Where(p)` */
  function Where<T(!new)>(s: seq<T>, p: T -> bool): (r: seq<T>)
    ensures |r| <= |s|
    ensures forall x :: x in r <==> x in s && p(x)
    ensures IsSubsequence(r, s)
  {
    if s == [] then []
    else if p(s[0]) then [s[0]] + Where(s[1..], p)
    else Where(s[1..], p)
  }

  /** The keys of `m` whose row satisfies `p`. */
  ghost function KeysWhere<T>(m: map<int, T>, p: T -> bool): set<int> {
    set k | k in m && p(m[k])
  }

  lemma KeysWhereSplit<T>(m: map<int, T>, p: T -> bool, k0: int)
    requires k0 in m
    ensures KeysWhere(m, p) == KeysWhere(m - {k0}, p) + (if p(m[k0]) then {k0} else {})
    ensures k0 !in KeysWhere(m - {k0}, p)
  {
  }

  /** Filtering the rows of a table keeps one row per matching key: the `CountAsync` of a listing. */
  lemma {:induction false} WhereRowsCount<T(!new)>(m: map<int, T>, p: T -> bool)
    ensures |Where(Rows(m), p)| == |KeysWhere(m, p)|
    decreases |m|
  {
    if |m| == 0 {
      assert KeysWhere(m, p) == {};
    } else {
      var k0 := MinKey(m.Keys);
      var rest := m - {k0};
      assert rest.Keys == m.Keys - {k0};
      WhereRowsCount(rest, p);
      KeysWhereSplit(m, p, k0);
      var rows := Rows(m);
      assert rows[0] == m[k0] && rows[1..] == Rows(rest);
      assert |Where(rows, p)| == (if p(m[k0]) then 1 else 0) + |Where(Rows(rest), p)|;
    }
  }

  /** `Select(f)` */
  function Select<T, U>(s: seq<T>, f: T -> U): (r: seq<U>)
    ensures |r| == |s|
    ensures forall i :: 0 <= i < |s| ==> r[i] == f(s[i])
  {
    if s == [] then [] else [f(s[0])] + Select(s[1..], f)
  }

  // ---------------------------------------------------------------- OrderBy

  /** `le(a, b)`: `a` may be listed before `b`. */
  ghost predicate TotalPreorder<T(!new)>(le: (T, T) -> bool) {
    && (forall a, b :: le(a, b) || le(b, a))
    && (forall a, b, c :: le(a, b) && le(b, c) ==> le(a, c))
  }

  ghost predicate SortedBy<T>(s: seq<T>, le: (T, T) -> bool) {
    forall i, j :: 0 <= i < j < |s| ==> le(s[i], s[j])
  }

  function Insert<T>(x: T, s: seq<T>, le: (T, T) -> bool): (r: seq<T>)
    ensures multiset(r) == multiset(s) + multiset{x}
  {
    if s == [] || le(x, s[0]) then [x] + s
    else
      assert s == [s[0]] + s[1..];
      [s[0]] + Insert(x, s[1..], le)
  }

  lemma {:induction false} InsertSorted<T(!new)>(x: T, s: seq<T>, le: (T, T) -> bool)
    requires TotalPreorder(le) && SortedBy(s, le)
    ensures SortedBy(Insert(x, s, le), le)
  {
    if s == [] || le(x, s[0]) {
    } else {
      var rest := Insert(x, s[1..], le);
      InsertSorted(x, s[1..], le);
      assert le(s[0], x);
      forall y | y in rest ensures le(s[0], y) {
        assert y in multiset(rest);
        if y != x {
          assert y in multiset(s[1..]);
        }
      }
    }
  }

  /** `OrderBy` under the order `le` (an insertion sort; equal keys keep their order). */
  function OrderBy<T>(s: seq<T>, le: (T, T) -> bool): (r: seq<T>)
    ensures multiset(r) == multiset(s)
  {
    if s == [] then []
    else
      assert s == [s[0]] + s[1..];
      Insert(s[0], OrderBy(s[1..], le), le)
  }

  lemma {:induction false} OrderBySorted<T(!new)>(s: seq<T>, le: (T, T) -> bool)
    requires TotalPreorder(le)
    ensures SortedBy(OrderBy(s, le), le)
  {
    if s != [] {
      OrderBySorted(s[1..], le);
      InsertSorted(s[0], OrderBy(s[1..], le), le);
    }
  }

  /** `OrderByDescending(key)` for an integer (or instant) key. */
  function Descending<T>(key: T -> int): (T, T) -> bool {
    (a: T, b: T) => key(a) >= key(b)
  }

  /** `OrderBy(key)` for a text key under the ordinal collation. */
  function AscendingText<T>(key: T -> string): (T, T) -> bool {
    (a: T, b: T) => OrdinalLe(key(a), key(b))
  }

  /** Sorted under `Descending(key)` means the keys never increase. */
  lemma SortedDescending<T>(s: seq<T>, key: T -> int)
    requires SortedBy(s, Descending(key))
    ensures forall i, j :: 0 <= i < j < |s| ==> key(s[i]) >= key(s[j])
  {
  }

  /** Sorted under `AscendingText(key)` means the keys are in ordinal order. */
  lemma SortedAscendingText<T>(s: seq<T>, key: T -> string)
    requires SortedBy(s, AscendingText(key))
    ensures forall i, j :: 0 <= i < j < |s| ==> OrdinalLe(key(s[i]), key(s[j]))
  {
  }

  /** Filtering a sorted list leaves it sorted. */
  lemma {:induction false} WhereSorted<T(!new)>(s: seq<T>, p: T -> bool, le: (T, T) -> bool)
    requires SortedBy(s, le)
    ensures SortedBy(Where(s, p), le)
  {
    if s != [] {
      assert SortedBy(s[1..], le);
      WhereSorted(s[1..], p, le);
      var w := Where(s[1..], p);
      if p(s[0]) {
        forall j | 0 <= j < |w| ensures le(s[0], w[j]) {
          assert w[j] in s[1..];
        }
        assert Where(s, p) == [s[0]] + w;
      }
    }
  }

  lemma DescendingIsTotalPreorder<T(!new)>(key: T -> int)
    ensures TotalPreorder(Descending(key))
  {
  }

  lemma AscendingTextIsTotalPreorder<T(!new)>(key: T -> string)
    ensures TotalPreorder(AscendingText(key))
  {
    var le := AscendingText(key);
    forall a, b ensures le(a, b) || le(b, a) {
      OrdinalLeTotal(key(a), key(b));
    }
    forall a, b, c | le(a, b) && le(b, c) ensures le(a, c) {
      OrdinalLeTransitive(key(a), key(b), key(c));
    }
  }

  // ---------------------------------------------------------------- Skip / Take

  /** `Skip(n)` run as SQLite `OFFSET n`: a negative offset counts as zero. */
  function Skip<T>(s: seq<T>, n: int): seq<T> {
    if n <= 0 then s else if n >= |s| then [] else s[n..]
  }

  /** `Take(n)` run as SQLite `LIMIT n`: a negative limit means no limit. */
  function Take<T>(s: seq<T>, n: int): seq<T> {
    if n < 0 || n >= |s| then s else s[..n]
  }

  /** `(page - 1) * pageSize` evaluated in unchecked 32-bit `int` arithmetic. */
  function Offset(page: int, pageSize: int): int {
    Wrap32(Wrap32(page - 1) * pageSize)
  }

  /** `.Skip((page - 1) * pageSize).Take(pageSize)` */
  function Page<T>(s: seq<T>, page: int, pageSize: int): seq<T> {
    Take(Skip(s, Offset(page, pageSize)), pageSize)
  }

  function Min(a: int, b: int): int {
    if a <= b then a else b
  }

  /** The paging arguments a client is meant to send: pages from 1, and no 32-bit overflow. */
  predicate SensiblePaging(page: int, pageSize: int) {
    1 <= page && 1 <= pageSize && page * pageSize <= Int32Max
  }

  /** The elements `[lo, lo + size)` of `s`, as far as `s` reaches. */
  function Window<T>(s: seq<T>, lo: nat, size: nat): seq<T> {
    s[Min(lo, |s|)..Min(lo + size, |s|)]
  }

  /** With sensible paging arguments, page `page` is the slice `[(page-1)*pageSize, page*pageSize)`. */
  lemma PageWindow<T>(s: seq<T>, page: int, pageSize: int)
    requires SensiblePaging(page, pageSize)
    ensures (page - 1) * pageSize >= 0
    ensures Page(s, page, pageSize) == Window(s, (page - 1) * pageSize, pageSize)
  {
    var lo := (page - 1) * pageSize;
    assert lo + pageSize == page * pageSize;
    assert 0 <= lo;
    assert Offset(page, pageSize) == lo;
  }

  /** Any page, whatever the arguments, is a contiguous slice of the ordered list. */
  lemma PageIsSlice<T>(s: seq<T>, page: int, pageSize: int)
    ensures exists a, b :: 0 <= a <= b <= |s| && Page(s, page, pageSize) == s[a..b]
  {
    var n := Offset(page, pageSize);
    var a := if n <= 0 then 0 else Min(n, |s|);
    var t := s[a..];
    assert Skip(s, n) == t;
    var b := if pageSize < 0 || pageSize >= |t| then |s| else a + pageSize;
    assert Page(s, page, pageSize) == s[a..b];
  }

  lemma PageSound<T>(s: seq<T>, page: int, pageSize: int, le: (T, T) -> bool)
    ensures forall x :: x in Page(s, page, pageSize) ==> x in s
    ensures SortedBy(s, le) ==> SortedBy(Page(s, page, pageSize), le)
  {
    PageIsSlice(s, page, pageSize);
    var a, b :| 0 <= a <= b <= |s| && Page(s, page, pageSize) == s[a..b];
    assert forall i :: 0 <= i < b - a ==> s[a..b][i] == s[a + i];
  }

  /**
   * The 32-bit product wraps: page 1073741825 of size 4 starts at offset
   * 4294967296, which is 0 in an `int`, so the first page comes back.
   */
  lemma PageOffsetWraps<T>(s: seq<T>)
    ensures Offset(1073741825, 4) == 0
    ensures Page(s, 1073741825, 4) == Page(s, 1, 4)
  {
  }

  /** A page number below 1 gives a negative offset, which SQLite reads as 0. */
  lemma LowPageIsFirstPage<T>(s: seq<T>, page: int, pageSize: int)
    requires IsInt32(page) && Int32Min < page <= 1 && 0 <= pageSize
    requires (page - 1) * pageSize >= Int32Min
    ensures Page(s, page, pageSize) == Take(s, pageSize)
  {
    assert (page - 1) * pageSize <= 0;
  }

  /**
   * A negative page size lifts the limit: everything from the offset on is
   * returned. From page 1 upwards the offset is at most 0, so that is the
   * whole list; below page 1 the offset is positive and leading rows are
   * skipped.
   */
  lemma NegativePageSizeIsUnlimited<T>(s: seq<T>, page: int, pageSize: int)
    requires pageSize < 0
    ensures Int32Min < page <= Int32Max && IsInt32((page - 1) * pageSize) ==>
      Page(s, page, pageSize) == Skip(s, (page - 1) * pageSize)
    ensures 1 <= page <= Int32Max && (page - 1) * pageSize >= Int32Min ==> Page(s, page, pageSize) == s
    ensures page <= 0 && 0 < |s| && Int32Min < page && (page - 1) * pageSize <= Int32Max ==>
      Page(s, page, pageSize) == s[Min(|s|, (page - 1) * pageSize)..]
  {
    if Int32Min < page <= Int32Max && IsInt32((page - 1) * pageSize) {
      assert Wrap32(page - 1) == page - 1;
      assert Offset(page, pageSize) == (page - 1) * pageSize;
      if 1 <= page {
        assert (page - 1) * pageSize <= 0;
      } else {
        assert (page - 1) * pageSize > 0;
      }
    }
  }

  // ---------------------------------------------------------------- a paged listing

  /**
   * A table query before paging: the rows of `m` (in key order) that `keep`
   * accepts, ordered by `le`.
   */
  function Query<T(==, !new)>(m: map<int, T>, keep: T -> bool, le: (T, T) -> bool): (r: seq<T>)
    ensures forall x :: x in r <==> x in m.Values && keep(x)
    ensures TotalPreorder(le) ==> SortedBy(r, le)
    ensures |r| == |KeysWhere(m, keep)|
  {
    var matching := Where(Rows(m), keep);
    var r := OrderBy(matching, le);
    assert forall x :: x in r <==> x in multiset(matching);
    assert TotalPreorder(le) ==> SortedBy(r, le) by {
      if TotalPreorder(le) { OrderBySorted(matching, le); }
    }
    WhereRowsCount(m, keep);
    assert |r| == |multiset(r)| == |multiset(matching)| == |matching|;
    r
  }

  /**
   * `query.Where(keep)`, counted, then `.OrderBy(le).Skip(..).Take(pageSize)`:
   * the shape of every paged listing in the controllers.
   */
  function PagedQuery<T(==, !new)>(m: map<int, T>, keep: T -> bool, le: (T, T) -> bool, page: int, pageSize: int): (r: Paged<T>)
    ensures r.totalCount == |Query(m, keep, le)| == |KeysWhere(m, keep)|
    ensures forall x :: x in r.items ==> x in m.Values && keep(x)
    ensures TotalPreorder(le) ==> SortedBy(r.items, le)
    ensures SensiblePaging(page, pageSize) ==>
      (page - 1) * pageSize >= 0 &&
      r.items == Window(Query(m, keep, le), (page - 1) * pageSize, pageSize)
  {
    var ordered := Query(m, keep, le);
    PageSound(ordered, page, pageSize, le);
    assert SensiblePaging(page, pageSize) ==>
      (page - 1) * pageSize >= 0 &&
      Page(ordered, page, pageSize) == Window(ordered, (page - 1) * pageSize, pageSize)
    by {
      if SensiblePaging(page, pageSize) { PageWindow(ordered, page, pageSize); }
    }
    Paged(Page(ordered, page, pageSize), |ordered|)
  }
}
