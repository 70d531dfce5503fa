/**
  Keyset pagination over a strict order `lt` ("is listed before").

  A listing is sorted once, a cursor names the last row already shown, and a
  page is the first `limit` rows after the cursor. The facts here do not
  depend on what the rows are: sorting is unique, a page built from the top
  rows of one source is the page of the whole union, and following next
  cursors to the end shows every row once.
 */
module Keyset {
  import opened Common

  ghost predicate StrictOrder<T(!new)>(lt: (T, T) -> bool) {
    && (forall x :: !lt(x, x))
    && (forall x, y, z :: lt(x, y) && lt(y, z) ==> lt(x, z))
  }

  ghost predicate Pairwise<T(!new)>(rel: (T, T) -> bool, s: seq<T>) {
    forall i, j :: 0 <= i < j < |s| ==> rel(s[i], s[j])
  }

  ghost predicate Sorted<T(!new)>(lt: (T, T) -> bool, s: seq<T>) {
    Pairwise(lt, s)
  }

  /** Any two positions hold rows that `lt` can order: no key occurs twice. */
  ghost predicate Comparable<T(!new)>(lt: (T, T) -> bool, s: seq<T>) {
    forall i, j :: 0 <= i < j < |s| ==> lt(s[i], s[j]) || lt(s[j], s[i])
  }

  ghost predicate SameMembers<T(!new)>(a: seq<T>, b: seq<T>) {
    forall x :: x in a <==> x in b
  }

  // ---------- Sorting ----------

  function Insert<T>(lt: (T, T) -> bool, x: T, s: seq<T>): (r: seq<T>)
    ensures multiset(r) == multiset(s) + multiset{x}
    ensures |r| == |s| + 1
  {
    if s == [] || lt(x, s[0]) then [x] + s
    else
      assert s == [s[0]] + s[1..];
      [s[0]] + Insert(lt, x, s[1..])
  }

  function Sort<T>(lt: (T, T) -> bool, s: seq<T>): (r: seq<T>)
    ensures multiset(r) == multiset(s)
    ensures |r| == |s|
  {
    if s == [] then []
    else
      assert s == [s[0]] + s[1..];
      Insert(lt, s[0], Sort(lt, s[1..]))
  }

  lemma {:induction false} InsertSorted<T(!new)>(lt: (T, T) -> bool, x: T, s: seq<T>)
    requires StrictOrder(lt) && Sorted(lt, s)
    requires forall y :: y in s ==> lt(x, y) || lt(y, x)
    ensures Sorted(lt, Insert(lt, x, s))
  {
    if s == [] || lt(x, s[0]) {
    } else {
      var t := Insert(lt, x, s[1..]);
      InsertSorted(lt, x, s[1..]);
      forall y | y in t ensures lt(s[0], y) {
        assert y in multiset(t);
        if y != x {
          assert y in s[1..];
        }
      }
    }
  }

  lemma SortMembers<T(!new)>(lt: (T, T) -> bool, s: seq<T>)
    ensures SameMembers(Sort(lt, s), s)
  {
    forall x ensures x in Sort(lt, s) <==> x in s {
      assert x in multiset(Sort(lt, s)) <==> x in multiset(s);
    }
  }

  lemma {:induction false} SortSorts<T(!new)>(lt: (T, T) -> bool, s: seq<T>)
    requires StrictOrder(lt) && Comparable(lt, s)
    ensures Sorted(lt, Sort(lt, s))
    ensures SameMembers(Sort(lt, s), s)
  {
    SortMembers(lt, s);
    if s != [] {
      SortSorts(lt, s[1..]);
      forall y | y in Sort(lt, s[1..]) ensures lt(s[0], y) || lt(y, s[0]) {
        assert y in s[1..];
        var j :| 0 <= j < |s[1..]| && s[1..][j] == y;
        assert s[j + 1] == y;
      }
      InsertSorted(lt, s[0], Sort(lt, s[1..]));
    }
  }

  // ---------- Filtering and renaming commute with sorting ----------

  lemma {:induction false} FilterPairwise<T(!new)>(rel: (T, T) -> bool, p: T -> bool, s: seq<T>)
    requires Pairwise(rel, s)
    ensures Pairwise(rel, Filter(p, s))
  {
    if s != [] {
      FilterPairwise(rel, p, s[1..]);
      FilterMembers(p, s[1..]);
      forall x | x in Filter(p, s[1..]) ensures rel(s[0], x) {
        var j :| 0 <= j < |s[1..]| && s[1..][j] == x;
        assert rel(s[0], s[j + 1]);
      }
    }
  }

  lemma FilterComparable<T(!new)>(lt: (T, T) -> bool, p: T -> bool, s: seq<T>)
    requires Comparable(lt, s)
    ensures Comparable(lt, Filter(p, s))
  {
    var either := (x, y) => lt(x, y) || lt(y, x);
    assert Pairwise(either, s);
    FilterPairwise(either, p, s);
    assert Pairwise(either, Filter(p, s));
  }

  lemma FilterSort<T(!new)>(lt: (T, T) -> bool, p: T -> bool, s: seq<T>)
    requires StrictOrder(lt) && Comparable(lt, s)
    ensures Filter(p, Sort(lt, s)) == Sort(lt, Filter(p, s))
  {
    SortSorts(lt, s);
    FilterPairwise(lt, p, Sort(lt, s));
    FilterComparable(lt, p, s);
    SortSorts(lt, Filter(p, s));
    FilterMembers(p, s);
    FilterMembers(p, Sort(lt, s));
    SortedUnique(lt, Filter(p, Sort(lt, s)), Sort(lt, Filter(p, s)));
  }

  lemma {:induction false} MapInsert<T, U>(f: T -> U, lt: (T, T) -> bool, lu: (U, U) -> bool, x: T, s: seq<T>)
    requires forall y, z :: lu(f(y), f(z)) == lt(y, z)
    ensures Map(f, Insert(lt, x, s)) == Insert(lu, f(x), Map(f, s))
  {
    if s == [] || lt(x, s[0]) {
      MapCons(f, x, s);
    } else {
      MapInsert(f, lt, lu, x, s[1..]);
      MapCons(f, s[0], Insert(lt, x, s[1..]));
      assert Map(f, s)[1..] == Map(f, s[1..]);
    }
  }

  lemma {:induction false} MapSort<T, U>(f: T -> U, lt: (T, T) -> bool, lu: (U, U) -> bool, s: seq<T>)
    requires forall y, z :: lu(f(y), f(z)) == lt(y, z)
    ensures Map(f, Sort(lt, s)) == Sort(lu, Map(f, s))
  {
    if s != [] {
      MapSort(f, lt, lu, s[1..]);
      MapInsert(f, lt, lu, s[0], Sort(lt, s[1..]));
      assert Map(f, s)[1..] == Map(f, s[1..]);
    }
  }

  // ---------- Sorted sequences are determined by their members ----------

  /** If every member of `full[..k]` is in `m`, and `m` adds nothing to `full`, both start with the same `k` rows. */
  lemma {:induction false} PrefixAgree<T(!new)>(lt: (T, T) -> bool, m: seq<T>, full: seq<T>, k: nat)
    requires StrictOrder(lt) && Sorted(lt, m) && Sorted(lt, full)
    requires k <= |full|
    requires forall x :: x in m ==> x in full
    requires forall i :: 0 <= i < k ==> full[i] in m
    ensures k <= |m| && m[..k] == full[..k]
  {
    if k > 0 {
      HeadsAgree(lt, m, full);
      TailWithin(lt, m, full);
      forall i | 0 <= i < k - 1 ensures full[1..][i] in m[1..] {
        assert lt(full[0], full[i + 1]) && full[i + 1] in m;
      }
      PrefixAgree(lt, m[1..], full[1..], k - 1);
      assert m[..k] == [m[0]] + m[1..][..k - 1];
      assert full[..k] == [full[0]] + full[1..][..k - 1];
    }
  }

  lemma TailWithin<T(!new)>(lt: (T, T) -> bool, m: seq<T>, full: seq<T>)
    requires StrictOrder(lt) && Sorted(lt, m)
    requires m != [] && full != [] && m[0] == full[0]
    requires forall x :: x in m ==> x in full
    ensures forall x :: x in m[1..] ==> x in full[1..]
  {
    forall x | x in m[1..] ensures x in full[1..] {
      assert lt(m[0], x) && x in full;
    }
  }

  lemma HeadsAgree<T(!new)>(lt: (T, T) -> bool, m: seq<T>, full: seq<T>)
    requires StrictOrder(lt) && Sorted(lt, m) && Sorted(lt, full)
    requires full != [] && full[0] in m
    requires forall x :: x in m ==> x in full
    ensures m[0] == full[0]
  {
    var j :| 0 <= j < |m| && m[j] == full[0];
    assert m[0] in full;
    var i :| 0 <= i < |full| && full[i] == m[0];
  }

  lemma SortedUnique<T(!new)>(lt: (T, T) -> bool, a: seq<T>, b: seq<T>)
    requires StrictOrder(lt) && Sorted(lt, a) && Sorted(lt, b) && SameMembers(a, b)
    ensures a == b
  {
    PrefixAgree(lt, a, b, |b|);
    PrefixAgree(lt, b, a, |a|);
  }

  // ---------- Merging the top of one source with all of another ----------

  lemma {:induction false} SortedCount<T(!new)>(lt: (T, T) -> bool, s: seq<T>)
    requires StrictOrder(lt) && Sorted(lt, s)
    ensures |set x | x in s| == |s|
  {
    if s != [] {
      SortedCount(lt, s[1..]);
      FirstOnce(lt, s);
      assert s == [s[0]] + s[1..];
      assert (set x | x in s) == {s[0]} + (set x | x in s[1..]);
    }
  }

  lemma FirstOnce<T(!new)>(lt: (T, T) -> bool, s: seq<T>)
    requires StrictOrder(lt) && Sorted(lt, s) && s != []
    ensures s[0] !in s[1..]
  {
    forall j | 0 <= j < |s[1..]| ensures s[1..][j] != s[0] {
      assert lt(s[0], s[j + 1]);
    }
  }

  /** A row outside the top `n` of its source has at least `n` rows before it in any union. */
  lemma BelowTop<T(!new)>(lt: (T, T) -> bool, src: seq<T>, n: nat, full: seq<T>, i: nat)
    requires StrictOrder(lt) && Sorted(lt, src) && Sorted(lt, full)
    requires forall x :: x in src ==> x in full
    requires i < |full| && i < n && full[i] in src
    ensures full[i] in Take(n, src)
  {
    var j :| 0 <= j < |src| && src[j] == full[i];
    if j >= n {
      var top := set x | x in src[..n];
      var before := set x | x in full[..i];
      forall x | x in top ensures x in before {
        var p :| 0 <= p < n && src[p] == x;
        assert lt(x, full[i]);
        assert x in src;
        var q :| 0 <= q < |full| && full[q] == x;
        assert q < i;
        assert full[..i][q] == x;
      }
      SortedCount(lt, src[..n]);
      SortedCount(lt, full[..i]);
      assert top <= before;
      CardinalityMonotone(top, before);
      assert false;
    } else if n < |src| {
      assert src[..n][j] == full[i];
    }
  }

  lemma {:induction false} CardinalityMonotone<T>(a: set<T>, b: set<T>)
    requires a <= b
    ensures |a| <= |b|
    decreases |a|
  {
    if a != {} {
      var x :| x in a;
      CardinalityMonotone(a - {x}, b - {x});
    }
  }

  /**
    Top-k merge: the first `k` rows of the whole union survive when one source
    is first cut to its own top `n`, as long as `n` exceeds `k`; and more than
    `k` rows remain afterwards exactly when they did before.
   */
  lemma TopMerge<T(!new)>(lt: (T, T) -> bool, a: seq<T>, b: seq<T>, n: nat, k: nat)
    requires StrictOrder(lt) && Comparable(lt, a + b)
    requires k < n
    ensures Take(k, Sort(lt, Take(n, Sort(lt, a)) + b)) == Take(k, Sort(lt, a + b))
    ensures |Take(n, Sort(lt, a)) + b| > k <==> |a + b| > k
  {
    ComparableParts(lt, a, b);
    var src := Sort(lt, a);
    SortSorts(lt, a);
    var top := Take(n, src);
    ComparableSub(lt, a, b, top);
    var full, m := Sort(lt, a + b), Sort(lt, top + b);
    SortSorts(lt, a + b);
    SortSorts(lt, top + b);
    assert SameMembers(full, src + b) by {
      forall x ensures x in full <==> x in src + b {
        assert x in full <==> x in a + b;
      }
    }
    SameHead(lt, src, b, n, full, m, k);
  }

  lemma SameHead<T(!new)>(lt: (T, T) -> bool, src: seq<T>, b: seq<T>, n: nat, full: seq<T>, m: seq<T>, k: nat)
    requires StrictOrder(lt) && Sorted(lt, src) && Sorted(lt, full) && Sorted(lt, m)
    requires SameMembers(full, src + b) && SameMembers(m, Take(n, src) + b)
    requires |full| == |src| + |b| && |m| == |Take(n, src)| + |b|
    requires k < n
    ensures Take(k, m) == Take(k, full)
  {
    var h := if k <= |full| then k else |full|;
    HeadsSurvive(lt, src, b, n, full, m, h);
    PrefixAgree(lt, m, full, h);
  }

  lemma HeadsSurvive<T(!new)>(lt: (T, T) -> bool, src: seq<T>, b: seq<T>, n: nat, full: seq<T>, m: seq<T>, h: nat)
    requires StrictOrder(lt) && Sorted(lt, src) && Sorted(lt, full)
    requires SameMembers(full, src + b) && SameMembers(m, Take(n, src) + b)
    requires h <= n && h <= |full|
    ensures forall i :: 0 <= i < h ==> full[i] in m
    ensures forall x :: x in m ==> x in full
  {
    forall i | 0 <= i < h ensures full[i] in m {
      assert full[i] in src + b;
      if full[i] in src {
        BelowTop(lt, src, n, full, i);
      }
      assert full[i] in Take(n, src) + b;
    }
    forall x | x in m ensures x in full {
      assert x in Take(n, src) + b;
      assert x in src + b;
    }
  }

  lemma ComparableParts<T(!new)>(lt: (T, T) -> bool, a: seq<T>, b: seq<T>)
    requires Comparable(lt, a + b)
    ensures Comparable(lt, a) && Comparable(lt, b)
  {
    forall i, j | 0 <= i < j < |a| ensures lt(a[i], a[j]) || lt(a[j], a[i]) {
      assert (a + b)[i] == a[i] && (a + b)[j] == a[j];
    }
    forall i, j | 0 <= i < j < |b| ensures lt(b[i], b[j]) || lt(b[j], b[i]) {
      assert (a + b)[|a| + i] == b[i] && (a + b)[|a| + j] == b[j];
    }
  }

  lemma ComparableSub<T(!new)>(lt: (T, T) -> bool, a: seq<T>, b: seq<T>, top: seq<T>)
    requires Comparable(lt, a + b) && Sorted(lt, top)
    requires forall x :: x in top ==> x in a
    ensures Comparable(lt, top + b)
  {
    ComparableParts(lt, a, b);
    var s := top + b;
    forall i, j | 0 <= i < j < |s| ensures lt(s[i], s[j]) || lt(s[j], s[i]) {
      if i < |top| && |top| <= j {
        assert s[i] in top;
        var p :| 0 <= p < |a| && a[p] == s[i];
        assert (a + b)[p] == s[i] && (a + b)[|a| + (j - |top|)] == s[j];
      }
    }
  }

  // ---------- Pages ----------

  datatype Page<+T, +K> = Page(items: seq<T>, next: Option<K>)

  /** The rows after cursor `c`. */
  function After<K>(lt: (K, K) -> bool, all: seq<K>, c: K): seq<K> {
    Filter(Follows(lt, c), all)
  }

  function Follows<K>(lt: (K, K) -> bool, c: K): K -> bool { x => lt(c, x) }

  /** The reference page: sort everything, drop what the cursor has passed, keep `limit`. */
  function PageAfter<K>(lt: (K, K) -> bool, all: seq<K>, c: K, limit: nat): (p: Page<K, K>)
    requires 1 <= limit
  {
    var rest := After(lt, all, c);
    if |rest| > limit then Page(rest[..limit], Some(rest[limit - 1])) else Page(rest, None)
  }

  /** The rows after the last row shown are exactly the rows not yet shown. */
  lemma {:induction false} AfterShown<K(!new)>(lt: (K, K) -> bool, all: seq<K>, c: K, i: nat)
    requires StrictOrder(lt) && Sorted(lt, all)
    requires 0 < i <= |After(lt, all, c)|
    ensures After(lt, all, After(lt, all, c)[i - 1]) == After(lt, all, c)[i..]
  {
    var rest := After(lt, all, c);
    var d := rest[i - 1];
    var h, t := all[0], all[1..];
    FilterMembers(Follows(lt, c), t);
    if lt(c, h) {
      assert rest == [h] + After(lt, t, c);
      if i == 1 {
        FilterAll(Follows(lt, c), t);
        FilterAll(Follows(lt, h), t);
      } else {
        AfterShown(lt, t, c, i - 1);
        assert d in t;
        assert rest[i..] == After(lt, t, c)[i - 1..];
      }
    } else {
      AfterShown(lt, t, c, i);
      assert d in t;
    }
  }

  /** A client's walk: the page at cursor `c`, then one page per next cursor until none is returned. */
  ghost predicate IsWalk<K(!new)>(lt: (K, K) -> bool, all: seq<K>, c: K, limit: nat, pages: seq<Page<K, K>>)
    requires 1 <= limit
    decreases |pages|
  {
    && pages != []
    && pages[0] == PageAfter(lt, all, c, limit)
    && match pages[0].next
       case None => |pages| == 1
       case Some(d) => IsWalk(lt, all, d, limit, pages[1..])
  }

  function Rows<T, K>(pages: seq<Page<T, K>>): seq<T> {
    if pages == [] then [] else pages[0].items + Rows(pages[1..])
  }

  /** Every row after the first cursor is shown exactly once, in order, on full pages except the last. */
  lemma {:induction false} WalkComplete<K(!new)>(lt: (K, K) -> bool, all: seq<K>, c: K, limit: nat, pages: seq<Page<K, K>>)
    requires 1 <= limit
    requires StrictOrder(lt) && Sorted(lt, all)
    requires IsWalk(lt, all, c, limit, pages)
    ensures Rows(pages) == After(lt, all, c)
    ensures forall i :: 0 <= i < |pages| - 1 ==> |pages[i].items| == limit
    ensures |pages| > 1 ==> pages[|pages| - 1].items != []
    ensures |pages| <= |After(lt, all, c)| + 1
    decreases |pages|
  {
    var rest := After(lt, all, c);
    var tail := pages[1..];
    if |rest| > limit {
      AfterShown(lt, all, c, limit);
      WalkComplete(lt, all, rest[limit - 1], limit, tail);
      assert rest == rest[..limit] + rest[limit..];
      assert forall i :: 0 < i < |pages| ==> pages[i] == tail[i - 1];
    } else {
      assert Rows(tail) == [];
    }
  }

  // ---------- Walks while rows disappear ----------

  /** Each page is the reference page of the rows there at its time; rows may be gone at the next one. */
  ghost predicate IsShrinkingWalk<K(!new)>(lt: (K, K) -> bool, seen: seq<seq<K>>, c: K, limit: nat, pages: seq<Page<K, K>>)
    requires 1 <= limit
    decreases |pages|
  {
    && pages != [] && |seen| == |pages|
    && pages[0] == PageAfter(lt, seen[0], c, limit)
    && match pages[0].next
       case None => |pages| == 1
       case Some(d) => |pages| > 1 && (forall k :: k in seen[1] ==> k in seen[0]) && IsShrinkingWalk(lt, seen[1..], d, limit, pages[1..])
  }

  /** The walk shows rows in order, none twice, only rows there at the first page, and every row still there at the last. */
  lemma {:induction false} ShrinkingWalkComplete<K(!new)>(lt: (K, K) -> bool, seen: seq<seq<K>>, c: K, limit: nat, pages: seq<Page<K, K>>)
    requires 1 <= limit && StrictOrder(lt) && forall i :: 0 <= i < |seen| ==> Sorted(lt, seen[i])
    requires IsShrinkingWalk(lt, seen, c, limit, pages)
    ensures Sorted(lt, Rows(pages))
    ensures forall k :: k in Rows(pages) ==> k in seen[0] && lt(c, k)
    ensures forall k :: k in seen[|seen| - 1] ==> k in seen[0] && (lt(c, k) ==> k in Rows(pages))
    decreases |pages|
  {
    assert Sorted(lt, seen[0]);
    if pages[0].next.None? {
      assert Rows(pages[1..]) == [];
      assert Rows(pages) == After(lt, seen[0], c);
      FilterMembers(Follows(lt, c), seen[0]);
      FilterPairwise(lt, Follows(lt, c), seen[0]);
    } else {
      var d := pages[0].next.value;
      assert seen[1..][0] == seen[1] && seen[1..][|seen| - 2] == seen[|seen| - 1];
      ShrinkingWalkComplete(lt, seen[1..], d, limit, pages[1..]);
      ShrinkStep(lt, seen[0], seen[1], seen[|seen| - 1], c, limit, Rows(pages[1..]));
    }
  }

  lemma ShrinkStep<K(!new)>(lt: (K, K) -> bool, first: seq<K>, second: seq<K>, last: seq<K>, c: K, limit: nat, more: seq<K>)
    requires StrictOrder(lt) && Sorted(lt, first) && Sorted(lt, more) && 1 <= limit <= |After(lt, first, c)|
    requires forall k :: k in second ==> k in first
    requires forall k :: k in more ==> k in second && lt(After(lt, first, c)[limit - 1], k)
    requires forall k :: k in last ==> k in second && (lt(After(lt, first, c)[limit - 1], k) ==> k in more)
    ensures
      var rows := After(lt, first, c)[..limit] + more;
      && Sorted(lt, rows)
      && (forall k :: k in rows ==> k in first && lt(c, k))
      && (forall k :: k in last ==> k in first && (lt(c, k) ==> k in rows))
  {
    var rest := After(lt, first, c);
    FilterMembers(Follows(lt, c), first);
    FilterPairwise(lt, Follows(lt, c), first);
    JoinSorted(lt, rest, limit, more);
    OldOrNew(lt, rest, limit);
    assert rest[limit - 1] in rest;
  }

  lemma JoinSorted<K(!new)>(lt: (K, K) -> bool, rest: seq<K>, limit: nat, more: seq<K>)
    requires StrictOrder(lt) && Sorted(lt, rest) && Sorted(lt, more) && 1 <= limit <= |rest|
    requires forall k :: k in more ==> lt(rest[limit - 1], k)
    ensures Sorted(lt, rest[..limit] + more)
  {
    var s := rest[..limit] + more;
    forall i, j | 0 <= i < j < |s| ensures lt(s[i], s[j]) {
      if i < limit <= j {
        assert s[j] in more;
        assert i < limit - 1 ==> lt(rest[i], rest[limit - 1]);
      }
    }
  }

  /** A row is among the first `limit`, or comes after the last of them. */
  lemma OldOrNew<K(!new)>(lt: (K, K) -> bool, rest: seq<K>, limit: nat)
    requires Sorted(lt, rest) && 1 <= limit <= |rest|
    ensures forall k :: k in rest ==> k in rest[..limit] || lt(rest[limit - 1], k)
  {
    forall k | k in rest ensures k in rest[..limit] || lt(rest[limit - 1], k) {
      var i :| 0 <= i < |rest| && rest[i] == k;
      assert i < limit ==> rest[..limit][i] == k;
    }
  }

  /** Fewer members, sorted, are a shorter list. */
  lemma SubsetShorter<K(!new)>(lt: (K, K) -> bool, a: seq<K>, b: seq<K>)
    requires StrictOrder(lt) && Sorted(lt, a) && Sorted(lt, b) && forall k :: k in a ==> k in b
    ensures |a| <= |b|
  {
    SortedCount(lt, a);
    SortedCount(lt, b);
    CardinalityMonotone(set k | k in a, set k | k in b);
  }
}
