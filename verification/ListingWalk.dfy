/** Walking the v2 listing page by page while nothing changes. */
module ListingWalk {
  import opened Common
  import opened Keyset
  import opened Lexicographic
  import opened SandboxListing
  import opened ListingPage

  function KeyOf(x: Listed): Key { x.key }

  function PageKeys(p: Page<Listed, Key>): Page<Key, Key> {
    Page(Map(KeyOf, p.items), p.next)
  }

  /** On keys, the reference page of the listing is the reference page of a sorted key list. */
  lemma KeysOfReferencePage(all: seq<Listed>, cursor: Key, limit: nat)
    requires 1 <= limit
    ensures PageKeys(ReferencePage(all, cursor, limit)) == PageAfter(Before, Sort(Before, Map(KeyOf, all)), cursor, limit)
  {
    MapSort(KeyOf, ItemBefore, Before, all);
    var sorted := Sort(ItemBefore, all);
    FilterMap(Follows(Before, cursor), PastCursor(cursor), KeyOf, sorted);
    var rest := Filter(PastCursor(cursor), sorted);
    if |rest| > limit {
      assert Map(KeyOf, rest)[..limit] == Map(KeyOf, rest[..limit]);
    }
  }

  lemma {:induction false} KeysOfRows(pages: seq<Page<Listed, Key>>)
    ensures Map(KeyOf, Rows(pages)) == Rows(Map(PageKeys, pages))
  {
    if pages != [] {
      KeysOfRows(pages[1..]);
      assert Map(PageKeys, pages)[1..] == Map(PageKeys, pages[1..]);
      assert Map(KeyOf, pages[0].items + Rows(pages[1..])) == Map(KeyOf, pages[0].items) + Map(KeyOf, Rows(pages[1..]));
    }
  }

  // ---------- A frozen state ----------

  /** The pages a client gets by following next cursors while nothing changes. */
  ghost predicate IsListWalk(all: seq<Listed>, cursor: Key, limit: nat, pages: seq<Page<Listed, Key>>)
    requires 1 <= limit
    decreases |pages|
  {
    && pages != []
    && pages[0] == ReferencePage(all, cursor, limit)
    && match pages[0].next
       case None => |pages| == 1
       case Some(d) => IsListWalk(all, d, limit, pages[1..])
  }

  lemma {:induction false} ListWalkOnKeys(all: seq<Listed>, cursor: Key, limit: nat, pages: seq<Page<Listed, Key>>)
    requires 1 <= limit && IsListWalk(all, cursor, limit, pages)
    ensures IsWalk(Before, Sort(Before, Map(KeyOf, all)), cursor, limit, Map(PageKeys, pages))
    decreases |pages|
  {
    KeysOfReferencePage(all, cursor, limit);
    assert Map(PageKeys, pages)[1..] == Map(PageKeys, pages[1..]);
    if pages[0].next.Some? {
      ListWalkOnKeys(all, pages[0].next.value, limit, pages[1..]);
    }
  }

  lemma {:induction false} WalkRowsListed(all: seq<Listed>, cursor: Key, limit: nat, pages: seq<Page<Listed, Key>>)
    requires 1 <= limit && IsListWalk(all, cursor, limit, pages)
    ensures forall x :: x in Rows(pages) ==> x in all
    decreases |pages|
  {
    var sorted := Sort(ItemBefore, all);
    SortMembers(ItemBefore, all);
    FilterMembers(PastCursor(cursor), sorted);
    assert forall x :: x in pages[0].items ==> x in Filter(PastCursor(cursor), sorted);
    if pages[0].next.Some? {
      WalkRowsListed(all, pages[0].next.value, limit, pages[1..]);
    } else {
      assert Rows(pages[1..]) == [];
    }
  }

  /** Rows with pairwise different keys are determined by their keys. */
  lemma KeysDetermine(all: seq<Listed>, a: seq<Listed>, b: seq<Listed>)
    requires Pairwise(DifferentListed, all)
    requires forall x :: x in a || x in b ==> x in all
    requires Map(KeyOf, a) == Map(KeyOf, b)
    ensures a == b
  {
    assert |a| == |Map(KeyOf, a)| == |b|;
    forall i | 0 <= i < |a| ensures a[i] == b[i] {
      assert Map(KeyOf, a)[i] == Map(KeyOf, b)[i];
      assert a[i] in a && b[i] in b;
      var p :| 0 <= p < |all| && all[p] == a[i];
      var q :| 0 <= q < |all| && all[q] == b[i];
      assert p == q;
    }
  }

  lemma SortedKeysSorted(all: seq<Listed>)
    requires Pairwise(DifferentListed, all)
    ensures Sorted(Before, Sort(Before, Map(KeyOf, all)))
  {
    BeforeOrder();
    ListedComparable(all);
    var keys := Map(KeyOf, all);
    assert forall i, j :: 0 <= i < j < |keys| ==> ItemBefore(all[i], all[j]) || ItemBefore(all[j], all[i]);
    SortSorts(Before, keys);
  }

  /** Page walk: the pages, joined, are the sorted list of everything that matches, each sandbox once. */
  lemma FrozenWalk(all: seq<Listed>, cursor: Key, limit: nat, pages: seq<Page<Listed, Key>>)
    requires 1 <= limit && Pairwise(DifferentListed, all)
    requires IsListWalk(all, cursor, limit, pages)
    ensures Rows(pages) == Filter(PastCursor(cursor), Sort(ItemBefore, all))
    ensures (forall x :: x in all ==> Before(cursor, x.key)) ==> Rows(pages) == Sort(ItemBefore, all)
    ensures forall i :: 0 <= i < |pages| - 1 ==> |pages[i].items| == limit
  {
    var keys := Sort(Before, Map(KeyOf, all));
    var sorted := Sort(ItemBefore, all);
    BeforeOrder();
    SortedKeysSorted(all);
    ListWalkOnKeys(all, cursor, limit, pages);
    WalkComplete(Before, keys, cursor, limit, Map(PageKeys, pages));
    KeysOfRows(pages);
    MapSort(KeyOf, ItemBefore, Before, all);
    FilterMap(Follows(Before, cursor), PastCursor(cursor), KeyOf, sorted);
    WalkRowsListed(all, cursor, limit, pages);
    FilterMembers(PastCursor(cursor), sorted);
    SortMembers(ItemBefore, all);
    KeysDetermine(all, Rows(pages), Filter(PastCursor(cursor), sorted));
    if forall x :: x in all ==> Before(cursor, x.key) {
      FilterAll(PastCursor(cursor), sorted);
    }
    forall i | 0 <= i < |pages| - 1 ensures |pages[i].items| == limit {
      assert Map(PageKeys, pages)[i] == PageKeys(pages[i]);
    }
  }

  /** After a page with a next cursor, exactly `limit` fewer rows are left. */
  lemma RowsLeftFall(all: seq<Listed>, cursor: Key, limit: nat)
    requires 1 <= limit && Pairwise(DifferentListed, all)
    requires ReferencePage(all, cursor, limit).next.Some?
    ensures
      var next := ReferencePage(all, cursor, limit).next.value;
      |Filter(PastCursor(next), Sort(ItemBefore, all))| == |Filter(PastCursor(cursor), Sort(ItemBefore, all))| - limit
  {
    var keys := Sort(Before, Map(KeyOf, all));
    var sorted := Sort(ItemBefore, all);
    var next := ReferencePage(all, cursor, limit).next.value;
    BeforeOrder();
    SortedKeysSorted(all);
    KeysOfReferencePage(all, cursor, limit);
    AfterShown(Before, keys, cursor, limit);
    MapSort(KeyOf, ItemBefore, Before, all);
    FilterMap(Follows(Before, cursor), PastCursor(cursor), KeyOf, sorted);
    FilterMap(Follows(Before, next), PastCursor(next), KeyOf, sorted);
  }

  /** So following next cursors always ends, and yields a walk. */
  function Walk(all: seq<Listed>, cursor: Key, limit: nat): (pages: seq<Page<Listed, Key>>)
    requires 1 <= limit && Pairwise(DifferentListed, all)
    ensures IsListWalk(all, cursor, limit, pages)
    decreases |Filter(PastCursor(cursor), Sort(ItemBefore, all))|
  {
    var page := ReferencePage(all, cursor, limit);
    match page.next
    case None => [page]
    case Some(d) =>
      RowsLeftFall(all, cursor, limit);
      [page] + Walk(all, d, limit)
  }

  // ---------- The pages the handler serves ----------

  ghost predicate IsServedWalk(states: seq<ListedState>, team: string, filter: Option<Metadata>, store: seq<Sandbox>, table: seq<SnapshotRow>,
                               cursor: Key, limit: nat, pages: seq<Page<Listed, Key>>)
    requires 1 <= limit
    decreases |pages|
  {
    && pages != []
    && pages[0] == ServedPage(states, team, filter, store, table, cursor, limit)
    && match pages[0].next
       case None => |pages| == 1
       case Some(d) => IsServedWalk(states, team, filter, store, table, d, limit, pages[1..])
  }

  /** Of the sandboxes started in one microsecond, only the one with the least ID may have started off its beginning. */
  ghost predicate SpreadItems(all: seq<Listed>) {
    forall x, y :: x in all && y in all && TextLess(x.key.id, y.key.id) && Stored(x.key.time) == Stored(y.key.time) ==>
      Stored(y.key.time) == y.key.time
  }

  /** The cursor of a listed item hides no row. */
  lemma NextHidesNone(all: seq<Listed>, paused: seq<Listed>, last: Listed)
    requires SpreadItems(all) && Pairwise(DifferentListed, all) && last in all
    requires forall x :: x in paused ==> x in all && Stored(x.key.time) == x.key.time
    ensures NoneHidden(last.key, paused)
  {
    TextStrictTotal();
    forall x | x in paused ensures !Hidden(last.key, x) {
      if x.key.id == last.key.id {
        var i :| 0 <= i < |all| && all[i] == x;
        var j :| 0 <= j < |all| && all[j] == last;
      } else if x.key.time == Stored(last.key.time) && TextLess(x.key.id, last.key.id) {
        assert Stored(last.key.time) == last.key.time;
      }
    }
  }

  /** The handler's walks are the walks over reference pages, so they exist and end. */
  lemma {:induction false} ServedWalkIsListWalk(states: seq<ListedState>, team: string, filter: Option<Metadata>, store: seq<Sandbox>,
                                                table: seq<SnapshotRow>, cursor: Key, limit: nat, pages: seq<Page<Listed, Key>>)
    requires 1 <= limit && UniqueSandboxes(store) && UniqueRows(table) && StoredTimes(table)
    requires SpreadItems(Matching(states, team, filter, store, table))
    requires NoneHidden(cursor, PausedListed(states, team, filter, store, table))
    ensures IsServedWalk(states, team, filter, store, table, cursor, limit, pages)
       <==> IsListWalk(Matching(states, team, filter, store, table), cursor, limit, pages)
    decreases |pages|
  {
    ServedIsReference(states, team, filter, store, table, cursor, limit);
    if pages != [] && pages[0] == ServedPage(states, team, filter, store, table, cursor, limit) && pages[0].next.Some? {
      var all, paused := Matching(states, team, filter, store, table), PausedListed(states, team, filter, store, table);
      var last := LastKept(all, cursor, limit);
      RowTimes(states, team, filter, store, table);
      MatchingUnique(states, team, filter, store, table);
      NextHidesNone(all, paused, last);
      ServedWalkIsListWalk(states, team, filter, store, table, last.key, limit, pages[1..]);
    }
  }

  /** A next cursor is the key of a listed item. */
  lemma LastKept(all: seq<Listed>, cursor: Key, limit: nat) returns (last: Listed)
    requires 1 <= limit && ReferencePage(all, cursor, limit).next.Some?
    ensures last in all && ReferencePage(all, cursor, limit).next == Some(last.key)
  {
    var sorted := Sort(ItemBefore, all);
    SortMembers(ItemBefore, all);
    FilterMembers(PastCursor(cursor), sorted);
    last := Filter(PastCursor(cursor), sorted)[limit - 1];
    assert last in Filter(PastCursor(cursor), sorted);
  }

  /** With a frozen state, the handler's pages joined are the sorted list of everything that matches and is past the first cursor. */
  lemma FrozenServedWalk(states: seq<ListedState>, team: string, filter: Option<Metadata>, store: seq<Sandbox>, table: seq<SnapshotRow>,
                         cursor: Key, limit: nat, pages: seq<Page<Listed, Key>>)
    requires 1 <= limit && UniqueSandboxes(store) && UniqueRows(table) && StoredTimes(table)
    requires SpreadItems(Matching(states, team, filter, store, table))
    requires NoneHidden(cursor, PausedListed(states, team, filter, store, table))
    requires IsServedWalk(states, team, filter, store, table, cursor, limit, pages)
    ensures Rows(pages) == Filter(PastCursor(cursor), Sort(ItemBefore, Matching(states, team, filter, store, table)))
  {
    ServedWalkIsListWalk(states, team, filter, store, table, cursor, limit, pages);
    MatchingUnique(states, team, filter, store, table);
    FrozenWalk(Matching(states, team, filter, store, table), cursor, limit, pages);
  }
}
