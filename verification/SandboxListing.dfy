/**
  Listing one team's sandboxes: running and pausing ones come from memory, paused
  ones from an over-fetched SQL page, and the two are merged into one page.
 */
module SandboxListing {
  import opened Common
  import opened Keyset
  import opened Lexicographic

  // ---------- Data ----------

  type SandboxId = string
  type Metadata = map<string, string>

  /** Start time in nanoseconds and sandbox ID: what a cursor names. */
  datatype Key = Key(time: int, id: SandboxId)

  datatype StoreState = Running | Pausing | Killing | Snapshotting

  /** A sandbox as the in-memory store holds it. */
  datatype Sandbox = Sandbox(id: SandboxId, startTime: int, metadata: Option<Metadata>, state: StoreState)

  /** A row of `snapshots` joined with whether some default-tagged build of its env is ready. */
  datatype SnapshotRow = SnapshotRow(teamId: string, sandboxId: SandboxId, startedAt: int, metadata: Metadata, hasReadyBuild: bool)

  datatype ListedState = ListedRunning | ListedPaused

  datatype Listed = Listed(key: Key, state: ListedState, metadata: Option<Metadata>)

  const MAX_LIMIT: int := 100
  const DEFAULT_LIMIT: int := 100

  // ---------- The order ----------

  /** Start time descending, then sandbox ID ascending. */
  predicate Before(a: Key, b: Key) {
    a.time > b.time || (a.time == b.time && TextLess(a.id, b.id))
  }

  /** The database keeps and compares times in whole microseconds; the rest is cut off on the way there. */
  function Stored(t: int): int { t - t % 1000 }

  /** The start of the microsecond that the time is in. */
  lemma StoredExactly(t: int)
    ensures Stored(t) <= t < Stored(t) + 1000
    ensures exists micros: int :: Stored(t) == micros * 1000
  {
    assert Stored(t) == (t / 1000) * 1000;
  }

  /** The cursor as the query gets it. */
  function SqlCursor(c: Key): Key { c.(time := Stored(c.time)) }

  predicate ItemBefore(a: Listed, b: Listed) { Before(a.key, b.key) }

  function RowKey(r: SnapshotRow): Key { Key(r.startedAt, r.sandboxId) }

  predicate RowBefore(a: SnapshotRow, b: SnapshotRow) { Before(RowKey(a), RowKey(b)) }

  lemma BeforeOrder()
    ensures StrictOrder(Before) && StrictOrder(ItemBefore) && StrictOrder(RowBefore)
    ensures forall a, b :: a != b ==> Before(a, b) || Before(b, a)
  {
    TextStrictTotal();
  }

  // ---------- Selecting ----------

  predicate MetadataIncludes(m: Metadata, wanted: Metadata) {
    forall k :: k in wanted ==> k in m && m[k] == wanted[k]
  }

  predicate MatchesMetadata(filter: Option<Metadata>, m: Option<Metadata>) {
    filter.Some? ==> m.Some? && MetadataIncludes(m.value, filter.value)
  }

  function MatchesFilter(filter: Option<Metadata>): Listed -> bool {
    (x: Listed) => MatchesMetadata(filter, x.metadata)
  }

  function PastCursor(cursor: Key): Listed -> bool { (x: Listed) => Before(cursor, x.key) }

  function HasState(s: StoreState): Sandbox -> bool { (x: Sandbox) => x.state == s }

  /** The SQL query sends an empty object when the request carries no filter. */
  function QueryMetadata(filter: Option<Metadata>): Metadata {
    if filter.Some? then filter.value else map[]
  }

  /** The WHERE clause and the inner join, without the cursor. */
  function RowMatches(team: string, filter: Option<Metadata>): SnapshotRow -> bool {
    (r: SnapshotRow) => r.teamId == team && r.hasReadyBuild && MetadataIncludes(r.metadata, QueryMetadata(filter))
  }

  function RowPastCursor(cursor: Key): SnapshotRow -> bool { (r: SnapshotRow) => Before(cursor, RowKey(r)) }

  function NotExcluded(excluded: seq<SandboxId>): SnapshotRow -> bool { (r: SnapshotRow) => r.sandboxId !in excluded }

  function ToListed(s: Sandbox): Listed {
    Listed(Key(s.startTime, s.id), if s.state.Pausing? then ListedPaused else ListedRunning, s.metadata)
  }

  function RowToListed(r: SnapshotRow): Listed {
    Listed(RowKey(r), ListedPaused, Some(r.metadata))
  }

  ghost predicate UniqueSandboxes(store: seq<Sandbox>) {
    forall i, j :: 0 <= i < j < |store| ==> store[i].id != store[j].id
  }

  ghost predicate UniqueRows(table: seq<SnapshotRow>) {
    forall i, j :: 0 <= i < j < |table| ==> table[i].sandboxId != table[j].sandboxId
  }

  /** The start times of rows are whole microseconds. */
  ghost predicate StoredTimes(table: seq<SnapshotRow>) {
    forall r :: r in table ==> Stored(r.startedAt) == r.startedAt
  }

  // ---------- The reference listing ----------

  /** The IDs the store reported, running ones first. */
  function ExcludedIds(store: seq<Sandbox>): seq<SandboxId> {
    Map((s: Sandbox) => s.id, Filter(HasState(Running), store))
    + Map((s: Sandbox) => s.id, Filter(HasState(Pausing), store))
  }

  function RunningListed(states: seq<ListedState>, filter: Option<Metadata>, store: seq<Sandbox>): seq<Listed> {
    if ListedRunning in states then Filter(MatchesFilter(filter), Map(ToListed, Filter(HasState(Running), store))) else []
  }

  function PausingListed(states: seq<ListedState>, filter: Option<Metadata>, store: seq<Sandbox>): seq<Listed> {
    if ListedPaused in states then Filter(MatchesFilter(filter), Map(ToListed, Filter(HasState(Pausing), store))) else []
  }

  function PausedListed(states: seq<ListedState>, team: string, filter: Option<Metadata>, store: seq<Sandbox>, table: seq<SnapshotRow>): seq<Listed> {
    if ListedPaused in states
    then Map(RowToListed, Filter(NotExcluded(ExcludedIds(store)), Filter(RowMatches(team, filter), table)))
    else []
  }

  /** Everything the request matches, before any paging. */
  function Matching(states: seq<ListedState>, team: string, filter: Option<Metadata>, store: seq<Sandbox>, table: seq<SnapshotRow>): seq<Listed> {
    PausedListed(states, team, filter, store, table)
    + (RunningListed(states, filter, store) + PausingListed(states, filter, store))
  }

  /** Cut a sorted result list to a page; the next cursor is the key of the last row kept. */
  function ProcessResults(results: seq<Listed>, limit: nat): Page<Listed, Key>
    requires 1 <= limit
  {
    if |results| > limit then Page(results[..limit], Some(results[limit - 1].key)) else Page(results, None)
  }

  /** The reference page: sort all that matches, skip what the cursor passed, keep `limit`. */
  function ReferencePage(all: seq<Listed>, cursor: Key, limit: nat): Page<Listed, Key>
    requires 1 <= limit
  {
    ProcessResults(Filter(PastCursor(cursor), Sort(ItemBefore, all)), limit)
  }

  // ---------- The SQL page of paused sandboxes ----------

  /** GetSnapshotsWithCursor: filter, order, limit. */
  function FetchRows(table: seq<SnapshotRow>, team: string, filter: Option<Metadata>, cursor: Key, limit: nat): seq<SnapshotRow> {
    Take(limit, Sort(RowBefore, Filter(RowPastCursor(cursor), Filter(RowMatches(team, filter), table))))
  }

  /** What the over-fetch stands for: exclude first, on all matching rows, then cut. */
  function UnexcludedRows(table: seq<SnapshotRow>, team: string, filter: Option<Metadata>, cursor: Key, excluded: seq<SandboxId>): seq<SnapshotRow> {
    Sort(RowBefore, Filter(NotExcluded(excluded), Filter(RowPastCursor(cursor), Filter(RowMatches(team, filter), table))))
  }

  ghost function HitIds(rows: seq<SnapshotRow>, excluded: seq<SandboxId>): set<SandboxId> {
    set r | r in rows && r.sandboxId in excluded :: r.sandboxId
  }

  lemma {:induction false} ElementCount<T>(s: seq<T>)
    ensures |set x | x in s| <= |s|
  {
    if s != [] {
      ElementCount(s[1..]);
      assert s == [s[0]] + s[1..];
      assert (set x | x in s) == {s[0]} + (set x | x in s[1..]);
    }
  }

  lemma FirstHit(rows: seq<SnapshotRow>, excluded: seq<SandboxId>)
    requires UniqueRows(rows) && rows != []
    ensures rows[0].sandboxId !in HitIds(rows[1..], excluded)
    ensures HitIds(rows, excluded) == HitIds(rows[1..], excluded) + if rows[0].sandboxId in excluded then {rows[0].sandboxId} else {}
  {
    var rest := rows[1..];
    assert rows == [rows[0]] + rest;
    forall j | 0 <= j < |rest| ensures rest[j].sandboxId != rows[0].sandboxId {
      assert rows[j + 1] == rest[j];
    }
  }

  /** Pigeonhole: unique rows lose at most one row per excluded ID. */
  lemma {:induction false} FewExcluded(rows: seq<SnapshotRow>, excluded: seq<SandboxId>)
    requires UniqueRows(rows)
    ensures |rows| <= |Filter(NotExcluded(excluded), rows)| + |HitIds(rows, excluded)|
  {
    if rows != [] {
      FewExcluded(rows[1..], excluded);
      FirstHit(rows, excluded);
    }
  }

  /** Fetching `|excluded|` extra rows is enough to keep the first `q` that are not excluded. */
  lemma OverFetch(rows: seq<SnapshotRow>, excluded: seq<SandboxId>, q: nat)
    requires UniqueRows(rows)
    ensures Take(q, Filter(NotExcluded(excluded), Take(q + |excluded|, rows)))
         == Take(q, Filter(NotExcluded(excluded), rows))
  {
    var m := q + |excluded|;
    if m < |rows| {
      var p := NotExcluded(excluded);
      FewExcluded(rows[..m], excluded);
      assert HitIds(rows[..m], excluded) <= set x | x in excluded;
      CardinalityMonotone(HitIds(rows[..m], excluded), set x | x in excluded);
      ElementCount(excluded);
      FilterConcat(p, rows[..m], rows[m..]);
      assert rows == rows[..m] + rows[m..];
    }
  }

  predicate DifferentRows(a: SnapshotRow, b: SnapshotRow) { a.sandboxId != b.sandboxId }

  lemma UniqueRowsComparable(rows: seq<SnapshotRow>)
    requires UniqueRows(rows)
    ensures Comparable(RowBefore, rows)
  {
    BeforeOrder();
  }

  lemma FilterUniqueRows(p: SnapshotRow -> bool, rows: seq<SnapshotRow>)
    requires UniqueRows(rows)
    ensures UniqueRows(Filter(p, rows))
  {
    assert Pairwise(DifferentRows, rows);
    FilterPairwise(DifferentRows, p, rows);
    assert Pairwise(DifferentRows, Filter(p, rows));
  }

  lemma SortUniqueRows(rows: seq<SnapshotRow>)
    requires UniqueRows(rows)
    ensures UniqueRows(Sort(RowBefore, rows))
  {
    BeforeOrder();
    UniqueRowsComparable(rows);
    var sorted := Sort(RowBefore, rows);
    SortSorts(RowBefore, rows);
    forall i, j | 0 <= i < j < |sorted| ensures sorted[i].sandboxId != sorted[j].sandboxId {
      assert RowBefore(sorted[i], sorted[j]);
      assert sorted[i] in rows && sorted[j] in rows;
      var p :| 0 <= p < |rows| && rows[p] == sorted[i];
      var q :| 0 <= q < |rows| && rows[q] == sorted[j];
      assert p != q;
    }
  }

  /** Over-fetch, exclude in place and truncate gives the first `q` unexcluded rows of the whole table. */
  lemma FetchExact(table: seq<SnapshotRow>, team: string, filter: Option<Metadata>, cursor: Key, excluded: seq<SandboxId>, q: nat,
                   fetched: seq<SnapshotRow>)
    requires UniqueRows(table)
    requires fetched == FetchRows(table, team, filter, cursor, q + |excluded|)
    ensures Take(q, Filter(NotExcluded(excluded), fetched)) == Take(q, UnexcludedRows(table, team, filter, cursor, excluded))
  {
    var rows := Filter(RowPastCursor(cursor), Filter(RowMatches(team, filter), table));
    FilterUniqueRows(RowMatches(team, filter), table);
    FilterUniqueRows(RowPastCursor(cursor), Filter(RowMatches(team, filter), table));
    BeforeOrder();
    UniqueRowsComparable(rows);
    SortUniqueRows(rows);
    OverFetch(Sort(RowBefore, rows), excluded, q);
    FilterSort(RowBefore, NotExcluded(excluded), rows);
  }

  /** `filtered := snapshots[:0]` and append: compaction over the same backing array. */
  method ExcludeInPlace(snapshots: array<SnapshotRow>, excludedIds: seq<SandboxId>) returns (n: nat)
    modifies snapshots
    ensures n <= snapshots.Length
    ensures snapshots[..n] == Filter(NotExcluded(excludedIds), old(snapshots[..]))
  {
    var excludeSet: set<SandboxId> := {};
    for k := 0 to |excludedIds|
      invariant forall id :: id in excludeSet <==> id in excludedIds[..k]
    {
      excludeSet := excludeSet + {excludedIds[k]};
    }
    ghost var rows := snapshots[..];
    n := 0;
    for i := 0 to snapshots.Length
      invariant n <= i
      invariant snapshots[..n] == Filter(NotExcluded(excludedIds), rows[..i])
      invariant snapshots[i..] == rows[i..]
    {
      FilterSnoc(NotExcluded(excludedIds), rows, i);
      var s := snapshots[i];
      assert s == rows[i..][0];
      if s.sandboxId !in excludeSet {
        snapshots[n] := s;
        n := n + 1;
      }
      assert snapshots[i + 1..] == rows[i..][1..];
    }
    assert rows[..snapshots.Length] == rows;
  }

  method SnapshotsToPaginated(snapshots: seq<SnapshotRow>) returns (sandboxes: seq<Listed>)
    ensures sandboxes == Map(RowToListed, snapshots)
  {
    sandboxes := [];
    for i := 0 to |snapshots|
      invariant |sandboxes| == i
      invariant forall k :: 0 <= k < i ==> sandboxes[k] == RowToListed(snapshots[k])
    {
      sandboxes := sandboxes + [RowToListed(snapshots[i])];
    }
  }

  method GetPausedSandboxes(table: seq<SnapshotRow>, team: string, runningSandboxesIDs: seq<SandboxId>,
                            filter: Option<Metadata>, queryLimit: nat, cursor: Key)
    returns (sandboxes: seq<Listed>)
    requires UniqueRows(table)
    ensures sandboxes == Map(RowToListed, Take(queryLimit, UnexcludedRows(table, team, filter, SqlCursor(cursor), runningSandboxesIDs)))
  {
    var dbLimit := queryLimit + |runningSandboxesIDs|;
    var rows := FetchRows(table, team, filter, SqlCursor(cursor), dbLimit);
    var kept := ExcludeAndCut(rows, runningSandboxesIDs, queryLimit);
    FetchExact(table, team, filter, SqlCursor(cursor), runningSandboxesIDs, queryLimit, rows);
    sandboxes := SnapshotsToPaginated(kept);
  }

  /** The driver hands over fresh rows; without IDs to exclude they are only cut. */
  method ExcludeAndCut(rows: seq<SnapshotRow>, runningSandboxesIDs: seq<SandboxId>, queryLimit: nat) returns (kept: seq<SnapshotRow>)
    ensures kept == Take(queryLimit, Filter(NotExcluded(runningSandboxesIDs), rows))
  {
    var snapshots := new SnapshotRow[|rows|](i requires 0 <= i < |rows| => rows[i]);
    assert snapshots[..] == rows;
    var n := snapshots.Length;
    if |runningSandboxesIDs| > 0 {
      n := ExcludeInPlace(snapshots, runningSandboxesIDs);
    } else {
      FilterAll(NotExcluded(runningSandboxesIDs), rows);
    }
    ghost var unexcluded := snapshots[..n];
    assert unexcluded == Filter(NotExcluded(runningSandboxesIDs), rows);
    if n > queryLimit {
      n := queryLimit;
    }
    kept := snapshots[..n];
    assert kept == Take(queryLimit, unexcluded);
  }
}
