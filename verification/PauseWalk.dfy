/**
  Walking the v2 listing while sandboxes move from running through pausing to
  paused between the reads. A sandbox's start time is kept in nanoseconds in
  memory and in microseconds in its row, so its key is cut when it is paused.
 */
module PauseWalk {
  import opened Common
  import opened Keyset
  import opened Lexicographic
  import opened SandboxListing
  import opened ListingPage

  datatype Info = Info(startTime: int, metadata: Option<Metadata>)

  type Universe = map<SandboxId, Info>

  /** The steps of one pause, in the order the pause path takes them; it may fail on the node, or at the upsert of a first row. */
  datatype Phase = IsRunning | PauseStarted | RowWritten | BuildSaved | IsPaused | PauseFailed

  /** Whether the store still holds the sandbox. */
  predicate InMemory(p: Phase) { !p.IsPaused? && !p.PauseFailed? }

  /** `snapshots.sandbox_id` is unique, so the table is a map from sandbox to row. */
  datatype World = World(phase: map<SandboxId, Phase>, rows: map<SandboxId, SnapshotRow>)

  datatype Event =
    | BeginPause(id: SandboxId)
    | UpsertRow(id: SandboxId)
    | MarkReady(id: SandboxId)
    | LeaveStore(id: SandboxId)
    | FailPause(id: SandboxId)

  function StoredMetadata(m: Option<Metadata>): Metadata { if m.Some? then m.value else map[] }

  /** The row an upsert leaves: an existing row keeps its team and its older ready builds. */
  function UpsertedRow(team: string, id: SandboxId, info: Info, rows: map<SandboxId, SnapshotRow>): SnapshotRow {
    if id in rows then rows[id].(startedAt := Stored(info.startTime), metadata := StoredMetadata(info.metadata))
    else SnapshotRow(team, id, Stored(info.startTime), StoredMetadata(info.metadata), false)
  }

  function Apply(team: string, u: Universe, w: World, e: Event): World {
    if e.id !in w.phase || e.id !in u then w
    else match e
      case BeginPause(id) =>
        if w.phase[id].IsRunning? then w.(phase := w.phase[id := PauseStarted]) else w
      case UpsertRow(id) =>
        if w.phase[id].PauseStarted?
        then World(w.phase[id := RowWritten], w.rows[id := UpsertedRow(team, id, u[id], w.rows)]) else w
      case MarkReady(id) =>
        if w.phase[id].RowWritten? && id in w.rows
        then World(w.phase[id := BuildSaved], w.rows[id := w.rows[id].(hasReadyBuild := true)]) else w
      case LeaveStore(id) =>
        if w.phase[id].BuildSaved? then w.(phase := w.phase[id := IsPaused]) else w
      case FailPause(id) =>
        if w.phase[id].RowWritten? || (w.phase[id].PauseStarted? && id !in w.rows) then w.(phase := w.phase[id := PauseFailed]) else w
  }

  function Run(team: string, u: Universe, w: World, es: seq<Event>): World
    decreases |es|
  {
    if es == [] then w else Run(team, u, Apply(team, u, w, es[0]), es[1..])
  }

  predicate CurrentRow(team: string, id: SandboxId, info: Info, r: SnapshotRow) {
    r == SnapshotRow(team, id, Stored(info.startTime), StoredMetadata(info.metadata), r.hasReadyBuild)
  }

  /** Rows of sandboxes not yet upserted may be missing or stale; the others are current. */
  ghost predicate WorldInv(team: string, u: Universe, w: World) {
    && w.phase.Keys == u.Keys
    && (forall id :: id in w.rows ==> w.rows[id].sandboxId == id)
    && (forall id :: id in w.rows ==> (w.rows[id].teamId == team <==> id in u))
    && (forall id :: id in u && (w.phase[id].RowWritten? || w.phase[id].BuildSaved? || w.phase[id].IsPaused?) ==> id in w.rows)
    && (forall id :: id in u && !w.phase[id].IsRunning? && !w.phase[id].PauseStarted? && id in w.rows ==>
          CurrentRow(team, id, u[id], w.rows[id]))
    && (forall id :: id in u && (w.phase[id].BuildSaved? || w.phase[id].IsPaused?) ==> w.rows[id].hasReadyBuild)
  }

  /** A sandbox that has left the store stays as it is, and so does its row. */
  ghost predicate Settled(u: Universe, w: World, after: World) {
    forall id :: id in u && id in w.phase && !InMemory(w.phase[id]) ==>
      && id in after.phase && after.phase[id] == w.phase[id]
      && (id in after.rows <==> id in w.rows) && (id in w.rows ==> after.rows[id] == w.rows[id])
  }

  /** Its pause failed and no build of it was ever ready: there is nothing to list it by. */
  predicate Lost(w: World, id: SandboxId) {
    id in w.phase && w.phase[id].PauseFailed? && !(id in w.rows && w.rows[id].hasReadyBuild)
  }

  lemma ApplyKeeps(team: string, u: Universe, w: World, e: Event)
    requires WorldInv(team, u, w)
    ensures WorldInv(team, u, Apply(team, u, w, e))
    ensures Settled(u, w, Apply(team, u, w, e))
  {
    ApplySettles(team, u, w, e);
    if e.UpsertRow? {
      if e.id in u && w.phase[e.id].PauseStarted? { UpsertKeeps(team, u, w, e.id); }
    } else {
      OthersKeep(team, u, w, e);
    }
  }

  lemma OthersKeep(team: string, u: Universe, w: World, e: Event)
    requires WorldInv(team, u, w) && !e.UpsertRow?
    ensures WorldInv(team, u, Apply(team, u, w, e))
  {
  }

  lemma ApplySettles(team: string, u: Universe, w: World, e: Event)
    requires w.phase.Keys == u.Keys
    ensures Settled(u, w, Apply(team, u, w, e))
  {
  }

  lemma UpsertKeeps(team: string, u: Universe, w: World, id: SandboxId)
    requires WorldInv(team, u, w) && id in u && w.phase[id].PauseStarted?
    ensures WorldInv(team, u, World(w.phase[id := RowWritten], w.rows[id := UpsertedRow(team, id, u[id], w.rows)]))
  {
    assert CurrentRow(team, id, u[id], UpsertedRow(team, id, u[id], w.rows));
  }

  lemma {:induction false} RunKeeps(team: string, u: Universe, w: World, es: seq<Event>)
    requires WorldInv(team, u, w)
    ensures WorldInv(team, u, Run(team, u, w, es))
    ensures Settled(u, w, Run(team, u, w, es))
    decreases |es|
  {
    if es != [] {
      ApplyKeeps(team, u, w, es[0]);
      RunKeeps(team, u, Apply(team, u, w, es[0]), es[1..]);
    }
  }

  function InStore(id: SandboxId, info: Info, phase: Phase): Sandbox {
    Sandbox(id, info.startTime, info.metadata, if phase.IsRunning? then Running else Pausing)
  }

  /** What a store read may return: every sandbox not yet paused, in any order. */
  ghost predicate IsStoreRead(u: Universe, w: World, store: seq<Sandbox>)
    requires w.phase.Keys == u.Keys
  {
    && UniqueSandboxes(store)
    && (forall s :: s in store ==> s.id in u && InMemory(w.phase[s.id]) && s == InStore(s.id, u[s.id], w.phase[s.id]))
    && (forall id :: id in u && InMemory(w.phase[id]) ==> InStore(id, u[id], w.phase[id]) in store)
  }

  ghost predicate IsTableRead(w: World, table: seq<SnapshotRow>) {
    && UniqueRows(table)
    && (forall r :: r in table <==> r.sandboxId in w.rows && w.rows[r.sandboxId] == r)
  }

  /** The key of an item as the database would have it. */
  function CoarseOf(x: Listed): Key { SqlCursor(x.key) }

  /** The sandboxes to be listed in a state, by their coarse keys. */
  ghost predicate IsExpectedKey(u: Universe, filter: Option<Metadata>, w: World, k: Key) {
    k.id in u && !Lost(w, k.id) && k.time == Stored(u[k.id].startTime) && MatchesMetadata(filter, u[k.id].metadata)
  }

  /** A parsed metadata filter names at least one key. */
  predicate ParsedFilter(filter: Option<Metadata>) { filter.Some? ==> filter.value != map[] }

  lemma FilterAgreement(filter: Option<Metadata>, m: Option<Metadata>)
    requires ParsedFilter(filter)
    ensures MatchesMetadata(filter, m) <==> MetadataIncludes(StoredMetadata(m), QueryMetadata(filter))
  {
    if filter.Some? && m.None? {
      var k :| k in filter.value;
    }
  }

  /** The item names a sandbox with its start time, full or cut. */
  ghost predicate FromUniverse(u: Universe, x: Listed) {
    x.key.id in u && (x.key.time == u[x.key.id].startTime || x.key.time == Stored(u[x.key.id].startTime))
  }

  lemma SeenIsExpected(team: string, u: Universe, states: seq<ListedState>, filter: Option<Metadata>,
                       a: World, store: seq<Sandbox>, between: seq<Event>, table: seq<SnapshotRow>, x: Listed)
    requires ListedRunning in states && ListedPaused in states && ParsedFilter(filter)
    requires WorldInv(team, u, a) && IsStoreRead(u, a, store) && IsTableRead(Run(team, u, a, between), table)
    requires x in Matching(states, team, filter, store, table)
    ensures IsExpectedKey(u, filter, a, CoarseOf(x)) && FromUniverse(u, x)
    ensures x in PausedListed(states, team, filter, store, table) ==> CoarseOf(x) == x.key
  {
    RunKeeps(team, u, a, between);
    if x in PausedListed(states, team, filter, store, table) {
      PausedIsExpected(team, u, states, filter, a, Run(team, u, a, between), store, table, x);
    } else {
      MemoryTime(u, a, states, filter, store, x);
    }
  }

  /** A listed row is that of a sandbox that had left the store at the store read, and current. */
  lemma PausedIsExpected(team: string, u: Universe, states: seq<ListedState>, filter: Option<Metadata>,
                         a: World, b: World, store: seq<Sandbox>, table: seq<SnapshotRow>, x: Listed)
    requires ListedPaused in states && ParsedFilter(filter)
    requires WorldInv(team, u, a) && WorldInv(team, u, b) && IsStoreRead(u, a, store) && IsTableRead(b, table)
    requires Settled(u, a, b)
    requires x in PausedListed(states, team, filter, store, table)
    ensures IsExpectedKey(u, filter, a, x.key) && CoarseOf(x) == x.key
  {
    PausedMembers(states, team, filter, store, table, x);
    var r :| r in table && RowMatches(team, filter)(r) && r.sandboxId !in ExcludedIds(store) && x == RowToListed(r);
    var id := r.sandboxId;
    assert id in u;
    assert !InMemory(a.phase[id]) by {
      ExcludedAre(store);
      assert !InMemory(a.phase[id]) || InStore(id, u[id], a.phase[id]) in store;
    }
    assert CurrentRow(team, id, u[id], r);
    FilterAgreement(filter, u[id].metadata);
    StoredMonotone(u[id].startTime, 0);
  }

  /** Items from memory carry the full start time. */
  lemma MemoryTime(u: Universe, a: World, states: seq<ListedState>, filter: Option<Metadata>, store: seq<Sandbox>, x: Listed)
    requires ListedRunning in states && ListedPaused in states && a.phase.Keys == u.Keys && IsStoreRead(u, a, store)
    requires x in RunningListed(states, filter, store) + PausingListed(states, filter, store)
    ensures x.key.id in u && x.key == Key(u[x.key.id].startTime, x.key.id) && MatchesMetadata(filter, u[x.key.id].metadata)
    ensures InMemory(a.phase[x.key.id])
  {
    MemoryMembers(Running, filter, store, x);
    MemoryMembers(Pausing, filter, store, x);
  }

  lemma ExpectedIsSeen(team: string, u: Universe, states: seq<ListedState>, filter: Option<Metadata>,
                       a: World, store: seq<Sandbox>, between: seq<Event>, table: seq<SnapshotRow>, k: Key)
    returns (x: Listed)
    requires ListedRunning in states && ListedPaused in states && ParsedFilter(filter)
    requires WorldInv(team, u, a) && IsStoreRead(u, a, store) && IsTableRead(Run(team, u, a, between), table)
    requires IsExpectedKey(u, filter, a, k)
    ensures x in Matching(states, team, filter, store, table) && CoarseOf(x) == k
  {
    if !InMemory(a.phase[k.id]) {
      RunKeeps(team, u, a, between);
      x := PausedIsSeen(team, u, states, filter, a, Run(team, u, a, between), store, table, k);
    } else {
      x := MemoryIsSeen(u, states, filter, a, store, k);
    }
  }

  lemma MemoryIsSeen(u: Universe, states: seq<ListedState>, filter: Option<Metadata>, a: World, store: seq<Sandbox>, k: Key)
    returns (x: Listed)
    requires ListedRunning in states && ListedPaused in states && a.phase.Keys == u.Keys && IsStoreRead(u, a, store)
    requires IsExpectedKey(u, filter, a, k) && InMemory(a.phase[k.id])
    ensures x in RunningListed(states, filter, store) + PausingListed(states, filter, store) && CoarseOf(x) == k
  {
    var s := InStore(k.id, u[k.id], a.phase[k.id]);
    x := ToListed(s);
    MemoryMembers(s.state, filter, store, x);
  }

  /** A sandbox that had left the store at the store read, and is not lost, has its row in the table and is not excluded. */
  lemma PausedIsSeen(team: string, u: Universe, states: seq<ListedState>, filter: Option<Metadata>,
                     a: World, b: World, store: seq<Sandbox>, table: seq<SnapshotRow>, k: Key)
    returns (x: Listed)
    requires ListedPaused in states && ParsedFilter(filter)
    requires WorldInv(team, u, a) && WorldInv(team, u, b) && IsStoreRead(u, a, store) && IsTableRead(b, table)
    requires IsExpectedKey(u, filter, a, k) && !InMemory(a.phase[k.id]) && Settled(u, a, b)
    ensures x in PausedListed(states, team, filter, store, table) && x.key == k && CoarseOf(x) == k
  {
    var r := b.rows[k.id];
    x := RowToListed(r);
    ExcludedAre(store);
    FilterAgreement(filter, u[k.id].metadata);
    assert r in table && RowMatches(team, filter)(r);
    assert k.id !in ExcludedIds(store);
    StoredMonotone(u[k.id].startTime, 0);
    PausedMembers(states, team, filter, store, table, x);
  }

  /** One request: events before the store read, the read, events before the table read, the read, the page. */
  datatype PageRead = PageRead(before: seq<Event>, store: seq<Sandbox>, between: seq<Event>, table: seq<SnapshotRow>, page: Page<Listed, Key>)

  function PageOf(r: PageRead): Page<Listed, Key> { r.page }

  /** The reads saw what was there, and the page is what the handler makes of them. */
  ghost predicate IsServed(team: string, u: Universe, states: seq<ListedState>, filter: Option<Metadata>, limit: nat,
                           w: World, cursor: Key, r: PageRead)
    requires 1 <= limit
  {
    && var a := Run(team, u, w, r.before);
    && a.phase.Keys == u.Keys
    && IsStoreRead(u, a, r.store)
    && IsTableRead(Run(team, u, a, r.between), r.table)
    && r.page == ServedPage(states, team, filter, r.store, r.table, cursor, limit)
  }

  /** The state the store was read in. */
  function StoreWorld(team: string, u: Universe, w: World, r: PageRead): World { Run(team, u, w, r.before) }

  function AfterRead(team: string, u: Universe, w: World, r: PageRead): World {
    Run(team, u, Run(team, u, w, r.before), r.between)
  }

  ghost predicate IsObservedWalk(team: string, u: Universe, states: seq<ListedState>, filter: Option<Metadata>, limit: nat,
                                 w: World, cursor: Key, served: seq<PageRead>)
    requires 1 <= limit
    decreases |served|
  {
    && served != []
    && IsServed(team, u, states, filter, limit, w, cursor, served[0])
    && match served[0].page.next
       case None => |served| == 1
       case Some(d) => IsObservedWalk(team, u, states, filter, limit, AfterRead(team, u, w, served[0]), d, served[1..])
  }

  // ---------- When the cut times do not matter ----------

  /** Of the team's sandboxes started in one microsecond, only the one with the least ID may have started off its beginning. */
  ghost predicate Spread(u: Universe) {
    forall i, j :: i in u && j in u && TextLess(i, j) && Stored(u[i].startTime) == Stored(u[j].startTime) ==>
      Stored(u[j].startTime) == u[j].startTime
  }

  /** The cursor stands to every sandbox in memory as the cut cursor stands to the cut time. */
  ghost predicate Fits(u: Universe, cursor: Key) {
    forall id :: id in u ==> (Before(cursor, Key(u[id].startTime, id)) <==> Before(SqlCursor(cursor), Key(Stored(u[id].startTime), id)))
  }

  lemma StoredMonotone(s: int, t: int)
    ensures s <= t ==> Stored(s) <= Stored(t)
    ensures Stored(s) < Stored(t) ==> s < t
    ensures Stored(Stored(s)) == Stored(s)
  {
  }

  /** A cursor from a later microsecond than every start fits: the first request's does. */
  lemma StartFits(u: Universe, cursor: Key)
    requires forall id :: id in u ==> Stored(u[id].startTime) < Stored(cursor.time)
    ensures Fits(u, cursor)
  {
    forall id | id in u ensures Before(cursor, Key(u[id].startTime, id)) {
      StoredMonotone(u[id].startTime, cursor.time);
    }
  }

  /** So does the key of a listed item. */
  lemma NextFits(u: Universe, x: Listed)
    requires Spread(u) && FromUniverse(u, x)
    ensures Fits(u, x.key)
  {
    TextStrictTotal();
    forall id | id in u ensures Before(x.key, Key(u[id].startTime, id)) <==> Before(SqlCursor(x.key), Key(Stored(u[id].startTime), id)) {
      StoredMonotone(u[id].startTime, x.key.time);
      StoredMonotone(x.key.time, u[id].startTime);
      StoredMonotone(u[x.key.id].startTime, x.key.time);
    }
  }

  /** Listed items of different sandboxes are in the order of their coarse keys. */
  lemma CoarseOrder(u: Universe, x: Listed, y: Listed)
    requires Spread(u) && FromUniverse(u, x) && FromUniverse(u, y) && x.key.id != y.key.id && ItemBefore(x, y)
    ensures Before(CoarseOf(x), CoarseOf(y))
  {
    TextStrictTotal();
    StoredMonotone(y.key.time, x.key.time);
    StoredMonotone(u[x.key.id].startTime, x.key.time);
    StoredMonotone(u[y.key.id].startTime, y.key.time);
  }

  // ---------- One page ----------

  ghost function KeyList(u: Universe, filter: Option<Metadata>, w: World, ids: set<SandboxId>): (keys: seq<Key>)
    requires ids <= u.Keys
    ensures forall k :: k in keys <==> k.id in ids && IsExpectedKey(u, filter, w, k)
    ensures forall i, j :: 0 <= i < j < |keys| ==> keys[i] != keys[j]
    decreases |ids|
  {
    if ids == {} then []
    else
      var id :| id in ids;
      var key, rest := Key(Stored(u[id].startTime), id), KeyList(u, filter, w, ids - {id});
      if IsExpectedKey(u, filter, w, key) then [key] + rest else rest
  }

  /** The matching sandboxes of a state in listing order. */
  ghost function ExpectedKeys(u: Universe, filter: Option<Metadata>, w: World): (keys: seq<Key>)
    ensures Sorted(Before, keys)
    ensures forall k :: k in keys <==> IsExpectedKey(u, filter, w, k)
  {
    BeforeOrder();
    SortSorts(Before, KeyList(u, filter, w, u.Keys));
    SortMembers(Before, KeyList(u, filter, w, u.Keys));
    Sort(Before, KeyList(u, filter, w, u.Keys))
  }

  /** The request considers exactly the expected keys past the cursor. */
  lemma ServedKeysExactly(team: string, u: Universe, states: seq<ListedState>, filter: Option<Metadata>,
                          a: World, cursor: Key, store: seq<Sandbox>, between: seq<Event>, table: seq<SnapshotRow>, k: Key)
    requires ListedRunning in states && ListedPaused in states && ParsedFilter(filter) && Fits(u, cursor)
    requires WorldInv(team, u, a) && IsStoreRead(u, a, store) && IsTableRead(Run(team, u, a, between), table)
    ensures k in Map(CoarseOf, ServedItems(states, team, filter, store, table, cursor)) <==> IsExpectedKey(u, filter, a, k) && Before(SqlCursor(cursor), k)
  {
    var list := ServedItems(states, team, filter, store, table, cursor);
    if k in Map(CoarseOf, list) {
      var i :| 0 <= i < |list| && Map(CoarseOf, list)[i] == k;
      PastAgrees(team, u, states, filter, a, cursor, store, between, table, list[i]);
    }
    if IsExpectedKey(u, filter, a, k) && Before(SqlCursor(cursor), k) {
      var x := ExpectedIsSeen(team, u, states, filter, a, store, between, table, k);
      PastAgrees(team, u, states, filter, a, cursor, store, between, table, x);
      var i :| 0 <= i < |list| && list[i] == x;
      assert Map(CoarseOf, list)[i] == k;
    }
  }

  /** An item that matches is considered if and only if its coarse key is past the cut cursor. */
  lemma PastAgrees(team: string, u: Universe, states: seq<ListedState>, filter: Option<Metadata>,
                   a: World, cursor: Key, store: seq<Sandbox>, between: seq<Event>, table: seq<SnapshotRow>, x: Listed)
    requires ListedRunning in states && ListedPaused in states && ParsedFilter(filter) && Fits(u, cursor)
    requires WorldInv(team, u, a) && IsStoreRead(u, a, store) && IsTableRead(Run(team, u, a, between), table)
    ensures x in ServedItems(states, team, filter, store, table, cursor) <==>
              x in Matching(states, team, filter, store, table) && Before(SqlCursor(cursor), CoarseOf(x))
    ensures x in Matching(states, team, filter, store, table) ==> IsExpectedKey(u, filter, a, CoarseOf(x)) && FromUniverse(u, x)
  {
    var paused := PausedListed(states, team, filter, store, table);
    var memory := RunningListed(states, filter, store) + PausingListed(states, filter, store);
    ServedUnique(states, team, filter, store, table, cursor);
    FilterMembers(PastCursor(SqlCursor(cursor)), paused);
    FilterMembers(PastCursor(cursor), memory);
    if x in paused || x in memory {
      SeenIsExpected(team, u, states, filter, a, store, between, table, x);
      MatchingUnique(states, team, filter, store, table);
      PairwiseParts(paused, memory);
      if x in memory {
        MemoryTime(u, a, states, filter, store, x);
      }
    }
  }

  /** Sorted, what the request considers is the expected keys past the cursor, in their order. */
  lemma ServedKeys(team: string, u: Universe, states: seq<ListedState>, filter: Option<Metadata>,
                   a: World, cursor: Key, store: seq<Sandbox>, between: seq<Event>, table: seq<SnapshotRow>)
    requires ListedRunning in states && ListedPaused in states && ParsedFilter(filter) && Fits(u, cursor) && Spread(u)
    requires WorldInv(team, u, a) && IsStoreRead(u, a, store) && IsTableRead(Run(team, u, a, between), table)
    ensures Map(CoarseOf, Sort(ItemBefore, ServedItems(states, team, filter, store, table, cursor)))
         == After(Before, ExpectedKeys(u, filter, a), SqlCursor(cursor))
    ensures forall x :: x in ServedItems(states, team, filter, store, table, cursor) ==> FromUniverse(u, x)
  {
    var list := ServedItems(states, team, filter, store, table, cursor);
    var sorted, rest := Sort(ItemBefore, list), After(Before, ExpectedKeys(u, filter, a), SqlCursor(cursor));
    forall x | x in list ensures FromUniverse(u, x) {
      PastAgrees(team, u, states, filter, a, cursor, store, between, table, x);
    }
    ServedUnique(states, team, filter, store, table, cursor);
    SortedCoarse(u, list);
    FilterMembers(Follows(Before, SqlCursor(cursor)), ExpectedKeys(u, filter, a));
    FilterPairwise(Before, Follows(Before, SqlCursor(cursor)), ExpectedKeys(u, filter, a));
    forall k ensures k in Map(CoarseOf, sorted) <==> k in rest {
      ServedKeysExactly(team, u, states, filter, a, cursor, store, between, table, k);
      SameMapped(list, sorted, k);
    }
    BeforeOrder();
    SortedUnique(Before, Map(CoarseOf, sorted), rest);
  }

  lemma SameMapped(list: seq<Listed>, sorted: seq<Listed>, k: Key)
    requires sorted == Sort(ItemBefore, list)
    ensures k in Map(CoarseOf, sorted) <==> k in Map(CoarseOf, list)
  {
    SortMembers(ItemBefore, list);
    if k in Map(CoarseOf, sorted) {
      var i :| 0 <= i < |sorted| && CoarseOf(sorted[i]) == k;
      assert sorted[i] in list;
      var j :| 0 <= j < |list| && list[j] == sorted[i];
      assert Map(CoarseOf, list)[j] == k;
    }
    if k in Map(CoarseOf, list) {
      var i :| 0 <= i < |list| && CoarseOf(list[i]) == k;
      assert list[i] in sorted;
      var j :| 0 <= j < |sorted| && sorted[j] == list[i];
      assert Map(CoarseOf, sorted)[j] == k;
    }
  }

  lemma SortedCoarse(u: Universe, list: seq<Listed>)
    requires Spread(u) && Pairwise(DifferentListed, list) && forall x :: x in list ==> FromUniverse(u, x)
    ensures Sorted(Before, Map(CoarseOf, Sort(ItemBefore, list)))
  {
    BeforeOrder();
    ListedComparable(list);
    SortSorts(ItemBefore, list);
    SortMembers(ItemBefore, list);
    var sorted := Sort(ItemBefore, list);
    forall i, j | 0 <= i < j < |sorted| ensures Before(CoarseOf(sorted[i]), CoarseOf(sorted[j])) {
      assert ItemBefore(sorted[i], sorted[j]) && sorted[i] in list && sorted[j] in list;
      DifferentPositions(list, sorted[i], sorted[j]);
      CoarseOrder(u, sorted[i], sorted[j]);
    }
  }

  lemma DifferentPositions(list: seq<Listed>, x: Listed, y: Listed)
    requires Pairwise(DifferentListed, list) && x in list && y in list && ItemBefore(x, y)
    ensures x.key.id != y.key.id
  {
    BeforeOrder();
    var i :| 0 <= i < |list| && list[i] == x;
    var j :| 0 <= j < |list| && list[j] == y;
    assert i != j;
    assert if i < j then DifferentListed(list[i], list[j]) else DifferentListed(list[j], list[i]);
  }

  // ---------- The walk ----------

  function CoarsePage(p: Page<Listed, Key>): Page<Key, Key> {
    Page(Map(CoarseOf, p.items), if p.next.Some? then Some(SqlCursor(p.next.value)) else None)
  }

  lemma ObservedPage(team: string, u: Universe, states: seq<ListedState>, filter: Option<Metadata>, limit: nat,
                     w: World, cursor: Key, r: PageRead)
    requires 1 <= limit && ListedRunning in states && ListedPaused in states && ParsedFilter(filter)
    requires Spread(u) && Fits(u, cursor)
    requires WorldInv(team, u, w) && IsServed(team, u, states, filter, limit, w, cursor, r)
    ensures CoarsePage(r.page) == PageAfter(Before, ExpectedKeys(u, filter, StoreWorld(team, u, w, r)), SqlCursor(cursor), limit)
    ensures WorldInv(team, u, StoreWorld(team, u, w, r)) && Settled(u, w, StoreWorld(team, u, w, r))
    ensures Settled(u, StoreWorld(team, u, w, r), AfterRead(team, u, w, r))
    ensures r.page.next.Some? ==> Fits(u, r.page.next.value)
    ensures WorldInv(team, u, AfterRead(team, u, w, r))
  {
    var a := Run(team, u, w, r.before);
    RunKeeps(team, u, w, r.before);
    RunKeeps(team, u, a, r.between);
    ServedKeys(team, u, states, filter, a, cursor, r.store, r.between, r.table);
    var list := ServedItems(states, team, filter, r.store, r.table, cursor);
    CutCoarse(Sort(ItemBefore, list), limit);
    if |list| > limit {
      LastFits(u, list, limit);
    }
  }

  /** Cutting a page and cutting times commute. */
  lemma CutCoarse(sorted: seq<Listed>, limit: nat)
    requires 1 <= limit
    ensures
      var keys := Map(CoarseOf, sorted);
      CoarsePage(ProcessResults(sorted, limit)) == (if |keys| > limit then Page(keys[..limit], Some(keys[limit - 1])) else Page(keys, None))
  {
    if |sorted| > limit {
      assert Map(CoarseOf, sorted)[..limit] == Map(CoarseOf, sorted[..limit]);
    }
  }

  lemma LastFits(u: Universe, list: seq<Listed>, limit: nat)
    requires 1 <= limit < |list| && Spread(u) && forall x :: x in list ==> FromUniverse(u, x)
    ensures Fits(u, Sort(ItemBefore, list)[limit - 1].key)
  {
    SortMembers(ItemBefore, list);
    assert Sort(ItemBefore, list)[limit - 1] in list;
    NextFits(u, Sort(ItemBefore, list)[limit - 1]);
  }

  lemma PagesTail(served: seq<PageRead>)
    requires served != []
    ensures Map(CoarsePage, Map(PageOf, served))[0] == CoarsePage(served[0].page)
    ensures Map(CoarsePage, Map(PageOf, served))[1..] == Map(CoarsePage, Map(PageOf, served[1..]))
  {
  }

  /** What was to be listed at the store read of each request. */
  ghost function SeenKeys(team: string, u: Universe, filter: Option<Metadata>, w: World, served: seq<PageRead>): (seen: seq<seq<Key>>)
    ensures |seen| == |served|
    ensures forall i :: 0 <= i < |seen| ==> Sorted(Before, seen[i])
    decreases |served|
  {
    if served == [] then []
    else [ExpectedKeys(u, filter, StoreWorld(team, u, w, served[0]))] + SeenKeys(team, u, filter, AfterRead(team, u, w, served[0]), served[1..])
  }

  /** Sandboxes are only ever lost. */
  lemma ExpectedShrink(u: Universe, filter: Option<Metadata>, w: World, after: World)
    requires w.phase.Keys == u.Keys && Settled(u, w, after)
    ensures forall k :: k in ExpectedKeys(u, filter, after) ==> k in ExpectedKeys(u, filter, w)
  {
    forall k | k in ExpectedKeys(u, filter, after) ensures k in ExpectedKeys(u, filter, w) {
      assert IsExpectedKey(u, filter, after, k);
      assert Lost(w, k.id) ==> Lost(after, k.id);
      assert IsExpectedKey(u, filter, w, k);
    }
  }

  lemma {:induction false} ObservedWalkOnKeys(team: string, u: Universe, states: seq<ListedState>, filter: Option<Metadata>, limit: nat,
                                              w: World, cursor: Key, served: seq<PageRead>)
    requires 1 <= limit && ListedRunning in states && ListedPaused in states && ParsedFilter(filter)
    requires Spread(u) && Fits(u, cursor)
    requires WorldInv(team, u, w) && IsObservedWalk(team, u, states, filter, limit, w, cursor, served)
    ensures IsShrinkingWalk(Before, SeenKeys(team, u, filter, w, served), SqlCursor(cursor), limit, Map(CoarsePage, Map(PageOf, served)))
    decreases |served|
  {
    var r := served[0];
    ObservedPage(team, u, states, filter, limit, w, cursor, r);
    PagesTail(served);
    if r.page.next.Some? {
      var later := AfterRead(team, u, w, r);
      ObservedWalkOnKeys(team, u, states, filter, limit, later, r.page.next.value, served[1..]);
      NextSeen(team, u, filter, w, served);
    }
  }

  lemma NextSeen(team: string, u: Universe, filter: Option<Metadata>, w: World, served: seq<PageRead>)
    requires WorldInv(team, u, w) && |served| > 1
    ensures SeenKeys(team, u, filter, w, served)[1..] == SeenKeys(team, u, filter, AfterRead(team, u, w, served[0]), served[1..])
    ensures forall k :: k in SeenKeys(team, u, filter, w, served)[1] ==> k in SeenKeys(team, u, filter, w, served)[0]
  {
    var a, b := StoreWorld(team, u, w, served[0]), AfterRead(team, u, w, served[0]);
    RunKeeps(team, u, w, served[0].before);
    RunKeeps(team, u, a, served[0].between);
    var a2 := StoreWorld(team, u, b, served[1]);
    RunKeeps(team, u, b, served[1].before);
    assert served[1..][0] == served[1];
    ExpectedShrink(u, filter, b, a2);
    ExpectedShrink(u, filter, a, b);
  }

  lemma {:induction false} CoarseRows(pages: seq<Page<Listed, Key>>)
    ensures Map(CoarseOf, Rows(pages)) == Rows(Map(CoarsePage, pages))
  {
    if pages != [] {
      CoarseRows(pages[1..]);
      assert Map(CoarsePage, pages)[1..] == Map(CoarsePage, pages[1..]);
      assert Map(CoarseOf, pages[0].items + Rows(pages[1..])) == Map(CoarseOf, pages[0].items) + Map(CoarseOf, Rows(pages[1..]));
    }
  }

  /** The state of the last request's store read. */
  function LastWorld(team: string, u: Universe, w: World, served: seq<PageRead>): World
    requires served != []
    decreases |served|
  {
    if |served| == 1 then StoreWorld(team, u, w, served[0]) else LastWorld(team, u, AfterRead(team, u, w, served[0]), served[1..])
  }

  lemma {:induction false} LastSeen(team: string, u: Universe, filter: Option<Metadata>, w: World, served: seq<PageRead>)
    requires served != []
    ensures SeenKeys(team, u, filter, w, served)[|served| - 1] == ExpectedKeys(u, filter, LastWorld(team, u, w, served))
    ensures SeenKeys(team, u, filter, w, served)[0] == ExpectedKeys(u, filter, StoreWorld(team, u, w, served[0]))
    decreases |served|
  {
    if |served| > 1 {
      var later := AfterRead(team, u, w, served[0]);
      LastSeen(team, u, filter, later, served[1..]);
      var tail := SeenKeys(team, u, filter, later, served[1..]);
      assert SeenKeys(team, u, filter, w, served) == [ExpectedKeys(u, filter, StoreWorld(team, u, w, served[0]))] + tail;
      assert LastWorld(team, u, w, served) == LastWorld(team, u, later, served[1..]);
      assert tail[|served| - 2] == ExpectedKeys(u, filter, LastWorld(team, u, later, served[1..]));
    }
  }

  /**
    Walk under concurrent pauses, successful or not: with both states requested,
    the walk lists in order and at most once; what it lists was to be listed at
    its first store read, and it lists all that still is at its last.
   */
  lemma ConcurrentWalk(team: string, u: Universe, states: seq<ListedState>, filter: Option<Metadata>, limit: nat,
                       w: World, cursor: Key, served: seq<PageRead>)
    requires 1 <= limit && ListedRunning in states && ListedPaused in states && ParsedFilter(filter)
    requires Spread(u) && Fits(u, cursor)
    requires WorldInv(team, u, w) && IsObservedWalk(team, u, states, filter, limit, w, cursor, served)
    ensures
      var keys := Map(CoarseOf, Rows(Map(PageOf, served)));
      && Sorted(Before, keys)
      && (forall k :: k in keys ==> IsExpectedKey(u, filter, StoreWorld(team, u, w, served[0]), k) && Before(SqlCursor(cursor), k))
      && (forall k :: IsExpectedKey(u, filter, LastWorld(team, u, w, served), k) && Before(SqlCursor(cursor), k) ==> k in keys)
  {
    ObservedWalkOnKeys(team, u, states, filter, limit, w, cursor, served);
    BeforeOrder();
    ShrinkingWalkComplete(Before, SeenKeys(team, u, filter, w, served), SqlCursor(cursor), limit, Map(CoarsePage, Map(PageOf, served)));
    CoarseRows(Map(PageOf, served));
    LastSeen(team, u, filter, w, served);
  }

  /** If no sandbox is lost on the way, the walk lists exactly what is to be listed past the first cursor. */
  lemma ExactWalk(team: string, u: Universe, states: seq<ListedState>, filter: Option<Metadata>, limit: nat,
                  w: World, cursor: Key, served: seq<PageRead>)
    requires 1 <= limit && ListedRunning in states && ListedPaused in states && ParsedFilter(filter)
    requires Spread(u) && Fits(u, cursor)
    requires WorldInv(team, u, w) && IsObservedWalk(team, u, states, filter, limit, w, cursor, served)
    requires forall id :: id in u && Lost(LastWorld(team, u, w, served), id) ==> Lost(w, id)
    ensures Map(CoarseOf, Rows(Map(PageOf, served))) == After(Before, ExpectedKeys(u, filter, w), SqlCursor(cursor))
  {
    var keys, rest := Map(CoarseOf, Rows(Map(PageOf, served))), After(Before, ExpectedKeys(u, filter, w), SqlCursor(cursor));
    ConcurrentWalk(team, u, states, filter, limit, w, cursor, served);
    RunKeeps(team, u, w, served[0].before);
    ExpectedShrink(u, filter, w, StoreWorld(team, u, w, served[0]));
    FilterMembers(Follows(Before, SqlCursor(cursor)), ExpectedKeys(u, filter, w));
    FilterPairwise(Before, Follows(Before, SqlCursor(cursor)), ExpectedKeys(u, filter, w));
    forall k ensures k in keys <==> k in rest {
      assert IsExpectedKey(u, filter, StoreWorld(team, u, w, served[0]), k) ==> k in ExpectedKeys(u, filter, StoreWorld(team, u, w, served[0]));
    }
    BeforeOrder();
    SortedUnique(Before, keys, rest);
  }

  /** From a cursor later than every start, as that of a first request, that is the whole team. */
  lemma WholeWalk(team: string, u: Universe, states: seq<ListedState>, filter: Option<Metadata>, limit: nat,
                  w: World, cursor: Key, served: seq<PageRead>)
    requires 1 <= limit && ListedRunning in states && ListedPaused in states && ParsedFilter(filter) && Spread(u)
    requires forall id :: id in u ==> Stored(u[id].startTime) < Stored(cursor.time)
    requires WorldInv(team, u, w) && IsObservedWalk(team, u, states, filter, limit, w, cursor, served)
    requires forall id :: id in u && Lost(LastWorld(team, u, w, served), id) ==> Lost(w, id)
    ensures Map(CoarseOf, Rows(Map(PageOf, served))) == ExpectedKeys(u, filter, w)
  {
    StartFits(u, cursor);
    ExactWalk(team, u, states, filter, limit, w, cursor, served);
    FilterAll(Follows(Before, SqlCursor(cursor)), ExpectedKeys(u, filter, w));
  }

  // ---------- Walks during pauses exist and end ----------

  lemma StoreReadExists(u: Universe, w: World, ids: set<SandboxId>) returns (store: seq<Sandbox>)
    requires w.phase.Keys == u.Keys && ids <= u.Keys
    ensures UniqueSandboxes(store)
    ensures forall s :: s in store <==> s.id in ids && InMemory(w.phase[s.id]) && s == InStore(s.id, u[s.id], w.phase[s.id])
    decreases |ids|
  {
    store := [];
    if ids != {} {
      var id :| id in ids;
      var rest := StoreReadExists(u, w, ids - {id});
      forall i | 0 <= i < |rest| ensures rest[i].id != id {
        assert rest[i] in rest;
      }
      store := if !InMemory(w.phase[id]) then rest else [InStore(id, u[id], w.phase[id])] + rest;
    }
  }

  lemma TableReadExists(w: World, ids: set<SandboxId>) returns (table: seq<SnapshotRow>)
    requires ids <= w.rows.Keys && forall id :: id in w.rows ==> w.rows[id].sandboxId == id
    ensures UniqueRows(table)
    ensures forall r :: r in table <==> r.sandboxId in ids && w.rows[r.sandboxId] == r
    decreases |ids|
  {
    table := [];
    if ids != {} {
      var id :| id in ids;
      var rest := TableReadExists(w, ids - {id});
      forall i | 0 <= i < |rest| ensures rest[i].sandboxId != id {
        assert rest[i] in rest;
      }
      table := [w.rows[id]] + rest;
    }
  }

  lemma WholeStoreRead(u: Universe, w: World) returns (store: seq<Sandbox>)
    requires w.phase.Keys == u.Keys
    ensures IsStoreRead(u, w, store)
  {
    store := StoreReadExists(u, w, u.Keys);
  }

  lemma WholeTableRead(w: World) returns (table: seq<SnapshotRow>)
    requires forall id :: id in w.rows ==> w.rows[id].sandboxId == id
    ensures IsTableRead(w, table)
  {
    table := TableReadExists(w, w.rows.Keys);
  }

  lemma ServedExists(team: string, u: Universe, states: seq<ListedState>, filter: Option<Metadata>, limit: nat,
                     w: World, cursor: Key, before: seq<Event>, between: seq<Event>)
    returns (r: PageRead)
    requires 1 <= limit && WorldInv(team, u, w)
    ensures IsServed(team, u, states, filter, limit, w, cursor, r) && r.before == before && r.between == between
  {
    var a := Run(team, u, w, before);
    var b := Run(team, u, a, between);
    RunKeeps(team, u, w, before);
    RunKeeps(team, u, a, between);
    var store := WholeStoreRead(u, a);
    var table := WholeTableRead(b);
    r := PageRead(before, store, between, table, ServedPage(states, team, filter, store, table, cursor, limit));
  }

  /** Whatever happens before and between the reads of each request, following next cursors ends after finitely many pages. */
  lemma {:induction false} ConcurrentWalkEnds(team: string, u: Universe, states: seq<ListedState>, filter: Option<Metadata>, limit: nat,
                                              w: World, cursor: Key, before: Key -> seq<Event>, between: Key -> seq<Event>)
    returns (served: seq<PageRead>)
    requires 1 <= limit && ListedRunning in states && ListedPaused in states && ParsedFilter(filter)
    requires WorldInv(team, u, w) && Spread(u) && Fits(u, cursor)
    ensures IsObservedWalk(team, u, states, filter, limit, w, cursor, served)
    decreases |After(Before, ExpectedKeys(u, filter, w), SqlCursor(cursor))|
  {
    var r := ServedExists(team, u, states, filter, limit, w, cursor, before(cursor), between(cursor));
    ObservedPage(team, u, states, filter, limit, w, cursor, r);
    served := [r];
    if r.page.next.Some? {
      FewerLeft(u, filter, w, StoreWorld(team, u, w, r), AfterRead(team, u, w, r), cursor, limit, r.page);
      var rest := ConcurrentWalkEnds(team, u, states, filter, limit, AfterRead(team, u, w, r), r.page.next.value, before, between);
      served := [r] + rest;
      assert served[1..] == rest;
    }
  }

  lemma FewerLeft(u: Universe, filter: Option<Metadata>, w: World, a: World, b: World, cursor: Key, limit: nat, page: Page<Listed, Key>)
    requires 1 <= limit && w.phase.Keys == u.Keys && a.phase.Keys == u.Keys && Settled(u, w, a) && Settled(u, a, b)
    requires CoarsePage(page) == PageAfter(Before, ExpectedKeys(u, filter, a), SqlCursor(cursor), limit) && page.next.Some?
    ensures |After(Before, ExpectedKeys(u, filter, b), SqlCursor(page.next.value))| < |After(Before, ExpectedKeys(u, filter, w), SqlCursor(cursor))|
  {
    BeforeOrder();
    AfterShown(Before, ExpectedKeys(u, filter, a), SqlCursor(cursor), limit);
    ExpectedShrink(u, filter, w, a);
    ExpectedShrink(u, filter, a, b);
    FewerAfter(ExpectedKeys(u, filter, a), ExpectedKeys(u, filter, w), SqlCursor(cursor));
    FewerAfter(ExpectedKeys(u, filter, b), ExpectedKeys(u, filter, a), SqlCursor(page.next.value));
  }

  lemma FewerAfter(fewer: seq<Key>, keys: seq<Key>, cursor: Key)
    requires Sorted(Before, fewer) && Sorted(Before, keys) && forall k :: k in fewer ==> k in keys
    ensures |After(Before, fewer, cursor)| <= |After(Before, keys, cursor)|
  {
    BeforeOrder();
    FilterMembers(Follows(Before, cursor), fewer);
    FilterMembers(Follows(Before, cursor), keys);
    FilterPairwise(Before, Follows(Before, cursor), fewer);
    FilterPairwise(Before, Follows(Before, cursor), keys);
    SubsetShorter(Before, After(Before, fewer, cursor), After(Before, keys, cursor));
  }

  function WholePause(id: SandboxId): seq<Event> { [BeginPause(id), UpsertRow(id), MarkReady(id), LeaveStore(id)] }

  /** The order of the reads matters: with the table read first, a sandbox paused in between is in neither read. */
  lemma TableFirstMisses(team: string, id: SandboxId, info: Info, states: seq<ListedState>, filter: Option<Metadata>)
    ensures
      var u, w := map[id := info], World(map[id := IsRunning], map[]);
      var after := Run(team, u, w, WholePause(id));
      && WorldInv(team, u, w) && IsTableRead(w, [])
      && after.phase.Keys == u.Keys && IsStoreRead(u, after, [])
      && Matching(states, team, filter, [], []) == []
  {
    var u, w0 := map[id := info], World(map[id := IsRunning], map[]);
    var es := WholePause(id);
    var w1 := Apply(team, u, w0, es[0]);
    var w2 := Apply(team, u, w1, es[1]);
    var w3 := Apply(team, u, w2, es[2]);
    var w4 := Apply(team, u, w3, es[3]);
    assert w4.phase[id] == IsPaused;
    assert Run(team, u, w0, es) == Run(team, u, w1, es[1..]);
    assert es[1..][1..] == es[2..] && Run(team, u, w1, es[1..]) == Run(team, u, w2, es[2..]);
    assert es[2..][1..] == es[3..] && Run(team, u, w2, es[2..]) == Run(team, u, w3, es[3..]);
    assert es[3..][1..] == [] && Run(team, u, w3, es[3..]) == Run(team, u, w4, []);
  }

  // ---------- The condition is needed ----------

  /** In this state, a request from the cursor of a listed item considers every item listed after it. */
  ghost predicate HandsOver(team: string, states: seq<ListedState>, store: seq<Sandbox>, table: seq<SnapshotRow>) {
    forall x, y :: x in Matching(states, team, None, store, table) && y in Matching(states, team, None, store, table) && ItemBefore(x, y) ==>
      y in ServedItems(states, team, None, store, table, x.key)
  }

  ghost predicate SeenAt(team: string, u: Universe, w: World, store: seq<Sandbox>, table: seq<SnapshotRow>) {
    WorldInv(team, u, w) && IsStoreRead(u, w, store) && IsTableRead(w, table)
  }

  ghost predicate AlwaysHandsOver(team: string, u: Universe, states: seq<ListedState>) {
    forall w, store, table :: SeenAt(team, u, w, store, table) ==> HandsOver(team, states, store, table)
  }

  /** In every state the cursors hand over without loss, if and only if the start times are spread. */
  lemma HandsOverExactly(team: string, u: Universe, states: seq<ListedState>)
    requires ListedRunning in states && ListedPaused in states
    ensures AlwaysHandsOver(team, u, states) <==> Spread(u)
  {
    if Spread(u) {
      forall w, store, table | SeenAt(team, u, w, store, table) ensures HandsOver(team, states, store, table) {
        SpreadHandsOver(team, u, states, w, store, table);
      }
    } else {
      var i, j :| i in u && j in u && TextLess(i, j) && Stored(u[i].startTime) == Stored(u[j].startTime) && Stored(u[j].startTime) != u[j].startTime;
      var store := OnlyPausedSeen(team, u, i);
      UnspreadLoses(team, u, states, i, j, store);
    }
  }

  lemma OnlyPausedSeen(team: string, u: Universe, i: SandboxId) returns (store: seq<Sandbox>)
    requires i in u
    ensures SeenAt(team, u, OnlyPaused(team, u, i), store, [OnlyPaused(team, u, i).rows[i]])
  {
    var w := OnlyPaused(team, u, i);
    store := WholeStoreRead(u, w);
    assert IsTableRead(w, [w.rows[i]]);
  }

  lemma SpreadHandsOver(team: string, u: Universe, states: seq<ListedState>, w: World, store: seq<Sandbox>, table: seq<SnapshotRow>)
    requires ListedRunning in states && ListedPaused in states && Spread(u) && SeenAt(team, u, w, store, table)
    ensures HandsOver(team, states, store, table)
  {
    var all := Matching(states, team, None, store, table);
    forall x, y | x in all && y in all && ItemBefore(x, y) ensures y in ServedItems(states, team, None, store, table, x.key) {
      SeenIsExpected(team, u, states, None, w, store, [], table, x);
      NextFits(u, x);
      PastAgrees(team, u, states, None, w, x.key, store, [], table, y);
      MatchingUnique(states, team, None, store, table);
      DifferentPositions(all, x, y);
      CoarseOrder(u, x, y);
    }
  }

  /** Everything runs but `i`, which has been paused. */
  function OnlyPaused(team: string, u: Universe, i: SandboxId): World
    requires i in u
  {
    World(map id | id in u :: if id == i then IsPaused else IsRunning,
          map[i := SnapshotRow(team, i, Stored(u[i].startTime), StoredMetadata(u[i].metadata), true)])
  }

  /** The running `j` is listed before the paused `i`, and its cursor hides it. */
  lemma UnspreadLoses(team: string, u: Universe, states: seq<ListedState>, i: SandboxId, j: SandboxId, store: seq<Sandbox>)
    requires ListedRunning in states && ListedPaused in states
    requires i in u && j in u && TextLess(i, j) && Stored(u[i].startTime) == Stored(u[j].startTime) && Stored(u[j].startTime) != u[j].startTime
    requires SeenAt(team, u, OnlyPaused(team, u, i), store, [OnlyPaused(team, u, i).rows[i]])
    ensures !HandsOver(team, states, store, [OnlyPaused(team, u, i).rows[i]])
  {
    var w := OnlyPaused(team, u, i);
    var table := [w.rows[i]];
    TextStrictTotal();
    StoredMonotone(u[i].startTime, u[j].startTime);
    var y := PausedIsSeen(team, u, states, None, w, w, store, table, Key(Stored(u[i].startTime), i));
    var x := MemoryIsSeen(u, states, None, w, store, Key(Stored(u[j].startTime), j));
    MemoryTime(u, w, states, None, store, x);
    assert ItemBefore(x, y) && Hidden(x.key, y);
    assert StoredTimes(table);
    ServedExactly(states, team, None, store, table, x.key, y);
  }

  /** Two sandboxes in one microsecond: the one listed first hides the other, which is paused before the next request. */
  lemma SharedMicrosecondMisses(team: string)
    ensures
      var states, b, a := [ListedRunning, ListedPaused], Sandbox("b", 1500, None, Running), Sandbox("a", 1200, None, Running);
      var row := SnapshotRow(team, "a", Stored(1200), map[], true);
      var first := ServedPage(states, team, None, [b, a], [], Key(5000, ""), 1);
      && first == Page([ToListed(b)], Some(ToListed(b).key))
      && RowToListed(row) in Matching(states, team, None, [b], [row])
      && ServedPage(states, team, None, [b], [row], first.next.value, 1) == Page([], None)
  {
    TwoRunning(team, Sandbox("b", 1500, None, Running), Sandbox("a", 1200, None, Running), Key(5000, ""));
    SecondIsHidden(team);
  }

  lemma TwoRunning(team: string, x: Sandbox, y: Sandbox, cursor: Key)
    requires x.state == Running && y.state == Running && y.startTime < x.startTime < cursor.time
    ensures ServedPage([ListedRunning, ListedPaused], team, None, [x, y], [], cursor, 1) == Page([ToListed(x)], Some(ToListed(x).key))
  {
    var states, list := [ListedRunning, ListedPaused], [ToListed(x), ToListed(y)];
    FilterAll(HasState(Running), [x, y]);
    FilterNone(HasState(Pausing), [x, y]);
    assert Map(ToListed, [x, y]) == list;
    FilterAll(MatchesFilter(None), list);
    FilterAll(PastCursor(cursor), list);
    assert RunningPart(states, None, [x, y], cursor) == list;
    assert PausingPart(states, None, [x, y], cursor) == [] && PausedAfter(states, team, None, [x, y], [], cursor) == [];
    assert ServedItems(states, team, None, [x, y], [], cursor) == list;
    SortTwo(ToListed(x), ToListed(y));
  }

  lemma SortTwo(x: Listed, y: Listed)
    requires ItemBefore(x, y)
    ensures Sort(ItemBefore, [x, y]) == [x, y]
  {
    assert [x, y][1..] == [y] && Sort(ItemBefore, [y]) == [y];
  }

  lemma SecondIsHidden(team: string)
    ensures
      var states, b, row := [ListedRunning, ListedPaused], Sandbox("b", 1500, None, Running), SnapshotRow(team, "a", Stored(1200), map[], true);
      && RowToListed(row) in Matching(states, team, None, [b], [row])
      && ServedPage(states, team, None, [b], [row], Key(1500, "b"), 1) == Page([], None)
  {
    var states, b, row := [ListedRunning, ListedPaused], Sandbox("b", 1500, None, Running), SnapshotRow(team, "a", Stored(1200), map[], true);
    var cursor := Key(1500, "b");
    FilterAll(HasState(Running), [b]);
    FilterNone(HasState(Pausing), [b]);
    assert ExcludedIds([b]) == ["b"];
    FilterAll(RowMatches(team, None), [row]);
    FilterAll(NotExcluded(["b"]), [row]);
    var paused := PausedListed(states, team, None, [b], [row]);
    assert paused == [RowToListed(row)];
    assert !TextLess("b", "a") && !TextLess("b", "b");
    FilterNone(PastCursor(SqlCursor(cursor)), paused);
    assert Map(ToListed, [b]) == [ToListed(b)];
    FilterAll(MatchesFilter(None), [ToListed(b)]);
    FilterNone(PastCursor(cursor), [ToListed(b)]);
    assert RunningPart(states, None, [b], cursor) == [];
    assert PausingPart(states, None, [b], cursor) == [] && PausedAfter(states, team, None, [b], [row], cursor) == [];
  }

  /** When the upsert fails for a sandbox with an older row, that row stands for it again: the walk lists it at both its starts. */
  lemma FailedUpsertListsTwice(team: string)
    ensures
      var states, x, t := [ListedRunning, ListedPaused], Sandbox("s", 5000, None, Running), Sandbox("t", 3000, None, Running);
      var row := SnapshotRow(team, "s", 1000, map[], true);
      && ServedPage(states, team, None, [x, t], [], Key(9000, ""), 1) == Page([ToListed(x)], Some(ToListed(x).key))
      && ServedPage(states, team, None, [], [row], ToListed(t).key, 1) == Page([RowToListed(row)], None)
      && ToListed(x).key.id == RowToListed(row).key.id
  {
    TwoRunning(team, Sandbox("s", 5000, None, Running), Sandbox("t", 3000, None, Running), Key(9000, ""));
    OneRow(team, SnapshotRow(team, "s", 1000, map[], true), Key(3000, "t"));
  }

  lemma OneRow(team: string, row: SnapshotRow, cursor: Key)
    requires row.teamId == team && row.hasReadyBuild && row.startedAt < Stored(cursor.time)
    ensures ServedPage([ListedRunning, ListedPaused], team, None, [], [row], cursor, 1) == Page([RowToListed(row)], None)
  {
    var states := [ListedRunning, ListedPaused];
    FilterAll(RowMatches(team, None), [row]);
    assert ExcludedIds([]) == [];
    FilterAll(NotExcluded([]), [row]);
    var paused := PausedListed(states, team, None, [], [row]);
    assert paused == [RowToListed(row)];
    FilterAll(PastCursor(SqlCursor(cursor)), paused);
    assert RunningPart(states, None, [], cursor) == [] && PausingPart(states, None, [], cursor) == [];
    assert ServedItems(states, team, None, [], [row], cursor) == [RowToListed(row)];
    assert Sort(ItemBefore, [RowToListed(row)]) == [RowToListed(row)];
  }
}
