/**
  The v2 list endpoint. `GetV2Sandboxes` follows the handler: two reads, three
  partial lists, one sort, one cut. It is proved equal to the reference page,
  "sort everything that matches, skip what the cursor passed, keep `limit`",
  up to the rows that the query's coarser clock hides.
 */
module ListingPage {
  import opened Common
  import opened Keyset
  import opened Lexicographic
  import opened SandboxListing

  // ---------- Filters, as the helpers run them ----------

  method InstanceInfoToPaginated(infos: seq<Sandbox>) returns (sandboxes: array<Listed>)
    ensures fresh(sandboxes)
    ensures sandboxes[..] == Map(ToListed, infos)
  {
    sandboxes := new Listed[|infos|](i requires 0 <= i < |infos| => ToListed(infos[i]));
  }

  method MatchesAll(metadata: Metadata, wanted: Metadata) returns (matchesAll: bool)
    ensures matchesAll == MetadataIncludes(metadata, wanted)
  {
    matchesAll := true;
    var keys := wanted.Keys;
    while keys != {}
      invariant keys <= wanted.Keys
      invariant forall k :: k in wanted && k !in keys ==> k in metadata && metadata[k] == wanted[k]
      decreases keys
    {
      var key :| key in keys;
      if key !in metadata || metadata[key] != wanted[key] {
        return false;
      }
      keys := keys - {key};
    }
  }

  /** Compacts the matching sandboxes to the front of the slice and trims it. */
  method FilterSandboxesOnMetadata(sandboxes: array<Listed>, filter: Option<Metadata>) returns (n: nat)
    modifies sandboxes
    ensures n <= sandboxes.Length
    ensures sandboxes[..n] == Filter(MatchesFilter(filter), old(sandboxes[..]))
  {
    ghost var before := sandboxes[..];
    if filter.None? {
      FilterAll(MatchesFilter(filter), before);
      return sandboxes.Length;
    }
    n := 0;
    for i := 0 to sandboxes.Length
      invariant n <= i
      invariant sandboxes[..n] == Filter(MatchesFilter(filter), before[..i])
      invariant sandboxes[i..] == before[i..]
    {
      FilterSnoc(MatchesFilter(filter), before, i);
      var sbx := sandboxes[i];
      assert sbx == before[i..][0];
      if sbx.metadata.Some? {
        var matchesAll := MatchesAll(sbx.metadata.value, filter.value);
        if matchesAll {
          sandboxes[n] := sbx;
          n := n + 1;
        }
      }
      assert sandboxes[i + 1..] == before[i..][1..];
    }
    assert before[..sandboxes.Length] == before;
  }

  method FilterBasedOnCursor(sandboxes: seq<Listed>, cursor: Key) returns (kept: seq<Listed>)
    ensures kept == Filter(PastCursor(cursor), sandboxes)
  {
    kept := [];
    for i := 0 to |sandboxes|
      invariant kept == Filter(PastCursor(cursor), sandboxes[..i])
    {
      FilterSnoc(PastCursor(cursor), sandboxes, i);
      var sandbox := sandboxes[i];
      if sandbox.key.time < cursor.time
         || (sandbox.key.time == cursor.time && TextLess(cursor.id, sandbox.key.id)) {
        kept := kept + [sandbox];
      }
    }
    assert sandboxes[..|sandboxes|] == sandboxes;
  }

  method MemorySandboxes(infos: seq<Sandbox>, filter: Option<Metadata>) returns (list: seq<Listed>)
    ensures list == Filter(MatchesFilter(filter), Map(ToListed, infos))
  {
    var a := InstanceInfoToPaginated(infos);
    var n := FilterSandboxesOnMetadata(a, filter);
    list := a[..n];
  }

  // ---------- What is listed ----------

  lemma MemoryMembers(st: StoreState, filter: Option<Metadata>, store: seq<Sandbox>, x: Listed)
    ensures x in Filter(MatchesFilter(filter), Map(ToListed, Filter(HasState(st), store))) <==>
              exists s :: s in store && s.state == st && x == ToListed(s) && MatchesMetadata(filter, s.metadata)
  {
    var infos := Filter(HasState(st), store);
    FilterMembers(HasState(st), store);
    var list := Map(ToListed, infos);
    FilterMembers(MatchesFilter(filter), list);
    if x in list {
      var i :| 0 <= i < |list| && list[i] == x;
      assert infos[i] in infos;
    }
    forall s | s in store && s.state == st && x == ToListed(s) ensures x in list {
      var i :| 0 <= i < |infos| && infos[i] == s;
      assert list[i] == x;
    }
  }

  lemma PausedMembers(states: seq<ListedState>, team: string, filter: Option<Metadata>, store: seq<Sandbox>, table: seq<SnapshotRow>, x: Listed)
    requires ListedPaused in states
    ensures x in PausedListed(states, team, filter, store, table) <==>
              exists r :: r in table && RowMatches(team, filter)(r) && r.sandboxId !in ExcludedIds(store) && x == RowToListed(r)
  {
    var matched := Filter(RowMatches(team, filter), table);
    FilterMembers(RowMatches(team, filter), table);
    var ex := ExcludedIds(store);
    FilterMembers(NotExcluded(ex), matched);
    var rows := Filter(NotExcluded(ex), matched);
    var list := Map(RowToListed, rows);
    if x in list {
      var i :| 0 <= i < |list| && list[i] == x;
      assert rows[i] in rows;
    }
    forall r | r in rows && x == RowToListed(r) ensures x in list {
      var i :| 0 <= i < |rows| && rows[i] == r;
      assert list[i] == x;
    }
  }

  /** Listed as paused from the table: the team's rows with a ready build and the requested metadata, of sandboxes the store does not hold. */
  lemma PausedListedExactly(states: seq<ListedState>, team: string, filter: Option<Metadata>, store: seq<Sandbox>, table: seq<SnapshotRow>, x: Listed)
    ensures x in PausedListed(states, team, filter, store, table) <==>
              && ListedPaused in states
              && exists r ::
                   && r in table && r.teamId == team && r.hasReadyBuild
                   && (filter.Some? ==> forall k :: k in filter.value ==> k in r.metadata && r.metadata[k] == filter.value[k])
                   && (forall s :: s in store && (s.state.Running? || s.state.Pausing?) ==> s.id != r.sandboxId)
                   && x == Listed(Key(r.startedAt, r.sandboxId), ListedPaused, Some(r.metadata))
  {
    if ListedPaused in states {
      PausedMembers(states, team, filter, store, table, x);
      ExcludedAre(store);
    }
  }

  /** Listed from memory: the running sandboxes as running, the pausing ones as paused, with the requested metadata. */
  lemma MemoryListedExactly(states: seq<ListedState>, filter: Option<Metadata>, store: seq<Sandbox>, x: Listed)
    ensures x in RunningListed(states, filter, store) <==>
              && ListedRunning in states
              && exists s ::
                   && s in store && s.state == Running && x == Listed(Key(s.startTime, s.id), ListedRunning, s.metadata)
                   && (filter.Some? ==> s.metadata.Some?)
                   && (filter.Some? ==> forall k :: k in filter.value ==> k in s.metadata.value && s.metadata.value[k] == filter.value[k])
    ensures x in PausingListed(states, filter, store) <==>
              && ListedPaused in states
              && exists s ::
                   && s in store && s.state == Pausing && x == Listed(Key(s.startTime, s.id), ListedPaused, s.metadata)
                   && (filter.Some? ==> s.metadata.Some?)
                   && (filter.Some? ==> forall k :: k in filter.value ==> k in s.metadata.value && s.metadata.value[k] == filter.value[k])
  {
    MemoryMembers(Running, filter, store, x);
    MemoryMembers(Pausing, filter, store, x);
  }

  // ---------- No sandbox is listed twice ----------

  predicate DifferentSandboxes(a: Sandbox, b: Sandbox) { a.id != b.id }

  predicate DifferentListed(a: Listed, b: Listed) { a.key.id != b.key.id }

  lemma MemoryUnique(st: StoreState, filter: Option<Metadata>, store: seq<Sandbox>)
    requires UniqueSandboxes(store)
    ensures Pairwise(DifferentListed, Filter(MatchesFilter(filter), Map(ToListed, Filter(HasState(st), store))))
    ensures forall x :: x in Filter(MatchesFilter(filter), Map(ToListed, Filter(HasState(st), store))) ==>
              exists s :: s in store && s.state == st && x == ToListed(s)
  {
    assert Pairwise(DifferentSandboxes, store);
    var infos := Filter(HasState(st), store);
    FilterPairwise(DifferentSandboxes, HasState(st), store);
    FilterMembers(HasState(st), store);
    var list := Map(ToListed, infos);
    assert Pairwise(DifferentListed, list);
    FilterPairwise(DifferentListed, MatchesFilter(filter), list);
    FilterMembers(MatchesFilter(filter), list);
    forall x | x in Filter(MatchesFilter(filter), list) ensures exists s :: s in store && s.state == st && x == ToListed(s) {
      assert x in list;
      var i :| 0 <= i < |infos| && list[i] == x;
      assert infos[i] in store && infos[i].state == st && x == ToListed(infos[i]);
    }
  }

  lemma ExcludedAre(store: seq<Sandbox>)
    ensures forall s :: s in store && (s.state.Running? || s.state.Pausing?) ==> s.id in ExcludedIds(store)
    ensures forall id :: id in ExcludedIds(store) ==> exists s :: s in store && s.id == id && (s.state.Running? || s.state.Pausing?)
  {
    var running, pausing := Filter(HasState(Running), store), Filter(HasState(Pausing), store);
    FilterMembers(HasState(Running), store);
    FilterMembers(HasState(Pausing), store);
    var ids1, ids2 := Map((s: Sandbox) => s.id, running), Map((s: Sandbox) => s.id, pausing);
    assert ExcludedIds(store) == ids1 + ids2;
    forall s | s in store && (s.state.Running? || s.state.Pausing?) ensures s.id in ExcludedIds(store) {
      if s.state.Running? {
        var i :| 0 <= i < |running| && running[i] == s;
        assert ids1[i] == s.id;
      } else {
        var i :| 0 <= i < |pausing| && pausing[i] == s;
        assert ids2[i] == s.id;
      }
    }
    forall id | id in ExcludedIds(store)
      ensures exists s :: s in store && s.id == id && (s.state.Running? || s.state.Pausing?) {
      if id in ids1 {
        var i :| 0 <= i < |ids1| && ids1[i] == id;
        assert running[i] in store;
      } else {
        var i :| 0 <= i < |ids2| && ids2[i] == id;
        assert pausing[i] in store;
      }
    }
  }

  lemma PausedUnique(states: seq<ListedState>, team: string, filter: Option<Metadata>, store: seq<Sandbox>, table: seq<SnapshotRow>)
    requires UniqueRows(table)
    ensures Pairwise(DifferentListed, PausedListed(states, team, filter, store, table))
    ensures forall x :: x in PausedListed(states, team, filter, store, table) ==> x.key.id !in ExcludedIds(store)
  {
    if ListedPaused in states {
      var ex := ExcludedIds(store);
      var matched := Filter(RowMatches(team, filter), table);
      FilterUniqueRows(RowMatches(team, filter), table);
      FilterUniqueRows(NotExcluded(ex), matched);
      FilterMembers(NotExcluded(ex), matched);
      var rows := Filter(NotExcluded(ex), matched);
      assert forall i :: 0 <= i < |rows| ==> rows[i] in rows;
    }
  }

  lemma MatchingUnique(states: seq<ListedState>, team: string, filter: Option<Metadata>, store: seq<Sandbox>, table: seq<SnapshotRow>)
    requires UniqueSandboxes(store) && UniqueRows(table)
    ensures Pairwise(DifferentListed, Matching(states, team, filter, store, table))
  {
    var a := PausedListed(states, team, filter, store, table);
    var r, g := RunningListed(states, filter, store), PausingListed(states, filter, store);
    PausedUnique(states, team, filter, store, table);
    MemoryUnique(Running, filter, store);
    MemoryUnique(Pausing, filter, store);
    ExcludedAre(store);
    forall x, y | x in r && y in g ensures x.key.id != y.key.id {
      var s :| s in store && s.state.Running? && x == ToListed(s);
      var t :| t in store && t.state.Pausing? && y == ToListed(t);
      var i :| 0 <= i < |store| && store[i] == s;
      var j :| 0 <= j < |store| && store[j] == t;
    }
    PairwiseConcat(r, g);
    forall x, y | x in a && y in r + g ensures x.key.id != y.key.id {
    }
    PairwiseConcat(a, r + g);
  }

  lemma PairwiseConcat(a: seq<Listed>, b: seq<Listed>)
    requires Pairwise(DifferentListed, a) && Pairwise(DifferentListed, b)
    requires forall x, y :: x in a && y in b ==> x.key.id != y.key.id
    ensures Pairwise(DifferentListed, a + b)
  {
    var s := a + b;
    forall i, j | 0 <= i < j < |s| ensures DifferentListed(s[i], s[j]) {
      if i < |a| <= j {
        assert s[i] in a && s[j] in b;
      }
    }
  }

  lemma ListedComparable(list: seq<Listed>)
    requires Pairwise(DifferentListed, list)
    ensures Comparable(ItemBefore, list)
  {
    BeforeOrder();
    forall i, j | 0 <= i < j < |list| ensures ItemBefore(list[i], list[j]) || ItemBefore(list[j], list[i]) {
      assert DifferentListed(list[i], list[j]);
    }
  }

  // ---------- The merged page is the reference page ----------

  lemma FilterSwap<T>(p: T -> bool, q: T -> bool, s: seq<T>)
    ensures Filter(p, Filter(q, s)) == Filter(q, Filter(p, s))
  {
    FilterTwice(p, q, s);
    FilterTwice(q, p, s);
    FilterAgree(Both(p, q), Both(q, p), s);
  }

  /** The truncated SQL page is the top of all paused rows the request matches. */
  lemma PausedTop(states: seq<ListedState>, team: string, filter: Option<Metadata>, store: seq<Sandbox>, table: seq<SnapshotRow>,
                  cursor: Key, q: nat)
    requires ListedPaused in states
    ensures Map(RowToListed, Take(q, UnexcludedRows(table, team, filter, cursor, ExcludedIds(store))))
         == Take(q, Sort(ItemBefore, Filter(PastCursor(cursor), PausedListed(states, team, filter, store, table))))
  {
    var ex := ExcludedIds(store);
    var matched := Filter(RowMatches(team, filter), table);
    FilterSwap(NotExcluded(ex), RowPastCursor(cursor), matched);
    var rows := Filter(NotExcluded(ex), matched);
    FilterMap(PastCursor(cursor), RowPastCursor(cursor), RowToListed, rows);
    TopOfRows(Filter(RowPastCursor(cursor), rows), q);
  }

  lemma TopOfRows(rows: seq<SnapshotRow>, q: nat)
    ensures Map(RowToListed, Take(q, Sort(RowBefore, rows))) == Take(q, Sort(ItemBefore, Map(RowToListed, rows)))
  {
    MapSort(RowToListed, RowBefore, ItemBefore, rows);
    MapTake(RowToListed, q, Sort(RowBefore, rows));
  }

  /** Sorting ignores the order in which the partial lists were appended. */
  lemma SortRegroup(a: seq<Listed>, b: seq<Listed>, c: seq<Listed>)
    requires Comparable(ItemBefore, b + (a + c)) && Comparable(ItemBefore, a + b + c)
    ensures Sort(ItemBefore, a + b + c) == Sort(ItemBefore, b + (a + c))
  {
    BeforeOrder();
    SortSorts(ItemBefore, a + b + c);
    SortSorts(ItemBefore, b + (a + c));
    SortedUnique(ItemBefore, Sort(ItemBefore, a + b + c), Sort(ItemBefore, b + (a + c)));
  }

  lemma ComparableRegroup(a: seq<Listed>, b: seq<Listed>, c: seq<Listed>)
    requires Comparable(ItemBefore, b + (a + c))
    ensures Comparable(ItemBefore, a + b + c)
  {
    var s, t := a + b + c, b + (a + c);
    forall i, j | 0 <= i < j < |s| ensures ItemBefore(s[i], s[j]) || ItemBefore(s[j], s[i]) {
      var i' := if i < |a| then |b| + i else if i < |a| + |b| then i - |a| else i;
      var j' := if j < |a| then |b| + j else if j < |a| + |b| then j - |a| else j;
      assert t[i'] == s[i] && t[j'] == s[j] && i' != j';
    }
  }

  /** Skipping what the cursor passed commutes with collecting and sorting. */
  lemma FilterUnion(a: seq<Listed>, r: seq<Listed>, g: seq<Listed>, cursor: Key)
    requires Pairwise(DifferentListed, a + (r + g))
    ensures
      var p := PastCursor(cursor);
      var union := Filter(p, a) + (Filter(p, r) + Filter(p, g));
      Filter(p, Sort(ItemBefore, a + (r + g))) == Sort(ItemBefore, union) && Comparable(ItemBefore, union)
  {
    BeforeOrder();
    var p, all := PastCursor(cursor), a + (r + g);
    ListedComparable(all);
    FilterSort(ItemBefore, p, all);
    FilterComparable(ItemBefore, p, all);
    FilterConcat(p, a, r + g);
    FilterConcat(p, r, g);
  }

  /** Only the first `limit + 1` of one source are needed for a page of the sorted union. */
  lemma MergeSorted(a: seq<Listed>, r: seq<Listed>, g: seq<Listed>, b: seq<Listed>, limit: nat, top: seq<Listed>)
    requires 1 <= limit && b == r + g && Comparable(ItemBefore, a + b) && top == Take(limit + 1, Sort(ItemBefore, a))
    ensures ProcessResults(Sort(ItemBefore, r + top + g), limit) == ProcessResults(Sort(ItemBefore, a + b), limit)
  {
    TopComparable(a, b, limit + 1);
    TopPage(a, b, limit, top);
    RegroupPage(r, top, g, b, limit);
  }

  lemma RegroupPage(r: seq<Listed>, top: seq<Listed>, g: seq<Listed>, b: seq<Listed>, limit: nat)
    requires 1 <= limit && b == r + g && Comparable(ItemBefore, top + b)
    ensures ProcessResults(Sort(ItemBefore, r + top + g), limit) == ProcessResults(Sort(ItemBefore, top + b), limit)
  {
    ComparableRegroup(r, top, g);
    SortRegroup(r, top, g);
  }

  lemma TopPage(a: seq<Listed>, b: seq<Listed>, limit: nat, top: seq<Listed>)
    requires 1 <= limit && Comparable(ItemBefore, a + b) && top == Take(limit + 1, Sort(ItemBefore, a))
    ensures ProcessResults(Sort(ItemBefore, top + b), limit) == ProcessResults(Sort(ItemBefore, a + b), limit)
  {
    TopHead(a, b, limit);
    SamePage(Sort(ItemBefore, top + b), Sort(ItemBefore, a + b), limit);
  }

  lemma TopHead(a: seq<Listed>, b: seq<Listed>, limit: nat)
    requires Comparable(ItemBefore, a + b)
    ensures
      var s, t := Sort(ItemBefore, Take(limit + 1, Sort(ItemBefore, a)) + b), Sort(ItemBefore, a + b);
      Take(limit, s) == Take(limit, t) && (|s| > limit <==> |t| > limit)
  {
    BeforeOrder();
    TopMerge(ItemBefore, a, b, limit + 1, limit);
  }

  lemma TopComparable(a: seq<Listed>, b: seq<Listed>, n: nat)
    requires Comparable(ItemBefore, a + b)
    ensures Comparable(ItemBefore, Take(n, Sort(ItemBefore, a)) + b)
  {
    BeforeOrder();
    ComparableParts(ItemBefore, a, b);
    SortSorts(ItemBefore, a);
    ComparableSub(ItemBefore, a, b, Take(n, Sort(ItemBefore, a)));
  }

  lemma SamePage(s: seq<Listed>, t: seq<Listed>, limit: nat)
    requires 1 <= limit
    requires Take(limit, s) == Take(limit, t)
    requires |s| > limit <==> |t| > limit
    ensures ProcessResults(s, limit) == ProcessResults(t, limit)
  {
    if |s| > limit {
      assert s[limit - 1] == Take(limit, s)[limit - 1] == t[limit - 1];
    }
  }

  // ---------- The handler ----------

  datatype TokenParam = NoToken | InvalidToken | CursorToken(cursor: Key)

  datatype Request = Request(states: Option<seq<ListedState>>, limit: Option<int>, token: TokenParam,
                             metadata: Result<Option<Metadata>, ()>)

  datatype Response = Listing(page: Page<Listed, Key>, totalRunning: Option<nat>) | BadRequest | ServerError

  const MAX_SANDBOX_ID: string := "zzzzzzzzzzzzzzzzzzzz"

  function StatesOf(states: Option<seq<ListedState>>): seq<ListedState> {
    if states.None? then [ListedRunning, ListedPaused] else states.value
  }

  function EffectiveLimit(limit: Option<int>): int {
    var l := if limit.None? then DEFAULT_LIMIT else limit.value;
    if l > MAX_LIMIT then MAX_LIMIT else l
  }

  function CursorOf(token: TokenParam, now: int): Key
    requires !token.InvalidToken?
  {
    if token.NoToken? then Key(now, MAX_SANDBOX_ID) else token.cursor
  }

  /** The schema admits limits from 1 to 100 only. */
  predicate SchemaLimit(limit: Option<int>) { limit.Some? ==> 1 <= limit.value }

  /** What a request that leaves its parameters out asks for. */
  lemma RequestDefaults(limit: int, now: int)
    ensures StatesOf(None) == [ListedRunning, ListedPaused] && forall states :: StatesOf(Some(states)) == states
    ensures EffectiveLimit(None) == 100 && EffectiveLimit(Some(limit)) == (if limit > 100 then 100 else limit)
    ensures CursorOf(NoToken, now) == Key(now, "zzzzzzzzzzzzzzzzzzzz") && forall c :: CursorOf(CursorToken(c), now) == c
  {
  }

  method RunningIds(running: seq<Sandbox>, pausing: seq<Sandbox>) returns (ids: seq<SandboxId>)
    ensures ids == Map((s: Sandbox) => s.id, running) + Map((s: Sandbox) => s.id, pausing)
  {
    ids := [];
    for i := 0 to |running|
      invariant |ids| == i && forall k :: 0 <= k < i ==> ids[k] == running[k].id
    {
      ids := ids + [running[i].id];
    }
    for i := 0 to |pausing|
      invariant |ids| == |running| + i
      invariant forall k :: 0 <= k < |running| ==> ids[k] == running[k].id
      invariant forall k :: 0 <= k < i ==> ids[|running| + k] == pausing[k].id
    {
      ids := ids + [pausing[i].id];
    }
  }

  function RunningPart(states: seq<ListedState>, filter: Option<Metadata>, store: seq<Sandbox>, cursor: Key): seq<Listed> {
    Filter(PastCursor(cursor), RunningListed(states, filter, store))
  }

  function PausingPart(states: seq<ListedState>, filter: Option<Metadata>, store: seq<Sandbox>, cursor: Key): seq<Listed> {
    Filter(PastCursor(cursor), PausingListed(states, filter, store))
  }

  function PausedPart(states: seq<ListedState>, team: string, filter: Option<Metadata>, store: seq<Sandbox>, table: seq<SnapshotRow>,
                      cursor: Key, queryLimit: nat): seq<Listed> {
    Take(queryLimit, Sort(ItemBefore, PausedAfter(states, team, filter, store, table, cursor)))
  }

  /** Everything the request considers: paused rows by the query's cursor, sandboxes in memory by the client's. */
  function ServedItems(states: seq<ListedState>, team: string, filter: Option<Metadata>, store: seq<Sandbox>, table: seq<SnapshotRow>,
                       cursor: Key): seq<Listed> {
    PausedAfter(states, team, filter, store, table, cursor)
    + (RunningPart(states, filter, store, cursor) + PausingPart(states, filter, store, cursor))
  }

  function PausedAfter(states: seq<ListedState>, team: string, filter: Option<Metadata>, store: seq<Sandbox>, table: seq<SnapshotRow>,
                       cursor: Key): seq<Listed> {
    Filter(PastCursor(SqlCursor(cursor)), PausedListed(states, team, filter, store, table))
  }

  function ServedPage(states: seq<ListedState>, team: string, filter: Option<Metadata>, store: seq<Sandbox>, table: seq<SnapshotRow>,
                      cursor: Key, limit: nat): Page<Listed, Key>
    requires 1 <= limit
  {
    ProcessResults(Sort(ItemBefore, ServedItems(states, team, filter, store, table, cursor)), limit)
  }

  function FastPage(running: seq<Listed>, paused: seq<Listed>, pausing: seq<Listed>, limit: nat): Page<Listed, Key>
    requires 1 <= limit
  {
    ProcessResults(Sort(ItemBefore, running + paused + pausing), limit)
  }

  lemma PartsMakeThePage(team: string, states: seq<ListedState>, filter: Option<Metadata>, store: seq<Sandbox>, table: seq<SnapshotRow>,
                         cursor: Key, limit: nat, running: seq<Listed>, paused: seq<Listed>, pausing: seq<Listed>)
    requires 1 <= limit && UniqueSandboxes(store) && UniqueRows(table)
    requires running == RunningPart(states, filter, store, cursor)
    requires paused == PausedPart(states, team, filter, store, table, cursor, limit + 1)
    requires pausing == PausingPart(states, filter, store, cursor)
    ensures FastPage(running, paused, pausing, limit) == ServedPage(states, team, filter, store, table, cursor, limit)
  {
    ServedUnique(states, team, filter, store, table, cursor);
    ListedComparable(ServedItems(states, team, filter, store, table, cursor));
    MergeSorted(PausedAfter(states, team, filter, store, table, cursor), running, pausing, running + pausing, limit, paused);
  }

  lemma ServedUnique(states: seq<ListedState>, team: string, filter: Option<Metadata>, store: seq<Sandbox>, table: seq<SnapshotRow>, cursor: Key)
    requires UniqueSandboxes(store) && UniqueRows(table)
    ensures Pairwise(DifferentListed, ServedItems(states, team, filter, store, table, cursor))
    ensures ServedItems(states, team, filter, store, table, cursor)
         == PausedAfter(states, team, filter, store, table, cursor)
            + Filter(PastCursor(cursor), RunningListed(states, filter, store) + PausingListed(states, filter, store))
  {
    MatchingUnique(states, team, filter, store, table);
    var memory := RunningListed(states, filter, store) + PausingListed(states, filter, store);
    FilterConcat(PastCursor(cursor), RunningListed(states, filter, store), PausingListed(states, filter, store));
    FilterParts(PastCursor(SqlCursor(cursor)), PastCursor(cursor), PausedListed(states, team, filter, store, table), memory);
  }

  lemma FilterParts(p: Listed -> bool, q: Listed -> bool, a: seq<Listed>, b: seq<Listed>)
    requires Pairwise(DifferentListed, a + b)
    ensures Pairwise(DifferentListed, Filter(p, a) + Filter(q, b))
  {
    PairwiseParts(a, b);
    FilterPairwise(DifferentListed, p, a);
    FilterPairwise(DifferentListed, q, b);
    FilterMembers(p, a);
    FilterMembers(q, b);
    PairwiseConcat(Filter(p, a), Filter(q, b));
  }

  lemma PairwiseParts(a: seq<Listed>, b: seq<Listed>)
    requires Pairwise(DifferentListed, a + b)
    ensures Pairwise(DifferentListed, a) && Pairwise(DifferentListed, b)
    ensures forall x, y :: x in a && y in b ==> x.key.id != y.key.id
  {
    var s := a + b;
    forall i, j | 0 <= i < j < |a| ensures DifferentListed(a[i], a[j]) {
      assert DifferentListed(s[i], s[j]);
    }
    forall i, j | 0 <= i < j < |b| ensures DifferentListed(b[i], b[j]) {
      assert DifferentListed(s[|a| + i], s[|a| + j]);
    }
    forall x, y | x in a && y in b ensures x.key.id != y.key.id {
      var i :| 0 <= i < |a| && a[i] == x;
      var j :| 0 <= j < |b| && b[j] == y;
      assert DifferentListed(s[i], s[|a| + j]);
    }
  }

  /** A page: at most `limit` considered items, latest start first and then by ID, before all the others, and a next cursor exactly when others remain. */
  lemma ServedPageExactly(states: seq<ListedState>, team: string, filter: Option<Metadata>, store: seq<Sandbox>, table: seq<SnapshotRow>,
                          cursor: Key, limit: nat)
    requires 1 <= limit && UniqueSandboxes(store) && UniqueRows(table)
    ensures
      var page, items := ServedPage(states, team, filter, store, table, cursor, limit), ServedItems(states, team, filter, store, table, cursor);
      && |page.items| == (if |items| > limit then limit else |items|)
      && (forall x :: x in page.items ==> x in items)
      && (forall i, j :: 0 <= i < j < |page.items| ==>
            var p, q := page.items[i].key, page.items[j].key; p.time > q.time || (p.time == q.time && TextLess(p.id, q.id)))
      && (forall x, y :: x in page.items && y in items && y !in page.items ==> x.key.time > y.key.time || (x.key.time == y.key.time && TextLess(x.key.id, y.key.id)))
      && (page.next.Some? <==> |items| > limit)
      && (page.next.Some? ==> page.next.value == page.items[limit - 1].key)
  {
    var items := ServedItems(states, team, filter, store, table, cursor);
    var sorted := Sort(ItemBefore, items);
    ServedUnique(states, team, filter, store, table, cursor);
    ListedComparable(items);
    BeforeOrder();
    SortSorts(ItemBefore, items);
    SortMembers(ItemBefore, items);
    CutExactly(sorted, limit);
  }

  lemma CutExactly(sorted: seq<Listed>, limit: nat)
    requires 1 <= limit && Sorted(ItemBefore, sorted)
    ensures
      var page := ProcessResults(sorted, limit);
      && (forall x :: x in page.items ==> x in sorted)
      && (forall i, j :: 0 <= i < j < |page.items| ==>
            var p, q := page.items[i].key, page.items[j].key; p.time > q.time || (p.time == q.time && TextLess(p.id, q.id)))
      && (forall x, y :: x in page.items && y in sorted && y !in page.items ==> x.key.time > y.key.time || (x.key.time == y.key.time && TextLess(x.key.id, y.key.id)))
  {
    var page := ProcessResults(sorted, limit);
    forall i, j | 0 <= i < j < |sorted| ensures sorted[i].key.time > sorted[j].key.time
        || (sorted[i].key.time == sorted[j].key.time && TextLess(sorted[i].key.id, sorted[j].key.id)) {
      assert ItemBefore(sorted[i], sorted[j]);
    }
    assert forall k :: 0 <= k < |page.items| ==> page.items[k] == sorted[k];
    forall x, y | x in page.items && y in sorted && y !in page.items ensures x.key.time > y.key.time || (x.key.time == y.key.time && TextLess(x.key.id, y.key.id)) {
      var i :| 0 <= i < |page.items| && page.items[i] == x;
      var j :| 0 <= j < |sorted| && sorted[j] == y;
      assert i < j;
    }
  }

  // ---------- What the cut of the cursor hides ----------

  /** A row in the cursor's microsecond that the client's cursor has not passed and the query's has. */
  predicate Hidden(cursor: Key, x: Listed) {
    x.key.time == Stored(cursor.time) < cursor.time && !TextLess(cursor.id, x.key.id)
  }

  /** The query sees a row past the client's cursor if and only if the row is not hidden. */
  lemma RowSeenExactly(cursor: Key, x: Listed)
    requires Stored(x.key.time) == x.key.time
    ensures PastCursor(SqlCursor(cursor))(x) <==> PastCursor(cursor)(x) && !Hidden(cursor, x)
  {
    assert x.key.time < cursor.time ==> x.key.time <= Stored(cursor.time);
  }

  lemma RowTimes(states: seq<ListedState>, team: string, filter: Option<Metadata>, store: seq<Sandbox>, table: seq<SnapshotRow>)
    requires StoredTimes(table)
    ensures forall x :: x in PausedListed(states, team, filter, store, table) ==> Stored(x.key.time) == x.key.time
  {
    var ex, matched := ExcludedIds(store), Filter(RowMatches(team, filter), table);
    FilterMembers(RowMatches(team, filter), table);
    FilterMembers(NotExcluded(ex), matched);
    var rows := Filter(NotExcluded(ex), matched);
    forall i | 0 <= i < |rows| ensures Stored(rows[i].startedAt) == rows[i].startedAt {
      assert rows[i] in rows;
    }
  }

  ghost predicate NoneHidden(cursor: Key, paused: seq<Listed>) { forall x :: x in paused ==> !Hidden(cursor, x) }

  /** The page is the reference page of everything that matches, unless a row is hidden. */
  lemma ServedIsReference(states: seq<ListedState>, team: string, filter: Option<Metadata>, store: seq<Sandbox>, table: seq<SnapshotRow>,
                          cursor: Key, limit: nat)
    requires 1 <= limit && UniqueSandboxes(store) && UniqueRows(table) && StoredTimes(table)
    requires NoneHidden(cursor, PausedListed(states, team, filter, store, table))
    ensures ServedPage(states, team, filter, store, table, cursor, limit)
         == ReferencePage(Matching(states, team, filter, store, table), cursor, limit)
  {
    var paused := PausedListed(states, team, filter, store, table);
    RowTimes(states, team, filter, store, table);
    forall x | x in paused ensures PastCursor(SqlCursor(cursor))(x) == PastCursor(cursor)(x) {
      RowSeenExactly(cursor, x);
    }
    FilterAgree(PastCursor(SqlCursor(cursor)), PastCursor(cursor), paused);
    MatchingUnique(states, team, filter, store, table);
    FilterUnion(paused, RunningListed(states, filter, store), PausingListed(states, filter, store), cursor);
  }

  /** The request considers exactly the matching items past the cursor, less the hidden rows. */
  lemma ServedExactly(states: seq<ListedState>, team: string, filter: Option<Metadata>, store: seq<Sandbox>, table: seq<SnapshotRow>,
                      cursor: Key, x: Listed)
    requires UniqueSandboxes(store) && UniqueRows(table) && StoredTimes(table)
    ensures x in ServedItems(states, team, filter, store, table, cursor) <==>
              && x in Matching(states, team, filter, store, table) && PastCursor(cursor)(x)
              && !(x in PausedListed(states, team, filter, store, table) && Hidden(cursor, x))
  {
    var paused, memory := PausedListed(states, team, filter, store, table), RunningListed(states, filter, store) + PausingListed(states, filter, store);
    ServedUnique(states, team, filter, store, table, cursor);
    MatchingUnique(states, team, filter, store, table);
    PairwiseParts(paused, memory);
    FilterMembers(PastCursor(SqlCursor(cursor)), paused);
    FilterMembers(PastCursor(cursor), memory);
    RowTimes(states, team, filter, store, table);
    if x in paused {
      RowSeenExactly(cursor, x);
    }
  }

  method RunningOnly(states: seq<ListedState>, filter: Option<Metadata>, store: seq<Sandbox>, cursor: Key)
    returns (running: seq<Listed>, totalRunning: Option<nat>)
    ensures running == RunningPart(states, filter, store, cursor)
    ensures totalRunning == if ListedRunning in states then Some(|RunningListed(states, filter, store)|) else None
  {
    running, totalRunning := [], None;
    if ListedRunning in states {
      running := MemorySandboxes(Filter(HasState(Running), store), filter);
      totalRunning := Some(|running|);
      running := FilterBasedOnCursor(running, cursor);
    }
  }

  method PausedAndPausing(team: string, states: seq<ListedState>, filter: Option<Metadata>, store: seq<Sandbox>, table: seq<SnapshotRow>,
                          cursor: Key, queryLimit: nat)
    returns (paused: seq<Listed>, pausing: seq<Listed>)
    requires UniqueRows(table)
    ensures paused == PausedPart(states, team, filter, store, table, cursor, queryLimit)
    ensures pausing == PausingPart(states, filter, store, cursor)
  {
    paused, pausing := [], [];
    if ListedPaused in states {
      var runningSandboxes := Filter(HasState(Running), store);
      var pausingSandboxes := Filter(HasState(Pausing), store);
      var ids := RunningIds(runningSandboxes, pausingSandboxes);
      paused := GetPausedSandboxes(table, team, ids, filter, queryLimit, cursor);
      PausedTop(states, team, filter, store, table, SqlCursor(cursor), queryLimit);
      pausing := MemorySandboxes(pausingSandboxes, filter);
      pausing := FilterBasedOnCursor(pausing, cursor);
    }
  }

  method MergeParts(running: seq<Listed>, paused: seq<Listed>, pausing: seq<Listed>, limit: nat) returns (page: Page<Listed, Key>)
    requires 1 <= limit
    ensures page == FastPage(running, paused, pausing, limit)
  {
    var sandboxes := running + paused;
    sandboxes := sandboxes + pausing;
    page := ProcessResults(Sort(ItemBefore, sandboxes), limit);
  }

  method MergeLists(team: string, states: seq<ListedState>, filter: Option<Metadata>, store: seq<Sandbox>, table: seq<SnapshotRow>,
                    cursor: Key, limit: nat)
    returns (page: Page<Listed, Key>, totalRunning: Option<nat>)
    requires 1 <= limit && UniqueSandboxes(store) && UniqueRows(table)
    ensures page == ServedPage(states, team, filter, store, table, cursor, limit)
    ensures totalRunning == if ListedRunning in states then Some(|RunningListed(states, filter, store)|) else None
  {
    var running, paused, pausing;
    running, totalRunning := RunningOnly(states, filter, store, cursor);
    paused, pausing := PausedAndPausing(team, states, filter, store, table, cursor, limit + 1);
    PartsMakeThePage(team, states, filter, store, table, cursor, limit, running, paused, pausing);
    page := MergeParts(running, paused, pausing, limit);
  }

  method GetV2Sandboxes(team: string, req: Request, now: int, storeRead: Result<seq<Sandbox>, ()>, tableRead: Result<seq<SnapshotRow>, ()>)
    returns (resp: Response)
    requires SchemaLimit(req.limit)
    requires storeRead.Ok? ==> UniqueSandboxes(storeRead.value)
    requires tableRead.Ok? ==> UniqueRows(tableRead.value) && StoredTimes(tableRead.value)
    ensures resp.BadRequest? <==> req.token.InvalidToken? || req.metadata.Err?
    ensures resp.ServerError? <==>
              !resp.BadRequest? && (storeRead.Err? || (ListedPaused in StatesOf(req.states) && tableRead.Err?))
    ensures resp.Listing? ==>
              var states, filter, store := StatesOf(req.states), req.metadata.value, storeRead.value;
              var table := if tableRead.Ok? then tableRead.value else [];
              var cursor, limit := CursorOf(req.token, now), EffectiveLimit(req.limit);
              && resp.page == ServedPage(states, team, filter, store, table, cursor, limit)
              && (NoneHidden(cursor, PausedListed(states, team, filter, store, table)) ==>
                    resp.page == ReferencePage(Matching(states, team, filter, store, table), cursor, limit))
              && resp.totalRunning ==
                 if ListedRunning in states then Some(|RunningListed(states, filter, store)|) else None
  {
    var states := if req.states.None? then [ListedRunning, ListedPaused] else req.states.value;
    if req.token.InvalidToken? || req.metadata.Err? {
      return BadRequest;
    }
    if storeRead.Err? {
      return ServerError;
    }
    if ListedPaused in states && tableRead.Err? {
      return ServerError;
    }
    var table := if tableRead.Ok? then tableRead.value else [];
    var cursor := CursorOf(req.token, now);
    var page, totalRunning := MergeLists(team, states, req.metadata.value, storeRead.value, table, cursor, EffectiveLimit(req.limit));
    if NoneHidden(cursor, PausedListed(states, team, req.metadata.value, storeRead.value, table)) {
      ServedIsReference(states, team, req.metadata.value, storeRead.value, table, cursor, EffectiveLimit(req.limit));
    }
    resp := Listing(page, totalRunning);
  }
}
