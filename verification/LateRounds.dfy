/**
  Rounds of clusters that have already been closed and dropped. Such a cluster
  keeps its instance map and a caller may still hold it, or its ticker may fire
  once more, so a round can run on it: when that keeps the law of connections,
  and when it does not.
 */
module LateRounds {
  import opened Common
  import opened Instances
  import opened InstancePool
  import opened ClusterLedger

  /** The pooled clusters, and the pools of those closed and dropped, oldest first. */
  datatype Full = Full(world: World, detached: map<string, seq<Pool>>)

  datatype FullEvent =
    | Pooled(event: Event)
    | Late(id: string, k: nat, items: seq<Item>, creations: seq<Creation>)

  ghost predicate Valid(e: FullEvent) {
    match e
    case Pooled(event) => WellFormed(event)
    case Late(_, _, items, creations) => |items| == |creations|
  }

  function PoolsOf(detached: map<string, seq<Pool>>, id: string): seq<Pool> {
    if id in detached then detached[id] else []
  }

  /** Clusters that leave the pool take their instances with them. */
  function Detach(detached: map<string, seq<Pool>>, before: map<string, Pool>, after: map<string, Pool>): map<string, seq<Pool>> {
    map id | id in detached.Keys + before.Keys :: PoolsOf(detached, id) + if id in before && id !in after then [before[id]] else []
  }

  predicate IsDetached(f: Full, id: string, k: nat) { id in f.detached && k < |f.detached[id]| }

  function LateNet(f: Full, id: string, k: nat): Net
    requires IsDetached(f, id, k)
  {
    Net(f.detached[id][k], f.world.closes)
  }

  ghost function FullStep(f: Full, e: FullEvent): Full
    requires Valid(e)
  {
    match e
    case Pooled(event) =>
      var after := Step(f.world, event);
      Full(after, Detach(f.detached, f.world.clusters, after.clusters))
    case Late(id, k, items, creations) =>
      if !IsDetached(f, id, k) then f
      else
        var net := Pass(LateNet(f, id, k), items, creations);
        Full(f.world.(closes := net.closes), f.detached[id := f.detached[id][k := net.pool]])
  }

  ghost predicate UnownedIn(w: World, pool: Pool) {
    && Keyed(pool) && OwnsApart(Net(pool, w.closes))
    && (forall n :: n in pool ==> !Owned(w, pool[n].conn))
  }

  /** Each opened connection is open and owned by one pooled instance, or was closed exactly once; detached instances own none. */
  ghost predicate FullConserved(f: Full) {
    Conserved(f.world) && forall id, k: nat :: IsDetached(f, id, k) ==> UnownedIn(f.world, f.detached[id][k])
  }

  // ---------- Late rounds ----------

  /** The source still lists every instance of the closed cluster, and no insertion succeeds. */
  predicate Harmless(pool: Pool, items: seq<Item>, creations: seq<Creation>)
    requires |items| == |creations|
  {
    && (forall n :: n in pool ==> HasIdentifier(items, pool[n].uniqueIdentifier))
    && (forall i :: 0 <= i < |items| ==> items[i].nodeId in pool || !creations[i].Created?)
  }

  /** Without a successful insertion only connections that are closed at once are opened. */
  lemma {:induction false} NothingInserted(net: Net, items: seq<Item>, creations: seq<Creation>)
    requires |items| == |creations|
    requires forall i :: 0 <= i < |items| ==> items[i].nodeId in net.pool || !creations[i].Created?
    ensures Discovered(net, items, creations).pool == net.pool
    ensures |net.closes| <= |Discovered(net, items, creations).closes|
    ensures Discovered(net, items, creations).closes[..|net.closes|] == net.closes
    ensures forall c :: |net.closes| <= c < |Discovered(net, items, creations).closes| ==> Discovered(net, items, creations).closes[c] == 1
    decreases |items|
  {
    if items != [] {
      var next := if items[0].nodeId in net.pool then net else Inserted(net, items[0], creations[0]);
      assert next.pool == net.pool && next.closes[..|net.closes|] == net.closes;
      NothingInserted(next, items[1..], creations[1..]);
      var last := Discovered(next, items[1..], creations[1..]);
      assert last.closes[..|net.closes|] == last.closes[..|next.closes|][..|net.closes|];
      forall c | |net.closes| <= c < |next.closes| ensures last.closes[c] == 1 {
        assert last.closes[c] == last.closes[..|next.closes|][c];
      }
    }
  }

  /** Insertions leave members and the counts of earlier connections alone; new members hold new connections. */
  lemma {:induction false} InsertionsAppend(net: Net, items: seq<Item>, creations: seq<Creation>)
    requires |items| == |creations|
    ensures var after := Discovered(net, items, creations);
      && |net.closes| <= |after.closes| && after.closes[..|net.closes|] == net.closes
      && (forall n :: n in net.pool ==> n in after.pool && after.pool[n] == net.pool[n])
      && (forall n :: n in after.pool && n !in net.pool ==> |net.closes| <= after.pool[n].conn)
    decreases |items|
  {
    if items != [] {
      var next := if items[0].nodeId in net.pool then net else Inserted(net, items[0], creations[0]);
      assert next.closes[..|net.closes|] == net.closes;
      InsertionsAppend(next, items[1..], creations[1..]);
      var last := Discovered(next, items[1..], creations[1..]);
      assert last.closes[..|net.closes|] == last.closes[..|next.closes|][..|net.closes|];
    }
  }

  /** A successful insertion leaves an open connection with a member that the source lists. */
  lemma {:induction false} InsertedIsOpen(net: Net, items: seq<Item>, creations: seq<Creation>, i: nat) returns (n: string)
    requires |items| == |creations| && i < |items| && items[i].nodeId !in net.pool && creations[i].Created?
    ensures var after := Discovered(net, items, creations);
      && n in after.pool && n !in net.pool && HasIdentifier(items, after.pool[n].uniqueIdentifier)
      && |net.closes| <= after.pool[n].conn < |after.closes| && after.closes[after.pool[n].conn] == 0
    decreases |items|
  {
    var next := if items[0].nodeId in net.pool then net else Inserted(net, items[0], creations[0]);
    var after := Discovered(next, items[1..], creations[1..]);
    InsertionsAppend(next, items[1..], creations[1..]);
    if items[0].nodeId !in net.pool && creations[0].Created? {
      n := items[0].nodeId;
      assert after.closes[|net.closes|] == after.closes[..|next.closes|][|net.closes|];
    } else {
      n := InsertedIsOpen(next, items[1..], creations[1..], i - 1);
      var j :| 0 <= j < |items[1..]| && items[1..][j].uniqueIdentifier == after.pool[n].uniqueIdentifier;
      assert items[j + 1].uniqueIdentifier == after.pool[n].uniqueIdentifier;
    }
  }

  lemma HarmlessKeeps(f: Full, e: FullEvent)
    requires FullConserved(f) && e.Late? && Valid(e) && IsDetached(f, e.id, e.k) && Harmless(f.detached[e.id][e.k], e.items, e.creations)
    ensures FullConserved(FullStep(f, e))
  {
    var net := LateNet(f, e.id, e.k);
    var found, after := Discovered(net, e.items, e.creations), FullStep(f, e);
    NothingInserted(net, e.items, e.creations);
    assert StaleNodes(found.pool, e.items) == {};
    assert Swept(found, e.items) == found;
    assert f.detached[e.id][e.k := net.pool] == f.detached[e.id];
    assert after.detached == f.detached && after.world.clusters == f.world.clusters;
    assert forall id, n, c :: Owns(after.world, id, n, c) <==> Owns(f.world, id, n, c);
    forall c: nat ensures Owned(after.world, c) <==> Owned(f.world, c) {
    }
    forall c: nat | c < |after.world.closes| ensures after.world.closes[c] == if Owned(after.world, c) then 0 else 1 {
      if c < |net.closes| {
        assert found.closes[c] == found.closes[..|net.closes|][c];
      }
    }
  }

  /** An instance that left the source of a closed cluster has its connection closed a second time. */
  lemma StaleClosesTwice(f: Full, e: FullEvent, n: string)
    requires FullConserved(f) && e.Late? && Valid(e) && IsDetached(f, e.id, e.k)
    requires n in f.detached[e.id][e.k] && !HasIdentifier(e.items, f.detached[e.id][e.k][n].uniqueIdentifier)
    ensures f.detached[e.id][e.k][n].conn < |FullStep(f, e).world.closes|
    ensures FullStep(f, e).world.closes[f.detached[e.id][e.k][n].conn] == 2
  {
    var net := LateNet(f, e.id, e.k);
    var found, c := Discovered(net, e.items, e.creations), net.pool[n].conn;
    assert UnownedIn(f.world, net.pool);
    InsertionsAppend(net, e.items, e.creations);
    assert found.closes[c] == found.closes[..|net.closes|][c] == 1;
    assert n in StaleNodes(found.pool, e.items);
    assert HeldBy(found.pool, StaleNodes(found.pool, e.items), c);
  }

  /** An instance inserted into a closed cluster holds an open connection that no pooled instance owns. */
  lemma InsertedLeaks(f: Full, e: FullEvent, i: nat) returns (c: nat)
    requires FullConserved(f) && e.Late? && Valid(e) && IsDetached(f, e.id, e.k)
    requires i < |e.items| && e.items[i].nodeId !in f.detached[e.id][e.k] && e.creations[i].Created?
    ensures c < |FullStep(f, e).world.closes| && FullStep(f, e).world.closes[c] == 0 && !Owned(FullStep(f, e).world, c)
  {
    var net := LateNet(f, e.id, e.k);
    var found := Discovered(net, e.items, e.creations);
    assert UnownedIn(f.world, net.pool);
    DiscoveredKeeps(net, e.items, e.creations);
    var n := InsertedIsOpen(net, e.items, e.creations, i);
    c := found.pool[n].conn;
    assert !HeldBy(found.pool, StaleNodes(found.pool, e.items), c);
    var after := FullStep(f, e).world;
    assert forall id, m, x :: Owns(after, id, m, x) <==> Owns(f.world, id, m, x);
  }

  /** A late round keeps every connection accounted for if and only if the source lists every instance and no insertion succeeds. */
  lemma LateRoundExactly(f: Full, e: FullEvent)
    requires FullConserved(f) && e.Late? && Valid(e) && IsDetached(f, e.id, e.k)
    ensures FullConserved(FullStep(f, e)) <==> Harmless(f.detached[e.id][e.k], e.items, e.creations)
  {
    var pool := f.detached[e.id][e.k];
    if Harmless(pool, e.items, e.creations) {
      HarmlessKeeps(f, e);
    } else if exists n :: n in pool && !HasIdentifier(e.items, pool[n].uniqueIdentifier) {
      var n :| n in pool && !HasIdentifier(e.items, pool[n].uniqueIdentifier);
      StaleClosesTwice(f, e, n);
    } else {
      var i :| 0 <= i < |e.items| && e.items[i].nodeId !in pool && e.creations[i].Created?;
      var c := InsertedLeaks(f, e, i);
    }
  }

  // ---------- Rounds of pooled clusters beside detached ones ----------

  /** No step hands a connection that nobody owned to a pooled instance. */
  lemma StepOwnsFewer(w: World, e: Event)
    requires Conserved(w) && WellFormed(e)
    ensures |w.closes| <= |Step(w, e).closes|
    ensures forall id, n, c: nat :: c < |w.closes| && Owns(Step(w, e), id, n, c) ==> Owns(w, id, n, c)
  {
    match e
    case InstancesRound(id, items, creations) =>
      if id in w.clusters { InsertionsAppend(NetOf(w, id), items, creations); }
    case ClustersSync(rows) => InsertedClusters(w, SourceList(rows));
  }

  lemma {:induction false} InsertedClusters(w: World, source: seq<Row>)
    ensures ClustersDiscovered(w, source).closes == w.closes
    ensures forall id :: id in ClustersDiscovered(w, source).clusters ==>
              ClustersDiscovered(w, source).clusters[id] == if id in w.clusters then w.clusters[id] else map[]
    decreases |source|
  {
    if source != [] {
      InsertedClusters(ClusterInserted(w, source[0]), source[1..]);
    }
  }

  lemma StaysUnowned(w: World, e: Event, pool: Pool)
    requires Conserved(w) && WellFormed(e) && UnownedIn(w, pool)
    ensures UnownedIn(Step(w, e), pool)
  {
    StepOwnsFewer(w, e);
    var after := Step(w, e);
    forall n | n in pool ensures !Owned(after, pool[n].conn) {
      forall id, m ensures !Owns(after, id, m, pool[n].conn) {
        assert !Owns(w, id, m, pool[n].conn);
      }
    }
  }

  lemma DroppedIsUnowned(w: World, e: Event, id: string)
    requires Conserved(w) && WellFormed(e) && id in w.clusters && id !in Step(w, e).clusters
    ensures UnownedIn(Step(w, e), w.clusters[id])
  {
    NetValid(w, id);
    StepOwnsFewer(w, e);
    var pool, after := w.clusters[id], Step(w, e);
    forall n | n in pool ensures !Owned(after, pool[n].conn) {
      assert Owns(w, id, n, pool[n].conn);
      forall jd, m ensures !Owns(after, jd, m, pool[n].conn) {
        assert Owns(w, jd, m, pool[n].conn) ==> jd == id;
      }
    }
  }

  lemma PooledKeeps(f: Full, e: FullEvent)
    requires FullConserved(f) && e.Pooled? && Valid(e)
    ensures FullConserved(FullStep(f, e))
  {
    StepConserves(f.world, e.event);
    var after := FullStep(f, e);
    forall id, k: nat | IsDetached(after, id, k) ensures UnownedIn(after.world, after.detached[id][k]) {
      var earlier := PoolsOf(f.detached, id);
      if k < |earlier| {
        assert IsDetached(f, id, k);
        StaysUnowned(f.world, e.event, earlier[k]);
      } else {
        DroppedIsUnowned(f.world, e.event, id);
      }
    }
  }

  // ---------- Every run ----------

  /** A late round that breaks the law. */
  ghost predicate Harmful(f: Full, e: FullEvent)
    requires Valid(e)
  {
    e.Late? && IsDetached(f, e.id, e.k) && !Harmless(f.detached[e.id][e.k], e.items, e.creations)
  }

  ghost predicate AllValid(es: seq<FullEvent>) { forall i :: 0 <= i < |es| ==> Valid(es[i]) }

  ghost predicate NoneHarmful(f: Full, es: seq<FullEvent>)
    requires AllValid(es)
    decreases |es|
  {
    es == [] || (!Harmful(f, es[0]) && NoneHarmful(FullStep(f, es[0]), es[1..]))
  }

  ghost predicate AlwaysConserved(f: Full, es: seq<FullEvent>)
    requires AllValid(es)
    decreases |es|
  {
    FullConserved(f) && (es == [] || AlwaysConserved(FullStep(f, es[0]), es[1..]))
  }

  /** With late rounds among the rounds, the law holds all along a run if and only if none of them is harmful. */
  lemma {:induction false} RunConservesExactly(f: Full, es: seq<FullEvent>)
    requires AllValid(es) && FullConserved(f)
    ensures AlwaysConserved(f, es) <==> NoneHarmful(f, es)
    decreases |es|
  {
    if es != [] {
      var e, next := es[0], FullStep(f, es[0]);
      if e.Pooled? {
        PooledKeeps(f, e);
      } else if IsDetached(f, e.id, e.k) {
        LateRoundExactly(f, e);
      }
      if FullConserved(next) {
        RunConservesExactly(next, es[1..]);
      }
    }
  }

  // ---------- The two inputs ----------

  /** One closed cluster with one instance, or none. */
  function Closed(pool: Pool): Full { Full(World(map[], seq(|pool|, i => 1)), map["c" := [pool]]) }

  const ONE: Pool := map["node" := Member("uid", "node", 0)]

  lemma ClosedConserved()
    ensures FullConserved(Closed(ONE)) && FullConserved(Closed(map[]))
  {
  }

  /** With an empty source, the late round closes the instance's connection again. */
  lemma EmptySourceClosesTwice()
    ensures FullConserved(Closed(ONE)) && FullStep(Closed(ONE), Late("c", 0, [], [])).world.closes[..] == [2]
  {
    ClosedConserved();
    StaleClosesTwice(Closed(ONE), Late("c", 0, [], []), "node");
    assert |FullStep(Closed(ONE), Late("c", 0, [], [])).world.closes| == 1;
  }

  /** With a new item, the late round opens a connection that stays open without a pooled owner. */
  lemma NewItemLeaks(info: ServiceInfo)
    ensures var after := FullStep(Closed(map[]), Late("c", 0, [Item("uid", "node", "")], [Created(info)]));
      FullConserved(Closed(map[])) && !FullConserved(after) && after.world.clusters == map[] && after.world.closes == [0]
  {
    ClosedConserved();
    var e := Late("c", 0, [Item("uid", "node", "")], [Created(info)]);
    var after := FullStep(Closed(map[]), e);
    var c := InsertedLeaks(Closed(map[]), e, 0);
    assert Discovered(Net(map[], []), e.items, e.creations).closes == [0];
  }
}
