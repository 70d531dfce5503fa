/**
  All clusters over one ledger of connections: in every serial run, an opened
  connection is open and owned by exactly one pooled instance, or was closed
  exactly once.
 */
module ClusterLedger {
  import opened Common
  import opened InstancePool
  import opened Instances

  const LOCAL: string := "00000000-0000-0000-0000-000000000000"

  /** The pools of the pooled clusters and, per connection opened so far, how often it was closed. */
  datatype World = World(clusters: map<string, Pool>, closes: seq<nat>)

  /** A row of the clusters table; `reachable` says whether creating a remote cluster would succeed. */
  datatype Row = Row(id: string, reachable: bool)

  ghost predicate Owns(w: World, id: string, n: string, c: nat) {
    id in w.clusters && n in w.clusters[id] && w.clusters[id][n].conn == c
  }

  ghost predicate Owned(w: World, c: nat) {
    exists id, n :: Owns(w, id, n, c)
  }

  /** The conservation law, with the facts about keys it needs. */
  ghost predicate Conserved(w: World) {
    && (forall id :: id in w.clusters ==> Keyed(w.clusters[id]))
    && (forall id, n, c: nat :: Owns(w, id, n, c) ==> c < |w.closes|)
    && (forall id, n, jd, m, c: nat :: Owns(w, id, n, c) && Owns(w, jd, m, c) ==> id == jd && n == m)
    && (forall c: nat :: c < |w.closes| ==> w.closes[c] == if Owned(w, c) then 0 else 1)
  }

  ghost function NetOf(w: World, id: string): Net
    requires id in w.clusters
  {
    Net(w.clusters[id], w.closes)
  }

  function WithNet(w: World, id: string, net: Net): World {
    World(w.clusters[id := net.pool], net.closes)
  }

  lemma NetValid(w: World, id: string)
    requires Conserved(w) && id in w.clusters
    ensures Keyed(w.clusters[id]) && OwnsApart(NetOf(w, id))
  {
    var pool := w.clusters[id];
    assert forall n :: n in pool ==> Owns(w, id, n, pool[n].conn);
  }

  // ---------- Steps inside one cluster ----------

  lemma InsertConserves(w: World, id: string, item: Item, creation: Creation)
    requires Conserved(w) && id in w.clusters && item.nodeId !in w.clusters[id]
    ensures Conserved(WithNet(w, id, Inserted(NetOf(w, id), item, creation)))
  {
    var v := WithNet(w, id, Inserted(NetOf(w, id), item, creation));
    var next := |w.closes|;
    forall jd, n, c ensures Owns(v, jd, n, c) <==> Owns(w, jd, n, c) || (creation.Created? && jd == id && n == item.nodeId && c == next) {
    }
    forall c: nat | c < next ensures Owned(v, c) <==> Owned(w, c) {
      if Owned(w, c) {
        var jd, n :| Owns(w, jd, n, c);
        assert Owns(v, jd, n, c);
      }
    }
    if creation.Created? {
      assert Owns(v, id, item.nodeId, next);
    }
  }

  lemma {:induction false} DiscoverConserves(w: World, id: string, items: seq<Item>, creations: seq<Creation>)
    requires |items| == |creations|
    requires Conserved(w) && id in w.clusters
    ensures Conserved(WithNet(w, id, Discovered(NetOf(w, id), items, creations)))
    decreases |items|
  {
    var net := NetOf(w, id);
    if items == [] {
      assert WithNet(w, id, net) == w;
    } else if items[0].nodeId in net.pool {
      DiscoverConserves(w, id, items[1..], creations[1..]);
    } else {
      InsertConserves(w, id, items[0], creations[0]);
      var v := WithNet(w, id, Inserted(net, items[0], creations[0]));
      DiscoverConserves(v, id, items[1..], creations[1..]);
      assert NetOf(v, id) == Inserted(net, items[0], creations[0]);
      assert WithNet(v, id, Discovered(NetOf(v, id), items[1..], creations[1..]))
          == WithNet(w, id, Discovered(net, items, creations));
    }
  }

  lemma SweepConserves(w: World, id: string, items: seq<Item>)
    requires Conserved(w) && id in w.clusters
    ensures Conserved(WithNet(w, id, Swept(NetOf(w, id), items)))
  {
    var net := NetOf(w, id);
    var stale := StaleNodes(net.pool, items);
    var v := WithNet(w, id, Swept(net, items));
    forall jd, n, c ensures Owns(v, jd, n, c) <==> Owns(w, jd, n, c) && !(jd == id && n in stale) {
    }
    forall c: nat | c < |w.closes| ensures v.closes[c] == if Owned(v, c) then 0 else 1 {
      if HeldBy(net.pool, stale, c) {
        var n :| n in stale && n in net.pool && net.pool[n].conn == c;
        assert Owns(w, id, n, c);
      } else if Owned(w, c) {
        var jd, n :| Owns(w, jd, n, c);
        assert Owns(v, jd, n, c);
      }
    }
  }

  // ---------- Rounds of the clusters pool ----------

  /** Clusters whose row left the table are closed and dropped. */
  ghost function Retained(w: World, keep: set<string>): World {
    World(map id | id in w.clusters && id in keep :: w.clusters[id],
          seq(|w.closes|, c requires 0 <= c < |w.closes| => w.closes[c] + if OwnedOutside(w, keep, c) then 1 else 0))
  }

  ghost predicate OwnedOutside(w: World, keep: set<string>, c: nat) {
    exists id, n :: id !in keep && Owns(w, id, n, c)
  }

  lemma RetainConserves(w: World, keep: set<string>)
    requires Conserved(w)
    ensures Conserved(Retained(w, keep))
  {
    var v := Retained(w, keep);
    forall id, n, c ensures Owns(v, id, n, c) <==> Owns(w, id, n, c) && id in keep {
    }
    forall c: nat | c < |w.closes| ensures v.closes[c] == if Owned(v, c) then 0 else 1 {
      if OwnedOutside(w, keep, c) {
        var id, n :| id !in keep && Owns(w, id, n, c);
      } else if Owned(w, c) {
        var id, n :| Owns(w, id, n, c);
        assert Owns(v, id, n, c);
      }
    }
  }

  /** A new cluster starts with an empty pool; a remote one may fail to be created, the local one may not. */
  function ClusterInserted(w: World, row: Row): World {
    if row.id in w.clusters || (row.id != LOCAL && !row.reachable) then w
    else w.(clusters := w.clusters[row.id := map[]])
  }

  function ClustersDiscovered(w: World, source: seq<Row>): World
    decreases |source|
  {
    if source == [] then w else ClustersDiscovered(ClusterInserted(w, source[0]), source[1..])
  }

  /** The table's rows, with the local cluster appended. */
  function SourceList(rows: seq<Row>): seq<Row> { rows + [Row(LOCAL, false)] }

  ghost function RowIds(source: seq<Row>): set<string> {
    set i | 0 <= i < |source| :: source[i].id
  }

  lemma ClusterInsertConserves(w: World, row: Row)
    requires Conserved(w)
    ensures Conserved(ClusterInserted(w, row))
  {
    var v := ClusterInserted(w, row);
    assert forall id, n, c :: Owns(v, id, n, c) <==> Owns(w, id, n, c);
    assert forall c :: Owned(v, c) <==> Owned(w, c);
  }

  lemma {:induction false} ClustersDiscoverConserves(w: World, source: seq<Row>)
    requires Conserved(w)
    ensures Conserved(ClustersDiscovered(w, source))
    decreases |source|
  {
    if source != [] {
      ClusterInsertConserves(w, source[0]);
      ClustersDiscoverConserves(ClusterInserted(w, source[0]), source[1..]);
    }
  }

  /** One round of the clusters pool. */
  ghost function ClustersRound(w: World, rows: seq<Row>): World {
    Retained(ClustersDiscovered(w, SourceList(rows)), RowIds(SourceList(rows)))
  }

  /** The insertion loop pools an ID exactly when it was pooled or a row of it can be created; pools that were there stay, new ones are empty. */
  lemma {:induction false} DiscoveredExactly(w: World, source: seq<Row>, id: string)
    ensures id in ClustersDiscovered(w, source).clusters <==>
              id in w.clusters || exists i :: 0 <= i < |source| && source[i].id == id && (id == LOCAL || source[i].reachable)
    ensures id in ClustersDiscovered(w, source).clusters ==>
              ClustersDiscovered(w, source).clusters[id] == if id in w.clusters then w.clusters[id] else map[]
    ensures ClustersDiscovered(w, source).closes == w.closes
    decreases |source|
  {
    if source != [] {
      DiscoveredExactly(ClusterInserted(w, source[0]), source[1..], id);
      if exists i :: 0 <= i < |source| && source[i].id == id && (id == LOCAL || source[i].reachable) {
        var i :| 0 <= i < |source| && source[i].id == id && (id == LOCAL || source[i].reachable);
        assert i > 0 ==> source[1..][i - 1] == source[i];
      }
      if exists i :: 0 <= i < |source[1..]| && source[1..][i].id == id && (id == LOCAL || source[1..][i].reachable) {
        var i :| 0 <= i < |source[1..]| && source[1..][i].id == id && (id == LOCAL || source[1..][i].reachable);
        assert source[i + 1] == source[1..][i];
      }
    }
  }

  /** After a round exactly the local cluster and the listed ones are pooled; those that stay keep their pool, the new ones start empty. */
  lemma RoundExactly(w: World, rows: seq<Row>, id: string)
    ensures id in ClustersRound(w, rows).clusters <==>
              id == LOCAL || exists i :: 0 <= i < |rows| && rows[i].id == id && (id in w.clusters || rows[i].reachable)
    ensures id in ClustersRound(w, rows).clusters ==>
              ClustersRound(w, rows).clusters[id] == if id in w.clusters then w.clusters[id] else map[]
  {
    var source := SourceList(rows);
    assert source[|rows|] == Row(LOCAL, false);
    DiscoveredExactly(w, source, id);
    assert id in RowIds(source) <==> id == LOCAL || exists i :: 0 <= i < |rows| && rows[i].id == id by {
      if id in RowIds(source) {
        var i :| 0 <= i < |source| && source[i].id == id;
        assert i < |rows| ==> rows[i] == source[i];
      }
      forall i | 0 <= i < |rows| && rows[i].id == id ensures id in RowIds(source) {
        assert source[i] == rows[i];
      }
    }
    if exists i :: 0 <= i < |rows| && rows[i].id == id && (id in w.clusters || rows[i].reachable) {
      var i :| 0 <= i < |rows| && rows[i].id == id && (id in w.clusters || rows[i].reachable);
      assert source[i] == rows[i];
    }
  }

  /** The pool has the local cluster and one for each row of the table. */
  ghost predicate Converged(w: World, rows: seq<Row>) {
    forall id :: id in w.clusters <==> id == LOCAL || exists i :: 0 <= i < |rows| && rows[i].id == id
  }

  /** One round converges if and only if every row is of the local or a pooled cluster, or of one that can be created. */
  lemma RoundConvergesExactly(w: World, rows: seq<Row>)
    ensures Converged(ClustersRound(w, rows), rows) <==>
              forall i :: 0 <= i < |rows| ==>
                rows[i].id == LOCAL || rows[i].id in w.clusters || exists j :: 0 <= j < |rows| && rows[j].id == rows[i].id && rows[j].reachable
  {
    forall id ensures id in ClustersRound(w, rows).clusters <==>
                        id == LOCAL || exists i :: 0 <= i < |rows| && rows[i].id == id && (id in w.clusters || rows[i].reachable) {
      RoundExactly(w, rows, id);
    }
    if Converged(ClustersRound(w, rows), rows) {
      forall i | 0 <= i < |rows|
        ensures rows[i].id == LOCAL || rows[i].id in w.clusters || exists j :: 0 <= j < |rows| && rows[j].id == rows[i].id && rows[j].reachable {
        assert rows[i].id in ClustersRound(w, rows).clusters;
      }
    }
  }

  /** Once converged, a round changes nothing: no cluster comes or goes and no connection is closed. */
  lemma ConvergedRoundIsStable(w: World, rows: seq<Row>)
    requires Converged(w, rows)
    ensures ClustersRound(w, rows) == w
  {
    var source := SourceList(rows);
    forall id ensures id in ClustersRound(w, rows).clusters <==> id in w.clusters {
      RoundExactly(w, rows, id);
    }
    forall id | id in w.clusters ensures ClustersRound(w, rows).clusters[id] == w.clusters[id] {
      RoundExactly(w, rows, id);
    }
    var found := ClustersDiscovered(w, source);
    DiscoveredExactly(w, source, LOCAL);
    forall c: nat | c < |w.closes| ensures !OwnedOutside(found, RowIds(source), c) {
      forall id, n | Owns(found, id, n, c) ensures id in RowIds(source) {
        DiscoveredExactly(w, source, id);
        assert id in found.clusters && found.clusters[id] != map[];
        assert id in w.clusters;
        RowOf(rows, id);
      }
    }
  }

  lemma RowOf(rows: seq<Row>, id: string)
    requires id == LOCAL || exists i :: 0 <= i < |rows| && rows[i].id == id
    ensures id in RowIds(SourceList(rows))
  {
    var source := SourceList(rows);
    if id == LOCAL {
      assert source[|rows|].id == LOCAL;
    } else {
      var i :| 0 <= i < |rows| && rows[i].id == id;
      assert source[i] == rows[i];
    }
  }

  // ---------- Runs ----------

  datatype Event =
    | InstancesRound(id: string, items: seq<Item>, creations: seq<Creation>)
    | ClustersSync(rows: seq<Row>)

  ghost predicate WellFormed(e: Event) {
    e.InstancesRound? ==> |e.items| == |e.creations|
  }

  /** A cluster is looked up among the pooled ones; a round on one that was looked up before it was dropped is a late round, treated apart. */
  ghost function Step(w: World, e: Event): World
    requires WellFormed(e)
  {
    match e
    case InstancesRound(id, items, creations) =>
      if id in w.clusters then WithNet(w, id, Pass(NetOf(w, id), items, creations)) else w
    case ClustersSync(rows) => ClustersRound(w, rows)
  }

  ghost function Run(w: World, es: seq<Event>): World
    requires forall i :: 0 <= i < |es| ==> WellFormed(es[i])
    decreases |es|
  {
    if es == [] then w else Run(Step(w, es[0]), es[1..])
  }

  lemma StepConserves(w: World, e: Event)
    requires Conserved(w) && WellFormed(e)
    ensures Conserved(Step(w, e))
  {
    match e
    case InstancesRound(id, items, creations) =>
      if id in w.clusters {
        var net := NetOf(w, id);
        DiscoverConserves(w, id, items, creations);
        var v := WithNet(w, id, Discovered(net, items, creations));
        SweepConserves(v, id, items);
        assert WithNet(v, id, Swept(NetOf(v, id), items)) == WithNet(w, id, Pass(net, items, creations));
      }
    case ClustersSync(rows) =>
      ClustersDiscoverConserves(w, SourceList(rows));
      RetainConserves(ClustersDiscovered(w, SourceList(rows)), RowIds(SourceList(rows)));
  }

  const EMPTY := World(map[], [])

  /** Connection conservation over every run. */
  lemma {:induction false} RunConserves(w: World, es: seq<Event>)
    requires forall i :: 0 <= i < |es| ==> WellFormed(es[i])
    requires Conserved(w)
    ensures Conserved(Run(w, es))
    decreases |es|
  {
    if es != [] {
      StepConserves(w, es[0]);
      RunConserves(Step(w, es[0]), es[1..]);
    }
  }

  /** Shutting the whole pool down leaves every connection ever opened closed exactly once. */
  lemma ShutdownClosesAll(es: seq<Event>)
    requires forall i :: 0 <= i < |es| ==> WellFormed(es[i])
    ensures
      var w := Run(EMPTY, es);
      forall c: nat :: c < |w.closes| ==> Retained(w, {}).closes[c] == 1
  {
    RunConserves(EMPTY, es);
    var w := Run(EMPTY, es);
    RetainConserves(w, {});
  }

  lemma {:induction false} DiscoveredClusters(w: World, source: seq<Row>)
    ensures forall id :: id in w.clusters ==> id in ClustersDiscovered(w, source).clusters && ClustersDiscovered(w, source).clusters[id] == w.clusters[id]
    ensures LOCAL in RowIds(source) ==> LOCAL in ClustersDiscovered(w, source).clusters
    decreases |source|
  {
    if source != [] {
      var v := ClusterInserted(w, source[0]);
      DiscoveredClusters(v, source[1..]);
      if LOCAL in RowIds(source) && source[0].id != LOCAL {
        var i :| 0 <= i < |source| && source[i].id == LOCAL;
        assert source[1..][i - 1].id == LOCAL;
      }
    }
  }

  /** A clusters round always leaves the local cluster pooled, with the instances it had. */
  lemma LocalSurvivesRound(w: World, rows: seq<Row>)
    ensures LOCAL in ClustersRound(w, rows).clusters
    ensures LOCAL in w.clusters ==> ClustersRound(w, rows).clusters[LOCAL] == w.clusters[LOCAL]
  {
    var source := SourceList(rows);
    assert source[|rows|].id == LOCAL;
    DiscoveredClusters(w, source);
  }

  /** Once pooled, the local cluster is pooled after every run. */
  lemma {:induction false} LocalNeverRemoved(w: World, es: seq<Event>)
    requires forall i :: 0 <= i < |es| ==> WellFormed(es[i])
    requires LOCAL in w.clusters
    ensures LOCAL in Run(w, es).clusters
    decreases |es|
  {
    if es != [] {
      if es[0].ClustersSync? {
        LocalSurvivesRound(w, es[0].rows);
      }
      LocalNeverRemoved(Step(w, es[0]), es[1..]);
    }
  }

  // ---------- The clusters pool as it is kept ----------

  class ClustersPool {
    const connections: Connections
    var clusters: map<string, Cluster>

    constructor (connections: Connections)
      ensures this.connections == connections && clusters == map[]
    {
      this.connections := connections;
      clusters := map[];
    }

    function State(): World
      reads this, connections, clusters.Values
    {
      World(map id | id in clusters :: clusters[id].View(), connections.closes)
    }

    /** Pooled clusters are different objects over one ledger. */
    ghost predicate Valid()
      reads this, clusters.Values
    {
      && (forall id :: id in clusters ==> clusters[id].connections == connections)
      && (forall id, jd :: id in clusters && jd in clusters && id != jd ==> clusters[id] != clusters[jd])
    }

    method PoolInsert(row: Row)
      requires Valid() && row.id !in clusters
      modifies this
      ensures Valid()
      ensures State() == ClusterInserted(old(State()), row)
      ensures forall id :: id in clusters ==> (id in old(clusters) && clusters[id] == old(clusters)[id]) || fresh(clusters[id])
    {
      if row.id != LOCAL && !row.reachable {
        return;
      }
      var cluster := new Cluster(connections);
      ghost var before := State();
      clusters := clusters[row.id := cluster];
      assert State().clusters == before.clusters[row.id := map[]];
    }

    /** Closing the cluster closes the connections of its instances; then the cluster leaves the map. */
    method PoolRemove(id: string)
      requires Valid() && id in clusters && Conserved(State())
      modifies this, connections
      ensures Valid()
      ensures clusters == old(clusters) - {id}
      ensures State() == Retained(old(State()), old(clusters).Keys - {id})
    {
      ghost var before := State();
      CloseOf(id);
      clusters := clusters - {id};
      CloseIsRetain(before, id);
      assert State().clusters == Retained(before, before.clusters.Keys - {id}).clusters;
    }

    method CloseOf(id: string)
      requires Valid() && id in clusters && Conserved(State())
      modifies connections
      ensures connections.closes == AllClosed(NetOf(old(State()), id)).closes
      ensures State().clusters == old(State()).clusters
    {
      ghost var before := State();
      NetValid(before, id);
      assert clusters[id].State() == NetOf(before, id);
      clusters[id].Close();
    }

    /** An on-demand round: nothing happens if the cluster is not pooled; otherwise its pool and the ledger change, and no other cluster. */
    method SyncInstances(id: string, items: seq<Item>, creations: seq<Creation>, syncs: string -> Option<ServiceInfo>)
      requires Valid() && Conserved(State()) && |items| == |creations|
      modifies connections, set jd | jd in clusters && jd == id :: clusters[jd],
               set jd, n | jd in clusters && jd == id && n in clusters[jd].instances :: clusters[jd].instances[n]
      ensures Valid() && clusters == old(clusters)
      ensures State() == Step(old(State()), InstancesRound(id, items, creations))
      ensures id in clusters ==> clusters[id].State() == Pass(old(clusters[id].State()), items, creations)
      ensures forall jd :: jd in clusters && jd != id ==> clusters[jd].View() == old(clusters[jd].View())
    {
      if id in clusters {
        NetValid(State(), id);
        SyncPooled(id, items, creations, syncs);
      }
    }

    method SyncPooled(id: string, items: seq<Item>, creations: seq<Creation>, syncs: string -> Option<ServiceInfo>)
      requires Valid() && id in clusters && clusters[id].Valid() && |items| == |creations|
      modifies connections, clusters[id], clusters[id].instances.Values
      ensures Valid() && clusters == old(clusters)
      ensures State() == WithNet(old(State()), id, Pass(NetOf(old(State()), id), items, creations))
      ensures clusters[id].State() == Pass(old(clusters[id].State()), items, creations)
      ensures forall jd :: jd in clusters && jd != id ==> clusters[jd].View() == old(clusters[jd].View())
    {
      ghost var before, net := State(), clusters[id].State();
      RoundOf(id, items, creations, syncs);
      ghost var after, pool := State(), Pass(net, items, creations).pool;
      assert clusters[id].View() == pool && after.clusters.Keys == before.clusters.Keys == clusters.Keys;
      forall jd | jd in clusters ensures after.clusters[jd] == before.clusters[id := pool][jd] {
        assert after.clusters[jd] == clusters[jd].View();
      }
    }

    /** A late round, on a cluster that a caller looked up before it was dropped: pooled clusters are not touched. */
    method SyncHeld(cluster: Cluster, items: seq<Item>, creations: seq<Creation>, syncs: string -> Option<ServiceInfo>)
      requires Valid() && cluster !in clusters.Values && cluster.connections == connections && cluster.Valid() && |items| == |creations|
      modifies connections, cluster, cluster.instances.Values
      ensures Valid() && clusters == old(clusters) && State().clusters == old(State().clusters)
      ensures cluster.State() == Pass(old(cluster.State()), items, creations)
    {
      cluster.Sync(Some(items), creations, syncs);
    }

    method RoundOf(id: string, items: seq<Item>, creations: seq<Creation>, syncs: string -> Option<ServiceInfo>)
      requires Valid() && id in clusters && clusters[id].Valid() && |items| == |creations|
      modifies connections, clusters[id], clusters[id].instances.Values
      ensures Valid() && clusters == old(clusters)
      ensures forall jd :: jd in clusters && jd != id ==> clusters[jd].View() == old(clusters[jd].View())
      ensures clusters[id].State() == Pass(old(clusters[id].State()), items, creations)
    {
      var cluster := clusters[id];
      cluster.Sync(Some(items), creations, syncs);
    }

    method SyncDiscovered(source: seq<Row>)
      requires Valid()
      modifies this
      ensures Valid()
      ensures State() == ClustersDiscovered(old(State()), source)
    {
      for i := 0 to |source|
        invariant Valid()
        invariant ClustersDiscovered(State(), source[i..]) == ClustersDiscovered(old(State()), source)
        invariant forall id :: id in clusters ==> (id in old(clusters) && clusters[id] == old(clusters)[id]) || fresh(clusters[id])
      {
        assert source[i..][1..] == source[i + 1..];
        if source[i].id !in clusters {
          PoolInsert(source[i]);
        }
      }
    }

    method SyncOutdated(source: seq<Row>)
      requires Valid() && Conserved(State())
      modifies this, connections
      ensures Valid()
      ensures State() == Retained(old(State()), RowIds(source))
    {
      ghost var before := State();
      var left := clusters.Keys;
      ghost var gone: set<string> := {};
      RetainNone(before);
      while left != {}
        invariant Valid()
        invariant clusters == old(clusters) - gone
        invariant left <= clusters.Keys && gone !! left && gone !! RowIds(source)
        invariant State() == Retained(before, before.clusters.Keys - gone)
        invariant forall id :: id in clusters && id !in left ==> id in RowIds(source)
        decreases left
      {
        var id :| id in left;
        var found := SourceExists(source, id);
        if !found {
          RemoveNext(id, before, gone);
          gone := gone + {id};
        }
        left := left - {id};
      }
      RetainSame(before, before.clusters.Keys - gone, RowIds(source));
    }

    /** One removal of the sweep, after the clusters in `gone`. */
    method RemoveNext(id: string, ghost before: World, ghost gone: set<string>)
      requires Valid() && id in clusters
      requires Conserved(before) && id in before.clusters && id !in gone
      requires State() == Retained(before, before.clusters.Keys - gone)
      modifies this, connections
      ensures Valid()
      ensures clusters == old(clusters) - {id}
      ensures State() == Retained(before, before.clusters.Keys - (gone + {id}))
    {
      RetainConserves(before, before.clusters.Keys - gone);
      RetainTwice(before, gone, id);
      PoolRemove(id);
    }

    method SourceExists(source: seq<Row>, id: string) returns (found: bool)
      ensures found == (id in RowIds(source))
    {
      for i := 0 to |source|
        invariant forall k :: 0 <= k < i ==> source[k].id != id
      {
        if source[i].id == id {
          return true;
        }
      }
      return false;
    }

    method Sync(rows: seq<Row>)
      requires Valid() && Conserved(State())
      modifies this, connections
      ensures Valid()
      ensures State() == Step(old(State()), ClustersSync(rows))
    {
      ghost var before := State();
      SyncDiscovered(SourceList(rows));
      ClustersDiscoverConserves(before, SourceList(rows));
      SyncOutdated(SourceList(rows));
    }
  }

  lemma RetainNone(w: World)
    ensures Retained(w, w.clusters.Keys - {}) == w
  {
    var v := Retained(w, w.clusters.Keys - {});
    assert v.clusters == w.clusters;
    assert v.closes == w.closes;
  }

  /** What is retained depends only on which of the present clusters are kept. */
  lemma RetainSame(w: World, keep: set<string>, also: set<string>)
    requires keep * w.clusters.Keys == also * w.clusters.Keys
    ensures Retained(w, keep) == Retained(w, also)
  {
    forall id | id in w.clusters ensures id in keep <==> id in also {
      assert id in keep * w.clusters.Keys <==> id in also * w.clusters.Keys;
    }
    forall c ensures OwnedOutside(w, keep, c) <==> OwnedOutside(w, also, c) {
      if OwnedOutside(w, keep, c) {
        var id, n :| id !in keep && Owns(w, id, n, c);
        assert id !in also;
      }
      if OwnedOutside(w, also, c) {
        var id, n :| id !in also && Owns(w, id, n, c);
        assert id !in keep;
      }
    }
    assert Retained(w, keep).clusters == Retained(w, also).clusters;
    assert Retained(w, keep).closes == Retained(w, also).closes;
  }

  /** Dropping one more cluster after `gone` is dropping them together. */
  lemma RetainTwice(w: World, gone: set<string>, id: string)
    requires Conserved(w) && id in w.clusters && id !in gone
    ensures
      var v := Retained(w, w.clusters.Keys - gone);
      Retained(v, v.clusters.Keys - {id}) == Retained(w, w.clusters.Keys - (gone + {id}))
  {
    var keep, also := w.clusters.Keys - gone, w.clusters.Keys - (gone + {id});
    var v := Retained(w, keep);
    var t := Retained(v, v.clusters.Keys - {id});
    forall jd, n, c ensures Owns(v, jd, n, c) <==> Owns(w, jd, n, c) && jd in keep {
    }
    forall c: nat | c < |w.closes| ensures t.closes[c] == Retained(w, also).closes[c] {
      if OwnedOutside(v, v.clusters.Keys - {id}, c) {
        var jd, n :| jd !in v.clusters.Keys - {id} && Owns(v, jd, n, c);
        assert Owns(w, jd, n, c) && jd !in also;
      }
      if OwnedOutside(w, keep, c) {
        var jd, n :| jd !in keep && Owns(w, jd, n, c);
        assert jd !in also;
      }
      if OwnedOutside(w, also, c) {
        var jd, n :| jd !in also && Owns(w, jd, n, c);
        if jd in keep {
          assert jd == id && Owns(v, jd, n, c);
        }
      }
    }
    assert t.clusters == Retained(w, also).clusters;
    assert t.closes == Retained(w, also).closes;
  }

  /** Closing one cluster's net is dropping that cluster from the world. */
  lemma CloseIsRetain(w: World, id: string)
    requires id in w.clusters
    ensures AllClosed(NetOf(w, id)).closes == Retained(w, w.clusters.Keys - {id}).closes
  {
    var keep := w.clusters.Keys - {id};
    forall c: nat ensures HeldBy(w.clusters[id], w.clusters[id].Keys, c) <==> OwnedOutside(w, keep, c) {
      if HeldBy(w.clusters[id], w.clusters[id].Keys, c) {
        var n :| n in w.clusters[id] && w.clusters[id][n].conn == c;
        assert Owns(w, id, n, c);
      }
    }
  }
}
