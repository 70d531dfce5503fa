/**
  Reconciling a cluster's instance pool with service discovery. Presence in the
  pool is decided by node ID, staleness by unique identifier.
 */
module InstancePool {
  import opened Common
  import opened Instances

  datatype Item = Item(uniqueIdentifier: string, nodeId: string, instanceId: string)

  /** How creating an instance ends: no client, a client whose first sync fails, or a synced instance. */
  datatype Creation = NoClient | FirstSyncFails | Created(info: ServiceInfo)

  // ---------- The pool as a value ----------

  datatype Member = Member(uniqueIdentifier: string, nodeId: string, conn: nat)

  type Pool = map<string, Member>

  /** A pool together with how often each connection opened so far has been closed. */
  datatype Net = Net(pool: Pool, closes: seq<nat>)

  predicate HasIdentifier(items: seq<Item>, uid: string) {
    exists i :: 0 <= i < |items| && items[i].uniqueIdentifier == uid
  }

  function Inserted(net: Net, item: Item, creation: Creation): Net {
    match creation
    case NoClient => net
    case FirstSyncFails => net.(closes := net.closes + [1])
    case Created(_) =>
      Net(net.pool[item.nodeId := Member(item.uniqueIdentifier, item.nodeId, |net.closes|)], net.closes + [0])
  }

  /** Insert every source item whose node is not pooled yet, in list order. */
  function Discovered(net: Net, items: seq<Item>, creations: seq<Creation>): Net
    requires |items| == |creations|
    decreases |items|
  {
    if items == [] then net
    else Discovered(if items[0].nodeId in net.pool then net else Inserted(net, items[0], creations[0]), items[1..], creations[1..])
  }

  ghost function StaleNodes(pool: Pool, items: seq<Item>): set<string> {
    set n | n in pool && !HasIdentifier(items, pool[n].uniqueIdentifier)
  }

  /** One of `nodes` is pooled and holds connection `c`. */
  ghost predicate HeldBy(pool: Pool, nodes: set<string>, c: nat) {
    exists n :: n in nodes && n in pool && pool[n].conn == c
  }

  /** Drop, and close, every member whose identifier left the source. */
  ghost function Swept(net: Net, items: seq<Item>): Net {
    Net(map n | n in net.pool && HasIdentifier(items, net.pool[n].uniqueIdentifier) :: net.pool[n],
        seq(|net.closes|, c requires 0 <= c < |net.closes| =>
          net.closes[c] + if HeldBy(net.pool, StaleNodes(net.pool, items), c) then 1 else 0))
  }

  ghost function AllClosed(net: Net): Net {
    net.(closes := seq(|net.closes|, c requires 0 <= c < |net.closes| =>
      net.closes[c] + if HeldBy(net.pool, net.pool.Keys, c) then 1 else 0))
  }

  ghost predicate Keyed(pool: Pool) {
    forall n :: n in pool ==> pool[n].nodeId == n
  }

  /** Distinct members hold distinct, opened connections. */
  ghost predicate OwnsApart(net: Net) {
    && (forall n :: n in net.pool ==> net.pool[n].conn < |net.closes|)
    && (forall m, n :: m in net.pool && n in net.pool && net.pool[m].conn == net.pool[n].conn ==> m == n)
  }

  // ---------- The pool as it is kept ----------

  class Connections {
    var closes: seq<nat>

    constructor ()
      ensures closes == []
    {
      closes := [];
    }

    method Open() returns (c: nat)
      modifies this
      ensures c == |old(closes)| && closes == old(closes) + [0]
    {
      c := |closes|;
      closes := closes + [0];
    }

    method Close(c: nat)
      requires c < |closes|
      modifies this
      ensures closes == old(closes)[c := old(closes)[c] + 1]
    {
      closes := closes[c := closes[c] + 1];
    }
  }

  function MemberOf(i: Instance): Member { Member(i.uniqueIdentifier, i.nodeId, i.conn) }

  /** The connection is closed again when the first sync fails. */
  method NewInstance(connections: Connections, item: Item, creation: Creation) returns (created: Option<Instance>)
    modifies connections
    ensures created.Some? <==> creation.Created?
    ensures created.Some? ==>
              && fresh(created.value)
              && MemberOf(created.value) == Member(item.uniqueIdentifier, item.nodeId, |old(connections.closes)|)
              && created.value.State() == SyncStep(Unsynced(item.instanceId), Some(creation.info))
    ensures connections.closes == old(connections.closes)
              + match creation case NoClient => [] case FirstSyncFails => [1] case Created(_) => [0]
  {
    if creation.NoClient? {
      return None;
    }
    var conn := connections.Open();
    var instance := new Instance(item.uniqueIdentifier, item.nodeId, item.instanceId, conn);
    var ok := instance.Sync(if creation.Created? then Some(creation.info) else None);
    if !ok {
      connections.Close(conn);
      return None;
    }
    return Some(instance);
  }

  class Cluster {
    const connections: Connections
    var instances: map<string, Instance>

    constructor (connections: Connections)
      ensures this.connections == connections && instances == map[]
    {
      this.connections := connections;
      instances := map[];
    }

    function View(): Pool
      reads this
    {
      map n | n in instances :: MemberOf(instances[n])
    }

    function State(): Net
      reads this, connections
    {
      Net(View(), connections.closes)
    }

    ghost predicate Valid()
      reads this, connections
    {
      Keyed(View()) && OwnsApart(State())
    }

    method PoolInsert(item: Item, creation: Creation)
      modifies this, connections
      ensures State() == Inserted(old(State()), item, creation)
      ensures !creation.Created? ==> instances == old(instances)
      ensures creation.Created? ==>
                && item.nodeId in instances && fresh(instances[item.nodeId])
                && instances == old(instances)[item.nodeId := instances[item.nodeId]]
                && instances[item.nodeId].State() == SyncStep(Unsynced(item.instanceId), Some(creation.info))
    {
      var created := NewInstance(connections, item, creation);
      if created.None? {
        return;
      }
      instances := instances[item.nodeId := created.value];
    }

    method PoolRemove(instance: Instance)
      requires instance.conn < |connections.closes|
      modifies this, connections
      ensures instances == old(instances) - {instance.nodeId}
      ensures connections.closes == old(connections.closes)[instance.conn := old(connections.closes)[instance.conn] + 1]
    {
      connections.Close(instance.conn);
      instances := instances - {instance.nodeId};
    }

    method PoolList() returns (list: seq<Instance>)
      requires Keyed(View())
      ensures Lists(list, instances)
    {
      list := [];
      var left := instances.Keys;
      while left != {}
        invariant left <= instances.Keys
        invariant forall i :: 0 <= i < |list| ==>
                    list[i].nodeId in instances && list[i].nodeId !in left && instances[list[i].nodeId] == list[i]
        invariant forall i, j :: 0 <= i < j < |list| ==> list[i].nodeId != list[j].nodeId
        invariant forall n :: n in instances && n !in left ==> exists i :: 0 <= i < |list| && list[i] == instances[n] && list[i].nodeId == n
        decreases left
      {
        var n :| n in left;
        assert View()[n].nodeId == n;
        ghost var before := list;
        list := list + [instances[n]];
        left := left - {n};
        forall m | m in instances && m !in left ensures exists i :: 0 <= i < |list| && list[i] == instances[m] && list[i].nodeId == m {
          if m == n {
            assert list[|list| - 1] == instances[m];
          } else {
            var i :| 0 <= i < |before| && before[i] == instances[m] && before[i].nodeId == m;
            assert list[i] == instances[m];
          }
        }
      }
    }

    method SourceExists(items: seq<Item>, instance: Instance) returns (found: bool)
      ensures found == HasIdentifier(items, instance.uniqueIdentifier)
    {
      for i := 0 to |items|
        invariant forall k :: 0 <= k < i ==> items[k].uniqueIdentifier != instance.uniqueIdentifier
      {
        if items[i].uniqueIdentifier == instance.uniqueIdentifier {
          return true;
        }
      }
      return false;
    }

    /** Pooled instances stay the same objects; those added are new. */
    method SyncDiscovered(items: seq<Item>, creations: seq<Creation>)
      requires |items| == |creations|
      modifies this, connections
      ensures State() == Discovered(old(State()), items, creations)
      ensures forall n :: n in instances ==> (n in old(instances) && instances[n] == old(instances)[n]) || fresh(instances[n])
    {
      for i := 0 to |items|
        invariant Discovered(State(), items[i..], creations[i..]) == Discovered(old(State()), items, creations)
        invariant forall n :: n in instances ==> (n in old(instances) && instances[n] == old(instances)[n]) || fresh(instances[n])
      {
        assert items[i..][1..] == items[i + 1..] && creations[i..][1..] == creations[i + 1..];
        if items[i].nodeId !in instances {
          PoolInsert(items[i], creations[i]);
        }
      }
    }

    /** Update the member if the source still has its identifier, otherwise close and drop it. */
    method SyncMember(instance: Instance, items: seq<Item>, outcome: Option<ServiceInfo>)
      requires instance.conn < |connections.closes|
      modifies this, connections, instance
      ensures
        if HasIdentifier(items, instance.uniqueIdentifier) then
          instances == old(instances) && connections.closes == old(connections.closes)
          && instance.State() == SyncStep(old(instance.State()), outcome)
        else
          instances == old(instances) - {instance.nodeId}
          && connections.closes == old(connections.closes)[instance.conn := old(connections.closes)[instance.conn] + 1]
          && instance.State() == old(instance.State())
    {
      var found := SourceExists(items, instance);
      if found {
        var _ := instance.Sync(outcome);
      } else {
        PoolRemove(instance);
      }
    }

    /** Members still in the source are synced once, in place; the others are closed once and dropped. */
    method SyncOutdated(items: seq<Item>, syncs: string -> Option<ServiceInfo>)
      requires Valid()
      modifies this, connections, instances.Values
      ensures State() == Swept(old(State()), items)
      ensures forall n :: n in instances ==>
                n in old(instances) && instances[n] == old(instances)[n] && instances[n].State() == SyncStep(old(instances[n].State()), syncs(n))
    {
      ghost var net, before := State(), instances;
      var list := PoolList();
      SweepLoop(list, items, syncs);
      ListedAll(list, before);
      assert before.Keys * StaleNodes(net.pool, items) == StaleNodes(net.pool, items);
      forall n | n in instances ensures instances[n].State() == SyncStep(old(instances[n].State()), syncs(n)) {
        var i :| 0 <= i < |list| && list[i] == before[n] && list[i].nodeId == n;
      }
      SweepDone(net, items, connections.closes);
      SweepView(before, net, items, instances);
    }

    method SweepLoop(list: seq<Instance>, items: seq<Item>, syncs: string -> Option<ServiceInfo>)
      requires Valid() && Entries(list, instances)
      modifies this, connections, instances.Values
      ensures instances == old(instances) - (NodesOf(list) * StaleNodes(old(View()), items))
      ensures ClosedExactly(old(State()), NodesOf(list) * StaleNodes(old(View()), items), connections.closes)
      ensures forall i :: 0 <= i < |list| && list[i].nodeId !in StaleNodes(old(View()), items) ==>
                list[i].State() == SyncStep(old(list[i].State()), syncs(list[i].nodeId))
    {
      ghost var net, before := State(), instances;
      ghost var stale := StaleNodes(net.pool, items);
      for k := 0 to |list|
        invariant instances == before - (NodesOf(list[..k]) * stale)
        invariant ClosedExactly(net, NodesOf(list[..k]) * stale, connections.closes)
        invariant forall i :: k <= i < |list| ==> list[i].State() == old(list[i].State())
        invariant forall i :: 0 <= i < k && list[i].nodeId !in stale ==> list[i].State() == SyncStep(old(list[i].State()), syncs(list[i].nodeId))
      {
        ListedStep(list, before, k);
        SyncNext(list[k], items, syncs(list[k].nodeId), net, NodesOf(list[..k]), before);
      }
      assert list[..|list|] == list;
    }

    /** One step of the sweep: `done` are the nodes handled before this one. */
    method SyncNext(instance: Instance, items: seq<Item>, outcome: Option<ServiceInfo>,
                    ghost net: Net, ghost done: set<string>, ghost before: map<string, Instance>)
      requires OwnsApart(net) && instance.nodeId in before && before[instance.nodeId] == instance && instance.nodeId !in done
      requires instance.nodeId in net.pool && net.pool[instance.nodeId] == MemberOf(instance)
      requires instances == before - (done * StaleNodes(net.pool, items))
      requires ClosedExactly(net, done * StaleNodes(net.pool, items), connections.closes)
      modifies this, connections, instance
      ensures instances == before - ((done + {instance.nodeId}) * StaleNodes(net.pool, items))
      ensures ClosedExactly(net, (done + {instance.nodeId}) * StaleNodes(net.pool, items), connections.closes)
      ensures instance.State() ==
              if instance.nodeId in StaleNodes(net.pool, items) then old(instance.State()) else SyncStep(old(instance.State()), outcome)
    {
      ghost var stale, node := StaleNodes(net.pool, items), instance.nodeId;
      CloseStep(net, done * stale, node, connections.closes);
      assert (done + {node}) * stale == done * stale + (if node in stale then {node} else {});
      SyncMember(instance, items, outcome);
    }

    method Sync(source: Option<seq<Item>>, creations: seq<Creation>, syncs: string -> Option<ServiceInfo>)
      requires Valid()
      requires source.Some? ==> |creations| == |source.value|
      modifies this, connections, instances.Values
      ensures source.None? ==> State() == old(State()) && instances == old(instances)
      ensures source.Some? ==> State() == Pass(old(State()), source.value, creations)
      ensures Valid()
    {
      if source.None? {
        return;
      }
      ghost var before := State();
      SyncDiscovered(source.value, creations);
      DiscoveredKeeps(before, source.value, creations);
      SyncOutdated(source.value, syncs);
      SweptKeeps(Discovered(before, source.value, creations), source.value);
    }

    /** Every pooled connection is closed once; the map itself is left alone. */
    method Close()
      requires Valid()
      modifies connections
      ensures State() == AllClosed(old(State()))
    {
      ghost var net := State();
      var list := PoolList();
      for k := 0 to |list|
        invariant ClosedExactly(net, NodesOf(list[..k]), connections.closes)
      {
        ListedStep(list, instances, k);
        assert net.pool[list[k].nodeId] == MemberOf(list[k]);
        CloseStep(net, NodesOf(list[..k]), list[k].nodeId, connections.closes);
        connections.Close(list[k].conn);
      }
      assert list[..|list|] == list;
      ListedAll(list, instances);
      assert connections.closes == AllClosed(net).closes;
    }

    static method Shuffle(original: seq<Instance>, draws: nat -> nat) returns (list: seq<Instance>)
      ensures multiset(list) == multiset(original) && |list| == |original|
    {
      list := original;
      var i := |list|;
      while i > 1
        invariant 0 <= i <= |list| == |original|
        invariant multiset(list) == multiset(original)
      {
        i := i - 1;
        var j := draws(i) % (i + 1);
        list := list[i := list[j]][j := list[i]];
      }
    }

    /** Copy, shuffle by swaps, scan: some matching instance is returned whenever there is one. */
    method GetRandomInstance(isMatch: (string, Health) -> bool, draws: nat -> nat) returns (found: Option<Instance>)
      requires Keyed(View())
      ensures found.Some? ==> found.value in instances.Values && isMatch(found.value.nodeId, found.value.State())
      ensures found.None? <==> forall n :: n in instances ==> !isMatch(n, instances[n].State())
    {
      var original := PoolList();
      var list := Shuffle(original, draws);
      forall x ensures x in list <==> x in original {
        assert x in multiset(list) <==> x in multiset(original);
      }
      for k := 0 to |list|
        invariant forall m :: 0 <= m < k ==> !isMatch(list[m].nodeId, list[m].State())
      {
        assert list[k] in original;
        if isMatch(list[k].nodeId, list[k].State()) {
          return Some(list[k]);
        }
      }
      forall n | n in instances ensures !isMatch(n, instances[n].State()) {
        var i :| 0 <= i < |original| && original[i] == instances[n] && original[i].nodeId == n;
        assert original[i] in list;
      }
      return None;
    }

    /** `anyModel` when the caller expects no CPU model; `compatible` says which nodes' machines fit the expected one. */
    method GetAvailableTemplateBuilder(anyModel: bool, compatible: string -> bool, draws: nat -> nat) returns (found: Option<Instance>)
      requires Keyed(View())
      ensures found.Some? ==>
                && found.value in instances.Values && found.value.status == Healthy && found.value.isBuilder
                && (anyModel || compatible(found.value.nodeId))
      ensures found.None? <==>
                forall n :: n in instances && instances[n].status == Healthy && instances[n].isBuilder ==> !anyModel && !compatible(n)
    {
      found := GetRandomInstance((n, h) => Builds(h) && (anyModel || compatible(n)), draws);
    }
  }

  /** Healthy and in the builder role. */
  predicate Builds(h: Health) { h.status == Healthy && h.isBuilder }

  /** After any syncs, an instance may build if and only if fewer than three have failed since its last report, which is healthy and names the role. */
  lemma BuildsExactly(instanceId: string, first: ServiceInfo, outcomes: seq<Option<ServiceInfo>>)
    ensures Builds(RunSyncs(SyncStep(Unsynced(instanceId), Some(first)), outcomes)) <==>
              && TrailingFailures(outcomes) < 3
              && LastReport(first, outcomes).status == Healthy
              && TemplateBuilder in LastReport(first, outcomes).roles
  {
    HealthRefinesHistory(instanceId, first, outcomes);
  }

  /** `list` holds pooled instances, none twice. */
  ghost predicate Entries(list: seq<Instance>, instances: map<string, Instance>) {
    && (forall i :: 0 <= i < |list| ==> list[i].nodeId in instances && instances[list[i].nodeId] == list[i])
    && (forall i, j :: 0 <= i < j < |list| ==> list[i].nodeId != list[j].nodeId)
  }

  /** `list` names every pooled instance once. */
  ghost predicate Lists(list: seq<Instance>, instances: map<string, Instance>) {
    && Entries(list, instances)
    && (forall n :: n in instances ==> exists i :: 0 <= i < |list| && list[i] == instances[n] && list[i].nodeId == n)
  }

  ghost function NodesOf(list: seq<Instance>): set<string> {
    set i | 0 <= i < |list| :: list[i].nodeId
  }

  lemma ListedStep(list: seq<Instance>, instances: map<string, Instance>, k: nat)
    requires Entries(list, instances) && k < |list|
    ensures list[k].nodeId in instances && instances[list[k].nodeId] == list[k]
    ensures list[k].nodeId !in NodesOf(list[..k])
    ensures NodesOf(list[..k + 1]) == NodesOf(list[..k]) + {list[k].nodeId}
  {
    assert list[..k + 1] == list[..k] + [list[k]];
    var a, b := list[..k], list[..k + 1];
    forall n | n in NodesOf(a) ensures n in NodesOf(b) {
      var i :| 0 <= i < |a| && a[i].nodeId == n;
      assert b[i].nodeId == n;
    }
    assert b[k].nodeId == list[k].nodeId;
  }

  lemma ListedAll(list: seq<Instance>, instances: map<string, Instance>)
    requires Lists(list, instances)
    ensures NodesOf(list) == instances.Keys
  {
    forall n | n in instances ensures n in NodesOf(list) {
      var i :| 0 <= i < |list| && list[i] == instances[n] && list[i].nodeId == n;
    }
  }

  /** Compared with `net`, exactly the connections held by `gone` have been closed once more. */
  ghost predicate ClosedExactly(net: Net, gone: set<string>, closes: seq<nat>) {
    && |closes| == |net.closes|
    && forall c :: 0 <= c < |closes| ==> closes[c] == net.closes[c] + if HeldBy(net.pool, gone, c) then 1 else 0
  }

  lemma SweepDone(net: Net, items: seq<Item>, closes: seq<nat>)
    requires ClosedExactly(net, StaleNodes(net.pool, items), closes)
    ensures closes == Swept(net, items).closes
  {
  }

  lemma SweepView(before: map<string, Instance>, net: Net, items: seq<Item>, after: map<string, Instance>)
    requires net.pool == map n | n in before :: MemberOf(before[n])
    requires after == before - StaleNodes(net.pool, items)
    ensures (map n | n in after :: MemberOf(after[n])) == Swept(net, items).pool
  {
  }

  lemma CloseStep(net: Net, gone: set<string>, node: string, closes: seq<nat>)
    requires OwnsApart(net) && node in net.pool && node !in gone
    requires ClosedExactly(net, gone, closes)
    ensures
      var c := net.pool[node].conn;
      c < |closes| && ClosedExactly(net, gone + {node}, closes[c := closes[c] + 1])
  {
    var conn := net.pool[node].conn;
    forall c: nat ensures HeldBy(net.pool, gone + {node}, c) <==> HeldBy(net.pool, gone, c) || conn == c {
      if HeldBy(net.pool, gone, c) {
        var n :| n in gone && n in net.pool && net.pool[n].conn == c;
        assert n in gone + {node};
      }
      if conn == c {
        assert node in gone + {node};
      }
    }
  }

  /** One synchronization round: insert the missing, then update or remove the outdated. */
  ghost function Pass(net: Net, items: seq<Item>, creations: seq<Creation>): Net
    requires |items| == |creations|
  {
    Swept(Discovered(net, items, creations), items)
  }

  lemma InsertedKeeps(net: Net, item: Item, creation: Creation)
    requires Keyed(net.pool) && OwnsApart(net)
    ensures Keyed(Inserted(net, item, creation).pool) && OwnsApart(Inserted(net, item, creation))
  {
  }

  lemma {:induction false} DiscoveredKeeps(net: Net, items: seq<Item>, creations: seq<Creation>)
    requires |items| == |creations|
    requires Keyed(net.pool) && OwnsApart(net)
    ensures Keyed(Discovered(net, items, creations).pool) && OwnsApart(Discovered(net, items, creations))
    decreases |items|
  {
    if items != [] {
      InsertedKeeps(net, items[0], creations[0]);
      DiscoveredKeeps(if items[0].nodeId in net.pool then net else Inserted(net, items[0], creations[0]), items[1..], creations[1..]);
    }
  }

  lemma SweptKeeps(net: Net, items: seq<Item>)
    requires Keyed(net.pool) && OwnsApart(net)
    ensures Keyed(Swept(net, items).pool) && OwnsApart(Swept(net, items))
  {
  }
}
