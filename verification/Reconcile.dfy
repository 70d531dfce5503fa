/** What repeated reconciliation rounds do to a pool. */
module Reconcile {
  import opened Common
  import opened InstancePool

  /** Which identifier sits on which node. */
  ghost function Ids(pool: Pool): set<(string, string)> {
    set n | n in pool :: (n, pool[n].uniqueIdentifier)
  }

  ghost function SourceIds(items: seq<Item>): set<(string, string)> {
    set i | 0 <= i < |items| :: (items[i].nodeId, items[i].uniqueIdentifier)
  }

  ghost predicate DistinctNodes(items: seq<Item>) {
    forall i, j :: 0 <= i < j < |items| ==> items[i].nodeId != items[j].nodeId
  }

  /** One unique identifier never names two nodes, in the source or in the pool. */
  ghost predicate IdentifierFixesNode(pool: Pool, items: seq<Item>) {
    && (forall i, j :: 0 <= i < |items| && 0 <= j < |items| && items[i].uniqueIdentifier == items[j].uniqueIdentifier ==>
          items[i].nodeId == items[j].nodeId)
    && (forall n, i :: n in pool && 0 <= i < |items| && pool[n].uniqueIdentifier == items[i].uniqueIdentifier ==> n == items[i].nodeId)
  }

  ghost predicate AllCreated(creations: seq<Creation>) {
    forall i :: 0 <= i < |creations| ==> creations[i].Created?
  }

  /** Some node of the source is held in the pool under another identifier. */
  ghost predicate NodeReused(pool: Pool, items: seq<Item>) {
    exists i :: 0 <= i < |items| && items[i].nodeId in pool && pool[items[i].nodeId].uniqueIdentifier != items[i].uniqueIdentifier
  }

  /** Insertion keeps what is pooled and adds only source items. */
  lemma {:induction false} DiscoveredPool(net: Net, items: seq<Item>, creations: seq<Creation>)
    requires |items| == |creations|
    ensures
      var r := Discovered(net, items, creations).pool;
      && (forall n :: n in net.pool ==> n in r && r[n] == net.pool[n])
      && (forall n :: n in r && n !in net.pool ==> (n, r[n].uniqueIdentifier) in SourceIds(items))
    decreases |items|
  {
    if items != [] {
      var next := if items[0].nodeId in net.pool then net else Inserted(net, items[0], creations[0]);
      DiscoveredPool(next, items[1..], creations[1..]);
      var r := Discovered(net, items, creations).pool;
      forall n | n in r && n !in net.pool ensures (n, r[n].uniqueIdentifier) in SourceIds(items) {
        if n in next.pool {
          assert (items[0].nodeId, items[0].uniqueIdentifier) in SourceIds(items);
        } else {
          var i :| 0 <= i < |items[1..]| && (n, r[n].uniqueIdentifier) == (items[1..][i].nodeId, items[1..][i].uniqueIdentifier);
          assert items[i + 1] == items[1..][i];
        }
      }
    }
  }

  /** When every creation succeeds, every source node ends up pooled. */
  lemma {:induction false} DiscoveredAll(net: Net, items: seq<Item>, creations: seq<Creation>)
    requires |items| == |creations| && AllCreated(creations)
    ensures forall i :: 0 <= i < |items| ==> items[i].nodeId in Discovered(net, items, creations).pool
    decreases |items|
  {
    if items != [] {
      var next := if items[0].nodeId in net.pool then net else Inserted(net, items[0], creations[0]);
      DiscoveredAll(next, items[1..], creations[1..]);
      DiscoveredPool(next, items[1..], creations[1..]);
      forall i | 0 <= i < |items| ensures items[i].nodeId in Discovered(net, items, creations).pool {
        if i > 0 {
          assert items[i] == items[1..][i - 1];
        }
      }
    }
  }

  lemma SourceNodeIdentifier(items: seq<Item>, n: string, uid: string, i: nat)
    requires DistinctNodes(items) && i < |items|
    requires (n, uid) in SourceIds(items) && items[i].nodeId == n
    ensures items[i].uniqueIdentifier == uid
  {
    var j :| 0 <= j < |items| && items[j].nodeId == n && items[j].uniqueIdentifier == uid;
    assert i == j;
  }

  /** After any round, even one with failed creations, the pool holds only what the source lists. */
  lemma PassWithinSource(net: Net, items: seq<Item>, creations: seq<Creation>)
    requires |items| == |creations| && IdentifierFixesNode(net.pool, items)
    ensures Ids(Pass(net, items, creations).pool) <= SourceIds(items)
  {
    var d := Discovered(net, items, creations);
    var r := Pass(net, items, creations).pool;
    DiscoveredPool(net, items, creations);
    forall n | n in r ensures (n, r[n].uniqueIdentifier) in SourceIds(items) {
      if n in net.pool {
        var i :| 0 <= i < |items| && items[i].uniqueIdentifier == r[n].uniqueIdentifier;
        assert n == items[i].nodeId;
      }
    }
  }

  /** One round with successful creations leaves out exactly the items whose node was held by another identifier. */
  lemma OnePass(net: Net, items: seq<Item>, creations: seq<Creation>)
    requires |items| == |creations| && AllCreated(creations) && DistinctNodes(items)
    requires IdentifierFixesNode(net.pool, items)
    ensures forall i :: 0 <= i < |items| ==>
              (items[i].nodeId in Pass(net, items, creations).pool <==>
               !(items[i].nodeId in net.pool && net.pool[items[i].nodeId].uniqueIdentifier != items[i].uniqueIdentifier))
    ensures Ids(Pass(net, items, creations).pool) <= SourceIds(items)
  {
    PassWithinSource(net, items, creations);
    DiscoveredPool(net, items, creations);
    DiscoveredAll(net, items, creations);
    var d := Discovered(net, items, creations).pool;
    var r := Pass(net, items, creations).pool;
    forall i | 0 <= i < |items|
      ensures items[i].nodeId in r <==>
              !(items[i].nodeId in net.pool && net.pool[items[i].nodeId].uniqueIdentifier != items[i].uniqueIdentifier)
    {
      var n := items[i].nodeId;
      if n in net.pool {
        if n in r {
          assert (n, r[n].uniqueIdentifier) in Ids(r);
          SourceNodeIdentifier(items, n, r[n].uniqueIdentifier, i);
        }
      } else {
        SourceNodeIdentifier(items, n, d[n].uniqueIdentifier, i);
      }
    }
  }

  lemma SameIds(pool: Pool, items: seq<Item>)
    requires DistinctNodes(items)
    requires Ids(pool) <= SourceIds(items)
    ensures Ids(pool) == SourceIds(items) <==> forall i :: 0 <= i < |items| ==> items[i].nodeId in pool
  {
    if forall i :: 0 <= i < |items| ==> items[i].nodeId in pool {
      forall p | p in SourceIds(items) ensures p in Ids(pool) {
        var i :| 0 <= i < |items| && p == (items[i].nodeId, items[i].uniqueIdentifier);
        var n := items[i].nodeId;
        assert (n, pool[n].uniqueIdentifier) in Ids(pool);
        SourceNodeIdentifier(items, n, pool[n].uniqueIdentifier, i);
      }
    }
    if Ids(pool) == SourceIds(items) {
      forall i | 0 <= i < |items| ensures items[i].nodeId in pool {
        assert (items[i].nodeId, items[i].uniqueIdentifier) in Ids(pool);
      }
    }
  }

  /** One round already converges if and only if no source node is held under another identifier. */
  lemma OnePassEnough(net: Net, items: seq<Item>, creations: seq<Creation>)
    requires |items| == |creations| && AllCreated(creations) && DistinctNodes(items)
    requires IdentifierFixesNode(net.pool, items)
    ensures Ids(Pass(net, items, creations).pool) == SourceIds(items) <==> !NodeReused(net.pool, items)
  {
    OnePass(net, items, creations);
    SameIds(Pass(net, items, creations).pool, items);
  }

  lemma WithinSource(pool: Pool, items: seq<Item>)
    requires DistinctNodes(items) && Ids(pool) <= SourceIds(items)
    requires forall i, j :: 0 <= i < |items| && 0 <= j < |items| && items[i].uniqueIdentifier == items[j].uniqueIdentifier ==>
               items[i].nodeId == items[j].nodeId
    ensures IdentifierFixesNode(pool, items) && !NodeReused(pool, items)
    ensures StaleNodes(pool, items) == {}
  {
    forall n | n in pool ensures exists i :: 0 <= i < |items| && items[i].nodeId == n && items[i].uniqueIdentifier == pool[n].uniqueIdentifier {
      assert (n, pool[n].uniqueIdentifier) in Ids(pool);
    }
    forall i | 0 <= i < |items| && items[i].nodeId in pool ensures pool[items[i].nodeId].uniqueIdentifier == items[i].uniqueIdentifier {
      var n := items[i].nodeId;
      assert (n, pool[n].uniqueIdentifier) in Ids(pool);
      SourceNodeIdentifier(items, n, pool[n].uniqueIdentifier, i);
    }
  }

  /** Convergence: whatever the pool held, two rounds against a stable source make its identifiers the source's. */
  lemma TwoPassesConverge(net: Net, items: seq<Item>, first: seq<Creation>, second: seq<Creation>)
    requires |items| == |first| == |second| && AllCreated(first) && AllCreated(second) && DistinctNodes(items)
    requires IdentifierFixesNode(net.pool, items)
    ensures Ids(Pass(Pass(net, items, first), items, second).pool) == SourceIds(items)
  {
    var one := Pass(net, items, first);
    PassWithinSource(net, items, first);
    WithinSource(one.pool, items);
    OnePassEnough(one, items, second);
  }

  lemma {:induction false} NothingMissing(net: Net, items: seq<Item>, creations: seq<Creation>)
    requires |items| == |creations|
    requires forall i :: 0 <= i < |items| ==> items[i].nodeId in net.pool
    ensures Discovered(net, items, creations) == net
    decreases |items|
  {
    if items != [] {
      forall i | 0 <= i < |items[1..]| ensures items[1..][i].nodeId in net.pool {
        assert items[1..][i] == items[i + 1];
      }
      NothingMissing(net, items[1..], creations[1..]);
    }
  }

  /** Once converged, a round opens nothing, closes nothing and changes no member. */
  lemma ConvergedIsStable(net: Net, items: seq<Item>, creations: seq<Creation>)
    requires |items| == |creations| && DistinctNodes(items)
    requires IdentifierFixesNode(net.pool, items)
    requires Ids(net.pool) == SourceIds(items)
    ensures Pass(net, items, creations) == net
  {
    SameIds(net.pool, items);
    NothingMissing(net, items, creations);
    WithinSource(net.pool, items);
    NothingStale(net, items);
  }

  lemma NothingStale(net: Net, items: seq<Item>)
    requires StaleNodes(net.pool, items) == {}
    ensures Swept(net, items) == net
  {
    forall n | n in net.pool ensures HasIdentifier(items, net.pool[n].uniqueIdentifier) {
      assert n !in StaleNodes(net.pool, items);
    }
    assert Swept(net, items).pool == net.pool;
    assert Swept(net, items).closes == net.closes;
  }

  /** The other order of the two loops: remove the outdated first, then insert the missing. */
  ghost function PassSweepFirst(net: Net, items: seq<Item>, creations: seq<Creation>): Net
    requires |items| == |creations|
  {
    Discovered(Swept(net, items), items, creations)
  }

  /** Sweeping first would converge in a single round. */
  lemma SweepFirstConverges(net: Net, items: seq<Item>, creations: seq<Creation>)
    requires |items| == |creations| && AllCreated(creations) && DistinctNodes(items)
    requires IdentifierFixesNode(net.pool, items)
    ensures Ids(PassSweepFirst(net, items, creations).pool) == SourceIds(items)
  {
    var swept := Swept(net, items);
    DiscoveredPool(swept, items, creations);
    DiscoveredAll(swept, items, creations);
    var r := PassSweepFirst(net, items, creations).pool;
    forall n | n in r ensures (n, r[n].uniqueIdentifier) in SourceIds(items) {
      if n in swept.pool {
        var i :| 0 <= i < |items| && items[i].uniqueIdentifier == r[n].uniqueIdentifier;
        assert n == items[i].nodeId;
      }
    }
    SameIds(r, items);
  }
}
