/**
  The mounts of a sandbox on their way through creation, pauses, resumes and
  listing: each conversion is a copying loop, and no cycle of them loses one.
 */
module MountCycle {
  import opened Common
  import opened MountPaths
  import opened VolumeMounts

  /** As stored with a running or paused sandbox. */
  datatype StoredMount = StoredMount(id: nat, volumeType: string, name: string, path: string)

  function Stored(): SandboxMount -> StoredMount { (m: SandboxMount) => StoredMount(m.id, m.volumeType, m.name, m.path) }

  function Sent(): StoredMount -> SandboxMount { (m: StoredMount) => SandboxMount(m.id, m.path, m.volumeType, m.name) }

  function Shown(): StoredMount -> Mount { (m: StoredMount) => Mount(m.name, m.path) }

  method ConvertOrchestratorMountsToDatabaseMounts(mounts: seq<SandboxMount>) returns (results: seq<StoredMount>)
    ensures results == Map(Stored(), mounts)
  {
    results := [];
    for i := 0 to |mounts|
      invariant results == Map(Stored(), mounts[..i])
    {
      var item := mounts[i];
      results := results + [StoredMount(item.id, item.volumeType, item.name, item.path)];
    }
    assert mounts[..|mounts|] == mounts;
  }

  method ConvertDatabaseMountsToOrchestratorMounts(volumes: seq<StoredMount>) returns (results: seq<SandboxMount>)
    ensures results == Map(Sent(), volumes)
  {
    results := [];
    for i := 0 to |volumes|
      invariant results == Map(Sent(), volumes[..i])
    {
      var item := volumes[i];
      results := results + [SandboxMount(item.id, item.path, item.volumeType, item.name)];
    }
    assert volumes[..|volumes|] == volumes;
  }

  method ConvertFromDBMountsToAPIMounts(mounts: seq<StoredMount>) returns (results: seq<Mount>)
    ensures results == Map(Shown(), mounts)
  {
    results := [];
    for i := 0 to |mounts|
      invariant results == Map(Shown(), mounts[..i])
    {
      results := results + [Mount(mounts[i].name, mounts[i].path)];
    }
    assert mounts[..|mounts|] == mounts;
  }

  /** What is stored with a sandbox created from `created` after a number of pauses and resumes. */
  function AfterCycles(created: seq<SandboxMount>, cycles: nat): seq<StoredMount> {
    if cycles == 0 then Map(Stored(), created) else Map(Stored(), Map(Sent(), AfterCycles(created, cycles - 1)))
  }

  /** Whatever the number of cycles, a resume sends the orchestrator the mounts the sandbox was created with. */
  lemma {:induction false} MountsSurviveCycles(created: seq<SandboxMount>, cycles: nat)
    ensures Map(Sent(), AfterCycles(created, cycles)) == created
  {
    if cycles > 0 {
      MountsSurviveCycles(created, cycles - 1);
    }
  }

  /** A created sandbox is listed with exactly the mounts that were requested for it, before and after pauses. */
  lemma ListedAsRequested(table: seq<Volume>, teamId: string, mounts: seq<Mount>, created: seq<SandboxMount>, cycles: nat)
    requires UniqueNames(table) && ConvertsExactly(table, teamId, mounts, created)
    ensures Map(Shown(), AfterCycles(created, cycles)) == mounts
  {
    MountsSurviveCycles(created, cycles);
    var stored := AfterCycles(created, cycles);
    forall i | 0 <= i < |mounts| ensures Shown()(stored[i]) == mounts[i] {
      assert created[i] == Sent()(stored[i]);
      LookupFinds(table, teamId, mounts[i].name);
      LookupNames(table, teamId, mounts[i].name);
    }
  }

  lemma {:induction false} LookupNames(table: seq<Volume>, teamId: string, name: string)
    ensures Lookup(table, teamId, name).Some? ==> Lookup(table, teamId, name).value.name == name
  {
    if table != [] {
      LookupNames(table[1..], teamId, name);
    }
  }
}
