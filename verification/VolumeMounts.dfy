/**
  Turning requested volume mounts into the orchestrator's: the gates, the lookup
  of volumes by name, and the loop that validates each mount.
 */
module VolumeMounts {
  import opened Common
  import opened MountPaths

  datatype Volume = Volume(id: nat, teamId: string, name: string, volumeType: string)

  datatype Mount = Mount(name: string, path: string)

  datatype SandboxMount = SandboxMount(id: nat, path: string, volumeType: string, name: string)

  datatype Reason = VolumeNotFound(name: string) | BadPath(path: PathReason) | PathAlreadyUsed(used: string)

  datatype InvalidMount = InvalidMount(index: nat, reason: Reason)

  datatype Error =
    | VolumeMountsDisabled
    | NoEnvdVersion
    | InvalidEnvdVersion
    | VolumesNotSupported
    | DatabaseError
    | InvalidMounts(mounts: seq<InvalidMount>)

  // ---------- Volumes by name ----------

  /** The table's constraint: a team has one volume of a name. */
  ghost predicate UniqueNames(table: seq<Volume>) {
    forall v, w :: v in table && w in table && v.teamId == w.teamId && v.name == w.name ==> v == w
  }

  function ByName(teamId: string, names: seq<string>): Volume -> bool {
    (v: Volume) => v.teamId == teamId && v.name in names
  }

  function GetVolumesByName(table: seq<Volume>, teamId: string, names: seq<string>): seq<Volume> {
    Filter(ByName(teamId, names), table)
  }

  /** The first row of the team's volume of that name. */
  function Lookup(table: seq<Volume>, teamId: string, name: string): Option<Volume> {
    if table == [] then None
    else if table[0].teamId == teamId && table[0].name == name then Some(table[0])
    else Lookup(table[1..], teamId, name)
  }

  lemma {:induction false} LookupFinds(table: seq<Volume>, teamId: string, name: string)
    requires UniqueNames(table)
    ensures forall v :: v in table && v.teamId == teamId && v.name == name <==> Lookup(table, teamId, name) == Some(v)
  {
    if table != [] {
      assert forall v :: v in table[1..] ==> v in table;
      assert table == [table[0]] + table[1..];
      LookupFinds(table[1..], teamId, name);
    }
  }

  /** Every requested name once, in no particular order. */
  method DedupeVolumeNames(items: seq<Mount>) returns (results: seq<string>)
    ensures forall name :: name in results <==> exists i :: 0 <= i < |items| && items[i].name == name
    ensures forall i, j :: 0 <= i < j < |results| ==> results[i] != results[j]
  {
    var itemsSet: set<string> := {};
    for i := 0 to |items|
      invariant itemsSet == set k | 0 <= k < i :: items[k].name
    {
      itemsSet := itemsSet + {items[i].name};
    }
    results := [];
    var left := itemsSet;
    while left != {}
      invariant left <= itemsSet
      invariant forall name :: name in results <==> name in itemsSet - left
      invariant forall i, j :: 0 <= i < j < |results| ==> results[i] != results[j]
      decreases |left|
    {
      var name :| name in left;
      results := results + [name];
      left := left - {name};
    }
  }

  predicate Requested(mounts: seq<Mount>, name: string) { exists i :: 0 <= i < |mounts| && mounts[i].name == name }

  method GetDBVolumesMap(table: seq<Volume>, teamId: string, mounts: seq<Mount>) returns (volumes: map<string, Volume>)
    requires UniqueNames(table)
    ensures forall name :: name in volumes <==> Requested(mounts, name) && Lookup(table, teamId, name).Some?
    ensures forall name :: name in volumes ==> Lookup(table, teamId, name) == Some(volumes[name])
  {
    var names := DedupeVolumeNames(mounts);
    var rows := GetVolumesByName(table, teamId, names);
    volumes := map[];
    for i := 0 to |rows|
      invariant forall name :: name in volumes <==> exists k :: 0 <= k < i && rows[k].name == name
      invariant forall name :: name in volumes ==> volumes[name] in rows && volumes[name].name == name
    {
      volumes := volumes[rows[i].name := rows[i]];
    }
    forall name
      ensures name in volumes <==> Requested(mounts, name) && Lookup(table, teamId, name).Some?
      ensures name in volumes ==> Lookup(table, teamId, name) == Some(volumes[name])
    {
      RowsOfName(table, teamId, names, name);
      if name in names && Lookup(table, teamId, name).Some? {
        var k :| 0 <= k < |rows| && rows[k] == Lookup(table, teamId, name).value;
        assert rows[k].name == name;
      }
    }
  }

  /** The query returns a requested name's row and nothing else under that name. */
  lemma RowsOfName(table: seq<Volume>, teamId: string, names: seq<string>, name: string)
    requires UniqueNames(table)
    ensures forall v :: v in GetVolumesByName(table, teamId, names) && v.name == name <==> name in names && Lookup(table, teamId, name) == Some(v)
  {
    FilterMembers(ByName(teamId, names), table);
    LookupFinds(table, teamId, name);
  }

  // ---------- What is wrong with a mount ----------

  predicate Known(table: seq<Volume>, teamId: string, m: Mount) { Lookup(table, teamId, m.name).Some? }

  /** An earlier mount of a known volume has the same path. */
  predicate PathTaken(table: seq<Volume>, teamId: string, mounts: seq<Mount>, i: nat)
    requires i < |mounts|
  {
    exists j :: 0 <= j < i && Known(table, teamId, mounts[j]) && mounts[j].path == mounts[i].path
  }

  function Problem(table: seq<Volume>, teamId: string, mounts: seq<Mount>, i: nat): Option<Reason>
    requires i < |mounts|
  {
    if !Known(table, teamId, mounts[i]) then Some(VolumeNotFound(mounts[i].name))
    else if IsValidMountPath(mounts[i].path).Some? then Some(BadPath(IsValidMountPath(mounts[i].path).value))
    else if PathTaken(table, teamId, mounts, i) then Some(PathAlreadyUsed(mounts[i].path))
    else None
  }

  ghost predicate Ascending(reports: seq<InvalidMount>) {
    forall j, k :: 0 <= j < k < |reports| ==> reports[j].index < reports[k].index
  }

  /** The reports name exactly the faulty mounts among the first `n`, each with its reason. */
  ghost predicate ReportsExactly(table: seq<Volume>, teamId: string, mounts: seq<Mount>, n: nat, reports: seq<InvalidMount>)
    requires n <= |mounts|
  {
    && Ascending(reports)
    && (forall r :: r in reports ==> r.index < n && Problem(table, teamId, mounts, r.index) == Some(r.reason))
    && (forall i :: 0 <= i < n && Problem(table, teamId, mounts, i).Some?
          ==> InvalidMount(i, Problem(table, teamId, mounts, i).value) in reports)
  }

  function Converted(table: seq<Volume>, teamId: string, m: Mount): (r: SandboxMount)
    requires Known(table, teamId, m)
  {
    var v := Lookup(table, teamId, m.name).value;
    SandboxMount(v.id, m.path, v.volumeType, v.name)
  }

  ghost predicate ConvertsExactly(table: seq<Volume>, teamId: string, mounts: seq<Mount>, results: seq<SandboxMount>)
  {
    && |results| == |mounts|
    && (forall i :: 0 <= i < |mounts| ==> Known(table, teamId, mounts[i]) && results[i] == Converted(table, teamId, mounts[i]))
  }

  /** The paths the loop has put aside: those of the known, validly placed mounts so far. */
  ghost predicate UsedSoFar(table: seq<Volume>, teamId: string, mounts: seq<Mount>, n: nat, used: set<string>)
    requires n <= |mounts|
  {
    forall p :: p in used <==> exists j :: 0 <= j < n && Known(table, teamId, mounts[j]) && mounts[j].path == p && IsValidMountPath(p).None?
  }

  lemma ReportsGrow(table: seq<Volume>, teamId: string, mounts: seq<Mount>, n: nat, reports: seq<InvalidMount>)
    requires n < |mounts| && ReportsExactly(table, teamId, mounts, n, reports)
    ensures Problem(table, teamId, mounts, n).Some? ==>
              ReportsExactly(table, teamId, mounts, n + 1, reports + [InvalidMount(n, Problem(table, teamId, mounts, n).value)])
    ensures Problem(table, teamId, mounts, n).None? ==> ReportsExactly(table, teamId, mounts, n + 1, reports)
  {
    if Problem(table, teamId, mounts, n).Some? {
      var grown := reports + [InvalidMount(n, Problem(table, teamId, mounts, n).value)];
      forall i | 0 <= i < n + 1 && Problem(table, teamId, mounts, i).Some?
        ensures InvalidMount(i, Problem(table, teamId, mounts, i).value) in grown {
        assert i == n ==> grown[|reports|] == InvalidMount(i, Problem(table, teamId, mounts, i).value);
      }
      forall k | 0 <= k < |reports| ensures reports[k].index < n {
        assert reports[k] in reports;
      }
    }
  }

  lemma UsedMeansTaken(table: seq<Volume>, teamId: string, mounts: seq<Mount>, n: nat, used: set<string>)
    requires n < |mounts| && UsedSoFar(table, teamId, mounts, n, used) && IsValidMountPath(mounts[n].path).None?
    ensures mounts[n].path in used <==> PathTaken(table, teamId, mounts, n)
  {
  }

  lemma UsedGrows(table: seq<Volume>, teamId: string, mounts: seq<Mount>, n: nat, used: set<string>)
    requires n < |mounts| && UsedSoFar(table, teamId, mounts, n, used)
    ensures UsedSoFar(table, teamId, mounts, n + 1,
                      if Known(table, teamId, mounts[n]) && IsValidMountPath(mounts[n].path).None? then used + {mounts[n].path} else used)
  {
    if Known(table, teamId, mounts[n]) && IsValidMountPath(mounts[n].path).None? {
      forall p ensures p in used + {mounts[n].path} <==>
        exists j :: 0 <= j < n + 1 && Known(table, teamId, mounts[j]) && mounts[j].path == p && IsValidMountPath(p).None? {
        if p == mounts[n].path { assert Known(table, teamId, mounts[n]) && mounts[n].path == p; }
      }
    }
  }

  lemma ConvertsGrow(table: seq<Volume>, teamId: string, mounts: seq<Mount>, n: nat, results: seq<SandboxMount>)
    requires n < |mounts| && ConvertsExactly(table, teamId, mounts[..n], results) && Known(table, teamId, mounts[n])
    ensures ConvertsExactly(table, teamId, mounts[..n + 1], results + [Converted(table, teamId, mounts[n])])
  {
    assert mounts[..n + 1] == mounts[..n] + [mounts[n]];
  }

  /** What each outcome of one turn leaves of the loop's bookkeeping. */
  lemma NextMount(table: seq<Volume>, teamId: string, mounts: seq<Mount>, n: nat,
                  invalid: seq<InvalidMount>, results: seq<SandboxMount>, used: set<string>)
    requires n < |mounts| && ReportsExactly(table, teamId, mounts, n, invalid) && UsedSoFar(table, teamId, mounts, n, used)
    requires invalid == [] ==> ConvertsExactly(table, teamId, mounts[..n], results)
    ensures
      var v := mounts[n];
      var bad := IsValidMountPath(v.path);
      if !Known(table, teamId, v) then
        && ReportsExactly(table, teamId, mounts, n + 1, invalid + [InvalidMount(n, VolumeNotFound(v.name))])
        && UsedSoFar(table, teamId, mounts, n + 1, used)
      else if bad.Some? then
        && ReportsExactly(table, teamId, mounts, n + 1, invalid + [InvalidMount(n, BadPath(bad.value))])
        && UsedSoFar(table, teamId, mounts, n + 1, used)
      else if v.path in used then
        && ReportsExactly(table, teamId, mounts, n + 1, invalid + [InvalidMount(n, PathAlreadyUsed(v.path))])
        && UsedSoFar(table, teamId, mounts, n + 1, used)
      else
        && ReportsExactly(table, teamId, mounts, n + 1, invalid)
        && UsedSoFar(table, teamId, mounts, n + 1, used + {v.path})
        && (invalid == [] ==> ConvertsExactly(table, teamId, mounts[..n + 1], results + [Converted(table, teamId, v)]))
  {
    var v := mounts[n];
    ReportsGrow(table, teamId, mounts, n, invalid);
    UsedGrows(table, teamId, mounts, n, used);
    if Known(table, teamId, v) && IsValidMountPath(v.path).None? {
      UsedMeansTaken(table, teamId, mounts, n, used);
      if v.path in used {
        assert used + {v.path} == used;
      } else if invalid == [] {
        ConvertsGrow(table, teamId, mounts, n, results);
      }
    }
  }

  // ---------- The conversion ----------

  /** The validating loop; it drops the converted mounts when any mount is invalid. */
  method ValidateMounts(table: seq<Volume>, teamId: string, mounts: seq<Mount>, volumes: map<string, Volume>)
    returns (results: seq<SandboxMount>, invalid: seq<InvalidMount>)
    requires forall name :: name in volumes <==> Requested(mounts, name) && Lookup(table, teamId, name).Some?
    requires forall name :: name in volumes ==> Lookup(table, teamId, name) == Some(volumes[name])
    ensures ReportsExactly(table, teamId, mounts, |mounts|, invalid)
    ensures invalid == [] ==> ConvertsExactly(table, teamId, mounts, results)
  {
    invalid, results := [], [];
    var usedPaths: set<string> := {};
    for index := 0 to |mounts|
      invariant ReportsExactly(table, teamId, mounts, index, invalid)
      invariant invalid == [] ==> ConvertsExactly(table, teamId, mounts[..index], results)
      invariant UsedSoFar(table, teamId, mounts, index, usedPaths)
    {
      var v := mounts[index];
      NextMount(table, teamId, mounts, index, invalid, results, usedPaths);
      assert Requested(mounts, v.name);
      if v.name !in volumes {
        invalid := invalid + [InvalidMount(index, VolumeNotFound(v.name))];
        continue;
      }
      var actual, reason := volumes[v.name], IsValidMountPath(v.path);
      if reason.Some? {
        invalid := invalid + [InvalidMount(index, BadPath(reason.value))];
        continue;
      }
      if v.path in usedPaths {
        invalid := invalid + [InvalidMount(index, PathAlreadyUsed(v.path))];
        continue;
      }
      usedPaths := usedPaths + {v.path};
      results := results + [SandboxMount(actual.id, v.path, actual.volumeType, actual.name)];
    }
    assert mounts[..|mounts|] == mounts;
  }

  /** The first gate that turns a request away; `supports` compares a version with the least one that mounts volumes, or rejects its form. */
  function Gate(enabled: bool, envdVersion: Option<string>, supports: string -> Option<bool>, readable: bool): Option<Error> {
    if !enabled then Some(VolumeMountsDisabled)
    else if envdVersion.None? || envdVersion.value == "" then Some(NoEnvdVersion)
    else match supports(envdVersion.value)
      case None => Some(InvalidEnvdVersion)
      case Some(false) => Some(VolumesNotSupported)
      case Some(true) => if readable then None else Some(DatabaseError)
  }

  /** Each gate's error, and when a request passes them all: the earlier ones are checked first. */
  lemma GateExactly(enabled: bool, envdVersion: Option<string>, supports: string -> Option<bool>, readable: bool)
    ensures
      var gate, unset := Gate(enabled, envdVersion, supports, readable), envdVersion == None || envdVersion == Some("");
      && (gate == Some(VolumeMountsDisabled) <==> !enabled)
      && (gate == Some(NoEnvdVersion) <==> enabled && unset)
      && (gate == Some(InvalidEnvdVersion) <==> enabled && !unset && supports(envdVersion.value) == None)
      && (gate == Some(VolumesNotSupported) <==> enabled && !unset && supports(envdVersion.value) == Some(false))
      && (gate == Some(DatabaseError) <==> enabled && !unset && supports(envdVersion.value) == Some(true) && !readable)
      && (gate == None <==> enabled && !unset && supports(envdVersion.value) == Some(true) && readable)
  {
  }

  method ConvertAPIVolumesToOrchestratorVolumes(table: seq<Volume>, teamId: string, mounts: seq<Mount>, enabled: bool,
                                               envdVersion: Option<string>, supports: string -> Option<bool>, readable: bool)
    returns (r: Result<seq<SandboxMount>, Error>)
    requires UniqueNames(table)
    ensures mounts == [] ==> r == Ok([])
    ensures mounts != [] && Gate(enabled, envdVersion, supports, readable).Some? ==> r == Err(Gate(enabled, envdVersion, supports, readable).value)
    ensures mounts != [] && Gate(enabled, envdVersion, supports, readable).None? ==>
              match r
              case Ok(results) =>
                && ConvertsExactly(table, teamId, mounts, results)
                && (forall i :: 0 <= i < |mounts| ==> Problem(table, teamId, mounts, i).None?)
              case Err(e) => e.InvalidMounts? && e.mounts != [] && ReportsExactly(table, teamId, mounts, |mounts|, e.mounts)
  {
    if |mounts| == 0 {
      return Ok([]);
    }
    if !enabled {
      return Err(VolumeMountsDisabled);
    }
    var version := if envdVersion.Some? then envdVersion.value else "";
    if version == "" {
      return Err(NoEnvdVersion);
    }
    match supports(version) {
      case None => return Err(InvalidEnvdVersion);
      case Some(ok) => if !ok { return Err(VolumesNotSupported); }
    }
    if !readable {
      return Err(DatabaseError);
    }
    var volumes := GetDBVolumesMap(table, teamId, mounts);
    var results, invalid := ValidateMounts(table, teamId, mounts, volumes);
    if |invalid| > 0 {
      return Err(InvalidMounts(invalid));
    }
    return Ok(results);
  }

  // ---------- What a success means ----------

  /** The directory a mount lands on. */
  function Place(m: Mount): seq<string> { Resolve([], m.path) }

  /** No mount is faulty exactly when every volume is known, every path canonical, and no two mounts land on one directory. */
  lemma NoProblemExact(table: seq<Volume>, teamId: string, mounts: seq<Mount>)
    ensures (forall i :: 0 <= i < |mounts| ==> Problem(table, teamId, mounts, i).None?) <==>
              (forall i :: 0 <= i < |mounts| ==> Known(table, teamId, mounts[i]) && Accepted(mounts[i].path))
              && (forall i, j :: 0 <= i < j < |mounts| ==> Place(mounts[i]) != Place(mounts[j]))
  {
    forall i | 0 <= i < |mounts| ensures IsValidMountPath(mounts[i].path).None? <==> Accepted(mounts[i].path) {
      ValidMountPathExact(mounts[i].path);
    }
    if forall i :: 0 <= i < |mounts| ==> Problem(table, teamId, mounts, i).None? {
      forall i | 0 <= i < |mounts| ensures Known(table, teamId, mounts[i]) && Accepted(mounts[i].path) {
        assert Problem(table, teamId, mounts, i).None?;
      }
      forall i, j | 0 <= i < j < |mounts| ensures Place(mounts[i]) != Place(mounts[j]) {
        assert Problem(table, teamId, mounts, i).None? && Problem(table, teamId, mounts, j).None?;
        AcceptedInjective(mounts[i].path, mounts[j].path);
      }
    }
  }

  /** Why a mount is faulty: the first of three reasons that applies. */
  lemma ProblemExactly(table: seq<Volume>, teamId: string, mounts: seq<Mount>, i: nat)
    requires UniqueNames(table) && i < |mounts|
    ensures
      var m, problem := mounts[i], Problem(table, teamId, mounts, i);
      var known := exists v :: v in table && v.teamId == teamId && v.name == m.name;
      && (problem == Some(VolumeNotFound(m.name)) <==> !known)
      && (problem == Some(BadPath(EmptyPath)) <==> known && m.path == "")
      && (problem == Some(BadPath(RelativePath)) <==> known && m.path != "" && m.path[0] != '/')
      && (problem == Some(BadPath(UncleanPath)) <==> known && m.path != "" && m.path[0] == '/' && !Accepted(m.path))
      && (problem == Some(PathAlreadyUsed(m.path)) <==>
            known && Accepted(m.path) && exists j :: 0 <= j < i && Known(table, teamId, mounts[j]) && mounts[j].path == m.path)
  {
    var m := mounts[i];
    LookupFinds(table, teamId, m.name);
    ValidMountPathExact(m.path);
    if Known(table, teamId, m) {
      LookupIsRow(table, teamId, m.name);
    }
  }

  lemma {:induction false} LookupIsRow(table: seq<Volume>, teamId: string, name: string)
    requires Lookup(table, teamId, name).Some?
    ensures var v := Lookup(table, teamId, name).value; v in table && v.teamId == teamId && v.name == name
  {
    if !(table[0].teamId == teamId && table[0].name == name) {
      LookupIsRow(table[1..], teamId, name);
    }
  }

  /** A result names the team's volume of the requested name, its type, and the requested path. */
  lemma ResultExactly(table: seq<Volume>, teamId: string, mounts: seq<Mount>, results: seq<SandboxMount>, i: nat)
    requires ConvertsExactly(table, teamId, mounts, results) && i < |mounts|
    ensures exists v :: v in table && v.teamId == teamId && v.name == mounts[i].name
                        && results[i] == SandboxMount(v.id, mounts[i].path, v.volumeType, v.name)
  {
    LookupIsRow(table, teamId, mounts[i].name);
  }

  /** The first mount of a path is never the one reported as already used. */
  lemma FirstUseIsKept(table: seq<Volume>, teamId: string, mounts: seq<Mount>, i: nat)
    requires i < |mounts| && Problem(table, teamId, mounts, i) == Some(PathAlreadyUsed(mounts[i].path))
    ensures exists j :: 0 <= j < i && mounts[j].path == mounts[i].path && Problem(table, teamId, mounts, j).None?
  {
    var j :| 0 <= j < i && Known(table, teamId, mounts[j]) && mounts[j].path == mounts[i].path;
    if PathTaken(table, teamId, mounts, j) {
      FirstUseIsKept(table, teamId, mounts, j);
    }
  }
}
