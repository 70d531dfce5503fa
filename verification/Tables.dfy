/**
  The tables behind templates, builds and snapshots. Every SQL statement is one
  atomic step: a function on table values, and a method of `Database` that runs
  its parts on the stored tables.
 */
module Tables {
  import opened Common

  type BuildId = nat

  datatype EnvSource = TemplateSource | SnapshotSource | SnapshotTemplateSource

  datatype Env = Env(teamId: string, source: EnvSource)

  datatype Snapshot = Snapshot(envId: string, baseEnvId: string, teamId: string, createdAt: int, envSecure: bool,
                               allowInternetAccess: Option<bool>,
                               metadata: map<string, string>, startedAt: int, originNodeId: string, autoPause: bool, config: string)

  datatype BuildStatus = Pending | Waiting | InProgress | Building | Snapshotting | Ready | Uploaded | Success | Failed | Other(text: string)

  datatype StatusGroup = PendingGroup | InProgressGroup | ReadyGroup | FailedGroup

  /** The trigger on env_builds. */
  function GroupOf(s: BuildStatus): StatusGroup {
    match s
    case Pending => PendingGroup
    case Waiting => PendingGroup
    case InProgress => InProgressGroup
    case Building => InProgressGroup
    case Snapshotting => InProgressGroup
    case Ready => ReadyGroup
    case Uploaded => ReadyGroup
    case Success => ReadyGroup
    case Failed => FailedGroup
    case Other(_) => FailedGroup
  }

  /** The statuses of each group, by name. */
  lemma GroupsExactly(s: BuildStatus)
    ensures GroupOf(s).PendingGroup? <==> s == Pending || s == Waiting
    ensures GroupOf(s).InProgressGroup? <==> s == InProgress || s == Building || s == Snapshotting
    ensures GroupOf(s).ReadyGroup? <==> s == Ready || s == Uploaded || s == Success
    ensures IsTerminal(GroupOf(s)) <==> s == Ready || s == Uploaded || s == Success || s == Failed || s.Other?
  {
  }

  predicate IsTerminal(g: StatusGroup) { g.ReadyGroup? || g.FailedGroup? }

  datatype Assignment = Assignment(envId: string, buildId: BuildId, tag: string, createdAt: int)

  datatype ActiveBuild = ActiveBuild(teamId: string, templateId: string, tags: seq<string>)

  datatype Alias = Alias(alias: string, namespace: Option<string>, envId: string)

  datatype Data = Data(envs: map<string, Env>, snapshots: map<string, Snapshot>, builds: map<BuildId, BuildStatus>,
                       assignments: seq<Assignment>, active: map<BuildId, ActiveBuild>, aliases: seq<Alias>)

  datatype Error = UniqueViolation | ForeignKeyViolation | AliasTaken

  const DEFAULT_TAG: string := "default"

  // ---------- UpsertSnapshot ----------

  datatype UpsertParams = UpsertParams(templateId: string, teamId: string, sandboxId: string, baseTemplateId: string,
                                       metadata: map<string, string>, startedAt: int, secure: bool, allowInternetAccess: Option<bool>,
                                       originNodeId: string, autoPause: bool, config: string, status: BuildStatus)

  /** The row the INSERT proposes; `''` stands in for the env of a snapshot that already exists. */
  function ProposedSnapshot(p: UpsertParams, newTemplate: Option<string>, now: int): Snapshot {
    Snapshot(if newTemplate.Some? then newTemplate.value else "", p.baseTemplateId, p.teamId, now, p.secure, p.allowInternetAccess,
             p.metadata, p.startedAt, p.originNodeId, p.autoPause, p.config)
  }

  /** ON CONFLICT (sandbox_id) DO UPDATE: five columns change, the rest stay. */
  function Merged(existing: Snapshot, proposed: Snapshot): Snapshot {
    existing.(metadata := proposed.metadata, startedAt := proposed.startedAt, originNodeId := proposed.originNodeId,
              autoPause := proposed.autoPause, config := proposed.config)
  }

  /** `buildId` is the database-generated key of the new build, `now` the transaction time. */
  function Upserted(d: Data, p: UpsertParams, buildId: BuildId, now: int): Result<Data, Error> {
    var exists_ := p.sandboxId in d.snapshots;
    if (!exists_ && p.templateId in d.envs) || buildId in d.builds then Err(UniqueViolation)
    else
      var envs := if exists_ then d.envs else d.envs[p.templateId := Env(p.teamId, SnapshotSource)];
      var proposed := ProposedSnapshot(p, if exists_ then None else Some(p.templateId), now);
      var row := if exists_ then Merged(d.snapshots[p.sandboxId], proposed) else proposed;
      if row.baseEnvId !in envs || row.envId !in envs then Err(ForeignKeyViolation)
      else Ok(d.(envs := envs, snapshots := d.snapshots[p.sandboxId := row], builds := d.builds[buildId := p.status],
                 assignments := d.assignments + [Assignment(row.envId, buildId, DEFAULT_TAG, now)]))
  }

  // ---------- Builds ----------

  function TemplateUpserted(d: Data, templateId: string, teamId: string): Data {
    if templateId in d.envs then d else d.(envs := d.envs[templateId := Env(teamId, TemplateSource)])
  }

  /** Pending builds assigned to the template under one of the tags. */
  predicate Superseded(d: Data, templateId: string, tags: seq<string>, b: BuildId) {
    && b in d.builds && GroupOf(d.builds[b]).PendingGroup?
    && exists a :: a in d.assignments && a.buildId == b && a.envId == templateId && a.tag in tags
  }

  function Invalidated(d: Data, templateId: string, tags: seq<string>): Data {
    d.(builds := map b | b in d.builds :: if Superseded(d, templateId, tags, b) then Failed else d.builds[b],
       active := map b | b in d.active && !Superseded(d, templateId, tags, b) :: d.active[b])
  }

  function Assigned(d: Data, templateId: string, buildId: BuildId, tag: string, now: int): Data {
    d.(assignments := d.assignments + [Assignment(templateId, buildId, tag, now)])
  }

  /** DELETE of a template's assignments under the given tags. */
  function TagsRemoved(d: Data, templateId: string, tags: seq<string>): Data {
    d.(assignments := Filter(NotUnder(templateId, tags), d.assignments))
  }

  function NotUnder(templateId: string, tags: seq<string>): Assignment -> bool {
    (a: Assignment) => a.envId != templateId || a.tag !in tags
  }

  /** A new env for an existing build, in one statement; the caller generates the env's ID. */
  function SnapshotTemplateCreated(d: Data, templateId: string, teamId: string, buildId: BuildId, tag: string, now: int): Result<Data, Error> {
    if templateId in d.envs then Err(UniqueViolation)
    else if buildId !in d.builds then Err(ForeignKeyViolation)
    else Ok(Assigned(d.(envs := d.envs[templateId := Env(teamId, SnapshotTemplateSource)]), templateId, buildId, tag, now))
  }

  function SetStatus(d: Data, buildId: BuildId, status: BuildStatus): Data {
    if buildId in d.builds then d.(builds := d.builds[buildId := status]) else d
  }

  /** FinishTemplateBuild and FailTemplateBuildAndDeactivate: drop the active row and set the status, in one statement. */
  function SetStatusAndDeactivate(d: Data, buildId: BuildId, status: BuildStatus): Data {
    SetStatus(d.(active := d.active - {buildId}), buildId, status)
  }

  /** One assignment row per tag, all at the transaction's time. */
  function TagRows(templateId: string, buildId: BuildId, tags: seq<string>, now: int): seq<Assignment> {
    Map((tag: string) => Assignment(templateId, buildId, tag, now), tags)
  }

  /** The registration transaction; no tag means the default tag, and any error leaves nothing behind. */
  function Registered(d: Data, templateId: string, teamId: string, requested: seq<string>, buildId: BuildId, now: int, aliasFree: bool)
    : Result<Data, Error>
  {
    var tags := if requested == [] then [DEFAULT_TAG] else requested;
    var d1 := Invalidated(TemplateUpserted(d, templateId, teamId), templateId, tags);
    if buildId in d1.builds then Err(UniqueViolation)
    else if !aliasFree then Err(AliasTaken)
    else if buildId in d1.active then Err(UniqueViolation)
    else Ok(d1.(builds := d1.builds[buildId := Waiting],
                assignments := d1.assignments + TagRows(templateId, buildId, tags, now),
                active := d1.active[buildId := ActiveBuild(teamId, templateId, tags)]))
  }

  // ---------- Deleting a template ----------

  function AliasKey(a: Alias): string {
    if a.namespace.Some? then a.namespace.value + "/" + a.alias else a.alias
  }

  /** A cache key is the namespace, a slash and the alias, or the alias alone. */
  lemma AliasKeyExactly(alias: string, namespace: string, envId: string)
    ensures AliasKey(Alias(alias, None, envId)) == alias
    ensures |AliasKey(Alias(alias, Some(namespace), envId))| == |namespace| + 1 + |alias|
    ensures AliasKey(Alias(alias, Some(namespace), envId))[..|namespace|] == namespace
    ensures AliasKey(Alias(alias, Some(namespace), envId))[|namespace|] == '/'
    ensures AliasKey(Alias(alias, Some(namespace), envId))[|namespace| + 1..] == alias
  {
  }

  function AssignedElsewhere(templateId: string): Assignment -> bool { (a: Assignment) => a.envId != templateId }

  function AliasElsewhere(templateId: string): Alias -> bool { (a: Alias) => a.envId != templateId }

  function AliasOf(templateId: string): Alias -> bool { (a: Alias) => a.envId == templateId }

  predicate Deletes(d: Data, templateId: string, teamId: string) {
    templateId in d.envs && d.envs[templateId].teamId == teamId
  }

  /** The env row goes, and by cascade its assignments, its aliases and the snapshots that are or build on it. */
  function AfterDelete(d: Data, templateId: string, teamId: string): Data {
    if !Deletes(d, templateId, teamId) then d
    else d.(envs := d.envs - {templateId},
            snapshots := map s | s in d.snapshots && d.snapshots[s].envId != templateId && d.snapshots[s].baseEnvId != templateId :: d.snapshots[s],
            assignments := Filter(AssignedElsewhere(templateId), d.assignments),
            aliases := Filter(AliasElsewhere(templateId), d.aliases))
  }

  function ReturnedKeys(d: Data, templateId: string, teamId: string): seq<string> {
    if Deletes(d, templateId, teamId) then Map(AliasKey, Filter(AliasOf(templateId), d.aliases)) else []
  }

  /** Every alias the cascade removes is reported, under its cache key, and nothing else is. */
  lemma {:induction false} AliasesSplit(templateId: string, aliases: seq<Alias>)
    ensures multiset(Map(AliasKey, aliases))
         == multiset(Map(AliasKey, Filter(AliasElsewhere(templateId), aliases))) + multiset(Map(AliasKey, Filter(AliasOf(templateId), aliases)))
  {
    if aliases != [] {
      AliasesSplit(templateId, aliases[1..]);
      var a := aliases[0];
      assert Map(AliasKey, aliases) == [AliasKey(a)] + Map(AliasKey, aliases[1..]);
      MapCons(AliasKey, a, Filter(AliasElsewhere(templateId), aliases[1..]));
      MapCons(AliasKey, a, Filter(AliasOf(templateId), aliases[1..]));
      NoneBefore(Filter(AliasElsewhere(templateId), aliases[1..]));
      NoneBefore(Filter(AliasOf(templateId), aliases[1..]));
    }
  }

  lemma NoneBefore(s: seq<Alias>)
    ensures [] + s == s
  {
  }

  lemma DeleteReportsAliases(d: Data, templateId: string, teamId: string)
    ensures multiset(Map(AliasKey, d.aliases))
         == multiset(Map(AliasKey, AfterDelete(d, templateId, teamId).aliases)) + multiset(ReturnedKeys(d, templateId, teamId))
  {
    AliasesSplit(templateId, d.aliases);
  }

  // ---------- The stored tables ----------

  class Database {
    var envs: map<string, Env>
    var snapshots: map<string, Snapshot>
    var builds: map<BuildId, BuildStatus>
    var assignments: seq<Assignment>
    var active: map<BuildId, ActiveBuild>
    var aliases: seq<Alias>

    function State(): Data
      reads this
    {
      Data(envs, snapshots, builds, assignments, active, aliases)
    }

    constructor (d: Data)
      ensures State() == d
    {
      envs, snapshots, builds := d.envs, d.snapshots, d.builds;
      assignments, active, aliases := d.assignments, d.active, d.aliases;
    }

    method Restore(d: Data)
      modifies this
      ensures State() == d
    {
      envs, snapshots, builds := d.envs, d.snapshots, d.builds;
      assignments, active, aliases := d.assignments, d.active, d.aliases;
    }

    /** The four common table expressions, in order; an error undoes the statement. */
    method UpsertSnapshot(p: UpsertParams, buildId: BuildId, now: int) returns (r: Result<(BuildId, string), Error>)
      modifies this
      ensures r.Ok? <==> Upserted(old(State()), p, buildId, now).Ok?
      ensures r.Ok? ==> State() == Upserted(old(State()), p, buildId, now).value
      ensures r.Ok? ==> p.sandboxId in snapshots && r.value == (buildId, snapshots[p.sandboxId].envId)
      ensures r.Err? ==> State() == old(State()) && r.error == Upserted(old(State()), p, buildId, now).error
    {
      var before := State();
      // new_template
      var newTemplate: Option<string> := None;
      if p.sandboxId !in snapshots {
        if p.templateId in envs {
          return Err(UniqueViolation);
        }
        envs := envs[p.templateId := Env(p.teamId, SnapshotSource)];
        newTemplate := Some(p.templateId);
      }
      // snapshot
      var proposed := ProposedSnapshot(p, newTemplate, now);
      var row := if p.sandboxId in snapshots then Merged(snapshots[p.sandboxId], proposed) else proposed;
      snapshots := snapshots[p.sandboxId := row];
      // new_build
      if buildId in builds {
        Restore(before);
        return Err(UniqueViolation);
      }
      builds := builds[buildId := p.status];
      // build_assignment
      assignments := assignments + [Assignment(row.envId, buildId, DEFAULT_TAG, now)];
      if row.baseEnvId !in envs || row.envId !in envs {
        Restore(before);
        return Err(ForeignKeyViolation);
      }
      return Ok((buildId, row.envId));
    }

    method CreateOrUpdateTemplate(templateId: string, teamId: string)
      modifies this
      ensures State() == TemplateUpserted(old(State()), templateId, teamId)
    {
      if templateId !in envs {
        envs := envs[templateId := Env(teamId, TemplateSource)];
      }
    }

    method InvalidateUnstartedTemplateBuilds(templateId: string, tags: seq<string>)
      modifies this
      ensures State() == Invalidated(old(State()), templateId, tags)
    {
      var invalidated := set b | b in builds && Superseded(State(), templateId, tags, b);
      builds := map b | b in builds :: if b in invalidated then Failed else builds[b];
      active := active - invalidated;
    }

    method CreateTemplateBuild(buildId: BuildId, status: BuildStatus) returns (ok: bool)
      modifies this
      ensures ok == (buildId !in old(builds))
      ensures State() == if ok then old(State()).(builds := old(builds)[buildId := status]) else old(State())
    {
      ok := buildId !in builds;
      if ok {
        builds := builds[buildId := status];
      }
    }

    method CreateTemplateBuildAssignment(templateId: string, buildId: BuildId, tag: string, now: int) returns (ok: bool)
      modifies this
      ensures ok == (templateId in envs && buildId in builds)
      ensures State() == if ok then Assigned(old(State()), templateId, buildId, tag, now) else old(State())
    {
      ok := templateId in envs && buildId in builds;
      if ok {
        assignments := assignments + [Assignment(templateId, buildId, tag, now)];
      }
    }

    /** Env and assignment in one statement; an error undoes both. */
    method CreateSnapshotTemplateEnv(templateId: string, teamId: string, buildId: BuildId, tag: string, now: int) returns (r: Result<string, Error>)
      modifies this
      ensures r.Ok? <==> SnapshotTemplateCreated(old(State()), templateId, teamId, buildId, tag, now).Ok?
      ensures r.Ok? ==> r.value == templateId && State() == SnapshotTemplateCreated(old(State()), templateId, teamId, buildId, tag, now).value
      ensures r.Err? ==> State() == old(State()) && r.error == SnapshotTemplateCreated(old(State()), templateId, teamId, buildId, tag, now).error
    {
      var before := State();
      if templateId in envs {
        return Err(UniqueViolation);
      }
      envs := envs[templateId := Env(teamId, SnapshotTemplateSource)];
      var ok := CreateTemplateBuildAssignment(templateId, buildId, tag, now);
      if !ok {
        Restore(before);
        return Err(ForeignKeyViolation);
      }
      return Ok(templateId);
    }

    method DeleteTemplateTags(templateId: string, tags: seq<string>)
      modifies this
      ensures State() == TagsRemoved(old(State()), templateId, tags)
    {
      assignments := Filter(NotUnder(templateId, tags), assignments);
    }

    method CreateActiveTemplateBuild(buildId: BuildId, row: ActiveBuild) returns (ok: bool)
      modifies this
      ensures ok == (buildId !in old(active))
      ensures State() == if ok then old(State()).(active := old(active)[buildId := row]) else old(State())
    {
      ok := buildId !in active;
      if ok {
        active := active[buildId := row];
      }
    }

    method DeleteActiveTemplateBuild(buildId: BuildId)
      modifies this
      ensures State() == old(State()).(active := old(active) - {buildId})
    {
      active := active - {buildId};
    }

    /** One transaction: template, invalidation, build, aliases, one assignment per tag, active row; an error rolls back. */
    method RegisterBuild(templateId: string, teamId: string, requested: seq<string>, buildId: BuildId, now: int, aliasFree: bool)
      returns (r: Result<(), Error>)
      modifies this
      ensures r.Ok? <==> Registered(old(State()), templateId, teamId, requested, buildId, now, aliasFree).Ok?
      ensures r.Ok? ==> State() == Registered(old(State()), templateId, teamId, requested, buildId, now, aliasFree).value
      ensures r.Err? ==> State() == old(State()) && r.error == Registered(old(State()), templateId, teamId, requested, buildId, now, aliasFree).error
    {
      var before := State();
      var tags := requested;
      if |tags| == 0 {
        tags := [DEFAULT_TAG];
      }
      CreateOrUpdateTemplate(templateId, teamId);
      InvalidateUnstartedTemplateBuilds(templateId, tags);
      var ok := CreateTemplateBuild(buildId, Waiting);
      if !ok {
        Restore(before);
        return Err(UniqueViolation);
      }
      if !aliasFree {
        Restore(before);
        return Err(AliasTaken);
      }
      CreateTagAssignments(templateId, buildId, tags, now);
      ok := CreateActiveTemplateBuild(buildId, ActiveBuild(teamId, templateId, tags));
      if !ok {
        Restore(before);
        return Err(UniqueViolation);
      }
      return Ok(());
    }

    method CreateTagAssignments(templateId: string, buildId: BuildId, tags: seq<string>, now: int)
      requires templateId in envs && buildId in builds
      modifies this
      ensures State() == old(State()).(assignments := old(assignments) + TagRows(templateId, buildId, tags, now))
    {
      for i := 0 to |tags|
        invariant State() == old(State()).(assignments := old(assignments) + TagRows(templateId, buildId, tags[..i], now))
      {
        assert TagRows(templateId, buildId, tags[..i + 1], now)
            == TagRows(templateId, buildId, tags[..i], now) + [Assignment(templateId, buildId, tags[i], now)];
        var ok := CreateTemplateBuildAssignment(templateId, buildId, tags[i], now);
      }
      assert tags[..|tags|] == tags;
    }

    method UpdateEnvBuildStatus(buildId: BuildId, status: BuildStatus)
      modifies this
      ensures State() == SetStatus(old(State()), buildId, status)
    {
      if buildId in builds {
        builds := builds[buildId := status];
      }
    }

    method FinishTemplateBuild(buildId: BuildId, status: BuildStatus)
      modifies this
      ensures State() == SetStatusAndDeactivate(old(State()), buildId, status)
    {
      active := active - {buildId};
      if buildId in builds {
        builds := builds[buildId := status];
      }
    }

    method FailTemplateBuildAndDeactivate(buildId: BuildId, status: BuildStatus)
      modifies this
      ensures State() == SetStatusAndDeactivate(old(State()), buildId, status)
    {
      active := active - {buildId};
      if buildId in builds {
        builds := builds[buildId := status];
      }
    }

    method DeleteTemplate(templateId: string, teamId: string) returns (aliasKeys: seq<string>)
      modifies this
      ensures State() == AfterDelete(old(State()), templateId, teamId)
      ensures aliasKeys == ReturnedKeys(old(State()), templateId, teamId)
      ensures multiset(Map(AliasKey, old(aliases))) == multiset(Map(AliasKey, aliases)) + multiset(aliasKeys)
    {
      DeleteReportsAliases(State(), templateId, teamId);
      aliasKeys := Map(AliasKey, Filter(AliasOf(templateId), aliases));
      if templateId !in envs || envs[templateId].teamId != teamId {
        return [];
      }
      envs := envs - {templateId};
      snapshots := map s | s in snapshots && snapshots[s].envId != templateId && snapshots[s].baseEnvId != templateId :: snapshots[s];
      assignments := Filter(AssignedElsewhere(templateId), assignments);
      aliases := Filter(AliasElsewhere(templateId), aliases);
    }
  }
}
