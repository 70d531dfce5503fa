/**
  Runs of the SQL statements on the tables: every statement that writes envs,
  snapshots, builds, assignments or active rows, in any order.
 */
module TableRuns {
  import opened Common
  import opened Tables

  datatype Event =
    | Register(templateId: string, teamId: string, tags: seq<string>, buildId: BuildId, now: int, aliasFree: bool)
    | Snapshot(p: UpsertParams, buildId: BuildId, now: int)
    | SnapshotTemplate(templateId: string, teamId: string, buildId: BuildId, tag: string, now: int)
    | Tag(templateId: string, buildId: BuildId, tag: string, now: int)
    | Untag(templateId: string, tags: seq<string>)
    | Update(buildId: BuildId, status: BuildStatus)
    | Fail(buildId: BuildId, status: BuildStatus)
    | Finish(buildId: BuildId, status: BuildStatus)
    | Deactivate(buildId: BuildId)
    | Delete(templateId: string, teamId: string)

  /** A failing statement changes nothing. */
  function Step(d: Data, e: Event): Data {
    match e
    case Register(t, team, tags, b, now, aliasFree) =>
      (match Registered(d, t, team, tags, b, now, aliasFree) case Ok(after) => after case Err(_) => d)
    case Snapshot(p, b, now) => (match Upserted(d, p, b, now) case Ok(after) => after case Err(_) => d)
    case SnapshotTemplate(t, team, b, tag, now) =>
      (match SnapshotTemplateCreated(d, t, team, b, tag, now) case Ok(after) => after case Err(_) => d)
    case Tag(t, b, tag, now) => if t in d.envs && b in d.builds then Assigned(d, t, b, tag, now) else d
    case Untag(t, tags) => TagsRemoved(d, t, tags)
    case Update(b, status) => SetStatus(d, b, status)
    case Fail(b, status) => SetStatusAndDeactivate(d, b, status)
    case Finish(b, status) => SetStatusAndDeactivate(d, b, status)
    case Deactivate(b) => d.(active := d.active - {b})
    case Delete(t, team) => AfterDelete(d, t, team)
  }

  function Run(d: Data, es: seq<Event>): Data {
    if es == [] then d else Step(Run(d, es[..|es| - 1]), es[|es| - 1])
  }

  lemma RunSnoc(d: Data, es: seq<Event>, e: Event)
    ensures Run(d, es + [e]) == Step(Run(d, es), e)
  {
    assert (es + [e])[..|es|] == es;
  }

  // ---------- Which statements succeed ----------

  predicate Registers(d: Data, e: Event) {
    e.Register? && Registered(d, e.templateId, e.teamId, e.tags, e.buildId, e.now, e.aliasFree).Ok?
  }

  predicate Snapshots(d: Data, e: Event) { e.Snapshot? && Upserted(d, e.p, e.buildId, e.now).Ok? }

  predicate CreatesTemplate(d: Data, e: Event) {
    e.SnapshotTemplate? && SnapshotTemplateCreated(d, e.templateId, e.teamId, e.buildId, e.tag, e.now).Ok?
  }

  predicate Tags(d: Data, e: Event) { e.Tag? && e.templateId in d.envs && e.buildId in d.builds }

  predicate Drops(d: Data, e: Event) { e.Delete? && Deletes(d, e.templateId, e.teamId) }

  predicate SetsStatus(e: Event, b: BuildId) { (e.Update? || e.Fail? || e.Finish?) && e.buildId == b }

  function TagsOf(e: Event): seq<string>
    requires e.Register?
  {
    if e.tags == [] then [DEFAULT_TAG] else e.tags
  }

  /** The env an upsert assigns its build to: that of the existing row, or the new one. */
  function EnvOfSnapshot(d: Data, p: UpsertParams): string {
    if p.sandboxId in d.snapshots then d.snapshots[p.sandboxId].envId else p.templateId
  }

  // ---------- Assignments ----------

  /** The rows a statement inserts. */
  function Added(d: Data, e: Event): seq<Assignment> {
    if Registers(d, e) then TagRows(e.templateId, e.buildId, TagsOf(e), e.now)
    else if Snapshots(d, e) then [Assignment(EnvOfSnapshot(d, e.p), e.buildId, DEFAULT_TAG, e.now)]
    else if CreatesTemplate(d, e) || Tags(d, e) then [Assignment(e.templateId, e.buildId, e.tag, e.now)]
    else []
  }

  /** Whether a statement leaves a row. */
  predicate Keeps(d: Data, e: Event, a: Assignment) {
    && (e.Untag? ==> a.envId != e.templateId || a.tag !in e.tags)
    && (Drops(d, e) ==> a.envId != e.templateId)
  }

  lemma StepAssignments(d: Data, e: Event)
    ensures forall a :: a in Step(d, e).assignments <==> (a in d.assignments && Keeps(d, e, a)) || a in Added(d, e)
  {
    if e.Untag? {
      FilterMembers(NotUnder(e.templateId, e.tags), d.assignments);
    } else if e.Delete? {
      FilterMembers(AssignedElsewhere(e.templateId), d.assignments);
    }
  }

  lemma InTagRows(t: string, b: BuildId, tags: seq<string>, now: int)
    ensures forall a: Assignment :: a in TagRows(t, b, tags, now) <==> a == Assignment(t, b, a.tag, now) && a.tag in tags
  {
    var rows := TagRows(t, b, tags, now);
    forall a: Assignment | a == Assignment(t, b, a.tag, now) && a.tag in tags ensures a in rows {
      var i :| 0 <= i < |tags| && tags[i] == a.tag;
      assert rows[i] == a;
    }
  }

  /** The foreign keys of assignments hold. */
  ghost predicate Referenced(d: Data) {
    forall a :: a in d.assignments ==> a.envId in d.envs && a.buildId in d.builds
  }

  lemma StepKeepsReferenced(d: Data, e: Event)
    requires Referenced(d)
    ensures Referenced(Step(d, e))
  {
    StepAssignments(d, e);
    if e.Register? {
      InTagRows(e.templateId, e.buildId, TagsOf(e), e.now);
    }
  }

  lemma {:induction false} RunKeepsReferenced(d: Data, es: seq<Event>)
    requires Referenced(d)
    ensures Referenced(Run(d, es))
    decreases |es|
  {
    if es != [] {
      RunKeepsReferenced(d, es[..|es| - 1]);
      StepKeepsReferenced(Run(d, es[..|es| - 1]), es[|es| - 1]);
    }
  }

  /** When the statements that can fail succeed: keys are new, referenced rows are there, and a registration's alias is free. */
  lemma SucceedExactly(d: Data, e: Event)
    ensures Registers(d, e) <==> e.Register? && e.aliasFree && e.buildId !in d.builds && e.buildId !in d.active
    ensures CreatesTemplate(d, e) <==> e.SnapshotTemplate? && e.templateId !in d.envs && e.buildId in d.builds
    ensures Snapshots(d, e) <==>
              && e.Snapshot? && e.buildId !in d.builds
              && if e.p.sandboxId in d.snapshots
                 then d.snapshots[e.p.sandboxId].envId in d.envs && d.snapshots[e.p.sandboxId].baseEnvId in d.envs
                 else e.p.templateId !in d.envs && (e.p.baseTemplateId in d.envs || e.p.baseTemplateId == e.p.templateId)
  {
  }

  // ---------- What the larger statements leave ----------

  /** A registration: a missing template is created, older builds it supersedes fail, and the new one waits, active, for the caller. */
  lemma RegisteredExactly(d: Data, e: Event)
    requires Registers(d, e)
    ensures
      var after := Step(d, e);
      && after.envs == (if e.templateId in d.envs then d.envs else d.envs[e.templateId := Env(e.teamId, TemplateSource)])
      && after.snapshots == d.snapshots && after.aliases == d.aliases
      && after.builds.Keys == d.builds.Keys + {e.buildId} && e.buildId !in d.builds
      && after.builds[e.buildId] == Waiting
      && (forall b :: b in d.builds ==> after.builds[b] == if Superseded(d, e.templateId, TagsOf(e), b) then Failed else d.builds[b])
      && after.active.Keys == (set b | b in d.active && !Superseded(d, e.templateId, TagsOf(e), b)) + {e.buildId}
      && after.active[e.buildId] == ActiveBuild(e.teamId, e.templateId, if e.tags == [] then ["default"] else e.tags)
      && (forall b :: b in after.active && b != e.buildId ==> after.active[b] == d.active[b])
  {
  }

  /** An upsert: a first snapshot gets an env of its team, the new build has the given status, and nothing else changes. */
  lemma UpsertedExactly(d: Data, e: Event)
    requires Snapshots(d, e)
    ensures
      var after := Step(d, e);
      && after.envs == (if e.p.sandboxId in d.snapshots then d.envs else d.envs[e.p.templateId := Env(e.p.teamId, SnapshotSource)])
      && e.buildId !in d.builds && after.builds == d.builds[e.buildId := e.p.status]
      && after.active == d.active && after.aliases == d.aliases
      && after.snapshots.Keys == d.snapshots.Keys + {e.p.sandboxId}
      && (forall s :: s in d.snapshots && s != e.p.sandboxId ==> after.snapshots[s] == d.snapshots[s])
      && after.assignments == d.assignments + [Assignment(after.snapshots[e.p.sandboxId].envId, e.buildId, "default", e.now)]
  {
  }

  /** A deletion by the owner: the env, its assignments and aliases, and the snapshots that are it or build on it. Builds and active rows stay. */
  lemma DeletedExactly(d: Data, e: Event)
    requires e.Delete? && e.templateId in d.envs
    ensures
      var after := Step(d, e);
      if d.envs[e.templateId].teamId != e.teamId then after == d
      else
        && after.envs.Keys == d.envs.Keys - {e.templateId} && (forall env :: env in after.envs ==> after.envs[env] == d.envs[env])
        && (forall s :: s in after.snapshots <==> s in d.snapshots && d.snapshots[s].envId != e.templateId && d.snapshots[s].baseEnvId != e.templateId)
        && (forall s :: s in after.snapshots ==> after.snapshots[s] == d.snapshots[s])
        && (forall a :: a in after.assignments <==> a in d.assignments && a.envId != e.templateId)
        && (forall a :: a in after.aliases <==> a in d.aliases && a.envId != e.templateId)
        && after.builds == d.builds && after.active == d.active
  {
    FilterMembers(AssignedElsewhere(e.templateId), d.assignments);
    FilterMembers(AliasElsewhere(e.templateId), d.aliases);
  }

  // ---------- Builds ----------

  predicate PendingBuild(d: Data, b: BuildId) { b in d.builds && GroupOf(d.builds[b]).PendingGroup? }

  predicate ReadyBuild(d: Data, b: BuildId) { b in d.builds && GroupOf(d.builds[b]).ReadyGroup? }

  /** No statement deletes a build. */
  lemma StepKeepsBuilds(d: Data, e: Event)
    ensures d.builds.Keys <= Step(d, e).builds.Keys
  {
  }

  /** The template and tag pairs a build is assigned under. */
  function Slots(d: Data, b: BuildId): set<(string, string)> {
    set a | a in d.assignments && a.buildId == b :: (a.envId, a.tag)
  }

  /** A registration supersedes the pending builds that hold one of its slots. */
  predicate Hits(slots: set<(string, string)>, e: Event)
    requires e.Register?
  {
    exists tag :: tag in TagsOf(e) && (e.templateId, tag) in slots
  }

  lemma SupersededHolds(d: Data, e: Event, b: BuildId)
    requires e.Register?
    ensures Superseded(d, e.templateId, TagsOf(e), b) <==> PendingBuild(d, b) && Hits(Slots(d, b), e)
  {
    if PendingBuild(d, b) && Hits(Slots(d, b), e) {
      var tag :| tag in TagsOf(e) && (e.templateId, tag) in Slots(d, b);
      var a :| a in d.assignments && a.buildId == b && (a.envId, a.tag) == (e.templateId, tag);
      assert a.tag in TagsOf(e);
    }
    if Superseded(d, e.templateId, TagsOf(e), b) {
      var a :| a in d.assignments && a.buildId == b && a.envId == e.templateId && a.tag in TagsOf(e);
      assert (e.templateId, a.tag) in Slots(d, b);
    }
  }

  /** Whether a statement leaves a build pending. */
  lemma StepPending(d: Data, e: Event, b: BuildId)
    ensures PendingBuild(Step(d, e), b) <==>
              if SetsStatus(e, b) then b in d.builds && GroupOf(e.status).PendingGroup?
              else if Registers(d, e) then b == e.buildId || (PendingBuild(d, b) && !Hits(Slots(d, b), e))
              else if Snapshots(d, e) && e.buildId == b then GroupOf(e.p.status).PendingGroup?
              else PendingBuild(d, b)
  {
    if Registers(d, e) {
      SupersededHolds(d, e, b);
    }
  }
}
