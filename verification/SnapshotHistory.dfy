/**
  Snapshots over every run of the table statements: how snapshot rows and
  snapshot envs correspond, and what the last snapshot of a sandbox is.
 */
module SnapshotHistory {
  import opened Common
  import opened Tables
  import opened TableRuns

  // ---------- Snapshot rows and snapshot envs ----------

  predicate IsSnapshotEnv(d: Data, env: string) {
    env in d.envs && d.envs[env].source.SnapshotSource?
  }

  /** Every snapshot row has a snapshot env of its own, and no env is the placeholder. */
  ghost predicate RowsApart(d: Data) {
    && (forall s :: s in d.snapshots ==> IsSnapshotEnv(d, d.snapshots[s].envId))
    && (forall s, t :: s in d.snapshots && t in d.snapshots && d.snapshots[s].envId == d.snapshots[t].envId ==> s == t)
    && "" !in d.envs
  }

  ghost predicate HasRow(d: Data, env: string) { exists s :: s in d.snapshots && d.snapshots[s].envId == env }

  /** And every snapshot env has a row. */
  ghost predicate Bijection(d: Data) {
    RowsApart(d) && forall env :: IsSnapshotEnv(d, env) ==> HasRow(d, env)
  }

  /** Generated template IDs are never empty. */
  predicate Generated(e: Event) {
    && (e.Snapshot? ==> e.p.templateId != "")
    && (e.Register? || e.SnapshotTemplate? ==> e.templateId != "")
  }

  /** No other snapshot is based on the env: what the handler checks before it deletes. */
  ghost predicate NotBase(d: Data, templateId: string) {
    forall s :: s in d.snapshots && d.snapshots[s].baseEnvId == templateId ==> d.snapshots[s].envId == templateId
  }

  lemma StepKeepsApart(d: Data, e: Event)
    requires RowsApart(d) && Generated(e)
    ensures RowsApart(Step(d, e))
    ensures SameOwners(d, Step(d, e))
  {
    if e.Snapshot? {
      SnapshotKeepsApart(d, e);
    } else if !e.Delete? {
      SameRowsKeepApart(d, e);
    }
  }

  lemma SnapshotKeepsApart(d: Data, e: Event)
    requires RowsApart(d) && Generated(e) && e.Snapshot?
    ensures RowsApart(Step(d, e)) && SameOwners(d, Step(d, e))
  {
    if Snapshots(d, e) {
      UpsertedRows(d, e);
      ApartGrows(d, Step(d, e), e.p.sandboxId, EnvOfSnapshot(d, e.p));
    }
  }

  /** Rows that stay keep their env and team. */
  ghost predicate SameOwners(d: Data, after: Data) {
    forall s :: s in d.snapshots && s in after.snapshots ==>
      after.snapshots[s].envId == d.snapshots[s].envId && after.snapshots[s].teamId == d.snapshots[s].teamId
  }

  lemma UpsertedRows(d: Data, e: Event)
    requires Snapshots(d, e)
    ensures var after, s, env := Step(d, e), e.p.sandboxId, EnvOfSnapshot(d, e.p);
      && after.snapshots.Keys == d.snapshots.Keys + {s} && after.snapshots[s].envId == env
      && (forall t :: t in d.snapshots && t != s ==> after.snapshots[t] == d.snapshots[t])
      && (s in d.snapshots ==> after.snapshots[s].teamId == d.snapshots[s].teamId && after.envs == d.envs)
      && (s !in d.snapshots ==> env !in d.envs && after.envs == d.envs[env := Env(e.p.teamId, SnapshotSource)])
  {
  }

  lemma ApartGrows(d: Data, after: Data, s: string, env: string)
    requires RowsApart(d) && env != ""
    requires after.snapshots.Keys == d.snapshots.Keys + {s} && after.snapshots[s].envId == env
    requires forall t :: t in d.snapshots && t != s ==> after.snapshots[t] == d.snapshots[t]
    requires s in d.snapshots ==> after.envs == d.envs && env == d.snapshots[s].envId && after.snapshots[s].teamId == d.snapshots[s].teamId
    requires s !in d.snapshots ==> env !in d.envs && env in after.envs && after.envs == d.envs[env := after.envs[env]] && IsSnapshotEnv(after, env)
    ensures RowsApart(after) && SameOwners(d, after)
  {
  }

  /** Statements that leave the snapshot rows alone add no snapshot env. */
  lemma SameRowsKeepApart(d: Data, e: Event)
    requires RowsApart(d) && Generated(e) && !e.Snapshot? && !e.Delete?
    ensures Step(d, e).snapshots == d.snapshots
    ensures forall env :: IsSnapshotEnv(Step(d, e), env) <==> IsSnapshotEnv(d, env)
    ensures RowsApart(Step(d, e))
  {
  }

  lemma DeleteKeepsBijection(d: Data, e: Event)
    requires Bijection(d) && Generated(e) && Drops(d, e)
    ensures Bijection(Step(d, e)) <==> NotBase(d, e.templateId)
  {
    StepKeepsApart(d, e);
    var after := Step(d, e);
    if NotBase(d, e.templateId) {
      forall env | IsSnapshotEnv(after, env) ensures HasRow(after, env) {
        assert IsSnapshotEnv(d, env) && HasRow(d, env);
        var s :| s in d.snapshots && d.snapshots[s].envId == env;
        assert after.snapshots[s].envId == env;
      }
    } else {
      var s :| s in d.snapshots && d.snapshots[s].baseEnvId == e.templateId && d.snapshots[s].envId != e.templateId;
      assert IsSnapshotEnv(after, d.snapshots[s].envId) && !HasRow(after, d.snapshots[s].envId);
    }
  }

  lemma OthersKeepBijection(d: Data, e: Event)
    requires Bijection(d) && Generated(e) && !Drops(d, e)
    ensures Bijection(Step(d, e))
  {
    StepKeepsApart(d, e);
    var after := Step(d, e);
    forall env | IsSnapshotEnv(after, env) ensures HasRow(after, env) {
      if IsSnapshotEnv(d, env) {
        var s :| s in d.snapshots && d.snapshots[s].envId == env;
        assert after.snapshots[s].envId == env;
      } else {
        assert after.snapshots[e.p.sandboxId].envId == env;
      }
    }
  }

  /** A statement keeps snapshot rows and snapshot envs in correspondence if and only if it deletes no env that another snapshot is based on. */
  lemma StepKeepsBijectionExactly(d: Data, e: Event)
    requires Bijection(d) && Generated(e)
    ensures Bijection(Step(d, e)) <==> (Drops(d, e) ==> NotBase(d, e.templateId))
  {
    if Drops(d, e) { DeleteKeepsBijection(d, e); } else { OthersKeepBijection(d, e); }
  }

  ghost predicate AllGenerated(es: seq<Event>) { forall i :: 0 <= i < |es| ==> Generated(es[i]) }

  ghost predicate DeletesNoBase(d: Data, es: seq<Event>) {
    forall i :: 0 <= i < |es| && Drops(Run(d, es[..i]), es[i]) ==> NotBase(Run(d, es[..i]), es[i].templateId)
  }

  lemma {:induction false} RunKeepsApart(d: Data, es: seq<Event>)
    requires RowsApart(d) && AllGenerated(es)
    ensures RowsApart(Run(d, es))
    decreases |es|
  {
    if es != [] {
      RunKeepsApart(d, es[..|es| - 1]);
      assert Generated(es[|es| - 1]);
      StepKeepsApart(Run(d, es[..|es| - 1]), es[|es| - 1]);
    }
  }

  /** Over every run of all statements the correspondence holds. */
  lemma {:induction false} RunKeepsBijection(d: Data, es: seq<Event>)
    requires Bijection(d) && AllGenerated(es) && DeletesNoBase(d, es)
    ensures Bijection(Run(d, es))
    decreases |es|
  {
    if es != [] {
      var front, last := es[..|es| - 1], es[|es| - 1];
      forall i | 0 <= i < |front| && Drops(Run(d, front[..i]), front[i]) ensures NotBase(Run(d, front[..i]), front[i].templateId) {
        assert front[..i] == es[..i];
      }
      RunKeepsBijection(d, front);
      assert Generated(last);
      assert es[..|front|] == front;
      StepKeepsBijectionExactly(Run(d, front), last);
    }
  }

  predicate HasSnapshot(d: Data, es: seq<Event>, i: nat, s: string)
    requires i <= |es|
  {
    s in Run(d, es[..i]).snapshots
  }

  function SnapshotAt(d: Data, es: seq<Event>, i: nat, s: string): Tables.Snapshot
    requires i <= |es| && HasSnapshot(d, es, i, s)
  {
    Run(d, es[..i]).snapshots[s]
  }

  lemma SnapshotNext(d: Data, es: seq<Event>, i: nat, s: string)
    requires RowsApart(d) && AllGenerated(es) && i < |es| && HasSnapshot(d, es, i, s) && HasSnapshot(d, es, i + 1, s)
    ensures SnapshotAt(d, es, i + 1, s).envId == SnapshotAt(d, es, i, s).envId
    ensures SnapshotAt(d, es, i + 1, s).teamId == SnapshotAt(d, es, i, s).teamId
  {
    assert es[..i + 1] == es[..i] + [es[i]];
    RunSnoc(d, es[..i], es[i]);
    RunKeepsApart(d, es[..i]);
    assert Generated(es[i]);
    StepKeepsApart(Run(d, es[..i]), es[i]);
  }

  /** While its row is not deleted, a sandbox keeps the env it was first given, and its team. */
  lemma {:induction false} RowKeepsEnv(d: Data, es: seq<Event>, n: nat, m: nat, s: string)
    requires RowsApart(d) && AllGenerated(es) && n <= m <= |es|
    requires forall i :: n <= i <= m ==> HasSnapshot(d, es, i, s)
    ensures SnapshotAt(d, es, m, s).envId == SnapshotAt(d, es, n, s).envId
    ensures SnapshotAt(d, es, m, s).teamId == SnapshotAt(d, es, n, s).teamId
    decreases m
  {
    if n < m {
      RowKeepsEnv(d, es, n, m - 1, s);
      SnapshotNext(d, es, m - 1, s);
    }
  }

  // ---------- What a row says ----------

  /** The latest successful upsert of a sandbox since its row was created. */
  function LatestUpsert(d: Data, es: seq<Event>, s: string): Option<Event> {
    if es == [] || s !in Run(d, es).snapshots then None
    else
      var front, last := es[..|es| - 1], es[|es| - 1];
      if Snapshots(Run(d, front), last) && last.p.sandboxId == s then Some(last) else LatestUpsert(d, front, s)
  }

  /** The upsert that created its row. */
  function FirstUpsert(d: Data, es: seq<Event>, s: string): Option<Event> {
    if es == [] || s !in Run(d, es).snapshots then None
    else
      var front, last := es[..|es| - 1], es[|es| - 1];
      if s !in Run(d, front).snapshots then Some(last) else FirstUpsert(d, front, s)
  }

  /** What the row takes from the upsert that created it. */
  ghost predicate Founded(row: Tables.Snapshot, first: Event) {
    && first.Snapshot?
    && row.envId == first.p.templateId && row.baseEnvId == first.p.baseTemplateId && row.teamId == first.p.teamId
    && row.createdAt == first.now && row.envSecure == first.p.secure && row.allowInternetAccess == first.p.allowInternetAccess
  }

  /** What it takes from the latest one. */
  ghost predicate Refreshed(row: Tables.Snapshot, latest: Event) {
    && latest.Snapshot?
    && row.metadata == latest.p.metadata && row.startedAt == latest.p.startedAt && row.originNodeId == latest.p.originNodeId
    && row.autoPause == latest.p.autoPause && row.config == latest.p.config
  }

  lemma StepRow(d: Data, e: Event, s: string)
    requires s in Step(d, e).snapshots
    ensures !(Snapshots(d, e) && e.p.sandboxId == s) ==> s in d.snapshots && Step(d, e).snapshots[s] == d.snapshots[s]
    ensures Snapshots(d, e) && e.p.sandboxId == s ==> Refreshed(Step(d, e).snapshots[s], e)
    ensures Snapshots(d, e) && e.p.sandboxId == s && s !in d.snapshots ==> Founded(Step(d, e).snapshots[s], e)
    ensures Snapshots(d, e) && e.p.sandboxId == s && s in d.snapshots ==>
              forall first :: Founded(d.snapshots[s], first) ==> Founded(Step(d, e).snapshots[s], first)
  {
  }

  /** Over every run a row says what its first upsert and its latest one said. */
  lemma {:induction false} RowRefines(d: Data, es: seq<Event>, s: string)
    requires d.snapshots == map[] && s in Run(d, es).snapshots
    ensures FirstUpsert(d, es, s).Some? && Founded(Run(d, es).snapshots[s], FirstUpsert(d, es, s).value)
    ensures LatestUpsert(d, es, s).Some? && Refreshed(Run(d, es).snapshots[s], LatestUpsert(d, es, s).value)
    decreases |es|
  {
    if es != [] {
      var front, last := es[..|es| - 1], es[|es| - 1];
      StepRow(Run(d, front), last, s);
      if s in Run(d, front).snapshots {
        RowRefines(d, front, s);
      }
    }
  }

  // ---------- Default assignments ----------

  function DefaultOn(env: string): Assignment -> bool { (a: Assignment) => a.envId == env && a.tag == DEFAULT_TAG }

  function DefaultOnSnapshot(d: Data): Assignment -> bool {
    (a: Assignment) => a.tag == DEFAULT_TAG && IsSnapshotEnv(d, a.envId)
  }

  /** Registrations and tags leave the default tag of snapshot envs to the upserts. */
  predicate Separate(d: Data, e: Event) {
    && (e.Register? && DEFAULT_TAG in TagsOf(e) ==> !IsSnapshotEnv(d, e.templateId))
    && (e.Tag? && e.tag == DEFAULT_TAG ==> !IsSnapshotEnv(d, e.templateId))
    && (e.Untag? && DEFAULT_TAG in e.tags ==> !IsSnapshotEnv(d, e.templateId))
  }

  ghost predicate AllSeparate(d: Data, es: seq<Event>) {
    forall i :: 0 <= i < |es| ==> Separate(Run(d, es[..i]), es[i])
  }

  lemma SeparateFront(d: Data, es: seq<Event>)
    requires AllSeparate(d, es) && es != []
    ensures AllSeparate(d, es[..|es| - 1]) && Separate(Run(d, es[..|es| - 1]), es[|es| - 1])
  {
    var front := es[..|es| - 1];
    forall i | 0 <= i < |front| ensures Separate(Run(d, front[..i]), front[i]) {
      assert front[..i] == es[..i];
    }
  }

  /** The only default row a separate statement adds to a snapshot env is an upsert's. */
  lemma AddedDefaults(d: Data, e: Event, a: Assignment)
    requires Separate(d, e) && a in Added(d, e) && a.tag == DEFAULT_TAG && IsSnapshotEnv(Step(d, e), a.envId)
    ensures Snapshots(d, e)
  {
    if e.Register? {
      InTagRows(e.templateId, e.buildId, TagsOf(e), e.now);
    }
  }

  /** A statement only appends rows, or only filters them. */
  lemma AssignmentsShape(d: Data, e: Event)
    ensures Step(d, e).assignments ==
      if e.Untag? then Filter(NotUnder(e.templateId, e.tags), d.assignments)
      else if Drops(d, e) then Filter(AssignedElsewhere(e.templateId), d.assignments)
      else d.assignments + Added(d, e)
  {
  }

  /** Unless it is an upsert into the env or deletes it, a statement leaves the default rows of a snapshot env alone. */
  lemma DefaultRowsStay(d: Data, e: Event, env: string)
    requires Separate(d, e) && IsSnapshotEnv(d, env)
    requires Snapshots(d, e) ==> EnvOfSnapshot(d, e.p) != env
    requires Drops(d, e) ==> e.templateId != env
    ensures Filter(DefaultOn(env), Step(d, e).assignments) == Filter(DefaultOn(env), d.assignments)
  {
    AssignmentsShape(d, e);
    if e.Untag? {
      FilterWithin(DefaultOn(env), NotUnder(e.templateId, e.tags), d.assignments);
    } else if Drops(d, e) {
      FilterWithin(DefaultOn(env), AssignedElsewhere(e.templateId), d.assignments);
    } else {
      FilterConcat(DefaultOn(env), d.assignments, Added(d, e));
      forall a | a in Added(d, e) ensures !DefaultOn(env)(a) {
        if a.envId == env && a.tag == DEFAULT_TAG {
          AddedDefaults(d, e, a);
        }
      }
      FilterNone(DefaultOn(env), Added(d, e));
    }
  }

  lemma UpsertAddsDefault(d: Data, e: Event, env: string)
    requires Snapshots(d, e) && EnvOfSnapshot(d, e.p) == env
    ensures Filter(DefaultOn(env), Step(d, e).assignments)
         == Filter(DefaultOn(env), d.assignments) + [Assignment(env, e.buildId, DEFAULT_TAG, e.now)]
  {
    var added := Assignment(env, e.buildId, DEFAULT_TAG, e.now);
    FilterConcat(DefaultOn(env), d.assignments, [added]);
    assert Filter(DefaultOn(env), [added]) == [added];
  }

  lemma NoneOnNewEnv(d: Data, env: string)
    requires Referenced(d) && env !in d.envs
    ensures Filter(DefaultOn(env), d.assignments) == []
  {
    FilterNone(DefaultOn(env), d.assignments);
  }

  // ---------- Counting ----------

  /** The default rows that go with a deleted snapshot env. */
  function Removed(d: Data, e: Event): nat {
    if Drops(d, e) && IsSnapshotEnv(d, e.templateId) then |Filter(DefaultOn(e.templateId), d.assignments)| else 0
  }

  function CountUpserts(d: Data, es: seq<Event>): nat {
    if es == [] then 0
    else CountUpserts(d, es[..|es| - 1]) + if Snapshots(Run(d, es[..|es| - 1]), es[|es| - 1]) then 1 else 0
  }

  function CountRemoved(d: Data, es: seq<Event>): nat {
    if es == [] then 0 else CountRemoved(d, es[..|es| - 1]) + Removed(Run(d, es[..|es| - 1]), es[|es| - 1])
  }

  function Defaults(d: Data): nat { |Filter(DefaultOnSnapshot(d), d.assignments)| }

  /** On the rows there were, being a default row of a snapshot env does not change while the env is there. */
  lemma SameDefaults(d: Data, e: Event)
    requires Referenced(d)
    ensures forall a :: a in d.assignments && Keeps(d, e, a) ==> DefaultOnSnapshot(Step(d, e))(a) == DefaultOnSnapshot(d)(a)
  {
  }

  lemma StepCounts(d: Data, e: Event)
    requires RowsApart(d) && Referenced(d) && Separate(d, e) && Generated(e)
    ensures Defaults(Step(d, e)) + Removed(d, e) == Defaults(d) + if Snapshots(d, e) then 1 else 0
  {
    AssignmentsShape(d, e);
    SameDefaults(d, e);
    if e.Untag? {
      FilterWithin(DefaultOnSnapshot(d), NotUnder(e.templateId, e.tags), d.assignments);
      FilterAgree(DefaultOnSnapshot(Step(d, e)), DefaultOnSnapshot(d), Step(d, e).assignments);
    } else if Drops(d, e) {
      DropCounts(d, e);
    } else {
      AppendCounts(d, e);
    }
  }

  lemma DropCounts(d: Data, e: Event)
    requires Referenced(d) && Drops(d, e)
    ensures Defaults(Step(d, e)) + Removed(d, e) == Defaults(d)
  {
    var after, elsewhere := Step(d, e), AssignedElsewhere(e.templateId);
    SameDefaults(d, e);
    FilterMembers(elsewhere, d.assignments);
    FilterAgree(DefaultOnSnapshot(after), DefaultOnSnapshot(d), after.assignments);
    if IsSnapshotEnv(d, e.templateId) {
      FilterCount(DefaultOnSnapshot(d), elsewhere, DefaultOn(e.templateId), d.assignments);
    } else {
      FilterWithin(DefaultOnSnapshot(d), elsewhere, d.assignments);
    }
  }

  lemma AppendCounts(d: Data, e: Event)
    requires RowsApart(d) && Referenced(d) && Separate(d, e) && Generated(e) && !e.Untag? && !Drops(d, e)
    ensures Defaults(Step(d, e)) == Defaults(d) + if Snapshots(d, e) then 1 else 0
  {
    var after := Step(d, e);
    var p := DefaultOnSnapshot(after);
    AssignmentsShape(d, e);
    SameDefaults(d, e);
    FilterAgree(p, DefaultOnSnapshot(d), d.assignments);
    FilterConcat(p, d.assignments, Added(d, e));
    if Snapshots(d, e) {
      StepKeepsApart(d, e);
      assert Filter(p, Added(d, e)) == Added(d, e);
    } else {
      forall a | a in Added(d, e) ensures !p(a) {
        if p(a) { AddedDefaults(d, e, a); }
      }
      FilterNone(p, Added(d, e));
    }
  }

  /** Default rows on snapshot envs number the upserts that succeeded, less the rows deleted with their env. */
  lemma {:induction false} DefaultAssignmentsCount(d: Data, es: seq<Event>)
    requires RowsApart(d) && Referenced(d) && AllGenerated(es) && AllSeparate(d, es)
    ensures Defaults(Run(d, es)) + CountRemoved(d, es) == Defaults(d) + CountUpserts(d, es)
    decreases |es|
  {
    if es != [] {
      var front, last := es[..|es| - 1], es[|es| - 1];
      SeparateFront(d, es);
      DefaultAssignmentsCount(d, front);
      RunKeepsApart(d, front);
      RunKeepsReferenced(d, front);
      assert Generated(last);
      StepCounts(Run(d, front), last);
    }
  }

  // ---------- The last snapshot ----------

  function CandidateFor(d: Data, env: string): Assignment -> bool {
    (a: Assignment) => a.envId == env && a.tag == DEFAULT_TAG && a.buildId in d.builds && GroupOf(d.builds[a.buildId]).ReadyGroup?
  }

  /** ORDER BY created_at DESC LIMIT 1. */
  function Newest(s: seq<Assignment>): (a: Assignment)
    requires s != []
    ensures a in s && forall x :: x in s ==> x.createdAt <= a.createdAt
  {
    if |s| == 1 then s[0]
    else
      var rest := Newest(s[1..]);
      if rest.createdAt > s[0].createdAt then rest else s[0]
  }

  /** GetLastSnapshot: the snapshot row and the build of its newest ready default assignment. */
  function GetLastSnapshot(d: Data, sandboxId: string): Option<(Snapshot, BuildId)> {
    if sandboxId !in d.snapshots then None
    else
      var candidates := Filter(CandidateFor(d, d.snapshots[sandboxId].envId), d.assignments);
      if candidates == [] then None else Some((d.snapshots[sandboxId], Newest(candidates).buildId))
  }

  /** A snapshot taken: its build and its time. */
  datatype Taken = Taken(buildId: BuildId, now: int)

  /** The successful upserts of one sandbox since its row was created, oldest first. */
  function UpsertsOf(d: Data, es: seq<Event>, sandboxId: string): seq<Taken> {
    if es == [] || sandboxId !in Run(d, es).snapshots then []
    else
      var front, last := es[..|es| - 1], es[|es| - 1];
      UpsertsOf(d, front, sandboxId)
      + if Snapshots(Run(d, front), last) && last.p.sandboxId == sandboxId then [Taken(last.buildId, last.now)] else []
  }

  function RowOf(env: string): Taken -> Assignment { (u: Taken) => Assignment(env, u.buildId, DEFAULT_TAG, u.now) }

  /** Tables before any snapshot was taken. */
  ghost predicate NoSnapshots(d: Data) {
    d.snapshots == map[] && Referenced(d) && "" !in d.envs && forall env :: !IsSnapshotEnv(d, env)
  }

  lemma MapSnoc(env: string, upserts: seq<Taken>, u: Taken)
    ensures Map(RowOf(env), upserts + [u]) == Map(RowOf(env), upserts) + [RowOf(env)(u)]
  {
  }

  /** The default rows of a sandbox's env are its upserts, in order, whatever ran between them. */
  lemma {:induction false} AssignmentsRefine(d: Data, es: seq<Event>, s: string)
    requires NoSnapshots(d) && AllGenerated(es) && AllSeparate(d, es)
    ensures s in Run(d, es).snapshots ==>
              Filter(DefaultOn(Run(d, es).snapshots[s].envId), Run(d, es).assignments)
              == Map(RowOf(Run(d, es).snapshots[s].envId), UpsertsOf(d, es, s))
    decreases |es|
  {
    if es != [] && s in Run(d, es).snapshots {
      var front, last := es[..|es| - 1], es[|es| - 1];
      SeparateFront(d, es);
      AssignmentsRefine(d, front, s);
      RunKeepsApart(d, front);
      RunKeepsReferenced(d, front);
      assert Generated(last);
      StepRefines(Run(d, front), last, s, UpsertsOf(d, front, s));
    }
  }

  lemma StepRefines(d: Data, e: Event, s: string, upserts: seq<Taken>)
    requires RowsApart(d) && Referenced(d) && Generated(e) && Separate(d, e) && s in Step(d, e).snapshots
    requires if s in d.snapshots then Filter(DefaultOn(d.snapshots[s].envId), d.assignments) == Map(RowOf(d.snapshots[s].envId), upserts)
             else upserts == []
    ensures Filter(DefaultOn(Step(d, e).snapshots[s].envId), Step(d, e).assignments)
         == Map(RowOf(Step(d, e).snapshots[s].envId), upserts + if Snapshots(d, e) && e.p.sandboxId == s then [Taken(e.buildId, e.now)] else [])
  {
    if Snapshots(d, e) && e.p.sandboxId == s {
      UpsertRefines(d, e, upserts);
    } else {
      RowStays(d, e, s);
      DefaultRowsStay(d, e, d.snapshots[s].envId);
      assert upserts + [] == upserts;
    }
  }

  /** A row that is there after the step, and not put there by it, was there with the same env, which the step neither deletes nor fills. */
  lemma RowStays(d: Data, e: Event, s: string)
    requires RowsApart(d) && Generated(e) && s in Step(d, e).snapshots && !(Snapshots(d, e) && e.p.sandboxId == s)
    ensures s in d.snapshots && Step(d, e).snapshots[s].envId == d.snapshots[s].envId
    ensures Snapshots(d, e) ==> EnvOfSnapshot(d, e.p) != d.snapshots[s].envId
    ensures Drops(d, e) ==> e.templateId != d.snapshots[s].envId
  {
  }

  lemma UpsertRefines(d: Data, e: Event, upserts: seq<Taken>)
    requires Referenced(d) && Snapshots(d, e)
    requires
      var s, env := e.p.sandboxId, EnvOfSnapshot(d, e.p);
      if s in d.snapshots then Filter(DefaultOn(env), d.assignments) == Map(RowOf(env), upserts) else upserts == []
    ensures e.p.sandboxId in Step(d, e).snapshots && Step(d, e).snapshots[e.p.sandboxId].envId == EnvOfSnapshot(d, e.p)
    ensures Filter(DefaultOn(EnvOfSnapshot(d, e.p)), Step(d, e).assignments)
         == Map(RowOf(EnvOfSnapshot(d, e.p)), upserts + [Taken(e.buildId, e.now)])
  {
    var env := EnvOfSnapshot(d, e.p);
    UpsertedRows(d, e);
    UpsertAddsDefault(d, e, env);
    MapSnoc(env, upserts, Taken(e.buildId, e.now));
    if e.p.sandboxId !in d.snapshots {
      NoneOnNewEnv(d, env);
    }
  }

  /** Assignment times strictly increase along the run. */
  ghost predicate TimesIncrease(es: seq<Event>) {
    forall i, j :: 0 <= i < j < |es| && es[i].Snapshot? && es[j].Snapshot? ==> es[i].now < es[j].now
  }

  lemma {:induction false} UpsertTimes(d: Data, es: seq<Event>, s: string)
    requires TimesIncrease(es)
    ensures forall i, j :: 0 <= i < j < |UpsertsOf(d, es, s)| ==> UpsertsOf(d, es, s)[i].now < UpsertsOf(d, es, s)[j].now
    ensures forall u :: u in UpsertsOf(d, es, s) ==> exists k :: 0 <= k < |es| && es[k].Snapshot? && es[k].now == u.now
    decreases |es|
  {
    if es != [] && s in Run(d, es).snapshots {
      var front, last := es[..|es| - 1], es[|es| - 1];
      UpsertTimes(d, front, s);
      var ups := UpsertsOf(d, front, s);
      forall u | u in ups ensures exists k :: 0 <= k < |es| - 1 && es[k].Snapshot? && es[k].now == u.now {
        var k :| 0 <= k < |front| && front[k].Snapshot? && front[k].now == u.now;
        assert es[k] == front[k];
      }
      forall i | 0 <= i < |ups| && last.Snapshot? ensures ups[i].now < last.now {
        assert ups[i] in ups;
      }
    }
  }

  lemma {:induction false} NewestIsLast(s: seq<Assignment>)
    requires s != []
    requires forall i, j :: 0 <= i < j < |s| ==> s[i].createdAt < s[j].createdAt
    ensures Newest(s) == s[|s| - 1]
  {
    if |s| > 1 {
      NewestIsLast(s[1..]);
    }
  }

  predicate Earlier(a: Taken, b: Taken) { a.now < b.now }

  lemma {:induction false} FilterEarlier(p: Taken -> bool, s: seq<Taken>)
    requires forall i, j :: 0 <= i < j < |s| ==> Earlier(s[i], s[j])
    ensures forall i, j :: 0 <= i < j < |Filter(p, s)| ==> Earlier(Filter(p, s)[i], Filter(p, s)[j])
  {
    if s != [] {
      FilterEarlier(p, s[1..]);
      FilterMembers(p, s[1..]);
      forall x | x in Filter(p, s[1..]) ensures Earlier(s[0], x) {
        var j :| 0 <= j < |s[1..]| && s[1..][j] == x;
        assert Earlier(s[0], s[j + 1]);
      }
    }
  }

  function ReadyRow(d: Data): Assignment -> bool { (a: Assignment) => ReadyBuild(d, a.buildId) }

  function IsReady(d: Data): Taken -> bool { (u: Taken) => ReadyBuild(d, u.buildId) }

  lemma CandidatesSplit(d: Data, env: string)
    ensures Filter(CandidateFor(d, env), d.assignments) == Filter(ReadyRow(d), Filter(DefaultOn(env), d.assignments))
  {
    FilterTwice(ReadyRow(d), DefaultOn(env), d.assignments);
    FilterAgree(CandidateFor(d, env), Both(ReadyRow(d), DefaultOn(env)), d.assignments);
  }

  /** The query's candidates are the upserts whose build is ready, as rows. */
  lemma CandidatesRefine(d: Data, es: seq<Event>, s: string)
    requires NoSnapshots(d) && AllGenerated(es) && AllSeparate(d, es) && s in Run(d, es).snapshots
    ensures
      var now := Run(d, es);
      var env := now.snapshots[s].envId;
      Filter(CandidateFor(now, env), now.assignments) == Map(RowOf(env), Filter(IsReady(now), UpsertsOf(d, es, s)))
  {
    var now := Run(d, es);
    var env := now.snapshots[s].envId;
    CandidatesSplit(now, env);
    AssignmentsRefine(d, es, s);
    FilterMap(ReadyRow(now), IsReady(now), RowOf(env), UpsertsOf(d, es, s));
  }

  /** The newest upsert that satisfies `p`. */
  function NewestUpsert(p: Taken -> bool, upserts: seq<Taken>): Option<BuildId> {
    var chosen := Filter(p, upserts);
    if chosen == [] then None else Some(chosen[|chosen| - 1].buildId)
  }

  /** The last snapshot is the build of the newest upsert whose build is ready, and nothing exactly when none is. */
  lemma LastSnapshotIsNewestReady(d: Data, es: seq<Event>, s: string)
    requires NoSnapshots(d) && AllGenerated(es) && AllSeparate(d, es) && TimesIncrease(es)
    ensures
      var newest := NewestUpsert(IsReady(Run(d, es)), UpsertsOf(d, es, s));
      GetLastSnapshot(Run(d, es), s) == if newest.None? then None else Some((Run(d, es).snapshots[s], newest.value))
  {
    var now := Run(d, es);
    if s in now.snapshots {
      var env := now.snapshots[s].envId;
      CandidatesRefine(d, es, s);
      var ready := Filter(IsReady(now), UpsertsOf(d, es, s));
      UpsertTimes(d, es, s);
      FilterEarlier(IsReady(now), UpsertsOf(d, es, s));
      if ready != [] {
        NewestIsLast(Map(RowOf(env), ready));
      }
    } else if es == [] {
      assert UpsertsOf(d, es, s) == [];
    }
  }

  // ---------- Ready now, and ready once ----------

  /** A statement takes the build out of the ready group. */
  predicate Unreadies(d: Data, e: Event, b: BuildId) {
    SetsStatus(e, b) && ReadyBuild(d, b) && !GroupOf(e.status).ReadyGroup?
  }

  lemma StepReady(d: Data, e: Event, b: BuildId)
    requires ReadyBuild(d, b)
    ensures ReadyBuild(Step(d, e), b) <==> !Unreadies(d, e, b)
  {
  }

  predicate UnreadiedAt(d: Data, es: seq<Event>, i: nat, b: BuildId)
    requires i < |es|
  {
    Unreadies(Run(d, es[..i]), es[i], b)
  }

  predicate ReadyAt(d: Data, es: seq<Event>, i: nat, b: BuildId)
    requires i <= |es|
  {
    ReadyBuild(Run(d, es[..i]), b)
  }

  lemma ReadyNext(d: Data, es: seq<Event>, i: nat, b: BuildId)
    requires i < |es| && ReadyAt(d, es, i, b)
    ensures ReadyAt(d, es, i + 1, b) <==> !UnreadiedAt(d, es, i, b)
  {
    assert es[..i + 1] == es[..i] + [es[i]];
    RunSnoc(d, es[..i], es[i]);
    StepReady(Run(d, es[..i]), es[i], b);
  }

  ghost predicate NeverUnreadied(d: Data, es: seq<Event>, b: BuildId) {
    forall i :: 0 <= i < |es| ==> !UnreadiedAt(d, es, i, b)
  }

  /** At every point of a run where a build has become ready, it is ready. */
  ghost predicate ReadyIsFinal(d: Data, es: seq<Event>, b: BuildId) {
    forall k, n :: 0 <= k <= n <= |es| && ReadyAt(d, es, k, b) ==> ReadyAt(d, es, n, b)
  }

  /** Ready is final all along a run if and only if no statement takes the build out of the ready group. */
  lemma ReadyIsFinalExactly(d: Data, es: seq<Event>, b: BuildId)
    ensures ReadyIsFinal(d, es, b) <==> NeverUnreadied(d, es, b)
  {
    if NeverUnreadied(d, es, b) {
      forall k, n | 0 <= k <= n <= |es| && ReadyAt(d, es, k, b) ensures ReadyAt(d, es, n, b) {
        StaysReady(d, es, b, k, n);
      }
    } else {
      var i :| 0 <= i < |es| && UnreadiedAt(d, es, i, b);
      ReadyNext(d, es, i, b);
      assert ReadyAt(d, es, i, b) && !ReadyAt(d, es, i + 1, b);
    }
  }

  lemma {:induction false} StaysReady(d: Data, es: seq<Event>, b: BuildId, k: nat, n: nat)
    requires NeverUnreadied(d, es, b) && k <= n <= |es| && ReadyAt(d, es, k, b)
    ensures ReadyAt(d, es, n, b)
    decreases n
  {
    if k < n {
      StaysReady(d, es, b, k, n - 1);
      ReadyNext(d, es, n - 1, b);
    }
  }

  ghost predicate BecameReady(d: Data, es: seq<Event>, b: BuildId) {
    exists k :: 0 <= k <= |es| && ReadyAt(d, es, k, b)
  }

  ghost function EverReady(d: Data, es: seq<Event>): Taken -> bool { (u: Taken) => BecameReady(d, es, u.buildId) }

  /** The last snapshot is the build of the newest upsert whose build became ready, and nothing exactly when none did. */
  lemma LastSnapshotRefinesHistory(d: Data, es: seq<Event>, s: string)
    requires NoSnapshots(d) && AllGenerated(es) && AllSeparate(d, es) && TimesIncrease(es)
    requires forall u :: u in UpsertsOf(d, es, s) ==> NeverUnreadied(d, es, u.buildId)
    ensures
      var newest := NewestUpsert(EverReady(d, es), UpsertsOf(d, es, s));
      GetLastSnapshot(Run(d, es), s) == if newest.None? then None else Some((Run(d, es).snapshots[s], newest.value))
  {
    LastSnapshotIsNewestReady(d, es, s);
    assert es[..|es|] == es;
    forall u | u in UpsertsOf(d, es, s) ensures EverReady(d, es)(u) == IsReady(Run(d, es))(u) {
      ReadyIsFinalExactly(d, es, u.buildId);
      assert ReadyAt(d, es, |es|, u.buildId) == ReadyBuild(Run(d, es), u.buildId);
    }
    FilterAgree(EverReady(d, es), IsReady(Run(d, es)), UpsertsOf(d, es, s));
  }
}
