/**
  How the listing's view of the tables follows the statements a pause sends: the
  rows that walks during pauses are about are those the statements leave.
 */
module PauseRefinement {
  import opened Common
  import opened Tables
  import opened TableRuns
  import opened SnapshotHistory
  import Listing = SandboxListing
  import Walk = PauseWalk

  /** Some default-tagged build of the env is ready. */
  ghost predicate HasReady(d: Data, env: string) {
    exists a :: a in d.assignments && a.envId == env && a.tag == "default" && ReadyBuild(d, a.buildId)
  }

  /** The snapshot rows as the listing query sees them. */
  ghost function ListingRows(d: Data): map<string, Listing.SnapshotRow> {
    map s | s in d.snapshots ::
      Listing.SnapshotRow(d.snapshots[s].teamId, s, Listing.Stored(d.snapshots[s].startedAt), d.snapshots[s].metadata,
                          HasReady(d, d.snapshots[s].envId))
  }

  /** A sandbox is listed by its row exactly when it has a last snapshot to resume from. */
  lemma ListedIsResumable(d: Data, s: string)
    requires s in d.snapshots
    ensures ListingRows(d)[s].hasReadyBuild <==> GetLastSnapshot(d, s).Some?
  {
    var env := d.snapshots[s].envId;
    FilterMembers(CandidateFor(d, env), d.assignments);
    var candidates := Filter(CandidateFor(d, env), d.assignments);
    if candidates != [] {
      assert candidates[0] in candidates;
    }
  }

  /** An upsert that starts a new build leaves the readiness of every env as it was; a new env has nothing ready. */
  lemma UpsertKeepsReady(d: Data, e: Event, env: string)
    requires Referenced(d) && Snapshots(d, e) && !GroupOf(e.p.status).ReadyGroup?
    ensures HasReady(Step(d, e), env) <==> HasReady(d, env)
    ensures env !in d.envs ==> !HasReady(d, env)
  {
    StepAssignments(d, e);
    var after := Step(d, e);
    if HasReady(d, env) {
      var a :| a in d.assignments && a.envId == env && a.tag == "default" && ReadyBuild(d, a.buildId);
      assert a in after.assignments && ReadyBuild(after, a.buildId);
    }
    if HasReady(after, env) {
      var a :| a in after.assignments && a.envId == env && a.tag == "default" && ReadyBuild(after, a.buildId);
      assert a in d.assignments && ReadyBuild(d, a.buildId);
    }
  }

  /** The row an upsert leaves is, to the listing, the row that the walk's pause step leaves. */
  lemma UpsertIsUpsertRow(d: Data, e: Event, info: Walk.Info)
    requires Referenced(d) && Snapshots(d, e) && !GroupOf(e.p.status).ReadyGroup?
    requires e.p.startedAt == info.startTime && e.p.metadata == Walk.StoredMetadata(info.metadata)
    ensures ListingRows(Step(d, e)) ==
            ListingRows(d)[e.p.sandboxId := Walk.UpsertedRow(e.p.teamId, e.p.sandboxId, info, ListingRows(d))]
  {
    var s, after := e.p.sandboxId, Step(d, e);
    var rows, expected := ListingRows(after), ListingRows(d)[s := Walk.UpsertedRow(e.p.teamId, s, info, ListingRows(d))];
    UpsertedRows(d, e);
    assert rows.Keys == expected.Keys;
    forall t | t in after.snapshots ensures rows[t] == expected[t] {
      UpsertKeepsReady(d, e, after.snapshots[t].envId);
      StepRow(d, e, t);
    }
  }

  /** The status a pause ends with makes the sandbox listed, and changes no other row. */
  lemma UpdateIsMarkReady(d: Data, b: BuildId, status: BuildStatus, s: string)
    requires RowsApart(d) && s in d.snapshots && b in d.builds && GroupOf(status).ReadyGroup?
    requires exists a :: a in d.assignments && a.envId == d.snapshots[s].envId && a.tag == "default" && a.buildId == b
    requires forall a :: a in d.assignments && a.buildId == b && a.tag == "default" && IsSnapshotEnv(d, a.envId) ==> a.envId == d.snapshots[s].envId
    ensures ListingRows(Step(d, Update(b, status))) == ListingRows(d)[s := ListingRows(d)[s].(hasReadyBuild := true)]
  {
    var after := Step(d, Update(b, status));
    NowReady(d, b, status, d.snapshots[s].envId);
    forall t | t in d.snapshots && t != s ensures HasReady(after, d.snapshots[t].envId) <==> HasReady(d, d.snapshots[t].envId) {
      ReadyElsewhere(d, b, status, d.snapshots[t].envId);
    }
  }

  lemma NowReady(d: Data, b: BuildId, status: BuildStatus, env: string)
    requires b in d.builds && GroupOf(status).ReadyGroup?
    requires exists a :: a in d.assignments && a.envId == env && a.tag == "default" && a.buildId == b
    ensures HasReady(Step(d, Update(b, status)), env)
  {
    var a :| a in d.assignments && a.envId == env && a.tag == "default" && a.buildId == b;
    assert ReadyBuild(Step(d, Update(b, status)), a.buildId);
  }

  lemma ReadyElsewhere(d: Data, b: BuildId, status: BuildStatus, env: string)
    requires b in d.builds && forall a :: a in d.assignments && a.buildId == b && a.tag == "default" ==> a.envId != env
    ensures HasReady(Step(d, Update(b, status)), env) <==> HasReady(d, env)
  {
    var after := Step(d, Update(b, status));
    if HasReady(d, env) {
      var c :| c in d.assignments && c.envId == env && c.tag == "default" && ReadyBuild(d, c.buildId);
      assert c in after.assignments && ReadyBuild(after, c.buildId);
    }
    if HasReady(after, env) {
      var c :| c in after.assignments && c.envId == env && c.tag == "default" && ReadyBuild(after, c.buildId);
      assert c in d.assignments && ReadyBuild(d, c.buildId);
    }
  }

  /** Both statements take the walk's world from one step to the next. */
  lemma StatementsAreSteps(team: string, u: Walk.Universe, w: Walk.World, d: Data, e: Event, id: string)
    requires id in u && id in w.phase && w.rows == ListingRows(d)
    ensures w.phase[id].PauseStarted? && Referenced(d) && Snapshots(d, e) && !GroupOf(e.p.status).ReadyGroup?
              && e.p.sandboxId == id && e.p.teamId == team
              && e.p.startedAt == u[id].startTime && e.p.metadata == Walk.StoredMetadata(u[id].metadata) ==>
              Walk.Apply(team, u, w, Walk.UpsertRow(id)).rows == ListingRows(Step(d, e))
    ensures w.phase[id].RowWritten? && e.Update? && e.buildId in d.builds && GroupOf(e.status).ReadyGroup?
              && RowsApart(d) && id in d.snapshots
              && (exists a :: a in d.assignments && a.envId == d.snapshots[id].envId && a.tag == "default" && a.buildId == e.buildId)
              && (forall a :: a in d.assignments && a.buildId == e.buildId && a.tag == "default" && IsSnapshotEnv(d, a.envId)
                    ==> a.envId == d.snapshots[id].envId) ==>
              Walk.Apply(team, u, w, Walk.MarkReady(id)).rows == ListingRows(Step(d, e))
  {
    if Snapshots(d, e) && Referenced(d) && !GroupOf(e.p.status).ReadyGroup? && e.p.sandboxId == id && e.p.teamId == team
       && e.p.startedAt == u[id].startTime && e.p.metadata == Walk.StoredMetadata(u[id].metadata) {
      UpsertIsUpsertRow(d, e, u[id]);
    }
    if e.Update? && e.buildId in d.builds && GroupOf(e.status).ReadyGroup? && RowsApart(d) && id in d.snapshots
       && (exists a :: a in d.assignments && a.envId == d.snapshots[id].envId && a.tag == "default" && a.buildId == e.buildId)
       && (forall a :: a in d.assignments && a.buildId == e.buildId && a.tag == "default" && IsSnapshotEnv(d, a.envId)
             ==> a.envId == d.snapshots[id].envId) {
      UpdateIsMarkReady(d, e.buildId, e.status, id);
    }
  }
}
