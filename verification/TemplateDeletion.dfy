/**
  Which builds a template deletion may release: the builds nothing else holds.
  A build loses its last holder to a deletion, which reports it, or to the
  removal of its last tags, which does not.
 */
module TemplateDeletion {
  import opened Common
  import opened Tables
  import opened TableRuns

  /** The templates that hold a build. */
  function Holders(d: Data, b: BuildId): set<string> {
    set a | a in d.assignments && a.buildId == b :: a.envId
  }

  /** SELECT DISTINCT over the template's assignments, NOT EXISTS an assignment of the build elsewhere. */
  function ExclusiveBuilds(d: Data, templateId: string): set<BuildId> {
    set a | a in d.assignments && a.envId == templateId && a.buildId in d.builds
            && !(exists other :: other in d.assignments && other.buildId == a.buildId && other.envId != templateId) :: a.buildId
  }

  /** The query returns the builds whose one holder is the template, whatever their tags. */
  lemma ExclusiveIsSoleHolder(d: Data, templateId: string, b: BuildId)
    requires Referenced(d)
    ensures b in ExclusiveBuilds(d, templateId) <==> Holders(d, b) == {templateId}
  {
    if b in ExclusiveBuilds(d, templateId) {
      var a :| a in d.assignments && a.buildId == b && a.envId == templateId;
      assert templateId in Holders(d, b);
    }
    if Holders(d, b) == {templateId} {
      assert templateId in Holders(d, b);
      forall other | other in d.assignments && other.buildId == b ensures other.envId == templateId {
        assert other.envId in Holders(d, b);
      }
    }
  }

  lemma HoldersAfterDelete(d: Data, templateId: string, teamId: string, b: BuildId)
    ensures Holders(AfterDelete(d, templateId, teamId), b)
         == if Deletes(d, templateId, teamId) then Holders(d, b) - {templateId} else Holders(d, b)
  {
    FilterMembers(AssignedElsewhere(templateId), d.assignments);
  }

  /** Only deletions and removals of tags take a holder away. */
  lemma OtherStepsKeepHolders(d: Data, e: Event, b: BuildId)
    requires !e.Delete? && !e.Untag?
    ensures Holders(d, b) <= Holders(Step(d, e), b)
  {
    StepAssignments(d, e);
  }

  /** The query before a deletion reports the build. */
  predicate Reports(d: Data, e: Event, b: BuildId) { e.Delete? && b in ExclusiveBuilds(d, e.templateId) }

  /** The step takes the build's last holder away. */
  predicate Releases(d: Data, e: Event, b: BuildId) { Holders(d, b) != {} && Holders(Step(d, e), b) == {} }

  /** A template that exists is deleted by its own team. */
  predicate OwnTeam(d: Data, e: Event) {
    e.Delete? && e.templateId in d.envs ==> d.envs[e.templateId].teamId == e.teamId
  }

  /** Removing the tags of a template takes away everything that holds the build. */
  predicate LastTags(d: Data, e: Event, b: BuildId) {
    && e.Untag?
    && (exists a :: a in d.assignments && a.buildId == b)
    && (forall a :: a in d.assignments && a.buildId == b ==> a.envId == e.templateId && a.tag in e.tags)
  }

  /** A removal of tags releases a build if and only if all of its assignments are on that template under those tags. */
  lemma UntagReleasesExactly(d: Data, e: Event, b: BuildId)
    requires e.Untag?
    ensures Releases(d, e, b) <==> LastTags(d, e, b)
  {
    StepAssignments(d, e);
    var after := Step(d, e);
    forall a | a in d.assignments && a.buildId == b ensures a.envId in Holders(d, b) {
    }
    forall a | a in after.assignments && a.buildId == b ensures a.envId in Holders(after, b) {
    }
    if Releases(d, e, b) {
      forall a | a in d.assignments && a.buildId == b ensures a.envId == e.templateId && a.tag in e.tags {
        assert a !in after.assignments;
      }
    }
  }

  /** At every step by the owning team a build is released by a deletion that reported it, or by the removal of its last tags. */
  lemma ReleaseExactly(d: Data, e: Event, b: BuildId)
    requires Referenced(d) && OwnTeam(d, e)
    ensures Releases(d, e, b) <==> Reports(d, e, b) || LastTags(d, e, b)
  {
    if e.Delete? {
      DeleteReleases(d, e, b);
    } else if e.Untag? {
      UntagReleasesExactly(d, e, b);
    } else {
      OtherStepsKeepHolders(d, e, b);
    }
  }

  lemma DeleteReleases(d: Data, e: Event, b: BuildId)
    requires Referenced(d) && OwnTeam(d, e) && e.Delete?
    ensures Releases(d, e, b) <==> Reports(d, e, b)
  {
    ExclusiveIsSoleHolder(d, e.templateId, b);
    HoldersAfterDelete(d, e.templateId, e.teamId, b);
    if Holders(d, b) == {e.templateId} {
      assert e.templateId in Holders(d, b);
    }
    if Releases(d, e, b) {
      var holder :| holder in Holders(d, b);
      assert holder !in Holders(Step(d, e), b);
      assert Holders(d, b) <= {e.templateId};
    }
  }

  /** Every reported build is released by the deletion that follows if and only if the team owns the template or nothing was reported. */
  lemma ReportsReleaseExactly(d: Data, e: Event)
    requires Referenced(d) && e.Delete?
    ensures (forall b :: Reports(d, e, b) ==> Releases(d, e, b)) <==> OwnTeam(d, e) || ExclusiveBuilds(d, e.templateId) == {}
  {
    if OwnTeam(d, e) {
      forall b | Reports(d, e, b) ensures Releases(d, e, b) {
        DeleteReleases(d, e, b);
      }
    } else if ExclusiveBuilds(d, e.templateId) != {} {
      var b :| b in ExclusiveBuilds(d, e.templateId);
      assert Reports(d, e, b) && !Releases(d, e, b);
    }
  }

  // ---------- Over every run ----------

  ghost predicate OwnTeams(d: Data, es: seq<Event>) {
    forall i :: 0 <= i < |es| ==> OwnTeam(Run(d, es[..i]), es[i])
  }

  lemma OwnTeamsFront(d: Data, es: seq<Event>)
    requires OwnTeams(d, es) && es != []
    ensures OwnTeams(d, es[..|es| - 1])
  {
    var front := es[..|es| - 1];
    forall i | 0 <= i < |front| ensures OwnTeam(Run(d, front[..i]), front[i]) {
      assert front[..i] == es[..i];
    }
  }

  function CountReports(d: Data, es: seq<Event>, b: BuildId): nat {
    if es == [] then 0
    else CountReports(d, es[..|es| - 1], b) + if Reports(Run(d, es[..|es| - 1]), es[|es| - 1], b) then 1 else 0
  }

  function CountReleases(d: Data, es: seq<Event>, b: BuildId): nat {
    if es == [] then 0
    else CountReleases(d, es[..|es| - 1], b) + if Releases(Run(d, es[..|es| - 1]), es[|es| - 1], b) then 1 else 0
  }

  /** How often the build lost its last tags. */
  function CountLastTags(d: Data, es: seq<Event>, b: BuildId): nat {
    if es == [] then 0
    else CountLastTags(d, es[..|es| - 1], b) + if LastTags(Run(d, es[..|es| - 1]), es[|es| - 1], b) then 1 else 0
  }

  /** Over every run a build loses its last holder as often as it is reported plus as often as it loses its last tags. */
  lemma {:induction false} ReleasesAreReportsAndLastTags(d: Data, es: seq<Event>, b: BuildId)
    requires Referenced(d) && OwnTeams(d, es)
    ensures CountReleases(d, es, b) == CountReports(d, es, b) + CountLastTags(d, es, b)
    decreases |es|
  {
    if es != [] {
      OwnTeamsFront(d, es);
      ReleasesAreReportsAndLastTags(d, es[..|es| - 1], b);
      RunKeepsReferenced(d, es[..|es| - 1]);
      ReleaseExactly(Run(d, es[..|es| - 1]), es[|es| - 1], b);
    }
  }

  ghost predicate NoNewAssignments(es: seq<Event>) {
    forall i :: 0 <= i < |es| ==> !es[i].Register? && !es[i].Snapshot? && !es[i].SnapshotTemplate? && !es[i].Tag?
  }

  lemma QuietStep(d: Data, e: Event, b: BuildId)
    requires !e.Register? && !e.Snapshot? && !e.SnapshotTemplate? && !e.Tag?
    ensures Holders(Step(d, e), b) <= Holders(d, b)
  {
    StepAssignments(d, e);
  }

  lemma {:induction false} QuietReleases(d: Data, es: seq<Event>, b: BuildId)
    requires NoNewAssignments(es)
    ensures Holders(Run(d, es), b) <= Holders(d, b)
    ensures CountReleases(d, es, b) == if Holders(d, b) != {} && Holders(Run(d, es), b) == {} then 1 else 0
    decreases |es|
  {
    if es != [] {
      QuietReleases(d, es[..|es| - 1], b);
      QuietStep(Run(d, es[..|es| - 1]), es[|es| - 1], b);
    }
  }

  /** Without new assignments a held build that loses all holders is either reported once or loses its last tags once; any other, neither. */
  lemma ReleasedExactlyOnce(d: Data, es: seq<Event>, b: BuildId)
    requires Referenced(d) && OwnTeams(d, es) && NoNewAssignments(es)
    ensures CountReports(d, es, b) + CountLastTags(d, es, b) == if Holders(d, b) != {} && Holders(Run(d, es), b) == {} then 1 else 0
  {
    ReleasesAreReportsAndLastTags(d, es, b);
    QuietReleases(d, es, b);
  }

  /** While no tags are removed, no build loses its last ones. */
  lemma {:induction false} NoTagsRemoved(d: Data, es: seq<Event>, b: BuildId)
    requires forall i :: 0 <= i < |es| ==> !es[i].Untag?
    ensures CountLastTags(d, es, b) == 0
    decreases |es|
  {
    if es != [] {
      NoTagsRemoved(d, es[..|es| - 1], b);
    }
  }

  /** So a run without removed tags and new assignments reports every held build once if its holders are all deleted, and otherwise never. */
  lemma ReportedExactlyOnce(d: Data, es: seq<Event>, b: BuildId)
    requires Referenced(d) && OwnTeams(d, es) && NoNewAssignments(es) && forall i :: 0 <= i < |es| ==> !es[i].Untag?
    ensures CountReports(d, es, b) == if Holders(d, b) != {} && Holders(Run(d, es), b) == {} then 1 else 0
  {
    ReleasedExactlyOnce(d, es, b);
    NoTagsRemoved(d, es, b);
  }

  /** Whoever asks, and whatever ran before, a build is never reported while another template holds it. */
  lemma NeverReportedWhileShared(d: Data, es: seq<Event>, e: Event, b: BuildId, other: string)
    requires Referenced(d) && e.Delete? && other != e.templateId && other in Holders(Run(d, es), b)
    ensures !Reports(Run(d, es), e, b)
  {
    RunKeepsReferenced(d, es);
    ExclusiveIsSoleHolder(Run(d, es), e.templateId, b);
  }

  // ---------- Inputs that show the conditions ----------

  function OneBuild(tag: string): Data {
    Data(map["tmpl" := Env("owner", TemplateSource)], map[], map[1 := Uploaded], [Assignment("tmpl", 1, tag, 0)], map[], [])
  }

  lemma TwoSteps(d: Data, e1: Event, e2: Event, b: BuildId)
    ensures Run(d, [e1]) == Step(d, e1)
    ensures CountReports(d, [e1, e2], b) == (if Reports(d, e1, b) then 1 else 0) + (if Reports(Step(d, e1), e2, b) then 1 else 0)
    ensures CountReleases(d, [e1, e2], b) == (if Releases(d, e1, b) then 1 else 0) + (if Releases(Step(d, e1), e2, b) then 1 else 0)
  {
    assert [e1, e2][..1] == [e1] && [e1][..0] == [];
    assert Run(d, [e1]) == Step(Run(d, []), e1);
    assert CountReports(d, [e1], b) == CountReports(d, [], b) + if Reports(d, e1, b) then 1 else 0;
    assert CountReleases(d, [e1], b) == CountReleases(d, [], b) + if Releases(d, e1, b) then 1 else 0;
  }

  /** A team that does not own the template gets the build reported and deletes nothing: it is reported again later. */
  lemma WrongTeamReportsTwice()
    ensures Referenced(OneBuild(DEFAULT_TAG))
    ensures CountReports(OneBuild(DEFAULT_TAG), [Delete("tmpl", "other"), Delete("tmpl", "owner")], 1) == 2
  {
    var d, e1, e2 := OneBuild(DEFAULT_TAG), Delete("tmpl", "other"), Delete("tmpl", "owner");
    assert d.assignments[0] in d.assignments;
    assert Reports(d, e1, 1) && Reports(d, e2, 1);
    TwoSteps(d, e1, e2, 1);
  }

  /** A build whose only tag is removed loses its last holder and is never reported, not even when the template goes. */
  lemma UntaggedIsNeverReported()
    ensures Referenced(OneBuild("v2"))
    ensures CountReleases(OneBuild("v2"), [Untag("tmpl", ["v2"]), Delete("tmpl", "owner")], 1) == 1
    ensures CountReports(OneBuild("v2"), [Untag("tmpl", ["v2"]), Delete("tmpl", "owner")], 1) == 0
  {
    var d, e1, e2 := OneBuild("v2"), Untag("tmpl", ["v2"]), Delete("tmpl", "owner");
    assert d.assignments[0] in d.assignments;
    assert LastTags(d, e1, 1);
    UntagReleasesExactly(d, e1, 1);
    assert Step(d, e1).assignments == [];
    assert !Reports(Step(d, e1), e2, 1) && Holders(Step(d, e1), 1) == {};
    TwoSteps(d, e1, e2, 1);
  }
}
