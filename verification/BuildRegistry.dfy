/**
  The build registry over every run: what active rows name, which builds may be
  pending under one tag, and how a build's pending time ends.
 */
module BuildRegistry {
  import opened Common
  import opened Tables
  import opened TableRuns

  // ---------- The invariant ----------

  ghost predicate ActiveRunning(d: Data) {
    forall b :: b in d.active ==> b in d.builds && !IsTerminal(GroupOf(d.builds[b]))
  }

  predicate SameSlot(a: Assignment, c: Assignment) { a.envId == c.envId && a.tag == c.tag }

  ghost predicate OnePendingPerTag(d: Data) {
    forall a, c :: a in d.assignments && c in d.assignments && SameSlot(a, c) && PendingBuild(d, a.buildId) && PendingBuild(d, c.buildId)
      ==> a.buildId == c.buildId
  }

  ghost predicate Inv(d: Data) { ActiveRunning(d) && OnePendingPerTag(d) && Referenced(d) }

  /** A pending build other than `b` holds the slot. */
  ghost predicate Taken(d: Data, templateId: string, tag: string, b: BuildId) {
    exists c :: c in d.assignments && c.envId == templateId && c.tag == tag && c.buildId != b && PendingBuild(d, c.buildId)
  }

  /** A pending build other than `b` holds one of the slots of `b`. */
  ghost predicate Rivalled(d: Data, b: BuildId) {
    exists a :: a in d.assignments && a.buildId == b && Taken(d, a.envId, a.tag, b)
  }

  /** What a caller must see to before each statement; most need nothing. */
  ghost predicate Fitting(d: Data, e: Event) {
    match e
    case Tag(t, b, tag, _) => Tags(d, e) && PendingBuild(d, b) ==> !Taken(d, t, tag, b)
    case Snapshot(p, b, _) => Snapshots(d, e) && GroupOf(p.status).PendingGroup? ==> !Taken(d, EnvOfSnapshot(d, p), DEFAULT_TAG, b)
    case Update(b, s) =>
      b in d.builds ==> (IsTerminal(GroupOf(s)) ==> b !in d.active) && (GroupOf(s).PendingGroup? ==> !Rivalled(d, b))
    case Fail(b, s) => b in d.builds && GroupOf(s).PendingGroup? ==> !Rivalled(d, b)
    case Finish(b, s) => b in d.builds && GroupOf(s).PendingGroup? ==> !Rivalled(d, b)
    case Register(_, _, _, _, _, _) => true
    case SnapshotTemplate(_, _, _, _, _) => true
    case Untag(_, _) => true
    case Deactivate(_) => true
    case Delete(_, _) => true
  }

  // ---------- One step ----------

  lemma RegisterKeeps(d: Data, e: Event)
    requires Inv(d) && Registers(d, e)
    ensures Inv(Step(d, e))
  {
    var after := Step(d, e);
    StepAssignments(d, e);
    StepKeepsReferenced(d, e);
    InTagRows(e.templateId, e.buildId, TagsOf(e), e.now);
    forall a, c | a in after.assignments && c in after.assignments && SameSlot(a, c)
                  && PendingBuild(after, a.buildId) && PendingBuild(after, c.buildId)
      ensures a.buildId == c.buildId
    {
      StepPending(d, e, a.buildId);
      StepPending(d, e, c.buildId);
      if a in Added(d, e) && c in d.assignments { NewHolderSupersedes(d, e, a, c); }
      if c in Added(d, e) && a in d.assignments { NewHolderSupersedes(d, e, c, a); }
    }
  }

  /** An older row in a slot that the registration takes belongs to a build it supersedes. */
  lemma NewHolderSupersedes(d: Data, e: Event, a: Assignment, c: Assignment)
    requires Registers(d, e) && a in Added(d, e) && c in d.assignments && SameSlot(a, c)
    ensures Hits(Slots(d, c.buildId), e)
  {
    InTagRows(e.templateId, e.buildId, TagsOf(e), e.now);
    assert (c.envId, c.tag) in Slots(d, c.buildId) && c.tag in TagsOf(e);
  }

  /** Fewer rows and no new statuses. */
  lemma FewerKeep(d: Data, e: Event)
    requires Inv(d) && (e.Untag? || e.Delete? || e.Deactivate?)
    ensures Inv(Step(d, e))
  {
    StepAssignments(d, e);
    StepKeepsReferenced(d, e);
  }

  /** One more row, for a build that stays in its status. */
  lemma AssignKeepsExactly(d: Data, templateId: string, b: BuildId, tag: string, now: int)
    requires Inv(d) && templateId in d.envs && b in d.builds
    ensures Inv(Assigned(d, templateId, b, tag, now)) <==> (PendingBuild(d, b) ==> !Taken(d, templateId, tag, b))
  {
    var row := Assignment(templateId, b, tag, now);
    var after := Assigned(d, templateId, b, tag, now);
    assert row in after.assignments && forall a :: a in after.assignments <==> a in d.assignments || a == row;
    assert forall x :: PendingBuild(after, x) == PendingBuild(d, x);
    if PendingBuild(d, b) && Taken(d, templateId, tag, b) {
      var c :| c in d.assignments && c.envId == templateId && c.tag == tag && c.buildId != b && PendingBuild(d, c.buildId);
      assert SameSlot(row, c);
    }
  }

  /** A new env holds no other build. */
  lemma NewTemplateKeeps(d: Data, e: Event)
    requires Inv(d) && CreatesTemplate(d, e)
    ensures Inv(Step(d, e))
  {
    var grown := d.(envs := d.envs[e.templateId := Env(e.teamId, SnapshotTemplateSource)]);
    assert Inv(grown);
    AssignKeepsExactly(grown, e.templateId, e.buildId, e.tag, e.now);
  }

  lemma SnapshotKeepsExactly(d: Data, e: Event)
    requires Inv(d) && Snapshots(d, e)
    ensures Inv(Step(d, e)) <==> Fitting(d, e)
  {
    var after := Step(d, e);
    var env := EnvOfSnapshot(d, e.p);
    assert env == after.snapshots[e.p.sandboxId].envId;
    var grown := d.(envs := after.envs, snapshots := after.snapshots, builds := d.builds[e.buildId := e.p.status]);
    assert forall x :: x in d.builds ==> PendingBuild(grown, x) == PendingBuild(d, x);
    assert Inv(grown);
    assert after == Assigned(grown, env, e.buildId, DEFAULT_TAG, e.now);
    AssignKeepsExactly(grown, env, e.buildId, DEFAULT_TAG, e.now);
    assert Taken(grown, env, DEFAULT_TAG, e.buildId) <==> Taken(d, env, DEFAULT_TAG, e.buildId);
  }

  /** A status change of one build, with or without its active row. */
  lemma StatusKeepsExactly(d: Data, b: BuildId, status: BuildStatus, deactivates: bool)
    requires Inv(d) && b in d.builds
    ensures var after := if deactivates then SetStatusAndDeactivate(d, b, status) else SetStatus(d, b, status);
      Inv(after) <==> (!deactivates && IsTerminal(GroupOf(status)) ==> b !in d.active) && (GroupOf(status).PendingGroup? ==> !Rivalled(d, b))
  {
    var after := if deactivates then SetStatusAndDeactivate(d, b, status) else SetStatus(d, b, status);
    assert after.assignments == d.assignments;
    if GroupOf(status).PendingGroup? && Rivalled(d, b) {
      var a :| a in d.assignments && a.buildId == b && Taken(d, a.envId, a.tag, b);
      var c :| c in d.assignments && c.envId == a.envId && c.tag == a.tag && c.buildId != b && PendingBuild(d, c.buildId);
      assert SameSlot(a, c) && PendingBuild(after, a.buildId) && PendingBuild(after, c.buildId);
    }
  }

  /** Every statement keeps the registry invariant if and only if it is fitting. */
  lemma StepKeepsInvExactly(d: Data, e: Event)
    requires Inv(d)
    ensures Inv(Step(d, e)) <==> Fitting(d, e)
  {
    match e
    case Register(_, _, _, _, _, _) => if Registers(d, e) { RegisterKeeps(d, e); }
    case Snapshot(_, _, _) => if Snapshots(d, e) { SnapshotKeepsExactly(d, e); }
    case SnapshotTemplate(_, _, _, _, _) => if CreatesTemplate(d, e) { NewTemplateKeeps(d, e); }
    case Tag(t, b, tag, now) => if Tags(d, e) { AssignKeepsExactly(d, t, b, tag, now); }
    case Update(b, s) => if b in d.builds { StatusKeepsExactly(d, b, s, false); }
    case Fail(b, s) => if b in d.builds { StatusKeepsExactly(d, b, s, true); } else { FewerKeep(d, Deactivate(b)); }
    case Finish(b, s) => if b in d.builds { StatusKeepsExactly(d, b, s, true); } else { FewerKeep(d, Deactivate(b)); }
    case Untag(_, _) => FewerKeep(d, e);
    case Deactivate(_) => FewerKeep(d, e);
    case Delete(_, _) => FewerKeep(d, e);
  }

  // ---------- Every run ----------

  ghost predicate AllFitting(d: Data, es: seq<Event>) {
    forall i :: 0 <= i < |es| ==> Fitting(Run(d, es[..i]), es[i])
  }

  ghost predicate AlwaysInv(d: Data, es: seq<Event>) {
    forall i :: 0 <= i <= |es| ==> Inv(Run(d, es[..i]))
  }

  /** The invariant holds all along a run if and only if every statement of it was fitting. */
  lemma {:induction false} RunKeepsInvExactly(d: Data, es: seq<Event>)
    requires Inv(d)
    ensures AlwaysInv(d, es) <==> AllFitting(d, es)
    decreases |es|
  {
    if es == [] {
      assert es[..0] == [];
    } else {
      var front := es[..|es| - 1];
      RunKeepsInvExactly(d, front);
      AlwaysSnoc(d, es);
      FittingSnoc(d, es);
      if AlwaysInv(d, front) {
        assert front[..|front|] == front;
        StepKeepsInvExactly(Run(d, front), es[|front|]);
      }
    }
  }

  lemma AlwaysSnoc(d: Data, es: seq<Event>)
    requires es != []
    ensures AlwaysInv(d, es) <==> AlwaysInv(d, es[..|es| - 1]) && Inv(Run(d, es))
  {
    var front := es[..|es| - 1];
    assert es[..|es|] == es;
    forall i | 0 <= i <= |front| ensures front[..i] == es[..i] {
    }
    if AlwaysInv(d, es) {
      forall i | 0 <= i <= |front| ensures Inv(Run(d, front[..i])) {
        assert Inv(Run(d, es[..i]));
      }
    }
    if AlwaysInv(d, front) && Inv(Run(d, es)) {
      forall i | 0 <= i <= |es| ensures Inv(Run(d, es[..i])) {
        assert i < |es| ==> Inv(Run(d, front[..i]));
      }
    }
  }

  lemma FittingSnoc(d: Data, es: seq<Event>)
    requires es != []
    ensures AllFitting(d, es) <==> AllFitting(d, es[..|es| - 1]) && Fitting(Run(d, es[..|es| - 1]), es[|es| - 1])
  {
    var front := es[..|es| - 1];
    forall i | 0 <= i <= |front| ensures front[..i] == es[..i] {
    }
    if AllFitting(d, es) {
      forall i | 0 <= i < |front| ensures Fitting(Run(d, front[..i]), front[i]) {
        assert Fitting(Run(d, es[..i]), es[i]);
      }
      assert Fitting(Run(d, es[..|front|]), es[|front|]);
    }
    if AllFitting(d, front) && Fitting(Run(d, front), es[|front|]) {
      forall i | 0 <= i < |es| ensures Fitting(Run(d, es[..i]), es[i]) {
        assert i < |front| ==> Fitting(Run(d, front[..i]), front[i]);
      }
    }
  }

  /** The statuses callers send: no plain or ending update sets a build pending, and a snapshot's build starts in progress. */
  predicate Allowed(e: Event) {
    && (e.Update? ==> !GroupOf(e.status).PendingGroup?)
    && (e.Fail? || e.Finish? ==> IsTerminal(GroupOf(e.status)))
    && (e.Snapshot? ==> GroupOf(e.p.status).InProgressGroup?)
  }

  ghost predicate CreatedAt(d: Data, es: seq<Event>, k: nat, b: BuildId)
    requires k < |es|
  {
    es[k].Snapshot? && es[k].buildId == b && Snapshots(Run(d, es[..k]), es[k])
  }

  /** As the callers have it: a plain update that ends a build names a build that an earlier snapshot upsert created, and no pending build is tagged. */
  ghost predicate Legal(d: Data, es: seq<Event>) {
    forall i :: 0 <= i < |es| ==>
      && Allowed(es[i])
      && (es[i].Update? && IsTerminal(GroupOf(es[i].status)) ==> exists k :: 0 <= k < i && CreatedAt(d, es, k, es[i].buildId))
      && (es[i].Tag? ==> !PendingBuild(Run(d, es[..i]), es[i].buildId))
  }

  ghost predicate Inactive(d: Data, b: BuildId) { b in d.builds && b !in d.active }

  /** A build outside the active table never enters it: only a registration adds a row, and only for a new build. */
  lemma InactiveStays(d: Data, e: Event, b: BuildId)
    requires Inactive(d, b)
    ensures Inactive(Step(d, e), b)
  {
  }

  /** A build created by a snapshot upsert is never active. */
  lemma {:induction false} SnapshotNeverActive(d: Data, es: seq<Event>, k: nat, b: BuildId)
    requires k < |es| && CreatedAt(d, es, k, b) && ActiveRunning(Run(d, es[..k]))
    ensures Inactive(Run(d, es), b)
    decreases |es|
  {
    var front := es[..|es| - 1];
    assert front[..k] == es[..k];
    if k < |front| {
      SnapshotNeverActive(d, front, k, b);
      InactiveStays(Run(d, front), es[|es| - 1], b);
    } else {
      assert front == es[..k];
    }
  }

  lemma {:induction false} LegalIsFitting(d: Data, es: seq<Event>, n: nat)
    requires Inv(d) && Legal(d, es) && n <= |es|
    ensures Inv(Run(d, es[..n]))
    ensures n < |es| ==> Fitting(Run(d, es[..n]), es[n])
    decreases n
  {
    if n > 0 {
      LegalIsFitting(d, es, n - 1);
      assert es[..n][..n - 1] == es[..n - 1];
      StepKeepsInvExactly(Run(d, es[..n - 1]), es[n - 1]);
    } else {
      assert es[..0] == [];
    }
    if n < |es| && es[n].Update? && IsTerminal(GroupOf(es[n].status)) {
      var k :| 0 <= k < n && CreatedAt(d, es, k, es[n].buildId);
      LegalIsFitting(d, es, k);
      CreatedStaysInactive(d, es, k, n, es[n].buildId);
    }
  }

  lemma CreatedStaysInactive(d: Data, es: seq<Event>, k: nat, n: nat, b: BuildId)
    requires k < n <= |es| && CreatedAt(d, es, k, b) && ActiveRunning(Run(d, es[..k]))
    ensures Inactive(Run(d, es[..n]), b)
  {
    assert es[..n][..k] == es[..k];
    SnapshotNeverActive(d, es[..n], k, b);
  }

  /** In every state the callers reach, active rows name running builds and no tag of a template has two pending builds. */
  lemma RunKeepsInv(d: Data, es: seq<Event>)
    requires Inv(d) && Legal(d, es)
    ensures Inv(Run(d, es)) && AllFitting(d, es)
  {
    LegalIsFitting(d, es, |es|);
    assert es[..|es|] == es;
    forall i | 0 <= i < |es| ensures Fitting(Run(d, es[..i]), es[i]) {
      LegalIsFitting(d, es, i);
    }
  }

  // ---------- How a pending build ends ----------

  /** What the history says of a build: whether it is pending, and under which template and tag pairs it is held. */
  datatype Fate = Fate(pending: bool, held: set<(string, string)>)

  function FateOf(d: Data, es: seq<Event>, b: BuildId): Fate {
    if es == [] then Fate(PendingBuild(d, b), Slots(d, b))
    else NextFate(Run(d, es[..|es| - 1]), FateOf(d, es[..|es| - 1], b), es[|es| - 1], b)
  }

  /** The tables are asked only whether the statement succeeded. */
  function NextFate(d: Data, f: Fate, e: Event, b: BuildId): Fate {
    if Registers(d, e) then
      if e.buildId == b then Fate(true, set tag | tag in TagsOf(e) :: (e.templateId, tag))
      else f.(pending := f.pending && !Hits(f.held, e))
    else if Snapshots(d, e) && e.buildId == b then Fate(GroupOf(e.p.status).PendingGroup?, {(EnvOfSnapshot(d, e.p), DEFAULT_TAG)})
    else if (CreatesTemplate(d, e) || Tags(d, e)) && e.buildId == b then f.(held := f.held + {(e.templateId, e.tag)})
    else if e.Untag? then f.(held := set s | s in f.held && !(s.0 == e.templateId && s.1 in e.tags))
    else if Drops(d, e) then f.(held := set s | s in f.held && s.0 != e.templateId)
    else if SetsStatus(e, b) && b in d.builds then f.(pending := GroupOf(e.status).PendingGroup?)
    else f
  }

  lemma NextSlots(d: Data, e: Event, b: BuildId)
    requires Referenced(d)
    ensures Slots(Step(d, e), b) == NextFate(d, Fate(PendingBuild(d, b), Slots(d, b)), e, b).held
  {
    StepAssignments(d, e);
    if Registers(d, e) {
      RegisteredSlots(d, e, b);
    } else {
      OtherSlots(d, e, b);
    }
  }

  lemma RegisteredSlots(d: Data, e: Event, b: BuildId)
    requires Referenced(d) && Registers(d, e)
    ensures Slots(Step(d, e), b) == if e.buildId == b then set tag | tag in TagsOf(e) :: (e.templateId, tag) else Slots(d, b)
  {
    StepAssignments(d, e);
    InTagRows(e.templateId, e.buildId, TagsOf(e), e.now);
    var now := Slots(Step(d, e), b);
    if e.buildId == b {
      forall tag | tag in TagsOf(e) ensures (e.templateId, tag) in now {
        assert Assignment(e.templateId, b, tag, e.now) in Step(d, e).assignments;
      }
    }
  }

  predicate SlotKept(d: Data, e: Event, s: (string, string)) {
    (e.Untag? ==> !(s.0 == e.templateId && s.1 in e.tags)) && (Drops(d, e) ==> s.0 != e.templateId)
  }

  /** The slots of a build are what the statement left of them and what it added. */
  lemma OtherSlots(d: Data, e: Event, b: BuildId)
    requires Referenced(d) && !Registers(d, e)
    ensures Slots(Step(d, e), b) == NextFate(d, Fate(PendingBuild(d, b), Slots(d, b)), e, b).held
  {
    SlotsSplit(d, e, b);
    if Snapshots(d, e) || CreatesTemplate(d, e) || Tags(d, e) {
      OneAdded(d, e, b);
    } else {
      assert forall a: Assignment :: a !in Added(d, e);
    }
  }

  lemma OneAdded(d: Data, e: Event, b: BuildId)
    requires Referenced(d) && (Snapshots(d, e) || CreatesTemplate(d, e) || Tags(d, e))
    ensures (set s | s in Slots(d, b) && SlotKept(d, e, s)) == Slots(d, b)
    ensures (set a | a in Added(d, e) && a.buildId == b :: (a.envId, a.tag))
         == if e.buildId != b then {} else {(if e.Snapshot? then EnvOfSnapshot(d, e.p) else e.templateId, if e.Snapshot? then DEFAULT_TAG else e.tag)}
    ensures Snapshots(d, e) && e.buildId == b ==> Slots(d, b) == {}
  {
    var row := Added(d, e)[0];
    assert Added(d, e) == [row];
  }

  lemma SlotsSplit(d: Data, e: Event, b: BuildId)
    ensures Slots(Step(d, e), b)
         == (set s | s in Slots(d, b) && SlotKept(d, e, s)) + (set a | a in Added(d, e) && a.buildId == b :: (a.envId, a.tag))
  {
    StepAssignments(d, e);
    var now := Slots(Step(d, e), b);
    forall s | s in Slots(d, b) && SlotKept(d, e, s) ensures s in now {
      var a :| a in d.assignments && a.buildId == b && (a.envId, a.tag) == s;
      assert Keeps(d, e, a);
    }
  }

  /** For every build and every run, the tables hold the build pending and under the slots that its history says. */
  lemma {:induction false} FateRefines(d: Data, es: seq<Event>, b: BuildId)
    requires Referenced(d)
    ensures FateOf(d, es, b) == Fate(PendingBuild(Run(d, es), b), Slots(Run(d, es), b))
    decreases |es|
  {
    if es != [] {
      var front, last := es[..|es| - 1], es[|es| - 1];
      FateRefines(d, front, b);
      RunKeepsReferenced(d, front);
      NextSlots(Run(d, front), last, b);
      StepPending(Run(d, front), last, b);
    }
  }

  /** The step ends the pending time of `b`: a report, or a later registration that shares a tag still held. */
  ghost predicate Ends(d: Data, e: Event, b: BuildId) {
    SetsStatus(e, b) || (Registers(d, e) && Hits(Slots(d, b), e))
  }

  lemma StepEnds(d: Data, e: Event, b: BuildId)
    requires b in d.builds && Allowed(e)
    ensures b in Step(d, e).builds && (PendingBuild(Step(d, e), b) <==> PendingBuild(d, b) && !Ends(d, e, b))
  {
    StepKeepsBuilds(d, e);
    StepPending(d, e, b);
  }

  ghost predicate EndedBetween(d: Data, es: seq<Event>, k: nat, b: BuildId) {
    exists j :: k < j < |es| && Ends(Run(d, es[..j]), es[j], b)
  }

  /** A registered build is pending exactly until a status report of its own or a later registration under a tag it still holds. */
  lemma {:induction false} PendingUntilEnded(d: Data, es: seq<Event>, k: nat)
    requires k < |es| && Registers(Run(d, es[..k]), es[k])
    requires forall i :: 0 <= i < |es| ==> Allowed(es[i])
    ensures PendingBuild(Run(d, es), es[k].buildId) <==> !EndedBetween(d, es, k, es[k].buildId)
    ensures es[k].buildId in Run(d, es).builds
    decreases |es|
  {
    var front, last, b := es[..|es| - 1], es[|es| - 1], es[k].buildId;
    if k == |front| {
      assert front == es[..k];
      StepPending(Run(d, front), last, b);
    } else {
      assert front[..k] == es[..k];
      PendingUntilEnded(d, front, k);
      EndedFront(d, es, k, b);
      StepEnds(Run(d, front), last, b);
    }
  }

  lemma EndedFront(d: Data, es: seq<Event>, k: nat, b: BuildId)
    requires k < |es| - 1
    ensures EndedBetween(d, es, k, b) <==> EndedBetween(d, es[..|es| - 1], k, b) || Ends(Run(d, es[..|es| - 1]), es[|es| - 1], b)
  {
    var front := es[..|es| - 1];
    assert forall j :: 0 <= j < |front| ==> front[..j] == es[..j];
    if EndedBetween(d, front, k, b) {
      var j :| k < j < |front| && Ends(Run(d, front[..j]), front[j], b);
      assert Ends(Run(d, es[..j]), es[j], b);
    }
    if EndedBetween(d, es, k, b) {
      var j :| k < j < |es| && Ends(Run(d, es[..j]), es[j], b);
      assert j < |front| ==> Ends(Run(d, front[..j]), front[j], b);
    }
  }

  // ---------- Which running builds have an active row ----------

  predicate Running(d: Data, b: BuildId) { b in d.builds && !IsTerminal(GroupOf(d.builds[b])) }

  /** The builds registered so far. */
  function RegisteredIn(d: Data, es: seq<Event>): set<BuildId> {
    if es == [] then {}
    else RegisteredIn(d, es[..|es| - 1])
         + if Registers(Run(d, es[..|es| - 1]), es[|es| - 1]) then {es[|es| - 1].buildId} else {}
  }

  /** Each of the builds has an active row while it runs. */
  ghost predicate Tracked(d: Data, registered: set<BuildId>) {
    forall b :: b in registered && Running(d, b) ==> b in d.active
  }

  /** A statement that leaves one of the builds running without a row: a running status for one that has none, or no row for one that runs. */
  predicate LosesTrack(d: Data, e: Event, registered: set<BuildId>) {
    match e
    case Update(b, s) => b in registered && b in d.builds && b !in d.active && !IsTerminal(GroupOf(s))
    case Fail(b, s) => b in registered && b in d.builds && !IsTerminal(GroupOf(s))
    case Finish(b, s) => b in registered && b in d.builds && !IsTerminal(GroupOf(s))
    case Deactivate(b) => b in registered && Running(d, b)
    case Register(_, _, _, _, _, _) => false
    case Snapshot(_, b, _) => false
    case SnapshotTemplate(_, _, _, _, _) => false
    case Tag(_, _, _, _) => false
    case Untag(_, _) => false
    case Delete(_, _) => false
  }

  /** A step keeps every registered running build tracked if and only if it does not lose track of one. */
  lemma StepTracksExactly(d: Data, e: Event, registered: set<BuildId>)
    requires Tracked(d, registered) && registered <= d.builds.Keys
    ensures Tracked(Step(d, e), registered + if Registers(d, e) then {e.buildId} else {}) <==> !LosesTrack(d, e, registered)
    ensures registered + (if Registers(d, e) then {e.buildId} else {}) <= Step(d, e).builds.Keys
  {
    StepKeepsBuilds(d, e);
    var after := Step(d, e);
    if LosesTrack(d, e, registered) {
      assert Running(after, e.buildId) && e.buildId !in after.active;
    }
  }

  ghost predicate NeverLosesTrack(d: Data, es: seq<Event>) {
    forall i :: 0 <= i < |es| ==> !LosesTrack(Run(d, es[..i]), es[i], RegisteredIn(d, es[..i]))
  }

  /** While no statement loses track of a build, every registered build that runs has an active row. */
  lemma {:induction false} RunTracks(d: Data, es: seq<Event>)
    requires NeverLosesTrack(d, es)
    ensures Tracked(Run(d, es), RegisteredIn(d, es)) && RegisteredIn(d, es) <= Run(d, es).builds.Keys
    decreases |es|
  {
    if es != [] {
      var front := es[..|es| - 1];
      forall i | 0 <= i < |front| ensures !LosesTrack(Run(d, front[..i]), front[i], RegisteredIn(d, front[..i])) {
        assert front[..i] == es[..i];
      }
      RunTracks(d, front);
      StepTracksExactly(Run(d, front), es[|es| - 1], RegisteredIn(d, front));
    }
  }

  // ---------- Inputs that show the conditions ----------

  const Empty: Data := Data(map[], map[], map[], [], map[], [])

  function First(): Event { Register("tmpl", "team", ["v2"], 1, 0, true) }

  function Second(): Event { Register("tmpl", "team", ["v2"], 2, 1, true) }

  /** The tables after one registration, with or without its tag removed again. */
  function OneRegistered(): Data {
    Data(map["tmpl" := Env("team", TemplateSource)], map[], map[1 := Waiting], [Assignment("tmpl", 1, "v2", 0)],
         map[1 := ActiveBuild("team", "tmpl", ["v2"])], [])
  }

  lemma FirstRegisters()
    ensures Registers(Empty, First()) && Step(Empty, First()) == OneRegistered() && Inv(OneRegistered())
  {
    assert TagRows("tmpl", 1, ["v2"], 0) == [Assignment("tmpl", 1, "v2", 0)];
    assert Inv(Empty);
    StepKeepsInvExactly(Empty, First());
  }

  /** After the second registration the first build has failed and lost its row. */
  lemma SecondSupersedes()
    ensures Registers(OneRegistered(), Second()) && Inv(Step(OneRegistered(), Second()))
    ensures Step(OneRegistered(), Second()).builds == map[1 := Failed, 2 := Waiting]
    ensures 1 !in Step(OneRegistered(), Second()).active && 2 in Step(OneRegistered(), Second()).active
    ensures Rivalled(Step(OneRegistered(), Second()), 1)
  {
    FirstRegisters();
    var d, after := OneRegistered(), Step(OneRegistered(), Second());
    StepKeepsInvExactly(d, Second());
    var a, c := Assignment("tmpl", 1, "v2", 0), Assignment("tmpl", 2, "v2", 1);
    assert a == d.assignments[0] && a in d.assignments;
    StepAssignments(d, Second());
    InTagRows("tmpl", 2, ["v2"], 1);
    assert a in after.assignments && c in after.assignments;
    assert Superseded(d, "tmpl", ["v2"], 1);
    assert PendingBuild(after, c.buildId);
    assert Taken(after, "tmpl", "v2", 1);
  }

  /** A plain update back to pending after a second registration leaves two pending builds on one tag. */
  lemma PlainUpdateCanBreak()
    ensures var after := Step(Step(Empty, First()), Second()); Inv(after) && !Inv(Step(after, Update(1, Pending)))
  {
    FirstRegisters();
    SecondSupersedes();
    StepKeepsInvExactly(Step(OneRegistered(), Second()), Update(1, Pending));
  }

  /** A progress report that arrives after a second registration leaves a running build without an active row. */
  lemma LateProgressLosesTrack()
    ensures var after := Step(Step(Empty, First()), Second());
      Tracked(after, {1, 2}) && Inv(Step(after, Update(1, Building))) && !Tracked(Step(after, Update(1, Building)), {1, 2})
  {
    FirstRegisters();
    SecondSupersedes();
    RevivedLosesTrack(Step(OneRegistered(), Second()));
  }

  lemma RevivedLosesTrack(d: Data)
    requires Inv(d) && d.builds == map[1 := Failed, 2 := Waiting] && 1 !in d.active && 2 in d.active
    ensures Tracked(d, {1, 2}) && Inv(Step(d, Update(1, Building))) && !Tracked(Step(d, Update(1, Building)), {1, 2})
  {
    StepKeepsInvExactly(d, Update(1, Building));
    StepTracksExactly(d, Update(1, Building), {1, 2});
  }

  /** A tag removed from a waiting build lets a later registration under it pass the build by: both stay pending and active. */
  lemma UntaggedIsPassedBy()
    ensures var after := Step(Step(Step(Empty, First()), Untag("tmpl", ["v2"])), Second());
      PendingBuild(after, 1) && PendingBuild(after, 2) && 1 in after.active && 2 in after.active && Inv(after)
  {
    FirstRegisters();
    var d := Step(OneRegistered(), Untag("tmpl", ["v2"]));
    StepAssignments(OneRegistered(), Untag("tmpl", ["v2"]));
    StepKeepsInvExactly(OneRegistered(), Untag("tmpl", ["v2"]));
    StepKeepsInvExactly(d, Second());
    assert OneRegistered().assignments[0] == Assignment("tmpl", 1, "v2", 0);
    assert forall a :: a in d.assignments ==> a.buildId != 1;
    StepPending(d, Second(), 1);
    StepPending(d, Second(), 2);
  }
}
