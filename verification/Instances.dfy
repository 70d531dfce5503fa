/** One cluster instance: its identity, its connection and the health its syncs have left it in. */
module Instances {
  import opened Common

  datatype Status = Healthy | Draining | Unhealthy | Standby

  datatype Role = TemplateBuilder | Orchestrator

  /** What a successful ServiceInfo call reports. */
  datatype ServiceInfo = ServiceInfo(serviceId: string, status: Status, roles: seq<Role>)

  const MAX_SYNC_FAILURES: nat := 3

  /** The fields a sync may change. */
  datatype Health = Health(serviceInstanceId: string, status: Status, roles: seq<Role>,
                           isBuilder: bool, isOrchestrator: bool, syncFailCount: nat)

  /** `None` is a failed call. */
  function SyncStep(h: Health, outcome: Option<ServiceInfo>): Health {
    match outcome
    case None =>
      h.(syncFailCount := h.syncFailCount + 1,
         status := if h.syncFailCount + 1 >= MAX_SYNC_FAILURES then Unhealthy else h.status)
    case Some(info) =>
      Health(info.serviceId, info.status, info.roles, TemplateBuilder in info.roles, Orchestrator in info.roles, 0)
  }

  class Instance {
    const uniqueIdentifier: string
    const nodeId: string
    const conn: nat
    var serviceInstanceId: string
    var status: Status
    var roles: seq<Role>
    var isBuilder: bool
    var isOrchestrator: bool
    var syncFailCount: nat

    function State(): Health
      reads this
    {
      Health(serviceInstanceId, status, roles, isBuilder, isOrchestrator, syncFailCount)
    }

    constructor (uniqueIdentifier: string, nodeId: string, instanceId: string, conn: nat)
      ensures this.uniqueIdentifier == uniqueIdentifier && this.nodeId == nodeId && this.conn == conn
      ensures State() == Unsynced(instanceId)
    {
      this.uniqueIdentifier, this.nodeId, this.conn := uniqueIdentifier, nodeId, conn;
      serviceInstanceId, status, roles := instanceId, Healthy, [];
      isBuilder, isOrchestrator, syncFailCount := false, false, 0;
    }

    method Sync(outcome: Option<ServiceInfo>) returns (ok: bool)
      modifies this
      ensures State() == SyncStep(old(State()), outcome)
      ensures ok == outcome.Some?
    {
      match outcome {
        case None =>
          syncFailCount := syncFailCount + 1;
          if syncFailCount >= MAX_SYNC_FAILURES {
            status := Unhealthy;
          }
          ok := false;
        case Some(info) =>
          syncFailCount := 0;
          status := info.status;
          roles := info.roles;
          serviceInstanceId := info.serviceId;
          isBuilder := Contains(roles, TemplateBuilder);
          isOrchestrator := Contains(roles, Orchestrator);
          ok := true;
      }
    }
  }

  predicate Contains(roles: seq<Role>, r: Role) { r in roles }

  /** Default field values, kept only until the first sync. */
  function Unsynced(instanceId: string): Health { Health(instanceId, Healthy, [], false, false, 0) }

  // ---------- Health as a function of the outcome history ----------

  function RunSyncs(h: Health, outcomes: seq<Option<ServiceInfo>>): Health {
    if outcomes == [] then h
    else SyncStep(RunSyncs(h, outcomes[..|outcomes| - 1]), outcomes[|outcomes| - 1])
  }

  /** How many calls have failed since the last one that succeeded. */
  function TrailingFailures(outcomes: seq<Option<ServiceInfo>>): (n: nat)
    ensures n <= |outcomes|
    ensures forall i :: |outcomes| - n <= i < |outcomes| ==> outcomes[i].None?
    ensures n < |outcomes| ==> outcomes[|outcomes| - n - 1].Some?
  {
    if outcomes == [] || outcomes[|outcomes| - 1].Some? then 0
    else 1 + TrailingFailures(outcomes[..|outcomes| - 1])
  }

  /** The report in force: the one just before the trailing failures, or the first one. */
  function LastReport(first: ServiceInfo, outcomes: seq<Option<ServiceInfo>>): ServiceInfo {
    var n := TrailingFailures(outcomes);
    if n == |outcomes| then first else outcomes[|outcomes| - n - 1].value
  }

  /** Health refines the history: it depends only on the trailing failure run and the last report. */
  lemma {:induction false} HealthRefinesHistory(instanceId: string, first: ServiceInfo, outcomes: seq<Option<ServiceInfo>>)
    ensures
      var h := RunSyncs(SyncStep(Unsynced(instanceId), Some(first)), outcomes);
      var report := LastReport(first, outcomes);
      && h.syncFailCount == TrailingFailures(outcomes)
      && h.status == (if TrailingFailures(outcomes) >= 3 then Unhealthy else report.status)
      && h.roles == report.roles
      && (h.isBuilder <==> TemplateBuilder in report.roles)
      && (h.isOrchestrator <==> Orchestrator in report.roles)
      && h.serviceInstanceId == report.serviceId
  {
    if outcomes != [] {
      HealthRefinesHistory(instanceId, first, outcomes[..|outcomes| - 1]);
    }
  }
}
