/**
  Connecting to and resuming a sandbox against an arbitrary environment: every
  call's answer may depend on everything that happened before it.
 */
module ConnectResume {
  import opened Common

  type TeamId = string

  datatype State = Running | Pausing | Killing | Snapshotting | Unknown

  datatype KeepOutcome = Alive | NotFound | NotRunning(state: State) | KeepFailed(code: nat)

  datatype StoreOutcome = StoreMiss | InStore(owner: TeamId, state: State)

  datatype SnapshotOutcome = NoSnapshot | SnapshotError | HasSnapshot(team: TeamId)

  datatype StartOutcome = Started | StartFailed(code: nat)

  datatype Effect =
    | KeepAlive(keep: KeepOutcome)
    | Wait(ok: bool)
    | ReadStore(got: StoreOutcome)
    | ReadSnapshot(snapshot: SnapshotOutcome)
    | Start(start: StartOutcome)
    | Respond(code: nat)

  type Trace = seq<Effect>

  /** The answers the environment gives after each history. */
  datatype Environment = Environment(
    keepAlive: Trace -> KeepOutcome,
    wait: Trace -> bool,
    store: Trace -> StoreOutcome,
    snapshot: Trace -> SnapshotOutcome,
    start: Trace -> StartOutcome)

  function Answer(env: Environment, before: Trace, e: Effect): Effect {
    match e
    case KeepAlive(_) => KeepAlive(env.keepAlive(before))
    case Wait(_) => Wait(env.wait(before))
    case ReadStore(_) => ReadStore(env.store(before))
    case ReadSnapshot(_) => ReadSnapshot(env.snapshot(before))
    case Start(_) => Start(env.start(before))
    case Respond(code) => Respond(code)
  }

  /** Every answer in the trace is the environment's. */
  ghost predicate Follows(env: Environment, t: Trace) {
    forall i :: 0 <= i < |t| ==> t[i] == Answer(env, t[..i], t[i])
  }

  const MaxConnectRetries: nat := 3

  datatype Limits = Limits(maxLengthHours: nat)

  /** The parsed request; None is a body or an identifier that does not parse. */
  datatype Request = Request(timeout: Option<int>, validId: bool)

  // ---------- What the handlers may do ----------

  /** From the snapshot lookup to the response. */
  predicate ResumeTail(team: TeamId, t: Trace) {
    && |t| >= 2 && t[0].ReadSnapshot?
    && match t[0].snapshot
       case NoSnapshot => t[1..] == [Respond(404)]
       case SnapshotError => t[1..] == [Respond(500)]
       case HasSnapshot(owner) =>
         if owner != team then t[1..] == [Respond(404)]
         else t[1].Start? && t[2..] == [Respond(match t[1].start case Started => 201 case StartFailed(code) => code)]
  }

  /** Up to `budget` keep-alive attempts, then the snapshot. */
  predicate ConnectTrace(team: TeamId, budget: nat, t: Trace)
    decreases budget
  {
    if budget == 0 then ResumeTail(team, t)
    else
      && |t| >= 2 && t[0].KeepAlive?
      && match t[0].keep
         case Alive => t[1..] == [Respond(200)]
         case NotFound => ResumeTail(team, t[1..])
         case KeepFailed(code) => t[1..] == [Respond(code)]
         case NotRunning(state) =>
           if state == Killing then t[1..] == [Respond(409)]
           else t[1].Wait? && if t[1].ok then ConnectTrace(team, budget - 1, t[2..]) else t[2..] == [Respond(500)]
  }

  predicate WaitTail(team: TeamId, t: Trace) {
    |t| >= 2 && t[0].Wait? && if t[0].ok then ResumeTail(team, t[1..]) else t[1..] == [Respond(500)]
  }

  predicate ResumeTrace(team: TeamId, t: Trace) {
    && |t| >= 2 && t[0].ReadStore?
    && match t[0].got
       case StoreMiss => ResumeTail(team, t[1..])
       case InStore(owner, state) =>
         if owner != team then t[1..] == [Respond(404)]
         else match state
           case Pausing => WaitTail(team, t[1..])
           case Killing => t[1..] == [Respond(404)]
           case Snapshotting => t[1..] == [Respond(409)]
           case Running => t[1..] == [Respond(409)]
           case Unknown => t[1..] == [Respond(500)]
  }

  // ---------- The handlers ----------

  lemma FollowsMore(env: Environment, t: Trace, e: Effect)
    requires Follows(env, t) && e == Answer(env, t, e)
    ensures Follows(env, t + [e])
  {
    forall i | 0 <= i < |t| + 1 ensures (t + [e])[i] == Answer(env, (t + [e])[..i], (t + [e])[i]) {
      assert (t + [e])[..i] == t[..i];
      assert t[..|t|] == t;
    }
  }

  method ResumeFromSnapshot(env: Environment, team: TeamId, before: Trace) returns (trace: Trace)
    requires Follows(env, before)
    ensures Follows(env, trace) && |before| <= |trace| && trace[..|before|] == before && ResumeTail(team, trace[|before|..])
  {
    var snapshot := env.snapshot(before);
    trace := before + [ReadSnapshot(snapshot)];
    FollowsMore(env, before, ReadSnapshot(snapshot));
    var code;
    if snapshot.NoSnapshot? {
      code := 404;
    } else if snapshot.SnapshotError? {
      code := 500;
    } else if snapshot.team != team {
      code := 404;
    } else {
      var start := env.start(trace);
      FollowsMore(env, trace, Start(start));
      trace := trace + [Start(start)];
      code := if start.Started? then 201 else start.code;
    }
    FollowsMore(env, trace, Respond(code));
    trace := trace + [Respond(code)];
  }

  /** A number of attempts that each found a sandbox in transition and waited. */
  predicate Waited(t: Trace) {
    t == [] || (|t| >= 2 && t[0].KeepAlive? && t[0].keep.NotRunning? && t[0].keep.state != Killing && t[1] == Wait(true) && Waited(t[2..]))
  }

  lemma {:induction false} AfterWaits(team: TeamId, waited: Trace, budget: nat, rest: Trace)
    requires Waited(waited) && ConnectTrace(team, budget, rest)
    ensures |waited| % 2 == 0 && ConnectTrace(team, budget + |waited| / 2, waited + rest)
    decreases |waited|
  {
    if waited == [] {
      assert waited + rest == rest;
    } else {
      AfterWaits(team, waited[2..], budget, rest);
      assert (waited + rest)[2..] == waited[2..] + rest;
    }
  }

  lemma {:induction false} WaitedMore(t: Trace, state: State)
    requires Waited(t) && state != Killing
    ensures Waited(t + [KeepAlive(NotRunning(state)), Wait(true)])
    decreases |t|
  {
    var pair := [KeepAlive(NotRunning(state)), Wait(true)];
    if t == [] {
      assert t + pair == pair && pair[2..] == [];
    } else {
      WaitedMore(t[2..], state);
      assert (t + pair)[2..] == t[2..] + pair;
    }
  }

  /** A trace that ends the attempts with one more keep-alive. */
  lemma LastAttempt(team: TeamId, waited: Trace, trace: Trace, budget: nat)
    requires Waited(waited) && |waited| == 2 * (MaxConnectRetries - budget) && budget <= MaxConnectRetries
    requires |waited| <= |trace| && trace[..|waited|] == waited && ConnectTrace(team, budget, trace[|waited|..])
    ensures ConnectTrace(team, MaxConnectRetries, trace)
  {
    AfterWaits(team, waited, budget, trace[|waited|..]);
    assert trace == waited + trace[|waited|..];
  }

  /** A sandbox gone from the store ends the attempts in the snapshot lookup. */
  lemma GoneThenTail(team: TeamId, waited: Trace, trace: Trace, budget: nat)
    requires |waited| < |trace| && trace[..|waited| + 1] == waited + [KeepAlive(NotFound)]
    requires ResumeTail(team, trace[|waited| + 1..]) && budget >= 1
    ensures trace[..|waited|] == waited && ConnectTrace(team, budget, trace[|waited|..])
  {
    assert trace[|waited|..][1..] == trace[|waited| + 1..];
    assert trace[|waited|] == trace[..|waited| + 1][|waited|];
    assert trace[..|waited|] == trace[..|waited| + 1][..|waited|];
  }

  method Connect(env: Environment, team: TeamId, limits: Limits, request: Request) returns (trace: Trace)
    ensures request.timeout.None? || request.timeout.value > limits.maxLengthHours * 3600 || !request.validId ==> trace == [Respond(400)]
    ensures request.timeout.Some? && request.timeout.value <= limits.maxLengthHours * 3600 && request.validId ==>
              Follows(env, trace) && ConnectTrace(team, 3, trace)
  {
    trace := [];
    if request.timeout.None? {
      return [Respond(400)];
    }
    if request.timeout.value > limits.maxLengthHours * 3600 {
      return [Respond(400)];
    }
    if !request.validId {
      return [Respond(400)];
    }
    for attempt := 0 to MaxConnectRetries
      invariant Follows(env, trace) && Waited(trace) && |trace| == 2 * attempt
    {
      var waited := trace;
      var done, found;
      trace, done, found := Attempt(env, team, waited);
      if done {
        LastAttempt(team, waited, trace, MaxConnectRetries - attempt);
        return;
      }
      if !found {
        trace := ResumeFromSnapshot(env, team, trace);
        GoneThenTail(team, waited, trace, MaxConnectRetries - attempt);
        LastAttempt(team, waited, trace, MaxConnectRetries - attempt);
        return;
      }
    }
    var waited := trace;
    trace := ResumeFromSnapshot(env, team, waited);
    LastAttempt(team, waited, trace, 0);
  }

  /** One turn of the retry loop: `done` after a response, `found` false to fall through to the snapshot. */
  method Attempt(env: Environment, team: TeamId, waited: Trace) returns (trace: Trace, done: bool, found: bool)
    requires Follows(env, waited) && Waited(waited)
    ensures Follows(env, trace) && |waited| < |trace| && trace[..|waited|] == waited
    ensures done ==> forall budget: nat | budget >= 1 :: ConnectTrace(team, budget, trace[|waited|..])
    ensures !done && !found ==> trace == waited + [KeepAlive(NotFound)]
    ensures !done && found ==> Waited(trace) && |trace| == |waited| + 2
  {
    var keep := env.keepAlive(waited);
    FollowsMore(env, waited, KeepAlive(keep));
    trace := waited + [KeepAlive(keep)];
    if keep.Alive? {
      trace := Reply(env, trace, 200);
      return trace, true, true;
    }
    if keep.NotFound? {
      return trace, false, false;
    }
    if !keep.NotRunning? {
      trace := Reply(env, trace, keep.code);
      return trace, true, true;
    }
    if keep.state == Killing {
      trace := Reply(env, trace, 409);
      return trace, true, true;
    }
    var ok := env.wait(trace);
    FollowsMore(env, trace, Wait(ok));
    trace := trace + [Wait(ok)];
    if !ok {
      trace := Reply(env, trace, 500);
      return trace, true, true;
    }
    WaitedMore(waited, keep.state);
    assert trace == waited + [KeepAlive(NotRunning(keep.state)), Wait(true)];
    return trace, false, true;
  }

  method Reply(env: Environment, before: Trace, code: nat) returns (trace: Trace)
    requires Follows(env, before)
    ensures Follows(env, trace) && trace == before + [Respond(code)]
  {
    FollowsMore(env, before, Respond(code));
    trace := before + [Respond(code)];
  }

  method Resume(env: Environment, team: TeamId, limits: Limits, validId: bool, body: Option<Option<int>>) returns (trace: Trace)
    ensures !validId || body.None? || (body.value.Some? && body.value.value > limits.maxLengthHours * 3600) ==> trace == [Respond(400)]
    ensures validId && body.Some? && (body.value.Some? ==> body.value.value <= limits.maxLengthHours * 3600) ==> Follows(env, trace) && ResumeTrace(team, trace)
  {
    if !validId {
      return [Respond(400)];
    }
    if body.None? {
      return [Respond(400)];
    }
    if body.value.Some? && body.value.value > limits.maxLengthHours * 3600 {
      return [Respond(400)];
    }
    trace := ResumeStored(env, team);
  }

  /** With a valid request: the store's answer decides whether to wait, to refuse, or to look for a snapshot. */
  method ResumeStored(env: Environment, team: TeamId) returns (trace: Trace)
    ensures Follows(env, trace) && ResumeTrace(team, trace)
  {
    var got := env.store([]);
    FollowsMore(env, [], ReadStore(got));
    trace := [] + [ReadStore(got)];
    if got.InStore? {
      if got.owner != team {
        trace := Reply(env, trace, 404);
        return;
      }
      match got.state {
        case Pausing =>
          trace := WaitForPause(env, team, trace);
          return;
        case Killing =>
          trace := Reply(env, trace, 404);
          return;
        case Snapshotting =>
          trace := Reply(env, trace, 409);
          return;
        case Running =>
          trace := Reply(env, trace, 409);
          return;
        case Unknown =>
          trace := Reply(env, trace, 500);
          return;
      }
    }
    trace := ResumeFromSnapshot(env, team, trace);
  }

  method WaitForPause(env: Environment, team: TeamId, before: Trace) returns (trace: Trace)
    requires Follows(env, before)
    ensures Follows(env, trace) && |before| <= |trace| && trace[..|before|] == before && WaitTail(team, trace[|before|..])
  {
    var ok := env.wait(before);
    FollowsMore(env, before, Wait(ok));
    trace := before + [Wait(ok)];
    if !ok {
      trace := Reply(env, trace, 500);
      return;
    }
    var asked := trace;
    trace := ResumeFromSnapshot(env, team, asked);
    assert trace[|before|..][1..] == trace[|asked|..];
    assert trace[|before|] == asked[|before|];
  }

  // ---------- What every trace keeps ----------

  predicate SawKilling(e: Effect) {
    (e.KeepAlive? && e.keep == NotRunning(Killing)) || (e.ReadStore? && e.got.InStore? && e.got.state == Killing)
  }

  ghost predicate SeesKilling(t: Trace) { exists e :: e in t && SawKilling(e) }

  /** One response, at the end; at most one start, right after seeing a snapshot of the team, and none once the sandbox was seen being killed. */
  ghost predicate Safe(team: TeamId, t: Trace) {
    && t != [] && !t[0].Start?
    && (forall i :: 0 <= i < |t| ==> (t[i].Respond? <==> i == |t| - 1))
    && (forall i, j :: 0 <= i < |t| && 0 <= j < |t| && t[i].Start? && t[j].Start? ==> i == j)
    && (forall i :: 0 <= i < |t| && t[i].Start? ==> i >= 1 && t[i - 1] == ReadSnapshot(HasSnapshot(team)))
    && (forall i, j :: 0 <= i < j < |t| && SawKilling(t[i]) ==> !t[j].Start?)
  }

  /** A safe trace stays safe behind an effect that starts nothing and saw no killing. */
  lemma SafeBehind(team: TeamId, t: Trace)
    requires |t| >= 2 && Safe(team, t[1..])
    requires !t[0].Respond? && !t[0].Start? && !SawKilling(t[0])
    ensures Safe(team, t)
  {
    var rest := t[1..];
    assert forall i :: 1 <= i < |t| ==> t[i] == rest[i - 1];
  }

  /** Answering at once is safe, even after seeing a killing. */
  lemma ReplySafe(team: TeamId, t: Trace)
    requires |t| == 2 && !t[0].Respond? && !t[0].Start? && t[1].Respond?
    ensures Safe(team, t)
  {
  }

  lemma TailSafe(team: TeamId, t: Trace)
    requires ResumeTail(team, t)
    ensures Safe(team, t) && forall e :: e in t ==> !e.KeepAlive? && !e.Wait?
  {
    assert t == [t[0], t[1]] + t[2..];
  }

  /** Keep-alives stand at even places below `2 * budget`, and a wait only right after one. */
  ghost predicate Bounded(budget: nat, t: Trace) {
    forall i :: 0 <= i < |t| ==>
      && (t[i].KeepAlive? ==> i % 2 == 0 && i < 2 * budget)
      && (t[i].Wait? ==> i >= 1 && t[i - 1].KeepAlive?)
  }

  lemma BoundedBehind(budget: nat, t: Trace)
    requires budget >= 1 && |t| >= 2 && t[0].KeepAlive? && t[1].Wait? && Bounded(budget - 1, t[2..])
    ensures Bounded(budget, t)
  {
    var rest := t[2..];
    forall i | 2 <= i < |t|
      ensures (t[i].KeepAlive? ==> i % 2 == 0 && i < 2 * budget) && (t[i].Wait? ==> t[i - 1].KeepAlive?) {
      assert t[i] == rest[i - 2];
      assert t[i].Wait? ==> t[i - 1] == rest[i - 3];
    }
  }

  lemma {:induction false} ConnectBounded(team: TeamId, budget: nat, t: Trace)
    requires ConnectTrace(team, budget, t)
    ensures Bounded(budget, t)
    decreases budget
  {
    if budget == 0 {
      NoneInTail(team, t);
    } else if t[0].keep.NotFound? {
      NoneInTail(team, t[1..]);
      assert forall i :: 1 <= i < |t| ==> t[i] == t[1..][i - 1];
    } else if t[1].Wait? && t[1].ok {
      ConnectBounded(team, budget - 1, t[2..]);
      BoundedBehind(budget, t);
    } else {
      assert forall i :: 2 <= i < |t| ==> t[i] == t[2..][i - 2];
    }
  }

  lemma NoneInTail(team: TeamId, t: Trace)
    requires ResumeTail(team, t)
    ensures forall i :: 0 <= i < |t| ==> !t[i].KeepAlive? && !t[i].Wait?
  {
    TailSafe(team, t);
    assert forall i :: 0 <= i < |t| ==> t[i] in t;
  }

  lemma {:induction false} ConnectSafe(team: TeamId, budget: nat, t: Trace)
    requires ConnectTrace(team, budget, t)
    ensures Safe(team, t)
    decreases budget
  {
    if budget == 0 {
      TailSafe(team, t);
    } else {
      assert t[1..][1..] == t[2..];
      if t[0].keep.NotFound? {
        TailSafe(team, t[1..]);
        SafeBehind(team, t);
      } else if t[0].keep.NotRunning? && t[0].keep.state != Killing {
        if t[1].ok {
          ConnectSafe(team, budget - 1, t[2..]);
          SafeBehind(team, t[1..]);
        } else {
          ReplySafe(team, t[1..]);
        }
        SafeBehind(team, t);
      } else {
        ReplySafe(team, t);
      }
    }
  }

  lemma ResumeIsSafe(team: TeamId, t: Trace)
    requires ResumeTrace(team, t)
    ensures Safe(team, t)
  {
    assert t[1..][1..] == t[2..];
    if t[0].got.StoreMiss? {
      TailSafe(team, t[1..]);
      SafeBehind(team, t);
    } else if t[0].got.owner == team && t[0].got.state.Pausing? {
      if t[1].ok {
        TailSafe(team, t[2..]);
        SafeBehind(team, t[1..]);
      } else {
        ReplySafe(team, t[1..]);
      }
      SafeBehind(team, t);
    } else {
      ReplySafe(team, t);
    }
  }

  /**
    What connect keeps on every schedule: it responds once, at the end; it asks
    for a keep-alive at most three times; it starts at most one sandbox, right
    after a snapshot of the caller's team, and never after seeing it being killed.
   */
  lemma ConnectPromises(team: TeamId, t: Trace)
    requires ConnectTrace(team, MaxConnectRetries, t)
    ensures |t| >= 1 && forall i :: 0 <= i < |t| ==> (t[i].Respond? <==> i == |t| - 1)
    ensures forall i :: 0 <= i < |t| && t[i].KeepAlive? ==> i == 0 || i == 2 || i == 4
    ensures forall i :: 0 <= i < |t| && t[i].Wait? ==> i >= 1 && t[i - 1].KeepAlive?
    ensures forall i, j :: 0 <= i < |t| && 0 <= j < |t| && t[i].Start? && t[j].Start? ==> i == j
    ensures forall i :: 0 <= i < |t| && t[i].Start? ==> i >= 1 && t[i - 1] == ReadSnapshot(HasSnapshot(team))
    ensures forall i, j :: 0 <= i < j < |t| && t[i] == KeepAlive(NotRunning(Killing)) ==> !t[j].Start?
  {
    ConnectSafe(team, MaxConnectRetries, t);
    ConnectBounded(team, MaxConnectRetries, t);
    assert forall i :: 0 <= i < |t| && t[i] == KeepAlive(NotRunning(Killing)) ==> SawKilling(t[i]);
  }

  /** The same for resume: it reads the store once, never asks for a keep-alive, waits at most once, and starts only if the store misses the sandbox or after its own pause. */
  lemma ResumePromises(team: TeamId, t: Trace)
    requires ResumeTrace(team, t)
    ensures |t| >= 1 && forall i :: 0 <= i < |t| ==> (t[i].Respond? <==> i == |t| - 1)
    ensures forall i :: 0 <= i < |t| ==> !t[i].KeepAlive? && (t[i].ReadStore? <==> i == 0) && (t[i].Wait? ==> i == 1)
    ensures forall i, j :: 0 <= i < |t| && 0 <= j < |t| && t[i].Start? && t[j].Start? ==> i == j
    ensures forall i :: 0 <= i < |t| && t[i].Start? ==>
              && i >= 1 && t[i - 1] == ReadSnapshot(HasSnapshot(team))
              && (t[0] == ReadStore(StoreMiss) || (t[0] == ReadStore(InStore(team, Pausing)) && t[1] == Wait(true)))
  {
    ResumeIsSafe(team, t);
    assert t[1..][1..] == t[2..];
    assert t == [t[0]] + t[1..] && t == [t[0], t[1]] + t[2..];
    if t[0].got.StoreMiss? {
      PlainTail(team, t[1..]);
    } else if t[0].got.owner == team && t[0].got.state.Pausing? && t[1].ok {
      PlainTail(team, t[2..]);
    }
  }

  lemma PlainTail(team: TeamId, t: Trace)
    requires ResumeTail(team, t)
    ensures forall i :: 0 <= i < |t| ==> !t[i].KeepAlive? && !t[i].Wait? && !t[i].ReadStore?
  {
    assert t == [t[0], t[1]] + t[2..];
  }

  // ---------- What a response says ----------

  /** Failures answer with error codes. */
  ghost predicate ErrorCodes(t: Trace) {
    forall e :: e in t ==>
      (e.KeepAlive? && e.keep.KeepFailed? ==> e.keep.code >= 400) && (e.Start? && e.start.StartFailed? ==> e.start.code >= 400)
  }

  function LastCode(t: Trace): nat { if t != [] && t[|t| - 1].Respond? then t[|t| - 1].code else 0 }

  ghost predicate StatusTells(t: Trace) {
    && (LastCode(t) == 200 <==> KeepAlive(Alive) in t)
    && (LastCode(t) == 201 <==> Start(Started) in t)
  }

  lemma TellsBehind(t: Trace)
    requires |t| >= 2 && StatusTells(t[1..]) && t[0] != KeepAlive(Alive) && t[0] != Start(Started)
    ensures StatusTells(t) && LastCode(t) == LastCode(t[1..])
  {
    assert t == [t[0]] + t[1..];
    assert t[|t| - 1] == t[1..][|t| - 2];
  }

  lemma TailTells(team: TeamId, t: Trace)
    requires ResumeTail(team, t) && ErrorCodes(t)
    ensures StatusTells(t)
    ensures LastCode(t) == 201 <==> t[0].snapshot == HasSnapshot(team) && t[1].Start? && t[1].start.Started?
  {
    if t[1].Start? {
      assert t == [t[0], t[1], t[2]];
      assert t[1] in t;
    } else {
      assert t == [t[0], t[1]];
    }
  }

  /** The code after the snapshot lookup: 404 without one of the team, 500 when it cannot be read, 201 or the failure's own code after a start. */
  lemma TailCodes(team: TeamId, t: Trace)
    requires ResumeTail(team, t)
    ensures t[0] == ReadSnapshot(NoSnapshot) ==> t == [ReadSnapshot(NoSnapshot), Respond(404)]
    ensures t[0] == ReadSnapshot(SnapshotError) ==> t == [ReadSnapshot(SnapshotError), Respond(500)]
    ensures forall owner :: owner != team && t[0] == ReadSnapshot(HasSnapshot(owner)) ==> t == [ReadSnapshot(HasSnapshot(owner)), Respond(404)]
    ensures t[0] == ReadSnapshot(HasSnapshot(team)) ==>
              t == [ReadSnapshot(HasSnapshot(team)), Start(Started), Respond(201)]
              || exists code :: t == [ReadSnapshot(HasSnapshot(team)), Start(StartFailed(code)), Respond(code)]
  {
    if t[1].Start? {
      assert t == [t[0], t[1]] + t[2..];
      if t[1].start.StartFailed? {
        assert t == [ReadSnapshot(HasSnapshot(team)), Start(StartFailed(t[1].start.code)), Respond(t[1].start.code)];
      }
    } else {
      assert t == [t[0]] + t[1..];
    }
  }

  lemma ErrorCodesTail(t: Trace)
    requires ErrorCodes(t) && t != []
    ensures ErrorCodes(t[1..])
  {
    assert forall e :: e in t[1..] ==> e in t;
  }

  /** 200 answers exactly a keep-alive that worked, 201 exactly a start that worked. */
  lemma {:induction false} ConnectStatus(team: TeamId, budget: nat, t: Trace)
    requires ConnectTrace(team, budget, t) && ErrorCodes(t)
    ensures StatusTells(t)
    decreases budget
  {
    if budget == 0 {
      TailTells(team, t);
    } else {
      ErrorCodesTail(t);
      assert t[1..][1..] == t[2..];
      if t[0].keep.NotFound? {
        TailTells(team, t[1..]);
        TellsBehind(t);
      } else if t[0].keep.NotRunning? && t[0].keep.state != Killing && t[1].ok {
        ErrorCodesTail(t[1..]);
        ConnectStatus(team, budget - 1, t[2..]);
        TellsBehind(t[1..]);
        TellsBehind(t);
      } else {
        ShortStatus(t);
      }
    }
  }

  lemma ShortStatus(t: Trace)
    requires ErrorCodes(t) && |t| >= 2 && t[0].KeepAlive?
    requires t[1..] == [Respond(LastCode(t))] || (t[1].Wait? && t[2..] == [Respond(500)])
    requires LastCode(t) == 200 <==> t[0].keep.Alive?
    requires LastCode(t) != 201
    ensures StatusTells(t)
  {
    assert t[0] in t;
    if t[1].Wait? {
      assert t == [t[0], t[1], Respond(500)];
    } else {
      assert t == [t[0]] + t[1..];
    }
  }

  /** Resume answers 201 exactly when the start worked, and 404 whenever it saw a killing. */
  lemma ResumeStatus(team: TeamId, t: Trace)
    requires ResumeTrace(team, t) && ErrorCodes(t)
    ensures LastCode(t) != 200 && StatusTells(t)
    ensures SeesKilling(t) ==> LastCode(t) == 404
  {
    ErrorCodesTail(t);
    assert t[1..][1..] == t[2..];
    if t[0].got.StoreMiss? {
      TailTells(team, t[1..]);
      TellsBehind(t);
    } else if t[0].got.owner == team && t[0].got.state.Pausing? && t[1].ok {
      ErrorCodesTail(t[1..]);
      TailTells(team, t[2..]);
      TellsBehind(t[1..]);
      TellsBehind(t);
    } else if t[1].Wait? {
      assert t == [t[0], t[1], Respond(500)];
    } else {
      assert t == [t[0]] + t[1..];
    }
  }

  lemma SeenLater(t: Trace)
    requires t != [] && SeesKilling(t) && !SawKilling(t[0])
    ensures SeesKilling(t[1..])
  {
    assert t == [t[0]] + t[1..];
  }

  /** Connect answers 409 whenever it saw a killing. */
  lemma {:induction false} KillingIsConflict(team: TeamId, budget: nat, t: Trace)
    requires ConnectTrace(team, budget, t) && SeesKilling(t)
    ensures LastCode(t) == 409
    decreases budget
  {
    if budget == 0 {
      TailSeesNoKilling(team, t);
    } else if t[0].keep != NotRunning(Killing) {
      SeenLater(t);
      if t[0].keep.NotFound? {
        TailSeesNoKilling(team, t[1..]);
      } else if t[1].Wait? {
        SeenLater(t[1..]);
        assert t[1..][1..] == t[2..];
        if t[1].ok {
          KillingIsConflict(team, budget - 1, t[2..]);
        }
      }
    }
  }

  lemma TailSeesNoKilling(team: TeamId, t: Trace)
    requires ResumeTail(team, t)
    ensures !SeesKilling(t)
  {
    assert t == [t[0], t[1]] + t[2..];
  }

  /** Connect starts a sandbox only once the store has lost it, or after using up every attempt on transitions. */
  lemma {:induction false} StartNeedsAbsence(team: TeamId, budget: nat, t: Trace)
    requires ConnectTrace(team, budget, t) && exists e :: e in t && e.Start?
    ensures KeepAlive(NotFound) in t || (|t| > 2 * budget && forall k :: 0 <= k < budget ==> t[2 * k].KeepAlive? && t[2 * k + 1] == Wait(true))
    decreases budget
  {
    if budget > 0 && !t[0].keep.NotFound? {
      var e :| e in t && e.Start?;
      assert t == [t[0], t[1]] + t[2..];
      if t[1].Wait? && t[1].ok {
        assert e in t[2..];
        StartNeedsAbsence(team, budget - 1, t[2..]);
        if KeepAlive(NotFound) !in t[2..] {
          forall k | 0 <= k < budget ensures t[2 * k].KeepAlive? && t[2 * k + 1] == Wait(true) {
            assert k >= 1 ==> t[2 * k] == t[2..][2 * (k - 1)] && t[2 * k + 1] == t[2..][2 * (k - 1) + 1];
          }
        }
      }
    }
  }

  /** The code of a response follows from the effect before it. */
  lemma {:induction false} ConnectCodes(team: TeamId, budget: nat, t: Trace)
    requires ConnectTrace(team, budget, t)
    ensures |t| >= 2 && t[|t| - 1].Respond?
    ensures
      var e, code := t[|t| - 2], t[|t| - 1].code;
      || (e == KeepAlive(Alive) && code == 200)
      || (e.KeepAlive? && e.keep.KeepFailed? && code == e.keep.code)
      || (e == KeepAlive(NotRunning(Killing)) && code == 409)
      || (e == Wait(false) && code == 500)
      || (e == ReadSnapshot(NoSnapshot) && code == 404)
      || (e == ReadSnapshot(SnapshotError) && code == 500)
      || (e.ReadSnapshot? && e.snapshot.HasSnapshot? && e.snapshot.team != team && code == 404)
      || (e == Start(Started) && code == 201)
      || (e.Start? && e.start.StartFailed? && code == e.start.code)
    decreases budget
  {
    if budget == 0 {
      TailCodes(team, t);
    } else {
      assert t == [t[0]] + t[1..] && t == [t[0], t[1]] + t[2..];
      if t[0].keep.NotFound? {
        TailCodes(team, t[1..]);
      } else if t[1].Wait? && t[1].ok {
        ConnectCodes(team, budget - 1, t[2..]);
      }
    }
  }

  /** The code of a resume that ends before the snapshot lookup. */
  lemma ResumeCodes(team: TeamId, t: Trace)
    requires ResumeTrace(team, t)
    ensures forall owner, state :: owner != team && t[0] == ReadStore(InStore(owner, state)) ==> t[1..] == [Respond(404)]
    ensures t[0] == ReadStore(InStore(team, Killing)) ==> t[1..] == [Respond(404)]
    ensures t[0] == ReadStore(InStore(team, Snapshotting)) || t[0] == ReadStore(InStore(team, Running)) ==> t[1..] == [Respond(409)]
    ensures t[0] == ReadStore(InStore(team, Unknown)) ==> t[1..] == [Respond(500)]
    ensures t[0] == ReadStore(InStore(team, Pausing)) ==> t[1..] == [Wait(false), Respond(500)] || (t[1] == Wait(true) && ResumeTail(team, t[2..]))
    ensures t[0] == ReadStore(StoreMiss) ==> ResumeTail(team, t[1..])
  {
    assert t[1..][1..] == t[2..];
    assert t[1..] == [t[1]] + t[2..];
  }

  // ---------- One behaviour per environment ----------

  lemma SameNext(env: Environment, pre: Trace, s: Trace, t: Trace)
    requires Follows(env, pre + s) && Follows(env, pre + t) && s != [] && t != []
    ensures t[0] == Answer(env, pre, t[0]) && s[0] == Answer(env, pre, s[0])
    ensures (pre + [s[0]]) + s[1..] == pre + s
  {
    assert (pre + s)[..|pre|] == pre && (pre + t)[..|pre|] == pre;
    assert (pre + s)[|pre|] == s[0] && (pre + t)[|pre|] == t[0];
  }

  lemma OneTail(env: Environment, team: TeamId, pre: Trace, s: Trace, t: Trace)
    requires Follows(env, pre + s) && Follows(env, pre + t) && ResumeTail(team, s) && ResumeTail(team, t)
    ensures s == t
  {
    SameNext(env, pre, s, t);
    SameNext(env, pre, t, s);
    if s[1].Start? {
      SameNext(env, pre + [s[0]], s[1..], t[1..]);
      assert s == [s[0], s[1]] + s[2..] && t == [t[0], t[1]] + t[2..];
    } else {
      assert s == [s[0]] + s[1..] && t == [t[0]] + t[1..];
    }
  }

  /** The environment leaves connect exactly one trace. */
  lemma {:induction false} OneConnect(env: Environment, team: TeamId, budget: nat, pre: Trace, s: Trace, t: Trace)
    requires Follows(env, pre + s) && Follows(env, pre + t) && ConnectTrace(team, budget, s) && ConnectTrace(team, budget, t)
    ensures s == t
    decreases budget
  {
    if budget == 0 {
      OneTail(env, team, pre, s, t);
    } else {
      SameNext(env, pre, s, t);
      SameNext(env, pre, t, s);
      var pre1 := pre + [s[0]];
      assert s == [s[0]] + s[1..] && t == [t[0]] + t[1..];
      if s[0].keep.NotFound? {
        OneTail(env, team, pre1, s[1..], t[1..]);
      } else if s[1].Wait? {
        SameNext(env, pre1, s[1..], t[1..]);
        SameNext(env, pre1, t[1..], s[1..]);
        assert s[1..] == [s[1]] + s[2..] && t[1..] == [t[1]] + t[2..];
        if s[1].ok {
          assert s[1..][1..] == s[2..] && t[1..][1..] == t[2..];
          OneConnect(env, team, budget - 1, pre1 + [s[1]], s[2..], t[2..]);
        }
      }
    }
  }

  lemma OneWaitTail(env: Environment, team: TeamId, pre: Trace, s: Trace, t: Trace)
    requires Follows(env, pre + s) && Follows(env, pre + t) && WaitTail(team, s) && WaitTail(team, t)
    ensures s == t
  {
    SameNext(env, pre, s, t);
    SameNext(env, pre, t, s);
    assert s == [s[0]] + s[1..] && t == [t[0]] + t[1..];
    if s[0].ok {
      OneTail(env, team, pre + [s[0]], s[1..], t[1..]);
    }
  }

  lemma OneResumeAfter(env: Environment, team: TeamId, pre: Trace, s: Trace, t: Trace)
    requires Follows(env, pre + s) && Follows(env, pre + t) && ResumeTrace(team, s) && ResumeTrace(team, t)
    ensures s == t
  {
    SameNext(env, pre, s, t);
    SameNext(env, pre, t, s);
    var pre1 := pre + [s[0]];
    assert s == [s[0]] + s[1..] && t == [t[0]] + t[1..];
    if s[0].got.StoreMiss? {
      OneTail(env, team, pre1, s[1..], t[1..]);
    } else if s[0].got == InStore(team, Pausing) {
      OneWaitTail(env, team, pre1, s[1..], t[1..]);
    }
  }

  /** The environment leaves resume exactly one trace. */
  lemma OneResume(env: Environment, team: TeamId, s: Trace, t: Trace)
    requires Follows(env, s) && Follows(env, t) && ResumeTrace(team, s) && ResumeTrace(team, t)
    ensures s == t
  {
    assert [] + s == s && [] + t == t;
    OneResumeAfter(env, team, [], s, t);
  }
}
