/** The job handlers (backend/src/services/workflows.ts): the detection job,
    which turns crashing upgrades into incidents, and the incident job, which
    repeats plan, patch and validation until a validation passes or the
    attempts run out. Every collaborator answers from an oracle, and a run is
    the trace of effects it leaves. */
module Workflows {
  import opened Wrappers
  import opened Types
  import opened Store
  import opened Seqs
  import opened Sandbox
  import Detection
  import opened Reasoner
  import opened Dispatch
  import opened Reporting
  import opened Effects
  import opened Planner
  import opened Validation

  /** The configuration the handlers read. */
  datatype Config = Config(maxAttempts: int, projectCommand: string, workspaceRoot: string,
                           githubToken: string, repoFullName: string)

  /** What the outside world does during one attempt: the reasoner's reply,
      the outcome of each patch's dispatch, the validating sandbox run and the
      pull request calls. */
  datatype Iteration = Iteration(reply: Reply, patches: nat -> PatchOracle, exec: ExecOutcome, pr: PrOracle)

  /** The errors that escape the incident job: a thrown planning, dispatch or
      pull request failure ends the job on the spot. */
  datatype JobError =
    | PlanningFailed(reasonError: ReasonError)
    | DispatchFailed(dispatchError: DispatchError)
    | PrFailed(prError: PrError)

  datatype JobEnd = Passed | Exhausted | Aborted(error: JobError)

  /** How one attempt ends: go round again, or leave the loop. */
  datatype Pass = Retry | Stop(end: JobEnd)

  /** A job that got as far as writing the FIXED status. */
  predicate ReachedFixed(end: JobEnd) {
    end.Passed? || (end.Aborted? && end.error.PrFailed?)
  }

  /** `upsertIncident({ ...incident, status })`. */
  function Snapshot(incident: IncidentRecord, s: Status): Effect {
    Db(UpsertIncident(incident.(status := s)))
  }

  /** The three snapshots of an attempt that reaches validation. */
  function Cycle(incident: IncidentRecord): seq<IncidentRecord> {
    [incident.(status := Analyzing), incident.(status := Patching), incident.(status := Validating)]
  }

  // ----- what a trace leaves in the database -----

  function SnapOfWrite(w: Write): Option<IncidentRecord> {
    if w.UpsertIncident? then Some(w.record) else None
  }

  function RewardOfWrite(w: Write): Option<RewardSignal> {
    if w.InsertReward? then Some(w.signal) else None
  }

  function AttemptOfWrite(w: Write): Option<(int, RepairPlan, ValidationResult)> {
    if w.InsertEvent? && w.event.kind == "attempt" && w.event.payload.AttemptPayload? then
      Some((w.event.payload.attempt, w.event.payload.plan, w.event.payload.validation))
    else None
  }

  function DetectionOfWrite(w: Write): Option<IncidentRecord> {
    if w.InsertEvent? && w.event.kind == "incident_detected" && w.event.payload.IncidentPayload? then
      Some(w.event.payload.incident)
    else None
  }

  function FixOfWrite(w: Write): Option<(RepairPlan, ValidationResult)> {
    if w.InsertEvent? && w.event.kind == "fixed" && w.event.payload.FixedPayload? then
      Some((w.event.payload.plan, w.event.payload.validation))
    else None
  }

  function FailureOfWrite(w: Write): Option<Option<string>> {
    if w.InsertEvent? && w.event.kind == "failed" then Some(w.event.incidentId) else None
  }

  function SnapOf(e: Effect): Option<IncidentRecord> {
    if e.Db? then SnapOfWrite(e.write) else None
  }

  function RewardOf(e: Effect): Option<RewardSignal> {
    if e.Db? then RewardOfWrite(e.write) else None
  }

  function AttemptOf(e: Effect): Option<(int, RepairPlan, ValidationResult)> {
    if e.Db? then AttemptOfWrite(e.write) else None
  }

  function DetectionOf(e: Effect): Option<IncidentRecord> {
    if e.Db? then DetectionOfWrite(e.write) else None
  }

  function FixOf(e: Effect): Option<(RepairPlan, ValidationResult)> {
    if e.Db? then FixOfWrite(e.write) else None
  }

  function FailureOf(e: Effect): Option<Option<string>> {
    if e.Db? then FailureOfWrite(e.write) else None
  }

  /** Every incident record the trace upserts, in order. */
  function Snaps(t: Trace): seq<IncidentRecord> {
    FilterMap(t, SnapOf)
  }

  /** Every reward the trace stores, in order. */
  function StoredRewards(t: Trace): seq<RewardSignal> {
    FilterMap(t, RewardOf)
  }

  /** The (attempt number, plan, validation) of every `attempt` event. */
  function Attempts(t: Trace): seq<(int, RepairPlan, ValidationResult)> {
    FilterMap(t, AttemptOf)
  }

  /** The incident of every `incident_detected` event. */
  function Detections(t: Trace): seq<IncidentRecord> {
    FilterMap(t, DetectionOf)
  }

  /** The (plan, validation) of every `fixed` event. */
  function FixedEvents(t: Trace): seq<(RepairPlan, ValidationResult)> {
    FilterMap(t, FixOf)
  }

  /** The incident id of every `failed` event. */
  function FailedEvents(t: Trace): seq<Option<string>> {
    FilterMap(t, FailureOf)
  }

  // ----- the order of a trace -----

  /** What kind of thing an effect is: the status an upsert writes, the
      table or event kind another write goes to, or the collaborator called.
      The steps inside a dispatch or a pull request have none. */
  datatype Milestone =
    | StatusSet(status: Status)
    | Asked | PlanStored | Dispatched | Ran | VerdictStored | RewardStored
    | Logged(kind: string)
    | PullRequested | Notified

  function MilestoneOfWrite(w: Write): Milestone {
    match w
    case UpsertIncident(record) => StatusSet(record.status)
    case InsertEvent(event) => Logged(event.kind)
    case InsertPlan(_) => PlanStored
    case InsertValidation(_) => VerdictStored
    case InsertReward(_) => RewardStored
  }

  function MilestoneOf(e: Effect): Option<Milestone> {
    match e
    case Db(w) => Some(MilestoneOfWrite(w))
    case AskReasoner(_, _, _) => Some(Asked)
    case SandboxRun(_) => Some(Ran)
    case DispatchCall(_) => Some(Dispatched)
    case PrCall(_, _, _) => Some(PullRequested)
    case Dashboard(_) => Some(Notified)
    case Patch(_) => None
    case Pr(_) => None
  }

  /** The milestones of a trace, in order. */
  function Milestones(t: Trace): seq<Milestone> {
    FilterMap(t, MilestoneOf)
  }

  /** The ANALYZING status, the request to the reasoner and, when it
      answered with a plan, the stored plan. */
  function Planned(ok: bool): seq<Milestone> {
    [StatusSet(Analyzing), Asked] + (if ok then [PlanStored] else [])
  }

  /** The PATCHING status, then the dispatch. */
  const Patched: seq<Milestone> := [StatusSet(Patching), Dispatched]

  /** The VALIDATING status, the sandbox run, the stored verdict and reward,
      then the `attempt` event and its notice. */
  const Validated: seq<Milestone> :=
    [StatusSet(Validating), Ran, VerdictStored, RewardStored, Logged("attempt"), Notified]

  /** The FIXED status, the `fixed` event and the pull request, then the
      notice unless the pull request threw. */
  function Closed(failed: bool): seq<Milestone> {
    [StatusSet(Fixed), Logged("fixed"), PullRequested] + (if failed then [] else [Notified])
  }

  /** The milestones of an attempt that got as far as its `attempt` event. */
  const Round: seq<Milestone> := Planned(true) + Patched + Validated

  /** The milestones after a job's validated attempts. */
  function Ending(end: JobEnd): seq<Milestone> {
    match end
    case Passed => Closed(false)
    case Exhausted => [StatusSet(Failed), Logged("failed")]
    case Aborted(PlanningFailed(_)) => Planned(false)
    case Aborted(DispatchFailed(_)) => Planned(true) + Patched
    case Aborted(PrFailed(_)) => Closed(true)
  }

  function AsSeq<T>(o: Option<T>): seq<T> {
    if o.Some? then [o.value] else []
  }

  lemma Split(a: Trace, b: Trace)
    ensures Writes(a + b) == Writes(a) + Writes(b)
    ensures Asks(a + b) == Asks(a) + Asks(b) && PrCalls(a + b) == PrCalls(a) + PrCalls(b)
    ensures Snaps(a + b) == Snaps(a) + Snaps(b) && StoredRewards(a + b) == StoredRewards(a) + StoredRewards(b)
    ensures Attempts(a + b) == Attempts(a) + Attempts(b) && Detections(a + b) == Detections(a) + Detections(b)
    ensures FixedEvents(a + b) == FixedEvents(a) + FixedEvents(b) && FailedEvents(a + b) == FailedEvents(a) + FailedEvents(b)
    ensures Milestones(a + b) == Milestones(a) + Milestones(b)
  {
    FilterMapAppend(a, b, MilestoneOf);
    FilterMapAppend(a, b, WriteOf);
    FilterMapAppend(a, b, AskOf);
    FilterMapAppend(a, b, PrCallOf);
    FilterMapAppend(a, b, SnapOf);
    FilterMapAppend(a, b, RewardOf);
    FilterMapAppend(a, b, AttemptOf);
    FilterMapAppend(a, b, DetectionOf);
    FilterMapAppend(a, b, FixOf);
    FilterMapAppend(a, b, FailureOf);
  }

  lemma FilterMapOne<A, B>(x: A, f: A -> Option<B>)
    ensures FilterMap([x], f) == AsSeq(f(x))
  {
    assert [x][..0] == [];
  }

  /** A single effect, as every projection sees it. */
  lemma One(e: Effect)
    ensures Writes([e]) == AsSeq(WriteOf(e)) && Asks([e]) == AsSeq(AskOf(e)) && PrCalls([e]) == AsSeq(PrCallOf(e))
    ensures Snaps([e]) == AsSeq(SnapOf(e)) && StoredRewards([e]) == AsSeq(RewardOf(e))
    ensures Attempts([e]) == AsSeq(AttemptOf(e)) && Detections([e]) == AsSeq(DetectionOf(e))
    ensures FixedEvents([e]) == AsSeq(FixOf(e)) && FailedEvents([e]) == AsSeq(FailureOf(e))
    ensures Milestones([e]) == AsSeq(MilestoneOf(e))
  {
    FilterMapOne(e, MilestoneOf);
    FilterMapOne(e, WriteOf);
    FilterMapOne(e, AskOf);
    FilterMapOne(e, PrCallOf);
    FilterMapOne(e, SnapOf);
    FilterMapOne(e, RewardOf);
    FilterMapOne(e, AttemptOf);
    FilterMapOne(e, DetectionOf);
    FilterMapOne(e, FixOf);
    FilterMapOne(e, FailureOf);
  }

  /** The table projections of a trace whose only write is `w`. */
  lemma WritesOne(t: Trace, w: Write)
    requires Writes(t) == [w]
    ensures Snaps(t) == AsSeq(SnapOfWrite(w)) && StoredRewards(t) == AsSeq(RewardOfWrite(w))
    ensures Attempts(t) == AsSeq(AttemptOfWrite(w)) && Detections(t) == AsSeq(DetectionOfWrite(w))
    ensures FixedEvents(t) == AsSeq(FixOfWrite(w)) && FailedEvents(t) == AsSeq(FailureOfWrite(w))
  {
    ThroughWrites(t);
    FilterMapOne(w, SnapOfWrite);
    FilterMapOne(w, RewardOfWrite);
    FilterMapOne(w, AttemptOfWrite);
    FilterMapOne(w, DetectionOfWrite);
    FilterMapOne(w, FixOfWrite);
    FilterMapOne(w, FailureOfWrite);
  }

  /** The table projections of a trace whose writes are `w1` then `w2`. */
  lemma WritesTwo(t: Trace, w1: Write, w2: Write)
    requires Writes(t) == [w1, w2]
    ensures Snaps(t) == AsSeq(SnapOfWrite(w1)) + AsSeq(SnapOfWrite(w2))
    ensures StoredRewards(t) == AsSeq(RewardOfWrite(w1)) + AsSeq(RewardOfWrite(w2))
    ensures Attempts(t) == AsSeq(AttemptOfWrite(w1)) + AsSeq(AttemptOfWrite(w2))
    ensures Detections(t) == AsSeq(DetectionOfWrite(w1)) + AsSeq(DetectionOfWrite(w2))
    ensures FixedEvents(t) == AsSeq(FixOfWrite(w1)) + AsSeq(FixOfWrite(w2))
    ensures FailedEvents(t) == AsSeq(FailureOfWrite(w1)) + AsSeq(FailureOfWrite(w2))
  {
    ThroughWrites(t);
    assert [w1, w2] == [w1] + [w2];
    FilterMapAppend([w1], [w2], SnapOfWrite);
    FilterMapAppend([w1], [w2], RewardOfWrite);
    FilterMapAppend([w1], [w2], AttemptOfWrite);
    FilterMapAppend([w1], [w2], DetectionOfWrite);
    FilterMapAppend([w1], [w2], FixOfWrite);
    FilterMapAppend([w1], [w2], FailureOfWrite);
    FilterMapOne(w1, SnapOfWrite);
    FilterMapOne(w1, RewardOfWrite);
    FilterMapOne(w1, AttemptOfWrite);
    FilterMapOne(w1, DetectionOfWrite);
    FilterMapOne(w2, SnapOfWrite);
    FilterMapOne(w2, RewardOfWrite);
    FilterMapOne(w2, AttemptOfWrite);
    FilterMapOne(w2, DetectionOfWrite);
    FilterMapOne(w1, FixOfWrite);
    FilterMapOne(w1, FailureOfWrite);
    FilterMapOne(w2, FixOfWrite);
    FilterMapOne(w2, FailureOfWrite);
  }

  /** The table projections depend on a trace's writes alone. */
  lemma {:induction false} ThroughWrites(t: Trace)
    ensures Snaps(t) == FilterMap(Writes(t), SnapOfWrite)
    ensures StoredRewards(t) == FilterMap(Writes(t), RewardOfWrite)
    ensures Attempts(t) == FilterMap(Writes(t), AttemptOfWrite)
    ensures Detections(t) == FilterMap(Writes(t), DetectionOfWrite)
    ensures FixedEvents(t) == FilterMap(Writes(t), FixOfWrite)
    ensures FailedEvents(t) == FilterMap(Writes(t), FailureOfWrite)
    decreases |t|
  {
    if |t| > 0 {
      var n := |t| - 1;
      ThroughWrites(t[..n]);
      var ws := AsSeq(WriteOf(t[n]));
      assert Writes(t) == Writes(t[..n]) + ws;
      FilterMapAppend(Writes(t[..n]), ws, SnapOfWrite);
      FilterMapAppend(Writes(t[..n]), ws, RewardOfWrite);
      FilterMapAppend(Writes(t[..n]), ws, AttemptOfWrite);
      FilterMapAppend(Writes(t[..n]), ws, DetectionOfWrite);
      FilterMapAppend(Writes(t[..n]), ws, FixOfWrite);
      FilterMapAppend(Writes(t[..n]), ws, FailureOfWrite);
      assert ws == [] || ws[..0] == [];
    }
  }

  /** A trace that writes nothing leaves nothing in any table. */
  lemma WritesEmpty(t: Trace)
    requires Writes(t) == []
    ensures Snaps(t) == [] && StoredRewards(t) == [] && Attempts(t) == [] && Detections(t) == []
    ensures FixedEvents(t) == [] && FailedEvents(t) == []
  {
    ThroughWrites(t);
  }

  /** The store's reward table is the same projection of the writes. */
  lemma {:induction false} RewardsAreStored(ws: seq<Write>)
    ensures Rewards(ws) == FilterMap(ws, RewardOfWrite)
    decreases |ws|
  {
    if |ws| > 0 {
      RewardsAreStored(ws[..|ws| - 1]);
    }
  }

  lemma WriteTables(w: Write)
    ensures Rewards([w]) == (if w.InsertReward? then [w.signal] else [])
  {
    assert [w][..0] == [];
  }

  /** A snapshot leaves the rewards, hence the feedback, alone. */
  lemma FeedbackIgnoresSnapshots(db: Db, incident: IncidentRecord, st: Status, id: string)
    ensures Feedback(db + Writes([Snapshot(incident, st)]), id) == Feedback(db, id)
  {
    var w := UpsertIncident(incident.(status := st));
    One(Snapshot(incident, st));
    assert Writes([Snapshot(incident, st)]) == [w];
    AppendOnly(db, [w]);
    WriteTables(w);
    assert Rewards(db + [w]) == Rewards(db);
  }

  // ----- the collaborators -----

  /** The collaborators the jobs call. `Backend` plugs in this model's own
      `simulateUpgrade`, `planRepair`, `dispatchCline`, `validatePatch` and
      `openPullRequest`; the jobs are defined over any collaborators that keep
      the contracts of `Honest`, so what is proved of them rests on those
      contracts alone. */
  datatype Services = Services(
    simulate: (Matchers, string, DependencyUpdate, ExecOutcome, string, string) -> Option<IncidentRecord>,
    plan: (Db, IncidentRecord, int, Reply) -> (Result<RepairPlan, ReasonError>, Trace),
    dispatch: (RepairPlan, string, nat -> PatchOracle) -> (Result<seq<PatchOutcome>, DispatchError>, seq<Step>),
    validate: (Matchers, string, IncidentRecord, int, ExecOutcome) -> (ValidationResult, Trace),
    openPr: (string, string, IncidentRecord, RepairPlan, ValidationResult, PrOracle) -> (Result<(), PrError>, seq<PrStep>))

  /** A simulation yields a DETECTED incident under the fresh id exactly when
      the sandbox run crashed. */
  predicate SimulateContract(r: Option<IncidentRecord>, exec: ExecOutcome, id: string) {
    && (r.None? <==> exec.Exited?)
    && (r.Some? ==> r.value.status == Detected && r.value.id == id)
  }

  /** Planning asks the reasoner once, with the stored feedback, answers with
      what its reply parses to, and stores the plan if there is one. */
  predicate PlanContract(r: (Result<RepairPlan, ReasonError>, Trace), db: Db, incident: IncidentRecord, attempt: int,
                         reply: Reply) {
    && r.0 == ReasonAboutIncident(incident, reply)
    && Asks(r.1) == [(attempt, Feedback(db, incident.id))]
    && PrCalls(r.1) == []
    && Writes(r.1) == (if r.0.Ok? then [InsertPlan(r.0.value)] else [])
    && Milestones(r.1) == [Asked] + (if r.0.Ok? then [PlanStored] else [])
  }

  /** Validation starts with the sandbox run of the incident's upgrade; it
      passes exactly when that run exits cleanly, and stores the verdict and
      then its reward under the attempt. */
  predicate ValidateContract(r: (ValidationResult, Trace), command: string, incident: IncidentRecord, attempt: int,
                             exec: ExecOutcome) {
    && (r.0.success <==> exec.Exited?)
    && |r.1| >= 1 && r.1[0] == SandboxRun(ShellCommand(incident.dependency, command))
    && Asks(r.1) == [] && PrCalls(r.1) == []
    && Writes(r.1) == [InsertValidation(r.0), InsertReward(RewardSignal(incident.id, attempt, RewardFor(r.0.success)))]
    && Milestones(r.1) == [Ran, VerdictStored, RewardStored]
  }

  ghost predicate Honest(s: Services) {
    && (forall m: Matchers, cmd: string, u: DependencyUpdate, exec: ExecOutcome, id: string, now: string ::
          SimulateContract(s.simulate(m, cmd, u, exec, id, now), exec, id))
    && (forall db: Db, incident: IncidentRecord, attempt: int, reply: Reply ::
          PlanContract(s.plan(db, incident, attempt, reply), db, incident, attempt, reply))
    && (forall m: Matchers, cmd: string, incident: IncidentRecord, attempt: int, exec: ExecOutcome ::
          ValidateContract(s.validate(m, cmd, incident, attempt, exec), cmd, incident, attempt, exec))
  }

  const Backend: Services :=
    Services(Detection.SimulateUpgrade, PlanRepair, DispatchCline, ValidatePatch, OpenPullRequest)

  /** This model's collaborators keep the contracts. */
  lemma BackendHonest()
    ensures Honest(Backend)
  {
    forall db: Db, incident: IncidentRecord, attempt: int, reply: Reply
      ensures PlanContract(PlanRepair(db, incident, attempt, reply), db, incident, attempt, reply)
    {
      PlanRepairMilestones(db, incident, attempt, reply);
    }
    forall m: Matchers, cmd: string, incident: IncidentRecord, attempt: int, exec: ExecOutcome
      ensures ValidateContract(ValidatePatch(m, cmd, incident, attempt, exec), cmd, incident, attempt, exec)
    {
      ValidatePatchMilestones(m, cmd, incident, attempt, exec);
    }
  }

  /** `planRepair` asks, then stores the plan it got. */
  lemma PlanRepairMilestones(db: Db, incident: IncidentRecord, attempt: int, reply: Reply)
    ensures var r := PlanRepair(db, incident, attempt, reply);
            Milestones(r.1) == [Asked] + (if r.0.Ok? then [PlanStored] else [])
  {
    var ask := AskReasoner(incident, attempt, Feedback(db, incident.id));
    FilterMapOne(ask, MilestoneOf);
    match ReasonAboutIncident(incident, reply)
    case Ok(plan) =>
      FilterMapOne(Db(InsertPlan(plan)), MilestoneOf);
      SplitMilestones([ask], [Db(InsertPlan(plan))]);
    case Err(_) =>
  }

  /** `validatePatch` runs the sandbox, then stores the verdict and the
      reward. */
  lemma ValidatePatchMilestones(m: Matchers, command: string, incident: IncidentRecord, attempt: int,
                                exec: ExecOutcome)
    ensures Milestones(ValidatePatch(m, command, incident, attempt, exec).1) == [Ran, VerdictStored, RewardStored]
  {
    var s := RunSandbox(m, incident.dependency, command, exec);
    var v := ValidationResult(incident.id, !s.crashed, s.stdout, s.stderr, s.exitCode,
                              if s.crashed then s.stacktrace else None);
    var signal := RewardSignal(incident.id, attempt, RewardFor(v.success));
    assert ValidatePatch(m, command, incident, attempt, exec).1
        == [SandboxRun(s.command), Db(InsertValidation(v))] + RecordReward(signal);
    VerdictMilestones(s.command, v, signal);
  }

  /** The sandbox run, the stored verdict and the recorded reward, in order. */
  lemma VerdictMilestones(command: string, v: ValidationResult, signal: RewardSignal)
    ensures Milestones([SandboxRun(command), Db(InsertValidation(v))] + RecordReward(signal))
         == [Ran, VerdictStored, RewardStored]
  {
    FilterMapOne(SandboxRun(command), MilestoneOf);
    FilterMapOne(Db(InsertValidation(v)), MilestoneOf);
    FilterMapOne(Db(InsertReward(signal)), MilestoneOf);
    SplitMilestones([SandboxRun(command)], [Db(InsertValidation(v))]);
    SplitMilestones([SandboxRun(command), Db(InsertValidation(v))], RecordReward(signal));
    assert [SandboxRun(command)] + [Db(InsertValidation(v))] == [SandboxRun(command), Db(InsertValidation(v))];
  }

  // ----- one attempt, stage by stage -----

  /** What a stretch of a run leaves: the incident snapshots, the requests to
      the reasoner, the `attempt` events, the pull request calls and the
      stored rewards it makes, in order; a `fixed` event with the plan and
      validation of each pull request; no `incident_detected` or `failed`
      event; and, across all of these, the milestones `ms` in order. */
  predicate Leaves(t: Trace, snaps: seq<IncidentRecord>, asks: seq<(int, Option<int>)>, attempts: seq<AttemptRecord>,
                   prs: seq<(RepairPlan, ValidationResult)>, rewards: seq<RewardSignal>, ms: seq<Milestone>) {
    && Snaps(t) == snaps && Asks(t) == asks && Attempts(t) == attempts
    && PrCalls(t) == prs && StoredRewards(t) == rewards && Detections(t) == []
    && FixedEvents(t) == prs && FailedEvents(t) == []
    && Milestones(t) == ms
  }

  /** Two stretches one after the other leave what each leaves, in order. */
  lemma Sequenced(a: Trace, b: Trace, snaps: seq<IncidentRecord>, asks: seq<(int, Option<int>)>,
                  attempts: seq<AttemptRecord>, prs: seq<(RepairPlan, ValidationResult)>, rewards: seq<RewardSignal>,
                  ms: seq<Milestone>, snaps': seq<IncidentRecord>, asks': seq<(int, Option<int>)>,
                  attempts': seq<AttemptRecord>, prs': seq<(RepairPlan, ValidationResult)>,
                  rewards': seq<RewardSignal>, ms': seq<Milestone>)
    requires Leaves(a, snaps, asks, attempts, prs, rewards, ms)
    requires Leaves(b, snaps', asks', attempts', prs', rewards', ms')
    ensures Leaves(a + b, snaps + snaps', asks + asks', attempts + attempts', prs + prs', rewards + rewards', ms + ms')
  {
    Split(a, b);
  }

  /** The table projections of a planning trace. */
  lemma PlanTables(t: Trace, r: Result<RepairPlan, ReasonError>)
    requires Writes(t) == (if r.Ok? then [InsertPlan(r.value)] else [])
    ensures Snaps(t) == [] && StoredRewards(t) == [] && Attempts(t) == [] && Detections(t) == []
    ensures FixedEvents(t) == [] && FailedEvents(t) == []
  {
    if r.Ok? {
      WritesOne(t, InsertPlan(r.value));
    } else {
      WritesEmpty(t);
    }
  }

  /** The ANALYZING snapshot, then planning against the database as the
      snapshot left it. */
  method Analyze(s: Services, db: Db, incident: IncidentRecord, attempt: int, reply: Reply)
    returns (plan: Result<RepairPlan, ReasonError>, t: Trace)
    requires Honest(s)
    ensures plan == ReasonAboutIncident(incident, reply)
    ensures |t| >= 1 && t[0] == Snapshot(incident, Analyzing)
    ensures Leaves(t, [incident.(status := Analyzing)], [(attempt, Feedback(db, incident.id))], [], [], [],
                   Planned(plan.Ok?))
  {
    var e := Snapshot(incident, Analyzing);
    var planned := s.plan(db + Writes([e]), incident, attempt, reply);
    AnalyzeTrace(db, incident, attempt, reply, planned);
    plan, t := planned.0, [e] + planned.1;
  }

  lemma AnalyzeTrace(db: Db, incident: IncidentRecord, attempt: int, reply: Reply,
                     planned: (Result<RepairPlan, ReasonError>, Trace))
    requires PlanContract(planned, db + Writes([Snapshot(incident, Analyzing)]), incident, attempt, reply)
    ensures Leaves([Snapshot(incident, Analyzing)] + planned.1, [incident.(status := Analyzing)],
                   [(attempt, Feedback(db, incident.id))], [], [], [], Planned(planned.0.Ok?))
  {
    FeedbackIgnoresSnapshots(db, incident, Analyzing, incident.id);
    PlanTables(planned.1, planned.0);
    SnapshotThen(incident, Analyzing, planned.1, [(attempt, Feedback(db, incident.id))], [], [], [],
                 [Asked] + (if planned.0.Ok? then [PlanStored] else []));
    PlannedAfterSnapshot(planned.0.Ok?);
  }

  lemma PlannedAfterSnapshot(ok: bool)
    ensures [StatusSet(Analyzing)] + ([Asked] + (if ok then [PlanStored] else [])) == Planned(ok)
  {
  }

  /** A snapshot in front of a stretch that stores none adds just that
      snapshot, as its first milestone. */
  lemma SnapshotThen(incident: IncidentRecord, st: Status, t: Trace, asks: seq<(int, Option<int>)>,
                     attempts: seq<AttemptRecord>, prs: seq<(RepairPlan, ValidationResult)>, rewards: seq<RewardSignal>,
                     ms: seq<Milestone>)
    requires Leaves(t, [], asks, attempts, prs, rewards, ms)
    ensures Leaves([Snapshot(incident, st)] + t, [incident.(status := st)], asks, attempts, prs, rewards,
                   [StatusSet(st)] + ms)
  {
    One(Snapshot(incident, st));
    Split([Snapshot(incident, st)], t);
  }

  /** Patch and pull request steps leave nothing any projection sees. */
  lemma StepsLeaveNothing(steps: Trace)
    requires forall i :: 0 <= i < |steps| ==> steps[i].Patch? || steps[i].Pr?
    ensures Writes(steps) == [] && Leaves(steps, [], [], [], [], [], [])
  {
    StepsCallNothing(steps);
    FilterMapNone(steps, WriteOf);
    WritesEmpty(steps);
  }

  /** Patch and pull request steps ask nothing, open no pull request and
      pass no milestone. */
  lemma StepsCallNothing(steps: Trace)
    requires forall i :: 0 <= i < |steps| ==> steps[i].Patch? || steps[i].Pr?
    ensures Asks(steps) == [] && PrCalls(steps) == [] && Milestones(steps) == []
  {
    FilterMapNone(steps, AskOf);
    FilterMapNone(steps, PrCallOf);
    FilterMapNone(steps, MilestoneOf);
  }

  /** The PATCHING snapshot, then the dispatch of the plan and nothing but
      its patch steps. */
  method Repair(s: Services, root: string, patches: nat -> PatchOracle, incident: IncidentRecord, plan: RepairPlan)
    returns (dispatched: Result<seq<PatchOutcome>, DispatchError>, t: Trace)
    ensures dispatched == s.dispatch(plan, root, patches).0
    ensures |t| >= 2 && t[0] == Snapshot(incident, Patching) && t[1] == DispatchCall(plan)
    ensures forall i :: 2 <= i < |t| ==> t[i].Patch?
    ensures Leaves(t, [incident.(status := Patching)], [], [], [], [], Patched)
  {
    var r := s.dispatch(plan, root, patches);
    RepairTrace(incident, plan, PatchEffects(r.1));
    dispatched, t := r.0, [Snapshot(incident, Patching)] + ([DispatchCall(plan)] + PatchEffects(r.1));
  }

  lemma RepairTrace(incident: IncidentRecord, plan: RepairPlan, steps: Trace)
    requires forall i :: 0 <= i < |steps| ==> steps[i].Patch?
    ensures Leaves([Snapshot(incident, Patching)] + ([DispatchCall(plan)] + steps), [incident.(status := Patching)],
                   [], [], [], [], Patched)
  {
    StepsLeaveNothing(steps);
    DispatchThen(plan, steps);
    SnapshotThen(incident, Patching, [DispatchCall(plan)] + steps, [], [], [], [], [Dispatched]);
    assert [StatusSet(Patching)] + [Dispatched] == Patched;
  }

  /** The call of the dispatch in front of its steps. */
  lemma DispatchThen(plan: RepairPlan, steps: Trace)
    requires Leaves(steps, [], [], [], [], [], [])
    ensures Leaves([DispatchCall(plan)] + steps, [], [], [], [], [], [Dispatched])
  {
    One(DispatchCall(plan));
    Split([DispatchCall(plan)], steps);
  }

  /** The VALIDATING snapshot, the validation, which starts with the sandbox
      run of the incident's upgrade, then the `attempt` event and its
      dashboard notice. */
  method Validate(s: Services, projectCommand: string, m: Matchers, exec: ExecOutcome, incident: IncidentRecord,
                  attempt: int, plan: RepairPlan) returns (v: ValidationResult, t: Trace)
    requires Honest(s)
    ensures v == s.validate(m, projectCommand, incident, attempt, exec).0
    ensures v.success <==> exec.Exited?
    ensures |t| >= 2 && t[0] == Snapshot(incident, Validating)
            && t[1] == SandboxRun(ShellCommand(incident.dependency, projectCommand))
    ensures t[|t| - 1] == Dashboard(AttemptNotice(incident.id, plan, v))
    ensures Leaves(t, [incident.(status := Validating)], [], [(attempt, plan, v)], [],
                   [RewardSignal(incident.id, attempt, RewardFor(v.success))], Validated)
  {
    var checked := s.validate(m, projectCommand, incident, attempt, exec);
    v := checked.0;
    ValidateTrace(projectCommand, incident, attempt, plan, exec, checked);
    t := ValidationEffects(incident, attempt, plan, checked);
  }

  /** The effects of the VALIDATING stage around a validation's own trace. */
  function ValidationEffects(incident: IncidentRecord, attempt: int, plan: RepairPlan,
                             checked: (ValidationResult, Trace)): Trace {
    [Snapshot(incident, Validating)] + checked.1
    + [Db(InsertEvent(Event("attempt", Some(incident.id), AttemptPayload(attempt, plan, checked.0))))]
    + [Dashboard(AttemptNotice(incident.id, plan, checked.0))]
  }

  lemma ValidateTrace(projectCommand: string, incident: IncidentRecord, attempt: int, plan: RepairPlan,
                      exec: ExecOutcome, checked: (ValidationResult, Trace))
    requires ValidateContract(checked, projectCommand, incident, attempt, exec)
    ensures var t := ValidationEffects(incident, attempt, plan, checked);
            && |t| >= 2 && t[0] == Snapshot(incident, Validating)
            && t[1] == SandboxRun(ShellCommand(incident.dependency, projectCommand))
            && t[|t| - 1] == Dashboard(AttemptNotice(incident.id, plan, checked.0))
    ensures Leaves(ValidationEffects(incident, attempt, plan, checked), [incident.(status := Validating)], [],
                   [(attempt, plan, checked.0)], [], [RewardSignal(incident.id, attempt, RewardFor(checked.0.success))],
                   Validated)
  {
    var v := checked.0;
    var reward := RewardSignal(incident.id, attempt, RewardFor(v.success));
    var t1 := [Snapshot(incident, Validating)] + checked.1;
    var e2 := Db(InsertEvent(Event("attempt", Some(incident.id), AttemptPayload(attempt, plan, v))));
    var ms := [StatusSet(Validating), Ran, VerdictStored, RewardStored];
    ValidationStored(incident, checked.1, v, reward);
    AttemptEventAfter(t1, e2, [incident.(status := Validating)], [reward], ms);
    NoticeAfter(t1 + [e2], Dashboard(AttemptNotice(incident.id, plan, v)), [incident.(status := Validating)], [],
                [(attempt, plan, v)], [], [reward], ms + [Logged("attempt")]);
    assert ms + [Logged("attempt")] + [Notified] == Validated;
  }

  /** The VALIDATING snapshot, then a validation that stored its verdict and
      its reward. */
  lemma ValidationStored(incident: IncidentRecord, t: Trace, v: ValidationResult, reward: RewardSignal)
    requires Asks(t) == [] && PrCalls(t) == [] && Writes(t) == [InsertValidation(v), InsertReward(reward)]
    requires Milestones(t) == [Ran, VerdictStored, RewardStored]
    ensures Leaves([Snapshot(incident, Validating)] + t, [incident.(status := Validating)], [], [], [], [reward],
                   [StatusSet(Validating), Ran, VerdictStored, RewardStored])
  {
    VerdictTables(t, v, reward);
    SnapshotThen(incident, Validating, t, [], [], [], [reward], [Ran, VerdictStored, RewardStored]);
  }

  /** A validation's writes leave its reward and nothing else the job
      promises about. */
  lemma VerdictTables(t: Trace, v: ValidationResult, reward: RewardSignal)
    requires Writes(t) == [InsertValidation(v), InsertReward(reward)]
    ensures Snaps(t) == [] && StoredRewards(t) == [reward] && Attempts(t) == [] && Detections(t) == []
    ensures FixedEvents(t) == [] && FailedEvents(t) == []
  {
    WritesTwo(t, InsertValidation(v), InsertReward(reward));
  }

  lemma AttemptEventAfter(t: Trace, e: Effect, snaps: seq<IncidentRecord>, rewards: seq<RewardSignal>,
                          ms: seq<Milestone>)
    requires e.Db? && e.write.InsertEvent? && e.write.event.kind == "attempt" && e.write.event.payload.AttemptPayload?
    requires Leaves(t, snaps, [], [], [], rewards, ms)
    ensures var p := e.write.event.payload;
            Leaves(t + [e], snaps, [], [(p.attempt, p.plan, p.validation)], [], rewards, ms + [Logged("attempt")])
  {
    One(e);
    Split(t, [e]);
  }

  /** A dashboard notice leaves nothing but its milestone. */
  lemma NoticeAfter(t: Trace, e: Effect, snaps: seq<IncidentRecord>, asks: seq<(int, Option<int>)>,
                    attempts: seq<AttemptRecord>, prs: seq<(RepairPlan, ValidationResult)>, rewards: seq<RewardSignal>,
                    ms: seq<Milestone>)
    requires e.Dashboard?
    requires Leaves(t, snaps, asks, attempts, prs, rewards, ms)
    ensures Leaves(t + [e], snaps, asks, attempts, prs, rewards, ms + [Notified])
  {
    One(e);
    Split(t, [e]);
  }

  /** The FIXED snapshot and `fixed` event, the pull request, then the
      dashboard notice, which a thrown pull request failure skips. */
  method Close(s: Services, githubToken: string, repoFullName: string, pr: PrOracle, incident: IncidentRecord,
               plan: RepairPlan, v: ValidationResult) returns (outcome: Result<(), PrError>, t: Trace)
    ensures outcome == s.openPr(githubToken, repoFullName, incident, plan, v, pr).0
    ensures |t| >= 3 && t[0] == Snapshot(incident, Fixed)
            && t[1] == Db(InsertEvent(Event("fixed", Some(incident.id), FixedPayload(plan, v))))
            && t[2] == PrCall(incident.id, plan, v)
    ensures outcome.Ok? ==> t[|t| - 1] == Dashboard(FixedNotice(incident.id))
    ensures Leaves(t, [incident.(status := Fixed)], [], [], [(plan, v)], [], Closed(outcome.Err?))
  {
    var r := s.openPr(githubToken, repoFullName, incident, plan, v, pr);
    CloseTrace(incident, plan, v, PrEffects(r.1), r.0.Err?);
    outcome, t := r.0, ClosingEffects(incident, plan, v, PrEffects(r.1), r.0.Err?);
  }

  /** The effects of the closing stage around the pull request's own steps. */
  function ClosingEffects(incident: IncidentRecord, plan: RepairPlan, v: ValidationResult, steps: Trace,
                          failed: bool): Trace {
    ClosingHead(incident, plan, v) + steps + (if failed then [] else [Dashboard(FixedNotice(incident.id))])
  }

  lemma CloseTrace(incident: IncidentRecord, plan: RepairPlan, v: ValidationResult, steps: Trace, failed: bool)
    requires forall i :: 0 <= i < |steps| ==> steps[i].Pr?
    ensures var t := ClosingEffects(incident, plan, v, steps, failed);
            && |t| >= 3 && t[0] == Snapshot(incident, Fixed)
            && t[1] == Db(InsertEvent(Event("fixed", Some(incident.id), FixedPayload(plan, v))))
            && t[2] == PrCall(incident.id, plan, v)
            && (!failed ==> t[|t| - 1] == Dashboard(FixedNotice(incident.id)))
    ensures Leaves(ClosingEffects(incident, plan, v, steps, failed), [incident.(status := Fixed)], [], [], [(plan, v)],
                   [], Closed(failed))
  {
    var head := ClosingHead(incident, plan, v);
    var started := [StatusSet(Fixed), Logged("fixed"), PullRequested];
    StepsLeaveNothing(steps);
    Sequenced(head, steps, [incident.(status := Fixed)], [], [], [(plan, v)], [], started, [], [], [], [], [], []);
    if failed {
      assert ClosingEffects(incident, plan, v, steps, failed) == head + steps;
    } else {
      NoticeAfter(head + steps, Dashboard(FixedNotice(incident.id)), [incident.(status := Fixed)], [], [], [(plan, v)],
                  [], started);
    }
  }

  /** The FIXED snapshot, the `fixed` event and the call of the pull request. */
  function ClosingHead(incident: IncidentRecord, plan: RepairPlan, v: ValidationResult): (t: Trace)
    ensures Leaves(t, [incident.(status := Fixed)], [], [], [(plan, v)], [],
                   [StatusSet(Fixed), Logged("fixed"), PullRequested])
  {
    var e1 := Snapshot(incident, Fixed);
    var e2 := Db(InsertEvent(Event("fixed", Some(incident.id), FixedPayload(plan, v))));
    var e3 := PrCall(incident.id, plan, v);
    One(e1);
    One(e2);
    One(e3);
    Split([e1], [e2]);
    Split([e1] + [e2], [e3]);
    [e1] + [e2] + [e3]
  }

  /** Planning then patching. */
  lemma AnalyzedThenPatched(t1: Trace, t2: Trace, incident: IncidentRecord, attempt: int, fb: Option<int>)
    requires Leaves(t1, [incident.(status := Analyzing)], [(attempt, fb)], [], [], [], Planned(true))
    requires Leaves(t2, [incident.(status := Patching)], [], [], [], [], Patched)
    ensures Leaves(t1 + t2, [incident.(status := Analyzing), incident.(status := Patching)], [(attempt, fb)], [], [], [],
                   Planned(true) + Patched)
  {
    Sequenced(t1, t2, [incident.(status := Analyzing)], [(attempt, fb)], [], [], [], Planned(true),
              [incident.(status := Patching)], [], [], [], [], Patched);
  }

  /** Planning and patching, then validation. */
  lemma ThenValidated(t12: Trace, t3: Trace, incident: IncidentRecord, attempt: int, fb: Option<int>, plan: RepairPlan,
                      v: ValidationResult)
    requires Leaves(t12, [incident.(status := Analyzing), incident.(status := Patching)], [(attempt, fb)], [], [], [],
                    Planned(true) + Patched)
    requires Leaves(t3, [incident.(status := Validating)], [], [(attempt, plan, v)], [],
                    [RewardSignal(incident.id, attempt, RewardFor(v.success))], Validated)
    ensures Leaves(t12 + t3, Cycle(incident), [(attempt, fb)], [(attempt, plan, v)], [],
                   [RewardSignal(incident.id, attempt, RewardFor(v.success))], Round)
  {
    Sequenced(t12, t3, [incident.(status := Analyzing), incident.(status := Patching)], [(attempt, fb)], [], [], [],
              Planned(true) + Patched, [incident.(status := Validating)], [], [(attempt, plan, v)], [],
              [RewardSignal(incident.id, attempt, RewardFor(v.success))], Validated);
  }

  /** A validated attempt, then the closing stage. */
  lemma ThenClosed(t: Trace, t4: Trace, incident: IncidentRecord, attempt: int, fb: Option<int>, plan: RepairPlan,
                   v: ValidationResult, reward: RewardSignal, failed: bool)
    requires Leaves(t, Cycle(incident), [(attempt, fb)], [(attempt, plan, v)], [], [reward], Round)
    requires Leaves(t4, [incident.(status := Fixed)], [], [], [(plan, v)], [], Closed(failed))
    ensures Leaves(t + t4, Cycle(incident) + [incident.(status := Fixed)], [(attempt, fb)], [(attempt, plan, v)],
                   [(plan, v)], [reward], Round + Closed(failed))
  {
    Sequenced(t, t4, Cycle(incident), [(attempt, fb)], [(attempt, plan, v)], [], [reward], Round,
              [incident.(status := Fixed)], [], [], [(plan, v)], [], Closed(failed));
  }

  /** What one attempt leaves in its trace, given whether its sandbox run
      exits cleanly and the feedback the reasoner is given: the milestones
      say in which order. */
  predicate Attempted(incident: IncidentRecord, attempt: int, passes: bool, fb: Option<int>, pass: Pass, t: Trace) {
    && Asks(t) == [(attempt, fb)]
    && Detections(t) == []
    && FixedEvents(t) == PrCalls(t) && FailedEvents(t) == []
    && (pass.Stop? ==> pass.end.Passed? || pass.end.Aborted?)
    && (pass.Stop? && pass.end.Aborted? && pass.end.error.PlanningFailed? ==>
          Snaps(t) == [incident.(status := Analyzing)] && Attempts(t) == [] && PrCalls(t) == []
          && StoredRewards(t) == [])
    && (pass.Stop? && pass.end.Aborted? && pass.end.error.DispatchFailed? ==>
          Snaps(t) == [incident.(status := Analyzing), incident.(status := Patching)]
          && Attempts(t) == [] && PrCalls(t) == [] && StoredRewards(t) == [])
    && (pass.Retry? || (pass.Stop? && ReachedFixed(pass.end)) ==>
          && |Attempts(t)| == 1 && Attempts(t)[0].0 == attempt
          && (Attempts(t)[0].2.success <==> passes)
          && (pass.Retry? <==> !Attempts(t)[0].2.success))
    && (pass.Retry? ==>
          && Snaps(t) == Cycle(incident) && PrCalls(t) == []
          && StoredRewards(t) == [RewardSignal(incident.id, attempt, 0)]
          && Milestones(t) == Round)
    && (pass.Stop? && ReachedFixed(pass.end) ==>
          && Snaps(t) == Cycle(incident) + [incident.(status := Fixed)]
          && PrCalls(t) == [(Attempts(t)[0].1, Attempts(t)[0].2)]
          && StoredRewards(t) == [RewardSignal(incident.id, attempt, 1)])
    && (pass.Stop? ==> Milestones(t) == (if ReachedFixed(pass.end) then Round else []) + Ending(pass.end))
  }

  /** How one attempt ends, as the answers dictate: the reasoner's reply that
      does not parse to a plan stops it with that error; so does a dispatch of
      the plan that fails; otherwise the attempt is recorded with that plan,
      goes round again when the sandbox run crashed, and else ends with the
      pull request's outcome for the plan and the recorded validation. */
  predicate AttemptFollows(s: Services, cfg: Config, incident: IncidentRecord, it: Iteration, pass: Pass,
                           a: seq<AttemptRecord>) {
    match ReasonAboutIncident(incident, it.reply)
    case Err(e) => pass == Stop(Aborted(PlanningFailed(e)))
    case Ok(plan) =>
      match s.dispatch(plan, cfg.workspaceRoot, it.patches).0
      case Err(e) => pass == Stop(Aborted(DispatchFailed(e)))
      case Ok(_) =>
        && |a| == 1 && a[0].1 == plan
        && if !it.exec.Exited? then pass == Retry
           else match s.openPr(cfg.githubToken, cfg.repoFullName, incident, plan, a[0].2, it.pr).0
                case Ok(_) => pass == Stop(Passed)
                case Err(e) => pass == Stop(Aborted(PrFailed(e)))
  }

  /** One pass of the loop in `handleIncidentJob`: a thrown planning or
      dispatch failure stops it after the stage's snapshot, a failed
      validation sends it round again, and a passing one closes the incident. */
  method RunAttempt(s: Services, cfg: Config, m: Matchers, it: Iteration, db: Db, incident: IncidentRecord,
                    attempt: int) returns (pass: Pass, t: Trace)
    requires Honest(s)
    ensures Attempted(incident, attempt, it.exec.Exited?, Feedback(db, incident.id), pass, t)
    ensures AttemptFollows(s, cfg, incident, it, pass, Attempts(t))
  {
    var fb := Feedback(db, incident.id);
    var plan, t1 := Analyze(s, db, incident, attempt, it.reply);
    if plan.Err? {
      return Stop(Aborted(PlanningFailed(plan.error))), t1;
    }
    var dispatched, t2 := Repair(s, cfg.workspaceRoot, it.patches, incident, plan.value);
    AnalyzedThenPatched(t1, t2, incident, attempt, fb);
    if dispatched.Err? {
      return Stop(Aborted(DispatchFailed(dispatched.error))), t1 + t2;
    }
    var v, t3 := Validate(s, cfg.projectCommand, m, it.exec, incident, attempt, plan.value);
    ThenValidated(t1 + t2, t3, incident, attempt, fb, plan.value, v);
    t := t1 + t2 + t3;
    if !v.success {
      return Retry, t;
    }
    var prResult, t4 := Close(s, cfg.githubToken, cfg.repoFullName, it.pr, incident, plan.value, v);
    ThenClosed(t, t4, incident, attempt, fb, plan.value, v, RewardSignal(incident.id, attempt, RewardFor(v.success)),
               prResult.Err?);
    t := t + t4;
    pass := if prResult.Err? then Stop(Aborted(PrFailed(prResult.error))) else Stop(Passed);
  }

  // ----- the incident job -----

  /** How many attempts are left from `attempt` on. */
  function Budget(cfg: Config, attempt: int): nat {
    if attempt > cfg.maxAttempts then 0 else cfg.maxAttempts - attempt + 1
  }

  /** The FAILED snapshot and `failed` event of a job out of attempts. */
  function GiveUp(incident: IncidentRecord): (t: Trace)
    ensures Snaps(t) == [incident.(status := Failed)]
    ensures FailedEvents(t) == [Some(incident.id)] && FixedEvents(t) == []
    ensures Asks(t) == [] && Attempts(t) == [] && Detections(t) == [] && PrCalls(t) == [] && StoredRewards(t) == []
    ensures Milestones(t) == Ending(Exhausted)
  {
    var e1 := Snapshot(incident, Failed);
    var e2 := Db(InsertEvent(Event("failed", Some(incident.id), EmptyPayload)));
    One(e1);
    One(e2);
    Split([e1], [e2]);
    [e1] + [e2]
  }

  /** The statuses a job writes after its attempts' ANALYZING, PATCHING,
      VALIDATING triples: FIXED, FAILED, or the stages of the attempt that
      threw. */
  function Closing(incident: IncidentRecord, end: JobEnd): (r: seq<IncidentRecord>)
    ensures |r| >= 1 && forall i :: 0 <= i < |r| - 1 ==> !r[i].status.IsTerminal()
    ensures r[|r| - 1].status.IsTerminal() <==> ReachedFixed(end) || end == Exhausted
  {
    match end
    case Passed => [incident.(status := Fixed)]
    case Exhausted => [incident.(status := Failed)]
    case Aborted(PlanningFailed(_)) => [incident.(status := Analyzing)]
    case Aborted(DispatchFailed(_)) => [incident.(status := Analyzing), incident.(status := Patching)]
    case Aborted(PrFailed(_)) => [incident.(status := Fixed)]
  }

  lemma {:induction false} RepeatCycleNotTerminal(incident: IncidentRecord, k: nat)
    ensures forall i :: 0 <= i < |Repeat(Cycle(incident), k)| ==> !Repeat(Cycle(incident), k)[i].status.IsTerminal()
  {
    if k > 0 {
      RepeatCycleNotTerminal(incident, k - 1);
    }
  }

  /** Whatever the number of attempts, only the last status written can be
      FIXED or FAILED. */
  lemma TerminalOnlyLast(incident: IncidentRecord, end: JobEnd, k: nat)
    ensures var snaps := Repeat(Cycle(incident), k) + Closing(incident, end);
            && (forall i :: 0 <= i < |snaps| - 1 ==> !snaps[i].status.IsTerminal())
            && (snaps[|snaps| - 1].status.IsTerminal() <==> ReachedFixed(end) || end == Exhausted)
  {
    RepeatCycleNotTerminal(incident, k);
  }

  /** No reward of incident `id` is stored for attempt `attempt` or later. */
  predicate NoLaterReward(db: Db, id: string, attempt: int) {
    forall w :: w in Rewards(db) && w.incidentId == id ==> w.attempt < attempt
  }

  /** A reward with a higher attempt than every stored one of its incident
      becomes the feedback. */
  lemma SignalIsLatest(db: Db, signal: RewardSignal)
    requires NoLaterReward(db, signal.incidentId, signal.attempt)
    ensures Feedback(db + [InsertReward(signal)], signal.incidentId) == Some(signal.reward)
    ensures NoLaterReward(db + [InsertReward(signal)], signal.incidentId, signal.attempt + 1)
  {
    var db' := db + [InsertReward(signal)];
    AppendOnly(db, [InsertReward(signal)]);
    WriteTables(InsertReward(signal));
    assert Rewards(db') == Rewards(db) + [signal];
    LatestRewardSpec(db', signal.incidentId);
    var latest := LatestReward(db', signal.incidentId).value;
    assert latest.attempt >= signal.attempt;
    assert latest !in Rewards(db);
    assert latest in Rewards(db) + [signal];
  }

  /** A failed attempt's trace stores its reward and nothing else in the
      reward table. */
  lemma RetryStoresReward(db: Db, t: Trace, signal: RewardSignal)
    requires StoredRewards(t) == [signal]
    ensures Rewards(db + Writes(t)) == Rewards(db + [InsertReward(signal)])
  {
    AppendOnly(db, Writes(t));
    AppendOnly(db, [InsertReward(signal)]);
    RewardsAreStored(Writes(t));
    ThroughWrites(t);
    WriteTables(InsertReward(signal));
  }

  /** Feedback reads the reward table alone. */
  lemma FeedbackFromRewards(db1: Db, db2: Db, id: string)
    requires Rewards(db1) == Rewards(db2)
    ensures Feedback(db1, id) == Feedback(db2, id)
    ensures forall a :: NoLaterReward(db1, id, a) <==> NoLaterReward(db2, id, a)
  {
  }

  type AttemptRecord = (int, RepairPlan, ValidationResult)

  /** Attempts are numbered consecutively from `first`, stay within the
      budget, and use all of it when the job gives up. */
  predicate Numbered(a: seq<AttemptRecord>, cfg: Config, first: int, end: JobEnd) {
    && |a| <= Budget(cfg, first)
    && (forall i :: 0 <= i < |a| ==> a[i].0 == first + i)
    && (end == Exhausted ==> |a| == Budget(cfg, first))
  }

  /** An attempt passes validation exactly when its sandbox run exits
      cleanly, and only the last one does, when the job reached FIXED. */
  predicate OnlyLastPassed(a: seq<AttemptRecord>, script: int -> Iteration, first: int, end: JobEnd) {
    && (forall i :: 0 <= i < |a| ==> (a[i].2.success <==> script(first + i).exec.Exited?))
    && (forall i :: 0 <= i < |a| ==> (a[i].2.success <==> i == |a| - 1 && ReachedFixed(end)))
    && (ReachedFixed(end) ==> |a| >= 1)
  }

  /** The statuses run ANALYZING, PATCHING, VALIDATING once per validated
      attempt, then the closing ones; only the last can be FIXED or FAILED,
      and it is one of them exactly when the job reached FIXED or gave up. */
  predicate StatusesWritten(snaps: seq<IncidentRecord>, incident: IncidentRecord, validated: nat, end: JobEnd) {
    && snaps == Repeat(Cycle(incident), validated) + Closing(incident, end)
    && (forall i :: 0 <= i < |snaps| - 1 ==> !snaps[i].status.IsTerminal())
    && (snaps[|snaps| - 1].status.IsTerminal() <==> ReachedFixed(end) || end == Exhausted)
  }

  /** One pull request, for the last attempt's plan and validation, when the
      job reached FIXED, and none otherwise. */
  predicate PullRequestOnFix(prs: seq<(RepairPlan, ValidationResult)>, a: seq<AttemptRecord>, end: JobEnd) {
    prs == if ReachedFixed(end) && |a| > 0 then [(a[|a| - 1].1, a[|a| - 1].2)] else []
  }

  /** The reasoner is asked once per attempt, in order; first with the
      feedback stored before the job, then, unless a reward from this attempt
      on was already stored, with the 0 the previous failed attempt stored. */
  predicate FeedbackChain(asks: seq<(int, Option<int>)>, db: Db, id: string, first: int) {
    && (forall i :: 0 <= i < |asks| ==> asks[i].0 == first + i)
    && (|asks| > 0 ==> asks[0].1 == Feedback(db, id))
    && (NoLaterReward(db, id, first) ==> forall i :: 1 <= i < |asks| ==> asks[i].1 == Some(0))
  }

  /** How the job closed: one pull request and one `fixed` event, for the
      last attempt's plan and validation, when it reached FIXED; one `failed`
      event exactly when it ran out of attempts. */
  predicate ClosedAs(t: Trace, incident: IncidentRecord, end: JobEnd) {
    && PullRequestOnFix(PrCalls(t), Attempts(t), end)
    && PullRequestOnFix(FixedEvents(t), Attempts(t), end)
    && FailedEvents(t) == (if end == Exhausted then [Some(incident.id)] else [])
  }

  /** One reward per validated attempt, in the order of the attempts: the
      attempt's number and 1 or 0 as its validation passed. */
  predicate RewardPerAttempt(rewards: seq<RewardSignal>, a: seq<AttemptRecord>, id: string) {
    && |rewards| == |a|
    && forall i :: 0 <= i < |a| ==> rewards[i] == RewardSignal(id, a[i].0, RewardFor(a[i].2.success))
  }

  /** The order of a job's effects, one round of milestones per validated
      attempt and then how it ended, and the reward each validated attempt
      stored. */
  predicate Outlined(t: Trace, incident: IncidentRecord, end: JobEnd) {
    && Milestones(t) == Repeat(Round, |Attempts(t)|) + Ending(end)
    && RewardPerAttempt(StoredRewards(t), Attempts(t), incident.id)
  }

  /** What an incident job promises about the trace it leaves: the attempts,
      the statuses, one pull request and one `fixed` event for the last
      attempt when the job reached FIXED, one `failed` event exactly when it
      ran out of attempts, the feedback given to the reasoner, no new
      incident, and the order of all of these and the rewards stored. */
  predicate JobDone(cfg: Config, script: int -> Iteration, db: Db, incident: IncidentRecord, first: int,
                    end: JobEnd, t: Trace) {
    && Numbered(Attempts(t), cfg, first, end)
    && OnlyLastPassed(Attempts(t), script, first, end)
    && StatusesWritten(Snaps(t), incident, |Attempts(t)|, end)
    && ClosedAs(t, incident, end)
    && FeedbackChain(Asks(t), db, incident.id, first)
    && Detections(t) == []
    && Outlined(t, incident, end)
  }

  /** Each attempt of `a`, numbered from `first`, went round again as its
      answers dictate. */
  predicate RetriedSoFar(s: Services, cfg: Config, script: int -> Iteration, incident: IncidentRecord, first: int,
                         a: seq<AttemptRecord>) {
    forall i :: 0 <= i < |a| ==> AttemptFollows(s, cfg, incident, script(first + i), Retry, [a[i]])
  }

  /** How the job ended follows from the answers: every attempt before the
      one that stopped it went round again as its answers dictate, and,
      unless the attempts ran out, the one that stopped it is within the
      budget and stopped as its answers dictate. */
  predicate JobFollows(s: Services, cfg: Config, script: int -> Iteration, incident: IncidentRecord, first: int,
                       end: JobEnd, a: seq<AttemptRecord>) {
    var k := if ReachedFixed(end) then |a| - 1 else |a|;
    && 0 <= k
    && RetriedSoFar(s, cfg, script, incident, first, a[..k])
    && (!end.Exhausted? ==>
          first + k <= cfg.maxAttempts && AttemptFollows(s, cfg, incident, script(first + k), Stop(end), a[k..]))
  }

  // ----- the loop, one property at a time -----

  /** Before attempt `attempt`: one record per earlier attempt, in order, each
      of a validation that failed because its sandbox run crashed. */
  predicate FailedSoFar(a: seq<AttemptRecord>, script: int -> Iteration, first: int, attempt: int) {
    && |a| == attempt - first
    && forall i :: 0 <= i < |a| ==> a[i].0 == first + i && !a[i].2.success && !script(first + i).exec.Exited?
  }

  /** Before attempt `attempt`: one request to the reasoner per earlier attempt. */
  predicate AskedSoFar(asks: seq<(int, Option<int>)>, db: Db, id: string, first: int, attempt: int) {
    |asks| == attempt - first && FeedbackChain(asks, db, id, first)
  }

  /** Before attempt `attempt`: when no reward from `first` on was stored
      before the job, none from `attempt` on is stored now, and after a failed
      attempt its 0 is the feedback. */
  predicate RewardsSoFar(db: Db, now: Db, id: string, first: int, attempt: int) {
    NoLaterReward(db, id, first) ==>
      && NoLaterReward(now, id, attempt)
      && (attempt > first ==> Feedback(now, id) == Some(0))
  }

  /** The state of the loop before attempt `attempt`: every earlier attempt
      was validated and failed. */
  predicate Progress(cfg: Config, script: int -> Iteration, db: Db, incident: IncidentRecord, first: int,
                     attempt: int, t: Trace) {
    && first <= attempt && attempt - first <= Budget(cfg, first)
    && (attempt == first ==> t == [])
    && FailedSoFar(Attempts(t), script, first, attempt)
    && Snaps(t) == Repeat(Cycle(incident), attempt - first)
    && Quiet(t)
    && Tallied(t, incident, attempt - first)
    && AskedSoFar(Asks(t), db, incident.id, first, attempt)
    && RewardsSoFar(db, db + Writes(t), incident.id, first, attempt)
  }

  /** Before attempt `first + k`: one round of milestones and one reward per
      earlier attempt. */
  predicate Tallied(t: Trace, incident: IncidentRecord, k: nat) {
    Milestones(t) == Repeat(Round, k) && RewardPerAttempt(StoredRewards(t), Attempts(t), incident.id)
  }

  /** No pull request, no new incident and no `fixed` or `failed` event. */
  predicate Quiet(t: Trace) {
    PrCalls(t) == [] && Detections(t) == [] && FixedEvents(t) == [] && FailedEvents(t) == []
  }

  lemma Start(cfg: Config, script: int -> Iteration, db: Db, incident: IncidentRecord, first: int)
    ensures Progress(cfg, script, db, incident, first, first, [])
  {
    assert db + [] == db;
  }

  lemma AdvanceAttempts(a: seq<AttemptRecord>, more: seq<AttemptRecord>, script: int -> Iteration, first: int,
                        attempt: int)
    requires FailedSoFar(a, script, first, attempt)
    requires |more| == 1 && more[0].0 == attempt && !more[0].2.success
    requires more[0].2.success <==> script(attempt).exec.Exited?
    ensures FailedSoFar(a + more, script, first, attempt + 1)
  {
  }

  /** The request of attempt `attempt` carried `fb`: the stored feedback when
      it was the first, and otherwise the previous attempt's 0. */
  lemma AdvanceAsks(asks: seq<(int, Option<int>)>, more: seq<(int, Option<int>)>, db: Db, id: string, first: int,
                    attempt: int, fb: Option<int>)
    requires AskedSoFar(asks, db, id, first, attempt)
    requires more == [(attempt, fb)]
    requires attempt == first ==> fb == Feedback(db, id)
    requires NoLaterReward(db, id, first) && attempt > first ==> fb == Some(0)
    ensures AskedSoFar(asks + more, db, id, first, attempt + 1)
  {
    var all := asks + more;
    assert forall i :: 0 <= i < |asks| ==> all[i] == asks[i];
  }

  lemma AdvanceRewards(db: Db, before: Db, step: Trace, id: string, first: int, attempt: int)
    requires RewardsSoFar(db, before, id, first, attempt)
    requires StoredRewards(step) == [RewardSignal(id, attempt, 0)]
    ensures RewardsSoFar(db, before + Writes(step), id, first, attempt + 1)
  {
    if NoLaterReward(db, id, first) {
      AdvanceFeedback(before, step, id, attempt);
    }
  }

  /** `AdvanceRewards` for the database as a trace leaves it. */
  lemma AdvanceRewardsOver(db: Db, t: Trace, step: Trace, id: string, first: int, attempt: int)
    requires RewardsSoFar(db, db + Writes(t), id, first, attempt)
    requires StoredRewards(step) == [RewardSignal(id, attempt, 0)]
    ensures RewardsSoFar(db, db + Writes(t + step), id, first, attempt + 1)
  {
    AdvanceRewards(db, db + Writes(t), step, id, first, attempt);
    Split(t, step);
    assert db + Writes(t + step) == (db + Writes(t)) + Writes(step);
  }

  /** The trace of the first attempt reads the database as the job found it. */
  lemma EmptyTraceReadsDb(db: Db, t: Trace)
    requires t == []
    ensures db + Writes(t) == db
  {
    assert Writes(t) == [];
  }

  /** What a failed attempt's trace holds, one projection at a time. */
  lemma RetryFacts(incident: IncidentRecord, attempt: int, passes: bool, fb: Option<int>, step: Trace)
    requires Attempted(incident, attempt, passes, fb, Retry, step)
    ensures Asks(step) == [(attempt, fb)] && Detections(step) == [] && PrCalls(step) == []
    ensures FixedEvents(step) == [] && FailedEvents(step) == []
    ensures |Attempts(step)| == 1 && Attempts(step)[0].0 == attempt && !Attempts(step)[0].2.success
    ensures Attempts(step)[0].2.success <==> passes
    ensures Snaps(step) == Cycle(incident) && Milestones(step) == Round
    ensures StoredRewards(step) == [RewardSignal(incident.id, attempt, 0)]
  {
  }

  /** A failed attempt moves the loop on to the next. */
  lemma Advance(cfg: Config, script: int -> Iteration, db: Db, incident: IncidentRecord, first: int, attempt: int,
                t: Trace, step: Trace)
    requires Progress(cfg, script, db, incident, first, attempt, t) && attempt <= cfg.maxAttempts
    requires Attempted(incident, attempt, script(attempt).exec.Exited?, Feedback(db + Writes(t), incident.id), Retry, step)
    ensures Progress(cfg, script, db, incident, first, attempt + 1, t + step)
  {
    AdvanceRecords(script, db, incident, first, attempt, t, step);
    AdvanceCalls(script, db, incident, first, attempt, t, step);
    AdvanceOrder(incident, attempt, script(attempt).exec.Exited?, Feedback(db + Writes(t), incident.id), t, step,
                 attempt - first);
  }

  /** The attempts and statuses after a failed attempt. */
  lemma AdvanceRecords(script: int -> Iteration, db: Db, incident: IncidentRecord, first: int, attempt: int, t: Trace,
                       step: Trace)
    requires first <= attempt && FailedSoFar(Attempts(t), script, first, attempt)
    requires Snaps(t) == Repeat(Cycle(incident), attempt - first) && Quiet(t)
    requires Attempted(incident, attempt, script(attempt).exec.Exited?, Feedback(db + Writes(t), incident.id), Retry, step)
    ensures FailedSoFar(Attempts(t + step), script, first, attempt + 1)
    ensures Snaps(t + step) == Repeat(Cycle(incident), attempt + 1 - first)
    ensures PrCalls(t + step) == [] && Detections(t + step) == []
    ensures FixedEvents(t + step) == [] && FailedEvents(t + step) == []
  {
    assert first <= attempt;
    RetryFacts(incident, attempt, script(attempt).exec.Exited?, Feedback(db + Writes(t), incident.id), step);
    AdvanceAttemptsOver(t, step, script, first, attempt);
    AdvanceSnapsOver(t, step, incident, attempt - first);
    QuietOver(t, step);
  }

  /** The order of effects and the rewards after a failed attempt. */
  lemma AdvanceOrder(incident: IncidentRecord, attempt: int, passes: bool, fb: Option<int>, t: Trace, step: Trace,
                     k: nat)
    requires Tallied(t, incident, k)
    requires Attempted(incident, attempt, passes, fb, Retry, step)
    ensures Tallied(t + step, incident, k + 1)
  {
    RetryFacts(incident, attempt, passes, fb, step);
    AdvanceTally(t, step, incident, k, attempt);
  }

  /** A failed attempt adds a round of milestones and its 0 reward. */
  lemma AdvanceTally(t: Trace, step: Trace, incident: IncidentRecord, k: nat, attempt: int)
    requires Tallied(t, incident, k)
    requires Milestones(step) == Round
    requires |Attempts(step)| == 1 && Attempts(step)[0].0 == attempt && !Attempts(step)[0].2.success
    requires StoredRewards(step) == [RewardSignal(incident.id, attempt, 0)]
    ensures Tallied(t + step, incident, k + 1)
  {
    SplitMilestones(t, step);
    SplitAttempts(t, step);
    SplitRewards(t, step);
    RepeatSnoc(Round, k);
    RewardPerAttemptSnoc(StoredRewards(t), Attempts(t), incident.id, StoredRewards(step)[0], Attempts(step)[0]);
    assert Attempts(step) == [Attempts(step)[0]];
  }

  /** An attempt's reward after the earlier attempts' rewards. */
  lemma RewardPerAttemptSnoc(rewards: seq<RewardSignal>, a: seq<AttemptRecord>, id: string, r: RewardSignal,
                             x: AttemptRecord)
    requires RewardPerAttempt(rewards, a, id)
    requires r == RewardSignal(id, x.0, RewardFor(x.2.success))
    ensures RewardPerAttempt(rewards + [r], a + [x], id)
  {
    var rs := rewards + [r];
    var xs := a + [x];
    assert forall i :: 0 <= i < |a| ==> rs[i] == rewards[i] && xs[i] == a[i];
  }

  /** The requests and stored rewards after a failed attempt. */
  lemma AdvanceCalls(script: int -> Iteration, db: Db, incident: IncidentRecord, first: int, attempt: int, t: Trace,
                     step: Trace)
    requires first <= attempt && (attempt == first ==> t == [])
    requires AskedSoFar(Asks(t), db, incident.id, first, attempt)
    requires RewardsSoFar(db, db + Writes(t), incident.id, first, attempt)
    requires Attempted(incident, attempt, script(attempt).exec.Exited?, Feedback(db + Writes(t), incident.id), Retry, step)
    ensures AskedSoFar(Asks(t + step), db, incident.id, first, attempt + 1)
    ensures RewardsSoFar(db, db + Writes(t + step), incident.id, first, attempt + 1)
  {
    assert first <= attempt;
    RetryFacts(incident, attempt, script(attempt).exec.Exited?, Feedback(db + Writes(t), incident.id), step);
    if attempt == first {
      EmptyTraceReadsDb(db, t);
    }
    AdvanceAsksOver(t, step, db, incident.id, first, attempt);
    AdvanceRewardsOver(db, t, step, incident.id, first, attempt);
  }

  lemma AdvanceAttemptsOver(t: Trace, step: Trace, script: int -> Iteration, first: int, attempt: int)
    requires FailedSoFar(Attempts(t), script, first, attempt)
    requires |Attempts(step)| == 1 && Attempts(step)[0].0 == attempt && !Attempts(step)[0].2.success
    requires Attempts(step)[0].2.success <==> script(attempt).exec.Exited?
    ensures FailedSoFar(Attempts(t + step), script, first, attempt + 1)
  {
    AdvanceAttempts(Attempts(t), Attempts(step), script, first, attempt);
    SplitAttempts(t, step);
  }

  lemma AdvanceSnapsOver(t: Trace, step: Trace, incident: IncidentRecord, k: nat)
    requires Snaps(t) == Repeat(Cycle(incident), k) && Snaps(step) == Cycle(incident)
    ensures Snaps(t + step) == Repeat(Cycle(incident), k + 1)
  {
    RepeatSnoc(Cycle(incident), k);
    SplitSnaps(t, step);
  }

  /** Neither trace opens a pull request, detects an incident or records a
      `fixed` or `failed` event, so neither do the two together. */
  lemma QuietOver(t: Trace, step: Trace)
    requires PrCalls(t) == [] && Detections(t) == [] && PrCalls(step) == [] && Detections(step) == []
    requires FixedEvents(t) == [] && FailedEvents(t) == [] && FixedEvents(step) == [] && FailedEvents(step) == []
    ensures PrCalls(t + step) == [] && Detections(t + step) == []
    ensures FixedEvents(t + step) == [] && FailedEvents(t + step) == []
  {
    SplitPrCalls(t, step);
    SplitDetections(t, step);
    SplitTerminal(t, step);
  }

  lemma FinishAttempts(a: seq<AttemptRecord>, more: seq<AttemptRecord>, cfg: Config, script: int -> Iteration,
                       first: int, attempt: int, end: JobEnd)
    requires FailedSoFar(a, script, first, attempt) && first <= attempt <= cfg.maxAttempts
    requires end.Passed? || end.Aborted?
    requires ReachedFixed(end) ==>
               && |more| == 1 && more[0].0 == attempt && more[0].2.success
               && (more[0].2.success <==> script(attempt).exec.Exited?)
    requires !ReachedFixed(end) ==> more == []
    ensures Numbered(a + more, cfg, first, end) && OnlyLastPassed(a + more, script, first, end)
  {
    var all := a + more;
    assert forall i :: 0 <= i < |a| ==> all[i] == a[i];
  }

  lemma FinishStatuses(incident: IncidentRecord, k: nat, more: seq<IncidentRecord>, end: JobEnd)
    requires end.Passed? || end.Aborted?
    requires end.Aborted? && end.error.PlanningFailed? ==> more == [incident.(status := Analyzing)]
    requires end.Aborted? && end.error.DispatchFailed? ==>
               more == [incident.(status := Analyzing), incident.(status := Patching)]
    requires ReachedFixed(end) ==> more == Cycle(incident) + [incident.(status := Fixed)]
    ensures StatusesWritten(Repeat(Cycle(incident), k) + more, incident, k + (if ReachedFixed(end) then 1 else 0), end)
  {
    if ReachedFixed(end) {
      RepeatSnoc(Cycle(incident), k);
      assert Repeat(Cycle(incident), k) + more == (Repeat(Cycle(incident), k) + Cycle(incident)) + [incident.(status := Fixed)];
    }
    TerminalOnlyLast(incident, end, k + (if ReachedFixed(end) then 1 else 0));
  }

  lemma SplitAttempts(a: Trace, b: Trace)
    ensures Attempts(a + b) == Attempts(a) + Attempts(b)
  {
    FilterMapAppend(a, b, AttemptOf);
  }

  lemma SplitSnaps(a: Trace, b: Trace)
    ensures Snaps(a + b) == Snaps(a) + Snaps(b)
  {
    FilterMapAppend(a, b, SnapOf);
  }

  lemma SplitAsks(a: Trace, b: Trace)
    ensures Asks(a + b) == Asks(a) + Asks(b)
  {
    FilterMapAppend(a, b, AskOf);
  }

  lemma SplitPrCalls(a: Trace, b: Trace)
    ensures PrCalls(a + b) == PrCalls(a) + PrCalls(b)
  {
    FilterMapAppend(a, b, PrCallOf);
  }

  lemma SplitDetections(a: Trace, b: Trace)
    ensures Detections(a + b) == Detections(a) + Detections(b)
  {
    FilterMapAppend(a, b, DetectionOf);
  }

  lemma SplitRewards(a: Trace, b: Trace)
    ensures StoredRewards(a + b) == StoredRewards(a) + StoredRewards(b)
  {
    FilterMapAppend(a, b, RewardOf);
  }

  lemma SplitMilestones(a: Trace, b: Trace)
    ensures Milestones(a + b) == Milestones(a) + Milestones(b)
  {
    FilterMapAppend(a, b, MilestoneOf);
  }

  lemma SplitTerminal(a: Trace, b: Trace)
    ensures FixedEvents(a + b) == FixedEvents(a) + FixedEvents(b)
    ensures FailedEvents(a + b) == FailedEvents(a) + FailedEvents(b)
  {
    FilterMapAppend(a, b, FixOf);
    FilterMapAppend(a, b, FailureOf);
  }

  lemma FinishAttemptsOver(t: Trace, step: Trace, cfg: Config, script: int -> Iteration, first: int, attempt: int,
                           end: JobEnd)
    requires FailedSoFar(Attempts(t), script, first, attempt) && first <= attempt <= cfg.maxAttempts
    requires end.Passed? || end.Aborted?
    requires ReachedFixed(end) ==>
               && |Attempts(step)| == 1 && Attempts(step)[0].0 == attempt && Attempts(step)[0].2.success
               && (Attempts(step)[0].2.success <==> script(attempt).exec.Exited?)
    requires !ReachedFixed(end) ==> Attempts(step) == []
    ensures Numbered(Attempts(t + step), cfg, first, end) && OnlyLastPassed(Attempts(t + step), script, first, end)
    ensures |Attempts(t + step)| == attempt - first + (if ReachedFixed(end) then 1 else 0)
    ensures ReachedFixed(end) ==> Attempts(t + step)[|Attempts(t + step)| - 1] == Attempts(step)[0]
  {
    FinishAttempts(Attempts(t), Attempts(step), cfg, script, first, attempt, end);
    SplitAttempts(t, step);
  }

  lemma FinishPullRequest(t: Trace, step: Trace, end: JobEnd)
    requires PrCalls(t) == []
    requires ReachedFixed(end) ==>
               && |Attempts(step)| == 1 && |Attempts(t + step)| > 0
               && Attempts(t + step)[|Attempts(t + step)| - 1] == Attempts(step)[0]
               && PrCalls(step) == [(Attempts(step)[0].1, Attempts(step)[0].2)]
    requires !ReachedFixed(end) ==> PrCalls(step) == []
    ensures PullRequestOnFix(PrCalls(t + step), Attempts(t + step), end)
  {
    SplitPrCalls(t, step);
  }

  lemma FinishStatusesOver(t: Trace, step: Trace, incident: IncidentRecord, k: nat, end: JobEnd)
    requires Snaps(t) == Repeat(Cycle(incident), k)
    requires |Attempts(t + step)| == k + (if ReachedFixed(end) then 1 else 0)
    requires end.Passed? || end.Aborted?
    requires end.Aborted? && end.error.PlanningFailed? ==> Snaps(step) == [incident.(status := Analyzing)]
    requires end.Aborted? && end.error.DispatchFailed? ==>
               Snaps(step) == [incident.(status := Analyzing), incident.(status := Patching)]
    requires ReachedFixed(end) ==> Snaps(step) == Cycle(incident) + [incident.(status := Fixed)]
    ensures StatusesWritten(Snaps(t + step), incident, |Attempts(t + step)|, end)
  {
    FinishStatuses(incident, k, Snaps(step), end);
    SplitSnaps(t, step);
  }

  lemma AdvanceAsksOver(t: Trace, step: Trace, db: Db, id: string, first: int, attempt: int)
    requires AskedSoFar(Asks(t), db, id, first, attempt)
    requires Asks(step) == [(attempt, Feedback(db + Writes(t), id))]
    requires attempt == first ==> db + Writes(t) == db
    requires NoLaterReward(db, id, first) && attempt > first ==> Feedback(db + Writes(t), id) == Some(0)
    ensures AskedSoFar(Asks(t + step), db, id, first, attempt + 1)
  {
    AdvanceAsks(Asks(t), Asks(step), db, id, first, attempt, Feedback(db + Writes(t), id));
    SplitAsks(t, step);
  }

  /** What the trace of the attempt that stops the loop holds, one
      projection at a time. */
  lemma StopFacts(incident: IncidentRecord, attempt: int, passes: bool, fb: Option<int>, end: JobEnd, step: Trace)
    requires Attempted(incident, attempt, passes, fb, Stop(end), step)
    ensures Asks(step) == [(attempt, fb)] && Detections(step) == []
    ensures FixedEvents(step) == PrCalls(step) && FailedEvents(step) == []
    ensures end.Passed? || end.Aborted?
    ensures end.Aborted? && end.error.PlanningFailed? ==> Snaps(step) == [incident.(status := Analyzing)]
    ensures end.Aborted? && end.error.DispatchFailed? ==>
              Snaps(step) == [incident.(status := Analyzing), incident.(status := Patching)]
    ensures ReachedFixed(end) ==>
              && |Attempts(step)| == 1 && Attempts(step)[0].0 == attempt && Attempts(step)[0].2.success
              && (Attempts(step)[0].2.success <==> passes)
              && Snaps(step) == Cycle(incident) + [incident.(status := Fixed)]
              && PrCalls(step) == [(Attempts(step)[0].1, Attempts(step)[0].2)]
              && StoredRewards(step) == [RewardSignal(incident.id, attempt, 1)]
    ensures !ReachedFixed(end) ==> Attempts(step) == [] && PrCalls(step) == [] && StoredRewards(step) == []
    ensures Milestones(step) == (if ReachedFixed(end) then Round else []) + Ending(end)
  {
  }

  /** The attempt that stops the loop ends the job. */
  lemma Finish(cfg: Config, script: int -> Iteration, db: Db, incident: IncidentRecord, first: int, attempt: int,
               t: Trace, step: Trace, end: JobEnd)
    requires Progress(cfg, script, db, incident, first, attempt, t) && attempt <= cfg.maxAttempts
    requires Attempted(incident, attempt, script(attempt).exec.Exited?, Feedback(db + Writes(t), incident.id), Stop(end), step)
    ensures JobDone(cfg, script, db, incident, first, end, t + step)
  {
    FinishDone(cfg, script, db, incident, first, attempt, t, step, end);
  }

  /** `Finish` from the parts of the loop invariant it needs. */
  lemma FinishDone(cfg: Config, script: int -> Iteration, db: Db, incident: IncidentRecord, first: int, attempt: int,
                   t: Trace, step: Trace, end: JobEnd)
    requires first <= attempt <= cfg.maxAttempts && (attempt == first ==> t == [])
    requires FailedSoFar(Attempts(t), script, first, attempt)
    requires Snaps(t) == Repeat(Cycle(incident), attempt - first) && Quiet(t)
    requires Tallied(t, incident, attempt - first)
    requires AskedSoFar(Asks(t), db, incident.id, first, attempt)
    requires RewardsSoFar(db, db + Writes(t), incident.id, first, attempt)
    requires Attempted(incident, attempt, script(attempt).exec.Exited?, Feedback(db + Writes(t), incident.id), Stop(end), step)
    ensures JobDone(cfg, script, db, incident, first, end, t + step)
  {
    var fb := Feedback(db + Writes(t), incident.id);
    assert |Attempts(t)| == attempt - first;
    FinishOrder(incident, attempt, script(attempt).exec.Exited?, fb, t, step, end, attempt - first);
    FinishRecords(cfg, script, incident, first, attempt, fb, t, step, end);
    FinishCalls(cfg, script, db, incident, first, attempt, t, step, end);
  }

  /** The attempts and statuses of a job that stopped. */
  lemma FinishRecords(cfg: Config, script: int -> Iteration, incident: IncidentRecord, first: int, attempt: int,
                      fb: Option<int>, t: Trace, step: Trace, end: JobEnd)
    requires first <= attempt <= cfg.maxAttempts && FailedSoFar(Attempts(t), script, first, attempt)
    requires Snaps(t) == Repeat(Cycle(incident), attempt - first)
    requires Attempted(incident, attempt, script(attempt).exec.Exited?, fb, Stop(end), step)
    ensures Numbered(Attempts(t + step), cfg, first, end) && OnlyLastPassed(Attempts(t + step), script, first, end)
    ensures StatusesWritten(Snaps(t + step), incident, |Attempts(t + step)|, end)
  {
    StopFacts(incident, attempt, script(attempt).exec.Exited?, fb, end, step);
    FinishAttemptsOver(t, step, cfg, script, first, attempt, end);
    FinishStatusesOver(t, step, incident, attempt - first, end);
  }

  /** The order of the effects and the rewards of a job that stopped. */
  lemma FinishOrder(incident: IncidentRecord, attempt: int, passes: bool, fb: Option<int>, t: Trace, step: Trace,
                    end: JobEnd, k: nat)
    requires Tallied(t, incident, k) && |Attempts(t)| == k
    requires Attempted(incident, attempt, passes, fb, Stop(end), step)
    ensures Outlined(t + step, incident, end)
  {
    StopFacts(incident, attempt, passes, fb, end, step);
    FinishTally(t, step, incident, k, attempt, end);
  }

  /** The attempt that stops the loop adds its round, when it was validated,
      and the job's ending; and its 1 reward when it passed. */
  lemma FinishTally(t: Trace, step: Trace, incident: IncidentRecord, k: nat, attempt: int, end: JobEnd)
    requires Tallied(t, incident, k) && |Attempts(t)| == k
    requires Milestones(step) == (if ReachedFixed(end) then Round else []) + Ending(end)
    requires ReachedFixed(end) ==>
               && |Attempts(step)| == 1 && Attempts(step)[0].0 == attempt && Attempts(step)[0].2.success
               && StoredRewards(step) == [RewardSignal(incident.id, attempt, 1)]
    requires !ReachedFixed(end) ==> Attempts(step) == [] && StoredRewards(step) == []
    ensures Outlined(t + step, incident, end)
  {
    SplitMilestones(t, step);
    SplitAttempts(t, step);
    SplitRewards(t, step);
    if ReachedFixed(end) {
      RepeatSnoc(Round, k);
      Associative(Repeat(Round, k), Round, Ending(end));
      RewardPerAttemptSnoc(StoredRewards(t), Attempts(t), incident.id, StoredRewards(step)[0], Attempts(step)[0]);
      assert Attempts(step) == [Attempts(step)[0]];
    } else {
      assert Attempts(t + step) == Attempts(t) && StoredRewards(t + step) == StoredRewards(t);
      assert Milestones(step) == Ending(end);
    }
  }

  lemma Associative<T>(a: seq<T>, b: seq<T>, c: seq<T>)
    ensures a + (b + c) == (a + b) + c
  {
  }

  /** The requests and pull requests of a job that stopped. */
  lemma FinishCalls(cfg: Config, script: int -> Iteration, db: Db, incident: IncidentRecord, first: int, attempt: int,
                    t: Trace, step: Trace, end: JobEnd)
    requires first <= attempt <= cfg.maxAttempts && (attempt == first ==> t == [])
    requires FailedSoFar(Attempts(t), script, first, attempt) && Quiet(t)
    requires AskedSoFar(Asks(t), db, incident.id, first, attempt)
    requires RewardsSoFar(db, db + Writes(t), incident.id, first, attempt)
    requires Attempted(incident, attempt, script(attempt).exec.Exited?, Feedback(db + Writes(t), incident.id), Stop(end), step)
    ensures PullRequestOnFix(PrCalls(t + step), Attempts(t + step), end)
    ensures PullRequestOnFix(FixedEvents(t + step), Attempts(t + step), end)
    ensures FailedEvents(t + step) == []
    ensures FeedbackChain(Asks(t + step), db, incident.id, first)
    ensures Detections(t + step) == []
  {
    StopFacts(incident, attempt, script(attempt).exec.Exited?, Feedback(db + Writes(t), incident.id), end, step);
    if attempt == first {
      EmptyTraceReadsDb(db, t);
    }
    FinishAttemptsOver(t, step, cfg, script, first, attempt, end);
    AdvanceAsksOver(t, step, db, incident.id, first, attempt);
    FinishPullRequest(t, step, end);
    SplitDetections(t, step);
    SplitPrCalls(t, step);
    SplitTerminal(t, step);
  }

  /** A loop that ran out of attempts ends the job with FAILED. */
  lemma Exhaust(cfg: Config, script: int -> Iteration, db: Db, incident: IncidentRecord, first: int, attempt: int,
                t: Trace)
    requires Progress(cfg, script, db, incident, first, attempt, t) && attempt > cfg.maxAttempts
    ensures JobDone(cfg, script, db, incident, first, Exhausted, t + GiveUp(incident))
  {
    ExhaustDone(cfg, script, db, incident, first, attempt, t);
  }

  /** `Exhaust` from the parts of the loop invariant it needs. */
  lemma ExhaustDone(cfg: Config, script: int -> Iteration, db: Db, incident: IncidentRecord, first: int, attempt: int,
                    t: Trace)
    requires first <= attempt && attempt - first <= Budget(cfg, first) && attempt > cfg.maxAttempts
    requires FailedSoFar(Attempts(t), script, first, attempt)
    requires Snaps(t) == Repeat(Cycle(incident), attempt - first) && Quiet(t)
    requires AskedSoFar(Asks(t), db, incident.id, first, attempt)
    requires Tallied(t, incident, attempt - first)
    ensures JobDone(cfg, script, db, incident, first, Exhausted, t + GiveUp(incident))
  {
    ExhaustRecords(cfg, script, db, incident, first, attempt, t);
    ExhaustOrder(t, incident, attempt - first);
  }

  /** What a job that ran out of attempts promises, but for the order of its
      effects and its rewards. */
  lemma ExhaustRecords(cfg: Config, script: int -> Iteration, db: Db, incident: IncidentRecord, first: int,
                       attempt: int, t: Trace)
    requires first <= attempt && attempt - first <= Budget(cfg, first) && attempt > cfg.maxAttempts
    requires FailedSoFar(Attempts(t), script, first, attempt)
    requires Snaps(t) == Repeat(Cycle(incident), attempt - first) && Quiet(t)
    requires AskedSoFar(Asks(t), db, incident.id, first, attempt)
    ensures Numbered(Attempts(t + GiveUp(incident)), cfg, first, Exhausted)
    ensures OnlyLastPassed(Attempts(t + GiveUp(incident)), script, first, Exhausted)
    ensures StatusesWritten(Snaps(t + GiveUp(incident)), incident, |Attempts(t + GiveUp(incident))|, Exhausted)
    ensures ClosedAs(t + GiveUp(incident), incident, Exhausted)
    ensures FeedbackChain(Asks(t + GiveUp(incident)), db, incident.id, first)
    ensures Detections(t + GiveUp(incident)) == []
  {
    var t' := t + GiveUp(incident);
    GiveUpKeeps(t, incident);
    ExhaustStatuses(incident, attempt - first, Snaps(t), Snaps(t'));
  }

  /** Giving up after `k` validated attempts adds its ending to their rounds
      and stores no reward. */
  lemma ExhaustOrder(t: Trace, incident: IncidentRecord, k: nat)
    requires Tallied(t, incident, k) && |Attempts(t)| == k
    ensures Outlined(t + GiveUp(incident), incident, Exhausted)
  {
    GiveUpKeeps(t, incident);
  }

  /** The give-up trace adds the FAILED snapshot and the `failed` event and
      nothing else the job promises about. */
  lemma GiveUpKeeps(t: Trace, incident: IncidentRecord)
    ensures Attempts(t + GiveUp(incident)) == Attempts(t)
    ensures Asks(t + GiveUp(incident)) == Asks(t)
    ensures PrCalls(t + GiveUp(incident)) == PrCalls(t)
    ensures Detections(t + GiveUp(incident)) == Detections(t)
    ensures Snaps(t + GiveUp(incident)) == Snaps(t) + [incident.(status := Failed)]
    ensures FixedEvents(t + GiveUp(incident)) == FixedEvents(t)
    ensures FailedEvents(t + GiveUp(incident)) == FailedEvents(t) + [Some(incident.id)]
    ensures StoredRewards(t + GiveUp(incident)) == StoredRewards(t)
    ensures Milestones(t + GiveUp(incident)) == Milestones(t) + Ending(Exhausted)
  {
    var g := GiveUp(incident);
    FilterMapAppend(t, g, RewardOf);
    FilterMapAppend(t, g, MilestoneOf);
    SplitTerminal(t, g);
    SplitAttempts(t, g);
    SplitAsks(t, g);
    SplitPrCalls(t, g);
    SplitDetections(t, g);
    SplitSnaps(t, g);
  }

  lemma ExhaustStatuses(incident: IncidentRecord, k: nat, before: seq<IncidentRecord>, after: seq<IncidentRecord>)
    requires before == Repeat(Cycle(incident), k)
    requires after == before + [incident.(status := Failed)]
    ensures StatusesWritten(after, incident, k, Exhausted)
  {
    TerminalOnlyLast(incident, Exhausted, k);
  }

  /** After a failed attempt whose number is past every stored reward of
      the incident, its 0 is the feedback and the next attempt is past every
      stored reward. */
  lemma AdvanceFeedback(before: Db, step: Trace, id: string, attempt: int)
    requires StoredRewards(step) == [RewardSignal(id, attempt, 0)]
    requires NoLaterReward(before, id, attempt)
    ensures NoLaterReward(before + Writes(step), id, attempt + 1)
    ensures Feedback(before + Writes(step), id) == Some(0)
  {
    var signal := RewardSignal(id, attempt, 0);
    RetryStoresReward(before, step, signal);
    SignalIsLatest(before, signal);
    FeedbackFromRewards(before + Writes(step), before + [InsertReward(signal)], id);
  }

  /** The attempt numbered `first + |a|` adds to what the answers dictated. */
  lemma FollowStep(s: Services, cfg: Config, script: int -> Iteration, incident: IncidentRecord, first: int,
                   a: seq<AttemptRecord>, pass: Pass, more: seq<AttemptRecord>)
    requires RetriedSoFar(s, cfg, script, incident, first, a)
    requires AttemptFollows(s, cfg, incident, script(first + |a|), pass, more)
    requires pass.Stop? ==> first + |a| <= cfg.maxAttempts && !pass.end.Exhausted?
    requires pass.Stop? && !ReachedFixed(pass.end) ==> more == []
    ensures pass.Retry? ==> RetriedSoFar(s, cfg, script, incident, first, a + more)
    ensures pass.Stop? ==> JobFollows(s, cfg, script, incident, first, pass.end, a + more)
  {
    var b := a + more;
    if pass.Retry? {
      assert more == [more[0]];
      forall i | 0 <= i < |b|
        ensures AttemptFollows(s, cfg, incident, script(first + i), Retry, [b[i]])
      {
        if i == |a| {
          assert [b[i]] == more;
        } else {
          assert b[i] == a[i];
        }
      }
    } else {
      if ReachedFixed(pass.end) {
        assert |more| == 1;
      }
      assert b[..|a|] == a && b[|a|..] == more;
    }
  }

  /** Running out of attempts ends the job as the answers dictate. */
  lemma FollowExhausted(s: Services, cfg: Config, script: int -> Iteration, incident: IncidentRecord, first: int,
                        t: Trace)
    requires RetriedSoFar(s, cfg, script, incident, first, Attempts(t))
    ensures JobFollows(s, cfg, script, incident, first, Exhausted, Attempts(t + GiveUp(incident)))
  {
    GiveUpKeeps(t, incident);
    assert Attempts(t)[..|Attempts(t)|] == Attempts(t);
  }

  /** `handleIncidentJob` from attempt `first`, with `script(n)` the outside
      world's answers during attempt `n`. Each attempt reads `db` plus what
      the earlier attempts wrote. */
  method IncidentJob(s: Services, cfg: Config, m: Matchers, script: int -> Iteration, db: Db,
                     incident: IncidentRecord, first: int) returns (end: JobEnd, t: Trace)
    requires Honest(s)
    ensures JobDone(cfg, script, db, incident, first, end, t)
    ensures JobFollows(s, cfg, script, incident, first, end, Attempts(t))
  {
    Start(cfg, script, db, incident, first);
    end, t := JobFrom(s, cfg, m, script, db, incident, first, first, []);
  }

  /** The loop of `handleIncidentJob` from attempt `attempt`, after the
      failed attempts whose trace is `done`. */
  method JobFrom(s: Services, cfg: Config, m: Matchers, script: int -> Iteration, db: Db, incident: IncidentRecord,
                 first: int, attempt: int, done: Trace) returns (end: JobEnd, t: Trace)
    requires Honest(s)
    requires Progress(cfg, script, db, incident, first, attempt, done)
    requires RetriedSoFar(s, cfg, script, incident, first, Attempts(done))
    ensures JobDone(cfg, script, db, incident, first, end, t)
    ensures JobFollows(s, cfg, script, incident, first, end, Attempts(t))
    decreases cfg.maxAttempts + 1 - attempt
  {
    if attempt > cfg.maxAttempts {
      end, t := GiveUpJob(s, cfg, script, db, incident, first, attempt, done);
    } else {
      var pass, t' := Attempt(s, cfg, m, script, db, incident, first, attempt, done);
      if pass.Stop? {
        end, t := pass.end, t';
      } else {
        end, t := JobFrom(s, cfg, m, script, db, incident, first, attempt + 1, t');
      }
    }
  }

  /** The end of a loop that ran out of attempts. */
  method GiveUpJob(s: Services, cfg: Config, script: int -> Iteration, db: Db, incident: IncidentRecord, first: int,
                   attempt: int, t: Trace) returns (end: JobEnd, t': Trace)
    requires Progress(cfg, script, db, incident, first, attempt, t) && attempt > cfg.maxAttempts
    requires RetriedSoFar(s, cfg, script, incident, first, Attempts(t))
    ensures end == Exhausted && JobDone(cfg, script, db, incident, first, end, t')
    ensures JobFollows(s, cfg, script, incident, first, end, Attempts(t'))
  {
    Exhaust(cfg, script, db, incident, first, attempt, t);
    FollowExhausted(s, cfg, script, incident, first, t);
    end, t' := Exhausted, t + GiveUp(incident);
  }

  /** One turn of the loop, on the database as the earlier turns left it. */
  method Attempt(s: Services, cfg: Config, m: Matchers, script: int -> Iteration, db: Db, incident: IncidentRecord,
                 first: int, attempt: int, t: Trace) returns (pass: Pass, t': Trace)
    requires Honest(s)
    requires Progress(cfg, script, db, incident, first, attempt, t) && attempt <= cfg.maxAttempts
    requires RetriedSoFar(s, cfg, script, incident, first, Attempts(t))
    ensures pass.Stop? ==> JobDone(cfg, script, db, incident, first, pass.end, t')
    ensures pass.Retry? ==> Progress(cfg, script, db, incident, first, attempt + 1, t')
    ensures pass.Stop? ==> JobFollows(s, cfg, script, incident, first, pass.end, Attempts(t'))
    ensures pass.Retry? ==> RetriedSoFar(s, cfg, script, incident, first, Attempts(t'))
  {
    var step;
    pass, step := RunAttempt(s, cfg, m, script(attempt), db + Writes(t), incident, attempt);
    assert |Attempts(t)| == attempt - first;
    SplitAttempts(t, step);
    FollowStep(s, cfg, script, incident, first, Attempts(t), pass, Attempts(step));
    if pass.Stop? {
      Finish(cfg, script, db, incident, first, attempt, t, step, pass.end);
    } else {
      Advance(cfg, script, db, incident, first, attempt, t, step);
    }
    t' := t + step;
  }

  /** `handleIncidentJob`, with this model's collaborators. */
  method HandleIncidentJob(cfg: Config, m: Matchers, script: int -> Iteration, db: Db,
                           incident: IncidentRecord, attempt: int) returns (end: JobEnd, t: Trace)
    ensures JobDone(cfg, script, db, incident, attempt, end, t)
    ensures JobFollows(Backend, cfg, script, incident, attempt, end, Attempts(t))
  {
    BackendHonest();
    end, t := IncidentJob(Backend, cfg, m, script, db, incident, attempt);
  }

  // ----- the detection job -----

  /** What the outside world does for the `i`-th update found: the sandbox run
      of the upgrade, the new incident's id and creation time, and the answers
      during its repair attempts. */
  datatype Trial = Trial(exec: ExecOutcome, id: string, now: string, script: int -> Iteration)

  /** The incidents the simulations of the first `n` updates produce, in order. */
  function Crashes(s: Services, cfg: Config, m: Matchers, updates: seq<DependencyUpdate>, trials: nat -> Trial, n: nat)
    : (r: seq<IncidentRecord>)
    requires n <= |updates|
    ensures |r| <= n
    decreases n
  {
    if n == 0 then []
    else
      var tr := trials(n - 1);
      Crashes(s, cfg, m, updates, trials, n - 1)
      + AsSeq(s.simulate(m, cfg.projectCommand, updates[n - 1], tr.exec, tr.id, tr.now))
  }

  /** Every incident a simulation produces is DETECTED. */
  lemma {:induction false} CrashesDetected(s: Services, cfg: Config, m: Matchers, updates: seq<DependencyUpdate>,
                                           trials: nat -> Trial, n: nat)
    requires Honest(s)
    requires n <= |updates|
    ensures forall j :: 0 <= j < |Crashes(s, cfg, m, updates, trials, n)| ==>
                          Crashes(s, cfg, m, updates, trials, n)[j].status == Detected
    decreases n
  {
    if n > 0 {
      CrashesDetected(s, cfg, m, updates, trials, n - 1);
      var tr := trials(n - 1);
      var found := s.simulate(m, cfg.projectCommand, updates[n - 1], tr.exec, tr.id, tr.now);
      assert SimulateContract(found, tr.exec, tr.id);
      var before := Crashes(s, cfg, m, updates, trials, n - 1);
      var r := Crashes(s, cfg, m, updates, trials, n);
      assert r == before + AsSeq(found);
      forall j | 0 <= j < |r| ensures r[j].status == Detected {
        if j >= |before| {
          assert r[j] == found.value;
        } else {
          assert r[j] == before[j];
        }
      }
    }
  }

  /** The error a round of the detection loop throws: its incident job's,
      when that job aborted. */
  function Thrown(outcome: Option<JobEnd>): Option<JobError> {
    if outcome.Some? && outcome.value.Aborted? then Some(outcome.value.error) else None
  }

  /** The incident stored as DETECTED, its `incident_detected` event and its
      dashboard notice. */
  function Announce(incident: IncidentRecord): (t: Trace)
    ensures Snaps(t) == [incident] && Detections(t) == [incident]
    ensures Asks(t) == [] && Attempts(t) == [] && PrCalls(t) == [] && StoredRewards(t) == []
    ensures FixedEvents(t) == [] && FailedEvents(t) == []
  {
    var e1 := Db(UpsertIncident(incident));
    var e2 := Db(InsertEvent(Event("incident_detected", Some(incident.id), IncidentPayload(incident))));
    var e3 := Dashboard(IncidentNotice(incident));
    One(e1);
    One(e2);
    One(e3);
    Split([e1], [e2]);
    Split([e1] + [e2], [e3]);
    [e1] + [e2] + [e3]
  }

  /** What one round of the detection loop leaves: the sandbox run of the
      upgrade and, when the simulation produced an incident, that incident
      announced and then its incident job from attempt 1, run on the
      database as the announcement left it and ending with `outcome` as the
      trial's answers dictate. */
  predicate RoundDone(s: Services, cfg: Config, m: Matchers, u: DependencyUpdate, tr: Trial, db: Db,
                      outcome: Option<JobEnd>, t: Trace) {
    var run := SandboxRun(ShellCommand(u, cfg.projectCommand));
    var found := s.simulate(m, cfg.projectCommand, u, tr.exec, tr.id, tr.now);
    && (outcome.None? <==> found.None?)
    && (found.None? ==> t == [run])
    && (found.Some? && outcome.Some? ==>
          var head := [run] + Announce(found.value);
          && |t| >= |head| && t[..|head|] == head
          && JobDone(cfg, tr.script, db + Writes(head), found.value, 1, outcome.value, t[|head|..])
          && JobFollows(s, cfg, tr.script, found.value, 1, outcome.value, Attempts(t[|head|..])))
  }

  /** One round of the loop of `handleDetectionJob`: simulate the upgrade;
      when it crashes, store and announce the incident, then run
      `handleIncidentJob` on it from attempt 1. */
  method DetectOne(s: Services, cfg: Config, m: Matchers, u: DependencyUpdate, tr: Trial, db: Db)
    returns (outcome: Option<JobEnd>, t: Trace)
    requires Honest(s)
    ensures RoundDone(s, cfg, m, u, tr, db, outcome, t)
    ensures Detections(t) == AsSeq(s.simulate(m, cfg.projectCommand, u, tr.exec, tr.id, tr.now))
  {
    var run := SandboxRun(ShellCommand(u, cfg.projectCommand));
    var found := s.simulate(m, cfg.projectCommand, u, tr.exec, tr.id, tr.now);
    if found.None? {
      One(run);
      return None, [run];
    }
    var head := [run] + Announce(found.value);
    var end, job := IncidentJob(s, cfg, m, tr.script, db + Writes(head), found.value, 1);
    CrashRound(s, cfg, m, u, tr, db, found.value, end, job);
    outcome, t := Some(end), head + job;
  }

  /** A round whose simulation crashed: the run, the announcement, then the
      incident job. */
  lemma CrashRound(s: Services, cfg: Config, m: Matchers, u: DependencyUpdate, tr: Trial, db: Db,
                   incident: IncidentRecord, end: JobEnd, job: Trace)
    requires s.simulate(m, cfg.projectCommand, u, tr.exec, tr.id, tr.now) == Some(incident)
    requires var head := [SandboxRun(ShellCommand(u, cfg.projectCommand))] + Announce(incident);
             JobDone(cfg, tr.script, db + Writes(head), incident, 1, end, job)
    requires JobFollows(s, cfg, tr.script, incident, 1, end, Attempts(job))
    ensures var head := [SandboxRun(ShellCommand(u, cfg.projectCommand))] + Announce(incident);
            && RoundDone(s, cfg, m, u, tr, db, Some(end), head + job)
            && Detections(head + job) == [incident]
  {
    var head := [SandboxRun(ShellCommand(u, cfg.projectCommand))] + Announce(incident);
    var t := head + job;
    assert t[..|head|] == head && t[|head|..] == job;
    CrashDetections(SandboxRun(ShellCommand(u, cfg.projectCommand)), incident, job);
  }

  /** The only incident a crashed round detects is its own. */
  lemma CrashDetections(run: Effect, incident: IncidentRecord, job: Trace)
    requires run.SandboxRun? && Detections(job) == []
    ensures Detections([run] + Announce(incident) + job) == [incident]
  {
    One(run);
    SplitDetections([run], Announce(incident));
    SplitDetections([run] + Announce(incident), job);
  }

  /** The rounds so far, one per update in order, each run on the database
      as the rounds before it left it: the rounds before the last are done,
      and the last ran on what they left. */
  predicate RoundsDone(s: Services, cfg: Config, m: Matchers, updates: seq<DependencyUpdate>, trials: nat -> Trial,
                       db: Db, rounds: seq<Trace>, ends: seq<Option<JobEnd>>)
    decreases |rounds|
  {
    && |ends| == |rounds| <= |updates|
    && (|rounds| > 0 ==>
          var n := |rounds| - 1;
          && RoundsDone(s, cfg, m, updates, trials, db, rounds[..n], ends[..n])
          && RoundDone(s, cfg, m, updates[n], trials(n), db + Writes(Flatten(rounds[..n])), ends[n], rounds[n]))
  }

  /** Only the last round can have thrown, and the loop's error is what it
      threw. */
  predicate ThrownLast(ends: seq<Option<JobEnd>>, err: Option<JobError>) {
    && (forall k :: 0 <= k < |ends| - 1 ==> Thrown(ends[k]).None?)
    && err == (if |ends| == 0 then None else Thrown(ends[|ends| - 1]))
  }

  /** What the loop of `handleDetectionJob` promises: its trace is its
      rounds one after the other; it stops after the first round whose
      incident job threw, with that error, and otherwise goes through every
      update. */
  predicate LoopDone(s: Services, cfg: Config, m: Matchers, updates: seq<DependencyUpdate>, trials: nat -> Trial,
                     db: Db, err: Option<JobError>, t: Trace, rounds: seq<Trace>, ends: seq<Option<JobEnd>>) {
    && RoundsDone(s, cfg, m, updates, trials, db, rounds, ends) && t == Flatten(rounds)
    && ThrownLast(ends, err)
    && (err.None? ==> |rounds| == |updates|)
  }

  /** A round after rounds that all went through leaves its own error as the
      loop's. */
  lemma ThrownSnoc(ends: seq<Option<JobEnd>>, outcome: Option<JobEnd>)
    requires ThrownLast(ends, None)
    ensures ThrownLast(ends + [outcome], Thrown(outcome))
  {
    var ends' := ends + [outcome];
    forall k | 0 <= k < |ends'| - 1 ensures Thrown(ends'[k]).None? {
      assert ends'[k] == ends[k];
    }
  }

  /** One more round, run on the database the earlier rounds left. */
  lemma RoundsSnoc(s: Services, cfg: Config, m: Matchers, updates: seq<DependencyUpdate>, trials: nat -> Trial,
                   db: Db, rounds: seq<Trace>, ends: seq<Option<JobEnd>>, step: Trace, outcome: Option<JobEnd>)
    requires RoundsDone(s, cfg, m, updates, trials, db, rounds, ends) && |rounds| < |updates|
    requires RoundDone(s, cfg, m, updates[|rounds|], trials(|rounds|), db + Writes(Flatten(rounds)), outcome, step)
    ensures RoundsDone(s, cfg, m, updates, trials, db, rounds + [step], ends + [outcome])
    ensures Flatten(rounds + [step]) == Flatten(rounds) + step
  {
    var rounds', ends' := rounds + [step], ends + [outcome];
    assert rounds'[..|rounds|] == rounds && ends'[..|ends|] == ends;
  }

  /** The loop of `handleDetectionJob` over the updates found. An error thrown
      by an incident job ends the detection job. */
  method DetectionJob(s: Services, cfg: Config, m: Matchers, updates: seq<DependencyUpdate>, trials: nat -> Trial,
                      db: Db) returns (err: Option<JobError>, t: Trace, rounds: seq<Trace>, ends: seq<Option<JobEnd>>)
    requires Honest(s)
    ensures LoopDone(s, cfg, m, updates, trials, db, err, t, rounds, ends)
    ensures Detections(t) <= Crashes(s, cfg, m, updates, trials, |updates|)
    ensures err.None? ==> Detections(t) == Crashes(s, cfg, m, updates, trials, |updates|)
    ensures forall i :: 0 <= i < |Detections(t)| ==> Detections(t)[i].status == Detected
  {
    t, rounds, ends, err := [], [], [], None;
    var i := 0;
    while i < |updates| && err.None?
      invariant i <= |updates| && |rounds| == i
      invariant RoundsDone(s, cfg, m, updates, trials, db, rounds, ends) && t == Flatten(rounds)
      invariant ThrownLast(ends, err)
      invariant Detections(t) == Crashes(s, cfg, m, updates, trials, i)
    {
      var outcome, step := DetectOne(s, cfg, m, updates[i], trials(i), db + Writes(t));
      CrashesStep(s, cfg, m, updates, trials, i, t, step);
      RoundsSnoc(s, cfg, m, updates, trials, db, rounds, ends, step, outcome);
      ThrownSnoc(ends, outcome);
      t, rounds, ends := t + step, rounds + [step], ends + [outcome];
      i := i + 1;
      err := Thrown(outcome);
    }
    DetectionsSoFar(s, cfg, m, updates, trials, i, err, t);
  }

  /** After `i` rounds the detections are the first `i` rounds' crashes, all
      of them when no round failed. */
  lemma DetectionsSoFar(s: Services, cfg: Config, m: Matchers, updates: seq<DependencyUpdate>, trials: nat -> Trial,
                        i: nat, err: Option<JobError>, t: Trace)
    requires Honest(s)
    requires i <= |updates|
    requires Detections(t) == Crashes(s, cfg, m, updates, trials, i)
    requires err.None? ==> i == |updates|
    ensures Detections(t) <= Crashes(s, cfg, m, updates, trials, |updates|)
    ensures err.None? ==> Detections(t) == Crashes(s, cfg, m, updates, trials, |updates|)
    ensures forall j :: 0 <= j < |Detections(t)| ==> Detections(t)[j].status == Detected
  {
    CrashesPrefix(s, cfg, m, updates, trials, i, |updates|);
    CrashesDetected(s, cfg, m, updates, trials, i);
  }

  lemma CrashesStep(s: Services, cfg: Config, m: Matchers, updates: seq<DependencyUpdate>, trials: nat -> Trial,
                    i: nat, t: Trace, step: Trace)
    requires i < |updates|
    requires Detections(t) == Crashes(s, cfg, m, updates, trials, i)
    requires Detections(step)
             == AsSeq(s.simulate(m, cfg.projectCommand, updates[i], trials(i).exec, trials(i).id, trials(i).now))
    ensures Detections(t + step) == Crashes(s, cfg, m, updates, trials, i + 1)
  {
    Split(t, step);
  }

  lemma {:induction false} CrashesPrefix(s: Services, cfg: Config, m: Matchers, updates: seq<DependencyUpdate>,
                                         trials: nat -> Trial, i: nat, n: nat)
    requires i <= n <= |updates|
    ensures Crashes(s, cfg, m, updates, trials, i) <= Crashes(s, cfg, m, updates, trials, n)
    decreases n - i
  {
    if i < n {
      CrashesPrefix(s, cfg, m, updates, trials, i, n - 1);
    }
  }

  /** `handleDetectionJob`: the updates `detectUpdates` finds, then the loop,
      with this model's collaborators. */
  method HandleDetectionJob(cfg: Config, m: Matchers, deps: seq<DependencyUpdate>, lookups: seq<Detection.Lookup>,
                            trials: nat -> Trial, db: Db)
    returns (err: Option<JobError>, t: Trace, rounds: seq<Trace>, ends: seq<Option<JobEnd>>)
    requires |lookups| == |deps|
    ensures LoopDone(Backend, cfg, m, Detection.Select(deps, lookups), trials, db, err, t, rounds, ends)
    ensures forall i :: 0 <= i < |Detections(t)| ==> Detections(t)[i].status == Detected
    ensures var updates := Detection.Select(deps, lookups);
            Detections(t) <= Crashes(Backend, cfg, m, updates, trials, |updates|)
    ensures var updates := Detection.Select(deps, lookups);
            err.None? ==> Detections(t) == Crashes(Backend, cfg, m, updates, trials, |updates|)
  {
    BackendHonest();
    var updates := Detection.Select(deps, lookups);
    err, t, rounds, ends := DetectionJob(Backend, cfg, m, updates, trials, db);
  }
}
