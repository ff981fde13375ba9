/** Patch validation (backend/src/services/validation.ts): rerun the sandbox
    for the incident's upgrade, store the verdict, and turn it into a binary
    reward. */
module Validation {
  import opened Wrappers
  import opened Types
  import opened Store
  import opened Sandbox
  import opened Effects
  import opened Planner

  /** The reward a verdict earns: 1 for a pass, 0 for a failure. */
  function RewardFor(success: bool): (r: int)
    ensures r == 0 || r == 1
    ensures r == 1 <==> success
  {
    if success then 1 else 0
  }

  /** `validatePatch`: the sandbox runs the incident's own update again; the
      verdict is stored, then the reward for it under this attempt. */
  function ValidatePatch(m: Matchers, projectCommand: string, incident: IncidentRecord, attempt: int, exec: ExecOutcome)
    : (r: (ValidationResult, Trace))
    ensures r.0.incidentId == incident.id
    ensures r.0.success <==> exec.Exited?
    ensures r.0.newErrors.Some? <==> !r.0.success
    ensures !r.0.success ==> r.0.newErrors == Some(ParseStack(m, r.0.stderr).value.stack)
    ensures var s := RunSandbox(m, incident.dependency, projectCommand, exec);
            r.0.stdout == s.stdout && r.0.stderr == s.stderr && r.0.exitCode == s.exitCode
    ensures |r.1| >= 1 && r.1[0] == SandboxRun(ShellCommand(incident.dependency, projectCommand))
    ensures Writes(r.1) == [InsertValidation(r.0), InsertReward(RewardSignal(incident.id, attempt, RewardFor(r.0.success)))]
    ensures Asks(r.1) == [] && PrCalls(r.1) == []
  {
    var s := RunSandbox(m, incident.dependency, projectCommand, exec);
    var v := ValidationResult(incident.id, !s.crashed, s.stdout, s.stderr, s.exitCode,
                              if s.crashed then s.stacktrace else None);
    var signal := RewardSignal(incident.id, attempt, RewardFor(v.success));
    ValidationLog(s.command, v, signal);
    (v, [SandboxRun(s.command), Db(InsertValidation(v))] + RecordReward(signal))
  }

  /** The sandbox run, the stored verdict, then the recorded reward. */
  lemma ValidationLog(command: string, v: ValidationResult, signal: RewardSignal)
    ensures var t := [SandboxRun(command), Db(InsertValidation(v))] + RecordReward(signal);
            Writes(t) == [InsertValidation(v), InsertReward(signal)] && Asks(t) == [] && PrCalls(t) == []
  {
    var run := [SandboxRun(command)] + [Db(InsertValidation(v))];
    Single(SandboxRun(command));
    Single(Db(InsertValidation(v)));
    Projections([SandboxRun(command)], [Db(InsertValidation(v))]);
    Projections(run, RecordReward(signal));
    assert run == [SandboxRun(command), Db(InsertValidation(v))];
  }

  lemma VerdictWrites(db: Db, v: ValidationResult, signal: RewardSignal)
    ensures var db' := db + [InsertValidation(v), InsertReward(signal)];
            && Validations(db') == Validations(db) + [v] && Rewards(db') == Rewards(db) + [signal]
            && Plans(db') == Plans(db) && Events(db') == Events(db) && Snapshots(db') == Snapshots(db)
  {
    var ws := [InsertValidation(v), InsertReward(signal)];
    AppendOnly(db, ws);
    assert ws[..1] == [InsertValidation(v)];
    assert ws[..1][..0] == [];
    assert Validations(ws) == Validations(ws[..1]) == [v];
    assert Rewards(ws) == Rewards(ws[..1]) + [signal] == [signal];
    assert Plans(ws) == Plans(ws[..1]) == [];
    assert Events(ws) == Events(ws[..1]) == [];
    assert Snapshots(ws) == Snapshots(ws[..1]) == [];
  }

  /** One validation and then one reward are appended, in that order. */
  lemma ValidationAppends(m: Matchers, projectCommand: string, incident: IncidentRecord, attempt: int,
                          exec: ExecOutcome, db: Db)
    ensures var r := ValidatePatch(m, projectCommand, incident, attempt, exec);
            var db' := db + Writes(r.1);
            && Validations(db') == Validations(db) + [r.0]
            && Rewards(db') == Rewards(db) + [RewardSignal(incident.id, attempt, RewardFor(r.0.success))]
            && Plans(db') == Plans(db) && Events(db') == Events(db) && Snapshots(db') == Snapshots(db)
  {
    var r := ValidatePatch(m, projectCommand, incident, attempt, exec);
    VerdictWrites(db, r.0, RewardSignal(incident.id, attempt, RewardFor(r.0.success)));
  }

  /** Once every earlier reward of the incident has a lower attempt number,
      the reward a validation stores is the incident's latest. */
  lemma ValidationRewardIsLatest(m: Matchers, projectCommand: string, incident: IncidentRecord, attempt: int,
                                 exec: ExecOutcome, db: Db)
    requires forall s :: s in Rewards(db) && s.incidentId == incident.id ==> s.attempt < attempt
    ensures var r := ValidatePatch(m, projectCommand, incident, attempt, exec);
            LatestReward(db + Writes(r.1), incident.id) == Some(RewardSignal(incident.id, attempt, RewardFor(r.0.success)))
  {
    var r := ValidatePatch(m, projectCommand, incident, attempt, exec);
    var signal := RewardSignal(incident.id, attempt, RewardFor(r.0.success));
    ValidationAppends(m, projectCommand, incident, attempt, exec, db);
    var db' := db + Writes(r.1);
    assert Rewards(db') == Rewards(db) + [signal];
    assert signal in Rewards(db');
    LatestRewardSpec(db', incident.id);
    var latest := LatestReward(db', incident.id).value;
    assert latest.attempt >= attempt;
    assert latest !in Rewards(db);
    assert latest in Rewards(db) + [signal];
  }
}
