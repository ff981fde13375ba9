/** Repair planning (backend/src/services/repairPlanner.ts): ask the reasoner
    with the latest stored reward as feedback, store the plan it returns, and
    record rewards. */
module Planner {
  import opened Wrappers
  import opened Types
  import opened Store
  import opened Effects
  import opened Reasoner

  /** The reward passed to the reasoner: the value of the stored reward with
      the highest attempt for this incident, or null when there is none. */
  function Feedback(db: Db, id: string): Option<int> {
    match LatestReward(db, id)
    case Some(s) => Some(s.reward)
    case None => None
  }

  /** There is feedback exactly when the incident has a stored reward, and it
      is the value of one with the greatest attempt. */
  lemma FeedbackSpec(db: Db, id: string)
    ensures Feedback(db, id).None? <==> forall s :: s in Rewards(db) ==> s.incidentId != id
    ensures Feedback(db, id).Some? ==>
              exists s :: && s in Rewards(db) && s.incidentId == id && s.reward == Feedback(db, id).value
                          && forall s' :: s' in Rewards(db) && s'.incidentId == id ==> s'.attempt <= s.attempt
  {
    LatestRewardSpec(db, id);
  }

  /** `planRepair`: one request to the reasoner, then the plan is stored if
      and only if one came back. */
  function PlanRepair(db: Db, incident: IncidentRecord, attempt: int, reply: Reply): (r: (Result<RepairPlan, ReasonError>, Trace))
    ensures r.0 == ReasonAboutIncident(incident, reply)
    ensures |r.1| >= 1 && r.1[0] == AskReasoner(incident, attempt, Feedback(db, incident.id))
    ensures Asks(r.1) == [(attempt, Feedback(db, incident.id))]
    ensures Writes(r.1) == if r.0.Ok? then [InsertPlan(r.0.value)] else []
    ensures PrCalls(r.1) == []
  {
    var ask := AskReasoner(incident, attempt, Feedback(db, incident.id));
    match ReasonAboutIncident(incident, reply)
    case Ok(plan) =>
      Projections([ask], [Db(InsertPlan(plan))]);
      (Ok(plan), [ask] + [Db(InsertPlan(plan))])
    case Err(e) => (Err(e), [ask])
  }

  /** Exactly one plan is added per successful call, none when reasoning
      fails, and no other table changes. */
  lemma PlanRepairStoresPlan(db: Db, incident: IncidentRecord, attempt: int, reply: Reply)
    ensures var r := PlanRepair(db, incident, attempt, reply);
            var db' := db + Writes(r.1);
            && Plans(db') == Plans(db) + (if r.0.Ok? then [r.0.value] else [])
            && Events(db') == Events(db) && Rewards(db') == Rewards(db) && Validations(db') == Validations(db)
            && Snapshots(db') == Snapshots(db)
  {
    var r := PlanRepair(db, incident, attempt, reply);
    AppendOnly(db, Writes(r.1));
    if r.0.Ok? {
      OneWrite(InsertPlan(r.0.value));
    }
  }

  /** `recordReward`: the signal is stored as given. */
  function RecordReward(signal: RewardSignal): (t: Trace)
    ensures Writes(t) == [InsertReward(signal)] && Asks(t) == [] && PrCalls(t) == []
  {
    [Db(InsertReward(signal))]
  }

  lemma RecordRewardAppends(db: Db, signal: RewardSignal)
    ensures Rewards(db + Writes(RecordReward(signal))) == Rewards(db) + [signal]
    ensures Plans(db + Writes(RecordReward(signal))) == Plans(db)
    ensures Validations(db + Writes(RecordReward(signal))) == Validations(db)
  {
    AppendOnly(db, [InsertReward(signal)]);
    assert [InsertReward(signal)][..0] == [];
  }
}
