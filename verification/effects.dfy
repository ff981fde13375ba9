/** The pipeline's effect log: every database write and every call to a
    collaborator, in the order the pipeline makes them. The database of
    backend/src/db.ts is the projection of this log onto its writes. */
module Effects {
  import opened Wrappers
  import opened Types
  import opened Store
  import opened Seqs
  import Dispatch
  import Reporting

  datatype Effect =
    | Db(write: Write)
    | AskReasoner(incident: IncidentRecord, attempt: int, reward: Option<int>)
    | SandboxRun(command: string)
    | DispatchCall(plan: RepairPlan)  // the call of `dispatchCline`; its patch steps follow
    | Patch(patchStep: Dispatch.Step)
    | PrCall(incidentId: string, plan: RepairPlan, validation: ValidationResult)  // the call of `openPullRequest`
    | Pr(prStep: Reporting.PrStep)
    | Dashboard(notice: Reporting.Notice)

  type Trace = seq<Effect>

  function WriteOf(e: Effect): Option<Write> {
    if e.Db? then Some(e.write) else None
  }

  function AskOf(e: Effect): Option<(int, Option<int>)> {
    if e.AskReasoner? then Some((e.attempt, e.reward)) else None
  }

  function PrCallOf(e: Effect): Option<(RepairPlan, ValidationResult)> {
    if e.PrCall? then Some((e.plan, e.validation)) else None
  }

  /** The database writes of a trace, in order. */
  function Writes(t: Trace): seq<Write> {
    FilterMap(t, WriteOf)
  }

  /** The (attempt, feedback reward) of every request to the reasoner. */
  function Asks(t: Trace): seq<(int, Option<int>)> {
    FilterMap(t, AskOf)
  }

  /** The (plan, validation) of every call to `openPullRequest`. */
  function PrCalls(t: Trace): seq<(RepairPlan, ValidationResult)> {
    FilterMap(t, PrCallOf)
  }

  /** Every projection of a trace splits along a split of the trace. */
  lemma Projections(a: Trace, b: Trace)
    ensures Writes(a + b) == Writes(a) + Writes(b)
    ensures Asks(a + b) == Asks(a) + Asks(b)
    ensures PrCalls(a + b) == PrCalls(a) + PrCalls(b)
  {
    FilterMapAppend(a, b, WriteOf);
    FilterMapAppend(a, b, AskOf);
    FilterMapAppend(a, b, PrCallOf);
  }

  /** A single effect, as each projection sees it. */
  lemma Single(e: Effect)
    ensures Writes([e]) == (if e.Db? then [e.write] else [])
    ensures Asks([e]) == (if e.AskReasoner? then [(e.attempt, e.reward)] else [])
    ensures PrCalls([e]) == (if e.PrCall? then [(e.plan, e.validation)] else [])
  {
    assert [e][..0] == [];
  }

  /** The patch steps of a dispatch, as effects. */
  function PatchEffects(steps: seq<Dispatch.Step>): (t: Trace)
    ensures |t| == |steps| && forall i :: 0 <= i < |t| ==> t[i] == Patch(steps[i])
    ensures Writes(t) == [] && Asks(t) == [] && PrCalls(t) == []
  {
    var t := seq(|steps|, i requires 0 <= i < |steps| => Patch(steps[i]));
    FilterMapNone(t, WriteOf);
    FilterMapNone(t, AskOf);
    FilterMapNone(t, PrCallOf);
    t
  }

  /** The git and GitHub steps of a pull request, as effects. */
  function PrEffects(steps: seq<Reporting.PrStep>): (t: Trace)
    ensures |t| == |steps| && forall i :: 0 <= i < |t| ==> t[i] == Pr(steps[i])
    ensures Writes(t) == [] && Asks(t) == [] && PrCalls(t) == []
  {
    var t := seq(|steps|, i requires 0 <= i < |steps| => Pr(steps[i]));
    FilterMapNone(t, WriteOf);
    FilterMapNone(t, AskOf);
    FilterMapNone(t, PrCallOf);
    t
  }
}
