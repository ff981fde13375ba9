/** The records the pipeline passes between its stages and stores
    (backend/src/types.ts). JavaScript `number` fields that hold counters or
    line numbers are `int`; `confidence` is `real`; an optional or nullable
    field is an `Option`. */
module Types {
  import opened Wrappers

  datatype DependencyKind = Npm | Pypi

  /** The literal each kind is written as. */
  function KindName(k: DependencyKind): string {
    match k
    case Npm => "npm"
    case Pypi => "pypi"
  }

  /** Reads a kind literal back; only "npm" and "pypi" are kinds. */
  function ParseKind(s: string): (r: Option<DependencyKind>)
    ensures r.Some? <==> s == "npm" || s == "pypi"
    ensures r.Some? ==> KindName(r.value) == s
  {
    if s == "npm" then Some(Npm) else if s == "pypi" then Some(Pypi) else None
  }

  lemma KindNameRoundTrip(k: DependencyKind)
    ensures ParseKind(KindName(k)) == Some(k)
  {
  }

  datatype DependencyUpdate = DependencyUpdate(
    name: string,
    currentVersion: string,
    latestVersion: string,
    kind: DependencyKind,
    manifestPath: string)

  datatype Status = Detected | Analyzing | Patching | Validating | Fixed | Failed {
    predicate IsTerminal() {
      this == Fixed || this == Failed
    }
  }

  /** The literal a status is stored as in the `status` column. */
  function StatusName(s: Status): string {
    match s
    case Detected => "DETECTED"
    case Analyzing => "ANALYZING"
    case Patching => "PATCHING"
    case Validating => "VALIDATING"
    case Fixed => "FIXED"
    case Failed => "FAILED"
  }

  /** Reads a status literal back: exactly six literals are statuses. */
  function ParseStatus(s: string): (r: Option<Status>)
    ensures r.Some? <==> s in {"DETECTED", "ANALYZING", "PATCHING", "VALIDATING", "FIXED", "FAILED"}
    ensures r.Some? ==> StatusName(r.value) == s
  {
    if s == "DETECTED" then Some(Detected)
    else if s == "ANALYZING" then Some(Analyzing)
    else if s == "PATCHING" then Some(Patching)
    else if s == "VALIDATING" then Some(Validating)
    else if s == "FIXED" then Some(Fixed)
    else if s == "FAILED" then Some(Failed)
    else None
  }

  lemma StatusNameRoundTrip(s: Status)
    ensures ParseStatus(StatusName(s)) == Some(s)
  {
  }

  datatype IncidentRecord = IncidentRecord(
    id: string,
    dependency: DependencyUpdate,
    stacktrace: string,
    file: Option<string>,
    line: Option<int>,
    api: Option<string>,
    command: string,
    exitCode: Option<int>,
    stdout: string,
    stderr: string,
    createdAt: string,
    status: Status)

  datatype FilePatch = FilePatch(path: string, instructions: string, patch: string)

  datatype RepairPlan = RepairPlan(
    incidentId: string,
    summary: string,
    confidence: real,
    rationale: string,
    patchset: seq<FilePatch>)

  datatype ValidationResult = ValidationResult(
    incidentId: string,
    success: bool,
    stdout: string,
    stderr: string,
    exitCode: Option<int>,
    newErrors: Option<string>)

  /** `reward` is any number as far as the type goes; only its producer keeps
      it to 0 or 1. */
  datatype RewardSignal = RewardSignal(incidentId: string, attempt: int, reward: int)
}
