# Dependency doctor backend, modelled in Dafny

The backend finds outdated npm and PyPI dependencies and tries each upgrade in a
docker sandbox. For every upgrade that crashes it opens an incident. An incident
job then loops:

1. ask a reasoning model for a repair plan, fed back the reward of the last try;
2. send each patch to a remote agent, or apply it locally with `patch`;
3. run the sandbox again, store the verdict and record a reward of 1 or 0.

A pass marks the incident FIXED and opens a pull request. Running out of
attempts marks it FAILED. Every stage is stored in SQLite, and an HTTP server
with a bearer-token gate exposes the incidents and events.

## How the model is built

- **Values.** `Types` holds the records of `backend/src/types.ts`. Strings are
  `seq<char>`. Statuses and dependency kinds are datatypes with their literal
  spellings.
- **The database** (`Store`) is the list of writes made so far, oldest first.
  Each table is a replay of that list:
  - the incidents table is keyed by id, with `ON CONFLICT DO UPDATE`;
  - events, plans, validations and rewards are append-only;
  - `latestReward` and both listing queries are read from the replay.
- **Effects** (`Effects`). Every operation returns its result together with a
  trace of effects: database writes, requests to the reasoner, sandbox runs,
  patch steps, pull-request steps and dashboard notices. The properties are
  stated on projections of that trace. For example, the requests to the
  reasoner with the feedback each one carried, or the statuses upserted in order.
  `Workflows.Milestones` keeps the kind of every effect but the individual patch
  and git steps, and states the order of a whole job.
- **Dashboard notices cannot fail.** `pushToDashboard`
  (`backend/src/services/reporting.ts:69-75`) catches and logs every failure of
  its post. So a notice is a `Dashboard` effect with no failure path, and the
  job goes on after it whatever became of the post.
- **The outside world is a parameter.** These all arrive as inputs:
  - the registry answers;
  - the docker run's outcome;
  - the reasoner's HTTP reply, with its JSON already parsed;
  - the remote agent and `patch` verdicts;
  - git and GitHub outcomes;
  - the fresh incident id and the clock.

  The `path:line` and `deprecated <api>` regexes are matcher functions
  (`Sandbox.Matchers`).
- **The jobs** (`Workflows`) take their collaborators as a `Services` record
  with a contract (`Honest`). `Backend` plugs in this model's own functions, and
  `Workflows.BackendHonest` proves it keeps the contract. The loop of
  `handleIncidentJob` is proved one turn at a time (`Progress`, `Advance`,
  `Finish`, `Exhaust`) against `JobDone`. `JobDone` states:
  - the numbering of attempts;
  - that only the last attempt can pass;
  - the status sequence;
  - the single pull request and `fixed` event on FIXED, and the `failed`
    event exactly when the attempts ran out;
  - the feedback chain;
  - one stored reward per validated attempt, 1 or 0 as it passed;
  - the order of the effects, one round per validated attempt and then how
    the job ended (`Outlined`).

  Alongside `JobDone`, `JobFollows` ties how the job ended to the answers of
  each attempt (`AttemptFollows`): the reasoner's reply, the dispatch's
  outcome, the sandbox run and the pull request's outcome.

  The loop of `handleDetectionJob` is stated round by round (`RoundDone`):
  each crash is stored, announced and followed by its incident job from
  attempt 1, which keeps `JobDone` on the database the earlier rounds left.
- **Semantic versions** (`SemVer`) cover the numeric core `MAJOR.MINOR.PATCH`
  of Semantic Versioning 2.0.0 (section 2 for the format, section 11 for
  precedence), with the npm `semver` package's limits of 256 characters per
  version string and `Number.MAX_SAFE_INTEGER` per component.

Behaviour of the code that the model keeps as written:

- `parseStack` returns the first match over all non-empty lines, not only over
  the 25 lines kept as the stack (`Sandbox.ScanCoversWholeOutput`).
- `parseStack` never returns null. So `parseStack(stderr) || parseStack(stdout)`
  never looks at stdout, and the `?? stderr` fallback for an incident's stack
  trace is never taken (`Sandbox.EvidenceIgnoresStdout`,
  `Detection.IncidentStackFromStderr`).
- A planning or dispatch error thrown inside the incident loop leaves the job.
  No FAILED status is written and no further attempt is made: `JobEnd.Aborted`.
  The detection job stops at such an error too.
- `latestReward` orders by attempt only. Among rows with equal attempt numbers
  SQLite's choice is unspecified; the model keeps the earliest-stored one, and
  its contract does not depend on which.

## Model

| member | source | states |
|---|---|---|
| Auth.Gate | backend/src/index.ts:11-18 | a request passes exactly when no API token is configured or its Authorization header is exactly `Bearer <token>`; every other request gets 401 `unauthorized` |
| Auth.MissingHeaderRejected | backend/src/index.ts:13-16 | with a token set, a request without the header is refused with 401 |
| Auth.BareTokenRejected | backend/src/index.ts:13-16 | the token without the `Bearer ` scheme is refused |
| Auth.ExtendedHeaderRejected | backend/src/index.ts:13-16 | the comparison is exact: trailing text after the expected header is refused |
| Auth.OnlyOneKey | backend/src/index.ts:13-16 | with a token set, any two accepted headers are equal and begin with `Bearer ` |
| Auth.OpenWithoutToken | backend/src/index.ts:12 | with no token configured, any header or none passes |
| Types.ParseKind | backend/src/types.ts:1 | exactly `npm` and `pypi` are kinds, each reading back to its own spelling |
| Types.KindNameRoundTrip | backend/src/types.ts:1 | every kind's literal reads back to that kind |
| Types.ParseStatus | backend/src/types.ts:23 | exactly the six status literals are statuses, each reading back to its own spelling |
| Types.StatusNameRoundTrip | backend/src/types.ts:23 | every status's stored literal reads back to that status |
| SemVer.DigitChar | backend/src/services/detection.ts:40 | the digit character chosen for a value below ten denotes that value |
| SemVer.Decimal | backend/src/services/detection.ts:40 | the decimal spelling of a number is a numeric identifier without leading zeros and holds no dot |
| SemVer.ValueOfDecimal | backend/src/services/detection.ts:40 | reading a number's decimal spelling gives the number back |
| SemVer.LeadingNonZeroIsPositive | backend/src/services/detection.ts:40 | a digit run starting with a non-zero digit denotes a positive number |
| SemVer.DecimalValueOf | backend/src/services/detection.ts:40 | a numeric identifier is the decimal spelling of its value, so spellings and numbers correspond one to one |
| SemVer.Parse | backend/src/services/detection.ts:40 | a version is accepted only from a string of at most 256 characters, with every component at most `Number.MAX_SAFE_INTEGER` |
| SemVer.DecimalLength | backend/src/services/detection.ts:40 | a number below 10^k is spelled with at most k digits |
| SemVer.FormatLength | backend/src/services/detection.ts:40 | the spelling of a version in range fits the 256-character limit |
| SemVer.UnsafeComponentRejected | backend/src/services/detection.ts:40 | a component above the largest safe integer makes the spelling invalid and every comparison with it throw |
| SemVer.ParseFormat | backend/src/services/detection.ts:40 | every version with components up to the largest safe integer has a canonical spelling that is valid and parses back to the version |
| SemVer.FormatParse | backend/src/services/detection.ts:40 | every valid version string is the canonical spelling of what it parses to |
| SemVer.Lt | backend/src/services/detection.ts:87-88 | `semver.lt` throws (None) exactly when either side is invalid, including too long or out-of-range versions, and otherwise answers precedence on major, minor, patch |
| SemVer.LtIrreflexive | backend/src/services/detection.ts:87-88 | no valid version is lower than itself |
| SemVer.LtAsymmetric | backend/src/services/detection.ts:87-88 | if a is lower than b, b is not lower than a |
| SemVer.LtTransitive | backend/src/services/detection.ts:87-88 | lower-than is transitive |
| SemVer.LtTotal | backend/src/services/detection.ts:87-88 | any two distinct valid versions are ordered one way or the other |
| SemVer.UpgradeExamples | backend/src/services/detection.ts:87-88 | 1.2.0 is lower than 1.3.0 and not lower than 1.1.0 |
| Strings.TrimStart | backend/src/services/detection.ts:46 | the result is a suffix, everything dropped is whitespace, and it does not start with whitespace |
| Strings.TrimEnd | backend/src/services/detection.ts:46 | the result is a prefix, everything dropped is whitespace, and it does not end with whitespace |
| Strings.Trim | backend/src/services/detection.ts:46 | `trim()` gives the infix between the leading and trailing whitespace runs, and it neither starts nor ends with whitespace |
| Strings.IndexFrom | backend/src/services/detection.ts:49 | a position found from k is an occurrence at or after k |
| Strings.IndexFromFirst | backend/src/services/detection.ts:49 | the search from k finds the first occurrence at or after k, and none means there is none |
| Strings.IndexOf | backend/src/services/detection.ts:49 | `indexOf` answers an occurrence |
| Strings.IndexOfFirst | backend/src/services/detection.ts:49 | `indexOf` answers the first occurrence, and none exactly when the pattern does not occur |
| Strings.OccurrenceInPrefix | backend/src/services/detection.ts:49 | an occurrence inside a prefix is an occurrence in the whole string |
| Strings.Split | backend/src/services/detection.ts:49 | `split` with a non-empty separator yields at least one piece |
| Strings.SplitAtFirst | backend/src/services/detection.ts:49 | the first piece is the text before the first separator, and the rest is the split of what follows it |
| Strings.SplitSecond | backend/src/services/reporting.ts:30 | the first two pieces are the text before the first separator and the text between the first and second |
| Strings.PieceLayout | backend/src/services/reporting.ts:30 | a separator at i followed by v makes the string start with its first i characters, the separator and v |
| Strings.ContainsChar | backend/src/services/reporting.ts:30 | a one-character pattern occurs exactly when the character is in the string |
| Strings.SplitPieces | backend/src/services/detection.ts:49 | no piece of a split contains the separator |
| Strings.JoinSplit | backend/src/services/sandbox.ts:92-93 | joining the pieces of a split with the same separator restores the string |
| Strings.CharOccurrence | backend/src/services/reporting.ts:30 | a one-character pattern occurs exactly where that character stands |
| Strings.NotContainsChar | backend/src/services/reporting.ts:30 | a string without the one-character pattern does not hold the character |
| Strings.SplitJoin | backend/src/services/sandbox.ts:92-93 | splitting a join of separator-free pieces gives the pieces back |
| Seqs.FilterMap | backend/src/services/sandbox.ts:92 | keeping the mapped elements never lengthens a sequence |
| Seqs.FilterMapAppend | backend/src/services/sandbox.ts:92 | filtering distributes over concatenation |
| Seqs.FilterMapNone | backend/src/services/sandbox.ts:92 | a sequence none of whose elements is kept filters to empty |
| Seqs.RepeatSnoc | backend/src/services/workflows.ts:33-60 | one more copy of the block appended gives one more repetition |
| Store.IndexOfId | backend/src/db.ts:45 | the position found holds the id, and none means no row has it |
| Store.Upsert | backend/src/db.ts:41-52 | ids stay unique; the id's row becomes the upserted one; every other id's row is unchanged; the table grows by one exactly for a new id |
| Store.LookupByIndex | backend/src/db.ts:45 | with unique ids, any row holding the id is the row looked up |
| Store.ReplaceKeepsOtherIds | backend/src/db.ts:45 | replacing a row in place leaves other ids' rows alone |
| Store.NotFoundIsNone | backend/src/db.ts:45 | an id no row holds is not found |
| Store.Table | backend/src/db.ts:8-15 | the replayed incidents table never holds an id twice |
| Store.UpsertKeepsFirstCreatedAt | backend/src/db.ts:41-52 | an upsert sets payload and status, keeps the created_at of the first insert, and leaves every other incident's row alone |
| Store.OtherWritesKeepTable | backend/src/db.ts:53-103 | inserting events, plans, validations or rewards leaves the incidents table unchanged |
| Store.Events | backend/src/db.ts:53-62 | there are never more events than writes |
| Store.AppendOnly | backend/src/db.ts:53-103 | later writes only append to the events, plans, validations, rewards and incident-snapshot histories |
| Store.EventsAppend | backend/src/db.ts:53-62 | the events of two stretches of writes are the first's then the second's |
| Store.PlansAppend | backend/src/db.ts:76-84 | the plans of two stretches of writes are the first's then the second's |
| Store.ValidationsAppend | backend/src/db.ts:85-93 | the validations of two stretches of writes are the first's then the second's |
| Store.RewardsAppend | backend/src/db.ts:94-103 | the rewards of two stretches of writes are the first's then the second's |
| Store.SnapshotsAppend | backend/src/db.ts:41-52 | the upserted records of two stretches of writes are the first's then the second's |
| Store.OneWrite | backend/src/db.ts:41-103 | each write lands in its own table and in no other |
| Store.ListEvents | backend/src/db.ts:63-75 | `listEvents(limit)` returns min(limit, count) events, newest first: the i-th is the i-th from the end of the insertion order |
| Store.LatestOfSpec | backend/src/db.ts:104-116 | the pick is absent exactly when the incident has no reward row; otherwise it is one of its rows with the greatest attempt |
| Store.LatestRewardSpec | backend/src/db.ts:104-116 | `latestReward(id)` is null exactly when no reward of the incident is stored; otherwise it is a stored reward of the incident whose attempt no other of its rewards exceeds |
| Store.TextLeTotal | backend/src/db.ts:119 | any two created_at texts are comparable |
| Store.InsertNewestFirst | backend/src/db.ts:119 | inserting into a newest-first list keeps it newest first and adds exactly that row |
| Store.SortNewestFirst | backend/src/db.ts:119 | the sort orders by created_at descending and is a permutation of its input |
| Store.ListIncidentRows | backend/src/db.ts:117-122 | `listIncidents` reads min(200, n) distinct incident rows, newest first; all of them when there are at most 200 |
| Store.ListIncidentRowsNewest | backend/src/db.ts:119 | the page holds the newest incidents: any incident left off it was created no later than every listed one |
| Store.TextLeTransitive | backend/src/db.ts:119 | the created_at text order is transitive |
| Store.NewestFirstOrdered | backend/src/db.ts:119 | in a newest-first list every row is created no later than every row before it |
| Store.ListIncidents | backend/src/db.ts:117-122 | the listing is the stored payload of each row read, in that order |
| Effects.Projections | backend/src/services/workflows.ts:23-66 | writes, reasoner requests and pull-request calls of a trace split along a split of the trace |
| Effects.Single | backend/src/services/workflows.ts:23-66 | one effect is seen by exactly the projection of its kind |
| Effects.PatchEffects | backend/src/services/clineClient.ts:30-48 | the patch steps become effects one for one and write nothing to the database |
| Effects.PrEffects | backend/src/services/reporting.ts:14-67 | the git and GitHub steps become effects one for one and write nothing to the database |
| Sandbox.SeparatorInLongerSuffix | backend/src/services/sandbox.ts:20-25 | of two cuts of one string at `c`, the longer right-hand side contains a `c` |
| Sandbox.CutAtLast | backend/src/services/sandbox.ts:20-25 | cuts at the last `c` of one string agree on both sides |
| Sandbox.InstallCommandInjective | backend/src/services/sandbox.ts:20-25 | for versions without `@` or `=`, the install command determines kind, package and version |
| Sandbox.FirstHit | backend/src/services/sandbox.ts:94-107 | the index found is of the first line either matcher reads; none means no line matches |
| Sandbox.ScanIsFirstHit | backend/src/services/sandbox.ts:94-107 | the parse's verdict is the evidence of the first matching line, a path:line match taking priority on that line |
| Sandbox.NonEmpty | backend/src/services/sandbox.ts:92 | `filter(Boolean)` keeps only non-empty lines, drawn from the input |
| Sandbox.NonEmptyMembers | backend/src/services/sandbox.ts:92 | a string is kept exactly when it is in the input and non-empty |
| Sandbox.NonEmptyAppend | backend/src/services/sandbox.ts:92 | filtering keeps order: the kept lines of two stretches are the first's then the second's |
| Sandbox.OutputLines | backend/src/services/sandbox.ts:92 | the lines are non-empty and hold no newline |
| Sandbox.OutputLinesMembers | backend/src/services/sandbox.ts:92 | the lines are exactly the non-empty pieces of the output split at newlines |
| Sandbox.Tail | backend/src/services/sandbox.ts:93 | `slice(-n)` is the last n elements, or all of them when fewer |
| Sandbox.ParseStack | backend/src/services/sandbox.ts:89-109 | always an object; file and line come together; an api excludes a file; a file and line exactly when the scan finds a path:line first, and then they are that match's; an api exactly when it finds a deprecation first, and then it is that match's |
| Sandbox.StackIsTail | backend/src/services/sandbox.ts:92-93 | the stack splits back into exactly the last (at most 25) non-empty lines |
| Sandbox.ScanCoversWholeOutput | backend/src/services/sandbox.ts:92-107 | a path:line on the first of more than 25 lines is still reported, though that line is not in the stack |
| Sandbox.EvidenceIgnoresStdout | backend/src/services/sandbox.ts:74 | the crash evidence is the parse of stderr, whatever stdout holds |
| Sandbox.RunSandbox | backend/src/services/sandbox.ts:27-87 | the command is install then project command; crashed exactly when docker threw; a clean run's outputs are passed through with no evidence; a crash's missing outputs read as empty, its exit code as given, and its evidence is the parse of stderr |
| Detection.StripVersionPrefix | backend/src/services/detection.ts:35 | the cleaned version is never longer than the raw one |
| Detection.StripVersionPrefixDropsNonDigits | backend/src/services/detection.ts:35 | the cleanup removes exactly the leading run of non-digits, leaving a suffix that is empty or starts with a digit |
| Detection.StripVersionPrefixExamples | backend/src/services/detection.ts:35 | `^1.2.3` and `~1.2.3` become `1.2.3`, and cleaning twice is cleaning once |
| Detection.GetFound | backend/src/services/detection.ts:31 | a property found is an entry of the object; none exactly when no entry has the key |
| Detection.GetDistinct | backend/src/services/detection.ts:31 | with distinct keys, each entry's key reads its own value |
| Detection.IndexOfKey | backend/src/services/detection.ts:31 | the index found holds the key; none means no entry has it |
| Detection.Assign | backend/src/services/detection.ts:31 | assigning a property sets that key, keeps every other key's value and keeps keys distinct |
| Detection.AssignKeepsOthers | backend/src/services/detection.ts:31 | overwriting one entry's value leaves other keys' values alone |
| Detection.Spread | backend/src/services/detection.ts:31 | after the spread each key has the source's value if the source has it, and the target's otherwise |
| Detection.MergedDependencies | backend/src/services/detection.ts:31 | a devDependency overrides a dependency of the same name; every other name keeps its value |
| Detection.NpmFromEntries | backend/src/services/detection.ts:32-40 | at most one update per entry |
| Detection.NpmFromEntriesMembers | backend/src/services/detection.ts:32-40 | over distinct keys, an update is produced exactly for a key whose cleaned version is valid, with that key's value |
| Detection.NpmFromEntriesSnoc | backend/src/services/detection.ts:32-40 | adding an entry adds its update exactly when its cleaned version is valid |
| Detection.NpmFromEntriesAppend | backend/src/services/detection.ts:32-40 | the entries become updates one by one in order: the updates of two runs of entries are those of the first, then those of the second |
| Detection.NpmFromEntriesLast | backend/src/services/detection.ts:32-40 | the last entry is taken on its own, after the ones before it |
| Detection.NpmFromEntriesOne | backend/src/services/detection.ts:32-40 | one entry gives its npm update exactly when the cleaned version is valid, and nothing otherwise |
| Detection.DistinctKeysLast | backend/src/services/detection.ts:31 | with distinct keys, the last entry's key occurs nowhere before it |
| Detection.DistinctKeysPrefix | backend/src/services/detection.ts:31 | a prefix of an object with distinct keys has distinct keys |
| Detection.GetMissing | backend/src/services/detection.ts:31 | a key no entry has reads as missing |
| Detection.ParseNpmDependencies | backend/src/services/detection.ts:29-41 | an update is produced exactly for each merged name whose cleaned version is valid, as the npm entry for that name's merged value |
| Detection.NpmEntryShape | backend/src/services/detection.ts:33-39 | an npm update has kind npm, its manifest, an empty latest version, and the cleaned devDependency version when there is one, else the cleaned dependency version |
| Detection.RequirementLines | backend/src/services/detection.ts:44-47 | the kept lines are exactly the trimmed raw lines that are non-empty, not comments and hold `==`, at most one per raw line |
| Detection.RequirementLinesAppend | backend/src/services/detection.ts:44-47 | the lines are read one by one in order: the kept lines of two runs of raw lines are those of the first, then those of the second |
| Detection.RequirementLinesOne | backend/src/services/detection.ts:44-47 | one raw line gives its trimmed text exactly when that is a requirement line, and nothing otherwise |
| Detection.RequirementLinesFirst | backend/src/services/detection.ts:44-47 | the first raw line is read on its own, before the rest |
| Detection.RequirementEntry | backend/src/services/detection.ts:48-57 | a requirement line gives a pypi update of its manifest with an empty latest version |
| Detection.RequirementEntryParts | backend/src/services/detection.ts:49 | the name is the text before the first `==`, the version the text up to the next `==` or the end; neither holds `==` |
| Detection.RequirementEntryPieces | backend/src/services/detection.ts:49 | neither the name nor the version of a requirement holds `==` |
| Detection.RequirementEntryLayout | backend/src/services/detection.ts:49 | the line starts with name `==` version, followed by the end or another `==` |
| Detection.RequirementEntries | backend/src/services/detection.ts:48-58 | an update is produced exactly for each line whose version is valid, as that line's entry, at most one per line |
| Detection.RequirementEntriesAppend | backend/src/services/detection.ts:48-58 | the lines become updates one by one in order: the updates of two runs of lines are those of the first, then those of the second |
| Detection.RequirementEntriesOne | backend/src/services/detection.ts:48-58 | one line gives its entry exactly when its version is valid, and nothing otherwise |
| Detection.RequirementEntriesFirst | backend/src/services/detection.ts:48-58 | the first line is taken on its own, before the rest |
| Detection.ParsePythonRequirements | backend/src/services/detection.ts:43-59 | the updates are exactly the valid entries of the kept lines of the file, each a pypi update of its manifest with an empty latest version |
| Detection.UpgradeOf | backend/src/services/detection.ts:80-93 | a dependency yields an update exactly when the registry answered a non-empty latest version strictly higher than the current one, and the update carries that version; a failed lookup yields nothing |
| Detection.NoUpgradeUnlessNewer | backend/src/services/detection.ts:86-88 | an equal or older latest version yields no update |
| Detection.UpgradeExamples | backend/src/services/detection.ts:86-88 | 1.2.0 with 1.3.0 available is upgraded; with 1.1.0 it is not |
| Detection.Kept | backend/src/services/detection.ts:80-93 | the kept indices are indices of the dependencies |
| Detection.KeptAscending | backend/src/services/detection.ts:80-93 | the kept indices ascend strictly, so the order of dependencies is kept |
| Detection.KeptMembers | backend/src/services/detection.ts:80-93 | a dependency is kept exactly when its lookup yields an upgrade |
| Detection.SelectIsSubsequence | backend/src/services/detection.ts:80-93 | the j-th result is the upgrade of the j-th kept dependency |
| Detection.DetectUpdates | backend/src/services/detection.ts:79-94 | the loop over the dependencies returns exactly the upgrades `Select` defines, in order |
| Detection.SelectOnlyUpgrades | backend/src/services/detection.ts:86-88 | every update selected names a non-empty latest version strictly above its current one |
| Detection.SimulateUpgrade | backend/src/services/detection.ts:97-119 | no incident exactly when the sandbox run exits cleanly; otherwise a DETECTED incident under the fresh id and time, carrying the update and the sandbox's command, outputs and evidence |
| Detection.IncidentStackFromStderr | backend/src/services/detection.ts:106 | an incident's stack trace is always the parse of stderr, never the raw stderr fallback |
| Detection.SingleLineOutput | backend/src/services/sandbox.ts:92 | output without a newline is one line |
| Detection.OneLineCrash | backend/src/services/detection.ts:97-119 | a crash whose stderr is one path:line line yields an incident with that file and line, no api, and that line as its stack |
| Detection.OneLineStack | backend/src/services/sandbox.ts:89-109 | a one-line output read as path:line parses to that line with its file and line |
| Reasoner.ParsePatch | backend/src/services/oumiClient.ts:21-25 | a patch object is accepted exactly when path, instructions and patch are strings, and its fields are those strings |
| Reasoner.ParsePatches | backend/src/services/oumiClient.ts:19-27 | an array is accepted exactly when every element is a patch object, giving one patch per element in order |
| Reasoner.ParsePlan | backend/src/services/oumiClient.ts:15-28 | accepted exactly when the schema holds; the fields are the reply's; confidence lies in [0, 1] and the patchset is non-empty |
| Reasoner.EncodePatchMembers | backend/src/services/oumiClient.ts:21-25 | an encoded patch carries its three fields |
| Reasoner.EncodePlanMembers | backend/src/services/oumiClient.ts:15-28 | an encoded plan carries its four fields |
| Reasoner.ParseEncodePlan | backend/src/services/oumiClient.ts:15-28 | every plan with confidence in [0, 1] and a patch survives the schema unchanged |
| Reasoner.UnknownKeyIgnored | backend/src/services/oumiClient.ts:15-28 | a key outside the schema is stripped, not rejected |
| Reasoner.ConfidenceOutOfRangeRejected | backend/src/services/oumiClient.ts:17 | a confidence outside [0, 1] is rejected |
| Reasoner.EmptyPatchsetRejected | backend/src/services/oumiClient.ts:27 | an empty patchset is rejected |
| Reasoner.AuthorizationHeader | backend/src/services/oumiClient.ts:52-55 | the header is sent exactly when the trimmed key is non-empty, carrying the untrimmed key |
| Reasoner.ReasonAboutIncident | backend/src/services/oumiClient.ts:30-74 | a plan exactly when the reply has non-empty content that parses and passes the schema; a failed post and empty content are the errors they are; the plan is filed under the incident's id with the accepted fields |
| Reasoner.PlanIgnoresReplyIncidentId | backend/src/services/oumiClient.ts:65-71 | whatever incident id the reply names, the plan is filed under the incident's own |
| Planner.FeedbackSpec | backend/src/services/repairPlanner.ts:10 | feedback is absent exactly when the incident has no stored reward; otherwise it is the reward of a stored row of the incident with the greatest attempt |
| Planner.PlanRepair | backend/src/services/repairPlanner.ts:6-14 | the plan is what the reasoner gives; it is asked once, with the stored feedback; the plan is stored exactly when there is one |
| Planner.PlanRepairStoresPlan | backend/src/services/repairPlanner.ts:6-14 | a successful call appends exactly its plan, a failed one nothing, and no other table changes |
| Planner.RecordReward | backend/src/services/repairPlanner.ts:16-19 | recording stores the signal as given and does nothing else |
| Planner.RecordRewardAppends | backend/src/services/repairPlanner.ts:16-19 | the reward table gains exactly the signal; plans and validations do not change |
| Validation.RewardFor | backend/src/services/validation.ts:21 | the reward is 1 for a pass, 0 for a failure, and nothing else |
| Validation.ValidatePatch | backend/src/services/validation.ts:7-25 | the run is the incident's own update again; success exactly when it exits cleanly; new errors exactly on failure, as stderr's stack; the outputs are the sandbox's; it stores the verdict then the reward for that attempt |
| Validation.ValidationLog | backend/src/services/validation.ts:11-22 | the sandbox run, then the verdict, then the reward, with no request or pull request |
| Validation.VerdictWrites | backend/src/services/validation.ts:20-22 | the validation and reward tables grow by the verdict and signal, and the others do not change |
| Validation.ValidationAppends | backend/src/services/validation.ts:7-25 | one validation and one reward for this attempt are appended, and nothing else changes |
| Validation.ValidationRewardIsLatest | backend/src/services/validation.ts:21-22 | once every earlier reward of the incident has a lower attempt, this validation's reward is the latest one |
| Dispatch.PerformAppend | backend/src/services/clineClient.ts:9-28 | performing two stretches of steps is performing one after the other |
| Dispatch.ApplyLocally | backend/src/services/clineClient.ts:9-28 | writes the temp file and dry-runs it first; applies only after a clean dry run; already-applied exactly on the reversed-patch message; rejected exactly on any other dry-run failure; errors are labelled with the plan entry's path |
| Dispatch.ApplyLocallyFiles | backend/src/services/clineClient.ts:10-27 | the temp file is left holding the patch exactly when the dry run rejects it, and is removed otherwise |
| Dispatch.DispatchFrom | backend/src/services/clineClient.ts:31-47 | a completed dispatch reports one outcome per remaining patch |
| Dispatch.DispatchOutcome | backend/src/services/clineClient.ts:32-46 | a patch whose post succeeded is sent remotely and not applied; otherwise its outcome is the local application's |
| Dispatch.DispatchCline | backend/src/services/clineClient.ts:30-48 | one outcome per patch of the plan: remote exactly when its post succeeded |
| Dispatch.PostsAppend | backend/src/services/clineClient.ts:34-41 | the missions posted by two stretches of steps are the first's then the second's |
| Dispatch.LocalStepsPostNothing | backend/src/services/clineClient.ts:9-28 | a local application posts no mission |
| Dispatch.NoPostsNoMissions | backend/src/services/clineClient.ts:34-41 | steps without a post post nothing |
| Dispatch.Missions | backend/src/services/clineClient.ts:37 | one mission text per patch, in order |
| Dispatch.MissionsCons | backend/src/services/clineClient.ts:37 | the missions of a slice are its first patch's then the rest's |
| Dispatch.DispatchPostsAll | backend/src/services/clineClient.ts:31-47 | a completed dispatch posted every patch's mission, in patchset order |
| Dispatch.DispatchStopsAtFailure | backend/src/services/clineClient.ts:31-47 | a failed dispatch posted exactly the patches up to a failing one whose post failed and whose local application failed |
| Dispatch.PostsStep | backend/src/services/clineClient.ts:31-47 | in a failed dispatch each patch is posted, and then either it is the one that failed or the failure lies further on |
| Dispatch.DispatchTempFile | backend/src/services/clineClient.ts:9-48 | no file but the temp file is touched; a completed dispatch leaves it as found or removed; a failed one leaves it exactly when the dry run rejected the patch |
| Reporting.BranchName | backend/src/services/reporting.ts:24 | the branch is `depdoctor/<name>-` followed by the first (at most) six characters of the incident id |
| Reporting.BranchNamesCollide | backend/src/services/reporting.ts:24 | two incidents of one dependency whose ids share six leading characters use the same branch |
| Reporting.RepoOwner | backend/src/services/reporting.ts:30 | the owner holds no `/` and starts the full name |
| Reporting.RepoName | backend/src/services/reporting.ts:30 | the repo is missing exactly when there is no `/`, and otherwise holds no `/` and follows the owner and the first `/` |
| Reporting.RepoNameShape | backend/src/services/reporting.ts:30 | with a `/`, the full name starts with owner `/` repo |
| Reporting.RepoSegmentsRoundTrip | backend/src/services/reporting.ts:30 | `owner/repo` without further slashes splits back into owner and repo |
| Reporting.OpenPullRequest | backend/src/services/reporting.ts:14-67 | nothing at all without credentials; otherwise publish to the derived branch, then create the PR against main with the title, plan summary and verdict, then request the team; fails exactly when publishing or creation fails; at most three steps, and the reviewer request is made exactly when the call succeeds with credentials |
| Reporting.ReviewerFailureSwallowed | backend/src/services/reporting.ts:56-65 | the reviewer request's failure changes neither the result nor the actions |
| Workflows.BackendHonest | backend/src/services/workflows.ts:23-66 | the real planner, validator and simulator keep the contracts the jobs rely on; the planner answers with what the reasoner's reply parses to |
| Workflows.PlanRepairMilestones | backend/src/services/repairPlanner.ts:10-13 | planning asks the reasoner once, then stores the plan exactly when one came back |
| Workflows.ValidatePatchMilestones | backend/src/services/validation.ts:11-22 | validating runs the sandbox, then stores the verdict, then the reward |
| Workflows.VerdictMilestones | backend/src/services/validation.ts:11-22 | the sandbox run, the stored verdict and the stored reward leave their milestones in that order |
| Workflows.Sequenced | backend/src/services/workflows.ts:33-60 | what two stretches of a run leave is what each leaves, in order |
| Workflows.PlanTables | backend/src/services/repairPlanner.ts:12 | planning writes no snapshot, reward, attempt event or detection |
| Workflows.Analyze | backend/src/services/workflows.ts:34-35 | the ANALYZING snapshot comes first; then one request carrying the feedback stored before the attempt; the plan is what the reasoner's reply parses to, and it is stored only when there is one |
| Workflows.AnalyzeTrace | backend/src/services/workflows.ts:34-35 | the snapshot does not change the feedback the planner reads |
| Workflows.SnapshotThen | backend/src/services/workflows.ts:34-38 | a status upsert in front of a stretch adds just that snapshot |
| Workflows.Repair | backend/src/services/workflows.ts:36-37 | the PATCHING snapshot comes first, then the `dispatchCline` call for this plan, then only patch steps; nothing else is written; the result is the dispatch's own |
| Workflows.RepairTrace | backend/src/services/workflows.ts:36-37 | the PATCHING snapshot followed by patch steps leaves only that snapshot |
| Workflows.StepsLeaveNothing | backend/src/services/clineClient.ts:31-47 | patch and git steps write nothing to the database and touch none of the job's records |
| Workflows.DispatchThen | backend/src/services/workflows.ts:37 | the dispatch call before its patch steps adds only the dispatch to the order of effects |
| Workflows.Validate | backend/src/services/workflows.ts:38-51 | the VALIDATING snapshot comes first and the sandbox run of the project command second; the verdict is the validator's, a pass exactly when the run exits cleanly; then the verdict, the reward of 1 or 0 for this attempt, one `attempt` event with its plan and verdict, and last the dashboard notice of this attempt |
| Workflows.ValidateTrace | backend/src/services/workflows.ts:38-51 | the VALIDATING stage leaves its snapshot, attempt event and reward |
| Workflows.ValidationStored | backend/src/services/workflows.ts:38-40 | the VALIDATING snapshot and a stored verdict leave that snapshot and the reward |
| Workflows.VerdictTables | backend/src/services/validation.ts:20-22 | storing a verdict and a reward adds that reward and no snapshot, attempt, detection, `fixed` or `failed` event |
| Workflows.AttemptEventAfter | backend/src/services/workflows.ts:41-45 | the `attempt` event records attempt, plan and validation |
| Workflows.NoticeAfter | backend/src/services/workflows.ts:46-51 | a dashboard notice leaves nothing in the database |
| Workflows.Close | backend/src/services/workflows.ts:52-56 | the FIXED snapshot, then one `fixed` event and then one pull-request call, both for this plan and verdict; the outcome is the pull request's own; the `fixed` notice is the last effect unless the pull request threw |
| Workflows.CloseTrace | backend/src/services/workflows.ts:52-56 | the closing stage leaves the FIXED snapshot, the `fixed` event and the pull-request call |
| Workflows.ClosingHead | backend/src/services/workflows.ts:53-55 | FIXED, then the `fixed` event, then the pull-request call, for this plan and verdict |
| Workflows.AnalyzedThenPatched | backend/src/services/workflows.ts:34-37 | planning then patching leave ANALYZING then PATCHING |
| Workflows.ThenValidated | backend/src/services/workflows.ts:34-51 | a validated attempt leaves ANALYZING, PATCHING, VALIDATING, its request, attempt and reward, and one round of effects in source order |
| Workflows.ThenClosed | backend/src/services/workflows.ts:34-56 | a passing attempt adds FIXED, the `fixed` event and the pull request after its round, and the notice unless the pull request threw |
| Workflows.RunAttempt | backend/src/services/workflows.ts:34-58 | one turn asks once with the current feedback; it stops with the reasoner's error when the reply does not parse to a plan, else with the dispatch's error when dispatching that plan fails, in both cases with its partial statuses, no reward and the effects up to the throw; otherwise the attempt is recorded with that plan, passing exactly when the run exits cleanly, with one round of effects in source order and its reward of 1 or 0; a failed one goes round again, and a pass closes the incident and ends with the pull request's outcome for that plan and verdict |
| Workflows.GiveUp | backend/src/services/workflows.ts:61-65 | giving up writes the FAILED snapshot, then one `failed` event for the incident, and nothing else the job tracks |
| Workflows.Closing | backend/src/services/workflows.ts:52-65 | of the closing statuses only the last can be terminal, and it is exactly for FIXED or FAILED |
| Workflows.RepeatCycleNotTerminal | backend/src/services/workflows.ts:34-38 | the per-attempt statuses are never terminal |
| Workflows.TerminalOnlyLast | backend/src/services/workflows.ts:33-65 | whatever the number of attempts, only the last status written can be FIXED or FAILED, and it is one of them exactly when the job reached FIXED or gave up |
| Workflows.SignalIsLatest | backend/src/services/repairPlanner.ts:10 | a reward newer than every stored one of its incident becomes the feedback |
| Workflows.RetryStoresReward | backend/src/services/workflows.ts:39-40 | a failed attempt changes the rewards only by its own signal |
| Workflows.FeedbackFromRewards | backend/src/services/repairPlanner.ts:10 | feedback depends on the reward table alone |
| Workflows.Start | backend/src/services/workflows.ts:30-32 | the loop starts with nothing done |
| Workflows.AdvanceAttempts | backend/src/services/workflows.ts:58 | a failed attempt extends the consecutive record of failures |
| Workflows.AdvanceAsks | backend/src/services/workflows.ts:35 | the next request carries the right feedback |
| Workflows.AdvanceRewards | backend/src/services/workflows.ts:39-40 | a failed attempt's reward 0 extends the rewards stored by the job |
| Workflows.AdvanceRewardsOver | backend/src/services/workflows.ts:39-40 | the same, for the database a trace leaves |
| Workflows.EmptyTraceReadsDb | backend/src/services/workflows.ts:30-35 | the first attempt reads the database as the job found it |
| Workflows.RetryFacts | backend/src/services/workflows.ts:33-58 | a failed attempt leaves one request, one failing attempt, the three working statuses, a reward of 0 and one round of effects in source order |
| Workflows.Advance | backend/src/services/workflows.ts:33-58 | a failed attempt moves the loop invariant on to the next attempt |
| Workflows.AdvanceRecords | backend/src/services/workflows.ts:33-58 | after a failed attempt the attempts are consecutive failures and the statuses one more cycle |
| Workflows.AdvanceCalls | backend/src/services/workflows.ts:33-58 | after a failed attempt the requests and rewards are extended by one |
| Workflows.AdvanceOrder | backend/src/services/workflows.ts:33-58 | after a failed attempt the effects are one more round and the rewards one more, the 0 of that attempt |
| Workflows.AdvanceTally | backend/src/services/workflows.ts:33-58 | a round and a 0 reward for the next attempt extend the per-attempt tally |
| Workflows.RewardPerAttemptSnoc | backend/src/services/workflows.ts:39-40 | an attempt's reward appended after the earlier ones keeps one reward per attempt |
| Workflows.AdvanceAttemptsOver | backend/src/services/workflows.ts:58 | the same for the attempts of traces |
| Workflows.AdvanceSnapsOver | backend/src/services/workflows.ts:34-38 | one more attempt adds one more cycle of statuses |
| Workflows.QuietOver | backend/src/services/workflows.ts:33-60 | failed attempts open no pull request, detect nothing and record no `fixed` or `failed` event |
| Workflows.FinishAttempts | backend/src/services/workflows.ts:33-60 | the attempts of a stopped job are numbered from the first and only a final one passes |
| Workflows.FinishStatuses | backend/src/services/workflows.ts:33-60 | the statuses of a stopped job are the cycles then its closing statuses |
| Workflows.FinishAttemptsOver | backend/src/services/workflows.ts:33-60 | the same for traces, with the count of attempts |
| Workflows.FinishPullRequest | backend/src/services/workflows.ts:52-56 | one pull request, for the last attempt, exactly when FIXED was reached |
| Workflows.FinishStatusesOver | backend/src/services/workflows.ts:33-60 | the statuses of a stopped job, for traces |
| Workflows.AdvanceAsksOver | backend/src/services/workflows.ts:35 | the requests of traces extend by one with the right feedback |
| Workflows.StopFacts | backend/src/services/workflows.ts:33-60 | what the attempt that stops the loop leaves, for each way it can stop: a reward of 1 on a pass and none on a thrown error, and the effects up to the stop in source order |
| Workflows.Finish | backend/src/services/workflows.ts:33-60 | the attempt that stops the loop ends the job as promised |
| Workflows.FinishRecords | backend/src/services/workflows.ts:33-60 | a stopped job's attempts and statuses are as promised |
| Workflows.FinishCalls | backend/src/services/workflows.ts:33-60 | a stopped job's pull request, `fixed` event and requests are as promised, with no `failed` event and no detection |
| Workflows.FinishOrder | backend/src/services/workflows.ts:33-60 | a stopped job's effects are one round per validated attempt and then how it ended, with one reward per attempt |
| Workflows.FinishTally | backend/src/services/workflows.ts:33-60 | the stopping attempt adds its round and reward when it passed, and only its ending otherwise |
| Workflows.Exhaust | backend/src/services/workflows.ts:61-65 | a job out of attempts made all of them, all failed, and it ends with FAILED |
| Workflows.ExhaustDone | backend/src/services/workflows.ts:61-65 | a loop out of attempts, with every one failed, ends the job as promised |
| Workflows.ExhaustRecords | backend/src/services/workflows.ts:61-65 | giving up keeps the attempts, statuses, events, requests and detections as promised |
| Workflows.ExhaustOrder | backend/src/services/workflows.ts:61-65 | giving up adds FAILED and the `failed` event after the rounds and stores no reward |
| Workflows.GiveUpKeeps | backend/src/services/workflows.ts:61-65 | giving up adds FAILED to the statuses, one `failed` event and its ending to the effects, and nothing else |
| Workflows.ExhaustStatuses | backend/src/services/workflows.ts:61-65 | cycles then FAILED are the statuses of an exhausted job |
| Workflows.AdvanceFeedback | backend/src/services/workflows.ts:39-40 | after a failed attempt the feedback is 0 |
| Workflows.IncidentJob | backend/src/services/workflows.ts:23-66 | `handleIncidentJob` with any collaborators keeping their contracts: attempts are consecutive from the first and within the budget, all of it when the job gives up; an attempt passes exactly when its run exits cleanly and only the last can; how the job ends follows from the answers (`JobFollows`): every attempt before the last had a plan from its reply and a dispatch that succeeded, and the last one, within the budget, stopped with the reasoner's error, the dispatch's error, or the pull request's outcome, as its own answers dictate; statuses cycle and end FIXED, FAILED or where an error stopped; one pull request and one `fixed` event for the last attempt exactly on FIXED; one `failed` event exactly when out of attempts; each request carries the feedback before it; one stored reward per validated attempt, 1 or 0 as it passed; the effects in order: per attempt status, request, plan, status, dispatch, status, run, verdict, reward, `attempt` event and notice, then FIXED, `fixed` event, pull request and notice, or FAILED and `failed` event, or the stages reached before a throw |
| Workflows.JobFrom | backend/src/services/workflows.ts:33-65 | the loop from any attempt reached with every earlier one failed as its answers dictate keeps the job's promise: it stops at the first pass or thrown error, or gives up once past the budget, as the answers dictate |
| Workflows.GiveUpJob | backend/src/services/workflows.ts:61-65 | the end of an exhausted loop keeps the job's promise, and every attempt went round again as its answers dictate |
| Workflows.FollowStep | backend/src/services/workflows.ts:33-60 | an attempt that goes round again as its answers dictate extends the attempts that did so; one that stops, within the budget, ends the job as the answers dictate |
| Workflows.FollowExhausted | backend/src/services/workflows.ts:61-65 | a job out of attempts, each of which went round again as its answers dictate, ends as the answers dictate |
| Workflows.Attempt | backend/src/services/workflows.ts:33-60 | one turn either ends the job as promised and as its answers dictate, or keeps the loop invariant for the next attempt |
| Workflows.HandleIncidentJob | backend/src/services/workflows.ts:23-66 | the job with this model's own collaborators keeps the same promise, rewards and order of effects included, and ends as the replies, the `dispatchCline` outcomes and the `openPullRequest` outcomes of its attempts dictate |
| Workflows.Crashes | backend/src/services/workflows.ts:13-15 | at most one incident per update simulated |
| Workflows.CrashesDetected | backend/src/services/detection.ts:115 | every incident a simulation produces is DETECTED |
| Workflows.DetectOne | backend/src/services/workflows.ts:14-19 | a round runs the sandbox; on a crash it upserts the DETECTED incident, records `incident_detected`, notifies, then runs the incident job from attempt 1 on the database as it then is, keeping that job's promise and ending as the trial's answers dictate; it detects exactly the simulation's incident |
| Workflows.Announce | backend/src/services/workflows.ts:16-18 | a crash is upserted as it is and recorded as one detection, with no other table touched |
| Workflows.CrashRound | backend/src/services/workflows.ts:14-19 | a crashed round is its run, the announcement and the incident job, which ends as the trial's answers dictate, and detects only its incident |
| Workflows.CrashDetections | backend/src/services/workflows.ts:16-19 | the incident job after an announcement detects nothing more |
| Workflows.RoundsSnoc | backend/src/services/workflows.ts:13-20 | one more round, on the database the earlier rounds left, extends the rounds |
| Workflows.ThrownSnoc | backend/src/services/workflows.ts:13-20 | after rounds that went through, the next round's error is the loop's |
| Workflows.DetectionJob | backend/src/services/workflows.ts:13-20 | one round per update in order, each with its incident job on the database the earlier rounds left, ending as that trial's answers dictate; the loop stops after the first job that threw, with its error, and otherwise covers every update; the detections are a prefix of the crashes, all of them when no job threw, and all DETECTED |
| Workflows.DetectionsSoFar | backend/src/services/workflows.ts:13-20 | the loop's detections after i rounds give the job's promise |
| Workflows.CrashesStep | backend/src/services/workflows.ts:14-19 | the crashes of i+1 updates are those of i then the i-th's |
| Workflows.CrashesPrefix | backend/src/services/workflows.ts:13-20 | the crashes of fewer updates are a prefix of the crashes of more |
| Workflows.HandleDetectionJob | backend/src/services/workflows.ts:11-21 | the upgrades found are simulated in order, each crash stored, announced and repaired by its incident job from attempt 1, which ends as that trial's replies, dispatch outcomes and pull request outcomes dictate; the loop stops at the first job that threw; the detections are the crashes, all of them when no job threw, each DETECTED |

## Left out

- Disk I/O is left out, and file contents arrive as inputs: manifest discovery by glob, reading `package.json` and requirements files, `path.join`/`basename`, the sandbox copy of the workspace, and writing and unlinking the patch file (the last is modelled as steps on a file map).
- External processes are oracles: docker, `patch`, git, Octokit and axios are inputs. The 15-second, 20-second and 15-minute timeouts are not modelled.
- `fetchNpmLatest` and `fetchPypiLatest` (`backend/src/services/detection.ts:15-27`): the registry answer is a `Detection.Lookup` input. The URLs and the response field paths are not modelled.
- JSON parsing of the reasoner's reply is an input, so malformed JSON arrives as `None`. JSON encoding of stored payloads is not modelled: stored values are the records themselves.
- The clock (`new Date()`) and `uuid()` are parameters. Event and plan `created_at` columns are not modelled; the incident's `created_at` is.
- Event `created_at` and the `id` column are not modelled: the order of insertion stands for `ORDER BY id`.
- The text of the PR body and of the system prompt is not modelled. The PR body is a record of its template's inputs, and the request payload's model name and temperature are not modelled.
- Logging is not modelled.
- The two regexes of `parseStack` are matcher parameters. The `i` flag and `\w` classes are not modelled, and `Number(match[2])` arrives already as an integer.
- `semver.valid` and `semver.lt` are modelled for plain `MAJOR.MINOR.PATCH` only, with the 256-character and safe-integer limits. Prerelease tags, build metadata, a leading `v`, surrounding whitespace and the loose mode are not modelled: such a string counts as invalid here.
- `reward` and `confidence` are numbers in the source. Rewards are `int` here, since the producer only stores 0 or 1, and confidence is `real`.
- JavaScript property order for integer-like keys (which `Object.entries` lists first) is not modelled. Entries keep insertion order.
- `backend/src/services/queue.ts`, `backend/src/config.ts` and the dashboard application are not part of this model. Configuration values are fields of `Workflows.Config` or parameters.
- The express routes `/health`, `/incidents`, `/events` and the job-trigger route are not modelled beyond the queries they call (`Store.ListIncidents`, `Store.ListEvents`) and the gate in front of them.
- Concurrency is not modelled: jobs run one at a time, and each database write is atomic.
- Strings.Split: its own contract states only that there is at least one piece. The content of the pieces is stated by `Strings.SplitAtFirst`, `Strings.SplitSecond`, `Strings.SplitPieces`, `Strings.JoinSplit` and `Strings.SplitJoin`.
- Strings.IndexOf: its own contract states only that the answer is an occurrence. That it is the first one is `Strings.IndexOfFirst`.
- Detection.StripVersionPrefix: its own contract bounds the length only. What is removed is `Detection.StripVersionPrefixDropsNonDigits`.
- Detection.NpmFromEntries: its own contract bounds the length only. Membership is `Detection.NpmFromEntriesMembers`; order and multiplicity are `Detection.NpmFromEntriesAppend` and `Detection.NpmFromEntriesOne`.
- Detection.ParseNpmDependencies: its own contract states membership only. It is `Detection.NpmFromEntries` over the merged entries, whose order and multiplicity are `Detection.NpmFromEntriesAppend` and `Detection.NpmFromEntriesOne`.
- Detection.ParsePythonRequirements: its own contract states membership only. It is `Detection.RequirementEntries` over `Detection.RequirementLines` of the file's lines, whose order and multiplicity are `Detection.RequirementLinesAppend`, `Detection.RequirementLinesOne`, `Detection.RequirementEntriesAppend` and `Detection.RequirementEntriesOne`.
- Dispatch.DispatchFrom: its own contract gives the number of outcomes only. What each outcome is, is `Dispatch.DispatchOutcome`.
- Store.Events: its own contract bounds the length only. Its behaviour under appends is `Store.EventsAppend`.
- Seqs.FilterMap: its own contract bounds the length only. Its behaviour under concatenation is `Seqs.FilterMapAppend`.
- Sandbox.NonEmpty: its own contract states only that the kept strings are non-empty and drawn from the input. That exactly those are kept, in order, is `Sandbox.NonEmptyMembers` and `Sandbox.NonEmptyAppend`.
- Sandbox.OutputLines: its own contract states only that the lines are non-empty and hold no newline. That they are exactly the non-empty pieces of the split is `Sandbox.OutputLinesMembers`.
- Workflows.Crashes: its own contract bounds the length only. The status of each incident is `Workflows.CrashesDetected`, and the step is `Workflows.CrashesStep`.
- Workflows.IncidentJob: the order of effects it states for the whole job leaves out the individual patch steps of a dispatch and the git steps of a pull request. Their order within their stage is stated by `Workflows.Repair` (dispatch call, then only patch steps) and `Workflows.Close` (the pull-request call after the `fixed` event).
- Workflows.HandleIncidentJob: the same as `Workflows.IncidentJob`.
