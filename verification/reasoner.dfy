/** The reasoning client (backend/src/services/oumiClient.ts): which parsed
    replies the plan schema accepts, and how a repair plan is built from an
    accepted one. The HTTP call is an oracle `Reply`; the reply content's
    JSON parse arrives already done, as `parsed`. */
module Reasoner {
  import opened Wrappers
  import opened Strings
  import opened Types

  /** A parsed JSON value. Object members keep their order and may repeat. */
  datatype Json =
    | JNull
    | JBool(b: bool)
    | JNumber(n: real)
    | JString(s: string)
    | JArray(items: seq<Json>)
    | JObject(members: seq<(string, Json)>)

  /** An object's property: with a repeated key the last one wins, as JSON
      parsing leaves it. */
  function Member(ms: seq<(string, Json)>, k: string): Option<Json>
    decreases |ms|
  {
    if |ms| == 0 then None
    else if ms[|ms| - 1].0 == k then Some(ms[|ms| - 1].1)
    else Member(ms[..|ms| - 1], k)
  }

  predicate IsString(v: Option<Json>) {
    v.Some? && v.value.JString?
  }

  // ----- the plan schema, as a predicate -----

  /** An element of `patchset`: an object with string `path`, `instructions`
      and `patch`. */
  predicate IsPatchObject(j: Json) {
    && j.JObject?
    && IsString(Member(j.members, "path"))
    && IsString(Member(j.members, "instructions"))
    && IsString(Member(j.members, "patch"))
  }

  /** `planSchema`: string `summary` and `rationale`, a number `confidence` in
      [0, 1], and a non-empty array `patchset` of patch objects. Other keys
      are allowed and ignored. */
  predicate AcceptsPlan(j: Json) {
    && j.JObject?
    && IsString(Member(j.members, "summary"))
    && IsString(Member(j.members, "rationale"))
    && (var c := Member(j.members, "confidence");
        c.Some? && c.value.JNumber? && 0.0 <= c.value.n <= 1.0)
    && (var ps := Member(j.members, "patchset");
        && ps.Some? && ps.value.JArray? && |ps.value.items| > 0
        && forall i :: 0 <= i < |ps.value.items| ==> IsPatchObject(ps.value.items[i]))
  }

  // ----- the schema, as a parser -----

  /** What the schema hands back: the four declared fields and nothing else. */
  datatype PlanFields = PlanFields(summary: string, confidence: real, rationale: string, patchset: seq<FilePatch>)

  function ParsePatch(j: Json): (r: Option<FilePatch>)
    ensures r.Some? <==> IsPatchObject(j)
    ensures r.Some? ==> && Member(j.members, "path") == Some(JString(r.value.path))
                        && Member(j.members, "instructions") == Some(JString(r.value.instructions))
                        && Member(j.members, "patch") == Some(JString(r.value.patch))
  {
    match j
    case JObject(ms) =>
      (match (Member(ms, "path"), Member(ms, "instructions"), Member(ms, "patch"))
       case (Some(JString(p)), Some(JString(i)), Some(JString(d))) => Some(FilePatch(p, i, d))
       case _ => None)
    case _ => None
  }

  function ParsePatches(items: seq<Json>): (r: Option<seq<FilePatch>>)
    ensures r.Some? <==> forall i :: 0 <= i < |items| ==> IsPatchObject(items[i])
    ensures r.Some? ==> |r.value| == |items| && forall i :: 0 <= i < |items| ==> ParsePatch(items[i]) == Some(r.value[i])
  {
    if forall i :: 0 <= i < |items| ==> ParsePatch(items[i]).Some? then
      Some(seq(|items|, i requires 0 <= i < |items| => ParsePatch(items[i]).value))
    else None
  }

  /** `planSchema.parse` on a parsed value: the declared fields of an accepted
      value, or nothing. */
  function ParsePlan(j: Json): (r: Option<PlanFields>)
    ensures r.Some? <==> AcceptsPlan(j)
    ensures r.Some? ==> && Member(j.members, "summary") == Some(JString(r.value.summary))
                        && Member(j.members, "rationale") == Some(JString(r.value.rationale))
                        && Member(j.members, "confidence") == Some(JNumber(r.value.confidence))
                        && Member(j.members, "patchset").Some?
                        && ParsePatches(Member(j.members, "patchset").value.items) == Some(r.value.patchset)
    ensures r.Some? ==> 0.0 <= r.value.confidence <= 1.0 && |r.value.patchset| > 0
  {
    match j
    case JObject(ms) =>
      (match (Member(ms, "summary"), Member(ms, "confidence"), Member(ms, "rationale"), Member(ms, "patchset"))
       case (Some(JString(s)), Some(JNumber(c)), Some(JString(why)), Some(JArray(items))) =>
         if 0.0 <= c <= 1.0 && |items| > 0 then
           match ParsePatches(items)
           case Some(ps) => Some(PlanFields(s, c, why, ps))
           case None => None
         else None
       case _ => None)
    case _ => None
  }

  function EncodePatch(p: FilePatch): Json {
    JObject([("path", JString(p.path)), ("instructions", JString(p.instructions)), ("patch", JString(p.patch))])
  }

  /** The JSON object a well-formed reply carries for `fields`. */
  function EncodePlan(fields: PlanFields): Json {
    JObject([("summary", JString(fields.summary)), ("confidence", JNumber(fields.confidence)),
             ("rationale", JString(fields.rationale)),
             ("patchset", JArray(seq(|fields.patchset|, i requires 0 <= i < |fields.patchset| => EncodePatch(fields.patchset[i]))))])
  }

  lemma EncodePatchMembers(p: FilePatch)
    ensures var ms := EncodePatch(p).members;
            && Member(ms, "path") == Some(JString(p.path))
            && Member(ms, "instructions") == Some(JString(p.instructions))
            && Member(ms, "patch") == Some(JString(p.patch))
  {
    var ms := EncodePatch(p).members;
    assert Member(ms, "path") == Member(ms[..2], "path");
    assert Member(ms[..2], "path") == Member(ms[..2][..1], "path");
    assert Member(ms, "instructions") == Member(ms[..2], "instructions");
  }

  lemma EncodePlanMembers(fields: PlanFields)
    ensures var ms := EncodePlan(fields).members;
            && Member(ms, "summary") == Some(JString(fields.summary))
            && Member(ms, "confidence") == Some(JNumber(fields.confidence))
            && Member(ms, "rationale") == Some(JString(fields.rationale))
            && Member(ms, "patchset") == Some(ms[3].1)
  {
    var ms := EncodePlan(fields).members;
    assert Member(ms, "summary") == Member(ms[..3], "summary");
    assert Member(ms[..3], "summary") == Member(ms[..3][..2], "summary");
    assert Member(ms[..3][..2], "summary") == Member(ms[..3][..2][..1], "summary");
    assert Member(ms, "confidence") == Member(ms[..3], "confidence");
    assert Member(ms[..3], "confidence") == Member(ms[..3][..2], "confidence");
    assert Member(ms, "rationale") == Member(ms[..3], "rationale");
  }

  /** Any plan with a confidence in [0, 1] and at least one patch survives the
      schema unchanged. */
  lemma ParseEncodePlan(fields: PlanFields)
    requires 0.0 <= fields.confidence <= 1.0 && |fields.patchset| > 0
    ensures ParsePlan(EncodePlan(fields)) == Some(fields)
  {
    EncodePlanMembers(fields);
    var items := EncodePlan(fields).members[3].1.items;
    forall i | 0 <= i < |items| ensures ParsePatch(items[i]) == Some(fields.patchset[i]) {
      EncodePatchMembers(fields.patchset[i]);
    }
    var ps := ParsePatches(items).value;
    assert ps == fields.patchset;
  }

  /** A key outside the schema changes nothing: it is stripped, not rejected. */
  lemma UnknownKeyIgnored(ms: seq<(string, Json)>, k: string, v: Json)
    requires k !in {"summary", "confidence", "rationale", "patchset"}
    ensures ParsePlan(JObject(ms + [(k, v)])) == ParsePlan(JObject(ms))
  {
    var ms' := ms + [(k, v)];
    assert ms'[..|ms'| - 1] == ms;
  }

  /** A confidence outside [0, 1] is rejected however good the rest is. */
  lemma ConfidenceOutOfRangeRejected(fields: PlanFields)
    requires fields.confidence > 1.0 || fields.confidence < 0.0
    ensures ParsePlan(EncodePlan(fields)).None?
  {
    EncodePlanMembers(fields);
  }

  /** An empty patchset is rejected. */
  lemma EmptyPatchsetRejected(fields: PlanFields)
    requires fields.patchset == []
    ensures ParsePlan(EncodePlan(fields)).None?
  {
    EncodePlanMembers(fields);
  }

  // ----- one call -----

  /** The HTTP exchange: the post failed, or it returned a reply whose
      first choice carries `content` (possibly missing), and `parsed` is what
      parsing that content gave (`None` when it is not JSON). */
  datatype Reply = PostFailed | Responded(content: Option<string>, parsed: Option<Json>)

  datatype ReasonError = RequestFailed | EmptyContent | MalformedJson | SchemaViolation

  /** The `Authorization` header: sent only when the API key is non-blank, and
      then with the key as configured (untrimmed). */
  function AuthorizationHeader(apiKey: string): (r: Option<string>)
    ensures r.Some? <==> Trim(apiKey) != ""
    ensures r.Some? ==> r.value == "Bearer " + apiKey
  {
    if |Trim(apiKey)| > 0 then Some("Bearer " + apiKey) else None
  }

  /** `reasonAboutIncident` after the request is sent: a plan for this
      incident, built from the accepted fields, or the error that stops it. */
  function ReasonAboutIncident(incident: IncidentRecord, reply: Reply): (r: Result<RepairPlan, ReasonError>)
    ensures r.Ok? <==> && reply.Responded? && reply.content.Some? && reply.content.value != ""
                       && reply.parsed.Some? && AcceptsPlan(reply.parsed.value)
    ensures reply.PostFailed? ==> r == Err(RequestFailed)
    ensures reply.Responded? && (reply.content.None? || reply.content.value == "") ==> r == Err(EmptyContent)
    ensures r.Ok? ==> && r.value.incidentId == incident.id
                      && ParsePlan(reply.parsed.value)
                         == Some(PlanFields(r.value.summary, r.value.confidence, r.value.rationale, r.value.patchset))
  {
    match reply
    case PostFailed => Err(RequestFailed)
    case Responded(content, parsed) =>
      if content.None? || content.value == "" then Err(EmptyContent)
      else
        match parsed
        case None => Err(MalformedJson)
        case Some(j) =>
          match ParsePlan(j)
          case None => Err(SchemaViolation)
          case Some(f) => Ok(RepairPlan(incident.id, f.summary, f.confidence, f.rationale, f.patchset))
  }

  /** Whatever id the reply names, the plan is filed under the incident's. */
  lemma PlanIgnoresReplyIncidentId(incident: IncidentRecord, fields: PlanFields, other: string)
    requires 0.0 <= fields.confidence <= 1.0 && |fields.patchset| > 0
    ensures var j := JObject(EncodePlan(fields).members + [("incidentId", JString(other))]);
            ReasonAboutIncident(incident, Responded(Some("{}"), Some(j)))
            == Ok(RepairPlan(incident.id, fields.summary, fields.confidence, fields.rationale, fields.patchset))
  {
    ParseEncodePlan(fields);
    UnknownKeyIgnored(EncodePlan(fields).members, "incidentId", JString(other));
  }
}
