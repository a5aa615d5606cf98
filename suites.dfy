/** Creating and updating test suites (src/app/api/suites/route.ts): create
    stores omitted optional fields as null; update writes only the fields the
    payload carries, where an explicit null clears a field. */
module Suites {
  import opened Wrappers
  import opened Records
  import SuiteRun

  /** A payload field that may be missing, `null`, or a value. */
  datatype Field<+T> = Absent | Null | Given(value: T)

  /** `field ?? null` on create. */
  function OrNull(f: Field<string>): (r: Option<string>)
    ensures f.Given? <==> r.Some?
    ensures f.Given? ==> r.value == f.value
  {
    if f.Given? then Some(f.value) else None
  }

  /** The create payload. */
  datatype CreateRequest = CreateRequest(
    templateId: string,
    name: string,
    description: Field<string>,
    userParamsOverride: Field<string>,
    aiTunablesOverride: Field<string>)

  /** POST: both `templateId` and `name` must be non-empty; the optional
      fields are stored as given or as null. */
  function Create(id: string, req: CreateRequest): (r: Result<Suite, string>)
    ensures r.Ok? <==> req.templateId != "" && req.name != ""
    ensures r.Ok? ==>
      r.value.id == id && r.value.templateId == req.templateId && r.value.name == req.name &&
      r.value.description == OrNull(req.description) &&
      r.value.userParamsOverride == OrNull(req.userParamsOverride) &&
      r.value.aiTunablesOverride == OrNull(req.aiTunablesOverride)
  {
    if req.templateId == "" || req.name == "" then Err("Invalid request")
    else Ok(Suite(id, req.templateId, req.name, OrNull(req.description),
                  OrNull(req.userParamsOverride), OrNull(req.aiTunablesOverride)))
  }

  /** An omitted create field is stored as null. */
  lemma CreateDefaultsNull(id: string, templateId: string, name: string)
    requires templateId != "" && name != ""
    ensures var r := Create(id, CreateRequest(templateId, name, Absent, Absent, Absent));
      r.Ok? && r.value.description.None? &&
      r.value.userParamsOverride.None? && r.value.aiTunablesOverride.None?
  {
  }

  /** The update payload. `name` may be missing but not null or empty. */
  datatype UpdateRequest = UpdateRequest(
    name: Field<string>,
    description: Field<string>,
    userParamsOverride: Field<string>,
    aiTunablesOverride: Field<string>)

  /** One conditional spread: a missing field keeps the stored value, null
      clears it, a value replaces it. */
  function Apply(stored: Option<string>, f: Field<string>): (r: Option<string>)
    ensures f.Absent? ==> r == stored
    ensures f.Null? ==> r.None?
    ensures f.Given? ==> r == Some(f.value)
  {
    match f
    case Absent => stored
    case Null => None
    case Given(v) => Some(v)
  }

  /** The updated suite, or the message the payload is rejected with. */
  function Update(s: Suite, req: UpdateRequest): (r: Result<Suite, string>)
    ensures r.Ok? <==> req.name.Absent? || (req.name.Given? && req.name.value != "")
    ensures r.Ok? ==>
      r.value.id == s.id && r.value.templateId == s.templateId &&
      r.value.name == (if req.name.Given? then req.name.value else s.name) &&
      r.value.description == Apply(s.description, req.description) &&
      r.value.userParamsOverride == Apply(s.userParamsOverride, req.userParamsOverride) &&
      r.value.aiTunablesOverride == Apply(s.aiTunablesOverride, req.aiTunablesOverride)
  {
    if req.name.Null? || (req.name.Given? && req.name.value == "") then Err("Invalid request")
    else Ok(s.(
      name := if req.name.Given? then req.name.value else s.name,
      description := Apply(s.description, req.description),
      userParamsOverride := Apply(s.userParamsOverride, req.userParamsOverride),
      aiTunablesOverride := Apply(s.aiTunablesOverride, req.aiTunablesOverride)))
  }

  /** An empty update payload changes nothing. */
  lemma EmptyUpdateKeeps(s: Suite)
    ensures Update(s, UpdateRequest(Absent, Absent, Absent, Absent)) == Ok(s)
  {
  }

  /** The outcome of PUT or DELETE. */
  datatype Reply =
    | Done(suites: map<string, Suite>)
    | BadRequest(message: string)

  /** PUT: the `id` query parameter must be present and non-empty; an unknown
      id or a rejected payload is a 400 as well. */
  function Put(suites: map<string, Suite>, id: Option<string>, req: UpdateRequest): (r: Reply)
    ensures !Truthy(id) ==> r == BadRequest("Missing id")
    ensures r.Done? <==> Truthy(id) && id.value in suites && Update(suites[id.value], req).Ok?
    ensures r.Done? ==> r.suites == suites[id.value := Update(suites[id.value], req).value]
  {
    if !Truthy(id) then BadRequest("Missing id")
    else if id.value !in suites then BadRequest("Record to update not found")
    else match Update(suites[id.value], req)
      case Err(e) => BadRequest(e)
      case Ok(s) => Done(suites[id.value := s])
  }

  /** DELETE: the same `id` check, then the suite is removed. */
  function Delete(suites: map<string, Suite>, id: Option<string>): (r: Reply)
    ensures !Truthy(id) ==> r == BadRequest("Missing id")
    ensures r.Done? <==> Truthy(id) && id.value in suites
    ensures r.Done? ==> r.suites.Keys == suites.Keys - {id.value}
    ensures r.Done? ==> forall k :: k in r.suites ==> r.suites[k] == suites[k]
  {
    if !Truthy(id) then BadRequest("Missing id")
    else if id.value !in suites then BadRequest("Record to delete does not exist")
    else Done(suites - {id.value})
  }

  /** Clearing a suite's user-params override with null makes a later run
      without a request override fall back to the version's own section,
      whereas omitting the field keeps the old override in force. */
  lemma ClearedOverrideFallsBack(s: Suite, versionUserParams: string)
    requires s.userParamsOverride.Some?
    ensures var cleared := Update(s, UpdateRequest(Absent, Absent, Null, Absent));
      cleared.Ok? &&
      SuiteRun.Effective(None, cleared.value.userParamsOverride, versionUserParams) == versionUserParams
    ensures var kept := Update(s, UpdateRequest(Absent, Absent, Absent, Absent));
      kept.Ok? &&
      SuiteRun.Effective(None, kept.value.userParamsOverride, versionUserParams) == s.userParamsOverride.value
  {
  }
}
