/** Running one test case (src/app/api/tests/run/route.ts): the status rule
    that consults both the action and the description, the overlay of
    request overrides on the stored input, and the POST handler. */
module TestRun {
  import opened Wrappers
  import opened Values
  import opened Records

  /** Both sides are present (truthy) and differ. */
  predicate Mismatch(expected: Option<string>, actual: Option<string>) {
    Truthy(expected) && Truthy(actual) && expected.value != actual.value
  }

  /** `deriveStatus` with four arguments. */
  function DeriveStatus(expectedAction: Option<string>, expectedDescription: Option<string>,
                        actualAction: Option<string>, actualDescription: Option<string>): (s: Status)
    ensures s != Error
    ensures !Truthy(expectedAction) && !Truthy(expectedDescription) ==> s == Pending
    ensures s == Pending <==>
      (!Truthy(expectedAction) && !Truthy(expectedDescription)) ||
      (!Truthy(actualAction) && !Truthy(actualDescription))
    ensures s == Fail <==>
      (Truthy(expectedAction) || Truthy(expectedDescription)) &&
      (Truthy(actualAction) || Truthy(actualDescription)) &&
      (Mismatch(expectedAction, actualAction) || Mismatch(expectedDescription, actualDescription))
    ensures s == Pass <==>
      (Truthy(expectedAction) || Truthy(expectedDescription)) &&
      (Truthy(actualAction) || Truthy(actualDescription)) &&
      !Mismatch(expectedAction, actualAction) && !Mismatch(expectedDescription, actualDescription)
  {
    if Truthy(expectedAction) || Truthy(expectedDescription) then
      if !Truthy(actualAction) && !Truthy(actualDescription) then Pending
      else if Truthy(expectedAction) && Truthy(actualAction) && expectedAction.value != actualAction.value then Fail
      else if Truthy(expectedDescription) && Truthy(actualDescription) &&
              expectedDescription.value != actualDescription.value then Fail
      else Pass
    else Pending
  }

  /** An expected action with no actual action still passes when a
      description came back and the expected description does not clash. */
  lemma MissingActionStillPasses(expectedAction: string, actualDescription: string)
    requires expectedAction != "" && actualDescription != ""
    ensures DeriveStatus(Some(expectedAction), None, None, Some(actualDescription)) == Pass
  {
  }

  /** `{ ...base, ...overrides }` when overrides were sent, else the stored
      input. */
  function EffectiveInput(base: Object, overrides: Option<Object>): (r: Object)
    ensures r.Keys == base.Keys + (if overrides.Some? then overrides.value.Keys else {})
    ensures overrides.Some? ==> forall k :: k in overrides.value ==> r[k] == overrides.value[k]
    ensures forall k :: k in base && (overrides.None? || k !in overrides.value) ==> r[k] == base[k]
  {
    if overrides.Some? then base + overrides.value else base
  }

  const NoCompiledMessage: string := "No compiled template found for this version."

  /** What the handler computes for one case: the actual action, actual
      description, stringified reasons, the run error and the status. */
  datatype Outcome = Outcome(
    actualAction: Option<string>,
    actualDescription: Option<string>,
    actualReasons: Option<string>,
    runError: Option<string>,
    status: Status)

  /** What lines 97-130 of the handler compute for one case: a missing
      version or compiled text is an error; otherwise the runner's result,
      with the error text as the description when the run failed, and the
      status derived from the expectations unless the run error is truthy. */
  function CaseOutcome(tc: TestCase, version: Option<Version>, input: Object,
                       runner: Runner, codec: Codec): (o: Outcome)
    ensures var missing := version.None? || !Truthy(version.value.compiled);
      missing ==> o == Outcome(None, None, None, Some(NoCompiledMessage), Error)
    ensures version.Some? && Truthy(version.value.compiled) ==>
      var res := runner(version.value.compiled.value, input);
      o.actualAction == res.action &&
      o.actualReasons == ReasonsText(codec, res.reasons) &&
      o.runError == (if res.success then None else res.error) &&
      (Truthy(o.runError) ==> o.actualDescription == o.runError) &&
      (!Truthy(o.runError) ==> o.actualDescription == res.description)
    ensures o.status == Error <==> Truthy(o.runError)
    ensures !Truthy(o.runError) ==>
      o.status == DeriveStatus(tc.expectedAction, tc.expectedDescription, o.actualAction, o.actualDescription)
  {
    if version.None? || !Truthy(version.value.compiled) then
      Outcome(None, None, None, Some(NoCompiledMessage), Error)
    else
      var res := runner(version.value.compiled.value, input);
      var runError := if res.success then None else res.error;
      var description := if Truthy(runError) then runError else res.description;
      var status := if Truthy(runError) then Error
        else DeriveStatus(tc.expectedAction, tc.expectedDescription, res.action, description);
      Outcome(res.action, description, ReasonsText(codec, res.reasons), runError, status)
  }

  /** Lines 97-130 of the handler: runs the version's compiled script, if it
      has one, and assigns the result variables step by step. */
  method RunCase(tc: TestCase, version: Option<Version>, input: Object,
                 runner: Runner, codec: Codec) returns (o: Outcome)
    ensures o == CaseOutcome(tc, version, input, runner, codec)
  {
    var actualAction: Option<string> := None;
    var actualDescription: Option<string> := None;
    var actualReasons: Option<string> := None;
    var runError: Option<string> := None;

    if version.None? || !Truthy(version.value.compiled) {
      runError := Some(NoCompiledMessage);
    } else {
      var result := runner(version.value.compiled.value, input);
      if !result.success {
        runError := result.error;
        actualDescription := runError;
      }
      actualAction := result.action;
      if !Truthy(runError) {
        actualDescription := result.description;
      }
      actualReasons := ReasonsText(codec, result.reasons);
    }

    var status := if Truthy(runError) then Error
      else DeriveStatus(tc.expectedAction, tc.expectedDescription, actualAction, actualDescription);
    o := Outcome(actualAction, actualDescription, actualReasons, runError, status);
  }

  /** The reply of POST. */
  datatype Reply =
    | Created(run: RunRecord)
    | NotFound(message: string)
    | BadRequest(message: string)

  /** The stored record for one case. */
  function Record(tc: TestCase, codec: Codec, input: Object, o: Outcome): (r: RunRecord)
    ensures r.testCaseId == tc.id && r.suiteRunId.None? && r.status == o.status
    ensures r.expectedAction == tc.expectedAction && r.expectedDescription == tc.expectedDescription
    ensures r.actualAction == o.actualAction && r.actualDescription == o.actualDescription
    ensures r.actualReasons == o.actualReasons && r.inputJson == codec.stringify(input)
  {
    RunRecord(tc.templateId, tc.templateVersionId, tc.id, None, codec.stringify(input),
              tc.expectedAction, tc.expectedDescription,
              o.actualAction, o.actualDescription, o.actualReasons, o.status)
  }

  /** POST: find the case, overlay the overrides, run it and record exactly
      one run. A request rejected before running records nothing. */
  method Post(store: RunStore, testCaseId: string, overrides: Option<Object>,
              cases: map<string, TestCase>, versions: map<string, Version>,
              runner: Runner, codec: Codec) returns (reply: Reply)
    requires forall id :: id in cases ==> cases[id].id == id
    modifies store
    ensures store.suiteRuns == old(store.suiteRuns)
    ensures testCaseId == "" ==> reply.BadRequest? && store.runs == old(store.runs)
    ensures testCaseId != "" && testCaseId !in cases ==>
      reply == NotFound("Test not found") && store.runs == old(store.runs)
    ensures testCaseId in cases && testCaseId != "" &&
            ParseInput(codec, cases[testCaseId].inputJson).None? ==>
      reply.BadRequest? && store.runs == old(store.runs)
    ensures reply.Created? <==>
      testCaseId != "" && testCaseId in cases && ParseInput(codec, cases[testCaseId].inputJson).Some?
    ensures reply.Created? ==> store.runs == old(store.runs) + [reply.run]
    ensures reply.Created? ==>
      var tc := cases[testCaseId];
      var input := EffectiveInput(ParseInput(codec, tc.inputJson).value, overrides);
      var version := if tc.templateVersionId in versions then Some(versions[tc.templateVersionId]) else None;
      reply.run == Record(tc, codec, input, CaseOutcome(tc, version, input, runner, codec))
  {
    if testCaseId == "" {
      return BadRequest("testCaseId must not be empty");
    }
    if testCaseId !in cases {
      return NotFound("Test not found");
    }
    var tc := cases[testCaseId];
    var base := ParseInput(codec, tc.inputJson);
    if base.None? {
      return BadRequest("Invalid JSON");
    }
    var input := EffectiveInput(base.value, overrides);
    var version := if tc.templateVersionId in versions then Some(versions[tc.templateVersionId]) else None;
    var o := RunCase(tc, version, input, runner, codec);
    var run := Record(tc, codec, input, o);
    store.runs := store.runs + [run];
    return Created(run);
  }
}
