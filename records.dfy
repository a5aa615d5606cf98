/** The stored entities the test routes read and write, the interpreter they
    call, and the in-memory store that stands for the database. */
module Records {
  import opened Wrappers
  import opened Values

  /** The status a test run is recorded with. */
  datatype Status = Pending | Pass | Fail | Error

  /** JavaScript truthiness of an optional string: `null`, `undefined` and
      `""` are all falsy. */
  predicate Truthy(s: Option<string>) {
    s.Some? && s.value != ""
  }

  /** What `runPythonTemplate` resolves to. */
  datatype RunnerResult = RunnerResult(
    success: bool,
    error: Option<string>,
    action: Option<string>,
    description: Option<string>,
    reasons: seq<Object>)

  /** `runPythonTemplate(compiled, input)`: the interpreter, as an oracle. */
  type Runner = (string, Object) -> RunnerResult

  /** `JSON.parse` of a stored input (`None` where it throws) and
      `JSON.stringify` of an input object and of a list of reasons. */
  datatype Codec = Codec(
    parse: string -> Option<Object>,
    stringify: Object -> string,
    stringifyReasons: seq<Object> -> string)

  /** `JSON.parse(text || "{}")`: an empty stored input is the empty object's
      text. */
  function ParseInput(codec: Codec, text: string): (r: Option<Object>)
    ensures text != "" ==> r == codec.parse(text)
    ensures text == "" ==> r == codec.parse("{}")
  {
    codec.parse(if text == "" then "{}" else text)
  }

  /** `reasons.length ? JSON.stringify(reasons) : null`. */
  function ReasonsText(codec: Codec, reasons: seq<Object>): (r: Option<string>)
    ensures r.None? <==> reasons == []
    ensures r.Some? ==> r.value == codec.stringifyReasons(reasons)
  {
    if |reasons| > 0 then Some(codec.stringifyReasons(reasons)) else None
  }

  /** A stored test case. */
  datatype TestCase = TestCase(
    id: string,
    templateId: string,
    templateVersionId: string,
    name: string,
    inputJson: string,
    expectedAction: Option<string>,
    expectedDescription: Option<string>)

  /** A stored template version: its sections, its helper snippets' code in
      order, and the cached compiled script (absent or empty when not
      compiled). */
  datatype Version = Version(
    id: string,
    userParams: string,
    aiTunables: string,
    helpers: string,
    helperSnippets: seq<string>,
    main: string,
    compiled: Option<string>)

  /** A stored test suite. */
  datatype Suite = Suite(
    id: string,
    templateId: string,
    name: string,
    description: Option<string>,
    userParamsOverride: Option<string>,
    aiTunablesOverride: Option<string>)

  /** One recorded run of one test case; `suiteRunId` is the position of the
      suite run it belongs to, if any. */
  datatype RunRecord = RunRecord(
    templateId: string,
    templateVersionId: string,
    testCaseId: string,
    suiteRunId: Option<nat>,
    inputJson: string,
    expectedAction: Option<string>,
    expectedDescription: Option<string>,
    actualAction: Option<string>,
    actualDescription: Option<string>,
    actualReasons: Option<string>,
    status: Status)

  /** One recorded run of a whole suite. */
  datatype SuiteRunRecord = SuiteRunRecord(
    suiteId: string,
    templateVersionId: string,
    userParamsSnapshot: string,
    aiTunablesSnapshot: string,
    totalCount: nat,
    passCount: nat,
    failCount: nat,
    errorCount: nat)

  /** The persisted run records, in creation order. */
  class RunStore {
    var runs: seq<RunRecord>
    var suiteRuns: seq<SuiteRunRecord>

    constructor ()
      ensures runs == [] && suiteRuns == []
    {
      runs := [];
      suiteRuns := [];
    }
  }
}
