/** Running a whole test suite (src/app/api/suites/run/route.ts): the status
    rule that consults only the action, the override precedence, and the
    handler that compiles once, records one run per case in order and counts
    the outcomes. */
module SuiteRun {
  import opened Wrappers
  import opened Values
  import opened Records
  import Compiler

  /** `deriveStatus` with two arguments: the descriptions are never
      consulted. */
  function DeriveStatus(expectedAction: Option<string>, actualAction: Option<string>): (s: Status)
    ensures s != Error
    ensures s == Pending <==> !Truthy(expectedAction) || !Truthy(actualAction)
    ensures s == Pass <==> Truthy(expectedAction) && Truthy(actualAction) && expectedAction.value == actualAction.value
    ensures s == Fail <==> Truthy(expectedAction) && Truthy(actualAction) && expectedAction.value != actualAction.value
  {
    if !Truthy(expectedAction) then Pending
    else if !Truthy(actualAction) then Pending
    else if expectedAction.value == actualAction.value then Pass
    else Fail
  }

  /** `request ?? suite ?? version`: only an absent value falls through, so
      an empty override still wins. */
  function Effective(request: Option<string>, suite: Option<string>, version: string): (r: string)
    ensures request.Some? ==> r == request.value
    ensures request.None? && suite.Some? ==> r == suite.value
    ensures request.None? && suite.None? ==> r == version
  {
    if request.Some? then request.value
    else if suite.Some? then suite.value
    else version
  }

  /** The script every case of one suite run executes. */
  function Script(version: Version, userParams: string, aiTunables: string): string {
    Compiler.CompileTemplate(Compiler.Sections(
      userParams, aiTunables, version.helpers, version.helperSnippets, version.main))
  }

  /** What is fixed for all cases of one suite run. */
  datatype Context = Context(
    templateId: string,
    templateVersionId: string,
    suiteRunId: nat,
    compiled: string,
    runner: Runner,
    codec: Codec)

  /** The record for one case whose input parsed to `input`. */
  function CaseRecord(ctx: Context, tc: TestCase, input: Object): (r: RunRecord)
    ensures r.testCaseId == tc.id && r.suiteRunId == Some(ctx.suiteRunId)
    ensures r.inputJson == tc.inputJson && r.expectedAction == tc.expectedAction
    ensures var res := ctx.runner(ctx.compiled, input);
      (r.status == Error <==> !res.success) &&
      (!res.success ==> r.actualDescription == res.error && r.actualAction.None? && r.actualReasons.None?) &&
      (res.success ==> r.actualAction == res.action && r.actualDescription == res.description &&
                       r.actualReasons == ReasonsText(ctx.codec, res.reasons) &&
                       r.status == DeriveStatus(tc.expectedAction, res.action))
  {
    var res := ctx.runner(ctx.compiled, input);
    if !res.success then
      RunRecord(ctx.templateId, ctx.templateVersionId, tc.id, Some(ctx.suiteRunId), tc.inputJson,
                tc.expectedAction, tc.expectedDescription, None, res.error, None, Error)
    else
      RunRecord(ctx.templateId, ctx.templateVersionId, tc.id, Some(ctx.suiteRunId), tc.inputJson,
                tc.expectedAction, tc.expectedDescription, res.action, res.description,
                ReasonsText(ctx.codec, res.reasons), DeriveStatus(tc.expectedAction, res.action))
  }

  /** Only a failed run is recorded with status `Error`. */
  lemma CaseRecordStatus(ctx: Context, tc: TestCase, input: Object)
    ensures CaseRecord(ctx, tc, input).status == Error <==> !ctx.runner(ctx.compiled, input).success
  {
  }

  /** The first `k` stored inputs all parse. */
  predicate Decodable(codec: Codec, cases: seq<TestCase>, k: nat)
    requires k <= |cases|
  {
    forall i :: 0 <= i < k ==> ParseInput(codec, cases[i].inputJson).Some?
  }

  /** How many cases from the front have inputs that parse. */
  function DecodablePrefix(codec: Codec, cases: seq<TestCase>): (k: nat)
    ensures k <= |cases| && Decodable(codec, cases, k)
    ensures k < |cases| ==> ParseInput(codec, cases[k].inputJson).None?
  {
    if cases == [] then 0
    else if ParseInput(codec, cases[0].inputJson).None? then 0
    else
      var k := DecodablePrefix(codec, cases[1..]);
      assert forall i :: 1 <= i < k + 1 ==> cases[i] == cases[1..][i - 1];
      1 + k
  }

  /** The parsed input of a case; only ever taken of cases in the decodable
      prefix, where it is the object the stored text parses to. */
  function InputOf(codec: Codec, tc: TestCase): (input: Object)
    ensures ParseInput(codec, tc.inputJson).Some? ==> input == ParseInput(codec, tc.inputJson).value
  {
    match ParseInput(codec, tc.inputJson)
    case Some(input) => input
    case None => map[]
  }

  /** The records of the first `k` cases, in case order. */
  function CaseRecords(ctx: Context, cases: seq<TestCase>, k: nat): (rs: seq<RunRecord>)
    requires k <= |cases|
    ensures |rs| == k
    ensures forall i :: 0 <= i < k ==> rs[i] == CaseRecord(ctx, cases[i], InputOf(ctx.codec, cases[i]))
  {
    seq(k, i requires 0 <= i < k => CaseRecord(ctx, cases[i], InputOf(ctx.codec, cases[i])))
  }

  /** Number of records with status `st`. */
  function Count(rs: seq<RunRecord>, st: Status): (n: nat)
    ensures n <= |rs|
  {
    if rs == [] then 0
    else Count(rs[..|rs| - 1], st) + (if rs[|rs| - 1].status == st then 1 else 0)
  }

  /** One more record adds one to the count of its status. */
  lemma CountSnoc(rs: seq<RunRecord>, run: RunRecord, st: Status)
    ensures Count(rs + [run], st) == Count(rs, st) + (if run.status == st then 1 else 0)
  {
    assert (rs + [run])[..|rs|] == rs;
  }

  /** The pass, fail and error counts never exceed the number of records. */
  lemma {:induction false} CountsBounded(rs: seq<RunRecord>)
    ensures Count(rs, Pass) + Count(rs, Fail) + Count(rs, Error) <= |rs|
  {
    if rs != [] {
      CountsBounded(rs[..|rs| - 1]);
    }
  }

  /** Number of the first `k` cases whose run did not succeed. */
  function Failures(ctx: Context, cases: seq<TestCase>, k: nat): (n: nat)
    requires k <= |cases|
    ensures n <= k
  {
    if k == 0 then 0
    else
      Failures(ctx, cases, k - 1) +
      (if ctx.runner(ctx.compiled, InputOf(ctx.codec, cases[k - 1])).success then 0 else 1)
  }

  /** `errorCount` counts exactly the cases whose run failed. */
  lemma ErrorCountIsFailures(ctx: Context, cases: seq<TestCase>, k: nat)
    requires k <= |cases|
    ensures Count(CaseRecords(ctx, cases, k), Error) == Failures(ctx, cases, k)
  {
    var rs := CaseRecords(ctx, cases, k);
    forall i | 0 <= i < k
      ensures rs[i].status == Error <==> !ctx.runner(ctx.compiled, InputOf(ctx.codec, cases[i])).success
    {
      CaseRecordStatus(ctx, cases[i], InputOf(ctx.codec, cases[i]));
    }
    ErrorsAreFailures(ctx, cases, k, rs);
  }

  /** Any records whose statuses are `Error` exactly for the failed runs
      count the failures. */
  lemma {:induction false} ErrorsAreFailures(ctx: Context, cases: seq<TestCase>, k: nat, rs: seq<RunRecord>)
    requires k <= |cases| && |rs| == k
    requires forall i :: 0 <= i < k ==>
      (rs[i].status == Error <==> !ctx.runner(ctx.compiled, InputOf(ctx.codec, cases[i])).success)
    ensures Count(rs, Error) == Failures(ctx, cases, k)
  {
    if k > 0 {
      ErrorsAreFailures(ctx, cases, k - 1, rs[..k - 1]);
    }
  }

  /** A suite-run request; an override that is `null` or missing is `None`. */
  datatype Request = Request(
    suiteId: string,
    templateVersionId: string,
    userParamsOverride: Option<string>,
    aiTunablesOverride: Option<string>)

  /** A suite with its test cases, in stored order. */
  datatype SuiteEntry = SuiteEntry(suite: Suite, testCases: seq<TestCase>)

  /** The reply of POST. */
  datatype Reply =
    | Created(suiteRunId: nat, passCount: nat, failCount: nat, errorCount: nat,
              totalCount: nat, runs: seq<RunRecord>)
    | NotFound(message: string)
    | BadRequest(message: string)

  /** The checks made before anything is recorded, in the handler's order. */
  function Validate(req: Request, suites: map<string, SuiteEntry>, versions: map<string, Version>): (r: Option<Reply>)
    ensures r.Some? ==> !r.value.Created?
    ensures r.None? <==>
      req.suiteId != "" && req.templateVersionId != "" && req.suiteId in suites &&
      |suites[req.suiteId].testCases| > 0 && req.templateVersionId in versions
    ensures req.suiteId != "" && req.templateVersionId != "" && req.suiteId !in suites ==>
      r == Some(NotFound("Suite not found"))
    ensures req.suiteId != "" && req.templateVersionId != "" && req.suiteId in suites &&
            |suites[req.suiteId].testCases| == 0 ==>
      r == Some(BadRequest("Suite has no test cases"))
    ensures req.suiteId != "" && req.templateVersionId != "" && req.suiteId in suites &&
            |suites[req.suiteId].testCases| > 0 && req.templateVersionId !in versions ==>
      r == Some(NotFound("Template version not found"))
  {
    if req.suiteId == "" || req.templateVersionId == "" then Some(BadRequest("Invalid request"))
    else if req.suiteId !in suites then Some(NotFound("Suite not found"))
    else if |suites[req.suiteId].testCases| == 0 then Some(BadRequest("Suite has no test cases"))
    else if req.templateVersionId !in versions then Some(NotFound("Template version not found"))
    else None
  }

  /** The context a validated request runs its cases in. */
  function ContextFor(req: Request, entry: SuiteEntry, version: Version, suiteRunId: nat,
                      runner: Runner, codec: Codec): Context
  {
    Context(entry.suite.templateId, req.templateVersionId, suiteRunId,
            Script(version,
                   Effective(req.userParamsOverride, entry.suite.userParamsOverride, version.userParams),
                   Effective(req.aiTunablesOverride, entry.suite.aiTunablesOverride, version.aiTunables)),
            runner, codec)
  }

  /** The suite-run record as first created: the effective sections and the
      number of cases, with zero counts. */
  function Snapshot(req: Request, entry: SuiteEntry, version: Version): SuiteRunRecord {
    SuiteRunRecord(entry.suite.id, req.templateVersionId,
                   Effective(req.userParamsOverride, entry.suite.userParamsOverride, version.userParams),
                   Effective(req.aiTunablesOverride, entry.suite.aiTunablesOverride, version.aiTunables),
                   |entry.testCases|, 0, 0, 0)
  }

  /** POST: validate, compile once, create the suite-run record, run every
      case in order appending one run record each, then store the counts.
      An input that does not parse aborts the loop with 400, leaving the
      records made so far and the suite run with zero counts. */
  method Post(store: RunStore, req: Request, suites: map<string, SuiteEntry>,
              versions: map<string, Version>, runner: Runner, codec: Codec) returns (reply: Reply)
    modifies store
    ensures Validate(req, suites, versions).Some? ==>
      reply == Validate(req, suites, versions).value &&
      store.runs == old(store.runs) && store.suiteRuns == old(store.suiteRuns)
    ensures Validate(req, suites, versions).None? ==>
      var entry := suites[req.suiteId];
      var version := versions[req.templateVersionId];
      Recorded(ContextFor(req, entry, version, |old(store.suiteRuns)|, runner, codec),
               entry.testCases, Snapshot(req, entry, version),
               old(store.runs), old(store.suiteRuns), reply, store.runs, store.suiteRuns)
  {
    var rejected := Validate(req, suites, versions);
    if rejected.Some? {
      return rejected.value;
    }
    var entry := suites[req.suiteId];
    var version := versions[req.templateVersionId];
    var ctx := ContextFor(req, entry, version, |store.suiteRuns|, runner, codec);
    reply := RunSuite(store, ctx, entry.testCases, Snapshot(req, entry, version));
  }

  /** What running `cases` in `ctx` leaves behind, from the stored runs and
      suite runs before it to the reply and the stored runs and suite runs
      after it; `created` is the suite run as first recorded. */
  predicate Recorded(ctx: Context, cases: seq<TestCase>, created: SuiteRunRecord,
                     runs0: seq<RunRecord>, suiteRuns0: seq<SuiteRunRecord>,
                     reply: Reply, runs: seq<RunRecord>, suiteRuns: seq<SuiteRunRecord>)
  {
    var k := DecodablePrefix(ctx.codec, cases);
    var rs := CaseRecords(ctx, cases, k);
    runs == runs0 + rs &&
    (k < |cases| ==> reply.BadRequest? && suiteRuns == suiteRuns0 + [created]) &&
    (k == |cases| ==>
      reply == Created(ctx.suiteRunId, Count(rs, Pass), Count(rs, Fail), Count(rs, Error), |cases|, rs) &&
      suiteRuns == suiteRuns0 +
        [created.(passCount := Count(rs, Pass), failCount := Count(rs, Fail), errorCount := Count(rs, Error))])
  }

  /** The part of POST after validation: record the suite run, run the
      cases, then store the counts. */
  method RunSuite(store: RunStore, ctx: Context, cases: seq<TestCase>, created: SuiteRunRecord)
    returns (reply: Reply)
    requires ctx.suiteRunId == |store.suiteRuns|
    modifies store
    ensures Recorded(ctx, cases, created, old(store.runs), old(store.suiteRuns),
                     reply, store.runs, store.suiteRuns)
  {
    var suiteRunId := |store.suiteRuns|;
    store.suiteRuns := store.suiteRuns + [created];

    var ok, passCount, failCount, errorCount, runResults := RunCases(store, ctx, cases);
    if !ok {
      return BadRequest("Invalid JSON");
    }
    var counted := created.(passCount := passCount, failCount := failCount, errorCount := errorCount);
    ReplaceLast(old(store.suiteRuns), created, counted);
    store.suiteRuns := store.suiteRuns[suiteRunId := counted];
    return Created(suiteRunId, passCount, failCount, errorCount, |cases|, runResults);
  }

  /** The per-case loop: parse the stored input, run the script, append the
      record and bump the counter its status belongs to. */
  method RunCases(store: RunStore, ctx: Context, cases: seq<TestCase>)
    returns (ok: bool, passCount: nat, failCount: nat, errorCount: nat, runResults: seq<RunRecord>)
    modifies store`runs
    ensures var k := DecodablePrefix(ctx.codec, cases);
      ok == (k == |cases|) &&
      runResults == CaseRecords(ctx, cases, k) &&
      store.runs == old(store.runs) + runResults &&
      passCount == Count(runResults, Pass) &&
      failCount == Count(runResults, Fail) &&
      errorCount == Count(runResults, Error)
  {
    passCount, failCount, errorCount := 0, 0, 0;
    runResults := [];
    var k := 0;
    while k < |cases|
      invariant 0 <= k <= |cases| && Decodable(ctx.codec, cases, k)
      invariant runResults == CaseRecords(ctx, cases, k)
      invariant store.runs == old(store.runs) + runResults
      invariant Tally(runResults, passCount, failCount, errorCount)
    {
      var tc := cases[k];
      var input := ParseInput(ctx.codec, tc.inputJson);
      if input.None? {
        DecodableStops(ctx.codec, cases, k);
        return false, passCount, failCount, errorCount, runResults;
      }
      var result := ctx.runner(ctx.compiled, input.value);
      var run := CaseRecord(ctx, tc, input.value);
      TallyStep(runResults, run, passCount, failCount, errorCount);
      if !result.success {
        errorCount := errorCount + 1;
      } else if run.status == Pass {
        passCount := passCount + 1;
      } else if run.status == Fail {
        failCount := failCount + 1;
      }
      CaseRecordsStep(ctx, cases, k);
      store.runs := store.runs + [run];
      runResults := runResults + [run];
      k := k + 1;
    }
    DecodableAll(ctx.codec, cases);
    ok := true;
  }

  /** One more case adds its record at the end. */
  lemma CaseRecordsStep(ctx: Context, cases: seq<TestCase>, k: nat)
    requires k < |cases|
    ensures CaseRecords(ctx, cases, k + 1) ==
      CaseRecords(ctx, cases, k) + [CaseRecord(ctx, cases[k], InputOf(ctx.codec, cases[k]))]
  {
  }

  /** The three counters hold the counts of `rs`. */
  predicate Tally(rs: seq<RunRecord>, passCount: nat, failCount: nat, errorCount: nat) {
    passCount == Count(rs, Pass) && failCount == Count(rs, Fail) && errorCount == Count(rs, Error)
  }

  /** One more record adds one to the counter of its status. */
  lemma TallyStep(rs: seq<RunRecord>, run: RunRecord, passCount: nat, failCount: nat, errorCount: nat)
    requires Tally(rs, passCount, failCount, errorCount)
    ensures Tally(rs + [run],
                  passCount + (if run.status == Pass then 1 else 0),
                  failCount + (if run.status == Fail then 1 else 0),
                  errorCount + (if run.status == Error then 1 else 0))
  {
    CountSnoc(rs, run, Pass);
    CountSnoc(rs, run, Fail);
    CountSnoc(rs, run, Error);
  }

  /** Updating the record just appended. */
  lemma ReplaceLast(s: seq<SuiteRunRecord>, x: SuiteRunRecord, y: SuiteRunRecord)
    ensures (s + [x])[|s| := y] == s + [y]
  {
  }

  /** The first undecodable input ends the decodable prefix. */
  lemma DecodableStops(codec: Codec, cases: seq<TestCase>, k: nat)
    requires k < |cases| && Decodable(codec, cases, k)
    requires ParseInput(codec, cases[k].inputJson).None?
    ensures DecodablePrefix(codec, cases) == k
  {
  }

  /** When every input decodes, the prefix is the whole suite. */
  lemma DecodableAll(codec: Codec, cases: seq<TestCase>)
    requires Decodable(codec, cases, |cases|)
    ensures DecodablePrefix(codec, cases) == |cases|
  {
  }

  /** With a recorded suite run, pass + fail + error never exceeds the total,
      which is the number of cases. */
  lemma SuiteCountsBounded(ctx: Context, cases: seq<TestCase>)
    ensures var rs := CaseRecords(ctx, cases, |cases|);
      Count(rs, Pass) + Count(rs, Fail) + Count(rs, Error) <= |cases| &&
      Count(rs, Error) == Failures(ctx, cases, |cases|)
  {
    CountsBounded(CaseRecords(ctx, cases, |cases|));
    ErrorCountIsFailures(ctx, cases, |cases|);
  }
}
