# Rule studio core, modelled in Dafny

This project models the deterministic core of a web studio for battery-control
rule scripts. A rule template has four editable sections: user params, AI
tunables, helpers and main. It also has an ordered list of helper snippets.

- **Compiler.** The section compiler joins the sections into one Python script
  with fixed `# === NAME ===` header lines (`Compiler`, on top of `Text` and
  `Runs`).
- **Harness.** The execution harness builds the script's global namespace,
  gives it a decision logger, runs it, and reads back the action and the last
  logged description (`Harness`, `Values`). The Python interpreter is an
  oracle.
- **Test runs.** The API routes run one test case or a whole suite. They
  derive a pass/fail/pending/error status and record one run per case in
  order (`TestRun`, `SuiteRun`, `Records`). The suite routes create suites
  and update them partially (`Suites`).
- **Editor algorithms:**
  - the LCS line diff (`LineDiff`, `Subsequences`);
  - mapping validator report lines back to sections (`ReportMarkers`);
  - the test-input overlay (`TestInput`);
  - the helper-snippet toggle (`SnippetToggle`);
  - completion de-duplication (`Suggestions`).

Code that updates state step by step is written as methods, each proved
against a specification function. Those that loop carry loop invariants:

- `build_globals` (the loop `Harness.CopyInput`, called by
  `Harness.BuildGlobals`);
- the suite runner's loop over its cases (`SuiteRun.RunCases`);
- `buildLineDiff` (`LineDiff.LcsTable` fills an `array2`, and
  `LineDiff.Walk` and `LineDiff.Drain` walk it);
- `mapReportToMarkers`, `buildTestInput` and `toUniqueSuggestions`.

Those without a loop are:

- the decision logger, a class whose `Reason` method appends to its
  entries (`Harness.DecisionLogger`);
- the single-test handler's step-by-step assignments (`TestRun.RunCase`);
- the route handlers that write records (`TestRun.Post`, `SuiteRun.Post`,
  `SuiteRun.RunSuite`). They write to a `Records.RunStore` object that
  stands for the database.

The compiler, the status rules, the suite payload rules and the snippet toggle
are pure functions.

Behaviour kept as the code has it:

- **Single-test error status.** A runner failure whose error text is empty or
  missing does not make the single-test status `error`, because the handler
  tests the error text for truthiness. The status is then derived from the
  expectations, with the script's description as the actual description
  (`TestRun.RunCase`).
- **The two status rules differ.** The single-test rule passes a case whose
  expected action is set, when no action came back but a description did
  (`TestRun.MissingActionStillPasses`). The suite rule never looks at
  descriptions.
- **Unparseable suite input.** A stored input that does not parse aborts a
  suite run with 400. The records already made and the suite-run record with
  zero counts stay behind (`SuiteRun.Recorded`).
- **Repeated headers.** One might expect each header to occur exactly once
  in a compiled script. The code does not ensure this
  when a section itself contains a header line. The report mapper uses the
  first occurrence of each header, and the model states exactly that
  (`ReportMarkers.HeadersSound`, `ReportMarkers.HeadersComplete`).

## Model

| member | source | states |
|---|---|---|
| Text.Trim | src/lib/compiler.ts:9 | `trim` leaves no whitespace at either end, and gives the empty string exactly when the text is all whitespace |
| Text.TrimNoop | src/lib/compiler.ts:9 | text with no whitespace at either end is unchanged by `trim` |
| Text.Split | src/components/RuleStudio.tsx:248-249 | `split("\n")` yields at least one piece and no piece holds the separator |
| Text.JoinSplit | src/components/RuleStudio.tsx:248-249 | joining the split lines with the separator gives the text back |
| Text.SplitJoin | src/components/RuleStudio.tsx:1062 | splitting lines that were joined by the separator gives the lines back |
| Runs.CollapseNoTriple | src/lib/compiler.ts:9 | after replacing every run of three or more newlines by two, no three newlines are left in a row |
| Runs.CollapseFixpoint | src/lib/compiler.ts:37 | the replacement leaves text without three newlines in a row unchanged |
| Runs.CollapseAppend | src/lib/compiler.ts:37 | the replacement works piece by piece when no newline run straddles the cut |
| Compiler.Normalize | src/lib/compiler.ts:9 | `normalize` output has no outer whitespace and no triple newline, and is empty exactly when the input is blank |
| Compiler.NormalizeIdempotent | src/lib/compiler.ts:9 | normalizing twice is normalizing once |
| Compiler.DropEmpty | src/lib/compiler.ts:17 | `filter(Boolean)` keeps only non-empty elements of its input, and nothing when all are empty |
| Compiler.DropEmptyAppend | src/lib/compiler.ts:17 | one more element at the end is kept exactly when it is non-empty, after the earlier ones |
| Compiler.NormalizedSnippets | src/lib/compiler.ts:15-17 | the kept snippets are non-empty and normalized, and there are no more of them than inputs |
| Compiler.NormalizedSnippetsAppend | src/lib/compiler.ts:15-17 | one more snippet adds its normalized text at the end exactly when that is non-empty (input order is kept) |
| Compiler.AllBlankSnippets | src/lib/compiler.ts:15-17 | blank snippets are all dropped |
| Compiler.SnippetBlockAppend | src/lib/compiler.ts:15-18 | the snippet block grows by a blank line and the next non-empty normalized snippet, or stays as it is |
| Compiler.JoinAppend | src/lib/compiler.ts:18 | joining one more part appends the separator and the part |
| Compiler.CombinedHelpersShape | src/lib/compiler.ts:20 | the combined helpers block is helpers, a blank line, then snippets, with either part omitted when empty |
| Compiler.HelpersTextClean | src/lib/compiler.ts:20 | the combined helpers block has no outer whitespace and no triple newline |
| Compiler.Layout | src/lib/compiler.ts:22-38 | twelve lines joined, collapsed and end-trimmed give each header followed by its block |
| Compiler.CompileLayout | src/lib/compiler.ts:22-38 | the compiled script is USER PARAMS, AI TUNABLES, HELPERS and MAIN headers in that order, each followed by its normalized section and a blank line, with nothing after the main section |
| Compiler.CompileStartsWithUserParams | src/lib/compiler.ts:22-23 | the output starts with the USER PARAMS header line |
| Compiler.CompileNoTripleNewline | src/lib/compiler.ts:37 | the output never holds three consecutive newlines |
| Compiler.CompileNoTrailingWhitespace | src/lib/compiler.ts:38 | the output is non-empty and does not end in whitespace |
| Compiler.CompileAllBlank | src/lib/compiler.ts:22-38 | with all sections and snippets blank, the output is exactly the four headers separated by single blank lines |
| Values.Get | src/lib/powston-harness.py:117-122 | `dict.get(key, default)` gives the stored value or the default |
| Harness.ReasonEntry | src/lib/powston-harness.py:26-30 | the logged entry holds the action, the description and every extra keyword argument, and nothing else |
| Harness.DecisionLogger.constructor | src/lib/powston-harness.py:21-23 | a new logger has no entries and no last action |
| Harness.DecisionLogger.Reason | src/lib/powston-harness.py:25-33 | `reason` appends exactly one entry after the earlier ones, records the last action and returns the action |
| Harness.DecisionLogger.ToDict | src/lib/powston-harness.py:35-36 | `to_dict` is a single `reasons` key listing the entries in order |
| Harness.TimeField | src/lib/powston-harness.py:49-51 | an hour or minute argument is accepted exactly when it is an in-range integer (or a bool), and anything else raises |
| Harness.IntervalTimeCases | src/lib/powston-harness.py:42-54 | the clock reading when absent; ISO parsing for a string; for a dict, hour and minute replaced (each defaulting to the current one) and seconds and microseconds zeroed, or a raise |
| Harness.Defaults | src/lib/powston-harness.py:59-82 | the defaults bind `action` to "auto", `battery_soc` to 50.0, `optimal_charging` to 5000, `interval_time` to the time and `decisions` to the harness's logger |
| Harness.OverlayKeys | src/lib/powston-harness.py:84-95 | the merged namespace holds exactly the base keys and the input keys |
| Harness.OverlayInput | src/lib/powston-harness.py:84-95 | every non-reserved input key is copied as given; `soc` sets `battery_soc` only when `battery_soc` is absent, and an explicit `battery_soc` wins |
| Harness.OverlayBase | src/lib/powston-harness.py:84-95 | reserved keys and keys the input does not override keep the base value |
| Harness.NamespaceKeys | src/lib/powston-harness.py:84-95 | the namespace holds exactly the default keys and the input keys |
| Harness.NamespaceInput | src/lib/powston-harness.py:84-95 | every input key except `interval_time` and `decisions` overwrites its default; the `soc` alias applies only without `battery_soc` |
| Harness.NamespaceDefaults | src/lib/powston-harness.py:81-91 | `decisions` is always the harness's fresh logger and `interval_time` the computed time; untouched defaults survive |
| Harness.UntouchedDefaults | src/lib/powston-harness.py:59-85 | without those input keys, `action` is "auto", `battery_soc` is 50.0 and `optimal_charging` is 5000 |
| Harness.NamespaceAction | src/lib/powston-harness.py:72-91 | the namespace's `action` is the input's, or "auto" |
| Harness.CopyInput | src/lib/powston-harness.py:85-91 | the copy loop ends with the base overwritten by every input key except the reserved ones |
| Harness.Globals | src/lib/powston-harness.py:39-97 | `build_globals` raises exactly when the interval time raises, and otherwise returns the namespace |
| Harness.BuildGlobals | src/lib/powston-harness.py:39-97 | the imperative `build_globals` computes exactly `Globals` |
| Harness.LastDescription | src/lib/powston-harness.py:120-122 | the description is the last entry's description, or None when nothing was logged or the last entry is an empty dict; a non-empty last entry without a "description" key raises `KeyError` |
| Harness.RunTemplateOutcome | src/lib/powston-harness.py:100-133 | on an exception in the script: `success` false, action and description None, no reasons; an exception escapes exactly when the namespace cannot be built, the script raises something other than an `Exception` (such as `SystemExit`), `decisions` was rebound, or the last entry lacks a description; otherwise: the namespace's action (default "auto"), the logged entries, the last entry's description |
| Harness.ReportedAction | src/lib/powston-harness.py:100-133 | a script that leaves `action` alone reports the input's `action`, or "auto" |
| Records.ParseInput | src/app/api/tests/run/route.ts:87 | an empty stored input parses as `{}` |
| Records.ReasonsText | src/app/api/tests/run/route.ts:117-120 | the reasons are stringified when there are any, and null otherwise |
| TestRun.DeriveStatus | src/app/api/tests/run/route.ts:24-47 | pending without expectations or without any actual value; fail on an action or description mismatch where both sides are present; pass otherwise; never error |
| TestRun.MissingActionStillPasses | src/app/api/tests/run/route.ts:30-44 | an expected action with no actual action but a description passes |
| TestRun.EffectiveInput | src/app/api/tests/run/route.ts:87-90 | override keys win, and all other stored keys are unchanged |
| TestRun.CaseOutcome | src/app/api/tests/run/route.ts:97-130 | a missing version or compiled text gives status error; a runner failure puts the error text in `actualDescription`; status is error exactly when the run error is truthy, and is otherwise derived from the expectations |
| TestRun.RunCase | src/app/api/tests/run/route.ts:97-130 | the step-by-step assignments of the handler compute exactly `CaseOutcome` |
| TestRun.Record | src/app/api/tests/run/route.ts:132-145 | the record carries the case, the stringified effective input, the expectations and the outcome |
| TestRun.Post | src/app/api/tests/run/route.ts:76-152 | an empty id or an unparseable input is 400 and an unknown case is 404, with nothing recorded; otherwise exactly one run is appended, and it is the record of the case's `CaseOutcome` on the overlaid input |
| SuiteRun.DeriveStatus | src/app/api/suites/run/route.ts:27-34 | pending when the expected or actual action is absent; otherwise pass iff they are equal, else fail; descriptions are never consulted |
| SuiteRun.Effective | src/app/api/suites/run/route.ts:105-108 | request ?? suite ?? version, so only an absent value falls through |
| SuiteRun.CaseRecord | src/app/api/suites/run/route.ts:139-177 | a failed run is recorded as error with the error text and null action and reasons; a successful run with its action, description, reasons and derived status |
| SuiteRun.CaseRecordStatus | src/app/api/suites/run/route.ts:148-151 | a case is recorded as error exactly when its run failed |
| SuiteRun.DecodablePrefix | src/app/api/suites/run/route.ts:139-140 | the cases before the first unparseable stored input |
| SuiteRun.InputOf | src/app/api/suites/run/route.ts:140 | the object a parseable stored input parses to |
| SuiteRun.CaseRecords | src/app/api/suites/run/route.ts:139-177 | one record per case, in case order |
| SuiteRun.Count | src/app/api/suites/run/route.ts:133-161 | a status count never exceeds the number of records |
| SuiteRun.CountsBounded | src/app/api/suites/run/route.ts:133-161 | pass + fail + error never exceeds the number of records |
| SuiteRun.Failures | src/app/api/suites/run/route.ts:148-151 | the number of failed runs never exceeds the number of cases |
| SuiteRun.ErrorsAreFailures | src/app/api/suites/run/route.ts:148-151 | records whose error status matches the failed runs count exactly the failures |
| SuiteRun.ErrorCountIsFailures | src/app/api/suites/run/route.ts:148-151 | `errorCount` counts exactly the cases whose run failed |
| SuiteRun.SuiteCountsBounded | src/app/api/suites/run/route.ts:128-161 | pass + fail + error never exceeds `totalCount`, the number of cases, and the error count is the failures |
| SuiteRun.Validate | src/app/api/suites/run/route.ts:72-102 | unknown suite 404, empty suite 400, unknown version 404, in that order, and only a request passing all checks goes on |
| SuiteRun.Post | src/app/api/suites/run/route.ts:70-215 | a rejected request records nothing; otherwise one suite run with the effective snapshots, one run per case in order with the same suite-run id, and the counts |
| SuiteRun.RunSuite | src/app/api/suites/run/route.ts:121-210 | records the suite run, runs the cases, then stores the counts on that suite run |
| SuiteRun.RunCases | src/app/api/suites/run/route.ts:133-189 | the loop appends exactly the case records in order and its counters hold the pass, fail and error counts of those records |
| SuiteRun.TallyStep | src/app/api/suites/run/route.ts:148-161 | one more record adds one to the counter of its status and leaves the other counters alone |
| Suites.OrNull | src/app/api/suites/route.ts:59-61 | an omitted or null create field is stored as null, and a given value as itself |
| Suites.Create | src/app/api/suites/route.ts:52-63 | create succeeds exactly with a non-empty template id and name, and stores the fields as given or null |
| Suites.CreateDefaultsNull | src/app/api/suites/route.ts:55-63 | omitted description and overrides are stored as null |
| Suites.Apply | src/app/api/suites/route.ts:82-92 | a missing field keeps the stored value, null clears it, and a value replaces it |
| Suites.Update | src/app/api/suites/route.ts:78-93 | a name given on update must be non-empty; only fields present in the payload are written |
| Suites.EmptyUpdateKeeps | src/app/api/suites/route.ts:82-93 | an empty update payload changes nothing |
| Suites.ClearedOverrideFallsBack | src/app/api/suites/route.ts:86-88 | clearing an override with null makes a later run fall back to the version's section, whereas omitting it keeps the override |
| Suites.Put | src/app/api/suites/route.ts:71-99 | a missing id is 400; otherwise exactly that suite is replaced by its update |
| Suites.Delete | src/app/api/suites/route.ts:101-115 | a missing id is 400; otherwise exactly that suite is removed and the rest are unchanged |
| Subsequences.Lcs | src/components/RuleStudio.tsx:256-263 | the recurrence value is at most the length of either side |
| Subsequences.LcsAt | src/components/RuleStudio.tsx:258-262 | the recurrence as the table reads it at cell `i, j` |
| Subsequences.LcsUpperBound | src/components/RuleStudio.tsx:252-264 | no common subsequence is longer than the recurrence value |
| LineDiff.LcsTable | src/components/RuleStudio.tsx:252-264 | `dp[i][j]` is the LCS length of the left lines from `i` and the right lines from `j` |
| LineDiff.FillRow | src/components/RuleStudio.tsx:257-263 | one row of the table is filled from the row below and no other row changes |
| LineDiff.Emit | src/components/RuleStudio.tsx:271-283 | pushing one row advances past exactly the lines it shows |
| LineDiff.Walk | src/components/RuleStudio.tsx:266-296 | the rows replay both sides, the kept lines number `dp[0][0]`, and the row count is left + right − kept |
| LineDiff.Drain | src/components/RuleStudio.tsx:286-296 | the two tail loops emit the leftover lines without adding kept lines |
| LineDiff.CommonIsSubseq | src/components/RuleStudio.tsx:271-296 | the kept lines are a common subsequence of the two sides |
| LineDiff.BuildLineDiff | src/components/RuleStudio.tsx:247-299 | non-added rows reproduce the left text and non-removed rows the right text; the kept lines are a longest common subsequence; row numbers run 1, 2, 3, … |
| LineDiff.DiffKeepsMost | src/components/RuleStudio.tsx:256-296 | no common subsequence of the two sides is longer than the kept lines |
| ReportMarkers.HeaderTextAgrees | src/components/RuleStudio.tsx:1063-1070 | the header line searched for each section is the one the compiler writes |
| ReportMarkers.FindWhereFirst | src/components/RuleStudio.tsx:1064 | the search finds the first matching line, and -1 only when none matches |
| ReportMarkers.FindIndexFirst | src/components/RuleStudio.tsx:1063-1064 | `findIndex` gives the first line that trims to the header, and -1 only when there is none |
| ReportMarkers.InsertSorted | src/components/RuleStudio.tsx:1077 | inserting into a list sorted by index keeps it sorted |
| ReportMarkers.InsertElements | src/components/RuleStudio.tsx:1077 | inserting adds exactly the new header |
| ReportMarkers.SortByIndex | src/components/RuleStudio.tsx:1077 | the sort gives a list sorted by index that is a permutation of its input |
| ReportMarkers.Located | src/components/RuleStudio.tsx:1066-1075 | each header carries its section's `findIndex` result |
| ReportMarkers.LocatedEvery | src/components/RuleStudio.tsx:1066-1075 | every one of the four sections is looked up |
| ReportMarkers.Keep | src/components/RuleStudio.tsx:1076 | exactly the headers with a non-negative index are kept |
| ReportMarkers.Headers | src/components/RuleStudio.tsx:1066-1077 | the found headers, sorted by line |
| ReportMarkers.HeadersSound | src/components/RuleStudio.tsx:1063-1077 | every found header sits on a line that trims to its header text, and no earlier line does |
| ReportMarkers.HeadersComplete | src/components/RuleStudio.tsx:1063-1077 | every section whose header line occurs is found, at or before that line |
| ReportMarkers.FindLast | src/components/RuleStudio.tsx:1090 | `findLast` gives the last header whose 1-based line is strictly above the reported line |
| ReportMarkers.FindLastNearest | src/components/RuleStudio.tsx:1090 | on sorted headers this is the nearest header above the line; with none, the line is at or before every header |
| ReportMarkers.Attribute | src/components/RuleStudio.tsx:1086-1098 | a numeric line goes to that header's section with local line = line − header line ≥ 1; other lines are dropped |
| ReportMarkers.Step | src/components/RuleStudio.tsx:1099-1124 | HELPERS lines add only an error entry; every other section adds one marker and one error entry |
| ReportMarkers.CollectCounts | src/components/RuleStudio.tsx:1086-1125 | one error per attributed entry, one marker per attributed non-helpers entry, and every local line ≥ 1 |
| ReportMarkers.MapEntries | src/components/RuleStudio.tsx:1086-1125 | the `forEach` loop computes exactly the collected markers and errors |
| ReportMarkers.MapReportToMarkers | src/components/RuleStudio.tsx:1061-1128 | `mapReportToMarkers` is the collection over the sorted headers of the split script |
| TestInput.ParseFieldValue | src/components/RuleStudio.tsx:393-415 | blank → "", the literals true/false/null, then a number, then JSON, else the text as typed |
| TestInput.ParseFieldValueTrim | src/components/RuleStudio.tsx:393-415 | surrounding whitespace matters only when no parser accepts the text |
| TestInput.Row | src/components/RuleStudio.tsx:426-431 | a row writes nothing when its trimmed key is blank, else the trimmed key and the parsed value |
| TestInput.Rows | src/components/RuleStudio.tsx:426-432 | one write per field row, in order |
| TestInput.LastWrite | src/components/RuleStudio.tsx:426-432 | the last write to a key, and no later one |
| TestInput.LayLookup | src/components/RuleStudio.tsx:425-433 | a key holds its last write, or the base value when it is never written |
| TestInput.LayKeys | src/components/RuleStudio.tsx:425-433 | the result's keys are the base's and the written ones |
| TestInput.OverlayLookup | src/components/RuleStudio.tsx:417-435 | a non-blank trimmed key holds the value of the last row with that key; other keys keep the base value; blank keys are never written |
| TestInput.BuildTestInput | src/components/RuleStudio.tsx:417-435 | an invalid base is rejected with "Invalid JSON input.", and otherwise the rows are laid over it |
| SnippetToggle.Remove | src/components/RuleStudio.tsx:927 | `filter` removes every copy of the id and keeps every other id |
| SnippetToggle.RemoveAbsent | src/components/RuleStudio.tsx:927 | removing an absent id changes nothing |
| SnippetToggle.Toggle | src/components/RuleStudio.tsx:921-931 | the id is selected afterwards exactly when it was not before, and other ids are unchanged |
| SnippetToggle.ToggleNoDup | src/components/RuleStudio.tsx:921-931 | a duplicate-free selection stays duplicate-free |
| SnippetToggle.ToggleTwiceAbsent | src/components/RuleStudio.tsx:921-931 | toggling an unselected id twice restores the list |
| SnippetToggle.ToggleTwicePresent | src/components/RuleStudio.tsx:921-931 | toggling a selected id twice moves it to the end |
| Suggestions.Unique | src/lib/powstonSuggestions.ts:114-123 | output labels are pairwise distinct, and every input label occurs in the output |
| Suggestions.UniqueKeepsFirst | src/lib/powstonSuggestions.ts:116-121 | each kept entry is the first one in the input with its label |
| Suggestions.UniqueSubseq | src/lib/powstonSuggestions.ts:116 | the output is a subsequence of the input, so order is kept |
| Suggestions.UniqueDistinct | src/lib/powstonSuggestions.ts:114-123 | a list with distinct labels is left as it is |
| Suggestions.UniqueIdempotent | src/lib/powstonSuggestions.ts:114-123 | de-duplicating twice is de-duplicating once |
| Suggestions.ToUniqueSuggestions | src/lib/powstonSuggestions.ts:114-123 | the loop with a set of seen labels computes exactly `Unique` |

## Left out

- **Pyodide runner.** The interpreter bridge in src/lib/python-runner.ts is not modelled: a lazy singleton, foreign calls into Pyodide, and a copy of the harness code. The runner is the oracle `Records.Runner`.
- **Oracles.** Python `exec` of the user script, `datetime.now()` and `datetime.fromisoformat` are oracles. They are passed in as `exec`, `now` and `fromIso`.
  - `Harness.ValidClock` only demands what a real clock reading satisfies.
  - A script's effect is summarized as its final namespace and its logged entries.
- **JSON.** `JSON.parse` and `JSON.stringify` are the functions of `Records.Codec`. A parse that yields a valid non-object (a number, a list, `null`) counts as a parse failure in the model. The code does not fail there, so three members differ from it on such stored inputs (below).
- TestRun.Post: the code hands the value (or the overrides spread over it) to the runner and records an error run or a normal run; the model answers 400 and records nothing.
- SuiteRun.Post: the code records a run for that case (an error run when the harness rejects the input) and goes on with the next case; the model stops the suite run there with 400, as `SuiteRun.DecodablePrefix` states.
- TestInput.BuildTestInput: the code spreads the value into an object (`{}`, or index keys for a list or string) and raises no error; the model rejects it with "Invalid JSON input.".
- **Error messages.** Exact texts of zod and Prisma error messages are not modelled. Those rejections carry placeholder messages, and only the status class (400/404) is modelled.
- **Persistence.** The database is modelled as in-memory sequences of records in `Records.RunStore` and a map of suites.
  - Record ids, timestamps and the non-atomic separate writes are not modelled.
  - The suite run's id is its position in the sequence.
- **Thin routes.** The GET list routes and the other CRUD routes are not modelled, nor is the compile route that wraps the compiler.
- **UI.** The React state, effects, local storage and resize handlers around the editor algorithms are not modelled.
- **Python dict order.** Namespaces, inputs and logged entries are maps, so key order is not modelled. Two recorded texts depend on it and are modelled only up to key order. The first is a single-test run's `inputJson`: the code stringifies the stored keys and then the spread overrides, in insertion order. The second is `actualReasons` in both routes: each entry's keys are stringified in the order Python built the dict (`action`, `description`, then the keyword arguments). `Records.Codec.stringify` takes an unordered map, so inputs that differ only in key order record the same text in the model and different texts in the code.
- **Numbers in field values.** `Number(trimmed)` in `parseFieldValue` is the oracle `ValueParsers.number`, so floating-point parsing is not modelled.
- **Non-integer report lines.** A report line that is not a number, or is NaN, is dropped by the code; the model writes it as `None` and drops it the same way. A number line that is not an integer (12.5, `Infinity`) is kept by the code, which places a marker and an error at a fractional or infinite local line. Such lines are not modelled.
- **Suggestion extraction.** The regex extraction of identifiers for derived suggestions is not modelled. Only `toUniqueSuggestions` is modelled.
- SuiteRun.InputOf: for a case whose stored input does not parse, it gives an empty object. The model only ever uses it on cases inside the decodable prefix, where it is the parsed object.
- Harness.ReportedAction: it is stated only for scripts that leave `action` as the harness set it, do not rebind `decisions` to something else, and do not log a last entry without a description. A script that assigns `action` reports that value instead, as `Harness.RunTemplateOutcome` states.
- SnippetToggle.ToggleTwicePresent: toggling a selected id twice does not restore the original list unless the id was last. The contract states where the id ends up rather than a restored list.
- Harness.DecisionLogger.Reason: its `requires` excludes a keyword argument named `self`, `action` or `description`. Python raises `TypeError` for those calls, and that error path is not modelled.
- **Logged entries.** The logger's entries are dicts. A script that appends something other than a dict to `decisions.reasons` is not modelled.
- **Record writes.** The store is assumed to accept every record, and a run's action and description are assumed to be strings (`Records.RunnerResult`). A script that sets a non-string `action` (such as `action = 5`) makes the database write throw in the code. The single-test route then answers 400 with nothing recorded, and a suite run ends with 400. In the model both routes record a normal run.
