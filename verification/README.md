# api_test_with_xlsx — a Dafny model of the test runner

`api_test_with_xlsx.py` runs HTTP API tests described in an Excel workbook.
A "Basic Data" sheet holds the mail settings. A "Test Case" sheet holds one
test case per row.

`get_test_case` walks the rows in order:
- it skips inactive rows;
- it evaluates the request data;
- it reports an empty checkpoint and skips that row;
- it routes the login URL through a three-attempt gate that ends the run
  when the login keeps failing;
- it times every other case as one `run_api` call.

At the end it decides, by `if_mail`, whether mail goes out and to whom. A
clean run's mail ranks the recorded timings, longest first.

`run_api` does the following:
- builds headers from the request data type;
- picks the request by method and type;
- retries only on connection errors, at most three attempts, waiting ten
  seconds between them;
- classifies the response body as JSON-like by a regular expression;
- saves the response when the checkpoint names an export file;
- judges the checkpoint, returning the failure marker `{'msg': '執行失敗'}`
  plus report text, or the response.

The model has seven modules:

| module | file | what it holds |
|---|---|---|
| `Wrappers` | `wrappers.dfy` | the optional value (`Option`) |
| `Text` | `text.dfy` | `str.strip`, `replace(' ', '')`, `split`/`join` and `%d` on natural numbers |
| `Patterns` | `patterns.dfy` | the three regular expressions of the runner |
| `BasicData` | `basic_data.dfy` | the settings, recipient parsing and `get_role_id` |
| `Ranking` | `ranking.dfy` | the stable descending sort of the timings |
| `Api` | `api.dfy` | `run_api` |
| `Runner` | `runner.dfy` | the row loop and the end-of-run mail policy |

**How each regular expression is modelled.** Each one is an explicit
scanning predicate or extractor, plus a declarative "shape": the
concatenation of constrained pieces that the regex describes. An
if-and-only-if lemma ties the two together. Python's `re.match` semantics
are written out: the match is anchored at the start, `.` excludes newline,
and `$` also matches before one final newline.

**How the row loop is stated.** The row loop is stated for any `run_api`
that keeps the contract `Runner.Honest` asks for. That contract says:
- the report only grows;
- the failure marker comes back exactly when text was added;
- there are at most three attempts;
- every wait is the ten-second retry wait.

`Runner.ModelKeepsContract` proves that `Api.RunApi` keeps this contract.
`Runner.RunTests` runs the loop with it.

**Oracles.** What the script takes from its environment comes in as
oracles (`Runner.Oracles`):
- how the n-th request attempt of the run ends: a response, a connection
  error, another request error, or a missing upload file;
- the evaluation of each row's request data;
- the truth value or evaluation error of each call's checkpoint;
- the printed form of `json.loads`;
- the duration of each call.

The attempt, request-data, checkpoint and duration oracles are indexed by
how far the run has got: the attempt number, the row position, and the
number of calls made so far. The `json.loads` oracle is a function of the
response text. `random.choice` is an index `pick`, taken modulo the pool
size. Effects (attempts, sleeps, file
writes) are recorded as events in a trace.

**Behaviour modelled as the code does it.** In these three places the code
does something its messages or comments do not lead one to expect. The model
follows the code:
- Request data that is not a dict is reported as a failure with the reason
  「req_data」要求為字典類型, yet no `continue` follows the message, so the row
  still runs (`api_test_with_xlsx.py:219-221`).
- `temp_time = time_record` aliases the list. Every login attempt therefore
  adds a timing record, although the comment at line 237 says one is kept
  (`api_test_with_xlsx.py:238-250`).
- The login loop sleeps 30 seconds after the third failure too, before it
  gives up (`api_test_with_xlsx.py:264-271`).

## Model

| member | source | states |
|---|---|---|
| Text.Strip | api_test_with_xlsx.py:183-184 | `str.strip()`: the result is a slice of the input with only whitespace (Python's `isspace` set) outside it, and it neither starts nor ends with whitespace |
| Text.RemoveSpaces | api_test_with_xlsx.py:183-184 | `replace(' ', '')`: no space is left, and every other character keeps its count |
| Text.RemoveSpacesAppend | api_test_with_xlsx.py:183-184 | deleting spaces works piece by piece, so the kept characters stay in their order |
| Text.RemoveSpacesChar | api_test_with_xlsx.py:183-184 | on one character, a space is dropped and anything else is kept; with the piecewise lemma this fixes the result for every string |
| Text.RemoveSpacesIdempotent | api_test_with_xlsx.py:183-184 | removing spaces twice is the same as removing them once |
| Text.Split | api_test_with_xlsx.py:183-184 | `split(',')`: at least one field, no field holds the separator, and joining the fields gives back the input |
| Text.SplitJoin | api_test_with_xlsx.py:183-184 | the other round trip: splitting a join of separator-free fields gives back the fields |
| Text.NatToStringValue | api_test_with_xlsx.py:436-437 | the `%d` rendering of the status code reads back as the same number |
| BasicData.Recipients | api_test_with_xlsx.py:183-184 | the recipient list of a `mail_to_*` cell is never empty, has no spaces or commas in any address, and joins back to the stripped, space-free cell |
| BasicData.RecipientsOfList | api_test_with_xlsx.py:183-184 | a cell written as a comma-joined list of clean addresses parses back to exactly that list |
| BasicData.RoleId | api_test_with_xlsx.py:117-125 | `get_role_id` gives `None` exactly when no role has the name; otherwise it gives the id of the first role with that name |
| Ranking.SortDesc | api_test_with_xlsx.py:305 | the ranking is ordered by duration, longest first, and is a permutation of the records |
| Ranking.SortDescStable | api_test_with_xlsx.py:305 | records of equal duration keep their original relative order (`sorted` is stable, also with `reverse=True`) |
| Patterns.JsonLikeIsRegex | api_test_with_xlsx.py:402 | a body is classified JSON-like exactly when it reads `{`, colon-free text, `:`, one line, `}`, then at most one newline |
| Patterns.LoginUrlIsRegex | api_test_with_xlsx.py:232 | a URL is the login URL exactly when it is one line ending in `/user/login`, optionally followed by one newline |
| Patterns.ExportMatchIsRegex | api_test_with_xlsx.py:409 | with the leading `.*` fixed to a prefix, the matcher captures a name exactly when the checkpoint has the shape `export_file`, spaces, `==`, spaces, a quoted quote-free name, then the rest of the line |
| Patterns.ExportFileNameIsLastMatch | api_test_with_xlsx.py:409-411 | the captured file name is the one of the greedy (last) match position; there is none only when no position matches |
| Api.EffectiveType | api_test_with_xlsx.py:331-333 | an empty `req_data_type` becomes form encoding; any other value is kept |
| Api.Headers | api_test_with_xlsx.py:324-342 | headers exist exactly for the three known types; they hold the three fixed headers; `Content-Type` with `; charset=UTF-8` is set for form and JSON and absent for multipart |
| Api.ApiUrl | api_test_with_xlsx.py:203 | the case's URL reads back as `http://`, then the host, then the path, each at its place |
| Api.CallFailureTexts | api_test_with_xlsx.py:341-437 | each failure text of `run_api` (lines 341, 371, 379, 389, 395, 423, 437) opens with `API: <title> >> 執行失敗 >><br>` and closes with `<br><br>`; the two parameter errors differ |
| Api.EntryShape | api_test_with_xlsx.py:341 | the title reads back from the failure head, and the entry's body follows the head |
| Api.CheckFalseShowsStatus | api_test_with_xlsx.py:437 | a false checkpoint's entry shows the status code right after `>> Status Code: ` |
| Api.ParameterErrorsDiffer | api_test_with_xlsx.py:341-371 | an unknown data type and an unknown method give different texts |
| Api.Dispatch | api_test_with_xlsx.py:357-372 | a request exists exactly for `get`, or `post` with a known type; `get` sends the data as query parameters only when it is truthy; `post` sends a form body, a JSON body or the `file` part by type; every request has the case's URL, the headers and the 7-second timeout |
| Api.RetryFrom | api_test_with_xlsx.py:350-399 | attempts go on only through connection errors, at most three in all; the last attempt made decides delivery or failure; attempts alternate with 10-second waits |
| Api.RetrySettles | api_test_with_xlsx.py:355-399 | the loop makes exactly one attempt more than the number of leading connection errors (three at most), and that settling attempt decides the result |
| Api.Classify | api_test_with_xlsx.py:402-406 | a JSON-like body becomes the printed form of its `json.loads` parse; any other body is kept as its raw text |
| Api.SaveEvents | api_test_with_xlsx.py:409-415 | one file write, of the response under the captured name, exactly when the checkpoint names an export file |
| Api.RunApi | api_test_with_xlsx.py:323-438 | the report only grows; text is added exactly when the failure marker is returned; the response is kept only when the checkpoint evaluated to true; at most three attempts; every wait is the retry wait |
| Api.RejectedBeforeSending | api_test_with_xlsx.py:331-372 | an unknown data type, or an unknown method, fails with its own message before any attempt |
| Api.ConnErrorsExhaust | api_test_with_xlsx.py:376-380 | three connection errors fail the case with the third error's text, after two 10-second waits |
| Api.OtherErrorsFailAtOnce | api_test_with_xlsx.py:387-396 | another request error, or a missing upload file, fails the case at the attempt it happens, with its text |
| Api.CheckpointDecides | api_test_with_xlsx.py:417-438 | after a response: a true checkpoint keeps the classified response and adds nothing; a false one reports status, URL and response; an evaluation error reports the error |
| Api.EffectsSave | api_test_with_xlsx.py:409-415 | a file is written exactly when a response arrived and the checkpoint names a file; it holds that response under that name |
| Api.SaveBeforeCheck | api_test_with_xlsx.py:409-424 | the export file is written before the checkpoint is evaluated: a call's effects are the same whatever the checkpoint gives |
| Runner.RowFailureTexts | api_test_with_xlsx.py:216-228 | the row loop's three failure texts open with the case's failure head and close with `<br><br>`, and each names the URL at a fixed place after the head |
| Runner.LoginSucceeded | api_test_with_xlsx.py:252 | a login can succeed only on a response: neither the `{}` placeholder nor the failure marker contains `'msg': 'success'` |
| Runner.SentinelIsNoLogin | api_test_with_xlsx.py:252 | the failure marker never contains `'msg': 'success'` |
| Runner.ModelKeepsContract | api_test_with_xlsx.py:323-438 | `run_api` as modelled keeps the contract the row loop relies on |
| Runner.Call | api_test_with_xlsx.py:276-282 | one timed call stores a non-placeholder outcome under the case's id, changes no other key, appends one timing record under the case's title, only extends the report, and extends it exactly when the failure marker is stored |
| Runner.LoginAttempt | api_test_with_xlsx.py:242-271 | the chain of attempts the gate walks: after `k` attempts there are `k` new timing records and `k - 1` 30-second sleeps |
| Runner.FirstLogin | api_test_with_xlsx.py:242-263 | the attempt the gate ends at: every earlier attempt failed to log in, and it logged in unless it is the third |
| Runner.LoginRetry | api_test_with_xlsx.py:242-275 | the later login attempts change only the login case's entry, add between one and the remaining number of timing records, and keep earlier ones |
| Runner.LoginRetryOutcome | api_test_with_xlsx.py:242-275 | all new records carry the login title; the run stops exactly when the last attempt did not log in; success restores the report from before the row; a stop reports the first failure plus the fatal notice after all attempts, each followed by a 30-second sleep |
| Runner.LoginRetryStep | api_test_with_xlsx.py:252-271 | one login attempt: a success or the third failure ends the retries, any other failure sleeps and tries again |
| Runner.LoginRetryFirstSuccess | api_test_with_xlsx.py:242-275 | from any later attempt on, the retries end with the entry and records of the first attempt that logs in, or of the third |
| Runner.LoginGate | api_test_with_xlsx.py:231-275 | the gate changes only the login case's entry and adds one to three timing records |
| Runner.LoginGateOutcome | api_test_with_xlsx.py:231-275 | the run stops exactly when the login never succeeded; on success the report is as before the row; on a stop it is the first attempt's report plus the fatal notice, with three records and three 30-second sleeps |
| Runner.LoginGateFirstSuccess | api_test_with_xlsx.py:231-275 | the gate stops at the first attempt that logs in (the `break` at line 263): after `k` attempts, with attempt `k`'s entry, `k` timing records and, on success, `k - 1` sleeps |
| Runner.LoginGateKeepsReport | api_test_with_xlsx.py:236-274 | the gate never loses report text written before the login row: success restores it, and a stop keeps the first failure's text, which extends it |
| Runner.Perform | api_test_with_xlsx.py:225-282 | an evaluated row keeps the `res` keys and adds at most three timing records; only a login URL can stop the run; the report only grows |
| Runner.Step | api_test_with_xlsx.py:189-282 | a stopped run or an inactive row changes nothing; an active row adds exactly its id to `res`; only a login URL can stop the run; new report text always comes with a `res` entry; the report only grows |
| Runner.DataErrorSkipsRow | api_test_with_xlsx.py:209-217 | a request-data evaluation error leaves the `{}` placeholder, adds the error text with the URL, and skips the row |
| Runner.NotDictStillRuns | api_test_with_xlsx.py:219-221 | non-dict request data is reported and the row still runs, login rows included: it is timed, its entry is an outcome rather than the placeholder, and the final report extends the earlier one plus the non-dict notice |
| Runner.EmptyDataRunsWithEmptyString | api_test_with_xlsx.py:222-223 | an empty request-data cell runs the row, login gate included, exactly as it would with `''` as data |
| Runner.EmptyCheckPointSkipsRequest | api_test_with_xlsx.py:225-229 | an empty checkpoint leaves the placeholder and sends, times and waits for nothing; the report becomes the one before the row, plus the non-dict notice if the data is not a dict, plus the empty-checkpoint notice |
| Runner.Exec | api_test_with_xlsx.py:189-283 | the loop over the rows adds at most three timing records a row |
| Runner.ExecStopCause | api_test_with_xlsx.py:189-275 | a stopped run has an active row whose URL is a login URL |
| Runner.ExecResKeys | api_test_with_xlsx.py:189-206 | only active rows get a `res` entry; unless the run stopped, every active row does |
| Runner.ExecEmptyRes | api_test_with_xlsx.py:284-286 | an empty `res` means no report text and no timing records |
| Runner.ExecStopsForGood | api_test_with_xlsx.py:272-275 | after a failed login stops the loop, later rows change nothing |
| Runner.ExecTimesCount | api_test_with_xlsx.py:276-282 | without a login row, every row that reaches `run_api` adds exactly one timing record and the others add none |
| Runner.ExecReportGrows | api_test_with_xlsx.py:189-283 | failure text once written is never lost, also across the login gate |
| Runner.Failures | api_test_with_xlsx.py:284-288 | a non-empty `res` keeps the report as it is |
| Runner.Finish | api_test_with_xlsx.py:290-319 | mail goes out exactly when `if_mail` is 1, or 2 with failure text; failure text goes to `mail_to_all` with the contact line; a clean run goes to `mail_to_me` with the 〔正常〕 subject, a message from the pool and the ranking; the mail body is the final content |
| Runner.NothingActive | api_test_with_xlsx.py:284-319 | a run with no active row reports exactly the "nothing ran" notice, mailed with the contact line under `if_mail` 1 or 2 and not at all otherwise |
| Runner.ContactLine | api_test_with_xlsx.py:294 | the contact line (the same at line 313) starts with `<br>` and names the phone number, then the contact's name, at fixed places |
| Runner.QuietMessage | api_test_with_xlsx.py:299-300 | the clean-run message is one of the `;`-separated pool entries and holds no `;` |
| Runner.QuietMessageCovers | api_test_with_xlsx.py:299-300 | every pool entry can be drawn: pick `k` draws the `k`-th |
| Runner.RankingLinesAppend | api_test_with_xlsx.py:307-308 | the ranking is built record by record: the lines of a concatenation are the lines of its parts, in order |
| Runner.RankingLinesOne | api_test_with_xlsx.py:307-308 | one record gives the one line `<br>title : seconds` |
| Runner.RunTests | api_test_with_xlsx.py:151-319 | the whole run: mail goes out exactly when `if_mail` is 1, or 2 with failure text; failure text goes to `mail_to_all` and leads the mail body; a clean run goes to `mail_to_me`; without mail the content is the report |
| Runner.QuietMailRanking | api_test_with_xlsx.py:296-308 | a clean run's mail lists every timing record once, longest first, with ties in the order the records were taken |

## Left out

- Excel I/O (`openpyxl` loading and reading cells): the sheets come in as a `Settings` value and a sequence of `TestCase` rows.
- Empty cells: the script reads an empty cell as `None` (the comment at line 362). The model takes it as `""`. Every truthiness test (lines 209, 226, 331, 363) treats the two alike. But `'%s' % None` prints `None`, so the script builds `http://None<req_url>` from an empty `api_host` and `http://<api_host>None` from an empty `req_url` (line 203). It also prints `API: None >> …` for an empty `api_title` in every report text (lines 216, 221, 228, 341, 379, 437) and in the ranking (line 308). The model prints nothing in those places.
- Crashes that end the script are not modelled; the model goes on where the script would stop with an exception:
  - the export write (lines 142-144, called at line 412) is outside every `try`, so a name the file system refuses, such as the empty name `export_file==''` captures, ends the script before any mail, while the model records the `Saved` event and continues;
  - the upload `open` (line 365) is caught only for `FileNotFoundError` (line 393), so any other error opening the file ends the script;
  - the request call is caught only for `requests` exceptions (lines 376-396), so any other exception it raises ends the script.
- The `strip()` of each Basic Data key and value (line 177), and the non-string fallback: the settings are taken as already stripped.
- A missing column or setting (`KeyError`), and a request-data or checkpoint evaluation error of a kind the script does not catch: both end the script with an exception, which is not modelled.
- `get_export_rows`: it reads an exported workbook and is only called from checkpoint expressions, which are oracles here.
- `export_fans_info`: the file write is recorded as a `Saved` event.
- Sending mail (`send_mail`, SMTP, `MIMEText`): the result is the `Mail` value that would be sent. The mail host, sender and password are not modelled.
- Logging (lines 69-93, and every `logging` call): the log output does not affect the run.
- `requests.Session`, cookies and the network: each attempt's outcome is an oracle.
- Response bytes: the content saved to the export file is modelled as the response text.
- Opening the upload file: a missing file is one of the attempt outcomes. The `open` at line 365 fails before any request is sent, yet the model records an `Attempted` event for it: an `Attempted` event marks one pass of the retry loop, not a request that reached the network.
- `eval` of request data and checkpoints, and `json.loads`: oracles. A JSON-like body that `json.loads` rejects would crash the script; this is not modelled.
- `type(e)` and `e.args` in report texts: a single detail string.
- Runner.Call: durations are whole abstract units. `time.time()`, the float subtraction, `round(..., 2)` and the printing of floats in the ranking are not modelled, because they need floating point.
- Runner.QuietMessage: `random.choice` is an index `pick`, taken modulo the pool size.
- Runner.Honest: the row loop relies only on this contract of `run_api`. It is weaker than `Api.RunApi`, which is proved to keep it.
