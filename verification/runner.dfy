/**
  `get_test_case`: a fold over the rows of the "Test Case" sheet that threads
  the run state (`res`, `time_record`, `mail_content`), gates each row, routes
  the login case through a three-attempt gate that can end the run, and at
  the end decides what mail goes to whom.

  Everything the source takes from `eval`, the network and the clock comes in
  through `Oracles`, indexed by how far the run has got.
 */
module Runner {
  import opened Wrappers
  import opened Text
  import opened Api
  import opened Ranking
  import opened BasicData
  import Patterns

  /** `eval(req_data)`: a caught evaluation error, or the value. */
  datatype DataEval = DataErr(detail: string) | DataOk(v: PyValue)

  datatype Oracles = Oracles(
    evalData: nat -> DataEval,     // eval of the request data of the row at this position
    transport: nat -> Attempt,     // how the n-th request attempt of the run ends
    evalCheck: nat -> CheckEval,   // the checkpoint of the n-th `run_api` call
    parse: string -> string,       // `str(json.loads(text))`
    duration: nat -> nat)          // the time the n-th `run_api` call took

  /**
    The state `get_test_case` threads through its loop; `stopped` is the
    `break` after a failed login, `sent` counts request attempts so far and
    `trace` collects the effects in order.
   */
  datatype RunState = RunState(
    res: map<string, Outcome>,
    times: seq<TimeEntry>,
    report: string,
    stopped: bool,
    sent: nat,
    trace: seq<Event>)

  const Init := RunState(map[], [], "", false, 0, [])

  const LoginAttempts := 3
  /** Seconds waited after each failed login attempt. */
  const LoginWait := 30
  const SuccessMarker := "'msg': 'success'"
  const LoginFatal := ">>>>> 登入失敗！無法進行更多的接口測試！ <<<<<"
  const NoTestsText := "未執行任何接口測試<br>"

  function DataErrorText(title: string, url: string, detail: string): string {
    Entry(title, ">> URL: " + url + "<br>>> 異常：" + detail)
  }

  function NotDictText(title: string, url: string, repr: string): string {
    Entry(title, ">> URL: " + url + "<br>>> 原因：「req_data」要求為字典類型 - " + repr)
  }

  function NoCheckPointText(title: string, url: string): string {
    Entry(title, url + "<br>「check_point」不可為空")
  }

  /** The row loop's failure texts are entries of their own for the case, each naming the URL at a fixed place. */
  lemma RowFailureTexts(title: string, url: string, detail: string, repr: string)
    ensures FailureEntry(DataErrorText(title, url, detail), title)
    ensures FailureEntry(NotDictText(title, url, repr), title)
    ensures FailureEntry(NoCheckPointText(title, url), title)
    ensures OccursAt(DataErrorText(title, url, detail), url, |FailHead(title)| + 8)
    ensures OccursAt(NotDictText(title, url, repr), url, |FailHead(title)| + 8)
    ensures OccursAt(NoCheckPointText(title, url), url, |FailHead(title)|)
  {
    var head := FailHead(title);
    var tag := ">> URL: ";
    ConcatParts(tag, url);
    UrlEntry(title, tag + url, url, 8, "<br>>> 異常：" + detail);
    UrlEntry(title, tag + url, url, 8, "<br>>> 原因：「req_data」要求為字典類型 - " + repr);
    ConcatParts(url, "<br>「check_point」不可為空");
    OccursWithin(url, "", url, 0);
    assert url + "" == url;
    UrlEntry(title, url, url, 0, "<br>「check_point」不可為空");
  }

  /** An entry whose body starts with `lead`, in which `url` occurs at `i`, names `url` at `i` after the head. */
  lemma UrlEntry(title: string, lead: string, url: string, i: nat, rest: string)
    requires OccursAt(lead, url, i)
    ensures FailureEntry(Entry(title, lead + rest), title)
    ensures OccursAt(Entry(title, lead + rest), url, |FailHead(title)| + i)
  {
    EntryShape(title, lead + rest);
    var head := FailHead(title);
    OccursWithin(lead, rest, url, i);
    OccursWithin(lead + rest, head, url, i);
    OccursWithin(head + (lead + rest), "<br><br>", url, |head| + i);
    assert head + (lead + rest) + "<br><br>" == Entry(title, lead + rest);
  }

  /**
    The login succeeded when the printed outcome contains `'msg': 'success'`;
    neither the `{}` placeholder nor the failure marker does.
   */
  predicate LoginSucceeded(out: Outcome)
    ensures LoginSucceeded(out) ==> out.Parsed? || out.Raw?
  {
    Contains(Show(out), SuccessMarker)
  }

  /** The failure marker never reads as a successful login. */
  lemma SentinelIsNoLogin()
    ensures !LoginSucceeded(Sentinel)
  {
    assert |Show(Sentinel)| < |SuccessMarker|;
  }

  // ---------------------------------------------------------------- one call

  /**
    The arguments of one `run_api` call; the call's attempts are those of the
    run from attempt number `first` on.
   */
  datatype ApiCall = ApiCall(c: TestCase, data: ReqData, transport: nat -> Attempt, first: nat, check: CheckEval,
                             parse: string -> string, report: string)

  /** The attempts one call sees, counted from its own first attempt. */
  function Attempts(q: ApiCall): nat -> Attempt {
    (k: nat) => q.transport(q.first + k)
  }

  /** What the row loop relies on from a `run_api` call; `Api.RunApi` guarantees all of it. */
  ghost predicate Honest(q: ApiCall, a: ApiResult) {
    && StartsWith(a.report, q.report)
    && (a.outcome.Sentinel? <==> a.report != q.report)
    && !a.outcome.Pending?
    && a.used <= MaxAttempts
    && (forall e :: e in a.trace && e.Wait? ==> e.seconds == RetryWait)
  }

  ghost predicate KeepsContract(api: ApiCall -> ApiResult) {
    forall q :: Honest(q, api(q))
  }

  /** `run_api` as `Api` models it. */
  function ModelApi(q: ApiCall): ApiResult {
    RunApi(q.c, q.data, Attempts(q), q.check, q.parse, q.report)
  }

  lemma ModelKeepsContract()
    ensures KeepsContract(ModelApi)
  {
    forall q ensures Honest(q, ModelApi(q)) {
      var a := RunApi(q.c, q.data, Attempts(q), q.check, q.parse, q.report);
    }
  }

  /**
    One timed `run_api` call: the outcome goes to `res` and the time to
    `time_record`. The call sees the attempts from the run's next one on and
    the checkpoint and duration oracles of the call's own position.
   */
  function Call(st: RunState, c: TestCase, data: ReqData, o: Oracles, api: ApiCall -> ApiResult): (r: RunState)
    requires KeepsContract(api)
    ensures c.apiId in r.res && r.res == st.res[c.apiId := r.res[c.apiId]] && !r.res[c.apiId].Pending?
    ensures r.times == st.times + [TimeEntry(c.apiTitle, o.duration(|st.times|))]
    ensures StartsWith(r.report, st.report)
    ensures r.res[c.apiId].Sentinel? <==> r.report != st.report
    ensures LoginSucceeded(r.res[c.apiId]) ==> r.report == st.report
    ensures st.sent <= r.sent <= st.sent + MaxAttempts
    ensures r.stopped == st.stopped
    ensures |st.trace| <= |r.trace| && r.trace[..|st.trace|] == st.trace
    ensures Waits(r.trace, LoginWait) == Waits(st.trace, LoginWait)
  {
    var n := |st.times|;
    var q := ApiCall(c, data, o.transport, st.sent, o.evalCheck(n), o.parse, st.report);
    var a := api(q);
    assert Honest(q, a);
    SentinelIsNoLogin();
    NoWaitsOf(a.trace, LoginWait);
    WaitsAppend(st.trace, a.trace, LoginWait);
    st.(res := st.res[c.apiId := a.outcome],
        times := st.times + [TimeEntry(c.apiTitle, o.duration(n))],
        report := a.report,
        sent := st.sent + a.used,
        trace := st.trace + a.trace)
  }

  // ---------------------------------------------------------------- login gate

  /** The number of waits of `seconds` in a trace. */
  function Waits(trace: seq<Event>, seconds: nat): nat {
    if |trace| == 0 then 0
    else (if trace[0] == Wait(seconds) then 1 else 0) + Waits(trace[1..], seconds)
  }

  lemma {:induction false} WaitsAppend(a: seq<Event>, b: seq<Event>, seconds: nat)
    ensures Waits(a + b, seconds) == Waits(a, seconds) + Waits(b, seconds)
    decreases |a|
  {
    if |a| > 0 {
      WaitsAppend(a[1..], b, seconds);
      assert (a + b)[0] == a[0];
      assert (a + b)[1..] == a[1..] + b;
    } else {
      assert a + b == b;
    }
  }

  lemma {:induction false} NoWaitsOf(trace: seq<Event>, seconds: nat)
    requires forall e :: e in trace ==> e != Wait(seconds)
    ensures Waits(trace, seconds) == 0
    decreases |trace|
  {
    if |trace| > 0 {
      assert trace[0] in trace;
      assert forall e :: e in trace[1..] ==> e in trace;
      NoWaitsOf(trace[1..], seconds);
    }
  }

  /** Every record in `entries` is about the case titled `title`. */
  predicate Titled(entries: seq<TimeEntry>, title: string) {
    forall k :: 0 <= k < |entries| ==> entries[k].title == title
  }

  /** A failed login attempt is followed by a 30-second sleep. */
  function SleepAfterFailure(st: RunState): (r: RunState)
    ensures Waits(r.trace, LoginWait) == Waits(st.trace, LoginWait) + 1
  {
    WaitsAppend(st.trace, [Wait(LoginWait)], LoginWait);
    st.(trace := st.trace + [Wait(LoginWait)])
  }

  /**
    Login attempt `count` (2 or 3), after a failed first attempt. `before` is
    the report before the login row's first attempt and `firstFailure` the
    report right after it. Success restores `before`; a failure sleeps and
    tries again; after the third failure the report becomes `firstFailure`
    plus the fatal notice and the run stops.
   */
  function LoginRetry(st: RunState, c: TestCase, data: ReqData, o: Oracles, api: ApiCall -> ApiResult,
                      before: string, firstFailure: string, count: nat): (r: RunState)
    requires KeepsContract(api)
    requires 2 <= count <= LoginAttempts
    requires !st.stopped
    ensures c.apiId in r.res && r.res == st.res[c.apiId := r.res[c.apiId]]
    ensures |st.times| < |r.times| <= |st.times| + LoginAttempts + 1 - count
    ensures r.times[..|st.times|] == st.times
    decreases LoginAttempts - count
  {
    var a := Call(st, c, data, o, api);
    if LoginSucceeded(a.res[c.apiId]) then
      a.(report := before)
    else if count == LoginAttempts then
      SleepAfterFailure(a).(report := firstFailure + LoginFatal, stopped := true)
    else
      var r := LoginRetry(SleepAfterFailure(a), c, data, o, api, before, firstFailure, count + 1);
      assert r.times[..|st.times|] == st.times by {
        assert r.times[..|a.times|][..|st.times|] == st.times;
      }
      r
  }

  /**
    How the retries end: every attempt adds a timing record under the login
    row's title; the run stops exactly when the last attempt made did not log
    in; success restores `before`; a stop reports `firstFailure` and the fatal
    notice after all remaining attempts, each followed by a 30-second sleep.
   */
  lemma {:induction false} LoginRetryOutcome(st: RunState, c: TestCase, data: ReqData, o: Oracles, api: ApiCall -> ApiResult,
                                             before: string, firstFailure: string, count: nat)
    requires KeepsContract(api)
    requires 2 <= count <= LoginAttempts
    requires !st.stopped
    ensures var r := LoginRetry(st, c, data, o, api, before, firstFailure, count);
      && Titled(r.times[|st.times|..], c.apiTitle)
      && (r.stopped <==> !LoginSucceeded(r.res[c.apiId]))
      && (!r.stopped ==> r.report == before)
      && (r.stopped ==> r.report == firstFailure + LoginFatal)
      && (r.stopped ==> |r.times| == |st.times| + LoginAttempts + 1 - count)
      && (r.stopped ==> Waits(r.trace, LoginWait) == Waits(st.trace, LoginWait) + LoginAttempts + 1 - count)
    decreases LoginAttempts - count
  {
    var a := Call(st, c, data, o, api);
    if !LoginSucceeded(a.res[c.apiId]) && count < LoginAttempts {
      var w := SleepAfterFailure(a);
      LoginRetryOutcome(w, c, data, o, api, before, firstFailure, count + 1);
      var r := LoginRetry(w, c, data, o, api, before, firstFailure, count + 1);
      assert r.times[|st.times|..] == [a.times[|st.times|]] + r.times[|a.times|..];
    }
  }

  /**
    The login gate: at most three attempts, each recorded in `time_record`.
    A success ends the gate, a failure sleeps and tries again.
   */
  function LoginGate(st: RunState, c: TestCase, data: ReqData, o: Oracles, api: ApiCall -> ApiResult): (r: RunState)
    requires KeepsContract(api)
    requires !st.stopped
    ensures c.apiId in r.res && r.res == st.res[c.apiId := r.res[c.apiId]]
    ensures |st.times| < |r.times| <= |st.times| + LoginAttempts
    ensures r.times[..|st.times|] == st.times
  {
    var a := Call(st, c, data, o, api);
    if LoginSucceeded(a.res[c.apiId]) then a
    else
      var r := LoginRetry(SleepAfterFailure(a), c, data, o, api, st.report, a.report, 2);
      assert r.times[..|st.times|] == st.times by {
        assert r.times[..|a.times|][..|st.times|] == st.times;
      }
      r
  }

  /**
    How the gate ends: every attempt is recorded in `time_record` under the
    login row's title; the run stops exactly when the last attempt did not log
    in. On success the report is what it was before the login row ran its
    request; after three failures it is the text right after the first
    attempt followed by the fatal notice, the gate has slept three times (also
    after the last attempt) and made three timing records.
   */
  lemma LoginGateOutcome(st: RunState, c: TestCase, data: ReqData, o: Oracles, api: ApiCall -> ApiResult)
    requires KeepsContract(api)
    requires !st.stopped
    ensures var r := LoginGate(st, c, data, o, api);
      && Titled(r.times[|st.times|..], c.apiTitle)
      && (r.stopped <==> !LoginSucceeded(r.res[c.apiId]))
      && (!r.stopped ==> r.report == st.report)
      && (r.stopped ==> r.report == Call(st, c, data, o, api).report + LoginFatal)
      && (r.stopped ==> |r.times| == |st.times| + LoginAttempts)
      && (r.stopped ==> Waits(r.trace, LoginWait) == Waits(st.trace, LoginWait) + LoginAttempts)
  {
    var a := Call(st, c, data, o, api);
    if !LoginSucceeded(a.res[c.apiId]) {
      var w := SleepAfterFailure(a);
      LoginRetryOutcome(w, c, data, o, api, st.report, a.report, 2);
      var r := LoginRetry(w, c, data, o, api, st.report, a.report, 2);
      assert r.times[|st.times|..] == [a.times[|st.times|]] + r.times[|a.times|..];
    }
  }

  /**
    The state right after login attempt `k` when attempts `1..k-1` all failed:
    each failure is followed by the 30-second sleep and the next attempt. This
    is the chain the gate walks, stated without its stopping rule.
   */
  function LoginAttempt(st: RunState, c: TestCase, data: ReqData, o: Oracles, api: ApiCall -> ApiResult, k: nat): (r: RunState)
    requires KeepsContract(api)
    requires 1 <= k
    ensures c.apiId in r.res
    ensures |r.times| == |st.times| + k
    ensures Waits(r.trace, LoginWait) == Waits(st.trace, LoginWait) + k - 1
    ensures r.stopped == st.stopped
    decreases k
  {
    if k == 1 then Call(st, c, data, o, api)
    else Call(SleepAfterFailure(LoginAttempt(st, c, data, o, api, k - 1)), c, data, o, api)
  }

  /** One unfolding of the retries: a success or the third failure ends them, any other failure sleeps and retries. */
  lemma LoginRetryStep(w: RunState, c: TestCase, data: ReqData, o: Oracles, api: ApiCall -> ApiResult,
                       before: string, firstFailure: string, count: nat)
    requires KeepsContract(api)
    requires 2 <= count <= LoginAttempts
    requires !w.stopped
    ensures var a := Call(w, c, data, o, api); var r := LoginRetry(w, c, data, o, api, before, firstFailure, count);
      && (LoginSucceeded(a.res[c.apiId]) ==> r.times == a.times && r.res == a.res && !r.stopped && r.trace == a.trace)
      && (!LoginSucceeded(a.res[c.apiId]) && count == LoginAttempts ==> r.times == a.times && r.res == a.res && r.stopped)
      && (!LoginSucceeded(a.res[c.apiId]) && count < LoginAttempts ==>
            r == LoginRetry(SleepAfterFailure(a), c, data, o, api, before, firstFailure, count + 1))
  {
  }

  /**
    The attempt the gate ends at when it reaches attempt `k`: the first from
    `k` on that logs in, or the last one.
   */
  function FirstLogin(st: RunState, c: TestCase, data: ReqData, o: Oracles, api: ApiCall -> ApiResult, k: nat): (e: nat)
    requires KeepsContract(api)
    requires 1 <= k <= LoginAttempts
    ensures k <= e <= LoginAttempts
    ensures forall j :: k <= j < e ==> !LoginSucceeded(LoginAttempt(st, c, data, o, api, j).res[c.apiId])
    ensures e < LoginAttempts ==> LoginSucceeded(LoginAttempt(st, c, data, o, api, e).res[c.apiId])
    decreases LoginAttempts - k
  {
    if k == LoginAttempts || LoginSucceeded(LoginAttempt(st, c, data, o, api, k).res[c.apiId]) then k
    else FirstLogin(st, c, data, o, api, k + 1)
  }

  /** From attempt `count` on, the retries end with the entry and the records of the attempt `FirstLogin` names. */
  lemma {:induction false} LoginRetryFirstSuccess(st: RunState, c: TestCase, data: ReqData, o: Oracles, api: ApiCall -> ApiResult,
                                                  before: string, firstFailure: string, count: nat)
    requires KeepsContract(api)
    requires 2 <= count <= LoginAttempts
    requires !st.stopped
    ensures var r := LoginRetry(SleepAfterFailure(LoginAttempt(st, c, data, o, api, count - 1)), c, data, o, api, before, firstFailure, count);
      var e := FirstLogin(st, c, data, o, api, count);
      && r.times == LoginAttempt(st, c, data, o, api, e).times
      && r.res[c.apiId] == LoginAttempt(st, c, data, o, api, e).res[c.apiId]
      && (!r.stopped ==> Waits(r.trace, LoginWait) == Waits(st.trace, LoginWait) + e - 1)
    decreases LoginAttempts - count
  {
    var w := SleepAfterFailure(LoginAttempt(st, c, data, o, api, count - 1));
    var a := Call(w, c, data, o, api);
    assert a == LoginAttempt(st, c, data, o, api, count);
    LoginRetryStep(w, c, data, o, api, before, firstFailure, count);
    if !LoginSucceeded(a.res[c.apiId]) && count < LoginAttempts {
      LoginRetryFirstSuccess(st, c, data, o, api, before, firstFailure, count + 1);
    }
  }

  /**
    The gate stops at the first attempt that logs in (the `break`): it ends
    after attempt `k`, where attempts `1..k-1` all failed and attempt `k`
    logged in or was the third, with attempt `k`'s entry, `k` timing records
    and, on success, `k - 1` 30-second sleeps.
   */
  lemma LoginGateFirstSuccess(st: RunState, c: TestCase, data: ReqData, o: Oracles, api: ApiCall -> ApiResult)
    requires KeepsContract(api)
    requires !st.stopped
    ensures var r := LoginGate(st, c, data, o, api);
      var k := FirstLogin(st, c, data, o, api, 1);
      && |r.times| == |st.times| + k
      && r.times == LoginAttempt(st, c, data, o, api, k).times
      && r.res[c.apiId] == LoginAttempt(st, c, data, o, api, k).res[c.apiId]
      && (!r.stopped ==> Waits(r.trace, LoginWait) == Waits(st.trace, LoginWait) + k - 1)
  {
    var a := LoginAttempt(st, c, data, o, api, 1);
    if !LoginSucceeded(a.res[c.apiId]) {
      LoginRetryFirstSuccess(st, c, data, o, api, st.report, a.report, 2);
    }
  }

  /**
    The gate never loses report text written before the login row: success
    restores it, and a stop keeps the first attempt's report, which extends it.
   */
  lemma LoginGateKeepsReport(st: RunState, c: TestCase, data: ReqData, o: Oracles, api: ApiCall -> ApiResult)
    requires KeepsContract(api)
    requires !st.stopped
    ensures StartsWith(LoginGate(st, c, data, o, api).report, st.report)
  {
    LoginGateOutcome(st, c, data, o, api);
    var a := Call(st, c, data, o, api);
    var r := LoginGate(st, c, data, o, api);
    if r.stopped {
      assert (a.report + LoginFatal)[..|a.report|] == a.report;
      StartsWithTransitive(r.report, a.report, st.report);
    }
  }

  // ---------------------------------------------------------------- one row

  /** The request data a row runs with: `''` for an empty cell, else the evaluated value. */
  function RowData(c: TestCase, row: nat, o: Oracles): ReqData
    requires c.reqData != "" ==> o.evalData(row).DataOk?
  {
    if c.reqData == "" then NoData
    else Value(o.evalData(row).v)
  }

  /**
    A row that passed the data checks: an empty checkpoint is reported and
    skips the request, a login URL goes through the login gate, any other
    case is one timed call.
   */
  function Perform(st: RunState, c: TestCase, data: ReqData, o: Oracles, api: ApiCall -> ApiResult): (r: RunState)
    requires KeepsContract(api)
    requires !st.stopped && c.apiId in st.res
    ensures r.res.Keys == st.res.Keys
    ensures |st.times| <= |r.times| <= |st.times| + LoginAttempts
    ensures r.times[..|st.times|] == st.times
    ensures r.stopped ==> Patterns.IsLoginUrl(ApiUrl(c))
    ensures StartsWith(r.report, st.report)
  {
    var url := ApiUrl(c);
    if c.checkPoint == "" then
      st.(report := st.report + NoCheckPointText(c.apiTitle, url))
    else if Patterns.IsLoginUrl(url) then
      LoginGateKeepsReport(st, c, data, o, api);
      LoginGate(st, c, data, o, api)
    else
      Call(st, c, data, o, api)
  }

  /** One pass of the row loop for the row at position `row`. */
  function Step(st: RunState, c: TestCase, row: nat, o: Oracles, api: ApiCall -> ApiResult): (r: RunState)
    requires KeepsContract(api)
    ensures st.stopped || c.isActive != "yes" ==> r == st
    ensures !st.stopped && c.isActive == "yes" ==> r.res.Keys == st.res.Keys + {c.apiId}
    ensures r.res.Keys >= st.res.Keys
    ensures |st.times| <= |r.times| <= |st.times| + LoginAttempts
    ensures r.times[..|st.times|] == st.times
    ensures r.stopped ==> st.stopped || Patterns.IsLoginUrl(ApiUrl(c))
    ensures st.stopped ==> r.stopped
    ensures r.report != st.report ==> c.apiId in r.res
    ensures StartsWith(r.report, st.report)
  {
    if st.stopped || c.isActive != "yes" then st
    else
      var url := ApiUrl(c);
      var pending := st.(res := st.res[c.apiId := Pending]);
      if c.reqData != "" && o.evalData(row).DataErr? then
        pending.(report := pending.report + DataErrorText(c.apiTitle, url, o.evalData(row).detail))
      else
        var data := RowData(c, row, o);
        var checked := if data.Value? && !data.v.isDict
                       then pending.(report := pending.report + NotDictText(c.apiTitle, url, data.v.repr))
                       else pending;
        Perform(checked, c, data, o, api)
  }

  // ---------------------------------------------------------------- the run

  /**
    The state after the loop has seen `rows` (row 3 of the sheet onwards, in
    order): at most three timing records a row.
   */
  function Exec(rows: seq<TestCase>, o: Oracles, api: ApiCall -> ApiResult): (r: RunState)
    requires KeepsContract(api)
    ensures |r.times| <= LoginAttempts * |rows|
    decreases |rows|
  {
    if |rows| == 0 then Init
    else Step(Exec(rows[..|rows| - 1], o, api), rows[|rows| - 1], |rows| - 1, o, api)
  }

  /** A stop only ever comes from an active login row. */
  lemma {:induction false} ExecStopCause(rows: seq<TestCase>, o: Oracles, api: ApiCall -> ApiResult)
    requires KeepsContract(api)
    ensures Exec(rows, o, api).stopped ==>
              exists i :: 0 <= i < |rows| && rows[i].isActive == "yes" && Patterns.IsLoginUrl(ApiUrl(rows[i]))
    decreases |rows|
  {
    if |rows| > 0 {
      var init := rows[..|rows| - 1];
      ExecStopCause(init, o, api);
      if Exec(init, o, api).stopped {
        var i :| 0 <= i < |init| && init[i].isActive == "yes" && Patterns.IsLoginUrl(ApiUrl(init[i]));
        assert rows[i] == init[i];
      }
    }
  }

  /** The ids of the active rows. */
  function ActiveIds(rows: seq<TestCase>): set<string> {
    set i | 0 <= i < |rows| && rows[i].isActive == "yes" :: rows[i].apiId
  }

  /**
    Every active row gets a `res` entry and nothing else does, unless a failed
    login stopped the run, in which case only rows up to the login row do.
   */
  lemma {:induction false} ExecResKeys(rows: seq<TestCase>, o: Oracles, api: ApiCall -> ApiResult)
    requires KeepsContract(api)
    ensures Exec(rows, o, api).res.Keys <= ActiveIds(rows)
    ensures !Exec(rows, o, api).stopped ==> Exec(rows, o, api).res.Keys == ActiveIds(rows)
    decreases |rows|
  {
    if |rows| > 0 {
      var init := rows[..|rows| - 1];
      var last := rows[|rows| - 1];
      ExecResKeys(init, o, api);
      assert forall i :: 0 <= i < |init| ==> init[i] == rows[i];
      if last.isActive == "yes" {
        assert ActiveIds(rows) == ActiveIds(init) + {last.apiId};
      } else {
        assert ActiveIds(rows) == ActiveIds(init);
      }
    }
  }

  /** Report text only ever accompanies a `res` entry, so an empty `res` means an empty report. */
  lemma {:induction false} ExecEmptyRes(rows: seq<TestCase>, o: Oracles, api: ApiCall -> ApiResult)
    requires KeepsContract(api)
    ensures |Exec(rows, o, api).res| == 0 ==> Exec(rows, o, api).report == "" && Exec(rows, o, api).times == []
    decreases |rows|
  {
    if |rows| > 0 {
      ExecEmptyRes(rows[..|rows| - 1], o, api);
    }
  }

  /** Once a failed login has stopped the run, later rows change nothing. */
  lemma {:induction false} ExecStopsForGood(rows: seq<TestCase>, more: seq<TestCase>, o: Oracles, api: ApiCall -> ApiResult)
    requires KeepsContract(api)
    requires Exec(rows, o, api).stopped
    ensures Exec(rows + more, o, api) == Exec(rows, o, api)
    decreases |more|
  {
    if |more| > 0 {
      var init := more[..|more| - 1];
      ExecStopsForGood(rows, init, o, api);
      assert (rows + more)[..|rows + more| - 1] == rows + init;
      assert Exec(rows + more, o, api) == Step(Exec(rows + init, o, api), more[|more| - 1], |rows + more| - 1, o, api);
    } else {
      assert rows + more == rows;
    }
  }

  /** A row that reaches `run_api` outside the login gate. */
  predicate Executes(c: TestCase, row: nat, o: Oracles) {
    && c.isActive == "yes"
    && (c.reqData == "" || o.evalData(row).DataOk?)
    && c.checkPoint != ""
  }

  /** The number of rows among `rows` that reach `run_api`. */
  function ExecutedCount(rows: seq<TestCase>, o: Oracles): nat
    decreases |rows|
  {
    if |rows| == 0 then 0
    else ExecutedCount(rows[..|rows| - 1], o) + (if Executes(rows[|rows| - 1], |rows| - 1, o) then 1 else 0)
  }

  /**
    Without a login row, each row that reaches `run_api` adds exactly one
    timing entry, and skipped rows add none.
   */
  lemma {:induction false} ExecTimesCount(rows: seq<TestCase>, o: Oracles, api: ApiCall -> ApiResult)
    requires KeepsContract(api)
    requires forall i :: 0 <= i < |rows| ==> !Patterns.IsLoginUrl(ApiUrl(rows[i]))
    ensures |Exec(rows, o, api).times| == ExecutedCount(rows, o)
    ensures !Exec(rows, o, api).stopped
    decreases |rows|
  {
    if |rows| > 0 {
      var init := rows[..|rows| - 1];
      assert forall i :: 0 <= i < |init| ==> init[i] == rows[i];
      ExecTimesCount(init, o, api);
    }
  }

  lemma StartsWithTransitive(a: string, b: string, c: string)
    requires StartsWith(a, b) && StartsWith(b, c)
    ensures StartsWith(a, c)
  {
    assert a[..|c|] == a[..|b|][..|c|];
  }

  /** The report only grows: failure text once written is never lost, not even by the login gate. */
  lemma {:induction false} ExecReportGrows(rows: seq<TestCase>, more: seq<TestCase>, o: Oracles, api: ApiCall -> ApiResult)
    requires KeepsContract(api)
    ensures StartsWith(Exec(rows + more, o, api).report, Exec(rows, o, api).report)
    decreases |more|
  {
    if |more| > 0 {
      var init := more[..|more| - 1];
      ExecReportGrows(rows, init, o, api);
      assert (rows + more)[..|rows + more| - 1] == rows + init;
      var st := Exec(rows + init, o, api);
      var r := Exec(rows + more, o, api);
      assert StartsWith(r.report, st.report);
      StartsWithTransitive(r.report, st.report, Exec(rows, o, api).report);
    } else {
      assert rows + more == rows;
    }
  }

  // ---------------------------------------------------------------- row gating

  /** A request-data evaluation error records the placeholder and the error text, and skips the row. */
  lemma DataErrorSkipsRow(st: RunState, c: TestCase, row: nat, o: Oracles, api: ApiCall -> ApiResult)
    requires KeepsContract(api)
    requires !st.stopped && c.isActive == "yes"
    requires c.reqData != "" && o.evalData(row).DataErr?
    ensures Step(st, c, row, o, api) == st.(res := st.res[c.apiId := Pending],
                                       report := st.report + DataErrorText(c.apiTitle, ApiUrl(c), o.evalData(row).detail))
  {
  }

  /** Request data that is not a dict is reported, and the row still runs. */
  lemma NotDictStillRuns(st: RunState, c: TestCase, row: nat, o: Oracles, api: ApiCall -> ApiResult)
    requires KeepsContract(api)
    requires !st.stopped && c.isActive == "yes" && c.checkPoint != ""
    requires c.reqData != "" && o.evalData(row).DataOk? && !o.evalData(row).v.isDict
    ensures var r := Step(st, c, row, o, api);
      && |r.times| > |st.times|
      && !r.res[c.apiId].Pending?
      && StartsWith(r.report, st.report + NotDictText(c.apiTitle, ApiUrl(c), o.evalData(row).v.repr))
  {
  }

  /** An empty checkpoint reports the row and skips the request and its timing entry. */
  lemma EmptyCheckPointSkipsRequest(st: RunState, c: TestCase, row: nat, o: Oracles, api: ApiCall -> ApiResult)
    requires KeepsContract(api)
    requires !st.stopped && c.isActive == "yes" && c.checkPoint == ""
    requires c.reqData == "" || o.evalData(row).DataOk?
    ensures var r := Step(st, c, row, o, api);
      && r.times == st.times && r.sent == st.sent && r.trace == st.trace && !r.stopped
      && r.res == st.res[c.apiId := Pending]
      && r.report == st.report
           + (if c.reqData != "" && !o.evalData(row).v.isDict then NotDictText(c.apiTitle, ApiUrl(c), o.evalData(row).v.repr) else "")
           + NoCheckPointText(c.apiTitle, ApiUrl(c))
  {
  }

  /** An empty request-data cell runs the row, login gate included, with `''` as its data. */
  lemma EmptyDataRunsWithEmptyString(st: RunState, c: TestCase, row: nat, o: Oracles, api: ApiCall -> ApiResult)
    requires KeepsContract(api)
    requires !st.stopped && c.isActive == "yes" && c.reqData == ""
    ensures Step(st, c, row, o, api) == Perform(st.(res := st.res[c.apiId := Pending]), c, NoData, o, api)
  {
  }

  // ---------------------------------------------------------------- end of run

  datatype Mail = Mail(to: seq<string>, subject: string, body: string)

  /** The final `mail_content` and the mail sent, if any. */
  datatype Final = Final(content: string, mail: Option<Mail>)

  function ContactText(s: Settings): string {
    ContactLead + (s.contactPhone + (ContactMid + (s.contactName + ContactTail)))
  }

  const ContactLead := "<br><b>如有問題，請致電 <font color=\"red\">"
  const ContactMid := "</font>（"
  const ContactTail := "）。</b>"

  /** The contact line starts on a line of its own and names the phone number, then the contact's name. */
  lemma ContactLine(s: Settings)
    ensures var t := ContactText(s);
      && StartsWith(t, "<br>")
      && OccursAt(t, s.contactPhone, |ContactLead|)
      && OccursAt(t, s.contactName, |ContactLead| + |s.contactPhone| + |ContactMid|)
  {
    ContactPhoneAt(s);
    ContactNameAt(s);
    var rest := s.contactPhone + (ContactMid + (s.contactName + ContactTail));
    assert ContactLead[..4] == "<br>";
    OccursWithin(ContactLead, rest, "<br>", 0);
  }

  lemma ContactPhoneAt(s: Settings)
    ensures OccursAt(ContactText(s), s.contactPhone, |ContactLead|)
  {
    var rest := ContactMid + (s.contactName + ContactTail);
    ConcatParts(s.contactPhone, rest);
    OccursWithin(s.contactPhone + rest, ContactLead, s.contactPhone, 0);
  }

  lemma ContactNameAt(s: Settings)
    ensures OccursAt(ContactText(s), s.contactName, |ContactLead| + |s.contactPhone| + |ContactMid|)
  {
    var z := s.contactName + ContactTail;
    ConcatParts(s.contactName, ContactTail);
    OccursWithin(z, ContactMid, s.contactName, 0);
    OccursWithin(ContactMid + z, s.contactPhone, s.contactName, |ContactMid|);
    OccursWithin(s.contactPhone + (ContactMid + z), ContactLead, s.contactName, |s.contactPhone| + |ContactMid|);
  }

  const RankingHeader := "<br><br>各個接口執行測試時間排序：<br><br>接口名稱 : 執行時間（秒）"
  const QuietSubjectSuffix := "〔正常〕"

  /** One line per timing record, in the given order. */
  function RankingLines(entries: seq<TimeEntry>): string {
    if |entries| == 0 then ""
    else RankingLine(entries[0]) + RankingLines(entries[1..])
  }

  /** The ranking line of one timing record: `<br>title : seconds`. */
  function RankingLine(e: TimeEntry): string {
    "<br>" + e.title + " : " + NatToString(e.spend)
  }

  /** The ranking lists the records line by line in their order: the lines of a concatenation are the lines of its parts. */
  lemma {:induction false} RankingLinesAppend(a: seq<TimeEntry>, b: seq<TimeEntry>)
    ensures RankingLines(a + b) == RankingLines(a) + RankingLines(b)
    decreases |a|
  {
    if |a| == 0 {
      assert a + b == b;
    } else {
      RankingLinesAppend(a[1..], b);
      var ab := a + b;
      assert ab[0] == a[0] && ab[1..] == a[1..] + b;
      var head := RankingLine(a[0]);
      assert RankingLines(ab) == head + RankingLines(a[1..] + b);
      assert RankingLines(a) == head + RankingLines(a[1..]);
    }
  }

  /** One record is one ranking line. */
  lemma RankingLinesOne(e: TimeEntry)
    ensures RankingLines([e]) == RankingLine(e)
  {
    assert [e][1..] == [];
  }

  /** The report as the end of the run sees it: the "nothing ran" notice when `res` is empty. */
  function Failures(st: RunState): (f: string)
    ensures |st.res| > 0 ==> f == st.report
  {
    if |st.res| == 0 then NoTestsText else st.report
  }

  /** The message drawn from the `;`-separated pool; `pick` stands for `random.choice`. */
  function QuietMessage(s: Settings, pick: nat): (m: string)
    ensures m in Split(s.mailContentRandom, ';')
    ensures ';' !in m
  {
    var pool := Split(s.mailContentRandom, ';');
    pool[pick % |pool|]
  }

  /** Every message of the pool can be drawn: pick `k` draws the `k`-th. */
  lemma QuietMessageCovers(s: Settings, k: nat)
    requires k < |Split(s.mailContentRandom, ';')|
    ensures QuietMessage(s, k) == Split(s.mailContentRandom, ';')[k]
  {
    var pool := Split(s.mailContentRandom, ';');
    SmallModulo(k, |pool|);
  }

  lemma SmallModulo(k: nat, n: nat)
    requires k < n
    ensures k % n == k
  {
  }

  /**
    The notification policy: `if_mail` 1 always mails, 2 mails only when there
    is failure text, anything else never. Failure text goes to everyone with
    the contact line appended; a clean run goes to the owner with a random
    message and the timings, longest first.
   */
  function Finish(st: RunState, s: Settings, pick: nat): (f: Final)
    ensures f.mail.Some? <==> s.ifMail == 1 || (s.ifMail == 2 && Failures(st) != "")
    ensures f.mail.Some? ==> f.mail.value.body == f.content
    ensures f.mail.None? ==> f.content == Failures(st)
    ensures f.mail.Some? && Failures(st) != "" ==>
              f.mail.value.to == Recipients(s.mailToAll) && f.mail.value.subject == s.mailSub
              && f.content == Failures(st) + ContactText(s)
    ensures f.mail.Some? && Failures(st) == "" ==>
              f.mail.value.to == Recipients(s.mailToMe) && f.mail.value.subject == s.mailSub + QuietSubjectSuffix
              && f.content == QuietMessage(s, pick) + RankingHeader + RankingLines(SortDesc(st.times))
  {
    var content := Failures(st);
    if (s.ifMail == 1 || s.ifMail == 2) && content != "" then
      var body := content + ContactText(s);
      Final(body, Some(Mail(Recipients(s.mailToAll), s.mailSub, body)))
    else if s.ifMail == 1 then
      var body := QuietMessage(s, pick) + RankingHeader + RankingLines(SortDesc(st.times));
      Final(body, Some(Mail(Recipients(s.mailToMe), s.mailSub + QuietSubjectSuffix, body)))
    else
      Final(content, None)
  }

  /** The state at the end of the row loop, with `run_api` as `Api` models it. */
  function LoopResult(rows: seq<TestCase>, o: Oracles): RunState {
    ModelKeepsContract();
    Exec(rows, o, ModelApi)
  }

  /** The whole of `get_test_case` over the rows, given the settings and the environment. */
  function RunTests(rows: seq<TestCase>, s: Settings, o: Oracles, pick: nat): (f: Final)
    ensures var report := Failures(LoopResult(rows, o));
      && (f.mail.Some? <==> s.ifMail == 1 || (s.ifMail == 2 && report != ""))
      && (f.mail.Some? ==> f.mail.value.body == f.content)
      && (f.mail.None? ==> f.content == report)
      && (f.mail.Some? && report != "" ==> f.mail.value.to == Recipients(s.mailToAll) && StartsWith(f.content, report))
      && (f.mail.Some? && report == "" ==> f.mail.value.to == Recipients(s.mailToMe))
  {
    Finish(LoopResult(rows, o), s, pick)
  }

  /** A run in which no row is active reports exactly the "nothing ran" notice. */
  lemma NothingActive(rows: seq<TestCase>, s: Settings, o: Oracles, pick: nat)
    requires forall i :: 0 <= i < |rows| ==> rows[i].isActive != "yes"
    ensures Failures(LoopResult(rows, o)) == NoTestsText
    ensures s.ifMail == 1 || s.ifMail == 2 ==> RunTests(rows, s, o, pick).content == NoTestsText + ContactText(s)
    ensures s.ifMail != 1 && s.ifMail != 2 ==> RunTests(rows, s, o, pick) == Final(NoTestsText, None)
  {
    ModelKeepsContract();
    ExecResKeys(rows, o, ModelApi);
    assert ActiveIds(rows) == {};
  }

  /**
    A clean run's mail lists every timing record once, longest first, records
    of equal duration in the order they were taken.
   */
  lemma QuietMailRanking(rows: seq<TestCase>, s: Settings, o: Oracles, pick: nat)
    requires s.ifMail == 1 && Failures(LoopResult(rows, o)) == ""
    ensures var st := LoopResult(rows, o); var ranked := SortDesc(st.times);
      && RunTests(rows, s, o, pick).content == QuietMessage(s, pick) + RankingHeader + RankingLines(ranked)
      && Descending(ranked)
      && multiset(ranked) == multiset(st.times)
      && forall d: nat :: WithSpend(ranked, d) == WithSpend(st.times, d)
  {
    ModelKeepsContract();
    var st := LoopResult(rows, o);
    forall d: nat ensures WithSpend(SortDesc(st.times), d) == WithSpend(st.times, d) {
      SortDescStable(st.times, d);
    }
  }
}
