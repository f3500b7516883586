/**
  `run_api`: one test case turned into an HTTP request, sent with bounded
  retry on connection errors, its response classified, optionally saved to a
  file, and judged by the case's checkpoint.

  The network, the upload-file open, `eval` of the checkpoint and `json.loads`
  are not modelled; they are oracles passed in:
  - `attempts(n)` is what the n-th attempt of this call ends with;
  - `check` is what evaluating the checkpoint gives;
  - `parse(text)` is `str(json.loads(text))`, the printed form of the parsed value.
 */
module Api {
  import opened Wrappers
  import opened Text
  import Patterns

  /** One row of the "Test Case" sheet, by column name; the model takes an empty cell as "". */
  datatype TestCase = TestCase(
    apiId: string,
    apiTitle: string,
    isActive: string,
    apiHost: string,
    reqUrl: string,
    reqMethod: string,
    reqDataType: string,
    reqData: string,
    reqFile: string,
    checkPoint: string)

  /** The URL of the case: the scheme, then the host, then the path, each read back at its place. */
  function ApiUrl(c: TestCase): (u: string)
    ensures |u| == 7 + |c.apiHost| + |c.reqUrl|
    ensures u[..7] == "http://"
    ensures u[7..7 + |c.apiHost|] == c.apiHost
    ensures u[7 + |c.apiHost|..] == c.reqUrl
  {
    "http://" + c.apiHost + c.reqUrl
  }

  /**
    A Python value as the runner looks at it: whether it is a dict, whether
    it is truthy, and how `%s` prints it.
   */
  datatype PyValue = PyValue(isDict: bool, truthy: bool, repr: string)

  /** The request data handed to the request: `''` for an empty cell, otherwise the evaluated value. */
  datatype ReqData = NoData | Value(v: PyValue)

  predicate Truthy(d: ReqData) {
    d.Value? && d.v.truthy
  }

  const FormType := "application/x-www-form-urlencoded"
  const JsonType := "application/json"
  const MultipartType := "multipart/form-data"

  /** Seconds a request may take (`out_time`). */
  const Timeout := 7
  /** Attempts per request (`roop_time`). */
  const MaxAttempts := 3
  /** Seconds waited before retrying after a connection error (`retry_time`). */
  const RetryWait := 10

  const BaseHeaders: map<string, string> := map[
    "X-Requested-With" := "XMLHttpRequest",
    "Connection" := "keep-alive",
    "User-Agent" := "Mozilla/5.0 (Macintosh; Intel Mac OS X 10_10_5) AppleWebKit/537.36 (KHTML, like Gecko) Chrome/50.0.2661.94 Safari/537.36"]

  datatype Verb = Get | Post

  /** How the request data travels: query string, form body, JSON body, or one file part named `file`. */
  datatype Payload = NoPayload | QueryParams(data: ReqData) | FormBody(data: ReqData) | JsonBody(data: ReqData) | FilePart(path: string)

  datatype Request = Request(verb: Verb, url: string, headers: map<string, string>, payload: Payload, timeout: nat)

  /** How one attempt ends: a response, or one of the three exceptions `run_api` catches. */
  datatype Attempt =
    | Responded(text: string, status: nat)
    | ConnErr(detail: string)
    | OtherReqErr(detail: string)
    | FileNotFound(detail: string)

  /** Evaluating the checkpoint: its truth value, or one of the caught evaluation errors. */
  datatype CheckEval = CheckOk(holds: bool) | CheckErr(detail: string)

  /**
    What `res[api_id]` holds: the `{}` placeholder, a parsed JSON value (by its
    printed form), the raw response text, or the failure marker `{'msg': '執行失敗'}`.
   */
  datatype Outcome = Pending | Parsed(repr: string) | Raw(text: string) | Sentinel

  /** Observable effects: one pass of the retry loop for a request (sent or not), a sleep, a response saved to a file. */
  datatype Event = Attempted(req: Request) | Wait(seconds: nat) | Saved(name: string, content: string)

  /** `str(outcome)`, as the login gate and the failure report print it. */
  function Show(o: Outcome): string {
    match o
    case Pending => "{}"
    case Parsed(repr) => repr
    case Raw(text) => text
    case Sentinel => "{'msg': '執行失敗'}"
  }

  // ---------------------------------------------------------------- report texts

  function FailHead(title: string): string {
    "API: " + title + " >> 執行失敗 >><br>"
  }

  /** A report entry for the case: its failure head, the body, then a blank line. */
  function Entry(title: string, body: string): string {
    FailHead(title) + body + "<br><br>"
  }

  function BadTypeText(title: string): string {
    Entry(title, ">> 原因：「req_data_type」參數不正確。")
  }

  function BadMethodText(title: string): string {
    Entry(title, ">> 原因：「req_method」參數不正確。")
  }

  /** The text of a caught exception; `detail` stands for `type(e)` and `e.args` as printed. */
  function ErrorText(title: string, detail: string): string {
    Entry(title, ">> 異常：" + detail)
  }

  function CheckFalseText(title: string, status: nat, url: string, response: string): string {
    Entry(title, ">> Status Code: " + NatToString(status) + "<br>>> URL: " + url + "<br>>> Response: " + response)
  }

  /** A failure entry of the report: it opens with the case's failure head and closes with a blank line. */
  predicate FailureEntry(t: string, title: string) {
    StartsWith(t, FailHead(title)) && EndsWith(t, "<br><br>")
  }

  /** An entry is a failure entry whose title reads back from its head and whose body sits right after the head. */
  lemma EntryShape(title: string, body: string)
    ensures FailureEntry(Entry(title, body), title)
    ensures OccursAt(Entry(title, body), body, |FailHead(title)|)
    ensures FailHead(title)[5..5 + |title|] == title
  {
    var head := FailHead(title);
    ConcatParts(head, body);
    OccursWithin(head + body, "<br><br>", head, 0);
    OccursWithin(head + body, "<br><br>", body, |head|);
    ConcatParts(head + body, "<br><br>");
    assert head == "API: " + title + " >> 執行失敗 >><br>";
    assert head[5..5 + |title|] == title;
  }

  /**
    Every failure text of `run_api` is an entry of its own for the case, the
    two parameter errors are told apart, and a false checkpoint shows the
    status code right after its label.
   */
  lemma CallFailureTexts(title: string, detail: string, status: nat, url: string, response: string)
    ensures FailureEntry(BadTypeText(title), title)
    ensures FailureEntry(BadMethodText(title), title)
    ensures FailureEntry(ErrorText(title, detail), title)
    ensures FailureEntry(CheckFalseText(title, status, url, response), title)
    ensures BadTypeText(title) != BadMethodText(title)
    ensures OccursAt(CheckFalseText(title, status, url, response), NatToString(status), |FailHead(title)| + 16)
  {
    EntryShape(title, ">> 原因：「req_data_type」參數不正確。");
    EntryShape(title, ">> 原因：「req_method」參數不正確。");
    EntryShape(title, ">> 異常：" + detail);
    CheckFalseShowsStatus(title, status, url, response);
    ParameterErrorsDiffer(title);
  }

  /** A false checkpoint's entry shows the status code right after its label. */
  lemma CheckFalseShowsStatus(title: string, status: nat, url: string, response: string)
    ensures FailureEntry(CheckFalseText(title, status, url, response), title)
    ensures OccursAt(CheckFalseText(title, status, url, response), NatToString(status), |FailHead(title)| + 16)
  {
    var tag := ">> Status Code: ";
    var digits := NatToString(status);
    var rest := "<br>>> URL: " + url + "<br>>> Response: " + response;
    var body := tag + digits + "<br>>> URL: " + url + "<br>>> Response: " + response;
    EntryShape(title, body);
    assert body == (tag + digits) + rest;
    ConcatParts(tag, digits);
    OccursWithin(tag + digits, rest, digits, 16);
    var head := FailHead(title);
    OccursWithin(body, head, digits, 16);
    OccursWithin(head + body, "<br><br>", digits, |head| + 16);
  }

  /** The two parameter errors read differently: the parameter names differ in length. */
  lemma ParameterErrorsDiffer(title: string)
    ensures BadTypeText(title) != BadMethodText(title)
  {
    var head := FailHead(title);
    var a := ">> 原因：「req_data_type」參數不正確。";
    var b := ">> 原因：「req_method」參數不正確。";
    assert BadTypeText(title) == head + a + "<br><br>";
    assert BadMethodText(title) == head + b + "<br><br>";
    assert |a| != |b|;
  }

  // ---------------------------------------------------------------- headers and dispatch

  predicate KnownType(dataType: string) {
    dataType == FormType || dataType == JsonType || dataType == MultipartType
  }

  /** An empty `req_data_type` defaults to form encoding. */
  function EffectiveType(c: TestCase): (t: string)
    ensures c.reqDataType != "" ==> t == c.reqDataType
    ensures c.reqDataType == "" ==> t == FormType
  {
    if c.reqDataType == "" then FormType else c.reqDataType
  }

  /**
    The request headers for a data type: the fixed identifying headers, plus a
    `Content-Type` with the charset for form and JSON bodies; none for
    multipart (the transport writes the boundary); no headers at all for an
    unknown type, which fails the case.
   */
  function Headers(dataType: string): (h: Option<map<string, string>>)
    ensures h.Some? <==> KnownType(dataType)
    ensures h.Some? ==> forall k :: k in BaseHeaders ==> k in h.value && h.value[k] == BaseHeaders[k]
    ensures h.Some? ==> h.value.Keys <= BaseHeaders.Keys + {"Content-Type"}
    ensures h.Some? ==> ("Content-Type" in h.value <==> dataType != MultipartType)
    ensures h.Some? && "Content-Type" in h.value ==> h.value["Content-Type"] == dataType + "; charset=UTF-8"
  {
    if dataType == FormType || dataType == JsonType then
      Some(BaseHeaders["Content-Type" := dataType + "; charset=UTF-8"])
    else if dataType == MultipartType then
      Some(BaseHeaders)
    else
      None
  }

  /**
    The request a case sends, by method and data type; `None` is the "invalid
    method" failure, which is also where a `post` of no known type ends up.
   */
  function Dispatch(reqMethod: string, dataType: string, url: string, data: ReqData, file: string, headers: map<string, string>): (r: Option<Request>)
    ensures r.Some? <==> reqMethod == "get" || (reqMethod == "post" && KnownType(dataType))
    ensures r.Some? ==> r.value.url == url && r.value.headers == headers && r.value.timeout == Timeout
    ensures r.Some? ==> (r.value.verb == Get <==> reqMethod == "get")
    ensures r.Some? && r.value.verb == Get ==> (r.value.payload.QueryParams? <==> Truthy(data))
    ensures r.Some? && r.value.verb == Get ==> (r.value.payload.NoPayload? <==> !Truthy(data))
    ensures r.Some? && r.value.verb == Post ==> (r.value.payload.FormBody? <==> dataType == FormType)
    ensures r.Some? && r.value.verb == Post ==> (r.value.payload.JsonBody? <==> dataType == JsonType)
    ensures r.Some? && r.value.verb == Post ==> (r.value.payload.FilePart? <==> dataType == MultipartType)
    ensures r.Some? && r.value.payload.FilePart? ==> r.value.payload.path == file
    ensures r.Some? && !r.value.payload.NoPayload? && !r.value.payload.FilePart? ==> r.value.payload.data == data
  {
    if reqMethod == "post" && dataType == FormType then
      Some(Request(Post, url, headers, FormBody(data), Timeout))
    else if reqMethod == "post" && dataType == JsonType then
      Some(Request(Post, url, headers, JsonBody(data), Timeout))
    else if reqMethod == "post" && dataType == MultipartType then
      Some(Request(Post, url, headers, FilePart(file), Timeout))
    else if reqMethod == "get" then
      Some(Request(Get, url, headers, if Truthy(data) then QueryParams(data) else NoPayload, Timeout))
    else
      None
  }

  // ---------------------------------------------------------------- retry

  datatype Delivery = Delivered(text: string, status: nat) | Failed(detail: string)

  datatype RetryResult = RetryResult(delivery: Delivery, trace: seq<Event>, used: nat)

  /** `count` attempts of `req`, with one retry wait between consecutive attempts. */
  ghost predicate Spaced(trace: seq<Event>, req: Request, count: nat) {
    && |trace| == 2 * count - 1
    && forall i :: 0 <= i < |trace| ==> trace[i] == if i % 2 == 0 then Attempted(req) else Wait(RetryWait)
  }

  /**
    The retry loop from attempt `n` (counting from 0) on: a connection error is
    retried after a wait unless it was the last attempt; any other error, or a
    response, ends the loop.
   */
  function RetryFrom(req: Request, attempts: nat -> Attempt, n: nat): (r: RetryResult)
    requires n < MaxAttempts
    ensures n < r.used <= MaxAttempts
    ensures forall k :: n <= k < r.used - 1 ==> attempts(k).ConnErr?
    ensures r.used < MaxAttempts ==> !attempts(r.used - 1).ConnErr?
    ensures r.delivery.Delivered? <==> attempts(r.used - 1).Responded?
    ensures r.delivery.Delivered? ==> r.delivery == Delivered(attempts(r.used - 1).text, attempts(r.used - 1).status)
    ensures r.delivery.Failed? ==> r.delivery.detail == attempts(r.used - 1).detail
    ensures Spaced(r.trace, req, r.used - n)
    decreases MaxAttempts - n
  {
    match attempts(n)
    case Responded(text, status) => RetryResult(Delivered(text, status), [Attempted(req)], n + 1)
    case ConnErr(detail) =>
      if n + 1 == MaxAttempts then
        RetryResult(Failed(detail), [Attempted(req)], n + 1)
      else
        var rest := RetryFrom(req, attempts, n + 1);
        var trace := [Attempted(req), Wait(RetryWait)] + rest.trace;
        assert forall i :: 2 <= i < |trace| ==> trace[i] == rest.trace[i - 2];
        RetryResult(rest.delivery, trace, rest.used)
    case OtherReqErr(detail) => RetryResult(Failed(detail), [Attempted(req)], n + 1)
    case FileNotFound(detail) => RetryResult(Failed(detail), [Attempted(req)], n + 1)
  }

  /** The retry loop only attempts and waits ten seconds; it writes no file. */
  lemma RetryEvents(req: Request, attempts: nat -> Attempt)
    ensures forall e :: e in RetryFrom(req, attempts, 0).trace ==> !e.Saved? && (e.Wait? ==> e.seconds == RetryWait)
  {
    var sent := RetryFrom(req, attempts, 0);
    forall e | e in sent.trace ensures !e.Saved? && (e.Wait? ==> e.seconds == RetryWait) {
      var i :| 0 <= i < |sent.trace| && sent.trace[i] == e;
    }
  }

  // ---------------------------------------------------------------- classification and checkpoint

  /** A JSON-like body is parsed; anything else is kept as raw text. */
  function Classify(text: string, parse: string -> string): (o: Outcome)
    ensures Patterns.IsJsonLike(text) ==> o == Parsed(parse(text))
    ensures !Patterns.IsJsonLike(text) ==> o == Raw(text)
  {
    if Patterns.IsJsonLike(text) then Parsed(parse(text)) else Raw(text)
  }

  /** The file write asked for by the checkpoint, if it names an export file. */
  function SaveEvents(checkPoint: string, content: string): (s: seq<Event>)
    ensures |s| <= 1
    ensures |s| == 1 <==> Patterns.ExportFileName(checkPoint).Some?
    ensures |s| == 1 ==> s[0] == Saved(Patterns.ExportFileName(checkPoint).value, content)
  {
    match Patterns.ExportFileName(checkPoint)
    case Some(name) => [Saved(name, content)]
    case None => []
  }

  datatype ApiResult = ApiResult(outcome: Outcome, report: string, trace: seq<Event>, used: nat)

  /**
    `run_api(res, s, test_case, mail_content)` for a case whose request data is
    already evaluated: returns the outcome and the report text after the call.
   */
  function RunApi(c: TestCase, data: ReqData, attempts: nat -> Attempt, check: CheckEval,
                  parse: string -> string, report: string): (r: ApiResult)
    ensures StartsWith(r.report, report)
    ensures r.outcome.Sentinel? <==> r.report != report
    ensures !r.outcome.Pending?
    ensures !r.outcome.Sentinel? ==> check == CheckOk(true)
    ensures r.used <= MaxAttempts
    ensures forall e :: e in r.trace && e.Wait? ==> e.seconds == RetryWait
  {
    var dataType := EffectiveType(c);
    match Headers(dataType)
    case None => ApiResult(Sentinel, report + BadTypeText(c.apiTitle), [], 0)
    case Some(headers) =>
      match Dispatch(c.reqMethod, dataType, ApiUrl(c), data, c.reqFile, headers)
      case None => ApiResult(Sentinel, report + BadMethodText(c.apiTitle), [], 0)
      case Some(req) =>
        var sent := RetryFrom(req, attempts, 0);
        RetryEvents(req, attempts);
        match sent.delivery
        case Failed(detail) =>
          ApiResult(Sentinel, report + ErrorText(c.apiTitle, detail), sent.trace, sent.used)
        case Delivered(text, status) =>
          var resp := Classify(text, parse);
          var trace := sent.trace + SaveEvents(c.checkPoint, text);
          match check
          case CheckErr(detail) =>
            ApiResult(Sentinel, report + ErrorText(c.apiTitle, detail), trace, sent.used)
          case CheckOk(holds) =>
            if holds then
              ApiResult(resp, report, trace, sent.used)
            else
              ApiResult(Sentinel, report + CheckFalseText(c.apiTitle, status, ApiUrl(c), Show(resp)), trace, sent.used)
  }

  // ---------------------------------------------------------------- properties of run_api

  /** A case whose request can be built: a known data type and a `get` or `post` method. */
  predicate Sendable(c: TestCase) {
    KnownType(EffectiveType(c)) && (c.reqMethod == "get" || c.reqMethod == "post")
  }

  /** The index of the attempt that ends the retry loop: the first that is not a connection error, or the last. */
  function SettlingAttempt(attempts: nat -> Attempt): (k: nat)
    ensures k < MaxAttempts
  {
    if !attempts(0).ConnErr? then 0
    else if !attempts(1).ConnErr? then 1
    else 2
  }

  /** An unknown data type or method fails the case before any request is attempted. */
  lemma RejectedBeforeSending(c: TestCase, data: ReqData, attempts: nat -> Attempt, check: CheckEval,
                              parse: string -> string, report: string)
    requires !Sendable(c)
    ensures var r := RunApi(c, data, attempts, check, parse, report);
      && r.outcome == Sentinel && r.trace == [] && r.used == 0
      && r.report == report + (if KnownType(EffectiveType(c)) then BadMethodText(c.apiTitle) else BadTypeText(c.apiTitle))
  {
  }

  /**
    Retry: attempts continue exactly while they end in connection errors, for
    at most three attempts with one ten-second wait between consecutive ones;
    the attempt that settles decides between a response and a failure.
   */
  lemma RetrySettles(req: Request, attempts: nat -> Attempt)
    ensures var r := RetryFrom(req, attempts, 0); var k := SettlingAttempt(attempts);
      && r.used == k + 1
      && Spaced(r.trace, req, k + 1)
      && (r.delivery.Delivered? <==> attempts(k).Responded?)
      && (attempts(k).Responded? ==> r.delivery == Delivered(attempts(k).text, attempts(k).status))
      && (!attempts(k).Responded? ==> r.delivery == Failed(attempts(k).detail))
  {
  }

  /** Three connection errors in a row fail the case with the third error's text, after two waits. */
  lemma ConnErrorsExhaust(c: TestCase, data: ReqData, attempts: nat -> Attempt, check: CheckEval,
                          parse: string -> string, report: string)
    requires Sendable(c)
    requires attempts(0).ConnErr? && attempts(1).ConnErr? && attempts(2).ConnErr?
    ensures var r := RunApi(c, data, attempts, check, parse, report);
      && r.outcome == Sentinel
      && r.report == report + ErrorText(c.apiTitle, attempts(2).detail)
      && r.used == MaxAttempts
      && |r.trace| == 5 && r.trace[1] == r.trace[3] == Wait(RetryWait)
  {
    var req := Dispatch(c.reqMethod, EffectiveType(c), ApiUrl(c), data, c.reqFile, Headers(EffectiveType(c)).value).value;
    RetrySettles(req, attempts);
  }

  /**
    A settled response is judged by the checkpoint: a true checkpoint keeps the
    classified response and adds no text; a false one reports the status, URL
    and response; an evaluation error reports the error.
   */
  lemma CheckpointDecides(c: TestCase, data: ReqData, attempts: nat -> Attempt, check: CheckEval,
                          parse: string -> string, report: string)
    requires Sendable(c)
    requires attempts(SettlingAttempt(attempts)).Responded?
    ensures var r := RunApi(c, data, attempts, check, parse, report);
      var a := attempts(SettlingAttempt(attempts));
      var resp := Classify(a.text, parse);
      && r.used == SettlingAttempt(attempts) + 1
      && (check == CheckOk(true) ==> r.outcome == resp && r.report == report)
      && (check == CheckOk(false) ==>
            r.outcome == Sentinel && r.report == report + CheckFalseText(c.apiTitle, a.status, ApiUrl(c), Show(resp)))
      && (check.CheckErr? ==> r.outcome == Sentinel && r.report == report + ErrorText(c.apiTitle, check.detail))
  {
    var req := Dispatch(c.reqMethod, EffectiveType(c), ApiUrl(c), data, c.reqFile, Headers(EffectiveType(c)).value).value;
    RetrySettles(req, attempts);
  }

  /**
    A request error other than a connection error, or a missing upload file,
    fails the case at once with that error's text.
   */
  lemma OtherErrorsFailAtOnce(c: TestCase, data: ReqData, attempts: nat -> Attempt, check: CheckEval,
                              parse: string -> string, report: string)
    requires Sendable(c)
    requires attempts(SettlingAttempt(attempts)).OtherReqErr? || attempts(SettlingAttempt(attempts)).FileNotFound?
    ensures var r := RunApi(c, data, attempts, check, parse, report);
      && r.outcome == Sentinel
      && r.used == SettlingAttempt(attempts) + 1
      && r.report == report + ErrorText(c.apiTitle, attempts(SettlingAttempt(attempts)).detail)
  {
    var req := Dispatch(c.reqMethod, EffectiveType(c), ApiUrl(c), data, c.reqFile, Headers(EffectiveType(c)).value).value;
    RetrySettles(req, attempts);
  }

  /**
    The effects of a call, stated without the checkpoint: the attempts and
    waits of the retry loop and, when a response arrived, the export write
    the checkpoint asks for.
   */
  function CallEffects(c: TestCase, data: ReqData, attempts: nat -> Attempt): seq<Event>
    requires Sendable(c)
  {
    var req := Dispatch(c.reqMethod, EffectiveType(c), ApiUrl(c), data, c.reqFile, Headers(EffectiveType(c)).value).value;
    var sent := RetryFrom(req, attempts, 0);
    match sent.delivery
    case Failed(_) => sent.trace
    case Delivered(text, _) => sent.trace + SaveEvents(c.checkPoint, text)
  }

  /** Whatever the checkpoint gives, a call's effects are those of `CallEffects`. */
  lemma EffectsIgnoreCheck(c: TestCase, data: ReqData, attempts: nat -> Attempt, check: CheckEval,
                           parse: string -> string, report: string)
    requires Sendable(c)
    ensures RunApi(c, data, attempts, check, parse, report).trace == CallEffects(c, data, attempts)
  {
  }


  /** The effects hold a file write exactly when a response arrived and the checkpoint names a file. */
  lemma EffectsSave(c: TestCase, data: ReqData, attempts: nat -> Attempt)
    requires Sendable(c)
    ensures var t := CallEffects(c, data, attempts); var a := attempts(SettlingAttempt(attempts));
      && ((exists e :: e in t && e.Saved?) <==> a.Responded? && Patterns.ExportFileName(c.checkPoint).Some?)
      && forall e :: e in t && e.Saved? ==> Patterns.ExportFileName(c.checkPoint) == Some(e.name) && e.content == a.text
  {
    var req := Dispatch(c.reqMethod, EffectiveType(c), ApiUrl(c), data, c.reqFile, Headers(EffectiveType(c)).value).value;
    RetrySettles(req, attempts);
    RetryEvents(req, attempts);
  }

  /**
    The export file is written before the checkpoint is evaluated: the effects
    of a call do not depend on what the checkpoint gives, and a file is saved
    exactly when a response arrived and the checkpoint names an export file.
   */
  lemma SaveBeforeCheck(c: TestCase, data: ReqData, attempts: nat -> Attempt, check1: CheckEval, check2: CheckEval,
                        parse: string -> string, report: string)
    ensures RunApi(c, data, attempts, check1, parse, report).trace == RunApi(c, data, attempts, check2, parse, report).trace
    ensures var r := RunApi(c, data, attempts, check1, parse, report);
      (exists e :: e in r.trace && e.Saved?)
        <==> Sendable(c) && attempts(SettlingAttempt(attempts)).Responded? && Patterns.ExportFileName(c.checkPoint).Some?
    ensures var r := RunApi(c, data, attempts, check1, parse, report);
      forall e :: e in r.trace && e.Saved? ==>
        Patterns.ExportFileName(c.checkPoint) == Some(e.name) && e.content == attempts(SettlingAttempt(attempts)).text
  {
    if Sendable(c) {
      EffectsIgnoreCheck(c, data, attempts, check1, parse, report);
      EffectsIgnoreCheck(c, data, attempts, check2, parse, report);
      EffectsSave(c, data, attempts);
    } else {
      RejectedBeforeSending(c, data, attempts, check1, parse, report);
      RejectedBeforeSending(c, data, attempts, check2, parse, report);
    }
  }
}
