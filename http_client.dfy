/** The transport core of `HTTPClientImpl`: the status table and its lookup,
    the retry decision and exponential backoff, the retry loop over the
    outcomes the network gives each attempt, the copy of response headers
    and the request URI. */
module HttpClient {
  import opened JavaLang

  datatype HTTPMethod = GET | POST | PUT | DELETE | PATCH

  /** The statuses the client knows, in declaration order. */
  datatype HTTPStatus =
    | OK | CREATED | ACCEPTED | NO_CONTENT
    | MOVED_PERMANENTLY | SEE_OTHER | NOT_MODIFIED | TEMPORARY_REDIRECT | PERMANENT_REDIRECT
    | BAD_REQUEST | UNAUTHORIZED | FORBIDDEN | NOT_FOUND | METHOD_NOT_ALLOWED | NOT_ACCEPTABLE
    | CONFLICT | GONE | UNSUPPORTED_MEDIA_TYPE | UNPROCESSABLE_ENTITY | TOO_MANY_REQUESTS
    | INTERNAL_SERVER_ERROR | BAD_GATEWAY | SERVICE_UNAVAILABLE | GATEWAY_TIMEOUT
  {
    function Code(): int
    {
      match this
      case OK => 200
      case CREATED => 201
      case ACCEPTED => 202
      case NO_CONTENT => 204
      case MOVED_PERMANENTLY => 301
      case SEE_OTHER => 303
      case NOT_MODIFIED => 304
      case TEMPORARY_REDIRECT => 307
      case PERMANENT_REDIRECT => 308
      case BAD_REQUEST => 400
      case UNAUTHORIZED => 401
      case FORBIDDEN => 403
      case NOT_FOUND => 404
      case METHOD_NOT_ALLOWED => 405
      case NOT_ACCEPTABLE => 406
      case CONFLICT => 409
      case GONE => 410
      case UNSUPPORTED_MEDIA_TYPE => 415
      case UNPROCESSABLE_ENTITY => 422
      case TOO_MANY_REQUESTS => 429
      case INTERNAL_SERVER_ERROR => 500
      case BAD_GATEWAY => 502
      case SERVICE_UNAVAILABLE => 503
      case GATEWAY_TIMEOUT => 504
    }
  }

  /** `HTTPStatus.values()`. */
  const StatusValues: seq<HTTPStatus> := [
    OK, CREATED, ACCEPTED, NO_CONTENT,
    MOVED_PERMANENTLY, SEE_OTHER, NOT_MODIFIED, TEMPORARY_REDIRECT, PERMANENT_REDIRECT,
    BAD_REQUEST, UNAUTHORIZED, FORBIDDEN, NOT_FOUND, METHOD_NOT_ALLOWED, NOT_ACCEPTABLE,
    CONFLICT, GONE, UNSUPPORTED_MEDIA_TYPE, UNPROCESSABLE_ENTITY, TOO_MANY_REQUESTS,
    INTERNAL_SERVER_ERROR, BAD_GATEWAY, SERVICE_UNAVAILABLE, GATEWAY_TIMEOUT]

  /** `HTTPClientException`: a message, which may be null, and an error
      code. */
  datatype HTTPClientException = HTTPClientException(message: Option<string>, errorCode: string)

  datatype Result<+T> = Ok(value: T) | Err(error: HTTPClientException)

  // ---------------------------------------------------------------------
  // Status table

  /** The map the static initialiser fills: `put(status.code, status)` for
      each value in order, a later value replacing an earlier one. */
  function TableOf(values: seq<HTTPStatus>): map<int, HTTPStatus>
    decreases |values|
  {
    if values == [] then map[]
    else
      var last := values[|values| - 1];
      TableOf(values[..|values| - 1])[last.Code() := last]
  }

  /** The static initialiser's loop. */
  method BuildStatusTable(values: seq<HTTPStatus>) returns (table: map<int, HTTPStatus>)
    ensures table == TableOf(values)
  {
    table := map[];
    for i := 0 to |values|
      invariant table == TableOf(values[..i])
    {
      assert values[..i + 1][..i] == values[..i];
      table := table[values[i].Code() := values[i]];
    }
    assert values[..|values|] == values;
  }

  /** The table holds exactly the codes of the values, each mapped to a value
      with that code. */
  lemma {:induction false} TableOfSpec(values: seq<HTTPStatus>, c: int)
    ensures c in TableOf(values) <==> exists i :: 0 <= i < |values| && values[i].Code() == c
    ensures c in TableOf(values) ==> TableOf(values)[c].Code() == c
    decreases |values|
  {
    if values != [] {
      var init := values[..|values| - 1];
      TableOfSpec(init, c);
      if c in TableOf(init) {
        var i :| 0 <= i < |init| && init[i].Code() == c;
        assert values[i] == init[i];
      }
      if exists i :: 0 <= i < |values| && values[i].Code() == c {
        var i :| 0 <= i < |values| && values[i].Code() == c;
        if i < |init| { assert init[i] == values[i]; }
      }
    }
  }

  /** `HTTP_STATUSES`, built once from `HTTPStatus.values()`. */
  function StatusTable(): map<int, HTTPStatus>
  {
    TableOf(StatusValues)
  }

  lemma EveryStatusListed(s: HTTPStatus)
    ensures s in StatusValues
  {
  }

  /** `parseHTTPStatus`: the status with the given code, or the
      UNKNOWN_HTTP_STATUS_CODE error when no status has it. */
  function ParseHTTPStatus(statusCode: int): (r: Result<HTTPStatus>)
    ensures r.Ok? ==> r.value.Code() == statusCode
    ensures r.Err? <==> forall s: HTTPStatus :: s.Code() != statusCode
    ensures r.Err? ==> r.error == HTTPClientException(
      Some("unsupported http status code, code=" + DecimalText(statusCode)), "UNKNOWN_HTTP_STATUS_CODE")
  {
    TableOfSpec(StatusValues, statusCode);
    if statusCode in StatusTable() then Ok(StatusTable()[statusCode])
    else
      assert forall s: HTTPStatus :: s.Code() != statusCode by {
        forall s: HTTPStatus ensures s.Code() != statusCode {
          EveryStatusListed(s);
        }
      }
      Err(HTTPClientException(Some("unsupported http status code, code=" + DecimalText(statusCode)), "UNKNOWN_HTTP_STATUS_CODE"))
  }

  /** Every status is found again from its own code. */
  lemma ParseOwnCode(s: HTTPStatus)
    ensures ParseHTTPStatus(s.Code()) == Ok(s)
  {
    var r := ParseHTTPStatus(s.Code());
    assert r.Ok?;
    assert r.value.Code() == s.Code();
    match s
    case _ =>
  }

  // ---------------------------------------------------------------------
  // Retry policy

  /** The exception classes a send can fail with: `HttpTimeoutException`
      (a read time-out), its subclass `HttpConnectTimeoutException`, any
      other `IOException`, and `InterruptedException`. */
  datatype ExceptionClass = HttpTimeoutException | HttpConnectTimeoutException | OtherIOException | InterruptedException

  /** `shouldRetry`; `e` is None for a 503 response. */
  function ShouldRetry(maxRetries: int, attempts: int, e: Option<ExceptionClass>, verb: HTTPMethod): (r: bool)
    ensures attempts >= maxRetries ==> !r
    ensures attempts < maxRetries && e == None ==> r
    ensures attempts < maxRetries && verb != POST ==> r
    ensures attempts < maxRetries && e.Some? && e.value != HttpTimeoutException ==> r
    ensures verb == POST && e == Some(HttpTimeoutException) ==> !r
  {
    if attempts >= maxRetries then false
    else !(verb == POST && e.Some? && e.value == HttpTimeoutException)
  }

  function Pow2(n: nat): (p: nat)
    ensures p >= 1
  {
    if n == 0 then 1 else 2 * Pow2(n - 1)
  }

  /** Two's-complement wrap-around of a value to Java's 32-bit `int`. */
  function ToInt32(v: int): (w: int)
    ensures -0x8000_0000 <= w < 0x8000_0000
    ensures -0x8000_0000 <= v < 0x8000_0000 ==> w == v
  {
    var m := v % 0x1_0000_0000;
    if m >= 0x8000_0000 then m - 0x1_0000_0000 else m
  }

  /** Java's `x << n` on `int`: the shift count is taken modulo 32 and the
      product wraps around to 32 bits. */
  function ShiftLeftInt32(x: int, n: int): int
  {
    ToInt32(x * Pow2(n % 32))
  }

  /** `waitTime(attempts)` in milliseconds: `500 << attempts - 1`. */
  function WaitTime(attempts: int): int
  {
    ShiftLeftInt32(500, attempts - 1)
  }

  lemma {:induction false} Pow2Add(a: nat, b: nat)
    ensures Pow2(a + b) == Pow2(a) * Pow2(b)
    decreases a
  {
    if a > 0 { Pow2Add(a - 1, b); }
  }

  /** 2^22 and 2^23, the powers the 32-bit bounds below need. */
  lemma Pow2Values()
    ensures Pow2(22) == 0x40_0000 && Pow2(23) == 0x80_0000
  {
    assert Pow2(1) == 2;
    assert Pow2(2) == 4;
    assert Pow2(3) == 8;
    assert Pow2(4) == 16;
    Pow2Add(4, 4);
    Pow2Add(8, 8);
    Pow2Add(16, 4);
    Pow2Add(20, 2);
    Pow2Add(22, 1);
  }

  lemma {:induction false} Pow2Bound(n: nat, m: nat)
    requires n <= m
    ensures Pow2(n) <= Pow2(m)
    decreases m
  {
    if n < m { Pow2Bound(n, m - 1); }
  }

  /** The backoff is exponential, 500 ms times 2^(attempts-1), with no
      wrap-around for attempts 1 to 23. */
  lemma WaitTimeExponential(attempts: int)
    requires 1 <= attempts <= 23
    ensures WaitTime(attempts) == 500 * Pow2(attempts - 1)
  {
    Pow2Bound(attempts - 1, 22);
    Pow2Values();
  }

  /** Each wait doubles the previous one: 500, 1000, 2000, ... */
  lemma WaitTimeDoubles(attempts: int)
    requires 1 <= attempts <= 22
    ensures WaitTime(attempts + 1) == 2 * WaitTime(attempts)
    ensures WaitTime(1) == 500 && WaitTime(2) == 1000 && WaitTime(3) == 2000
  {
    WaitTimeExponential(attempts);
    WaitTimeExponential(attempts + 1);
    WaitTimeExponential(1);
    WaitTimeExponential(2);
    WaitTimeExponential(3);
  }

  /** From the 24th attempt the 32-bit shift overflows and the wait
      is negative. */
  lemma WaitTimeWraps()
    ensures WaitTime(24) == -100663296
  {
    Pow2Values();
    assert 23 % 32 == 23;
    assert 500 * 0x80_0000 == 4_194_304_000;
    assert ToInt32(4_194_304_000) == -100663296;
  }

  // ---------------------------------------------------------------------
  // Response headers

  type HeaderValues = s: seq<string> | |s| > 0 witness [""]

  /** One entry of the JDK's response header map: a name and its values. */
  datatype HeaderEntry = HeaderEntry(name: string, values: HeaderValues)

  /** An entry of the response's case-insensitive `TreeMap`: the name as
      first stored and its current value. */
  datatype StoredHeader = StoredHeader(name: string, value: string)

  /** A `TreeMap` ordered by `CASE_INSENSITIVE_ORDER`, keyed here by the
      case-folded name. */
  type HeaderMap = map<string, StoredHeader>

  datatype HTTPResponse = HTTPResponse(status: HTTPStatus, headers: HeaderMap, body: seq<byte>)

  function ToLower(c: char): char
  {
    if 'A' <= c <= 'Z' then (c as int + 32) as char else c
  }

  /** The case folding under which `CASE_INSENSITIVE_ORDER` calls two
      names equal. */
  function FoldCase(s: string): (f: string)
    ensures |f| == |s|
    ensures forall i :: 0 <= i < |s| ==> f[i] == ToLower(s[i])
  {
    seq(|s|, i requires 0 <= i < |s| => ToLower(s[i]))
  }

  /** An HTTP/2 pseudo-header: a name that starts with ':'. */
  predicate IsPseudoHeader(name: string)
  {
    |name| > 0 && name[0] == ':'
  }

  /** `TreeMap.put` on a case-insensitive map: an existing entry keeps its
      name and takes the new value. */
  function Put(h: HeaderMap, name: string, value: string): HeaderMap
  {
    var key := FoldCase(name);
    if key in h then h[key := StoredHeader(h[key].name, value)]
    else h[key := StoredHeader(name, value)]
  }

  /** Lookup by name, ignoring case. */
  function Get(h: HeaderMap, name: string): Option<string>
  {
    if FoldCase(name) in h then Some(h[FoldCase(name)].value) else None
  }

  /** The header map `response` builds: every entry that is not a
      pseudo-header, stored with the first of its values. */
  function CopyHeaders(entries: seq<HeaderEntry>): HeaderMap
    decreases |entries|
  {
    if entries == [] then map[]
    else
      var init := CopyHeaders(entries[..|entries| - 1]);
      var e := entries[|entries| - 1];
      if IsPseudoHeader(e.name) then init else Put(init, e.name, e.values[0])
  }

  /** Entry `e` is kept under the folded key `key`. */
  predicate Keeps(e: HeaderEntry, key: string)
  {
    !IsPseudoHeader(e.name) && FoldCase(e.name) == key
  }

  /** The copied map holds exactly the non-pseudo names (compared without
      case), never a pseudo-header; the value under a name is the first
      value of the last entry with that name, and the name kept is the
      spelling of the first such entry. */
  lemma {:induction false} CopyHeadersSpec(entries: seq<HeaderEntry>, key: string)
    ensures key in CopyHeaders(entries) <==> exists i :: 0 <= i < |entries| && Keeps(entries[i], key)
    ensures key in CopyHeaders(entries) ==>
      var h := CopyHeaders(entries)[key];
      && !IsPseudoHeader(h.name) && FoldCase(h.name) == key
      && (forall i :: 0 <= i < |entries| && Keeps(entries[i], key)
            && (forall j :: i < j < |entries| ==> !Keeps(entries[j], key))
            ==> h.value == entries[i].values[0])
      && (forall i :: 0 <= i < |entries| && Keeps(entries[i], key)
            && (forall j :: 0 <= j < i ==> !Keeps(entries[j], key))
            ==> h.name == entries[i].name)
    decreases |entries|
  {
    if entries != [] {
      var n := |entries| - 1;
      var init := entries[..n];
      CopyHeadersSpec(init, key);
      assert forall i :: 0 <= i < n ==> init[i] == entries[i];
      var e := entries[n];
      if Keeps(e, key) {
        if key in CopyHeaders(init) {
          var w :| 0 <= w < n && Keeps(init[w], key);
          assert Keeps(entries[w], key);
        }
      }
    }
  }

  /** A pseudo-header name is never found in the copied map. */
  lemma PseudoHeadersDropped(entries: seq<HeaderEntry>, name: string)
    requires IsPseudoHeader(name)
    ensures Get(CopyHeaders(entries), name) == None
  {
    CopyHeadersSpec(entries, FoldCase(name));
  }

  /** The response `response` builds from a status code, the JDK's header
      entries and the body. */
  function ResponseOf(statusCode: int, entries: seq<HeaderEntry>, body: seq<byte>): Result<HTTPResponse>
  {
    match ParseHTTPStatus(statusCode)
    case Ok(status) => Ok(HTTPResponse(status, CopyHeaders(entries), body))
    case Err(e) => Err(e)
  }

  /** `response`: copies the headers in a loop, then parses the status. */
  method Response(statusCode: int, entries: seq<HeaderEntry>, body: seq<byte>) returns (r: Result<HTTPResponse>)
    ensures r == ResponseOf(statusCode, entries, body)
  {
    var headers: HeaderMap := map[];
    for i := 0 to |entries|
      invariant headers == CopyHeaders(entries[..i])
    {
      assert entries[..i + 1][..i] == entries[..i];
      var entry := entries[i];
      if !IsPseudoHeader(entry.name) {
        headers := Put(headers, entry.name, entry.values[0]);
      }
    }
    assert entries[..|entries|] == entries;
    var status := ParseHTTPStatus(statusCode);
    if status.Err? {
      return Err(status.error);
    }
    r := Ok(HTTPResponse(status.value, headers, body));
  }

  // ---------------------------------------------------------------------
  // Request URI

  /** `requestURI`: the URI unchanged without parameters, otherwise the URI,
      '?' and the encoded parameters; `urlEncoding` stands for
      `HTTPRequestHelper.urlEncoding`. */
  function RequestURI(uri: string, params: map<string, string>, urlEncoding: map<string, string> -> string): (r: string)
    ensures |r| >= |uri| && r[..|uri|] == uri
    ensures |params| == 0 <==> r == uri
    ensures |params| > 0 ==> r[|uri|] == '?' && r[|uri| + 1..] == urlEncoding(params)
  {
    if |params| == 0 then uri else uri + "?" + urlEncoding(params)
  }

  // ---------------------------------------------------------------------
  // Retry loop

  /** What the network gives one attempt: a response, or a failure of some
      exception class with its message (`getMessage()`, which may be null). */
  datatype SendOutcome =
    | Received(statusCode: int, headers: seq<HeaderEntry>, body: seq<byte>)
    | Failed(exception: ExceptionClass, message: Option<string>)

  /** What the loop does after one attempt: try again, or finish with a
      returned response or a thrown exception. */
  datatype Step = Retry | Done(result: Result<HTTPResponse>)

  /** The body of `executeWithRetry`'s loop for attempt number `attempts`
      (counted from 1). */
  function Decide(maxRetries: int, verb: HTTPMethod, attempts: int, outcome: SendOutcome): Step
  {
    match outcome
    case Received(code, headers, body) =>
      var response := ResponseOf(code, headers, body);
      if response.Ok? && response.value.status == SERVICE_UNAVAILABLE
         && ShouldRetry(maxRetries, attempts, None, verb)
      then Retry
      else Done(response)
    case Failed(e, message) =>
      if ShouldRetry(maxRetries, attempts, Some(e), verb) then Retry
      else Done(Err(HTTPClientException(message, "HTTP_COMMUNICATION_FAILED")))
  }

  /** The loop body for the send with index k (attempt number k + 1). */
  function AttemptStep(maxRetries: int, verb: HTTPMethod, send: nat -> SendOutcome, k: nat): Step
  {
    Decide(maxRetries, verb, k + 1, send(k))
  }

  /** The most sends one call makes. */
  function MaxAttempts(maxRetries: int): (n: int)
    ensures n >= 1 && n >= maxRetries
  {
    if maxRetries < 1 then 1 else maxRetries
  }

  /** A retry only happens below the cap. */
  lemma RetryBelowCap(maxRetries: int, verb: HTTPMethod, attempts: int, outcome: SendOutcome)
    requires Decide(maxRetries, verb, attempts, outcome) == Retry
    ensures attempts < maxRetries
  {
  }

  /** A response other than 503 is returned by the attempt that got it. */
  lemma OtherStatusReturned(maxRetries: int, verb: HTTPMethod, attempts: int, code: int,
                            headers: seq<HeaderEntry>, body: seq<byte>)
    requires ParseHTTPStatus(code).Ok? && ParseHTTPStatus(code).value != SERVICE_UNAVAILABLE
    ensures Decide(maxRetries, verb, attempts, Received(code, headers, body))
         == Done(Ok(HTTPResponse(ParseHTTPStatus(code).value, CopyHeaders(headers), body)))
  {
  }

  /** A 503 is retried exactly while `shouldRetry` allows it, and afterwards
      returned as a response rather than thrown. */
  lemma UnavailableRetriedThenReturned(maxRetries: int, verb: HTTPMethod, attempts: int,
                                       headers: seq<HeaderEntry>, body: seq<byte>)
    ensures Decide(maxRetries, verb, attempts, Received(503, headers, body)) == Retry
        <==> attempts < maxRetries
    ensures attempts >= maxRetries ==>
      Decide(maxRetries, verb, attempts, Received(503, headers, body))
        == Done(Ok(HTTPResponse(SERVICE_UNAVAILABLE, CopyHeaders(headers), body)))
  {
    ParseOwnCode(SERVICE_UNAVAILABLE);
  }

  /** An unknown status code is not caught by the loop: the call ends with
      UNKNOWN_HTTP_STATUS_CODE. */
  lemma UnknownStatusThrown(maxRetries: int, verb: HTTPMethod, attempts: int, code: int,
                            headers: seq<HeaderEntry>, body: seq<byte>)
    requires forall s: HTTPStatus :: s.Code() != code
    ensures Decide(maxRetries, verb, attempts, Received(code, headers, body)).Done?
    ensures Decide(maxRetries, verb, attempts, Received(code, headers, body)).result.Err?
    ensures Decide(maxRetries, verb, attempts, Received(code, headers, body)).result.error.errorCode
         == "UNKNOWN_HTTP_STATUS_CODE"
  {
  }

  /** A failure that may not be retried ends the call with
      HTTP_COMMUNICATION_FAILED; a read time-out of a POST is such a failure
      on every attempt. */
  lemma FailureThrown(maxRetries: int, verb: HTTPMethod, attempts: int, e: ExceptionClass, message: Option<string>)
    ensures Decide(maxRetries, verb, attempts, Failed(e, message)) != Retry
        <==> !ShouldRetry(maxRetries, attempts, Some(e), verb)
    ensures !ShouldRetry(maxRetries, attempts, Some(e), verb) ==>
      Decide(maxRetries, verb, attempts, Failed(e, message))
        == Done(Err(HTTPClientException(message, "HTTP_COMMUNICATION_FAILED")))
    ensures verb == POST && e == HttpTimeoutException ==>
      Decide(maxRetries, verb, attempts, Failed(e, message))
        == Done(Err(HTTPClientException(message, "HTTP_COMMUNICATION_FAILED")))
  {
  }

  /** `executeWithRetry`. `send(k)` is what the network gives the send of
      attempt k + 1; `sleeps` lists the waits requested between attempts. */
  method ExecuteWithRetry(maxRetries: int, verb: HTTPMethod, send: nat -> SendOutcome)
    returns (r: Result<HTTPResponse>, attempts: nat, sleeps: seq<int>)
    ensures 1 <= attempts <= MaxAttempts(maxRetries)
    ensures |sleeps| == attempts - 1
    ensures forall k :: 0 <= k < |sleeps| ==> sleeps[k] == WaitTime(k + 1)
    ensures forall k: nat :: k < attempts - 1 ==> AttemptStep(maxRetries, verb, send, k) == Retry
    ensures AttemptStep(maxRetries, verb, send, attempts - 1) == Done(r)
  {
    attempts := 0;
    sleeps := [];
    while true
      invariant 0 <= attempts < MaxAttempts(maxRetries)
      invariant |sleeps| == attempts
      invariant forall k :: 0 <= k < |sleeps| ==> sleeps[k] == WaitTime(k + 1)
      invariant forall k: nat :: k < attempts ==> AttemptStep(maxRetries, verb, send, k) == Retry
      decreases MaxAttempts(maxRetries) - attempts
    {
      attempts := attempts + 1;
      var step := Attempt(maxRetries, verb, attempts, send(attempts - 1));
      if step.Retry? {
        RetryBelowCap(maxRetries, verb, attempts, send(attempts - 1));
        sleeps := sleeps + [WaitTime(attempts)];
        continue;
      }
      return step.result, attempts, sleeps;
    }
  }

  /** One pass of `executeWithRetry`'s loop body: the response or the
      failure of attempt number `attempts`, and whether to try again. */
  method Attempt(maxRetries: int, verb: HTTPMethod, attempts: int, outcome: SendOutcome) returns (step: Step)
    ensures step == Decide(maxRetries, verb, attempts, outcome)
  {
    if outcome.Received? {
      var response := Response(outcome.statusCode, outcome.headers, outcome.body);
      if response.Ok? && response.value.status == SERVICE_UNAVAILABLE
         && ShouldRetry(maxRetries, attempts, None, verb) {
        return Retry;
      }
      return Done(response);
    }
    if ShouldRetry(maxRetries, attempts, Some(outcome.exception), verb) {
      return Retry;
    }
    return Done(Err(HTTPClientException(outcome.message, "HTTP_COMMUNICATION_FAILED")));
  }
}
