# core-ng transport, codec, monitor, stub and logger cores in Dafny

A model of five small pieces of the core-ng framework and its Kubernetes
monitor, with their behaviour stated as contracts and proved.

- **HTTP client** (`http_client.dfy`, module `HttpClient`): the status table
  built once from `HTTPStatus.values()` and `parseHTTPStatus`; `shouldRetry`;
  the backoff `waitTime`, including Java's 32-bit `<<`; the retry loop of
  `executeWithRetry`, run against a function `send` that gives the outcome of
  each attempt (a response or an exception class with its message); the copy
  of response headers into a case-insensitive map that drops HTTP/2
  pseudo-headers (section 8.1.2.1 of RFC 7540); and `requestURI`.
- **Redis argument encoding** (`redis_encodings.dfy`, module `RedisEncodings`,
  with `java_lang.dfy` and `utf8.dfy`): `encode` of a string (UTF-8), of an
  `int` or `long` (decimal text, with the cache of 0..255 built by the static
  initialiser), the argument arrays `key, v1 .. vn`, `k1, v1, ...` and
  `key, k1, v1, ...`, `decode`, and the private `bytes`. The UTF-8 codec the
  JDK applies to a `String` is modelled in `utf8.dfy`, with the round trip
  proved for every string without unpaired surrogates.
- **Pod health check** (`kube_monitor_job.dfy`, module `KubeMonitorJob`):
  `check(pod, now)` as a function and as the loop method the job runs, and
  `execute`, which publishes one failure message per failing pod, namespace
  by namespace, or a single error message when listing the pods fails.
  Times are whole seconds.
- **Web-service client generation** (`web_service_client_builder.dfy`,
  module `WebServiceClientBuilder`): the in-place sort of the interface
  methods by name, and `buildMethod`'s split of parameters into path
  parameters and the request bean, its parameter list and its `return`. The
  generated text is abstracted to a sequence of fragments.
- **Logger factory** (`default_logger_factory.dfy`, module
  `DefaultLoggerFactory`): `getLogger` memoising one logger per name, and the
  two level choices `infoLevel` and `traceLevel`.

Where the monitor's test and its code disagree, the model follows the code:
`KubeMonitorJobTest.java` lines 69 and 76 expect the text "pod is not in
ready state, uptime=…" where `KubeMonitorJob.java` line 92 returns "pod is
still not ready, elapsed=…", and lines 88-89 expect no report for a ready
container with five restarts, which line 80 reports
(`KubeMonitorJob.ReadyButRestartedReported`).

## Model

| member | source | states |
|---|---|---|
| JavaLang.LowByte | core-ng/src/main/java/core/framework/impl/redis/RedisEncodings.java:85 | `(byte) c` keeps the low 8 bits of the char; a char below 128 keeps its value |
| JavaLang.DecimalTextRoundTrip | core-ng/src/main/java/core/framework/impl/redis/RedisEncodings.java:30-31 | the decimal text of any integer is non-empty, digits after an optional leading '-', and reads back as that integer |
| JavaLang.DecimalTextInjective | core-ng/src/main/java/core/framework/impl/redis/RedisEncodings.java:38-39 | two different integers never have the same decimal text |
| JavaLang.DecimalTextAscii | core-ng/src/main/java/core/framework/impl/redis/RedisEncodings.java:16-17 | every character of a decimal text is ASCII |
| Utf8.DecodeEncode | core-ng/src/main/java/core/framework/impl/redis/RedisEncodings.java:76-79 | decoding the UTF-8 bytes of a string without unpaired surrogates gives the string back |
| Utf8.UnpairedSurrogate | core-ng/src/main/java/core/framework/impl/redis/RedisEncodings.java:23 | the string made of one lone surrogate is written as '?' and comes back as "?" |
| Utf8.NotWellFormedLost | core-ng/src/main/java/core/framework/impl/redis/RedisEncodings.java:23 | a string with an unpaired surrogate anywhere does not come back from its UTF-8 bytes unchanged |
| Utf8.RoundTripExactlyWellFormed | core-ng/src/main/java/core/framework/impl/redis/RedisEncodings.java:76-79 | a string comes back from its UTF-8 bytes exactly when it has no unpaired surrogate |
| Utf8.EncodeAscii | core-ng/src/main/java/core/framework/impl/redis/RedisEncodings.java:23 | ASCII text is written one byte per char, each byte equal to the char |
| Utf8.DecodeAscii | core-ng/src/main/java/core/framework/impl/redis/RedisEncodings.java:78 | bytes 0..127 are read back one char each, unchanged |
| RedisEncodings.AsciiLowBytes | core-ng/src/main/java/core/framework/impl/redis/RedisEncodings.java:81-88 | for ASCII text the low bytes `bytes` writes are exactly its UTF-8 encoding |
| RedisEncodings.Bytes | core-ng/src/main/java/core/framework/impl/redis/RedisEncodings.java:81-88 | the result has the text's length and byte i is the low 8 bits of char i |
| RedisEncodings.EncodeString | core-ng/src/main/java/core/framework/impl/redis/RedisEncodings.java:21-24 | fails with "value must not be null" exactly for null, otherwise gives the UTF-8 bytes |
| RedisEncodings.Decode | core-ng/src/main/java/core/framework/impl/redis/RedisEncodings.java:76-79 | null exactly for null input, otherwise the UTF-8 decoding |
| RedisEncodings.DecodeEncodeString | core-ng/src/main/java/core/framework/impl/redis/RedisEncodings.java:21-24 | a stored string without unpaired surrogates decodes back to itself |
| RedisEncodings.RedisEncodings.constructor | core-ng/src/main/java/core/framework/impl/redis/RedisEncodings.java:12-19 | the cache has 256 entries, entry i holding the bytes of i's decimal text |
| RedisEncodings.RedisEncodings.EncodeInteger | core-ng/src/main/java/core/framework/impl/redis/RedisEncodings.java:26-40 | cached and computed branches both give the UTF-8 bytes of the decimal text, '-' included |
| RedisEncodings.RedisEncodings.EncodeInt | core-ng/src/main/java/core/framework/impl/redis/RedisEncodings.java:34-40 | every 32-bit value encodes as the bytes of its decimal text |
| RedisEncodings.RedisEncodings.EncodeLong | core-ng/src/main/java/core/framework/impl/redis/RedisEncodings.java:26-32 | every 64-bit value encodes as the bytes of its decimal text |
| RedisEncodings.DecodeEncodeInteger | core-ng/src/main/java/core/framework/impl/redis/RedisEncodings.java:26-40 | the bytes of an integer decode to its decimal text, which parses back to the integer |
| RedisEncodings.EncodeKeyValues | core-ng/src/main/java/core/framework/impl/redis/RedisEncodings.java:42-51 | fails for no values ("values must not be empty") or a null key or value; otherwise a new array of n+1 slots, key first, value i at i+1 |
| RedisEncodings.EncodeMap | core-ng/src/main/java/core/framework/impl/redis/RedisEncodings.java:53-62 | fails for an empty map or a null; otherwise a new array of 2n slots, key j at 2j and its value at 2j+1, in iteration order |
| RedisEncodings.EncodeKeyMap | core-ng/src/main/java/core/framework/impl/redis/RedisEncodings.java:64-74 | fails for an empty map or a null; otherwise a new array of 2n+1 slots, the key first, then the pairs shifted by one |
| HttpClient.BuildStatusTable | core-ng/src/main/java/core/framework/impl/http/HTTPClientImpl.java:53-57 | the static loop fills the table `put(code, status)` for each value in order |
| HttpClient.TableOfSpec | core-ng/src/main/java/core/framework/impl/http/HTTPClientImpl.java:53-57 | the table holds exactly the codes of the values, each mapped to a status with that code |
| HttpClient.ParseHTTPStatus | core-ng/src/main/java/core/framework/impl/http/HTTPClientImpl.java:60-64 | returns a status with the given code; fails with UNKNOWN_HTTP_STATUS_CODE and its message exactly when no status has it |
| HttpClient.ParseOwnCode | core-ng/src/main/java/core/framework/impl/http/HTTPClientImpl.java:60-64 | every status is found from its own code |
| HttpClient.ShouldRetry | core-ng/src/main/java/core/framework/impl/http/HTTPClientImpl.java:188-193 | false from `maxRetries` attempts on; below it false only for a POST whose exception class is exactly HttpTimeoutException |
| HttpClient.WaitTimeExponential | core-ng/src/main/java/core/framework/impl/http/HTTPClientImpl.java:195-197 | the wait is 500 ms times 2^(attempts-1) for attempts 1 to 23 |
| HttpClient.WaitTimeDoubles | core-ng/src/main/java/core/framework/impl/http/HTTPClientImpl.java:195-197 | 500, 1000, 2000 ms, each wait twice the previous up to attempt 23 |
| HttpClient.WaitTimeWraps | core-ng/src/main/java/core/framework/impl/http/HTTPClientImpl.java:196 | at attempt 24 the 32-bit shift overflows to a negative wait |
| HttpClient.CopyHeadersSpec | core-ng/src/main/java/core/framework/impl/http/HTTPClientImpl.java:124-130 | the map holds exactly the non-pseudo names, ignoring case; each holds the first value of its last entry under the first spelling |
| HttpClient.PseudoHeadersDropped | core-ng/src/main/java/core/framework/impl/http/HTTPClientImpl.java:127-129 | a name starting with ':' is never found in the copied headers |
| HttpClient.Response | core-ng/src/main/java/core/framework/impl/http/HTTPClientImpl.java:121-138 | the header loop and status parse give the copied headers, the parsed status and the body, or the parse error |
| HttpClient.RequestURI | core-ng/src/main/java/core/framework/impl/http/HTTPClientImpl.java:180-186 | the URI unchanged exactly when there are no parameters, else the URI, '?' and the encoded parameters |
| HttpClient.RetryBelowCap | core-ng/src/main/java/core/framework/impl/http/HTTPClientImpl.java:104-114 | an attempt is only ever followed by another below the retry cap |
| HttpClient.OtherStatusReturned | core-ng/src/main/java/core/framework/impl/http/HTTPClientImpl.java:103-109 | a known status other than 503 is returned by the attempt that got it |
| HttpClient.UnavailableRetriedThenReturned | core-ng/src/main/java/core/framework/impl/http/HTTPClientImpl.java:104-109 | a 503 is retried exactly below the cap, and then returned rather than thrown |
| HttpClient.UnknownStatusThrown | core-ng/src/main/java/core/framework/impl/http/HTTPClientImpl.java:134 | an unknown status code ends the call with UNKNOWN_HTTP_STATUS_CODE, not retried |
| HttpClient.FailureThrown | core-ng/src/main/java/core/framework/impl/http/HTTPClientImpl.java:110-116 | a failure that may not be retried ends the call with HTTP_COMMUNICATION_FAILED and the exception's message, null included; a POST read time-out always does |
| HttpClient.Attempt | core-ng/src/main/java/core/framework/impl/http/HTTPClientImpl.java:102-117 | one pass of the loop body decides exactly as `Decide`: retry, return the response, or throw |
| HttpClient.ExecuteWithRetry | core-ng/src/main/java/core/framework/impl/http/HTTPClientImpl.java:96-119 | at most max(1, maxRetries) sends, each before the last a retry, the last deciding the result; the sleep after attempt k is waitTime(k) |
| KubeMonitorJob.ThresholdText | ext/monitor/src/main/java/app/monitor/job/KubeMonitorJob.java:57-58 | five minutes reads PT5M in the message, five minutes and a second PT5M1S |
| KubeMonitorJob.FirstImagePullBackOffAt | ext/monitor/src/main/java/app/monitor/job/KubeMonitorJob.java:68-72 | the pending scan reports the first container waiting on ImagePullBackOff |
| KubeMonitorJob.NoImagePullBackOff | ext/monitor/src/main/java/app/monitor/job/KubeMonitorJob.java:68-72 | without such a container the pending scan reports nothing |
| KubeMonitorJob.ScanRunningAt | ext/monitor/src/main/java/app/monitor/job/KubeMonitorJob.java:76-82 | the running scan reports the first container in CrashLoopBackOff or restarted five times |
| KubeMonitorJob.ScanRunningQuiet | ext/monitor/src/main/java/app/monitor/job/KubeMonitorJob.java:75-87 | without such a container the scan says whether every container is ready |
| KubeMonitorJob.DeletionOnlyElapsed | ext/monitor/src/main/java/app/monitor/job/KubeMonitorJob.java:55-61 | a pod in deletion is judged by the seconds since deletion alone, reported from 300 on |
| KubeMonitorJob.TerminalPhases | ext/monitor/src/main/java/app/monitor/job/KubeMonitorJob.java:63-65 | Succeeded is healthy; Failed and Unknown are reported with the phase |
| KubeMonitorJob.PendingImagePullBackOff | ext/monitor/src/main/java/app/monitor/job/KubeMonitorJob.java:66-73 | a pending pod is reported for its first container waiting on ImagePullBackOff, with that message |
| KubeMonitorJob.RunningFirstAlarm | ext/monitor/src/main/java/app/monitor/job/KubeMonitorJob.java:74-82 | a running pod is reported for its first alarming container, CrashLoopBackOff before the restart count |
| KubeMonitorJob.RunningAllReady | ext/monitor/src/main/java/app/monitor/job/KubeMonitorJob.java:83-87 | a running pod with every container ready and none alarming is healthy, also without containers |
| KubeMonitorJob.FallsThroughToStartTime | ext/monitor/src/main/java/app/monitor/job/KubeMonitorJob.java:89-94 | every other pod is reported exactly when 300 s have passed since its start time, or its creation without one |
| KubeMonitorJob.ReadyButRestartedReported | ext/monitor/src/main/java/app/monitor/job/KubeMonitorJob.java:80-82 | a ready running container with five restarts is reported |
| KubeMonitorJob.CheckPod | ext/monitor/src/main/java/app/monitor/job/KubeMonitorJob.java:54-95 | the loops with early returns and the `ready` flag compute exactly `Check` |
| KubeMonitorJob.PodMessagesSpec | ext/monitor/src/main/java/app/monitor/job/KubeMonitorJob.java:41-45 | a pod yields one message exactly when its check fails: ERROR, POD_FAILURE, the `app` label or pod name, the pod as host and the check's text |
| KubeMonitorJob.FailuresComplete | ext/monitor/src/main/java/app/monitor/job/KubeMonitorJob.java:40-46 | every pod's messages are among those published for its namespace |
| KubeMonitorJob.FailuresSound | ext/monitor/src/main/java/app/monitor/job/KubeMonitorJob.java:40-46 | every message published for a namespace comes from one of its pods, and with at most one per pod there are at most as many as pods |
| KubeMonitorJob.FailuresNone | ext/monitor/src/main/java/app/monitor/job/KubeMonitorJob.java:40-46 | nothing is published for a namespace exactly when no pod yields a message |
| KubeMonitorJob.FailuresMessages | ext/monitor/src/main/java/app/monitor/job/KubeMonitorJob.java:40-46 | one namespace yields at most one message per pod, each a POD_FAILURE ERROR with a host, and none exactly when every pod passes the check |
| KubeMonitorJob.FailedListingEndsRun | ext/monitor/src/main/java/app/monitor/job/KubeMonitorJob.java:48-51 | a failed listing ends the run with one FAILED_TO_COLLECT message after the earlier namespaces' failures |
| KubeMonitorJob.KubeMonitorJob.Execute | ext/monitor/src/main/java/app/monitor/job/KubeMonitorJob.java:35-52 | publishes exactly the messages of `Messages`, namespace by namespace, after those published before |
| KubeMonitorJob.KubeMonitorJob.PublishListing | ext/monitor/src/main/java/app/monitor/job/KubeMonitorJob.java:39-51 | one namespace publishes the error message when its listing fails, and reports the failure so the run stops; otherwise its pods' messages |
| KubeMonitorJob.KubeMonitorJob.PublishPod | ext/monitor/src/main/java/app/monitor/job/KubeMonitorJob.java:41-45 | checks one pod and publishes exactly its messages: its failure message, or nothing |
| KubeMonitorJob.KubeMonitorJob.PublishFailures | ext/monitor/src/main/java/app/monitor/job/KubeMonitorJob.java:40-46 | publishes exactly the failure messages of one namespace's pods, in list order |
| WebServiceClientBuilder.CompareToAntisymmetric | core-ng/src/main/java/core/framework/impl/web/service/WebServiceClientBuilder.java:43 | comparing names the other way round negates the result |
| WebServiceClientBuilder.CompareToZero | core-ng/src/main/java/core/framework/impl/web/service/WebServiceClientBuilder.java:43 | names compare equal exactly when they are equal |
| WebServiceClientBuilder.CompareToTransitive | core-ng/src/main/java/core/framework/impl/web/service/WebServiceClientBuilder.java:43 | the name order is transitive |
| WebServiceClientBuilder.SortByName | core-ng/src/main/java/core/framework/impl/web/service/WebServiceClientBuilder.java:42-43 | the array ends sorted by name and is a permutation of what it held |
| WebServiceClientBuilder.Insert | core-ng/src/main/java/core/framework/impl/web/service/WebServiceClientBuilder.java:43 | one insertion extends the sorted prefix by one and keeps the array a permutation |
| WebServiceClientBuilder.SortedIsUnique | core-ng/src/main/java/core/framework/impl/web/service/WebServiceClientBuilder.java:43 | with distinct names, any two sorted orders of the same methods are equal, so the generated code does not depend on reflection's order |
| WebServiceClientBuilder.ParamListShape | core-ng/src/main/java/core/framework/impl/web/service/WebServiceClientBuilder.java:63-67 | the signature lists param0 .. param(n-1) in order, with one ", " between neighbours |
| WebServiceClientBuilder.PathParamsDomain | core-ng/src/main/java/core/framework/impl/web/service/WebServiceClientBuilder.java:68-70 | a name is in the path-parameter map exactly when some parameter carries it |
| WebServiceClientBuilder.PathParamsLastWins | core-ng/src/main/java/core/framework/impl/web/service/WebServiceClientBuilder.java:68-70 | each name in the map is mapped to the last parameter that carries it |
| WebServiceClientBuilder.RequestBeanIndex | core-ng/src/main/java/core/framework/impl/web/service/WebServiceClientBuilder.java:71-74 | the bean index, when set, is a parameter without `@PathParam` |
| WebServiceClientBuilder.RequestBeanIsLast | core-ng/src/main/java/core/framework/impl/web/service/WebServiceClientBuilder.java:71-74 | the bean is the last non-path parameter, and there is none exactly when all are path parameters |
| WebServiceClientBuilder.ParamsPartitioned | core-ng/src/main/java/core/framework/impl/web/service/WebServiceClientBuilder.java:63-75 | every parameter is in exactly one group: a path parameter in the map, or a bean candidate at or before the bean |
| WebServiceClientBuilder.ReturnAndExecute | core-ng/src/main/java/core/framework/impl/web/service/WebServiceClientBuilder.java:90-94 | `return (T)` is emitted exactly for non-void methods, right before the single `client.execute` |
| WebServiceClientBuilder.BuildMethod | core-ng/src/main/java/core/framework/impl/web/service/WebServiceClientBuilder.java:51-96 | the parameter loop and body produce exactly `MethodCode` |
| WebServiceClientBuilder.WebServiceClientBuilder.Build | core-ng/src/main/java/core/framework/impl/web/service/WebServiceClientBuilder.java:37-49 | adds the two fields, the constructor, then one method per interface method in ascending name order |
| DefaultLoggerFactory.InfoLevel | core-ng/src/main/java/core/framework/impl/log/DefaultLoggerFactory.java:25-31 | WARN exactly for the Kafka ConsumerConfig and ProducerConfig loggers, INFO otherwise |
| DefaultLoggerFactory.TraceLevel | core-ng/src/main/java/core/framework/impl/log/DefaultLoggerFactory.java:33-41 | INFO exactly when the name starts with one of the four quiet packages, DEBUG otherwise |
| DefaultLoggerFactory.TraceLevelInherited | core-ng/src/main/java/core/framework/impl/log/DefaultLoggerFactory.java:33-41 | a name extending a name with trace level INFO also has trace level INFO |
| DefaultLoggerFactory.KafkaConfigLevels | core-ng/src/main/java/core/framework/impl/log/DefaultLoggerFactory.java:25-41 | both Kafka configuration loggers get WARN and INFO; every WARN logger has trace level INFO |
| DefaultLoggerFactory.DefaultLoggerFactory.CreateLogger | core-ng/src/main/java/core/framework/impl/log/DefaultLoggerFactory.java:21-23 | a new logger with the name and the levels its name selects |
| DefaultLoggerFactory.DefaultLoggerFactory.GetLogger | core-ng/src/main/java/core/framework/impl/log/DefaultLoggerFactory.java:17-19 | a known name gets the same logger and nothing changes; a new name gets a fresh logger, the only entry added, created once |

## Left out

- The JDK `HttpClient.send`, the `java.net.URI` parse, TLS and keep-alive system properties and the `HttpRequest.Builder` calls: the network is the `send` parameter of `HttpClient.ExecuteWithRetry`, one outcome per attempt.
- `HTTPRequestHelper.urlEncoding` is not part of this model: it is the `urlEncoding` parameter of `HttpClient.RequestURI`.
- The `HTTPStatus` and `HTTPMethod` enums are not part of this model; their constants and codes are the framework's (24 statuses from 200 to 504, and GET, POST, PUT, DELETE, PATCH).
- Clocks, `StopWatch`, `ActionLogContext.track`, the slow-operation warning and all logging; `Threads.sleepRoughly` is reduced to the list of requested waits.
- The exception classes a send can raise are reduced to `HttpTimeoutException`, its subclass `HttpConnectTimeoutException`, other `IOException`s and `InterruptedException`.
- HttpClient.CopyHeaders: `CASE_INSENSITIVE_ORDER` is modelled by folding ASCII letters only, and the `TreeMap`'s ordering of keys is not modelled (only its contents).
- `Strings.bytes` is not part of this model; it is taken to be `getBytes(UTF_8)`.
- Utf8.Decode: a malformed byte sequence is replaced one byte at a time, where the JDK replaces a maximal malformed subpart; only well-formed input is related to the JDK.
- RedisEncodings.RedisEncodings.EncodeInteger: the cached byte arrays are modelled as values, so returning the shared cache entry (aliasing) is not modelled; a null `values` array is not modelled.
- Method names compare by Unicode scalar value rather than UTF-16 unit; the two orders differ only between supplementary characters and U+E000..U+FFFF.
- WebServiceClientBuilder.SortByName: the stability of `Arrays.sort` is not stated.
- WebServiceClientBuilder.MethodCode: the `pathParams.put` lines are one fragment holding the map, because `HashMap.forEach` order is unspecified; the generated text, `Literal.type`/`variable`, `Methods.path` (the debug line carries the method name), `DynamicInstanceBuilder` compilation and `WebServiceClient` are not part of this model.
- KubeMonitorJob: `KubeClient` is reduced to one listing outcome per namespace; a throwable from elsewhere (publishing, JSON) is not modelled; the message id and date, `LogManager.ID_GENERATOR` and the warning log are left out; timestamps are whole seconds and labels, creation time and container list are taken as non-null.
- KubeMonitorJob.KubeMonitorJob.Execute: the `MessagePublisher` is a list of published messages that never fails.
- DefaultLoggerFactory: `ConcurrentHashMap` concurrency, `LogManager` and `LoggerImpl`'s behaviour; `LogLevel` is not part of this model beyond its constants DEBUG, INFO, WARN and ERROR.
