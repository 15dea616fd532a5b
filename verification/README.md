# zues core, modelled in Dafny

zues is a Kubernetes-side control server written in Go. This project models the
parts of it that make decisions sequentially, as pure functions over immutable
data:

- **Stress tests** (`stest`):
  - constructing a plan, which assigns a random id and decodes the base64 authorization values;
  - looking tests up by id and preloading the round-robin scheduler in `ExecutionOrder`;
  - counting 25-request chunks and the rotation that each `startRoutines` applies to the scheduler queue;
  - building each probe's HTTP request.
- **Helpers** (`util`):
  - base64 in the standard alphabet of section 4 of RFC 4648, with Go's `StdEncoding` decoding rules;
  - random identifiers;
  - `CreateHTTPRequest`'s choice of body by method;
  - `GetHTTPBody`'s status check;
  - `SetResponseHeaders`' merge with the default headers.
- **Three in-memory registries**:
  - the pub/sub channel registry (`dispatch`);
  - the job tables that the `DeployJob`, `JobDetails` and `DeleteJob` RPCs change (`rpc`, over `config.CurrentJobs` and `config.JobPodsMap`);
  - the pod-to-job reverse lookup (`config`).
- **The TCP probe constructor** (`probe/tcp`).

Modules follow the Go packages:

- `Stest`, `Util`, `Dispatch`, `Rpc`, `Config` and `Tcp` model those packages.
- `Base64` holds the codec.
- `Fmt` renders integers as `%d` does.
- `Rotation` holds queue rotation.
- `GoInts` holds Go's fixed-width integer types and their wrap-around.
- `Arith` holds division lemmas.
- `Wrappers` holds `Option`, `Result` and `Outcome`. `Outcome` is a returned value or a Go panic.

Anything the code obtains from outside becomes a parameter:

- the YAML parser, as a function `parse` or its `Result`;
- `seededRand.Intn`, as a sequence of draws, each below the charset length;
- `time.Now()`, as `now`;
- `kube.Session.CreatePod`, as its `Result<Pod>`;
- whether `DeletePod` succeeded;
- whether `http.NewRequest` accepts a URL;
- the order in which Go ranges over `JobPodsMap`.

Go errors are `Err` values, Go panics are `Panics`, and nil pointers are `None`.

Details of the code the model keeps:

- **Server port.** `buildRequest` applies no default to `ServerPort`. The port is formatted with `%d` from an `int16`, so a negative port gives a negative number in the URL (stest/interfaces.go:190).
- **Test headers.** `New` base64-decodes only the `Authorization` values; `Headers` are kept as given (stest/interfaces.go:26-34). A POST body is decoded later, in `buildRequest`.
- **Type definitions.** The test and plan types follow `stest/stest.go`, which `stest/interfaces.go` compiles against: `Body` is a string, a test has an `ID`, and `MaxRoutineChunk` is an `int`.
- **Strings.** A Dafny `string` stands for the bytes of a Go string, one character per byte. `string(b)` for a byte slice `b` is `Util.BytesToString`, which `New` uses for decoded authorization values.

## Model

| member | source | states |
|---|---|---|
| Base64.Encode | util/interfaces.go:140-142 | the encoding is padded to a whole number of 4-character groups, 4·⌈n/3⌉ characters, and contains no line breaks |
| Base64.RoundTrip | util/interfaces.go:140-152 | `DecodeString(EncodeToString(b))` succeeds and yields `b` for every byte string |
| Base64.DecodeRejectsPartialQuantum | util/interfaces.go:145-151 | text whose length, ignoring CR and LF, is not a multiple of 4 is rejected |
| Base64.DecodeStrippedShape | util/interfaces.go:145-151 | accepted text consists of alphabet and `=` characters in whole groups, and decodes to between 3·g−2 and 3·g bytes for g groups |
| Util.EncodeBase64 | util/interfaces.go:140-142 | what `EncodeBase64` produces is valid standard base64 that decodes back to the input bytes |
| Util.DecodeBase64 | util/interfaces.go:145-152 | valid base64 yields its decoding, and a decoding failure yields the empty byte slice instead of an error |
| Util.DecodeEncodeBase64 | util/interfaces.go:140-152 | `DecodeBase64(EncodeBase64(b)) == b`: the client-to-server round trip of job and test payloads |
| Util.DecodeBase64Malformed | util/interfaces.go:145-151 | malformed input (a partial 4-character group) never fails and decodes to no bytes |
| Util.CharsetIsAlphanumeric | util/interfaces.go:19-20 | the charset has 62 characters, all ASCII letters or digits |
| Util.StringWithCharset | util/interfaces.go:154-160 | the result has the requested length, and position i is the charset character chosen by the i-th random draw |
| Util.RandomString | util/interfaces.go:162-165 | the result has the requested length and every character comes from the 62-character alphanumeric charset |
| Util.RandomStringFollowsDraws | util/interfaces.go:154-165 | each character of a random string is the charset entry at its draw |
| Util.CreateHttpRequest | util/interfaces.go:44-63 | POST, GET and DELETE build a request with the given method, URL and headers; GET has no body, POST and DELETE carry the body; a `NewRequest` failure is returned as an error; any other method builds nothing, and it panics exactly when there are headers to copy |
| Util.UnsupportedVerbPanics | util/interfaces.go:44-63 | a PUT with one header dereferences the nil request |
| Util.CreateHttpRequestFixed | util/interfaces.go:44-63 | the evidently intended behaviour: an unsupported method yields no request and no error, whatever the headers; the supported methods behave as in the code |
| Util.CreateHttpRequestFixedAgrees | util/interfaces.go:44-63 | the code and the corrected version agree whenever the code does not panic, and the code panics exactly for an unsupported method with headers |
| Util.GetHttpBody | util/interfaces.go:32-40 | the body is returned exactly when the response arrived with a status in [200, 400); a transport error is passed through; any other status is an error |
| Util.SetResponseHeaders | util/interfaces.go:100-117 | a nil writer is an error; a nil map applies only the defaults; otherwise every default key overrides the caller's value while the caller's other keys are kept, the caller's map is updated in place, and the writer ends with its own headers overwritten by the applied ones |
| Fmt.FormatInt | stest/interfaces.go:190 | `%d` output is non-empty and starts with a minus sign exactly for negative values |
| Fmt.ParseFormatInt | stest/interfaces.go:190 | the decimal rendering of a port loses nothing: parsing it returns the number |
| Rotation.RotateLeftStep | stest/interfaces.go:152-165 | one `Get(1)`/`Put` step takes entry k mod n from a queue rotated by k and leaves the queue rotated by k+1 |
| Rotation.RotateLeftSplit | stest/interfaces.go:150-166 | the queue rotated by k is its suffix from k mod n followed by its prefix, so a chunk moves the first 25 mod n tests to the back |
| Rotation.RotateLeftCompose | stest/interfaces.go:94-102 | consecutive chunks compose: rotating by a then by b is rotating by a+b |
| Stest.StatusNamesDistinct | stest/stest.go:35-40 | `TestStatus` is a string type; modelling it as an enumeration loses nothing, because Created, Running and Completed are distinct strings. The model uses the type nowhere else, since status transitions are left out |
| Stest.DecodeAuthorization | stest/interfaces.go:32-34 | every authorization key is kept and its value replaced by the string of its base64 decoding; no other field of the test changes |
| Stest.New | stest/interfaces.go:19-37 | a parse error is returned unchanged; otherwise the plan gets a 16-character alphanumeric id, every test's authorization values are decoded, it has no scheduler (the unexported telemetry is never filled from YAML), and nothing else changes |
| Stest.NewDecodesEncodedAuthorization | stest/interfaces.go:26-35 | an authorization value the client base64-encoded is held as the original text after `New` |
| Stest.FirstIndexFrom | stest/interfaces.go:118-122 | the position found is the first at or after the start whose id matches, and none is found exactly when no later test matches |
| Stest.FindTest | stest/interfaces.go:112-125 | id 0 is always an error; otherwise a test is returned exactly when one has that id, and it is the first such test in `Tests` |
| Stest.PreloadFrom | stest/interfaces.go:63-70 | the queue is built exactly when every id is accepted, and it holds one lookup result per id, in order, duplicates kept |
| Stest.PreloadStopsAtFirstError | stest/interfaces.go:63-67 | a failed preload reports the error of the first rejected id, every id before it having been accepted |
| Stest.FindTestAccepts | stest/interfaces.go:112-125 | an execution order passes `findTest` exactly when every id in it is nonzero and names some test, negative ids included |
| Stest.InitStressTestEnvironment | stest/interfaces.go:61-75 | success exactly when every `ExecutionOrder` id is nonzero and present; then the scheduler holds the named tests in order and nothing else changes; on failure the first rejected id's error is returned and no scheduler is attached |
| Stest.ChunkCount | stest/interfaces.go:93 | the chunk count is ⌊NumRequests / 25⌋, at most 2621 for a `uint16`, and zero exactly when fewer than 25 requests are asked for |
| Stest.StartRoutines | stest/interfaces.go:149-166 | exactly 25 tests are handed out, the i-th being queue entry i mod n, and the queue keeps its length and ends rotated left by 25 |
| Stest.ExecuteEnvironment | stest/interfaces.go:80-107 | the run hands out 25 × chunk count tests, the k-th being entry k mod n of the attached scheduler, and leaves the scheduler rotated by the number handed out; with no scheduler and no chunk to run nothing happens (with no scheduler and a chunk to run, the code panics; see "Left out") |
| Stest.InitAcceptsEmptyOrder | stest/interfaces.go:61-75 | an empty `ExecutionOrder` is accepted and attaches an empty scheduler, on which a run of 25 or more requests would have to take a test |
| Stest.InitStressTestEnvironmentFixed | stest/interfaces.go:61-75 | the preload with an empty `ExecutionOrder` rejected; otherwise the code's preload; an attached scheduler is never empty |
| Stest.RunPlan | stest/interfaces.go:61-107 | the corrected chain: the preload with the empty-order fix (second "Findings" row) followed by the run. The stress-test handler (server/handler.go:54-60) chains the as-written preload, which also accepts an empty `ExecutionOrder`. `RunPlan` succeeds exactly when `ExecutionOrder` is non-empty and every id names a test; the k-th test handed out over the whole run is then the one `ExecutionOrder[k mod n]` names, 25 × chunk count in all |
| Rotation.CycleConcat | stest/interfaces.go:94-102 | the tests a chunk hands out from a queue already rotated by a continue the cyclic walk over the original queue where the earlier chunks stopped |
| Stest.RoundRobinCoverage | stest/interfaces.go:150-166 | any n consecutive dispatches cover every test in the scheduler, so no queued test is starved |
| Stest.RequestUrlParts | stest/interfaces.go:190 | the URL is "http://", the server, ":", the port in decimal (parsing back to the port) and the endpoint, in that order |
| Stest.LogError | stest/interfaces.go:202-205 | a request-construction error is only logged and yields a nil request |
| Stest.BuildRequest | stest/interfaces.go:189-206 | GET builds a body-less request to the formatted URL; POST panics exactly when the body is not valid base64 and otherwise carries the decoded bytes; every other type yields nil |
| Stest.BuildRequestUsesSupportedVerbs | stest/interfaces.go:193-201 | on the GET and POST calls `buildRequest` makes, the code's `CreateHTTPRequest` returns what the corrected one does and never panics |
| Stest.PostBodyRoundTrip | stest/interfaces.go:195-200 | a POST body the client base64-encoded reaches the request as the original bytes |
| Stest.SendTestRequest | stest/interfaces.go:179-182 | `runTest` sends whatever `buildRequest` returned: a nil request panics in `GetHTTPResponse` (util/interfaces.go:66-68), and a built one yields the transport's result |
| Stest.UnbuiltRequestPanics | stest/interfaces.go:179-206 | a DELETE or PUT test gets no request from `buildRequest`, and sending it panics |
| Stest.SendTestRequestFixed | stest/interfaces.go:179-182 | corrected: a test without a request is reported as an error and nothing is sent |
| Stest.SendTestRequestFixedAgrees | stest/interfaces.go:179-182 | the corrected step never panics, and it agrees with the code wherever the code does not panic |
| Dispatch.NewChannel | dispatch/dispatch.go:32-49 | an empty or taken name is an error and leaves the registry alone; otherwise a channel with that name, count 0 and no listeners is registered and no other entry changes; the registry invariant is kept |
| Dispatch.GetChannel | dispatch/dispatch.go:52-58 | a channel is returned exactly when the name is registered, and it is the registered one |
| Dispatch.GetListenerCount | dispatch/dispatch.go:61-67 | an unknown name counts 0; a known one reports its `lCount` |
| Dispatch.ListenerCountIsListeners | dispatch/dispatch.go:61-67 | in a valid registry the reported count is the number of listeners modulo 2^32 |
| Dispatch.AddListener | dispatch/dispatch.go:85-94 | a nil connection is refused; otherwise the listener is appended at the tail, the uint32 counter is incremented, and the counter keeps agreeing with the listeners |
| Dispatch.AddListenerKeepsRegistryValid | dispatch/dispatch.go:85-94 | adding a listener through the registry's pointer keeps every channel's counter in agreement with its listeners |
| Dispatch.CloseChannel | dispatch/dispatch.go:115-131 | an empty or unknown name is an error with no change; otherwise the number of listeners (as a uint32) is returned, which equals `lCount` in a valid registry, and only that channel is removed |
| Dispatch.ClosedCount | dispatch/dispatch.go:123-127 | the uint32 counter incremented once per listener ends at the listener count modulo 2^32 |
| Dispatch.ChannelLifecycle | dispatch/dispatch.go:32-131 | the create, look-up, count-0, refuse-nil and add sequence of the package's tests, carried on to a count of 1 and a close that reports 1 and restores the registry |
| Config.GetConfigFromYaml | config/interfaces.go:11-22 | a nil slice is an error; a parse failure is reported with the fixed message, discarding the parser's error; otherwise the parsed configuration is returned |
| Config.MatchJobIdWithPod | config/interfaces.go:25-32 | the key returned has a pod with the requested name, and the lookup fails exactly when no pod has that name |
| Config.FirstMatch | config/interfaces.go:26-30 | the scan returns a key whose pod matches, or reports that none of the remaining keys matches |
| Rpc.NewJobId | rpc/rpc.go:39 | the job id is "job-" followed by 16 alphanumeric characters |
| Rpc.DeployJob | rpc/rpc.go:30-61 | a parse or pod-creation error is returned and changes neither table; on success both tables gain the new id, holding the parsed configuration and the created pod, with other entries untouched, and the reply has status "Created" and the current time |
| Rpc.DeployJobParsesClientBytes | rpc/rpc.go:33-34 | a job description the client base64-encoded reaches the YAML parser as the original bytes |
| Rpc.RestartTotal | rpc/rpc.go:75-78 | the per-container int32 accumulation equals the mathematical sum of restart counts wrapped to int32 |
| Rpc.JobDetails | rpc/rpc.go:64-89 | an unknown job or a job without a pod is an error; otherwise the pod's phase, the job's limits and the wrapped restart total are reported |
| Rpc.DeleteJob | rpc/rpc.go:92-112 | an empty id, unknown job or missing pod is an error with no change; otherwise the id leaves both tables and nothing else changes |
| Rpc.DeleteJobIgnoresPodDeletion | rpc/rpc.go:106-111 | `DeleteJob` never reads the error `DeletePod` returns: the result, tables included, is the same whether or not the pod was deleted |
| Rpc.DeployThenDetails | rpc/rpc.go:30-89 | a freshly deployed job's details are the created pod's phase, the parsed limits and its restart total |
| Rpc.DeployThenDelete | rpc/rpc.go:30-112 | deleting a job just deployed under a fresh id restores both tables |
| Tcp.New | probe/tcp/tcp.go:16-26 | an empty server or port is an error; otherwise both are stored unchanged and the address is the server followed directly by the port |
| Tcp.NoSeparatorInserted | probe/tcp/tcp.go:23 | an example: `New("localhost", "8080")` dials "localhost8080", while `New("localhost", ":8080")` dials "localhost:8080" |
| Tcp.AddressIsHostPort | probe/tcp/tcp.go:16-26 | for every non-empty server and port, the address is "server:x" exactly when the port is ":x": the colon has to come with the port |

## Left out

- **Concurrency** is not modelled. This covers goroutines, `WaitGroup`s, mutexes and the chunk channel, and with them `runTest` and `computeTelemetryData`. The one exception is `runTest`'s request step, `SendTestRequest`. Dispatch is modelled as the sequential queue rotation the dispatcher thread performs.
- **`time.Sleep`** between chunks and the start/end timing prints have no effect on the queue, so they are not modelled.
- Stest.ExecuteEnvironment: requires a non-empty scheduler when at least one chunk runs. This excludes two cases. With no scheduler attached, `startRoutines` calls `Get(1)` on a nil `*queue.Queue` (stest/interfaces.go:152), which panics. With an empty scheduler, Workiva's `Get` blocks forever, and blocking is not modelled; the empty-order case that leads there is recorded under "Findings". With no chunk to run, neither case arises, and the model does state that nothing happens.
- Stest.StartRoutines: requires a non-empty scheduler for the same reason.
- **The `err != nil` branches after `Get(1)` and the type assertion in `startRoutines`** cannot happen with a queue of tests, so they are not modelled.
- **Network I/O** is not modelled:
  - `GetHTTPResponse` beyond its nil-request panic, `ExtractHTTPBody` and `BuildResponse` (iris context);
  - the TCP dial in `Probe`;
  - the websocket writes and closes in `Broadcast` and `CloseChannel`;
  - the gRPC and iris servers.
- **`Broadcast`** removes listeners from the slice it is ranging over, which depends on Go slice aliasing, so it is not modelled.
- **The accessors** `Name`, `LCount` and `Listeners` only return a field. `GetListenerCount` covers `LCount`.
- Util.GetHttpBody: takes the outcome of the request as its input. The request-construction step that ignores `CreateHTTPRequest`'s error is not modelled.
- **YAML and JSON decoding** (`yaml.Unmarshal`) is a library call. The model takes its result as a parameter.
- **The Kubernetes client** is reduced to `CreatePod` and `DeletePod`, which become a `Result<Pod>` and a boolean. This covers `kube.CreateContainer`, the pod labels, and the container port 8001 that `DeployJob` passes to `kube.CreateContainer` (rpc/rpc.go:40); that port plays no part in the model.
- **`Spec.Image`**, which `DeployJob` reads but `config/config.go` does not declare, plays no part in the model.
- Rpc.DeployJob: the pod oracle is independent of the configuration's name and namespace.
- **Logging** (`golog`) is not modelled. In `buildRequest` the POST branch's inner `err` shadows the outer one, so a failed POST request is never logged. It still yields a nil request, as the model states.
- **Header key canonicalization** by `http.Header.Set` is not modelled: header maps are kept as plain string maps.
- Config.MatchJobIdWithPod: Go's map iteration order is unspecified, so the result is stated as some matching key, not a particular one. The model returns the first match in a caller-supplied enumeration of the keys.
- **`GetInfo`** only echoes the server's port and id.
- **`stest/types.go`** is a stale duplicate of the types in `stest/stest.go` that contradicts it, so it is not modelled.
- **`probe/probe.go`** only delegates to `tcp.New`, so it is not modelled.
- **Statistics** are not modelled: telemetry aggregation, `InMemoryTests`, `DispatchTestDataCh`, status transitions and completion notification. `stest` never writes `InMemoryTests`, never sends on `DispatchTestDataCh` and never changes a status. `computeTelemetryData` (stest/interfaces.go:127-147) only drains the execution queue, and server/handler.go only reads `InMemoryTests`.
- **Randomness and the clock** are inputs: random draws and `now`.
- **The `StartupProbe` and `Rollback` wrappers** of `config/config.go` each hold only a `Spec`, so the model puts `StartupProbeSpec` and `RollbackSpec` directly in `Spec`; the wrappers carry no information.
- **Integer widths:**
  - `int16`, `uint16`, `int32` and `uint32` fields are subset types.
  - Three counters can wrap, and they are modelled with explicit wrap-around: `lCount` and `closedConn` as uint32, and the restart total as int32.
  - Go's `int` and `int64` are unbounded here.

## Findings

| source | as written | input that shows it | evidently intended | confidence | as-written member | corrected member |
|---|---|---|---|---|---|---|
| util/interfaces.go:44-62 | for a method other than POST, GET or DELETE no request is created, yet `setRequestHeaders` still writes every header into the nil request | `CreateHTTPRequest("PUT", url, {"Accept": "*/*"}, body)` dereferences nil and panics | an unsupported method yields no request and no panic, as it already does when the header map is empty | high, from reading the code; not executed | Util.UnsupportedVerbPanics | Util.CreateHttpRequestFixed |
| stest/interfaces.go:61-75 | `InitStressTestEnvironment` accepts an empty `ExecutionOrder` and attaches an empty scheduler; `ExecuteEnvironment` then waits forever in its first `Get(1)`, inside the goroutine the stress-test handler starts (server/handler.go:60) | a plan with `executionOrder: []` and `numRequests: 25` | an empty execution order is rejected at preload time, so every attached scheduler has a test to hand out | high, from reading the code; not executed | Stest.InitAcceptsEmptyOrder | Stest.InitStressTestEnvironmentFixed |
| stest/interfaces.go:179-206 | `buildRequest` returns a nil request for a DELETE or PUT test, and for a GET or POST whose `CreateHTTPRequest` failed. `runTest` hands that nil request to `GetHTTPResponse`, where `client.Do(nil)` dereferences it, and the worker goroutine panics | a plan with a test of `type: DELETE` in its execution order and `numRequests: 25` | a test with no request is reported as an error and not sent | high, from reading the code; not executed | Stest.UnbuiltRequestPanics | Stest.SendTestRequestFixed |
