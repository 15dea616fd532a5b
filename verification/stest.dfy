/** Package `stest`: the stress-test plan, its construction, the round-robin
    scheduler preloaded from `ExecutionOrder`, the chunked dispatch loop and
    the construction of each probe's HTTP request.

    The scheduler (a Workiva `queue.Queue` of `*test`) is a sequence. The
    worker goroutines, wait groups, chunk channels, telemetry and sleeps
    are not modelled: what `startRoutines` decides on its own thread is
    which test each of its 25 workers receives and how the queue changes,
    and that is what the dispatch methods compute. */
module Stest {
  import opened Wrappers
  import opened GoInts
  import opened Rotation
  import opened Arith
  import Util
  import Base64
  import Fmt

  /** Number of workers started per chunk. */
  const MaxRoutineChunk: int := 25

  /** The `HTTPRequestType` constants. */
  const HttpGetRequest: string := "GET"
  const HttpPostRequest: string := "POST"
  const HttpDeleteRequest: string := "DELETE"
  const HttpPutRequest: string := "PUT"

  /** `TestStatus`, with the string each constant stands for. */
  datatype TestStatus = Created | Running | Completed {
    function Name(): string {
      match this
      case Created => "Created"
      case Running => "Running"
      case Completed => "Completed"
    }
  }

  /** The three status names are pairwise different, so a status is known
      from its name. */
  lemma StatusNamesDistinct(a: TestStatus, b: TestStatus)
    ensures a.Name() == b.Name() ==> a == b
  {
  }

  /** One probe definition (`test`). `body` is kept base64-encoded, as the
      plan supplies it; `requestType` is the `Type` field. */
  datatype Test = Test(
    id: int16,
    name: string,
    requestType: string,
    endpoint: string,
    body: string,
    validResponseCodes: seq<int16>,
    authorization: map<string, string>,
    headers: map<string, string>)

  /** `stressTestSpec`. */
  datatype StressTestSpec = StressTestSpec(
    selector: map<string, string>,
    numRequests: uint16,
    numConcurrent: int16,
    restDuration: int,
    serverType: string,
    serverPort: int16,
    tests: seq<Test>,
    executionOrder: seq<int16>)

  /** `StressTest`. Of the private telemetry only the scheduler is kept:
      `None` until `InitStressTestEnvironment` attaches one. */
  datatype StressTest = StressTest(
    id: string,
    apiVersion: string,
    kind: string,
    spec: StressTestSpec,
    notify: bool,
    scheduler: Option<seq<Test>>)

  // ---------------------------------------------------------------------
  // Construction

  /** A test whose every authorization value is replaced by its base64
      decoding (the empty string when the value is not valid base64). */
  function DecodeAuthorization(t: Test): (d: Test)
    ensures d.authorization.Keys == t.authorization.Keys
    ensures forall k :: k in t.authorization ==>
      d.authorization[k] == Util.BytesToString(Util.DecodeBase64(t.authorization[k]))
    ensures d.(authorization := t.authorization) == t
  {
    t.(authorization := map k | k in t.authorization :: Util.BytesToString(Util.DecodeBase64(t.authorization[k])))
  }

  /** `New(config)`. `parsed` is what `yaml.Unmarshal` produced from the
      configuration bytes; `idDraws` are the random draws of
      `RandomString(16)`. The unexported telemetry is never set from YAML,
      so a new plan has no scheduler. */
  function New(parsed: Result<StressTest>, idDraws: seq<nat>): (r: Result<StressTest>)
    requires Util.ValidDraws(16, idDraws)
    ensures r.Err? <==> parsed.Err?
    ensures r.Err? ==> r.msg == parsed.msg
    ensures r.Ok? ==>
      var st, plan := r.value, parsed.value;
      && |st.id| == 16
      && (forall i :: 0 <= i < |st.id| ==> st.id[i] in Util.Charset)
      && st.scheduler.None?
      && st.(id := plan.id, spec := plan.spec, scheduler := plan.scheduler) == plan
      && st.spec.(tests := plan.spec.tests) == plan.spec
      && |st.spec.tests| == |plan.spec.tests|
      && (forall i :: 0 <= i < |st.spec.tests| ==> st.spec.tests[i] == DecodeAuthorization(plan.spec.tests[i]))
  {
    match parsed
    case Err(msg) => Err(msg)
    case Ok(plan) =>
      var tests := seq(|plan.spec.tests|, i requires 0 <= i < |plan.spec.tests| => DecodeAuthorization(plan.spec.tests[i]));
      Ok(plan.(id := Util.RandomString(16, idDraws), spec := plan.spec.(tests := tests), scheduler := None))
  }

  /** An authorization value the client encoded with `EncodeBase64` is held
      by the constructed test as the original bytes. */
  lemma NewDecodesEncodedAuthorization(parsed: Result<StressTest>, idDraws: seq<nat>, i: nat, key: string, raw: seq<byte>)
    requires Util.ValidDraws(16, idDraws)
    requires parsed.Ok? && i < |parsed.value.spec.tests|
    requires key in parsed.value.spec.tests[i].authorization
    requires parsed.value.spec.tests[i].authorization[key] == Util.EncodeBase64(raw)
    ensures New(parsed, idDraws).Ok?
    ensures New(parsed, idDraws).value.spec.tests[i].authorization[key] == Util.BytesToString(raw)
  {
    Util.DecodeEncodeBase64(raw);
  }

  // ---------------------------------------------------------------------
  // Test lookup and scheduler preload

  /** Position of the first test at or after `from` whose id is `id`. */
  function FirstIndexFrom(tests: seq<Test>, id: int16, from: nat): (r: Option<nat>)
    requires from <= |tests|
    ensures r.Some? ==> from <= r.value < |tests| && tests[r.value].id == id
    ensures r.Some? ==> forall j :: from <= j < r.value ==> tests[j].id != id
    ensures r.None? ==> forall j :: from <= j < |tests| ==> tests[j].id != id
    decreases |tests| - from
  {
    if from == |tests| then None
    else if tests[from].id == id then Some(from)
    else FirstIndexFrom(tests, id, from + 1)
  }

  /** `findTest(targetTestID)`: id 0 is rejected; otherwise the first test
      with that id, or an error when there is none. */
  function FindTest(tests: seq<Test>, id: int16): (r: Result<Test>)
    ensures id == 0 ==> r.Err?
    ensures id != 0 ==> (r.Ok? <==> exists i :: 0 <= i < |tests| && tests[i].id == id)
    ensures r.Ok? ==> r.value.id == id
    ensures r.Ok? ==> exists i :: 0 <= i < |tests| && tests[i] == r.value && forall j :: 0 <= j < i ==> tests[j].id != id
  {
    if id == 0 then Err("Please provide a valid target id")
    else
      match FirstIndexFrom(tests, id, 0)
      case Some(i) => Ok(tests[i])
      case None => Err("Could not find the test with id: " + Fmt.FormatInt(id))
  }

  /** The queue the loop over `order[from..]` builds: one `Put` per id, or
      the error of the first id `findTest` rejects. */
  function PreloadFrom(tests: seq<Test>, order: seq<int16>, from: nat): (r: Result<seq<Test>>)
    requires from <= |order|
    ensures r.Ok? <==> forall k :: from <= k < |order| ==> FindTest(tests, order[k]).Ok?
    ensures r.Ok? ==> |r.value| == |order| - from
    ensures r.Ok? ==> forall k :: from <= k < |order| ==> r.value[k - from] == FindTest(tests, order[k]).value
    decreases |order| - from
  {
    if from == |order| then Ok([])
    else
      match FindTest(tests, order[from])
      case Err(msg) => Err(msg)
      case Ok(t) =>
        match PreloadFrom(tests, order, from + 1)
        case Err(msg) => Err(msg)
        case Ok(rest) => Ok([t] + rest)
  }

  /** A failed preload reports the error of the first id `findTest` rejects. */
  lemma {:induction false} PreloadStopsAtFirstError(tests: seq<Test>, order: seq<int16>, from: nat)
    requires from <= |order|
    requires PreloadFrom(tests, order, from).Err?
    ensures exists k :: from <= k < |order| && FindTest(tests, order[k]) == Err(PreloadFrom(tests, order, from).msg)
                        && forall j :: from <= j < k ==> FindTest(tests, order[j]).Ok?
    decreases |order| - from
  {
    var msg := PreloadFrom(tests, order, from).msg;
    if FindTest(tests, order[from]).Err? {
      assert FindTest(tests, order[from]) == Err(msg);
    } else {
      PreloadStopsAtFirstError(tests, order, from + 1);
      var k :| from + 1 <= k < |order| && FindTest(tests, order[k]) == Err(msg)
               && forall j :: from + 1 <= j < k ==> FindTest(tests, order[j]).Ok?;
      assert forall j :: from <= j < k ==> FindTest(tests, order[j]).Ok?;
    }
  }

  /** `id` is a usable test id: nonzero, and carried by some test. */
  predicate Names(tests: seq<Test>, id: int16) {
    id != 0 && exists i :: 0 <= i < |tests| && tests[i].id == id
  }

  /** An execution order passes `findTest` exactly when every id in it is
      nonzero and carried by some test. */
  lemma FindTestAccepts(tests: seq<Test>, order: seq<int16>)
    ensures (forall k :: 0 <= k < |order| ==> FindTest(tests, order[k]).Ok?) <==>
            (forall k :: 0 <= k < |order| ==> Names(tests, order[k]))
  {
    forall k | 0 <= k < |order|
      ensures FindTest(tests, order[k]).Ok? <==> Names(tests, order[k])
    {
      FindTestAcceptsOne(tests, order[k]);
    }
  }

  lemma FindTestAcceptsOne(tests: seq<Test>, id: int16)
    ensures FindTest(tests, id).Ok? <==> Names(tests, id)
  {
  }

  /** `InitStressTestEnvironment`: queue up, in `ExecutionOrder`, the test
      each id names, and attach the queue as the scheduler. On the first
      zero or unknown id it returns that error and attaches nothing. */
  function InitStressTestEnvironment(st: StressTest): (r: Result<StressTest>)
    ensures r.Ok? <==> forall k :: 0 <= k < |st.spec.executionOrder| ==> Names(st.spec.tests, st.spec.executionOrder[k])
    ensures r.Ok? ==> r.value.scheduler.Some? && r.value.(scheduler := st.scheduler) == st
    ensures r.Ok? ==>
      var q, order := r.value.scheduler.value, st.spec.executionOrder;
      && |q| == |order|
      && forall k :: 0 <= k < |order| ==> q[k] == FindTest(st.spec.tests, order[k]).value
    ensures r.Err? ==>
      var order := st.spec.executionOrder;
      exists k :: 0 <= k < |order| && FindTest(st.spec.tests, order[k]) == Err(r.msg)
                  && forall j :: 0 <= j < k ==> FindTest(st.spec.tests, order[j]).Ok?
  {
    FindTestAccepts(st.spec.tests, st.spec.executionOrder);
    match PreloadFrom(st.spec.tests, st.spec.executionOrder, 0)
    case Err(msg) =>
      PreloadStopsAtFirstError(st.spec.tests, st.spec.executionOrder, 0);
      Err(msg)
    case Ok(q) => Ok(st.(scheduler := Some(q)))
  }

  // ---------------------------------------------------------------------
  // Chunked dispatch

  /** Number of chunks `ExecuteEnvironment` runs: whole chunks only. */
  function ChunkCount(numRequests: uint16): (n: nat)
    ensures n * MaxRoutineChunk <= numRequests < (n + 1) * MaxRoutineChunk
    ensures n <= 2621
    ensures n == 0 <==> numRequests < MaxRoutineChunk
  {
    numRequests / MaxRoutineChunk
  }

  /** `startRoutines`: 25 times, take the head of the scheduler (`Get(1)`),
      hand it to a worker, and put it back at the tail (`Put`). Returns
      the scheduler afterwards and the tests handed out, in order. */
  method StartRoutines(scheduler: seq<Test>) returns (after: seq<Test>, dispatched: seq<Test>)
    requires |scheduler| > 0
    ensures |dispatched| == MaxRoutineChunk
    ensures forall i :: 0 <= i < MaxRoutineChunk ==> dispatched[i] == scheduler[i % |scheduler|]
    ensures dispatched == Cycle(scheduler, MaxRoutineChunk)
    ensures |after| == |scheduler|
    ensures after == RotateLeft(scheduler, MaxRoutineChunk)
  {
    after := scheduler;
    dispatched := [];
    RotateLeftZero(scheduler);
    var i := 0;
    while i < MaxRoutineChunk
      invariant 0 <= i <= MaxRoutineChunk
      invariant after == RotateLeft(scheduler, i)
      invariant dispatched == Cycle(scheduler, i)
    {
      RotateLeftStep(scheduler, i);
      CycleExtend(scheduler, i);
      var runnable := after[0];
      dispatched := dispatched + [runnable];
      after := after[1..] + [runnable];
      i := i + 1;
    }
  }

  /** `ExecuteEnvironment`: `ChunkCount(NumRequests)` rounds of
      `startRoutines`. The scheduler must be attached and non-empty when at
      least one chunk runs (an empty Workiva queue blocks `Get` forever). */
  method ExecuteEnvironment(st: StressTest) returns (done: StressTest, dispatched: seq<Test>)
    requires ChunkCount(st.spec.numRequests) > 0 ==> st.scheduler.Some? && |st.scheduler.value| > 0
    ensures |dispatched| == MaxRoutineChunk * ChunkCount(st.spec.numRequests)
    ensures st.scheduler.None? ==> done == st
    ensures st.scheduler.Some? ==>
      var q := st.scheduler.value;
      && done == st.(scheduler := Some(RotateLeft(q, |dispatched|)))
      && forall k :: 0 <= k < |dispatched| ==> dispatched[k] == q[k % |q|]
  {
    var chunks := ChunkCount(st.spec.numRequests);
    dispatched := [];
    done := st;
    if chunks == 0 {
      if st.scheduler.Some? {
        RotateLeftZero(st.scheduler.value);
      }
      return;
    }
    var q := st.scheduler.value;
    var current := q;
    RotateLeftZero(q);
    var i := 0;
    while i < chunks
      invariant 0 <= i <= chunks
      invariant current == RotateLeft(q, MaxRoutineChunk * i)
      invariant dispatched == Cycle(q, MaxRoutineChunk * i)
    {
      var after, chunk := StartRoutines(current);
      CycleConcat(q, MaxRoutineChunk * i, MaxRoutineChunk);
      RotateLeftCompose(q, MaxRoutineChunk * i, MaxRoutineChunk);
      dispatched := dispatched + chunk;
      current := after;
      i := i + 1;
    }
    done := st.(scheduler := Some(current));
  }

  /** As written, an empty `ExecutionOrder` passes the preload and attaches
      an empty scheduler; a run of at least one chunk then cannot start,
      because its first `Get(1)` waits forever on the empty queue. */
  lemma InitAcceptsEmptyOrder(st: StressTest)
    requires st.spec.executionOrder == []
    ensures var r := InitStressTestEnvironment(st);
      && r == Ok(st.(scheduler := Some([])))
      && (st.spec.numRequests >= MaxRoutineChunk ==>
            ChunkCount(r.value.spec.numRequests) > 0 && |r.value.scheduler.value| == 0)
  {
  }

  const EmptyOrderMessage: string := "please provide an execution order"

  /** The preload as evidently intended: an empty `ExecutionOrder` is
      rejected like an unknown id, so an attached scheduler is never empty
      and every run can take its tests from it. */
  function InitStressTestEnvironmentFixed(st: StressTest): (r: Result<StressTest>)
    ensures st.spec.executionOrder == [] ==> r == Err(EmptyOrderMessage)
    ensures st.spec.executionOrder != [] ==> r == InitStressTestEnvironment(st)
    ensures r.Ok? ==> r.value.scheduler.Some? && |r.value.scheduler.value| > 0
  {
    if st.spec.executionOrder == [] then Err(EmptyOrderMessage)
    else InitStressTestEnvironment(st)
  }

  /** A stress test from preload to the last chunk: the corrected
      `InitStressTestEnvironment`, then `ExecuteEnvironment`. The k-th test
      handed out over the whole run is the test `ExecutionOrder[k mod n]`
      names. */
  method RunPlan(st: StressTest) returns (r: Result<StressTest>, dispatched: seq<Test>)
    ensures r.Ok? <==>
      && |st.spec.executionOrder| > 0
      && forall k :: 0 <= k < |st.spec.executionOrder| ==> Names(st.spec.tests, st.spec.executionOrder[k])
    ensures r.Err? ==> dispatched == []
    ensures r.Ok? ==>
      var order := st.spec.executionOrder;
      && |dispatched| == MaxRoutineChunk * ChunkCount(st.spec.numRequests)
      && forall k :: 0 <= k < |dispatched| ==> dispatched[k] == FindTest(st.spec.tests, order[k % |order|]).value
  {
    var init := InitStressTestEnvironmentFixed(st);
    if init.Err? {
      return init, [];
    }
    var done;
    done, dispatched := ExecuteEnvironment(init.value);
    r := Ok(done);
  }

  /** Round robin without starvation: when the k-th dispatch is queue entry
      `k mod n`, any n consecutive dispatches cover every queued test. */
  lemma RoundRobinCoverage(q: seq<Test>, dispatched: seq<Test>, start: nat)
    requires |q| > 0
    requires forall k :: 0 <= k < |dispatched| ==> dispatched[k] == q[k % |q|]
    requires start + |q| <= |dispatched|
    ensures forall t :: t in q ==> t in dispatched[start..start + |q|]
  {
    var n := |q|;
    var m := start % n;
    assert start == n * (start / n) + m;
    forall t | t in q
      ensures t in dispatched[start..start + n]
    {
      var j :| 0 <= j < n && q[j] == t;
      var o := if j >= m then j - m else j + n - m;
      if j >= m {
        DivModUnique(start + o, n, start / n, j);
      } else {
        DivModUnique(start + o, n, start / n + 1, j);
      }
      assert dispatched[start..start + n][o] == dispatched[start + o];
    }
  }

  // ---------------------------------------------------------------------
  // Request construction

  /** `fmt.Sprintf("http://%s:%d%s", server, port, endpoint)`. */
  function RequestUrl(server: string, port: int16, endpoint: string): (url: string) {
    "http://" + server + ":" + Fmt.FormatInt(port) + endpoint
  }

  /** The URL can be taken apart again: after the scheme come the server,
      a colon, the port in decimal and the endpoint. */
  lemma RequestUrlParts(server: string, port: int16, endpoint: string)
    ensures var url, p := RequestUrl(server, port, endpoint), Fmt.FormatInt(port);
      && url[..7] == "http://"
      && url[7..7 + |server|] == server
      && url[7 + |server|] == ':'
      && Fmt.ParseInt(url[8 + |server|..8 + |server| + |p|]) == Some(port as int)
      && url[8 + |server| + |p|..] == endpoint
  {
    var url, p := RequestUrl(server, port, endpoint), Fmt.FormatInt(port);
    assert url[8 + |server|..8 + |server| + |p|] == p;
    Fmt.ParseFormatInt(port);
  }

  /** What `buildRequest` keeps of `CreateHTTPRequest`'s result: the error
      is only logged, and the request is then nil. */
  function LogError(created: Result<Option<Util.Request>>): (req: Option<Util.Request>)
    ensures created.Ok? ==> req == created.value
    ensures created.Err? ==> req.None?
  {
    match created
    case Err(_) => None
    case Ok(r) => r
  }

  /** `buildRequest`: GET carries no body, POST carries the base64-decoded
      body and panics when it is not valid base64, and every other request
      type yields a nil request. `newRequestOk` is whether `http.NewRequest`
      accepts the URL. Request construction goes through the corrected
      `CreateHTTPRequest`, which agrees with the code on GET and POST. */
  function BuildRequest(requestType: string, port: int16, server: string, endpoint: string,
                        body: string, headers: map<string, string>, newRequestOk: bool): (r: Outcome<Option<Util.Request>>)
    ensures requestType == HttpGetRequest ==>
      r == Returns(if newRequestOk then Some(Util.Request("GET", RequestUrl(server, port, endpoint), headers, None)) else None)
    ensures requestType == HttpPostRequest ==> (r.Panics? <==> Base64.Decode(body).None?)
    ensures requestType == HttpPostRequest && Base64.Decode(body).Some? ==>
      r == Returns(if newRequestOk
                   then Some(Util.Request("POST", RequestUrl(server, port, endpoint), headers, Some(Base64.Decode(body).value)))
                   else None)
    ensures requestType != HttpGetRequest && requestType != HttpPostRequest ==> r == Returns(None)
  {
    var url := RequestUrl(server, port, endpoint);
    if requestType == HttpGetRequest then
      Returns(LogError(Util.CreateHttpRequestFixed(requestType, url, headers, [], newRequestOk)))
    else if requestType == HttpPostRequest then
      match Base64.Decode(body)
      case None => Panics("illegal base64 data")
      case Some(payload) => Returns(LogError(Util.CreateHttpRequestFixed(requestType, url, headers, payload, newRequestOk)))
    else Returns(None)
  }

  /** On the request types `buildRequest` passes on, the code's
      `CreateHTTPRequest` never panics and returns what the corrected one
      does. */
  lemma BuildRequestUsesSupportedVerbs(requestType: string, url: string, headers: map<string, string>,
                                       payload: seq<byte>, newRequestOk: bool)
    requires requestType == HttpGetRequest || requestType == HttpPostRequest
    ensures Util.CreateHttpRequest(requestType, url, headers, payload, newRequestOk)
         == Returns(Util.CreateHttpRequestFixed(requestType, url, headers, payload, newRequestOk))
  {
    Util.CreateHttpRequestFixedAgrees(requestType, url, headers, payload, newRequestOk);
  }

  /** A POST body the client encoded with `EncodeBase64` reaches the request
      as the original bytes. */
  lemma PostBodyRoundTrip(port: int16, server: string, endpoint: string, payload: seq<byte>, headers: map<string, string>)
    ensures BuildRequest(HttpPostRequest, port, server, endpoint, Util.EncodeBase64(payload), headers, true)
         == Returns(Some(Util.Request("POST", RequestUrl(server, port, endpoint), headers, Some(payload))))
  {
  }

  /** The request step of `runTest`: whatever `buildRequest` returned goes
      straight to `GetHTTPResponse`, whose `client.Do` dereferences a nil
      request. `sent` is what the transport yields for a built request. */
  function SendTestRequest(req: Option<Util.Request>, sent: Result<Util.Response>): (r: Outcome<Result<Util.Response>>)
    ensures r.Panics? <==> req.None?
    ensures r.Returns? ==> r.value == sent
  {
    if req.None? then Panics("invalid memory address or nil pointer dereference")
    else Returns(sent)
  }

  /** A DELETE or PUT test, for which `buildRequest` builds nothing, makes
      the worker running it panic. */
  lemma UnbuiltRequestPanics(requestType: string, port: int16, server: string, endpoint: string, body: string,
                             headers: map<string, string>, newRequestOk: bool, sent: Result<Util.Response>)
    requires requestType == HttpDeleteRequest || requestType == HttpPutRequest
    ensures var built := BuildRequest(requestType, port, server, endpoint, body, headers, newRequestOk);
      && built == Returns(None)
      && SendTestRequest(built.value, sent).Panics?
  {
  }

  const NoRequestMessage: string := "no request was built for the test"

  /** What `runTest` evidently intends: a test for which no request could
      be built is reported as an error instead of being sent. */
  function SendTestRequestFixed(req: Option<Util.Request>, sent: Result<Util.Response>): (r: Result<Util.Response>)
    ensures req.None? ==> r == Err(NoRequestMessage)
    ensures req.Some? ==> r == sent
  {
    if req.None? then Err(NoRequestMessage) else sent
  }

  /** The corrected step never panics, and it agrees with the code whenever
      the code does not panic. */
  lemma SendTestRequestFixedAgrees(req: Option<Util.Request>, sent: Result<Util.Response>)
    ensures SendTestRequest(req, sent).Returns? ==> SendTestRequest(req, sent).value == SendTestRequestFixed(req, sent)
    ensures SendTestRequest(req, sent).Panics? ==> SendTestRequestFixed(req, sent) == Err(NoRequestMessage)
  {
  }
}
