/** Package `rpc`: the effect of the job RPCs on the in-memory job tables
    `CurrentJobs` and `JobPodsMap`. YAML decoding, pod creation, the clock
    and the random source are parameters; the gRPC transport is not
    modelled. */
module Rpc {
  import opened Wrappers
  import opened GoInts
  import opened Arith
  import opened Config
  import Util

  datatype JobResponse = JobResponse(jobId: string, status: string, createdAt: int)

  datatype JobDetailResponse = JobDetailResponse(
    jobId: string,
    jobStatus: string,
    maxBuildErrors: int32,
    maxRetries: int32,
    errorsOccured: int32)

  const JobIdPrefix: string := "job-"

  /** `"job" + "-" + util.RandomString(16)`. */
  function NewJobId(idDraws: seq<nat>): (id: string)
    requires Util.ValidDraws(16, idDraws)
    ensures |id| == 20 && id[..4] == JobIdPrefix
    ensures forall i :: 4 <= i < 20 ==> Util.IsAlphanumeric(id[i])
  {
    JobIdPrefix + Util.RandomString(16, idDraws)
  }

  /** `DeployJob(jobDescInYaml)`. The description is base64-decoded (an
      invalid encoding decodes to nothing) and handed to the YAML parser
      `parse`; `podCreated` is what `CreatePod` returned and `now` the
      clock. The tables change only when both the parse and the pod
      creation succeed. */
  function DeployJob(jobs: Jobs, jobDescInYaml: string, parse: seq<byte> -> Result<Config>,
                     idDraws: seq<nat>, podCreated: Result<Pod>, now: int): (out: (Jobs, Result<JobResponse>))
    requires Util.ValidDraws(16, idDraws)
    ensures var parsed := parse(Util.DecodeBase64(jobDescInYaml));
      parsed.Err? ==> out == (jobs, Err(parsed.msg))
    ensures parse(Util.DecodeBase64(jobDescInYaml)).Ok? && podCreated.Err? ==> out == (jobs, Err(podCreated.msg))
    ensures out.1.Ok? ==>
      var cfg, id := parse(Util.DecodeBase64(jobDescInYaml)).value, out.1.value.jobId;
      && podCreated.Ok?
      && id == NewJobId(idDraws)
      && out.1.value.status == "Created" && out.1.value.createdAt == now
      && out.0.currentJobs.Keys == jobs.currentJobs.Keys + {id}
      && out.0.jobPods.Keys == jobs.jobPods.Keys + {id}
      && out.0.currentJobs[id] == cfg && out.0.jobPods[id] == podCreated.value
      && (forall k :: k in jobs.currentJobs && k != id ==> out.0.currentJobs[k] == jobs.currentJobs[k])
      && (forall k :: k in jobs.jobPods && k != id ==> out.0.jobPods[k] == jobs.jobPods[k])
    ensures out.1.Err? ==> out.0 == jobs
    ensures out.1.Ok? <==> parse(Util.DecodeBase64(jobDescInYaml)).Ok? && podCreated.Ok?
  {
    match parse(Util.DecodeBase64(jobDescInYaml))
    case Err(msg) => (jobs, Err(msg))
    case Ok(cfg) =>
      var id := NewJobId(idDraws);
      match podCreated
      case Err(msg) => (jobs, Err(msg))
      case Ok(pod) =>
        (Jobs(jobs.currentJobs[id := cfg], jobs.jobPods[id := pod]), Ok(JobResponse(id, "Created", now)))
  }

  /** A description the client encoded with `EncodeBase64` reaches the YAML
      parser as the original bytes. */
  lemma DeployJobParsesClientBytes(jobs: Jobs, yaml: seq<byte>, parse: seq<byte> -> Result<Config>,
                                   idDraws: seq<nat>, podCreated: Result<Pod>, now: int)
    requires Util.ValidDraws(16, idDraws)
    requires parse(yaml).Ok? && podCreated.Ok?
    ensures var out := DeployJob(jobs, Util.EncodeBase64(yaml), parse, idDraws, podCreated, now);
      out.1.Ok? && out.0.currentJobs[out.1.value.jobId] == parse(yaml).value
  {
    Util.DecodeEncodeBase64(yaml);
  }

  /** The sum of the restart counts, accumulated in an int32 as the loop
      `restarts += c.RestartCount` does, wrapping on overflow. */
  function RestartTotal(counts: seq<int32>): (total: int32)
    ensures total == WrapInt32(Sum(counts))
  {
    if |counts| == 0 then 0
    else
      var before := RestartTotal(counts[..|counts| - 1]);
      WrapInt32AddLeft(Sum(counts[..|counts| - 1]), counts[|counts| - 1]);
      assert counts[..|counts| - 1] + [counts[|counts| - 1]] == counts;
      SumAppend(counts[..|counts| - 1], counts[|counts| - 1]);
      WrapInt32(before + counts[|counts| - 1])
  }

  /** The mathematical sum. */
  function Sum(xs: seq<int>): (total: int) {
    if |xs| == 0 then 0 else xs[0] + Sum(xs[1..])
  }

  lemma {:induction false} SumAppend(xs: seq<int>, y: int)
    ensures Sum(xs + [y]) == Sum(xs) + y
  {
    if |xs| > 0 {
      SumAppend(xs[1..], y);
      assert (xs + [y])[1..] == xs[1..] + [y];
    }
  }

  /** Wrapping an intermediate sum does not change the wrapped total. */
  lemma WrapInt32AddLeft(x: int, y: int)
    ensures WrapInt32(WrapInt32(x) + y) == WrapInt32(x + y)
  {
    var w := WrapInt32(x);
    var t := if x % TWO_32 >= TWO_31 then -(x / TWO_32) - 1 else -(x / TWO_32);
    assert w == x + TWO_32 * t;
    DivModUnique(w + y, TWO_32, (x + y) / TWO_32 + t, (x + y) % TWO_32);
  }

  /** `JobDetails(JobID)`: an unknown job, or a job without a pod, is an
      error; otherwise the pod's phase, the job's error and retry limits,
      and the total container restarts. */
  function JobDetails(jobs: Jobs, jobId: string): (r: Result<JobDetailResponse>)
    ensures r.Ok? <==> jobId in jobs.currentJobs && jobId in jobs.jobPods
    ensures r.Ok? ==>
      var cfg, pod := jobs.currentJobs[jobId], jobs.jobPods[jobId];
      && r.value.jobId == jobId
      && r.value.jobStatus == pod.phase
      && r.value.maxBuildErrors == cfg.spec.maxBuildErrors
      && r.value.maxRetries == cfg.spec.maxRetries
      && r.value.errorsOccured == WrapInt32(Sum(pod.restartCounts))
  {
    if jobId !in jobs.currentJobs then Err("Could not locate JobID: " + jobId)
    else if jobId !in jobs.jobPods then Err("Could not locate the Pod for Job ID: " + jobId)
    else
      var cfg, pod := jobs.currentJobs[jobId], jobs.jobPods[jobId];
      Ok(JobDetailResponse(jobId, pod.phase, cfg.spec.maxBuildErrors, cfg.spec.maxRetries, RestartTotal(pod.restartCounts)))
  }

  /** `DeleteJob(JobID)`: an empty id, an unknown job or a job without a pod
      is an error and changes nothing; otherwise the job leaves both tables.
      `podDeleted` is whether `DeletePod` succeeded, which the code ignores. */
  function DeleteJob(jobs: Jobs, jobId: string, podDeleted: bool): (out: (Jobs, Result<()>))
    ensures out.1.Ok? <==> jobId != "" && jobId in jobs.currentJobs && jobId in jobs.jobPods
    ensures out.1.Err? ==> out.0 == jobs
    ensures out.1.Ok? ==>
      && out.0.currentJobs.Keys == jobs.currentJobs.Keys - {jobId}
      && out.0.jobPods.Keys == jobs.jobPods.Keys - {jobId}
      && (forall k :: k in out.0.currentJobs ==> out.0.currentJobs[k] == jobs.currentJobs[k])
      && (forall k :: k in out.0.jobPods ==> out.0.jobPods[k] == jobs.jobPods[k])
  {
    if jobId == "" then (jobs, Err("error: please provide a JobID to search"))
    else if jobId !in jobs.currentJobs then (jobs, Err("Could not locate JobID: " + jobId))
    else if jobId !in jobs.jobPods then (jobs, Err("No pod found for JobID: " + jobId))
    else (Jobs(jobs.currentJobs - {jobId}, jobs.jobPods - {jobId}), Ok(()))
  }

  /** The outcome of `DeleteJob` does not depend on whether the pod was
      actually deleted. */
  lemma DeleteJobIgnoresPodDeletion(jobs: Jobs, jobId: string)
    ensures DeleteJob(jobs, jobId, true) == DeleteJob(jobs, jobId, false)
  {
  }

  /** A deployed job can be queried: its details come from the parsed
      configuration and the created pod. */
  lemma DeployThenDetails(jobs: Jobs, jobDescInYaml: string, parse: seq<byte> -> Result<Config>,
                          idDraws: seq<nat>, podCreated: Result<Pod>, now: int)
    requires Util.ValidDraws(16, idDraws)
    requires DeployJob(jobs, jobDescInYaml, parse, idDraws, podCreated, now).1.Ok?
    ensures var (after, resp) := DeployJob(jobs, jobDescInYaml, parse, idDraws, podCreated, now);
      var cfg := parse(Util.DecodeBase64(jobDescInYaml)).value;
      JobDetails(after, resp.value.jobId)
        == Ok(JobDetailResponse(resp.value.jobId, podCreated.value.phase, cfg.spec.maxBuildErrors,
                                cfg.spec.maxRetries, WrapInt32(Sum(podCreated.value.restartCounts))))
  {
  }

  /** Deleting a freshly deployed job restores both tables. */
  lemma DeployThenDelete(jobs: Jobs, jobDescInYaml: string, parse: seq<byte> -> Result<Config>,
                         idDraws: seq<nat>, podCreated: Result<Pod>, now: int, podDeleted: bool)
    requires Util.ValidDraws(16, idDraws)
    requires NewJobId(idDraws) !in jobs.currentJobs && NewJobId(idDraws) !in jobs.jobPods
    requires DeployJob(jobs, jobDescInYaml, parse, idDraws, podCreated, now).1.Ok?
    ensures var (after, resp) := DeployJob(jobs, jobDescInYaml, parse, idDraws, podCreated, now);
      DeleteJob(after, resp.value.jobId, podDeleted) == (jobs, Ok(()))
  {
    var id := NewJobId(idDraws);
    var cfg := parse(Util.DecodeBase64(jobDescInYaml)).value;
    var after := Jobs(jobs.currentJobs[id := cfg], jobs.jobPods[id := podCreated.value]);
    assert DeployJob(jobs, jobDescInYaml, parse, idDraws, podCreated, now) == (after, Ok(JobResponse(id, "Created", now)));
    AddThenRemove(jobs.currentJobs, id, cfg);
    AddThenRemove(jobs.jobPods, id, podCreated.value);
  }

  lemma AddThenRemove<V>(m: map<string, V>, k: string, v: V)
    requires k !in m
    ensures m[k := v] - {k} == m
  {
  }
}
