/** Package `config`: the job configuration a developer supplies as YAML,
    the two in-memory job tables, and the helpers over them. YAML decoding
    is a library call; its result is a parameter (`parse`). */
module Config {
  import opened Wrappers
  import opened GoInts

  datatype StartupProbeSpec = StartupProbeSpec(
    serverType: string,
    port: int16,
    endpoint: string,
    initialStartupDelay: int16,
    retryThreshold: int16,
    validResponseCodes: seq<int16>)

  datatype RollbackSpec = RollbackSpec(rollbackImage: string, adminNotify: bool)

  datatype Spec = Spec(
    name: string,
    namespace: string,
    maxBuildErrors: int32,
    maxRetries: int32,
    gatherStatistics: bool,
    notify: bool,
    startupProbe: StartupProbeSpec,
    rollback: RollbackSpec)

  /** `Config`; `kind` is the YAML `type` field. */
  datatype Config = Config(apiVersion: string, kind: string, spec: Spec)

  /** The fields of a Kubernetes pod this code reads: its name and
      namespace, its phase, and each container's restart count. */
  datatype Pod = Pod(name: string, namespace: string, phase: string, restartCounts: seq<int32>)

  /** `CurrentJobs` and `JobPodsMap`, both keyed by job id. */
  datatype Jobs = Jobs(currentJobs: map<string, Config>, jobPods: map<string, Pod>)

  const NoYamlMessage: string := "please provide a yaml string to parse"
  const BadYamlMessage: string := "unable to parse yaml. provide a valid yaml string"

  /** `GetConfigFromYAML(yamlStr)`: `None` is a nil slice. A parse failure
      is reported with a fixed message; the parser's own error is dropped. */
  function GetConfigFromYaml(yamlStr: Option<seq<byte>>, parse: seq<byte> -> Result<Config>): (r: Result<Config>)
    ensures yamlStr.None? ==> r == Err(NoYamlMessage)
    ensures yamlStr.Some? && parse(yamlStr.value).Err? ==> r == Err(BadYamlMessage)
    ensures yamlStr.Some? && parse(yamlStr.value).Ok? ==> r == parse(yamlStr.value)
  {
    match yamlStr
    case None => Err(NoYamlMessage)
    case Some(text) =>
      match parse(text)
      case Err(_) => Err(BadYamlMessage)
      case Ok(cfg) => Ok(cfg)
  }

  /** `MatchJobIDWithPod(podName)`. Go visits the map in an unspecified
      order; `order` is that visiting order, an enumeration of the keys.
      The first job whose pod is named `podName` is returned. */
  function MatchJobIdWithPod(jobPods: map<string, Pod>, order: seq<string>, podName: string): (r: Result<string>)
    requires forall i :: 0 <= i < |order| ==> order[i] in jobPods
    requires forall k :: k in jobPods ==> k in order
    ensures r.Ok? ==> r.value in jobPods && jobPods[r.value].name == podName
    ensures r.Err? <==> forall k :: k in jobPods ==> jobPods[k].name != podName
  {
    match FirstMatch(jobPods, order, podName, 0)
    case Some(k) => Ok(k)
    case None => Err("Could not find JobID for given Pod " + podName)
  }

  /** The first key of `order[from..]` whose pod has the given name. */
  function FirstMatch(jobPods: map<string, Pod>, order: seq<string>, podName: string, from: nat): (r: Option<string>)
    requires from <= |order|
    requires forall i :: 0 <= i < |order| ==> order[i] in jobPods
    ensures r.Some? ==> r.value in jobPods && jobPods[r.value].name == podName
    ensures r.None? ==> forall i :: from <= i < |order| ==> jobPods[order[i]].name != podName
    decreases |order| - from
  {
    if from == |order| then None
    else if jobPods[order[from]].name == podName then Some(order[from])
    else FirstMatch(jobPods, order, podName, from + 1)
  }
}
