/** `get_resources_info`: resolves one workload's requests, limits and
    autoscaler settings and assembles the record `build_csv` writes. */
module Resolution {
  import opened Wrappers
  import opened Objects
  import opened Report

  /** The two resource blocks of a container. */
  datatype Kind = Requests | Limits

  /** The two resource dimensions. */
  datatype Dim = Cpu | Memory

  /** The exceptions the Python code raises before it reaches `build_csv`. */
  datatype Failure =
    | NoRollingParams   // `spec.rollingParams` is None: `.maxSurge` raises
    | NoLimitRange      // the namespace has no LimitRange defaults to extend the lists with
    | NoContainers      // `spec.containers[0]` raises IndexError

  /** Python truthiness of an optional quantity: present and non-empty. */
  predicate Truthy(q: Option<string>)
  {
    q.Some? && q.value != ""
  }

  function Field(q: Quantities, d: Dim): Option<string>
  {
    match d
    case Cpu => q.cpu
    case Memory => q.memory
  }

  function BlockOf(r: Resources, k: Kind): Option<Quantities>
  {
    match k
    case Requests => r.requests
    case Limits => r.limits
  }

  /** The container overrides slot (k, d): its `resources`, the `requests` or
      `limits` block and the field are all truthy. */
  predicate Declares(c: Container, k: Kind, d: Dim)
  {
    c.resources.Some? && BlockOf(c.resources.value, k).Some?
    && Truthy(Field(BlockOf(c.resources.value, k).value, d))
  }

  /** The value the container declares for slot (k, d). */
  function Declared(c: Container, k: Kind, d: Dim): string
    requires Declares(c, k, d)
  {
    Field(BlockOf(c.resources.value, k).value, d).value
  }

  /** The LimitRange default for slot (k, d): `defaultRequest` for requests,
      `default` for limits. */
  function DefaultFor(defaults: LimitDefaults, k: Kind, d: Dim): string
  {
    var pair := match k case Requests => defaults.defaultRequest case Limits => defaults.default;
    match d case Cpu => pair.cpu case Memory => pair.memory
  }

  /** Slot (k, d) of a record. */
  function Slot(rec: Record, k: Kind, d: Dim): string
  {
    var pair := match k case Requests => rec.requests case Limits => rec.limits;
    match d case Cpu => pair.cpu case Memory => pair.memory
  }

  /** Resolves `w` in `namespace`. `limitRangeIn` stands for the LimitRange
      lookup by namespace and `hpaNamed` for the autoscaler lookup by
      (namespace, name); `None` means nothing was found. */
  method GetResourcesInfo(namespace: string, w: Workload,
                          limitRangeIn: string -> Option<LimitDefaults>,
                          hpaNamed: (string, string) -> Option<Hpa>)
    returns (r: Result<Record, Failure>)
    // the exceptions, in the order the code meets them
    ensures w.rollingParams.None? ==> r == Err(NoRollingParams)
    ensures w.rollingParams.Some? && limitRangeIn(namespace).None? ==> r == Err(NoLimitRange)
    ensures w.rollingParams.Some? && limitRangeIn(namespace).Some? && |w.containers| == 0 ==> r == Err(NoContainers)
    ensures r.Ok? <==> w.rollingParams.Some? && limitRangeIn(namespace).Some? && |w.containers| > 0
    // identity, replicas and max surge are copied unchanged
    ensures r.Ok? ==> (r.value.namespace == namespace && r.value.name == w.name
                       && r.value.replicas == w.replicas && r.value.maxSurge == w.rollingParams.value.maxSurge)
    // each slot independently: the first container's value when declared, else the namespace default
    ensures r.Ok? ==> forall k: Kind, d: Dim ::
                        Slot(r.value, k, d) == (if Declares(w.containers[0], k, d) then Declared(w.containers[0], k, d)
                                                else DefaultFor(limitRangeIn(namespace).value, k, d))
    // autoscaler settings are 0 without an autoscaler of the same name, else copied
    ensures r.Ok? && hpaNamed(namespace, w.name).None? ==>
              r.value.hpaMax == Int(0) && r.value.hpaMin == Int(0)
              && r.value.targetCpu == Int(0) && r.value.currentCpu == Int(0)
    ensures r.Ok? && hpaNamed(namespace, w.name).Some? ==>
              var hpa := hpaNamed(namespace, w.name).value;
              r.value.hpaMax == hpa.maxReplicas && r.value.hpaMin == hpa.minReplicas
              && r.value.targetCpu == hpa.targetCpu && r.value.currentCpu == hpa.currentCpu
  {
    var replicas := w.replicas;
    if w.rollingParams.None? {
      return Err(NoRollingParams);
    }
    var maxSurge := w.rollingParams.value.maxSurge;
    var hpaMax, hpaMin, targetCpu, currentCpu := Int(0), Int(0), Int(0), Int(0);
    var targetResources := limitRangeIn(namespace);
    if targetResources.None? {
      return Err(NoLimitRange);
    }
    var defaults := targetResources.value;
    var requests := [defaults.defaultRequest.cpu, defaults.defaultRequest.memory];
    var limits := [defaults.default.cpu, defaults.default.memory];
    if |w.containers| == 0 {
      return Err(NoContainers);
    }
    var first := w.containers[0];
    if first.resources.Some? {
      var resources := first.resources.value;
      if resources.requests.Some? {
        if Truthy(resources.requests.value.cpu) {
          requests := requests[0 := resources.requests.value.cpu.value];
        }
        if Truthy(resources.requests.value.memory) {
          requests := requests[1 := resources.requests.value.memory.value];
        }
      }
      if resources.limits.Some? {
        if Truthy(resources.limits.value.cpu) {
          limits := limits[0 := resources.limits.value.cpu.value];
        }
        if Truthy(resources.limits.value.memory) {
          limits := limits[1 := resources.limits.value.memory.value];
        }
      }
    }
    var targetHpa := hpaNamed(namespace, w.name);
    if targetHpa.Some? {
      hpaMax := targetHpa.value.maxReplicas;
      hpaMin := targetHpa.value.minReplicas;
      targetCpu := targetHpa.value.targetCpu;
      currentCpu := targetHpa.value.currentCpu;
    }
    r := Ok(Record(namespace, w.name, replicas, Pair(limits[0], limits[1]), Pair(requests[0], requests[1]),
                   hpaMax, hpaMin, targetCpu, currentCpu, maxSurge));
  }
}
