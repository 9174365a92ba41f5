/** The cluster API objects the evaluator reads, reduced to the fields it
    touches. Attribute access on the dynamic client's objects yields None for
    a missing field; such fields are `Option`s here. */
module Objects {
  import opened Wrappers

  /** A scalar as the Python code holds it before it is written to a CSV cell:
      a string, an integer, or None. */
  datatype Value = Str(s: string) | Int(i: int) | Null

  /** A `requests` or `limits` block of a container: quantities kept as the
      opaque strings the API returns. */
  datatype Quantities = Quantities(cpu: Option<string>, memory: Option<string>)

  /** A container's `resources` field. */
  datatype Resources = Resources(requests: Option<Quantities>, limits: Option<Quantities>)

  datatype Container = Container(resources: Option<Resources>)

  /** `spec.rollingParams` of a workload. */
  datatype RollingParams = RollingParams(maxSurge: Value)

  /** A Deployment or a DeploymentConfig, with the fields read at the paths
      the evaluator reads them (`metadata.name`, `spec.replicas`,
      `spec.rollingParams`, `spec.containers`). */
  datatype Workload = Workload(
    name: string,       // metadata.name
    replicas: Value,
    rollingParams: Option<RollingParams>,
    containers: seq<Container>)

  /** A (cpu, memory) pair of quantities. */
  datatype Pair = Pair(cpu: string, memory: string)

  /** The namespace LimitRange entry the evaluator reads: its `defaultRequest`
      and its `default` (limit) pairs. */
  datatype LimitDefaults = LimitDefaults(defaultRequest: Pair, default: Pair)

  /** A HorizontalPodAutoscaler: `spec.maxReplicas`, `spec.minReplicas`,
      `spec.targetCPUUtilizationPercentage` and
      `status.currentCPUUtilizationPercentage`. */
  datatype Hpa = Hpa(maxReplicas: Value, minReplicas: Value, targetCpu: Value, currentCpu: Value)
}
