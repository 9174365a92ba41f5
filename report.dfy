/** The CSV report: the header written by `init_csv` and the row written by
    `build_csv` for each workload. */
module Report {
  import opened Objects

  /** The arguments `build_csv` receives for one workload. */
  datatype Record = Record(
    namespace: string,
    name: string,
    replicas: Value,
    limits: Pair,
    requests: Pair,
    hpaMax: Value,
    hpaMin: Value,
    targetCpu: Value,
    currentCpu: Value,
    maxSurge: Value)

  /** The report's columns, named by what they hold. */
  datatype Column =
    | NamespaceCol | ApplicationCol | ReplicasCol
    | CpuLimitsCol | MemoryLimitsCol | CpuRequestsCol | MemoryRequestsCol
    | HpaMaxCol | HpaMinCol | TargetCpuCol | CurrentCpuCol | MaxSurgeCol

  /** The columns in report order. */
  const Columns: seq<Column> := [
    NamespaceCol, ApplicationCol, ReplicasCol,
    CpuLimitsCol, MemoryLimitsCol, CpuRequestsCol, MemoryRequestsCol,
    HpaMaxCol, HpaMinCol, TargetCpuCol, CurrentCpuCol, MaxSurgeCol]

  /** The header title of each column. */
  function Title(c: Column): string
  {
    match c
    case NamespaceCol => "Namespace"
    case ApplicationCol => "Application"
    case ReplicasCol => "Replicas"
    case CpuLimitsCol => "CPU Limits"
    case MemoryLimitsCol => "Memory Limits"
    case CpuRequestsCol => "CPU Requests"
    case MemoryRequestsCol => "Memory Requests"
    case HpaMaxCol => "HPA Max"
    case HpaMinCol => "HPA Min"
    case TargetCpuCol => "Target CPU utilization"
    case CurrentCpuCol => "Current CPU Utilization"
    case MaxSurgeCol => "Max Surge"
  }

  /** The value a record contributes to each column. */
  function Cell(rec: Record, c: Column): Value
  {
    match c
    case NamespaceCol => Str(rec.namespace)
    case ApplicationCol => Str(rec.name)
    case ReplicasCol => rec.replicas
    case CpuLimitsCol => Str(rec.limits.cpu)
    case MemoryLimitsCol => Str(rec.limits.memory)
    case CpuRequestsCol => Str(rec.requests.cpu)
    case MemoryRequestsCol => Str(rec.requests.memory)
    case HpaMaxCol => rec.hpaMax
    case HpaMinCol => rec.hpaMin
    case TargetCpuCol => rec.targetCpu
    case CurrentCpuCol => rec.currentCpu
    case MaxSurgeCol => rec.maxSurge
  }

  /** Every column appears exactly once in the report order. */
  lemma ColumnsAreDistinct()
    ensures |Columns| == 12
    ensures forall i, j :: 0 <= i < j < |Columns| ==> Columns[i] != Columns[j]
    ensures forall c: Column :: c in Columns
  {
    forall c: Column ensures c in Columns {
      var i := match c
        case NamespaceCol => 0 case ApplicationCol => 1 case ReplicasCol => 2
        case CpuLimitsCol => 3 case MemoryLimitsCol => 4 case CpuRequestsCol => 5
        case MemoryRequestsCol => 6 case HpaMaxCol => 7 case HpaMinCol => 8
        case TargetCpuCol => 9 case CurrentCpuCol => 10 case MaxSurgeCol => 11;
      assert Columns[i] == c;
    }
  }

  /** The header row `init_csv` writes. */
  function InitCsvFields(): (header: seq<string>)
    ensures |header| == |Columns|
    ensures forall i :: 0 <= i < |header| ==> header[i] == Title(Columns[i])
  {
    ["Namespace", "Application", "Replicas", "CPU Limits", "Memory Limits",
     "CPU Requests", "Memory Requests", "HPA Max", "HPA Min",
     "Target CPU utilization", "Current CPU Utilization", "Max Surge"]
  }

  /** The row `build_csv` writes for one record. */
  function BuildCsvFields(rec: Record): (row: seq<Value>)
    ensures |row| == |InitCsvFields()|
    ensures forall i :: 0 <= i < |row| ==> row[i] == Cell(rec, Columns[i])
  {
    [Str(rec.namespace), Str(rec.name), rec.replicas,
     Str(rec.limits.cpu), Str(rec.limits.memory),
     Str(rec.requests.cpu), Str(rec.requests.memory),
     rec.hpaMax, rec.hpaMin, rec.targetCpu, rec.currentCpu, rec.maxSurge]
  }
}
