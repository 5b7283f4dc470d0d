/**
 * The runtime entities of the BPMN engine that the snapshot codec reads
 * and writes, as values. Only the fields the codec touches are spelled
 * out; the rest of an instance, a message subscription and a timer are
 * carried as opaque values.
 */
module BpmnModel {
  import opened Wrappers
  import opened Hex

  /** Go's `int64`: the process keys. */
  newtype int64 = x: int | -0x8000_0000_0000_0000 <= x < 0x8000_0000_0000_0000

  /** A variable's value in a variable holder. */
  type Value(==)
  /** An instance's own persisted fields (instance key, state, ...). */
  type InstanceFields(==)
  type MessageSubscription(==)
  type Timer(==)

  /** A registered process definition. */
  datatype ProcessInfo = ProcessInfo(
    bpmnProcessId: string,      // the ID as defined in the BPMN file
    processKey: int64,          // the engine's key for this process and version
    bpmnData: string,           // the raw (encoded) BPMN data
    bpmnResourceName: string,
    bpmnChecksum: seq<byte>)

  /** The zero `ProcessInfo` with only its key set. */
  function StubProcessInfo(key: int64): ProcessInfo {
    ProcessInfo("", key, "", "", [])
  }

  /** A scope of variables, optionally nested in a parent scope. */
  datatype VariableHolder = VariableHolder(parent: Option<VariableHolder>, variables: map<string, Value>)

  /** `var_holder.New(nil, nil)`: no parent and no variables. */
  const FreshVariableHolder: VariableHolder := VariableHolder(None, map[])

  datatype ProcessInstance = ProcessInstance(
    processInfo: ProcessInfo,   // the definition this instance runs
    variableHolder: VariableHolder,
    fields: InstanceFields)

  /** The engine state as a value: what `BpmnEngineState` holds. */
  datatype EngineState = EngineState(
    name: string,
    processes: seq<ProcessInfo>,
    processInstances: seq<ProcessInstance>,
    messageSubscriptions: seq<MessageSubscription>,
    timers: seq<Timer>)

  /** The state `New()` returns, given the name it generates. */
  function NewState(name: string): EngineState {
    EngineState(name, [], [], [], [])
  }

  /**
   * Index of the first process at or after `from` whose key is `key`.
   */
  function IndexOfKey(processes: seq<ProcessInfo>, key: int64, from: nat): (r: Option<nat>)
    requires from <= |processes|
    decreases |processes| - from
    ensures r.Some? ==> from <= r.value < |processes| && processes[r.value].processKey == key
    ensures r.Some? ==> forall j :: from <= j < r.value ==> processes[j].processKey != key
    ensures r.None? ==> forall j :: from <= j < |processes| ==> processes[j].processKey != key
  {
    if from == |processes| then None
    else if processes[from].processKey == key then Some(from)
    else IndexOfKey(processes, key, from + 1)
  }

  /**
   * The first registered process with key `key`: nothing exactly when no
   * process has the key, and otherwise the earliest process that has it.
   */
  function FindIn(processes: seq<ProcessInfo>, key: int64): (r: Option<ProcessInfo>)
    ensures r.None? <==> forall j :: 0 <= j < |processes| ==> processes[j].processKey != key
    ensures r.Some? ==> r.value.processKey == key
    ensures r.Some? ==>
      exists i :: 0 <= i < |processes| && processes[i] == r.value
        && forall j :: 0 <= j < i ==> processes[j].processKey != key
  {
    match IndexOfKey(processes, key, 0)
    case Some(i) => Some(processes[i])
    case None => None
  }
}
