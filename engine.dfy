/**
 * The engine state object and the codec operations on it, in the
 * step-by-step form they take in the engine: building the references with
 * a loop, looking a process up with an index loop, and restoring a state
 * by filling a fresh engine field by field, stopping early on an error.
 * Each operation is proved against its specification in `Serializing`.
 */
module Engine {
  import opened Wrappers
  import opened BpmnModel
  import opened Serializing

  /** Why the JSON text could not be parsed into a wire record. */
  type JsonError(==)

  /** What `Unmarshal` reports. */
  datatype UnmarshalError =
    | Malformed(cause: JsonError)              // the JSON layer failed (a panic in the engine)
    | Unmarshalling(error: UnmarshallingError)

  class BpmnEngineState {
    var name: string
    var processes: seq<ProcessInfo>
    var processInstances: seq<ProcessInstance>
    var messageSubscriptions: seq<MessageSubscription>
    var timers: seq<Timer>

    /** The state as a value. */
    function Value(): EngineState
      reads this
    {
      EngineState(name, processes, processInstances, messageSubscriptions, timers)
    }

    /** `New()`, given the name it generates for the engine. */
    constructor New(generatedName: string)
      ensures Value() == NewState(generatedName)
    {
      name := generatedName;
      processes := [];
      processInstances := [];
      messageSubscriptions := [];
      timers := [];
    }

    /**
     * The wire record of this engine: stamped with the current serializer
     * version, with the name, subscriptions and timers copied unchanged,
     * one reference per process and one record per instance.
     */
    method Marshal() returns (m: SerializedEngine)
      ensures m == Encode(Value())
      ensures m.version == CurrentSerializerVersion
      ensures m.name == name && m.messageSubscriptions == messageSubscriptions && m.timers == timers
      ensures |m.processReferences| == |processes| && |m.processInstances| == |processInstances|
    {
      var refs := CreateReferences(processes);
      m := SerializedEngine(CurrentSerializerVersion, name, refs, EncodeInstances(processInstances),
                            messageSubscriptions, timers);
    }

    /**
     * The first process whose key is `processKey`, or nothing when no
     * process has that key.
     */
    method FindProcess(processKey: int64) returns (process: Option<ProcessInfo>)
      ensures process == FindIn(processes, processKey)
      ensures process.None? <==> forall j :: 0 <= j < |processes| ==> processes[j].processKey != processKey
      ensures process.Some? ==>
        exists i :: 0 <= i < |processes| && processes[i] == process.value
          && processes[i].processKey == processKey
          && forall j :: 0 <= j < i ==> processes[j].processKey != processKey
    {
      var i := 0;
      while i < |processes|
        invariant 0 <= i <= |processes|
        invariant IndexOfKey(processes, processKey, 0) == IndexOfKey(processes, processKey, i)
      {
        if processes[i].processKey == processKey {
          return Some(processes[i]);
        }
        i := i + 1;
      }
      return None;
    }
  }

  /** One reference per process, in the same order, with the checksum in base16. */
  method CreateReferences(processes: seq<ProcessInfo>) returns (result: seq<ProcessInfoReference>)
    ensures result == References(processes)
    ensures |result| == |processes|
    ensures forall i :: 0 <= i < |processes| ==>
      && result[i].bpmnProcessId == processes[i].bpmnProcessId
      && result[i].processKey == processes[i].processKey
      && result[i].bpmnData == processes[i].bpmnData
      && result[i].bpmnResourceName == processes[i].bpmnResourceName
      && result[i].bpmnChecksum == Hex.EncodeToString(processes[i].bpmnChecksum)
  {
    result := [];
    for i := 0 to |processes|
      invariant result == References(processes[..i])
    {
      var pi := processes[i];
      var ref := ProcessInfoReference(pi.bpmnProcessId, pi.processKey, pi.bpmnData, pi.bpmnResourceName,
                                      Hex.EncodeToString(pi.bpmnChecksum));
      result := result + [ref];
    }
    assert processes[..|processes|] == processes;
  }

  /**
   * Reloads the stored definitions one by one into `state`, each under its
   * stored key, stopping at the first that fails to load and reporting
   * that failure.
   */
  method LoadProcesses(state: BpmnEngineState, refs: seq<ProcessInfoReference>, load: Loader)
    returns (failure: Option<LoadError>)
    modifies state
    ensures state.Value() == old(state.Value()).(processes := LoadFrom(refs, load, 0, old(state.processes)).processes)
    ensures failure == LoadFrom(refs, load, 0, old(state.processes)).failure
  {
    for i := 0 to |refs|
      invariant state.Value() == old(state.Value()).(processes := state.processes)
      invariant LoadFrom(refs, load, 0, old(state.processes)) == LoadFrom(refs, load, i, state.processes)
    {
      var pir := refs[i];
      var loaded := load(pir.bpmnData, pir.bpmnResourceName);
      if loaded.Failure? {
        return Some(loaded.error);
      }
      var process := loaded.value.(processKey := pir.processKey);
      state.processes := state.processes + [process];
    }
    return None;
  }

  /**
   * Re-links each instance, in order, to the first process of `state` with
   * its key and gives it a fresh variable holder; fails with the index of
   * the first instance whose key no process has.
   */
  method LinkInstances(state: BpmnEngineState, decoded: seq<ProcessInstance>)
    returns (linked: Result<seq<ProcessInstance>, nat>)
    ensures linked == LinkFrom(decoded, state.processes, 0)
  {
    var instances := decoded;
    for i := 0 to |instances|
      invariant |instances| == |decoded|
      invariant LinkFrom(decoded, state.processes, 0) == LinkFrom(instances, state.processes, i)
      invariant forall k :: i <= k < |instances| ==> instances[k] == decoded[k]
    {
      var process := state.FindProcess(instances[i].processInfo.processKey);
      if process.None? {
        return Failure(i);
      }
      instances := instances[i := Linked(instances[i], process.value)];
    }
    return Success(instances);
  }

  /**
   * Restores an engine from the outcome of parsing a snapshot. A parse
   * failure yields no engine. Otherwise the engine `New()` creates is
   * filled as `Restore` specifies and returned, partially filled when an
   * error stops the restoring.
   */
  method Unmarshal(data: Result<SerializedEngine, JsonError>, load: Loader, generatedName: string)
    returns (state: BpmnEngineState?, err: Option<UnmarshalError>)
    ensures data.Failure? ==> state == null && err == Some(Malformed(data.error))
    ensures data.Success? ==>
      var restored := Restore(data.value, load, generatedName);
      && state != null && fresh(state)
      && state.Value() == restored.state
      && err == (if restored.err.Some? then Some(Unmarshalling(restored.err.value)) else None)
  {
    if data.Failure? {
      return null, Some(Malformed(data.error));
    }
    var m := data.value;
    state := new BpmnEngineState.New(generatedName);
    var failure := LoadProcesses(state, m.processReferences, load);
    if failure.Some? {
      return state, Some(Unmarshalling(BpmnEngineUnmarshallingError(CantLoadMessage, failure)));
    }
    if m.messageSubscriptions != [] {
      state.messageSubscriptions := m.messageSubscriptions;
    }
    if m.processInstances != [] {
      var linked := LinkInstances(state, DecodeInstances(m.processInstances));
      if linked.Failure? {
        var key := m.processInstances[linked.error].pk;
        return state, Some(Unmarshalling(BpmnEngineUnmarshallingError(MissingKeyMessage(key), None)));
      }
      state.processInstances := linked.value;
    }
    if m.timers != [] {
      state.timers := m.timers;
    }
    err := None;
  }
}
