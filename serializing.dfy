/**
 * The snapshot codec of the BPMN engine, on values: the versioned wire
 * record, the process reference records, the instance key adapter, and
 * the specification of restoring an engine state from a wire record.
 * The JSON text layer is abstracted away: the wire form is the record the
 * JSON encoder would be given and the JSON decoder would fill.
 */
module Serializing {
  import opened Wrappers
  import opened Hex
  import opened Decimal
  import opened BpmnModel

  const CurrentSerializerVersion: int := 1

  /** A registered process definition as stored in a snapshot. */
  datatype ProcessInfoReference = ProcessInfoReference(
    bpmnProcessId: string,
    processKey: int64,
    bpmnData: string,
    bpmnResourceName: string,
    bpmnChecksum: string)       // the checksum bytes in base16

  /**
   * An instance as stored in a snapshot: the key of its process, written
   * as a field of its own, beside the instance's other fields.
   */
  datatype InstanceRecord = InstanceRecord(
    pk: int64,
    variableHolder: VariableHolder,
    fields: InstanceFields)

  /** The versioned wire record of a whole engine. */
  datatype SerializedEngine = SerializedEngine(
    version: int,
    name: string,
    processReferences: seq<ProcessInfoReference>,
    processInstances: seq<InstanceRecord>,
    messageSubscriptions: seq<MessageSubscription>,
    timers: seq<Timer>)

  // ---------------------------------------------------------------------
  // Encoding

  function ReferenceOf(p: ProcessInfo): ProcessInfoReference {
    ProcessInfoReference(p.bpmnProcessId, p.processKey, p.bpmnData, p.bpmnResourceName,
                         EncodeToString(p.bpmnChecksum))
  }

  /** One reference per process, in registration order. */
  function References(processes: seq<ProcessInfo>): (refs: seq<ProcessInfoReference>)
    ensures |refs| == |processes|
  {
    seq(|processes|, i requires 0 <= i < |processes| => ReferenceOf(processes[i]))
  }

  /**
   * A reference stores the checksum as a lowercase base16 string of twice
   * the checksum's length, which decodes back to the checksum bytes.
   */
  lemma ReferenceChecksum(p: ProcessInfo)
    ensures var crc := ReferenceOf(p).bpmnChecksum;
      |crc| == 2 * |p.bpmnChecksum| && IsLowerHex(crc) && DecodeString(crc) == Success(p.bpmnChecksum)
  {
    DecodeOfEncode(p.bpmnChecksum);
  }

  /** The instance adapter on encoding: the owning process is written as its key. */
  function EncodeInstance(pii: ProcessInstance): (r: InstanceRecord)
    ensures r.pk == pii.processInfo.processKey
  {
    InstanceRecord(pii.processInfo.processKey, pii.variableHolder, pii.fields)
  }

  /**
   * The instance adapter on decoding: the owning process becomes a stub
   * that holds only the stored key; re-encoding gives the record back.
   */
  function DecodeInstance(r: InstanceRecord): (pii: ProcessInstance)
    ensures pii.processInfo == StubProcessInfo(r.pk)
    ensures EncodeInstance(pii) == r
  {
    ProcessInstance(StubProcessInfo(r.pk), r.variableHolder, r.fields)
  }

  /** Encoding then decoding an instance keeps everything but the process, of which it keeps the key. */
  lemma InstanceKeyRoundTrip(pii: ProcessInstance)
    ensures DecodeInstance(EncodeInstance(pii)).processInfo.processKey == pii.processInfo.processKey
    ensures DecodeInstance(EncodeInstance(pii)) == pii.(processInfo := StubProcessInfo(pii.processInfo.processKey))
  {
  }

  function EncodeInstances(insts: seq<ProcessInstance>): (rs: seq<InstanceRecord>)
    ensures |rs| == |insts|
  {
    seq(|insts|, i requires 0 <= i < |insts| => EncodeInstance(insts[i]))
  }

  function DecodeInstances(rs: seq<InstanceRecord>): (insts: seq<ProcessInstance>)
    ensures |insts| == |rs|
  {
    seq(|rs|, i requires 0 <= i < |rs| => DecodeInstance(rs[i]))
  }

  /** The record `Marshal` builds from an engine state. */
  function Encode(s: EngineState): SerializedEngine {
    SerializedEngine(CurrentSerializerVersion, s.name, References(s.processes),
                     EncodeInstances(s.processInstances), s.messageSubscriptions, s.timers)
  }

  // ---------------------------------------------------------------------
  // Restoring

  /** Why a process definition could not be reloaded (decoding, decompressing or parsing). */
  type LoadError(==)

  /** Decompresses and parses stored BPMN data into a process definition, or fails. */
  type Loader = (string, string) -> Result<ProcessInfo, LoadError>

  /** `BpmnEngineUnmarshallingError`: a message and, for a load failure, its cause. */
  datatype UnmarshallingError = BpmnEngineUnmarshallingError(msg: string, err: Option<LoadError>)

  const CantLoadMessage: string := "Can't load BPMN from serialized data"
  const MissingKeyPrefix: string := "Can't find process key "
  const MissingKeySuffix: string := " in current BPMN Engine's processes"

  /** The message for an instance whose process key is unknown; it names the key in decimal. */
  function MissingKeyMessage(key: int64): (msg: string)
    ensures |MissingKeyPrefix| + |MissingKeySuffix| < |msg|
    ensures msg[..|MissingKeyPrefix|] == MissingKeyPrefix
    ensures msg[|msg| - |MissingKeySuffix|..] == MissingKeySuffix
    ensures ParseInt(msg[|MissingKeyPrefix|..|msg| - |MissingKeySuffix|]) == Some(key as int)
  {
    var digits := FormatInt(key as int);
    ParseOfFormatInt(key as int);
    var msg := MissingKeyPrefix + digits + MissingKeySuffix;
    assert msg[|MissingKeyPrefix|..|msg| - |MissingKeySuffix|] == digits;
    msg
  }

  function LoadOf(ref: ProcessInfoReference, load: Loader): Result<ProcessInfo, LoadError> {
    load(ref.bpmnData, ref.bpmnResourceName)
  }

  /** A reloaded definition takes the key stored in its reference. */
  function Reloaded(ref: ProcessInfoReference, p: ProcessInfo): ProcessInfo {
    p.(processKey := ref.processKey)
  }

  /** The processes registered so far, and the error that stopped loading, if any. */
  datatype Loaded = Loaded(processes: seq<ProcessInfo>, failure: Option<LoadError>)

  /** Loads the references from index `i` on, after `processes` were registered. */
  function LoadFrom(refs: seq<ProcessInfoReference>, load: Loader, i: nat, processes: seq<ProcessInfo>): Loaded
    requires i <= |refs|
    decreases |refs| - i
  {
    if i == |refs| then Loaded(processes, None)
    else match LoadOf(refs[i], load)
      case Failure(e) => Loaded(processes, Some(e))
      case Success(p) => LoadFrom(refs, load, i + 1, processes + [Reloaded(refs[i], p)])
  }

  /** An instance re-linked to its definition, with a fresh variable holder. */
  function Linked(inst: ProcessInstance, p: ProcessInfo): ProcessInstance {
    inst.(processInfo := p, variableHolder := FreshVariableHolder)
  }

  /**
   * Re-links the instances from index `i` on; fails with the index of the
   * first instance whose key no process has.
   */
  function LinkFrom(insts: seq<ProcessInstance>, processes: seq<ProcessInfo>, i: nat): (r: Result<seq<ProcessInstance>, nat>)
    requires i <= |insts|
    decreases |insts| - i
    ensures r.Success? ==> |r.value| == |insts|
    ensures r.Failure? ==> i <= r.error < |insts|
  {
    if i == |insts| then Success(insts)
    else match FindIn(processes, insts[i].processInfo.processKey)
      case None => Failure(i)
      case Some(p) => LinkFrom(insts[i := Linked(insts[i], p)], processes, i + 1)
  }

  /** The state `Unmarshal` returns and the error it reports, if any. */
  datatype Restored = Restored(state: EngineState, err: Option<UnmarshallingError>)

  /**
   * Restoring a parsed wire record into the state `New()` created under
   * the name `name`. Stops at the first definition that fails to load and
   * at the first instance whose key no process has, returning the state as
   * far as it was filled.
   */
  function Restore(m: SerializedEngine, load: Loader, name: string): Restored {
    var s0 := NewState(name);
    var loaded := LoadFrom(m.processReferences, load, 0, s0.processes);
    var s1 := s0.(processes := loaded.processes);
    if loaded.failure.Some? then
      Restored(s1, Some(BpmnEngineUnmarshallingError(CantLoadMessage, loaded.failure)))
    else
      var s2 := if m.messageSubscriptions != [] then s1.(messageSubscriptions := m.messageSubscriptions) else s1;
      var linked := LinkFrom(DecodeInstances(m.processInstances), s2.processes, 0);
      if m.processInstances != [] && linked.Failure? then
        Restored(s2, Some(BpmnEngineUnmarshallingError(MissingKeyMessage(m.processInstances[linked.error].pk), None)))
      else
        var s3 := if m.processInstances != [] then s2.(processInstances := linked.value) else s2;
        var s4 := if m.timers != [] then s3.(timers := m.timers) else s3;
        Restored(s4, None)
  }
}
