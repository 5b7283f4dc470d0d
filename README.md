# BPMN engine snapshot codec, modelled in Dafny

This project models the snapshot codec of the lib-bpmn-engine BPMN workflow
engine (`pkg/bpmn_engine/serializing.go`). The codec turns a
`BpmnEngineState` into a versioned wire record and back. The state holds the
engine's name, its registered process definitions, its process instances,
its message subscriptions and its timers.

- **Marshal** stamps the record with `CurrentSerializerVersion` (1). It
  copies the name, the subscriptions and the timers unchanged. It writes one
  reference record per registered process and one instance record per
  process instance.
- **createReferences** builds the reference records in a loop. Each one
  carries the process id, the key, the raw data, the resource name and the
  checksum. The checksum is written as a base16 string (section 8 of RFC
  4648) in the lowercase alphabet of Go's `encoding/hex`.
- **The instance key adapter** (`MarshalJSON`/`UnmarshalJSON`) writes an
  instance's owning process as its key `pk`. On decoding, it sets the owning
  process to a stub that holds only that key.
- **Unmarshal** starts from the state `New()` creates. It reloads each
  stored definition, forces its key to the stored key, and registers it. It
  then sets the subscriptions. It re-links every instance to the first
  registered definition with its key (`findProcess`) and gives each a fresh
  variable holder. Last, it sets the timers. It stops at the first definition
  that fails to load or the first instance whose key is unknown. In both
  cases it returns the partly filled state and a
  `BpmnEngineUnmarshallingError`.

Files and modules:

- `wrappers.dfy` (`Wrappers`): `Option` and `Result`.
- `hex.dfy` (`Hex`): Go's `hex.EncodeToString` and `hex.DecodeString`. It
  proves that each is the inverse of the other on lowercase strings.
- `decimal.dfy` (`Decimal`): the `%d` rendering of a key in the
  missing-key message, and a parser that reads it back.
- `model.dfy` (`BpmnModel`): the engine's entities as values, and `FindIn`.
  `FindIn` specifies the first-match lookup.
- `serializing.dfy` (`Serializing`): the wire records, the key adapter,
  `Encode` (the record `Marshal` builds), and `Restore`. `Restore` is the
  specification of `Unmarshal` as a function: it gives the restored state and
  the error.
- `restore_properties.dfy` (`RestoreProperties`): lemmas about `Restore`.
  They cover success, a missing key, a failing load, which inputs are
  ignored, and the encode-then-restore round trip.
- `engine.dfy` (`Engine`): the `BpmnEngineState` class and its methods. Each
  loop of the source is a loop here, proved against the functions above.

How the code and the design description differ. The model follows the
code in each case:

- The design asks decoding to check the version tag and to recompute
  checksums. The code does neither. `RestoreIgnoresVersionAndChecksums`
  states this.
- The design asks decoding to go on past a definition whose checksum is bad.
  The code stops at the first definition that fails to load.
- The design treats the engine name as part of the restored state. The code
  never reads the stored name back: the restored engine keeps the name that
  `New()` generated. `RestoredOnSuccess` and `RestoreOfEncode` state this.
- Line 83 sets the key of the loaded process before checking the load error
  at line 84. On a failed load this dereferences a nil process. The model
  returns on a failed load before touching any key. The second `return` at
  line 90 can never run, so the model has no counterpart for it.

## Model

| member | source | states |
|---|---|---|
| `Engine.BpmnEngineState.Marshal` | pkg/bpmn_engine/serializing.go:53-61 | The record is stamped with version 1. Name, subscriptions and timers are copied unchanged. There is one reference per process and one instance record per instance. The record equals `Encode` of the state. |
| `Engine.CreateReferences` | pkg/bpmn_engine/serializing.go:117-129 | Exactly one reference per process, in the same order. The i-th reference has the i-th process's id, key, data and resource name, and its checksum in lowercase base16. |
| `Serializing.References` | pkg/bpmn_engine/serializing.go:117-129 | The reference list of a process list has the same length. |
| `Serializing.ReferenceChecksum` | pkg/bpmn_engine/serializing.go:124 | A reference's checksum string is twice as long as the checksum bytes. It holds only `[0-9a-f]` and hex-decodes back to those bytes. |
| `Hex.EncodeToString` | pkg/bpmn_engine/serializing.go:124 | The encoding is twice as long as the input and uses only the lowercase alphabet. |
| `Hex.DigitValue` | pkg/bpmn_engine/serializing.go:124 | A digit's value is below 16. Each lowercase digit decodes to the nibble it stands for. |
| `Hex.DecodeString` | pkg/bpmn_engine/serializing.go:124 | A successful decode is half the input's length. A length error occurs only on odd-length input. |
| `Hex.DigitOfNibble` | pkg/bpmn_engine/serializing.go:124 | Each emitted digit decodes back to its nibble. |
| `Hex.DecodeOfEncode` | pkg/bpmn_engine/serializing.go:124 | Decoding the encoding of any bytes gives the same bytes back. |
| `Hex.EncodeOfDecode` | pkg/bpmn_engine/serializing.go:124 | A lowercase hex string that decodes to some bytes is exactly the encoding of those bytes. |
| `Hex.EncodeToStringIff` | pkg/bpmn_engine/serializing.go:124 | The encoding of `b` equals `s` if and only if `s` is lowercase hex and decodes to `b`. |
| `Serializing.EncodeInstance` | pkg/bpmn_engine/serializing.go:35-40 | The instance record's `pk` is the key of the instance's process. |
| `Serializing.DecodeInstance` | pkg/bpmn_engine/serializing.go:42-51 | The decoded instance's process is a stub holding only the stored key. Re-encoding it gives back the same record. |
| `Serializing.InstanceKeyRoundTrip` | pkg/bpmn_engine/serializing.go:35-51 | Encoding then decoding an instance keeps its process key. Everything else stays the same except that the process becomes the stub. |
| `Serializing.EncodeInstances` | pkg/bpmn_engine/serializing.go:59 | One record per instance. |
| `Serializing.DecodeInstances` | pkg/bpmn_engine/serializing.go:74 | One instance per record. |
| `BpmnModel.IndexOfKey` | pkg/bpmn_engine/serializing.go:132-137 | The scan from a start index returns the first index with the key. It returns nothing only when no later process has the key. |
| `BpmnModel.FindIn` | pkg/bpmn_engine/serializing.go:131-139 | The lookup is nothing exactly when no process has the key. Otherwise it is the earliest process with that key. |
| `Engine.BpmnEngineState.FindProcess` | pkg/bpmn_engine/serializing.go:131-139 | The index loop returns the first process with the key, or nothing exactly when no process has it. It agrees with `FindIn`. |
| `Decimal.DigitChar` | pkg/bpmn_engine/serializing.go:101 | A digit character is a decimal digit of the given value. |
| `Decimal.FormatNat` | pkg/bpmn_engine/serializing.go:101 | The rendering is a non-empty run of decimal digits with no leading zero. |
| `Decimal.ParseOfFormatNat` | pkg/bpmn_engine/serializing.go:101 | Parsing the decimal digits of `n` gives `n`. |
| `Decimal.ParseOfFormatInt` | pkg/bpmn_engine/serializing.go:101 | The `%d` rendering of a key parses back to that key, so the rendering determines the key. |
| `Serializing.MissingKeyMessage` | pkg/bpmn_engine/serializing.go:101 | The message is the fixed prefix and suffix around a part that parses back to the missing key. |
| `Serializing.LinkFrom` | pkg/bpmn_engine/serializing.go:98-108 | Linking keeps the number of instances. A failure names an instance index in range. |
| `RestoreProperties.ReloadedRange` | pkg/bpmn_engine/serializing.go:80-83 | A range of reloaded references has one definition per reference. |
| `RestoreProperties.LoadFromResult` | pkg/bpmn_engine/serializing.go:79-92 | Loading keeps the definitions already registered. It registers each later reference's loaded definition under the stored key, in order. It stops exactly at the first failure and reports that reference's error. |
| `RestoreProperties.LoadFromStopsAt` | pkg/bpmn_engine/serializing.go:79-91 | When reference `f` is the first to fail, loading registers exactly the references before it and reports `f`'s error. |
| `RestoreProperties.LoadedAll` | pkg/bpmn_engine/serializing.go:79-92 | Without a failure, every reference loads and the registered definitions are exactly the reloaded references. |
| `RestoreProperties.LinkFromResult` | pkg/bpmn_engine/serializing.go:97-108 | Each instance is re-linked in place to the first process with its key and gets a fresh holder. Linking fails at the first instance whose key no process has. |
| `RestoreProperties.RestoreSucceedsIff` | pkg/bpmn_engine/serializing.go:72-115 | Restoring reports no error if and only if every definition loads and every instance's key is found. |
| `RestoreProperties.RestoredOnSuccess` | pkg/bpmn_engine/serializing.go:94-114 | On success, the definitions are the reloaded references with their stored keys. The instances keep their order. Each instance's process is the first definition with its stored key, and its holder is fresh. Subscriptions and timers are the stored lists. The name is the one `New()` generated. |
| `RestoreProperties.RestoreMissingKey` | pkg/bpmn_engine/serializing.go:94-105 | When instance `f` is the first with an unknown key, the error message names that key and has no cause. The subscriptions are set. Instances and timers keep `New()`'s empty defaults. |
| `RestoreProperties.RestoreLoadFailure` | pkg/bpmn_engine/serializing.go:79-93 | When definition `f` is the first to fail loading, the error wraps the loader's error. Only the definitions before `f` are registered. Subscriptions, instances and timers stay empty. |
| `RestoreProperties.LoadFromReadsOnlyInputs` | pkg/bpmn_engine/serializing.go:80-83 | Loading reads only a reference's data, resource name and key. |
| `RestoreProperties.RestoreIgnoresVersionAndChecksums` | pkg/bpmn_engine/serializing.go:72-115 | The outcome does not depend on the version tag, the stored name, the process ids or the checksums. |
| `RestoreProperties.WithFreshHolders` | pkg/bpmn_engine/serializing.go:107 | Resetting the holders keeps the number of instances. |
| `RestoreProperties.RestoreOfEncode` | pkg/bpmn_engine/serializing.go:53-115 | Suppose the loader reproduces every stored definition and each instance runs the first definition with its key. Then restoring an encoded state gives that state back with fresh holders and the generated name, and no error. |
| `Engine.BpmnEngineState.New` | pkg/bpmn_engine/serializing.go:78 | A new engine has the generated name and empty lists. |
| `Engine.LoadProcesses` | pkg/bpmn_engine/serializing.go:79-93 | The loop registers what `LoadFrom` specifies and reports its failure. The rest of the state is unchanged. |
| `Engine.LinkInstances` | pkg/bpmn_engine/serializing.go:97-108 | The loop over the instances computes what `LinkFrom` specifies, looking each key up with `FindProcess`. |
| `Engine.Unmarshal` | pkg/bpmn_engine/serializing.go:72-115 | A parse failure gives no engine and a `Malformed` error. Otherwise the result is a fresh engine whose state and error are those `Restore` specifies. |

## Left out

- The JSON text layer (`encoding/json`, struct tags, `omitempty`) is not modelled. The wire form is the record the encoder is given and the decoder fills. An omitted list and an empty one are the same value here, so the source's nil checks become emptiness checks with the same outcome.
- Engine.BpmnEngineState.Marshal: cannot fail, so the `panic` of lines 62-65 on a `json.Marshal` error has no counterpart. On a value record the encoder has nothing that can fail.
- Engine.Unmarshal: takes the outcome of the JSON parse as a parameter. A parse failure, a `panic` at lines 75-77, becomes a `Malformed` error with no engine.
- `decodeAndDecompress` and `state.load` are one function parameter that yields a definition or fails. The model registers every loaded definition by appending it. The loader's own behaviour is not part of this model, in particular returning an already-registered definition with the same checksum.
- `var_holder.New(nil, nil)` is modelled only as an empty holder with no parent.
- `New()` is not part of this model beyond its result: the name it generates (taken as a parameter) and empty lists.
- Instances hold a copy of their process as a value, not a pointer shared with the registry. Later updates through that shared pointer are not captured.
- `ProcessInfo` has only the five fields the codec touches. Its other fields (version, parsed definitions) are left out. The checksum is a byte sequence of any length, not Go's fixed-size array.
- An instance's other fields, message subscriptions and timers are opaque values that are copied unchanged.
- Keys are 64-bit integers that are only compared, so there is no arithmetic to wrap.
- `handleUserTask` in `pkg/bpmn_engine/engine_usertasks.go` is not part of this model. It only delegates to `handleServiceTask`, which is not part of this model either.
- `docs/examples/timers/timers_println.go` prints timers to the console and is not part of this model.
