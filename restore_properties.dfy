/**
 * What restoring a snapshot guarantees: the outcome on success, on an
 * instance whose process key is unknown, and on a definition that fails
 * to load; that the stored version, name and checksums are not consulted;
 * and that restoring an encoded state gives that state back.
 */
module RestoreProperties {
  import opened Wrappers
  import opened BpmnModel
  import opened Serializing

  /** The definitions of `refs[from..to]`, reloaded and re-keyed, when they all load. */
  function ReloadedRange(refs: seq<ProcessInfoReference>, load: Loader, from: nat, to: nat): (ps: seq<ProcessInfo>)
    requires from <= to <= |refs|
    requires forall k :: from <= k < to ==> LoadOf(refs[k], load).Success?
    ensures |ps| == to - from
  {
    seq(to - from, k requires 0 <= k < to - from => Reloaded(refs[from + k], LoadOf(refs[from + k], load).value))
  }

  predicate AllLoad(m: SerializedEngine, load: Loader) {
    forall k :: 0 <= k < |m.processReferences| ==> LoadOf(m.processReferences[k], load).Success?
  }

  function ReloadedAll(m: SerializedEngine, load: Loader): seq<ProcessInfo>
    requires AllLoad(m, load)
  {
    ReloadedRange(m.processReferences, load, 0, |m.processReferences|)
  }

  /** Reference `j` loads, and `p` is the definition it loads as, with its stored key. */
  predicate LoadedAs(refs: seq<ProcessInfoReference>, load: Loader, j: int, p: ProcessInfo) {
    0 <= j < |refs| && LoadOf(refs[j], load).Success? && p == Reloaded(refs[j], LoadOf(refs[j], load).value)
  }

  /**
   * Loading from index `i` keeps what was registered before, registers the
   * following references one by one, and stops at the first failure.
   */
  lemma {:induction false} LoadFromResult(refs: seq<ProcessInfoReference>, load: Loader, i: nat, ps: seq<ProcessInfo>)
    requires i <= |refs|
    ensures var r := LoadFrom(refs, load, i, ps);
      && |ps| <= |r.processes| <= |ps| + |refs| - i
      && r.processes[..|ps|] == ps
      && (forall k :: |ps| <= k < |r.processes| ==> LoadedAs(refs, load, i + k - |ps|, r.processes[k]))
      && (r.failure.None? ==> |r.processes| == |ps| + |refs| - i)
      && (r.failure.Some? ==>
            i + |r.processes| - |ps| < |refs|
            && LoadOf(refs[i + |r.processes| - |ps|], load) == Failure(r.failure.value))
    decreases |refs| - i
  {
    if i < |refs| && LoadOf(refs[i], load).Success? {
      var p := LoadOf(refs[i], load).value;
      var ps' := ps + [Reloaded(refs[i], p)];
      LoadFromResult(refs, load, i + 1, ps');
      var r := LoadFrom(refs, load, i, ps);
      assert r == LoadFrom(refs, load, i + 1, ps');
      assert r.processes[..|ps'|] == ps';
      assert r.processes[..|ps|] == ps'[..|ps|];
      forall k | |ps| <= k < |r.processes|
        ensures LoadedAs(refs, load, i + k - |ps|, r.processes[k])
      {
        var r' := LoadFrom(refs, load, i + 1, ps');
        if k == |ps| {
          assert i + k - |ps| == i;
          assert r.processes[k] == r.processes[..|ps'|][k] == Reloaded(refs[i], p);
        } else {
          assert i + 1 + k - |ps'| == i + k - |ps|;
          assert r.processes[k] == r'.processes[k];
        }
      }
    }
  }

  /**
   * When reference `f` is the first from `i` on that fails to load, loading
   * registers the references before it and reports its error.
   */
  lemma {:induction false} LoadFromStopsAt(refs: seq<ProcessInfoReference>, load: Loader, i: nat, ps: seq<ProcessInfo>, f: nat)
    requires i <= f < |refs|
    requires LoadOf(refs[f], load).Failure?
    requires forall k :: i <= k < f ==> LoadOf(refs[k], load).Success?
    ensures LoadFrom(refs, load, i, ps) ==
      Loaded(ps + ReloadedRange(refs, load, i, f), Some(LoadOf(refs[f], load).error))
    decreases f - i
  {
    if i < f {
      var head := Reloaded(refs[i], LoadOf(refs[i], load).value);
      LoadFromStopsAt(refs, load, i + 1, ps + [head], f);
      assert [head] + ReloadedRange(refs, load, i + 1, f) == ReloadedRange(refs, load, i, f);
      assert ps + [head] + ReloadedRange(refs, load, i + 1, f) == ps + ReloadedRange(refs, load, i, f);
    } else {
      assert ps + ReloadedRange(refs, load, i, f) == ps;
    }
  }

  /**
   * Linking from index `i` leaves the instances before `i` alone and
   * re-links each later one to the first process with its key, or fails
   * at the first later instance whose key no process has.
   */
  lemma {:induction false} LinkFromResult(insts: seq<ProcessInstance>, ps: seq<ProcessInfo>, i: nat)
    requires i <= |insts|
    ensures LinkFrom(insts, ps, i).Success? ==>
      var r := LinkFrom(insts, ps, i).value;
      && (forall k :: 0 <= k < i ==> r[k] == insts[k])
      && forall k :: i <= k < |insts| ==>
           FindIn(ps, insts[k].processInfo.processKey).Some?
           && r[k] == Linked(insts[k], FindIn(ps, insts[k].processInfo.processKey).value)
    ensures LinkFrom(insts, ps, i).Failure? ==>
      var f := LinkFrom(insts, ps, i).error;
      && FindIn(ps, insts[f].processInfo.processKey).None?
      && forall k :: i <= k < f ==> FindIn(ps, insts[k].processInfo.processKey).Some?
    decreases |insts| - i
  {
    if i < |insts| {
      var found := FindIn(ps, insts[i].processInfo.processKey);
      if found.Some? {
        var insts' := insts[i := Linked(insts[i], found.value)];
        LinkFromResult(insts', ps, i + 1);
        assert LinkFrom(insts, ps, i) == LinkFrom(insts', ps, i + 1);
        forall k | i < k < |insts|
          ensures insts'[k].processInfo.processKey == insts[k].processInfo.processKey
        {
        }
      }
    }
  }

  /** Loading every reference without a failure registers exactly the reloaded references. */
  lemma LoadedAll(m: SerializedEngine, load: Loader)
    requires LoadFrom(m.processReferences, load, 0, []).failure.None?
    ensures AllLoad(m, load)
    ensures LoadFrom(m.processReferences, load, 0, []).processes == ReloadedAll(m, load)
  {
    var refs := m.processReferences;
    LoadFromResult(refs, load, 0, []);
    var loaded := LoadFrom(refs, load, 0, []);
    forall k | 0 <= k < |refs| ensures LoadOf(refs[k], load).Success? {
      assert loaded.processes[k] in loaded.processes;
    }
  }

  /** Restoring succeeds exactly when every definition loads and every instance's key is found. */
  lemma RestoreSucceedsIff(m: SerializedEngine, load: Loader, name: string)
    ensures Restore(m, load, name).err.None? <==>
      AllLoad(m, load)
      && forall i :: 0 <= i < |m.processInstances| ==> FindIn(ReloadedAll(m, load), m.processInstances[i].pk).Some?
  {
    var refs := m.processReferences;
    LoadFromResult(refs, load, 0, []);
    var loaded := LoadFrom(refs, load, 0, []);
    if loaded.failure.None? {
      LoadedAll(m, load);
      var insts := DecodeInstances(m.processInstances);
      LinkFromResult(insts, loaded.processes, 0);
      if LinkFrom(insts, loaded.processes, 0).Failure? {
        var f := LinkFrom(insts, loaded.processes, 0).error;
        assert insts[f].processInfo.processKey == m.processInstances[f].pk;
      } else {
        forall i | 0 <= i < |m.processInstances|
          ensures FindIn(ReloadedAll(m, load), m.processInstances[i].pk).Some?
        {
          assert insts[i].processInfo.processKey == m.processInstances[i].pk;
        }
      }
    }
  }

  /**
   * On success the definitions are the reloaded references with their
   * stored keys; each instance, in stored order, is re-linked to the first
   * definition with its stored key and gets a fresh variable holder; the
   * subscriptions and timers are the stored ones; the name is the one
   * `New()` generated, not the stored one.
   */
  lemma RestoredOnSuccess(m: SerializedEngine, load: Loader, name: string)
    requires Restore(m, load, name).err.None?
    ensures AllLoad(m, load)
    ensures var s := Restore(m, load, name).state;
      && s.name == name
      && s.processes == ReloadedAll(m, load)
      && |s.processInstances| == |m.processInstances|
      && (forall i :: 0 <= i < |m.processInstances| ==>
            FindIn(s.processes, m.processInstances[i].pk).Some?
            && s.processInstances[i].processInfo == FindIn(s.processes, m.processInstances[i].pk).value
            && s.processInstances[i].processInfo.processKey == m.processInstances[i].pk
            && s.processInstances[i].variableHolder == FreshVariableHolder
            && s.processInstances[i].fields == m.processInstances[i].fields)
      && s.messageSubscriptions == m.messageSubscriptions
      && s.timers == m.timers
  {
    var refs := m.processReferences;
    LoadFromResult(refs, load, 0, []);
    var loaded := LoadFrom(refs, load, 0, []);
    LoadedAll(m, load);
    var insts := DecodeInstances(m.processInstances);
    LinkFromResult(insts, loaded.processes, 0);
    forall i | 0 <= i < |m.processInstances|
      ensures insts[i].processInfo.processKey == m.processInstances[i].pk
      ensures insts[i].fields == m.processInstances[i].fields
    {
    }
  }

  /**
   * When every definition loads and instance `f` is the first whose key no
   * process has, restoring reports that key; the definitions and the
   * subscriptions are restored, the instances and timers are left empty.
   */
  lemma RestoreMissingKey(m: SerializedEngine, load: Loader, name: string, f: nat)
    requires AllLoad(m, load)
    requires f < |m.processInstances|
    requires FindIn(ReloadedAll(m, load), m.processInstances[f].pk).None?
    requires forall k :: 0 <= k < f ==> FindIn(ReloadedAll(m, load), m.processInstances[k].pk).Some?
    ensures Restore(m, load, name) ==
      Restored(EngineState(name, ReloadedAll(m, load), [], m.messageSubscriptions, []),
               Some(BpmnEngineUnmarshallingError(MissingKeyMessage(m.processInstances[f].pk), None)))
  {
    var refs := m.processReferences;
    LoadFromResult(refs, load, 0, []);
    var loaded := LoadFrom(refs, load, 0, []);
    if loaded.failure.Some? {
      assert false;
    }
    LoadedAll(m, load);
    var insts := DecodeInstances(m.processInstances);
    LinkFromResult(insts, loaded.processes, 0);
    var linked := LinkFrom(insts, loaded.processes, 0);
    forall k | 0 <= k < |insts|
      ensures insts[k].processInfo.processKey == m.processInstances[k].pk
    {
    }
    assert linked.Failure?;
    assert linked.error == f;
  }

  /**
   * When definition `f` is the first that fails to load, restoring reports
   * the loader's error; only the definitions before it are registered and
   * nothing else is restored.
   */
  lemma RestoreLoadFailure(m: SerializedEngine, load: Loader, name: string, f: nat)
    requires f < |m.processReferences|
    requires LoadOf(m.processReferences[f], load).Failure?
    requires forall k :: 0 <= k < f ==> LoadOf(m.processReferences[k], load).Success?
    ensures Restore(m, load, name) ==
      Restored(EngineState(name, ReloadedRange(m.processReferences, load, 0, f), [], [], []),
               Some(BpmnEngineUnmarshallingError(CantLoadMessage, Some(LoadOf(m.processReferences[f], load).error))))
  {
    var refs := m.processReferences;
    LoadFromStopsAt(refs, load, 0, [], f);
  }

  /** The references agree on everything loading reads: the data, the resource name and the key. */
  predicate SameLoadInputs(a: seq<ProcessInfoReference>, b: seq<ProcessInfoReference>) {
    |a| == |b|
    && forall k :: 0 <= k < |a| ==>
         a[k].bpmnData == b[k].bpmnData && a[k].bpmnResourceName == b[k].bpmnResourceName
         && a[k].processKey == b[k].processKey
  }

  lemma {:induction false} LoadFromReadsOnlyInputs(a: seq<ProcessInfoReference>, b: seq<ProcessInfoReference>, load: Loader, i: nat, ps: seq<ProcessInfo>)
    requires SameLoadInputs(a, b)
    requires i <= |a|
    ensures LoadFrom(a, load, i, ps) == LoadFrom(b, load, i, ps)
    decreases |a| - i
  {
    if i < |a| {
      assert LoadOf(a[i], load) == LoadOf(b[i], load);
      if LoadOf(a[i], load).Success? {
        var p := LoadOf(a[i], load).value;
        assert Reloaded(a[i], p) == Reloaded(b[i], p);
        LoadFromReadsOnlyInputs(a, b, load, i + 1, ps + [Reloaded(a[i], p)]);
      }
    }
  }

  /**
   * Restoring does not consult the version tag, the stored engine name,
   * the stored BPMN process ids or the stored checksums: records that
   * differ only there restore to the same state and the same error.
   */
  lemma RestoreIgnoresVersionAndChecksums(m: SerializedEngine, m': SerializedEngine, load: Loader, name: string)
    requires SameLoadInputs(m.processReferences, m'.processReferences)
    requires m.processInstances == m'.processInstances
    requires m.messageSubscriptions == m'.messageSubscriptions
    requires m.timers == m'.timers
    ensures Restore(m, load, name) == Restore(m', load, name)
  {
    LoadFromReadsOnlyInputs(m.processReferences, m'.processReferences, load, 0, []);
  }

  /** Loading `p`'s stored data gives `p` back, up to its key. */
  predicate Reloads(load: Loader, p: ProcessInfo) {
    load(p.bpmnData, p.bpmnResourceName).Success?
    && load(p.bpmnData, p.bpmnResourceName).value.(processKey := p.processKey) == p
  }

  function WithFreshHolders(insts: seq<ProcessInstance>): (r: seq<ProcessInstance>)
    ensures |r| == |insts|
  {
    seq(|insts|, i requires 0 <= i < |insts| => insts[i].(variableHolder := FreshVariableHolder))
  }

  /**
   * Restoring an encoded state gives that state back, with fresh variable
   * holders and the name `New()` generated, provided the loader reproduces
   * every stored definition and every instance runs the first definition
   * registered under its key.
   */
  lemma RestoreOfEncode(s: EngineState, load: Loader, name: string)
    requires forall p :: p in s.processes ==> Reloads(load, p)
    requires forall inst :: inst in s.processInstances ==>
      FindIn(s.processes, inst.processInfo.processKey) == Some(inst.processInfo)
    ensures Restore(Encode(s), load, name) ==
      Restored(s.(name := name, processInstances := WithFreshHolders(s.processInstances)), None)
  {
    var m := Encode(s);
    var refs := m.processReferences;
    forall k | 0 <= k < |refs| ensures LoadOf(refs[k], load).Success? {
      assert s.processes[k] in s.processes;
    }
    assert ReloadedAll(m, load) == s.processes by {
      forall k | 0 <= k < |refs| ensures ReloadedAll(m, load)[k] == s.processes[k] {
        assert s.processes[k] in s.processes;
      }
    }
    forall i | 0 <= i < |m.processInstances|
      ensures FindIn(ReloadedAll(m, load), m.processInstances[i].pk) == Some(s.processInstances[i].processInfo)
    {
      assert s.processInstances[i] in s.processInstances;
    }
    RestoreSucceedsIff(m, load, name);
    RestoredOnSuccess(m, load, name);
    var r := Restore(m, load, name).state;
    assert r.processInstances == WithFreshHolders(s.processInstances);
  }
}
