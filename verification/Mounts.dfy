// From op results to container mounts: getResultMounts and registerResultIDs of
// pkg/buildkit/controller.go, and ExecContainer of pkg/buildkit/exec.go.
module Mounts {
  import opened Common

  // What Sys() of a result holds.
  datatype OpResult = WorkerRef(id: string) | Foreign

  // A nil interface value is None.
  type Slot = Option<OpResult>

  // One mount of a RUN step; `opts` stands for the fields that are only copied.
  datatype MountSpec = MountSpec(input: int, output: int, dest: string, opts: string)

  datatype Op = ExecOp(mounts: seq<MountSpec>) | OtherOp

  // ---- getResultMounts -----------------------------------------------------------

  function InputSlot(m: MountSpec, inputs: seq<OpResult>): Slot {
    if 0 <= m.input < |inputs| then Some(inputs[m.input]) else None
  }

  // The output if it is in range, else the input if that is, else nothing.
  function MountSlot(m: MountSpec, inputs: seq<OpResult>, outputs: seq<OpResult>): Slot {
    if 0 <= m.output < |outputs| then Some(outputs[m.output]) else InputSlot(m, inputs)
  }

  ghost predicate Aligned(op: Op, inputs: seq<OpResult>, outputs: seq<OpResult>, execInputs: seq<Slot>,
                          execMounts: seq<Slot>)
    requires op.ExecOp?
  {
    && |execInputs| == |execMounts| == |op.mounts|
    && (forall i :: 0 <= i < |op.mounts| ==> execInputs[i] == InputSlot(op.mounts[i], inputs))
    && (forall i :: 0 <= i < |op.mounts| ==> execMounts[i] == MountSlot(op.mounts[i], inputs, outputs))
  }

  method GetResultMounts(op: Op, inputs: seq<OpResult>, outputs: seq<OpResult>)
    returns (execInputs: seq<Slot>, execMounts: seq<Slot>)
    ensures op.ExecOp? ==> Aligned(op, inputs, outputs, execInputs, execMounts)
    // the in-range output, else the in-range input, else nothing
    ensures forall i :: op.ExecOp? && 0 <= i < |op.mounts| ==>
              var m := op.mounts[i];
              execMounts[i] == if 0 <= m.output < |outputs| then Some(outputs[m.output]) else execInputs[i]
    ensures forall i :: op.ExecOp? && 0 <= i < |op.mounts| ==>
              var m := op.mounts[i];
              execInputs[i] == if 0 <= m.input < |inputs| then Some(inputs[m.input]) else None
    ensures op.OtherOp? ==> execInputs == [] && execMounts == if |outputs| == 1 then [Some(outputs[0])] else []
  {
    if op.OtherOp? {
      if |outputs| == 1 {
        return [], [Some(outputs[0])];
      }
      return [], [];
    }
    var n := |op.mounts|;
    var ins := new Slot[n](_ => None);
    for i := 0 to n
      invariant forall j :: 0 <= j < i ==> ins[j] == InputSlot(op.mounts[j], inputs)
      invariant forall j :: i <= j < n ==> ins[j] == None
    {
      var m := op.mounts[i];
      if m.input < 0 {
        continue;
      }
      if |inputs| <= m.input {
        continue;
      }
      ins[i] := Some(inputs[m.input]);
    }
    var outs := new Slot[n](i requires 0 <= i < n reads ins => ins[i]);
    for i := 0 to n
      invariant forall j :: 0 <= j < i ==> outs[j] == MountSlot(op.mounts[j], inputs, outputs)
      invariant forall j :: i <= j < n ==> outs[j] == InputSlot(op.mounts[j], inputs)
      invariant forall j :: 0 <= j < n ==> ins[j] == InputSlot(op.mounts[j], inputs)
    {
      var m := op.mounts[i];
      if m.output < 0 {
        continue;
      }
      if |outputs| <= m.output {
        continue;
      }
      outs[i] := Some(outputs[m.output]);
    }
    execInputs, execMounts := ins[..], outs[..];
  }

  // ---- registerResultIDs ------------------------------------------------------------

  predicate AllWorkerRefs(results: seq<Slot>) {
    forall i :: 0 <= i < |results| ==> results[i] != Some(Foreign)
  }

  // An empty slot has the empty id.
  function IdOf(slot: Slot): string {
    match slot
    case Some(WorkerRef(id)) => id
    case _ => ""
  }

  function IdsOf(results: seq<Slot>): seq<string> {
    seq(|results|, i requires 0 <= i < |results| => IdOf(results[i]))
  }

  // The id resolves to its own reference, or as it did before.
  predicate ResolvesFrom(before: map<string, OpResult>, after: map<string, OpResult>, id: string) {
    id in after && (after[id] == WorkerRef(id) || (id in before && after[id] == before[id]))
  }

  class WorkerWrapper {
    // ids that WorkerRefByID resolves
    var workerRefByID: map<string, OpResult>

    constructor ()
      ensures workerRefByID == map[]
    {
      workerRefByID := map[];
    }

    // Every id handed out resolves to the result it came from, earlier ids stay resolvable,
    // and it fails exactly when some result is no worker reference.
    method RegisterResultIDs(results: seq<Slot>) returns (r: Result<seq<string>, string>)
      modifies this
      ensures r.Ok? <==> AllWorkerRefs(results)
      ensures r.Ok? ==> r.value == IdsOf(results)
      ensures r.Ok? ==> forall i :: 0 <= i < |results| && results[i].Some? ==>
                          IdOf(results[i]) in workerRefByID && workerRefByID[IdOf(results[i])] == results[i].value
      ensures forall id :: id in old(workerRefByID) ==> id in workerRefByID
      ensures forall id :: id in workerRefByID ==> ResolvesFrom(old(workerRefByID), workerRefByID, id)
    {
      var ids := new string[|results|](_ => "");
      for i := 0 to |results|
        invariant forall j :: 0 <= j < i ==> results[j] != Some(Foreign) && ids[j] == IdOf(results[j])
        invariant forall j :: i <= j < |results| ==> ids[j] == ""
        invariant forall j :: 0 <= j < i && results[j].Some? ==>
                    IdOf(results[j]) in workerRefByID && workerRefByID[IdOf(results[j])] == results[j].value
        invariant forall id :: id in old(workerRefByID) ==> id in workerRefByID
        invariant forall id :: id in workerRefByID ==> ResolvesFrom(old(workerRefByID), workerRefByID, id)
      {
        if results[i].None? {
          continue;
        }
        if results[i].value.Foreign? {
          return Err("unexpected type for result");
        }
        ids[i] := results[i].value.id;
        workerRefByID := workerRefByID[results[i].value.id := results[i].value];
      }
      r := Ok(ids[..]);
    }
  }

  // ---- the status of a finished op -----------------------------------------------------

  // What the wrapped Exec returned: outputs, an ExecError with its own lists, or another error.
  datatype ExecOutcome =
    | Succeeded(outputs: seq<OpResult>)
    | ExecFailed(inputs: seq<Slot>, mounts: seq<Slot>)
    | OtherFailure

  datatype Info = Info(op: Op, inputIDs: seq<string>, mountIDs: seq<string>)

  // How long the two id lists of the status are.
  function IdLengths(op: Op, outcome: ExecOutcome): (nat, nat) {
    match outcome
    case Succeeded(outputs) =>
      if op.ExecOp? then (|op.mounts|, |op.mounts|) else (0, if |outputs| == 1 then 1 else 0)
    case ExecFailed(ins, mounts) => (|ins|, |mounts|)
    case OtherFailure => (0, 0)
  }

  // Every result the status refers to is a worker reference.
  ghost predicate Registrable(op: Op, inputs: seq<OpResult>, outcome: ExecOutcome) {
    match outcome
    case Succeeded(outputs) =>
      if op.ExecOp? then
        forall i :: 0 <= i < |op.mounts| ==>
          && InputSlot(op.mounts[i], inputs) != Some(Foreign)
          && MountSlot(op.mounts[i], inputs, outputs) != Some(Foreign)
      else outputs != [Foreign]
    case ExecFailed(ins, mounts) => AllWorkerRefs(ins) && AllWorkerRefs(mounts)
    case OtherFailure => true
  }

  // debugOpWrapper.Exec up to the point where the status is sent.
  method MakeInfo(w: WorkerWrapper, op: Op, inputs: seq<OpResult>, outcome: ExecOutcome)
    returns (r: Result<Info, string>)
    modifies w
    ensures r.Ok? <==> Registrable(op, inputs, outcome)
    ensures Foreign !in inputs && (outcome.Succeeded? ==> Foreign !in outcome.outputs) && !outcome.ExecFailed? ==> r.Ok?
    ensures r.Ok? ==> r.value.op == op && (|r.value.inputIDs|, |r.value.mountIDs|) == IdLengths(op, outcome)
    ensures r.Ok? && outcome.Succeeded? && op.ExecOp? ==>
              forall i :: 0 <= i < |op.mounts| ==>
                && r.value.inputIDs[i] == IdOf(InputSlot(op.mounts[i], inputs))
                && r.value.mountIDs[i] == IdOf(MountSlot(op.mounts[i], inputs, outcome.outputs))
    ensures r.Ok? && outcome.ExecFailed? ==>
              r.value.inputIDs == IdsOf(outcome.inputs) && r.value.mountIDs == IdsOf(outcome.mounts)
    // every id in the status resolves
    ensures r.Ok? ==> forall id :: id in r.value.inputIDs + r.value.mountIDs && id != "" ==> id in w.workerRefByID
  {
    var execInputs: seq<Slot>, execMounts: seq<Slot> := [], [];
    match outcome {
      case Succeeded(outputs) =>
        execInputs, execMounts := GetResultMounts(op, inputs, outputs);
        assert op.OtherOp? && |outputs| == 1 ==> outputs == [outputs[0]] && execMounts[0] == Some(outputs[0]);
      case ExecFailed(ins, mounts) => execInputs, execMounts := ins, mounts;
      case OtherFailure =>
    }
    var inputIDs := w.RegisterResultIDs(execInputs);
    if inputIDs.Err? {
      return Err(inputIDs.error);
    }
    var mountIDs := w.RegisterResultIDs(execMounts);
    if mountIDs.Err? {
      return Err(mountIDs.error);
    }
    r := Ok(Info(op, inputIDs.value, mountIDs.value));
  }

  // ---- ExecContainer -----------------------------------------------------------------------

  // initState is --init-state; image is the debugger image, mounted at the root when given.
  datatype ExecConfig = ExecConfig(
    info: Info,
    initState: bool,
    image: Option<string>,
    mountroot: string,
    tty: bool,
    noSetRaw: bool,
    watchSignal: bool)

  datatype ContainerMount = ContainerMount(dest: string, resultID: string, opts: string) | ImageMount(image: string)

  // Which of the calls into the runtime fail.
  datatype Runtime = Runtime(newContainerFails: bool, startFails: bool, setRawFails: bool)

  datatype Resource = Container | RawConsole | SignalWatch

  datatype ExecResult =
    | Crashed                                                        // index out of range
    | Refused                                                        // one rootfs mount must be specified
    | Failed(released: seq<Resource>)
    | Running(mounts: seq<ContainerMount>, onClose: seq<Resource>)   // onClose is the returned cleanup

  function ChosenIDs(cfg: ExecConfig): seq<string> {
    if cfg.initState then cfg.info.inputIDs else cfg.info.mountIDs
  }

  function StepMounts(cfg: ExecConfig): seq<ContainerMount>
    requires cfg.info.op.ExecOp? ==> |ChosenIDs(cfg)| >= |cfg.info.op.mounts|
    requires cfg.info.op.OtherOp? ==> |ChosenIDs(cfg)| == 1
  {
    match cfg.info.op
    case ExecOp(mounts) =>
      seq(|mounts|, i requires 0 <= i < |mounts| => ContainerMount(mounts[i].dest, ChosenIDs(cfg)[i], mounts[i].opts))
    case OtherOp => [ContainerMount("/", ChosenIDs(cfg)[0], "bind")]
  }

  function UnderRoot(m: ContainerMount, root: string, join: (string, string) -> string): ContainerMount {
    if m.ContainerMount? then m.(dest := join(root, m.dest)) else m
  }

  // With a debugger image its root comes first and the step's mounts move below the mount root.
  function AllMounts(cfg: ExecConfig, join: (string, string) -> string): seq<ContainerMount>
    requires cfg.info.op.ExecOp? ==> |ChosenIDs(cfg)| >= |cfg.info.op.mounts|
    requires cfg.info.op.OtherOp? ==> |ChosenIDs(cfg)| == 1
  {
    var own := StepMounts(cfg);
    match cfg.image
    case None => own
    case Some(image) =>
      [ImageMount(image)] + seq(|own|, i requires 0 <= i < |own| => UnderRoot(own[i], cfg.mountroot, join))
  }

  function Reverse<T>(s: seq<T>): seq<T> {
    if s == [] then [] else Reverse(s[1..]) + [s[0]]
  }

  method RunCleanups(cleanups: seq<Resource>) returns (released: seq<Resource>)
    ensures released == Reverse(cleanups)
  {
    released := [];
    var i := |cleanups|;
    assert cleanups[..i] == cleanups;
    while i > 0
      invariant 0 <= i <= |cleanups|
      invariant released + Reverse(cleanups[..i]) == Reverse(cleanups)
    {
      i := i - 1;
      ReverseSnoc(cleanups[..i], cleanups[i]);
      assert cleanups[..i + 1] == cleanups[..i] + [cleanups[i]];
      released := released + [cleanups[i]];
    }
  }

  lemma {:induction false} ReverseSnoc<T>(s: seq<T>, x: T)
    ensures Reverse(s + [x]) == [x] + Reverse(s)
  {
    if s == [] {
    } else {
      ReverseSnoc(s[1..], x);
      assert (s + [x])[1..] == s[1..] + [x];
    }
  }

  predicate OutOfRange(cfg: ExecConfig) {
    cfg.info.op.ExecOp? && |ChosenIDs(cfg)| < |cfg.info.op.mounts|
  }

  predicate NoSingleRootfs(cfg: ExecConfig) {
    cfg.info.op.OtherOp? && |ChosenIDs(cfg)| != 1
  }

  predicate SetsRaw(cfg: ExecConfig) {
    cfg.tty && !cfg.noSetRaw
  }

  predicate RuntimeFails(cfg: ExecConfig, rt: Runtime) {
    rt.newContainerFails || rt.startFails || (SetsRaw(cfg) && rt.setRawFails)
  }

  // What the runtime hands out before the call fails or the container runs, in order.
  function Acquired(cfg: ExecConfig, rt: Runtime): seq<Resource> {
    if rt.newContainerFails then []
    else if RuntimeFails(cfg, rt) then [Container]
    else [Container] + (if SetsRaw(cfg) then [RawConsole] else []) + (if cfg.watchSignal then [SignalWatch] else [])
  }

  // The container once it was made, and for a running one the console and the signal watch, as
  // far as they were asked for; each once, the container first.
  lemma AcquiredExact(cfg: ExecConfig, rt: Runtime)
    ensures var a := Acquired(cfg, rt);
            var runs := !rt.newContainerFails && !rt.startFails && !(cfg.tty && !cfg.noSetRaw && rt.setRawFails);
            && (Container in a <==> !rt.newContainerFails)
            && (RawConsole in a <==> runs && cfg.tty && !cfg.noSetRaw)
            && (SignalWatch in a <==> runs && cfg.watchSignal)
            && (a != [] ==> a[0] == Container)
            && forall i, j :: 0 <= i < j < |a| ==> a[i] != a[j]
  {
  }

  // Every mount of a RUN step gets its own id and options. With a debugger image the image is
  // the root, and the step's mounts come behind it, moved below the mount root.
  lemma RunMountsExact(cfg: ExecConfig, join: (string, string) -> string, i: nat)
    requires cfg.info.op.ExecOp? && |ChosenIDs(cfg)| >= |cfg.info.op.mounts| && i < |cfg.info.op.mounts|
    ensures var all, m := AllMounts(cfg, join), cfg.info.op.mounts[i];
            var id := if cfg.initState then cfg.info.inputIDs[i] else cfg.info.mountIDs[i];
            match cfg.image
            case None => |all| == |cfg.info.op.mounts| && all[i] == ContainerMount(m.dest, id, m.opts)
            case Some(image) =>
              && |all| == |cfg.info.op.mounts| + 1 && all[0] == ImageMount(image)
              && all[i + 1] == ContainerMount(join(cfg.mountroot, m.dest), id, m.opts)
  {
  }

  // Any other step has one mount, its root.
  lemma OtherMountExact(cfg: ExecConfig, join: (string, string) -> string)
    requires cfg.info.op.OtherOp? && |ChosenIDs(cfg)| == 1
    ensures var id := if cfg.initState then cfg.info.inputIDs[0] else cfg.info.mountIDs[0];
            AllMounts(cfg, join) ==
            match cfg.image
            case None => [ContainerMount("/", id, "bind")]
            case Some(image) => [ImageMount(image), ContainerMount(join(cfg.mountroot, "/"), id, "bind")]
  {
  }

  // `acquired` lists what was acquired, in order.
  method ExecContainer(cfg: ExecConfig, rt: Runtime, join: (string, string) -> string)
    returns (r: ExecResult, acquired: seq<Resource>)
    ensures r.Crashed? <==> OutOfRange(cfg)
    ensures r.Refused? <==> NoSingleRootfs(cfg)
    ensures r.Failed? <==> !OutOfRange(cfg) && !NoSingleRootfs(cfg) && RuntimeFails(cfg, rt)
    ensures r.Running? ==> !OutOfRange(cfg) && !NoSingleRootfs(cfg) && r.mounts == AllMounts(cfg, join)
    // everything acquired is released once, last first: at once on failure, else by the cleanup
    ensures acquired == if OutOfRange(cfg) || NoSingleRootfs(cfg) then [] else Acquired(cfg, rt)
    ensures r.Failed? ==> r.released == Reverse(acquired)
    ensures r.Running? ==> r.onClose == Reverse(acquired)
  {
    acquired := [];
    var mountIDs := if cfg.initState then cfg.info.inputIDs else cfg.info.mountIDs;
    if cfg.info.op.OtherOp? && |mountIDs| != 1 {
      return Refused, acquired;
    }
    var mounts: seq<ContainerMount> := [];
    if cfg.info.op.ExecOp? {
      var specs := cfg.info.op.mounts;
      for i := 0 to |specs|
        invariant i <= |mountIDs|
        invariant |mounts| == i
        invariant forall j :: 0 <= j < i ==> mounts[j] == ContainerMount(specs[j].dest, mountIDs[j], specs[j].opts)
      {
        if i >= |mountIDs| {
          return Crashed, acquired;
        }
        mounts := mounts + [ContainerMount(specs[i].dest, mountIDs[i], specs[i].opts)];
      }
    } else {
      mounts := [ContainerMount("/", mountIDs[0], "bind")];
    }
    assert mounts == StepMounts(cfg);
    if cfg.image.Some? {
      ghost var own := mounts;
      for i := 0 to |mounts|
        invariant |mounts| == |own|
        invariant forall j :: 0 <= j < i ==> mounts[j] == UnderRoot(own[j], cfg.mountroot, join)
        invariant forall j :: i <= j < |own| ==> mounts[j] == own[j]
      {
        mounts := mounts[i := ContainerMount(join(cfg.mountroot, mounts[i].dest), mounts[i].resultID, mounts[i].opts)];
      }
      mounts := [ImageMount(cfg.image.value)] + mounts;
    }
    assert mounts == AllMounts(cfg, join);
    if rt.newContainerFails {
      return Failed([]), acquired;
    }
    acquired := acquired + [Container];
    if rt.startFails {
      var released := RunCleanups(acquired);
      return Failed(released), acquired;
    }
    if cfg.tty && !cfg.noSetRaw {
      if rt.setRawFails {
        var released := RunCleanups(acquired);
        return Failed(released), acquired;
      }
      acquired := acquired + [RawConsole];
    }
    if cfg.watchSignal {
      acquired := acquired + [SignalWatch];
    }
    var onClose := RunCleanups(acquired);
    r := Running(mounts, onClose);
  }

  // ---- exec at a prompt --------------------------------------------------------------------

  // When exec indexes past the end of the id list it picked: never after success; after an
  // ExecError exactly when the list it carries is shorter than the mounts; after any other
  // error on every step that has mounts.
  predicate ExecCrashes(op: Op, outcome: ExecOutcome, initState: bool) {
    op.ExecOp? &&
    match outcome
    case Succeeded(_) => false
    case ExecFailed(ins, mounts) => (if initState then |ins| else |mounts|) < |op.mounts|
    case OtherFailure => op.mounts != []
  }

  // From a finished op to `exec` on it: the container mounts line up with the step's mounts
  // for both settings of --init-state whenever the step succeeded.
  method ObserveAndExec(w: WorkerWrapper, op: Op, inputs: seq<OpResult>, outcome: ExecOutcome, initState: bool,
                        rt: Runtime, join: (string, string) -> string)
    returns (r: Option<ExecResult>)
    modifies w
    ensures r.Some? <==> Registrable(op, inputs, outcome)
    ensures r.Some? ==> (r.value.Crashed? <==> ExecCrashes(op, outcome, initState))
    // a successful RUN step runs unless the runtime fails, and its mounts are aligned
    ensures r.Some? && op.ExecOp? && outcome.Succeeded? ==>
              (r.value.Running? <==> !rt.newContainerFails && !rt.startFails && !rt.setRawFails)
    ensures r.Some? && r.value.Running? && op.ExecOp? && outcome.Succeeded? ==>
              && |r.value.mounts| == |op.mounts|
              && forall i :: 0 <= i < |op.mounts| ==>
                   r.value.mounts[i] == ContainerMount(
                     op.mounts[i].dest,
                     IdOf(if initState then InputSlot(op.mounts[i], inputs)
                          else MountSlot(op.mounts[i], inputs, outcome.outputs)),
                     op.mounts[i].opts)
    // any other step needs exactly one output, and is always refused with --init-state
    ensures r.Some? && op.OtherOp? && outcome.Succeeded? ==>
              (r.value.Refused? <==> initState || |outcome.outputs| != 1)
  {
    var info := MakeInfo(w, op, inputs, outcome);
    if info.Err? {
      return None;
    }
    var result, _ := ExecContainer(ExecConfig(info.value, initState, None, "", true, false, true), rt, join);
    r := Some(result);
  }

  // A RUN step with a root mount whose failure is not an ExecError: whatever its input, the
  // runtime and the setting of --init-state, `exec` at the on-fail prompt indexes out of range.
  method PlainFailureCrashesExec(w: WorkerWrapper, input: OpResult, initState: bool, rt: Runtime,
                                 join: (string, string) -> string)
    returns (r: Option<ExecResult>)
    modifies w
    ensures r == Some(Crashed)
  {
    r := ObserveAndExec(w, ExecOp([MountSpec(0, 0, "/", "")]), [input], OtherFailure, initState, rt, join);
  }
}
