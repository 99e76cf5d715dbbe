/** The memory manager: registration and the activation cycle of every VM. */
module MemoryManagers {
  import opened Options
  import opened Sorting
  import opened Regions
  import opened WorkingSet
  import opened Traces
  import opened SnapshotStates
  import opened PageFaults

  /** Blocked is a call that waits for ever, Died the end of the process. */
  datatype Reply = Done | Failed | Blocked | Died

  datatype Outcome = Outcome(state: State, reply: Reply)

  /** Activate, once the VM is found. */
  function ActivateVM(s: State, mapOk: bool, uffdOk: bool, base: nat): Outcome {
    if s.isActive || !mapOk then Outcome(s, Failed)
    else if !uffdOk then Outcome(s.(guestMem := s.cfg.mem), Failed)
    else
      var s' := s.(guestMem := s.cfg.mem, uffd := Uffd(base, |s.cfg.mem|, map[]));
      Outcome(SetupStateOnActivate(s').(isPolling := true), Done)
  }

  /** FetchState, once the VM is found: nothing to fetch before a record or in lazy mode. */
  function FetchVM(s: State, a: FetchAnswers): Outcome {
    if s.isRecordReady && !s.cfg.isLazyMode then
      var f := FetchState(s, a);
      Outcome(f.state, if f.failed then Failed else Done)
    else Outcome(s, Done)
  }

  /** The end of a completed deactivation. */
  ghost function FinishVM(s: State): Outcome {
    if !s.isRecordReady && !s.cfg.isLazyMode then
      var t := Sort(s.trace);
      var r := Encode(t, s.regions).regions;
      match Compact(s.cfg.mem, Listing(r.Keys), r)
      case None => Outcome(s, Died)
      case Some(file) =>
        Outcome(s.(trace := t, regions := r, wsFile := file, isRecordReady := true, isActive := false), Done)
    else Outcome(s.(isRecordReady := true, isActive := false), Done)
  }

  /** Deactivate, once the VM is found. The quit signal has no receiver once polling has ended. */
  ghost function DeactivateVM(s: State, unmapOk: bool): Outcome {
    if !s.isEverActivated then Outcome(s, Done)
    else if !s.isActive then Outcome(s, Failed)
    else if !s.isPolling then Outcome(s, Blocked)
    else if !unmapOk then Outcome(s.(isPolling := false), Failed)
    else FinishVM(ProcessMetrics(s.(isPolling := false, guestMem := [])))
  }

  datatype Op =
    | Register(cfg: Config)
    | Deregister(vmID: string)
    | Activate(vmID: string, mapOk: bool, uffdOk: bool, base: nat)
    | FetchOp(vmID: string, answers: FetchAnswers)
    | Deactivate(vmID: string, unmapOk: bool)
    | PageFault(vmID: string, address: nat)

  datatype Manager = Manager(metricsModeOn: bool, instances: map<string, State>, locked: bool)

  datatype Result = Result(manager: Manager, reply: Reply)

  function Put(m: Manager, vmID: string, o: Outcome): Result {
    Result(m.(instances := m.instances[vmID := o.state]), o.reply)
  }

  function RegisterStep(m: Manager, cfg: Config): Result {
    if cfg.vmID in m.instances then Result(m, Failed)
    else Put(m, cfg.vmID, Outcome(NewState(cfg.(metricsModeOn := m.metricsModeOn)), Done))
  }

  function DeregisterStep(m: Manager, vmID: string): Result {
    if vmID !in m.instances || m.instances[vmID].isActive then Result(m, Failed)
    else Result(m.(instances := m.instances - {vmID}), Done)
  }

  /** A call on an unknown VM fails without releasing the lock. */
  function Unknown(m: Manager): Result {
    Result(m.(locked := true), Failed)
  }

  function ActivateStep(m: Manager, vmID: string, mapOk: bool, uffdOk: bool, base: nat): Result {
    if vmID !in m.instances then Unknown(m)
    else Put(m, vmID, ActivateVM(m.instances[vmID], mapOk, uffdOk, base))
  }

  function FetchStep(m: Manager, vmID: string, answers: FetchAnswers): Result {
    if vmID !in m.instances then Unknown(m) else Put(m, vmID, FetchVM(m.instances[vmID], answers))
  }

  ghost function DeactivateStep(m: Manager, vmID: string, unmapOk: bool): Result {
    if vmID !in m.instances then Unknown(m) else Put(m, vmID, DeactivateVM(m.instances[vmID], unmapOk))
  }

  ghost function PageFaultStep(m: Manager, vmID: string, address: nat): Result {
    if vmID !in m.instances || !m.instances[vmID].isPolling then Result(m, Done)
    else
      match ServePageFault(m.instances[vmID], address)
      case None => Result(m, Died)
      case Some(s) => Put(m, vmID, Outcome(s, Done))
  }

  /** One call, or one page fault of an active VM. */
  ghost function Step(m: Manager, op: Op): Result {
    match op
    case PageFault(vmID, address) => PageFaultStep(m, vmID, address)
    case _ =>
      if m.locked then Result(m, Blocked)
      else
        match op
        case Register(cfg) => RegisterStep(m, cfg)
        case Deregister(vmID) => DeregisterStep(m, vmID)
        case Activate(vmID, mapOk, uffdOk, base) => ActivateStep(m, vmID, mapOk, uffdOk, base)
        case FetchOp(vmID, answers) => FetchStep(m, vmID, answers)
        case Deactivate(vmID, unmapOk) => DeactivateStep(m, vmID, unmapOk)
  }

  class MemoryManager {
    const metricsModeOn: bool
    var instances: map<string, SnapshotState>
    var locked: bool

    ghost function Objects(): set<object>
      reads this, instances.Values
    {
      instances.Values + set s | s in instances.Values :: s.trace
    }

    /** No two VMs share a state or a trace. */
    ghost predicate Valid()
      reads this, instances.Values
    {
      forall i, j :: i in instances && j in instances && i != j ==>
        instances[i] != instances[j] && instances[i].trace != instances[j].trace
    }

    ghost function View(): Manager
      reads this, Objects()
    {
      Manager(metricsModeOn, map i | i in instances :: instances[i].View(), locked)
    }

    constructor (metricsModeOn: bool)
      ensures Valid() && View() == Manager(metricsModeOn, map[], false)
    {
      this.metricsModeOn := metricsModeOn;
      instances, locked := map[], false;
    }

    method RegisterVM(cfg: Config) returns (r: Reply)
      requires Valid() && !locked
      modifies this
      ensures Valid() && fresh(Objects() - old(Objects()))
      ensures Result(View(), r) == RegisterStep(old(View()), cfg)
    {
      hide NewState, SnapshotState.View;
      if cfg.vmID in instances { return Failed; }
      var state := new SnapshotState(cfg.(metricsModeOn := metricsModeOn));
      instances := instances[cfg.vmID := state];
      assert View().instances == old(View()).instances[cfg.vmID := state.View()];
      return Done;
    }

    method DeregisterVM(vmID: string) returns (r: Reply)
      requires Valid() && !locked
      modifies this
      ensures Valid() && Objects() <= old(Objects())
      ensures Result(View(), r) == DeregisterStep(old(View()), vmID)
    {
      hide SnapshotState.View;
      if vmID !in instances { return Failed; }
      ViewActive(instances[vmID]);
      if instances[vmID].isActive { return Failed; }
      instances := instances - {vmID};
      return Done;
    }

    method ActivateInstance(vmID: string, mapOk: bool, uffdOk: bool, base: nat) returns (r: Reply)
      requires Valid() && !locked
      modifies this, instances.Values
      ensures Valid() && Objects() == old(Objects())
      ensures Result(View(), r) == ActivateStep(old(View()), vmID, mapOk, uffdOk, base)
    {
      hide ActivateVM, SnapshotState.View;
      if vmID !in instances {
        locked := true;
        return Failed;
      }
      var state := instances[vmID];
      r := StartInstance(state, mapOk, uffdOk, base);
      assert View().instances == old(View()).instances[vmID := state.View()];
    }

    method FetchState(vmID: string, answers: FetchAnswers) returns (r: Reply)
      requires Valid() && !locked
      modifies this, instances.Values
      ensures Valid() && Objects() == old(Objects())
      ensures Result(View(), r) == FetchStep(old(View()), vmID, answers)
    {
      hide FetchVM, SnapshotState.View;
      if vmID !in instances {
        locked := true;
        return Failed;
      }
      var state := instances[vmID];
      r := FetchInstance(state, answers);
      assert View().instances == old(View()).instances[vmID := state.View()];
    }

    method DeactivateInstance(vmID: string, unmapOk: bool) returns (r: Reply)
      requires Valid() && !locked
      modifies this, Objects()
      ensures Valid() && Objects() == old(Objects())
      ensures r == DeactivateStep(old(View()), vmID, unmapOk).reply
      ensures r != Died ==> Result(View(), r) == DeactivateStep(old(View()), vmID, unmapOk)
    {
      hide DeactivateVM, SnapshotState.View;
      if vmID !in instances {
        locked := true;
        return Failed;
      }
      var state := instances[vmID];
      r := StopInstance(state, unmapOk);
      assert View().instances == old(View()).instances[vmID := state.View()];
    }

    method ServePageFault(vmID: string, address: nat) returns (r: Reply)
      requires Valid() && vmID in instances && instances[vmID].isPolling
      modifies Objects()
      ensures Valid() && Objects() == old(Objects())
      ensures r == PageFaultStep(old(View()), vmID, address).reply
      ensures r != Died ==> Result(View(), r) == PageFaultStep(old(View()), vmID, address)
    {
      hide SnapshotStates.ServePageFault, SnapshotState.View;
      var state := instances[vmID];
      ViewPolling(state);
      var ok := state.ServeFault(address);
      if !ok { return Died; }
      assert View().instances == old(View()).instances[vmID := state.View()];
      return Done;
    }
  }

  method StartInstance(state: SnapshotState, mapOk: bool, uffdOk: bool, base: nat) returns (r: Reply)
    modifies state
    ensures state.trace == old(state.trace)
    ensures Outcome(state.View(), r) == ActivateVM(old(state.View()), mapOk, uffdOk, base)
  {
    hide SetupStateOnActivate;
    if state.isActive || !mapOk { return Failed; }
    state.guestMem := state.cfg.mem;
    if !uffdOk { return Failed; }
    state.uffd := Uffd(base, |state.cfg.mem|, map[]);
    state.SetupOnActivate();
    state.isPolling := true;
    return Done;
  }

  method FetchInstance(state: SnapshotState, answers: FetchAnswers) returns (r: Reply)
    modifies state
    ensures state.trace == old(state.trace)
    ensures Outcome(state.View(), r) == FetchVM(old(state.View()), answers)
  {
    hide SnapshotStates.FetchState;
    if state.isRecordReady && !state.cfg.isLazyMode {
      var failed := state.ReadWorkingSet(answers);
      return if failed then Failed else Done;
    }
    return Done;
  }

  method StopInstance(state: SnapshotState, unmapOk: bool) returns (r: Reply)
    modifies state, state.trace
    ensures state.trace == old(state.trace)
    ensures r == DeactivateVM(old(state.View()), unmapOk).reply
    ensures r != Died ==> Outcome(state.View(), r) == DeactivateVM(old(state.View()), unmapOk)
  {
    hide ProcessMetrics, FinishVM;
    if !state.isEverActivated { return Done; }
    if !state.isActive { return Failed; }
    if !state.isPolling { return Blocked; }
    state.isPolling := false;
    if !unmapOk { return Failed; }
    state.guestMem := [];
    state.RecordMetrics();
    r := FinishInstance(state);
  }

  method FinishInstance(state: SnapshotState) returns (r: Reply)
    modifies state, state.trace
    ensures state.trace == old(state.trace)
    ensures r == FinishVM(old(state.View())).reply
    ensures r != Died ==> Outcome(state.View(), r) == FinishVM(old(state.View()))
  {
    hide Sort, Encode, Compact, Listing;
    if !state.isRecordReady && !state.cfg.isLazyMode {
      var file := state.trace.ProcessRecord(state.cfg.mem);
      if file.None? { return Died; }
      state.wsFile := file.value;
    }
    state.isRecordReady, state.isActive := true, false;
    return Done;
  }

  lemma ViewPolling(s: SnapshotState)
    ensures s.View().isPolling == s.isPolling
  {
  }

  lemma ViewActive(s: SnapshotState)
    ensures s.View().isActive == s.isActive
  {
  }
}
