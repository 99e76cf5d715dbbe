/** What the memory manager answers, by the history of the calls and their replies alone. */
module Histories {
  import opened Options
  import opened Sorting
  import opened Regions
  import opened Traces
  import opened WorkingSet
  import opened SnapshotStates
  import opened PageFaults
  import opened MemoryManagers
  import opened Lifecycle

  /** A call or a page fault with its reply. */
  datatype Entry = Entry(op: Op, reply: Reply)

  /** The VM that a call or a fault is about. */
  function Subject(op: Op): string {
    if op.Register? then op.cfg.vmID else op.vmID
  }

  /** A call about this VM that reported success. */
  predicate Succeeds(e: Entry, id: string) {
    Subject(e.op) == id && e.reply.Done?
  }

  /** The configuration of the last registration, unless the VM was deregistered since; a VM is known
      exactly when there is one. */
  function Registered(log: seq<Entry>, id: string): Option<Config> {
    if log == [] then None
    else
      var e := log[|log| - 1];
      if Succeeds(e, id) && e.op.Register? then Some(e.op.cfg)
      else if Succeeds(e, id) && e.op.Deregister? then None
      else Registered(log[..|log| - 1], id)
  }

  /** Since its registration the VM was activated. */
  predicate EverActivated(log: seq<Entry>, id: string) {
    log != []
    && var e := log[|log| - 1];
       if Succeeds(e, id) && (e.op.Register? || e.op.Deregister?) then false
       else (Succeeds(e, id) && e.op.Activate?) || EverActivated(log[..|log| - 1], id)
  }

  /** Of the calls that succeeded, other than fetches, the last is an activation. */
  predicate Active(log: seq<Entry>, id: string) {
    log != []
    && var e := log[|log| - 1];
       if Succeeds(e, id) && !e.op.FetchOp? && !e.op.PageFault? then e.op.Activate?
       else Active(log[..|log| - 1], id)
  }

  /** Since the last activation no deactivation has returned, with or without an error. */
  predicate Polling(log: seq<Entry>, id: string) {
    log != []
    && var e := log[|log| - 1];
       if Succeeds(e, id) && (e.op.Activate? || e.op.Register? || e.op.Deregister?) then e.op.Activate?
       else !(e.op.Deactivate? && e.op.vmID == id && !e.reply.Blocked?) && Polling(log[..|log| - 1], id)
  }

  /** Since its registration an activation of the VM was ended by a deactivation that succeeded. */
  predicate Recorded(log: seq<Entry>, id: string) {
    log != []
    && var e, before := log[|log| - 1], log[..|log| - 1];
       if Succeeds(e, id) && (e.op.Register? || e.op.Deregister?) then false
       else (Succeeds(e, id) && e.op.Deactivate? && Active(before, id)) || Recorded(before, id)
  }

  /** An activation, a fetch or a deactivation of a VM that was not known has failed. */
  predicate Stuck(log: seq<Entry>) {
    log != []
    && var e, before := log[|log| - 1], log[..|log| - 1];
       || ((e.op.Activate? || e.op.FetchOp? || e.op.Deactivate?) && e.reply.Failed? && Registered(before, e.op.vmID).None?)
       || Stuck(before)
  }

  /** The flags of a VM. */
  ghost predicate AgreesOn(m: Manager, log: seq<Entry>, id: string) {
    && (id in m.instances <==> Registered(log, id).Some?)
    && (id in m.instances ==>
          var s := m.instances[id];
          && s.cfg == Registered(log, id).value.(metricsModeOn := m.metricsModeOn)
          && s.isEverActivated == EverActivated(log, id)
          && s.isActive == Active(log, id)
          && s.isPolling == Polling(log, id)
          && s.isRecordReady == Recorded(log, id)
          && (s.isPolling ==> s.isActive) && (s.isActive ==> s.isEverActivated))
    && (id !in m.instances ==> !Active(log, id))
  }

  ghost predicate Agrees(m: Manager, log: seq<Entry>) {
    (m.locked <==> Stuck(log)) && forall id :: AgreesOn(m, log, id)
  }

  ghost function Log(m: Manager, ops: seq<Op>): seq<Entry>
    decreases |ops|
  {
    if ops == [] then []
    else [Entry(ops[0], Step(m, ops[0]).reply)] + Log(Step(m, ops[0]).manager, ops[1..])
  }

  // ----- one call -----

  /** What a call can do to one VM's flags. */
  lemma FaultFlags(s: State, a: nat)
    requires ServePageFault(s, a).Some?
    ensures var s' := ServePageFault(s, a).value;
      && s'.cfg == s.cfg && s'.isEverActivated == s.isEverActivated && s'.isActive == s.isActive
      && s'.isPolling == s.isPolling && s'.isRecordReady == s.isRecordReady
  {
    hide InstallRegion, InstallAll, Listing, Wrap, CountFault;
  }

  lemma ActivateFlags(s: State, mapOk: bool, uffdOk: bool, base: nat)
    ensures var o := ActivateVM(s, mapOk, uffdOk, base); var s' := o.state; var on := o.reply.Done?;
      && o.reply == (if !s.isActive && mapOk && uffdOk then Done else Failed)
      && s'.cfg == s.cfg && s'.isRecordReady == s.isRecordReady
      && s'.isActive == (s.isActive || on) && s'.isEverActivated == (s.isEverActivated || on) && s'.isPolling == (s.isPolling || on)
  {
  }

  lemma FetchFlags(s: State, a: FetchAnswers)
    ensures var s' := FetchVM(s, a).state; s' == s.(workingSet := s'.workingSet)
    ensures FetchVM(s, a).reply == Done || FetchVM(s, a).reply == Failed
  {
    hide BytesRead, ReadInto;
  }

  lemma MetricsFlags(s: State)
    ensures ProcessMetrics(s) == s.(stats := ProcessMetrics(s).stats)
  {
  }

  lemma FinishFlags(s: State)
    requires FinishVM(s).reply != Died
    ensures var s' := FinishVM(s).state;
      && FinishVM(s).reply == Done && s'.cfg == s.cfg && s'.isPolling == s.isPolling && s'.isEverActivated == s.isEverActivated
      && s'.isRecordReady && !s'.isActive
  {
    hide Sort, Compact, Encode, Listing;
  }

  lemma DeactivateFlags(s: State, unmapOk: bool)
    requires DeactivateVM(s, unmapOk).reply != Died && (s.isPolling ==> s.isActive) && (s.isActive ==> s.isEverActivated)
    ensures var o := DeactivateVM(s, unmapOk); var s' := o.state;
      && s'.cfg == s.cfg && s'.isEverActivated == s.isEverActivated
      && s'.isActive == (s.isActive && !o.reply.Done?)
      && s'.isPolling == (s.isPolling && o.reply.Blocked?)
      && s'.isRecordReady == (s.isRecordReady || (s.isActive && o.reply.Done?))
  {
    hide FinishVM, ProcessMetrics;
    var s' := s.(isPolling := false, guestMem := []);
    MetricsFlags(s');
    if s.isPolling && unmapOk { FinishFlags(ProcessMetrics(s')); }
  }

  /** Only the VM that the call is about changes. */
  lemma OthersStay(m: Manager, op: Op, id: string)
    requires id != Subject(op)
    ensures var m' := Step(m, op).manager;
      && (id in m'.instances <==> id in m.instances)
      && (id in m.instances ==> m'.instances[id] == m.instances[id])
  {
    hide ActivateVM, FetchVM, DeactivateVM, ServePageFault, NewState;
  }

  lemma ModeStays(m: Manager, op: Op)
    ensures Step(m, op).manager.metricsModeOn == m.metricsModeOn
  {
    hide ActivateVM, FetchVM, DeactivateVM, ServePageFault, NewState;
  }

  lemma OtherLogs(log: seq<Entry>, e: Entry, id: string)
    requires id != Subject(e.op)
    ensures Registered(log + [e], id) == Registered(log, id) && EverActivated(log + [e], id) == EverActivated(log, id)
    ensures Active(log + [e], id) == Active(log, id) && Polling(log + [e], id) == Polling(log, id)
    ensures Recorded(log + [e], id) == Recorded(log, id)
  {
    assert (log + [e])[..|log|] == log;
  }

  /** What one more entry does to a VM's history. */
  lemma OwnLogs(log: seq<Entry>, e: Entry)
    ensures var id, log' := Subject(e.op), log + [e];
      && Registered(log', id) == (if !e.reply.Done? then Registered(log, id)
                                  else if e.op.Register? then Some(e.op.cfg)
                                  else if e.op.Deregister? then None else Registered(log, id))
      && EverActivated(log', id) == (if !e.reply.Done? then EverActivated(log, id)
                                     else if e.op.Register? || e.op.Deregister? then false else e.op.Activate? || EverActivated(log, id))
      && Active(log', id) == (if !e.reply.Done? || e.op.FetchOp? || e.op.PageFault? then Active(log, id) else e.op.Activate?)
      && Polling(log', id) == (if e.reply.Done? && (e.op.Activate? || e.op.Register? || e.op.Deregister?) then e.op.Activate?
                               else Polling(log, id) && !(e.op.Deactivate? && !e.reply.Blocked?))
      && Recorded(log', id) == (if e.reply.Done? && (e.op.Register? || e.op.Deregister?) then false
                                else (e.reply.Done? && e.op.Deactivate? && Active(log, id)) || Recorded(log, id))
  {
    assert (log + [e])[..|log|] == log && (log + [e])[|log|] == e;
  }

  lemma OwnStep(m: Manager, log: seq<Entry>, op: Op)
    requires AgreesOn(m, log, Subject(op)) && Step(m, op).reply != Died
    ensures AgreesOn(Step(m, op).manager, log + [Entry(op, Step(m, op).reply)], Subject(op))
  {
    hide ServePageFault, ActivateVM, FetchVM, DeactivateVM, Registered, EverActivated, Active, Polling, Recorded;
    OwnLogs(log, Entry(op, Step(m, op).reply));
    if Subject(op) in m.instances {
      var s := m.instances[Subject(op)];
      match op
      case Activate(_, mapOk, uffdOk, base) => ActivateFlags(s, mapOk, uffdOk, base);
      case FetchOp(_, answers) => FetchFlags(s, answers);
      case Deactivate(_, unmapOk) => if !m.locked { DeactivateFlags(s, unmapOk); }
      case PageFault(_, address) => if s.isPolling { FaultFlags(s, address); }
      case _ =>
    }
  }

  lemma LockStep(m: Manager, log: seq<Entry>, op: Op)
    requires m.locked <==> Stuck(log)
    requires AgreesOn(m, log, Subject(op)) && Step(m, op).reply != Died
    ensures Step(m, op).manager.locked <==> Stuck(log + [Entry(op, Step(m, op).reply)])
  {
    hide ServePageFault, ActivateVM, FetchVM, DeactivateVM, Registered, EverActivated, Active, Polling, Recorded;
    var e := Entry(op, Step(m, op).reply);
    assert (log + [e])[..|log|] == log && (log + [e])[|log|] == e;
    if !m.locked { LockLeftHeldIff(m, op); }
  }

  lemma AgreesStep(m: Manager, log: seq<Entry>, op: Op)
    requires Agrees(m, log) && Step(m, op).reply != Died
    ensures Agrees(Step(m, op).manager, log + [Entry(op, Step(m, op).reply)])
  {
    hide Step, Registered, EverActivated, Active, Polling, Recorded, Stuck;
    var m', e := Step(m, op).manager, Entry(op, Step(m, op).reply);
    LockStep(m, log, op);
    OwnStep(m, log, op);
    ModeStays(m, op);
    forall id | id != Subject(op) ensures AgreesOn(m', log + [e], id) {
      assert AgreesOn(m, log, id);
      OthersStay(m, op, id);
      OtherLogs(log, e, id);
    }
  }

  // ----- over a run -----

  lemma {:induction false} AgreesKept(m: Manager, log: seq<Entry>, ops: seq<Op>)
    requires Agrees(m, log) && After(m, ops).Some?
    ensures Agrees(After(m, ops).value, log + Log(m, ops))
    decreases |ops|
  {
    hide Agrees, Step;
    if ops == [] {
      assert log + [] == log;
    } else {
      var e := Entry(ops[0], Step(m, ops[0]).reply);
      AgreesStep(m, log, ops[0]);
      AgreesKept(Step(m, ops[0]).manager, log + [e], ops[1..]);
      assert log + ([e] + Log(Step(m, ops[0]).manager, ops[1..])) == (log + [e]) + Log(Step(m, ops[0]).manager, ops[1..]);
    }
  }

  /** In every run from a new manager, what is known of each VM and whether the lock is held follow from
      the calls and their replies. */
  lemma StateByHistory(metrics: bool, ops: seq<Op>, id: string)
    requires After(Manager(metrics, map[], false), ops).Some?
    ensures var m0 := Manager(metrics, map[], false);
      var m, log := After(m0, ops).value, Log(m0, ops);
      && (m.locked <==> Stuck(log))
      && (id in m.instances <==> Registered(log, id).Some?)
      && (id in m.instances ==>
            var s := m.instances[id];
            && s.cfg == Registered(log, id).value.(metricsModeOn := m.metricsModeOn)
            && s.isEverActivated == EverActivated(log, id) && s.isActive == Active(log, id)
            && s.isPolling == Polling(log, id) && s.isRecordReady == Recorded(log, id))
  {
    hide After, Log, Registered, EverActivated, Active, Polling, Recorded, Stuck;
    var m0 := Manager(metrics, map[], false);
    NewAgrees(metrics);
    AgreesKept(m0, [], ops);
    assert [] + Log(m0, ops) == Log(m0, ops);
    assert AgreesOn(After(m0, ops).value, Log(m0, ops), id);
  }

  lemma NewAgrees(metrics: bool)
    ensures Agrees(Manager(metrics, map[], false), [])
  {
  }

  /** The call succeeds, by the history before it; `size` is that of the VM's working-set file. */
  predicate Fulfilled(log: seq<Entry>, op: Op, size: nat) {
    match op
    case Register(cfg) => Registered(log, cfg.vmID).None?
    case Deregister(id) => Registered(log, id).Some? && !Active(log, id)
    case Activate(id, mapOk, uffdOk, _) => Registered(log, id).Some? && !Active(log, id) && mapOk && uffdOk
    case FetchOp(id, a) =>
      Registered(log, id).Some? && (Recorded(log, id) && !Registered(log, id).value.isLazyMode ==> FetchReports(a, size))
    case Deactivate(id, unmapOk) => Registered(log, id).Some? && (EverActivated(log, id) ==> Polling(log, id) && unmapOk)
    case PageFault(_, _) => true
  }

  /** A deactivation after one that failed to unmap waits for ever: polling has ended. */
  predicate Waits(log: seq<Entry>, op: Op) {
    op.Deactivate? && Registered(log, op.vmID).Some? && Active(log, op.vmID) && !Polling(log, op.vmID)
  }

  /** A fetch reports no error when the request to the monitor, the opening and the read have none and,
      if the read filled the buffer, the closing has none. */
  predicate FetchReports(a: FetchAnswers, size: nat) {
    a.vmmOk && a.openOk && a.readOk && (a.read == size || size == 0 ==> a.closeOk)
  }

  /** What a fetch reports, and what it leaves in the buffer. */
  lemma FetchReportsIff(s: State, a: FetchAnswers)
    requires Bytes(|s.trace|) == |s.wsFile|
    ensures !FetchState(s, a).failed <==> FetchReports(a, |s.wsFile|)
    ensures var s' := FetchState(s, a).state; s' == s.(workingSet := s'.workingSet)
    ensures var ws := FetchState(s, a).state.workingSet;
      var n := if a.read <= |s.wsFile| then a.read else 0;
      if !a.vmmOk || !a.openOk then ws == s.workingSet
      else |ws| == |s.wsFile| && forall i: nat :: i < |ws| ==> ws[i] == if i < n then s.wsFile[i] else 0
  {
  }

  lemma FetchReply(s: State, a: FetchAnswers)
    requires Kept(s)
    ensures FetchVM(s, a).reply
      == if s.isRecordReady && !s.cfg.isLazyMode && !FetchReports(a, |s.wsFile|) then Failed else Done
  {
    hide Kept, FetchReports, FetchState;
    if s.isRecordReady && !s.cfg.isLazyMode {
      FetchSizeIsFileSize(s);
      FetchReportsIff(s, a);
    }
  }

  lemma DeactivateReply(s: State, unmapOk: bool)
    requires Kept(s)
    ensures DeactivateVM(s, unmapOk).reply
      == if !s.isEverActivated then Done
         else if s.isActive && !s.isPolling then Blocked
         else if s.isPolling && unmapOk then Done else Failed
  {
    hide Kept, FinishVM, ProcessMetrics;
    DeactivateKeeps(s, unmapOk);
    KeptFlags(s);
    if s.isPolling && unmapOk { FinishFlags(ProcessMetrics(s.(isPolling := false, guestMem := []))); }
  }

  lemma KeptFlags(s: State)
    requires Kept(s)
    ensures (s.isPolling ==> s.isActive) && (s.isActive ==> s.isEverActivated)
  {
  }

  function FileSize(m: Manager, id: string): nat {
    if id in m.instances then |m.instances[id].wsFile| else 0
  }

  /** The reply of each call after any run, exactly, by the calls before it and their replies. */
  lemma RepliesByHistory(metrics: bool, ops: seq<Op>, op: Op)
    requires Legal(Manager(metrics, map[], false), ops) && After(Manager(metrics, map[], false), ops).Some?
    requires !op.PageFault?
    ensures var m0 := Manager(metrics, map[], false);
      var m, log := After(m0, ops).value, Log(m0, ops);
      Step(m, op).reply
      == if Stuck(log) || Waits(log, op) then Blocked
         else if Fulfilled(log, op, FileSize(m, Subject(op))) then Done else Failed
  {
    hide After, Log, Legal, Kept, Registered, EverActivated, Active, Polling, Recorded, Stuck,
         ActivateVM, FetchVM, DeactivateVM, FetchReports, NewState;
    var m0 := Manager(metrics, map[], false);
    var m, id := After(m0, ops).value, Subject(op);
    LifecycleKept(m0, ops);
    StateByHistory(metrics, ops, id);
    if id in m.instances {
      var s := m.instances[id];
      match op
      case Activate(_, mapOk, uffdOk, base) => ActivateFlags(s, mapOk, uffdOk, base);
      case FetchOp(_, answers) => FetchReply(s, answers);
      case Deactivate(_, unmapOk) => DeactivateReply(s, unmapOk); KeptFlags(s);
      case _ =>
    }
  }

  /** A deregistration that succeeds makes the VM unknown and leaves the others; it can be registered
      again, with a new state. */
  lemma DeregisteredIsGone(m: Manager, id: string, cfg: Config)
    requires Step(m, Deregister(id)).reply == Done && cfg.vmID == id
    ensures var m' := Step(m, Deregister(id)).manager;
      && m'.instances.Keys == m.instances.Keys - {id}
      && (forall other :: other in m'.instances ==> m'.instances[other] == m.instances[other])
      && Step(m', Register(cfg)).reply == Done
      && Step(m', Register(cfg)).manager.instances.Keys == m.instances.Keys
      && Step(m', Register(cfg)).manager.instances[id].trace == []
      && Step(m', Register(cfg)).manager.instances[id].regions == map[]
  {
    assert id in m.instances;
  }
}
