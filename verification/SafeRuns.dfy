/** Arbitrary sequences of calls and faults in which no replay starts from a buffer that is not the
    file: the process never ends and every guest sees its memory file. */
module SafeRuns {
  import opened Options
  import opened Regions
  import opened Sorting
  import opened WorkingSet
  import opened Traces
  import opened SnapshotStates
  import opened PageFaults
  import opened MemoryManagers
  import opened Lifecycle
  import opened Replay

  ghost predicate Good(s: State) { Inv(s) && (s.isPolling ==> Fetched(s)) }

  ghost predicate AllGood(m: Manager) {
    forall i :: i in m.instances ==> Good(m.instances[i])
  }

  /** A VM is activated only with its working set fetched, and while it runs no fetch is short. */
  ghost predicate Careful(m: Manager, op: Op) {
    && Possible(m, op)
    && match op
       case Activate(id, _, _, _) => id in m.instances ==> Fetched(m.instances[id])
       case FetchOp(id, a) =>
         id in m.instances && m.instances[id].isPolling && a.vmmOk && a.openOk ==> a.read == Bytes(|m.instances[id].trace|)
       case _ => true
  }

  ghost predicate AllCareful(m: Manager, ops: seq<Op>)
    decreases |ops|
  {
    ops == [] || (Careful(m, ops[0]) && AllCareful(Step(m, ops[0]).manager, ops[1..]))
  }

  lemma GoodActivate(s: State, mapOk: bool, uffdOk: bool, base: nat)
    requires Good(s) && Fetched(s) && GuestRange(Uffd(base, |s.cfg.mem|, map[]), s.cfg.mem)
    ensures Good(ActivateVM(s, mapOk, uffdOk, base).state) && ActivateVM(s, mapOk, uffdOk, base).reply != Died
  {
    hide TraceKept, StatsKept;
    var o := ActivateVM(s, mapOk, uffdOk, base);
    ActivateFrame(s, mapOk, uffdOk, base);
    if o.state.isPolling && !s.isPolling {
      NothingPresent(base, |s.cfg.mem|, s.trace);
    }
  }

  /** Activation changes no record, list or buffer. */
  lemma ActivateFrame(s: State, mapOk: bool, uffdOk: bool, base: nat)
    ensures var s' := ActivateVM(s, mapOk, uffdOk, base).state;
      && (TraceKept(s) ==> TraceKept(s'))
      && (StatsKept(s.cfg, s.stats) ==> StatsKept(s'.cfg, s'.stats))
  {
    hide Encode, Recorded, Pages;
  }

  lemma GoodFetch(s: State, a: FetchAnswers)
    requires Good(s) && (s.isPolling && a.vmmOk && a.openOk ==> a.read == Bytes(|s.trace|))
    ensures Good(FetchVM(s, a).state) && FetchVM(s, a).reply != Died
  {
    hide TraceKept, StatsKept, Serving, Counted, FetchVM;
    KeptFromInv(s);
    FetchKeeps(s, a);
    FetchFrame(s, a);
    SameServing(s, FetchVM(s, a).state);
    if s.isPolling { FullOrNone(s, a); }
  }

  lemma SameServing(s: State, s': State)
    requires s' == s.(workingSet := s'.workingSet)
    ensures (Serving(s) ==> Serving(s')) && (Counted(s) ==> Counted(s')) && (Flags(s) ==> Flags(s'))
  {
    hide GuestRange, Faithful;
  }

  lemma FullOrNone(s: State, a: FetchAnswers)
    requires Kept(s) && Fetched(s) && (a.vmmOk && a.openOk ==> a.read == Bytes(|s.trace|))
    ensures Fetched(FetchVM(s, a).state)
  {
    hide Kept;
    if s.isRecordReady && !s.cfg.isLazyMode {
      FetchSizeIsFileSize(s);
      assert s.wsFile[..|s.wsFile|] + Zeros(0) == s.wsFile;
    }
  }

  lemma GoodFault(s: State, a: nat)
    requires Good(s) && Fault(s, a)
    ensures ServePageFault(s, a).Some? && Good(ServePageFault(s, a).value)
  {
    hide Inv, ServePageFault;
    FaultServed(s, a);
  }

  lemma GoodDeactivate(s: State, unmapOk: bool)
    requires Good(s)
    ensures Good(DeactivateVM(s, unmapOk).state) && DeactivateVM(s, unmapOk).reply != Died
  {
    hide TraceKept, StatsKept, Serving, Counted, FinishVM, ProcessMetrics;
    KeptFromInv(s);
    DeactivateKeeps(s, unmapOk);
    Stopped(s, unmapOk);
  }

  lemma Stopped(s: State, unmapOk: bool)
    ensures DeactivateVM(s, unmapOk).state == s || !DeactivateVM(s, unmapOk).state.isPolling
  {
    hide AppendStats, Encode, Sort, Compact;
  }

  lemma GoodNew(cfg: Config)
    ensures Good(NewState(cfg))
  {
  }

  /** No careful call or fault ends the process, and every VM stays good. */
  lemma CarefulStep(m: Manager, op: Op)
    requires AllGood(m) && Careful(m, op)
    ensures Step(m, op).reply != Died && AllGood(Step(m, op).manager)
  {
    hide Good, ServePageFault, ActivateVM, FetchVM, DeactivateVM, Fault, Fetched;
    match op
    case Register(cfg) => GoodNew(cfg.(metricsModeOn := m.metricsModeOn));
    case Deregister(vmID) =>
    case Activate(vmID, mapOk, uffdOk, base) =>
      if vmID in m.instances { GoodActivate(m.instances[vmID], mapOk, uffdOk, base); }
    case FetchOp(vmID, answers) =>
      if vmID in m.instances { GoodFetch(m.instances[vmID], answers); }
    case Deactivate(vmID, unmapOk) =>
      if vmID in m.instances { GoodDeactivate(m.instances[vmID], unmapOk); }
    case PageFault(vmID, address) =>
      if vmID in m.instances && m.instances[vmID].isPolling { GoodFault(m.instances[vmID], address); }
  }

  /** Over every careful run, whatever fails in it, the process never ends and every guest that is
      served sees, in every page it has, the memory file. */
  lemma {:induction false} CarefulRun(m: Manager, ops: seq<Op>)
    requires AllGood(m) && AllCareful(m, ops)
    ensures After(m, ops).Some? && AllGood(After(m, ops).value)
    ensures forall i :: i in After(m, ops).value.instances && After(m, ops).value.instances[i].isPolling ==>
      Faithful(After(m, ops).value.instances[i].uffd, After(m, ops).value.instances[i].cfg.mem)
    decreases |ops|
  {
    hide Step, Careful, Fetched, TraceKept, StatsKept, Counted, GuestRange, Faithful;
    if ops != [] {
      CarefulStep(m, ops[0]);
      CarefulRun(Step(m, ops[0]).manager, ops[1..]);
    }
  }

  /** A fault of a VM that is served ends the process exactly when it is the first one of a replay whose
      working set, which is not empty, was never fetched; every other fault is served. */
  lemma FaultDiesIff(m: Manager, vmID: string, a: nat)
    requires vmID in m.instances && Inv(m.instances[vmID]) && Fault(m.instances[vmID], a)
    ensures var s, r := m.instances[vmID], Step(m, PageFault(vmID, a)).reply;
      && (r == Died <==> !s.firstFaultSeen && s.isRecordReady && !s.cfg.isLazyMode && s.trace != [] && s.workingSet == [])
      && (r == Died || r == Done)
  {
    hide Inv, Fault, ServePageFault;
    var s := m.instances[vmID];
    ServingOf(s, a);
    if Bulk(s) { UnfetchedReplayDies(s, a); } else { SingleFaultServed(s, a); }
  }

  lemma ServingOf(s: State, a: nat)
    requires Inv(s) && Fault(s, a)
    ensures s.isPolling && Serving(s)
  {
  }
}
