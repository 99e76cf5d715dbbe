/** Instances started and retired by requests, and the snapshots they are loaded from. */
module ServeInstances {
  import opened Arithmetic
  import opened Options
  import opened ServeProtocol

  // ----- instance counting, when every thread is a request -----

  ghost predicate OnlyRequests(s: State) {
    forall t :: t in s.threads ==> s.threads[t].role.Request?
  }

  predicate Serves(actions: seq<Action>) {
    forall i :: 0 <= i < |actions| && actions[i].Enter? ==> actions[i].role.Request?
  }

  predicate BeforeStart(pc: Pc) { pc.AddLock? || pc.AddStart? }

  predicate AfterStart(pc: Pc) { pc.AddUnlock? || pc.OnceDone? }

  predicate IsRunner(th: Thread) { BeforeStart(th.pc) || AfterStart(th.pc) }

  predicate PastOnce(pc: Pc) {
    pc.ReadLock? || pc.Rpc? || pc.SnapOnce? || pc.SnapCreate? || pc.SnapMark? || pc.SnapDone? || pc.ReadUnlock?
    || pc.RemoveLock? || pc.RemoveSwap?
  }

  predicate IsSwapped(th: Thread) { th.pc.RemoveUnlock? || th.pc.Reset? || th.pc.Release? }

  /** Every Once but the current one has run and is done; the current one is known. */
  ghost predicate Onces(i: Instances) {
    && (forall o: nat :: o in i.onces <==> o <= i.current)
    && (forall o: nat :: o < i.current ==> i.onces[o].Done?)
    && i.starts == i.retirements + (if i.onces[i.current] == Running(true) || i.onces[i.current].Done? then 1 else 0)
  }

  /** What a thread knows of the Once: the body runs only on the current one, and the request that
      drew zero has seen the current one done. */
  ghost predicate ThreadOnce(i: Instances, th: Thread)
    requires i.current in i.onces
  {
    && (th.pc.DoOnce? ==> th.once <= i.current && (th.syncID == 0 ==> th.once == i.current))
    && (BeforeStart(th.pc) ==> th.once == i.current && i.onces[i.current] == Running(false))
    && (AfterStart(th.pc) ==> th.once == i.current && i.onces[i.current] == Running(true))
    && (PastOnce(th.pc) && th.syncID == 0 ==> i.onces[i.current].Done?)
  }

  ghost function Runners(s: State): set<nat> { Members(s.threads, IsRunner) }

  ghost function Swapped(s: State): set<nat> { Members(s.threads, IsSwapped) }

  ghost predicate CountInv(s: State) {
    && OnlyRequests(s)
    && Onces(s.insts)
    && (forall t :: t in s.threads ==> ThreadOnce(s.insts, s.threads[t]))
    && |Runners(s)| == (if s.insts.onces[s.insts.current].Running? then 1 else 0)
    && s.insts.retirements == s.quota.releases + |Swapped(s)|
  }

  lemma SelfOnce(cfg: Config, s: State, th: Thread, ok: bool)
    requires th.role.Request? && Numbered(cfg, th) && Enabled(cfg, s, th)
    requires Onces(s.insts) && ThreadOnce(s.insts, th)
    ensures var i' := NextInsts(s.insts, th.pc, th.once);
      && Onces(i') && ThreadOnce(i', NextThread(cfg, s, th, ok))
  {
  }

  lemma OtherOnce(cfg: Config, s: State, th: Thread, u: Thread)
    requires th.role.Request? && u.role.Request? && Numbered(cfg, th) && Numbered(cfg, u) && Enabled(cfg, s, th)
    requires Onces(s.insts) && ThreadOnce(s.insts, th) && ThreadOnce(s.insts, u)
    requires !(IsRunner(th) && IsRunner(u)) && !(DrewZero(th) && DrewZero(u))
    ensures var i' := NextInsts(s.insts, th.pc, th.once);
      i'.current in i'.onces && ThreadOnce(i', u)
  {
  }

  lemma CountsStep(cfg: Config, s: State, th: Thread, ok: bool, runners: nat, swapped: nat)
    requires th.role.Request? && Numbered(cfg, th) && Enabled(cfg, s, th)
    requires Onces(s.insts) && ThreadOnce(s.insts, th)
    requires runners == (if s.insts.onces[s.insts.current].Running? then 1 else 0)
    requires s.insts.retirements == s.quota.releases + swapped
    requires (IsRunner(th) ==> runners >= 1) && (IsSwapped(th) ==> swapped >= 1)
    ensures var i', th' := NextInsts(s.insts, th.pc, th.once), NextThread(cfg, s, th, ok);
      && i'.current in i'.onces
      && runners - One(IsRunner(th)) + One(IsRunner(th')) == (if i'.onces[i'.current].Running? then 1 else 0)
      && i'.retirements == NextQuota(cfg, s.quota, th.pc).releases + swapped - One(IsSwapped(th)) + One(IsSwapped(th'))
  {
  }

  lemma OthersStep(cfg: Config, s: State, t: nat)
    requires QuotaInv(cfg, s) && CountInv(s) && t in s.threads && Enabled(cfg, s, s.threads[t])
    ensures var th := s.threads[t]; var i' := NextInsts(s.insts, th.pc, th.once);
      i'.current in i'.onces && forall u :: u in s.threads && u != t ==> ThreadOnce(i', s.threads[u])
  {
    hide Members, Balanced, Numbered, Enabled, NextInsts, DrewZero, IsRunner, Onces, ThreadOnce;
    var th := s.threads[t];
    KnownCurrent(s.insts);
    AtMostOne(cfg, s);
    NextCurrent(s.insts, th);
    forall u | u in s.threads && u != t ensures ThreadOnce(NextInsts(s.insts, th.pc, th.once), s.threads[u]) {
      if IsRunner(th) && IsRunner(s.threads[u]) { OnlyMember(s.threads, IsRunner, t, u); }
      if DrewZero(th) && DrewZero(s.threads[u]) { OnlyMember(s.threads, DrewZero, t, u); }
      OtherOnce(cfg, s, th, s.threads[u]);
    }
  }

  lemma CountStep(cfg: Config, s: State, t: nat, ok: bool)
    requires cfg.servedTh >= 1 && QuotaInv(cfg, s) && CountInv(s)
    requires t in s.threads && Move(cfg, s, t, ok).Some?
    ensures CountInv(Move(cfg, s, t, ok).value)
  {
    hide Members, Balanced, Numbered, Enabled, NextThread, NextQuota, NextLock, NextInsts, NextSnaps,
         DrewZero, IsRunner, IsSwapped, Onces, ThreadOnce;
    var th := s.threads[t];
    var th' := NextThread(cfg, s, th, ok);
    KnownCurrent(s.insts);
    MembersUpdate(s.threads, IsRunner, t, th');
    MembersUpdate(s.threads, IsSwapped, t, th');
    if IsRunner(th) { HasMember(s.threads, IsRunner, t); }
    if IsSwapped(th) { HasMember(s.threads, IsSwapped, t); }
    SelfOnce(cfg, s, th, ok);
    CountsStep(cfg, s, th, ok, |Runners(s)|, |Swapped(s)|);
    RoleStays(cfg, s, th, ok);
    OthersStep(cfg, s, t);
  }

  lemma KnownCurrent(i: Instances)
    requires Onces(i)
    ensures i.current in i.onces
  {
  }

  lemma NextCurrent(i: Instances, th: Thread)
    requires Onces(i) && ThreadOnce(i, th)
    ensures var i' := NextInsts(i, th.pc, th.once); i'.current in i'.onces
  {
  }

  lemma AtMostOne(cfg: Config, s: State)
    requires QuotaInv(cfg, s) && CountInv(s)
    ensures |Zero(s)| <= 1 && |Runners(s)| <= 1
  {
    hide Members, Onces, ThreadOnce;
    KnownCurrent(s.insts);
  }

  lemma RoleStays(cfg: Config, s: State, th: Thread, ok: bool)
    ensures NextThread(cfg, s, th, ok).role == th.role
  {
  }

  lemma NewRequestCounts(cfg: Config, s: State, t: nat)
    requires CountInv(s) && t !in s.threads
    ensures CountInv(Arrive(cfg, s, t, Request).value)
  {
    hide Members, Onces;
    KnownCurrent(s.insts);
    var th := Thread(Request, Entry(cfg, Request), -1, 0);
    MembersUpdate(s.threads, IsRunner, t, th);
    MembersUpdate(s.threads, IsSwapped, t, th);
  }

  lemma CountStarts(cfg: Config)
    ensures CountInv(Init(cfg))
  {
    NoMembers(IsRunner);
    NoMembers(IsSwapped);
  }

  lemma {:induction false} CountKept(cfg: Config, actions: seq<Action>)
    requires cfg.servedTh >= 1 && Serves(actions) && Run(cfg, actions).Some?
    ensures CountInv(Run(cfg, actions).value)
  {
    hide CountInv, QuotaInv, Move, Arrive, Init;
    var n := |actions| - 1;
    if actions == [] {
      CountStarts(cfg);
    } else {
      CountKept(cfg, actions[..n]);
      QuotaKept(cfg, actions[..n]);
      var s := Run(cfg, actions[..n]).value;
      match actions[n]
      case Enter(t, role) => ArriveSome(cfg, s, t, role); NewRequestCounts(cfg, s, t);
      case Act(t, ok) => CountStep(cfg, s, t, ok);
    }
  }

  lemma SwappedHoldsAll(cfg: Config, s: State)
    requires cfg.servedTh >= 1 && QuotaInv(cfg, s) && CountInv(s)
    ensures |Swapped(s)| <= 1 && (Swapped(s) != {} ==> s.quota.held == cfg.servedTh)
  {
    hide Members, Onces, ThreadOnce;
    if Swapped(s) != {} {
      var t :| t in Swapped(s);
      SwappedDrew(cfg, s, t);
      assert forall u :: u in Swapped(s) ==> u == t by {
        forall u | u in Swapped(s) ensures u == t { SwappedDrew(cfg, s, u); OneRetires(cfg, s, t, u); }
      }
      assert Swapped(s) == {t};
      HeldByRetiring(cfg, s, t);
    }
  }

  lemma SwappedDrew(cfg: Config, s: State, t: nat)
    requires AllNumbered(cfg, s) && OnlyRequests(s) && t in Swapped(s)
    ensures t in s.threads && (DrewZero(s.threads[t]) || IsReleasing(s.threads[t]))
  {
  }

  lemma HeldByRetiring(cfg: Config, s: State, t: nat)
    requires QuotaInv(cfg, s) && t in s.threads && (DrewZero(s.threads[t]) || IsReleasing(s.threads[t]))
    ensures s.quota.held == cfg.servedTh
  {
    hide Members;
    if DrewZero(s.threads[t]) { HasMember(s.threads, DrewZero, t); } else { HasMember(s.threads, IsReleasing, t); }
  }

  lemma OneRetires(cfg: Config, s: State, t: nat, u: nat)
    requires cfg.servedTh >= 1 && QuotaInv(cfg, s) && t in s.threads && u in s.threads
    requires DrewZero(s.threads[t]) || IsReleasing(s.threads[t])
    requires DrewZero(s.threads[u]) || IsReleasing(s.threads[u])
    ensures t == u
  {
    hide Members;
    if DrewZero(s.threads[t]) { HasMember(s.threads, DrewZero, t); } else { HasMember(s.threads, IsReleasing, t); }
    if DrewZero(s.threads[u]) { HasMember(s.threads, DrewZero, u); } else { HasMember(s.threads, IsReleasing, u); }
    if DrewZero(s.threads[t]) { OnlyMember(s.threads, DrewZero, t, u); } else { OnlyMember(s.threads, IsReleasing, t, u); }
  }

  /** When every thread is a request: a Once that was replaced has run, at most one instance is
      started and not retired, and an instance is started at most once for every quota of requests
      that was admitted, and once more. */
  lemma InstancesCounted(cfg: Config, actions: seq<Action>)
    requires cfg.servedTh >= 1 && Serves(actions) && Run(cfg, actions).Some?
    ensures var s := Run(cfg, actions).value; var i := s.insts;
      && (forall o: nat :: o < i.current ==> o in i.onces && i.onces[o].Done?)
      && i.retirements <= i.starts <= i.retirements + 1
      && i.retirements <= s.quota.admitted / cfg.servedTh
      && i.starts <= 1 + s.quota.admitted / cfg.servedTh
  {
    hide Run, Members, ThreadOnce;
    var s := Run(cfg, actions).value;
    QuotaKept(cfg, actions);
    CountKept(cfg, actions);
    SwappedHoldsAll(cfg, s);
    ReleaseProduct(s.quota.releases, cfg.servedTh);
    assert s.insts.retirements * cfg.servedTh <= s.quota.admitted;
    ProductBound(s.insts.retirements, cfg.servedTh, s.quota.admitted);
  }

  /** A request that is forwarded after it drew zero finds the instance that it will retire started:
      the Once body has been completed. */
  lemma RetiresAStartedInstance(cfg: Config, actions: seq<Action>, t: nat)
    requires cfg.servedTh >= 1 && Serves(actions) && Run(cfg, actions).Some?
    requires var s := Run(cfg, actions).value; t in s.threads && s.threads[t].pc.RemoveSwap?
    ensures var i := Run(cfg, actions).value.insts;
      i.current in i.onces && i.onces[i.current].Done? && i.starts == i.retirements + 1
  {
    hide Run, Members;
    QuotaKept(cfg, actions);
    CountKept(cfg, actions);
    var s := Run(cfg, actions).value;
    assert Numbered(cfg, s.threads[t]);
  }

  // ----- snapshots and VM numbers, with any mix of requests, adders and removers -----

  predicate Writes(pc: Pc) { pc.AddStart? || pc.AddUnlock? || pc.RemoveSwap? || pc.RemoveUnlock? }

  predicate Reads(pc: Pc) {
    pc.Rpc? || pc.SnapOnce? || pc.SnapCreate? || pc.SnapMark? || pc.SnapDone? || pc.ReadUnlock?
  }

  /** A thread holds the lock exactly where its code does. */
  ghost predicate Locked(l: Lock, t: nat, th: Thread) {
    && (Writes(th.pc) <==> l.writer == Some(t))
    && (Reads(th.pc) <==> t in l.readers)
  }

  ghost predicate LockInv(s: State) {
    && (s.lock.writer.Some? ==> s.lock.readers == {})
    && (s.lock.writer.Some? ==> s.lock.writer.value in s.threads)
    && s.lock.readers <= s.threads.Keys
    && forall t :: t in s.threads ==> Locked(s.lock, t, s.threads[t])
  }

  lemma LockSelf(cfg: Config, s: State, t: nat, th: Thread, ok: bool)
    requires Enabled(cfg, s, th) && Locked(s.lock, t, th)
    requires s.lock.writer.Some? ==> s.lock.readers == {}
    ensures var l' := NextLock(s.lock, th.pc, t, ok);
      && Locked(l', t, NextThread(cfg, s, th, ok))
      && (l'.writer.Some? ==> l'.readers == {})
      && l'.readers <= s.lock.readers + {t}
      && (l'.writer == s.lock.writer || l'.writer == None || l'.writer == Some(t))
  {
  }

  lemma LockOther(cfg: Config, s: State, t: nat, th: Thread, ok: bool, u: nat, uth: Thread)
    requires Enabled(cfg, s, th) && Locked(s.lock, t, th) && Locked(s.lock, u, uth) && t != u
    ensures Locked(NextLock(s.lock, th.pc, t, ok), u, uth)
  {
  }

  lemma LockStep(cfg: Config, s: State, t: nat, ok: bool)
    requires LockInv(s) && t in s.threads && Move(cfg, s, t, ok).Some?
    ensures LockInv(Move(cfg, s, t, ok).value)
  {
    hide Enabled, NextThread, NextQuota, NextLock, NextInsts, NextSnaps, Locked;
    LockSelf(cfg, s, t, s.threads[t], ok);
    forall u | u in s.threads && u != t ensures Locked(NextLock(s.lock, s.threads[t].pc, t, ok), u, s.threads[u]) {
      LockOther(cfg, s, t, s.threads[t], ok, u, s.threads[u]);
    }
  }

  /** A ready snapshot is one of the current VM; fresh VMs are numbered in order. */
  ghost predicate SnapsInv(cfg: Config, sn: Snapshots) {
    && (sn.ready ==> sn.vm.Some? && sn.vm.value in sn.taken)
    && (forall i, j :: 0 <= i < j < |sn.started| ==> sn.started[i] < sn.started[j])
    && (forall i :: 0 <= i < |sn.started| ==> sn.started[i] < sn.lastInstanceID)
    && (sn.vm.Some? ==> sn.vm.value in sn.started)
    && (sn.ready ==> cfg.snapshotsEnabled)
  }

  /** Between taking the snapshot and marking it ready the current VM is the one snapshotted. */
  ghost predicate ThreadSnap(cfg: Config, sn: Snapshots, th: Thread) {
    && (th.pc.SnapMark? ==> sn.vm.Some? && sn.vm.value in sn.taken)
    && (th.pc.SnapOnce? || th.pc.SnapCreate? || th.pc.SnapMark? || th.pc.SnapDone? ==> cfg.snapshotsEnabled)
  }

  ghost predicate SnapInv(cfg: Config, s: State) {
    && LockInv(s)
    && SnapsInv(cfg, s.snaps)
    && forall t :: t in s.threads ==> ThreadSnap(cfg, s.snaps, s.threads[t])
  }

  lemma SnapsSelf(cfg: Config, s: State, th: Thread, ok: bool)
    requires Enabled(cfg, s, th) && SnapsInv(cfg, s.snaps) && ThreadSnap(cfg, s.snaps, th)
    ensures var sn' := NextSnaps(s.snaps, th.pc);
      SnapsInv(cfg, sn') && ThreadSnap(cfg, sn', NextThread(cfg, s, th, ok))
  {
  }

  lemma SnapsOther(cfg: Config, sn: Snapshots, th: Thread, u: Thread)
    requires ThreadSnap(cfg, sn, u) && !(Writes(th.pc) && Reads(u.pc))
    ensures ThreadSnap(cfg, NextSnaps(sn, th.pc), u)
  {
  }

  lemma SnapStep(cfg: Config, s: State, t: nat, ok: bool)
    requires SnapInv(cfg, s) && t in s.threads && Move(cfg, s, t, ok).Some?
    ensures SnapInv(cfg, Move(cfg, s, t, ok).value)
  {
    hide Enabled, NextThread, NextQuota, NextLock, NextInsts, NextSnaps, SnapsInv, ThreadSnap, Writes, Reads;
    LockStep(cfg, s, t, ok);
    SnapsSelf(cfg, s, s.threads[t], ok);
    forall u | u in s.threads && u != t ensures ThreadSnap(cfg, NextSnaps(s.snaps, s.threads[t].pc), s.threads[u]) {
      SnapsOther(cfg, s.snaps, s.threads[t], s.threads[u]);
    }
  }

  lemma NewThreadSnaps(cfg: Config, s: State, t: nat, role: Role)
    requires SnapInv(cfg, s) && t !in s.threads
    ensures SnapInv(cfg, Arrive(cfg, s, t, role).value)
  {
  }

  lemma SnapStarts(cfg: Config)
    ensures SnapInv(cfg, Init(cfg))
  {
  }

  lemma {:induction false} SnapKept(cfg: Config, actions: seq<Action>)
    requires Run(cfg, actions).Some?
    ensures SnapInv(cfg, Run(cfg, actions).value)
  {
    hide SnapInv, Move, Arrive, Init;
    var n := |actions| - 1;
    if actions == [] {
      SnapStarts(cfg);
    } else {
      SnapKept(cfg, actions[..n]);
      var s := Run(cfg, actions[..n]).value;
      match actions[n]
      case Enter(t, role) => ArriveSome(cfg, s, t, role); NewThreadSnaps(cfg, s, t, role);
      case Act(t, ok) => SnapStep(cfg, s, t, ok);
    }
  }

  /** In every interleaving: a ready snapshot is of the current VM, so loading only ever concerns a
      snapshotted VM; all fresh starts use different numbers; and once ready, no step changes the
      current VM again. */
  lemma SnapshotDiscipline(cfg: Config, actions: seq<Action>)
    requires Run(cfg, actions).Some?
    ensures var sn := Run(cfg, actions).value.snaps;
      && (sn.ready ==> sn.vm.Some? && sn.vm.value in sn.taken)
      && (forall i, j :: 0 <= i < j < |sn.started| ==> sn.started[i] != sn.started[j])
  {
    hide Run;
    SnapKept(cfg, actions);
  }

  lemma {:induction false} ReadyVMNeverChanges(cfg: Config, actions: seq<Action>, k: nat)
    requires k <= |actions| && Run(cfg, actions).Some?
    ensures var before := Run(cfg, actions[..k]);
      && before.Some?
      && (before.value.snaps.ready ==>
            Run(cfg, actions).value.snaps.ready && Run(cfg, actions).value.snaps.vm == before.value.snaps.vm
            && Run(cfg, actions).value.snaps.started == before.value.snaps.started)
    decreases |actions|
  {
    hide Enabled, NextThread, NextQuota, NextLock, NextInsts, Init;
    var n := |actions| - 1;
    if k == |actions| {
      assert actions[..k] == actions;
    } else {
      ReadyVMNeverChanges(cfg, actions[..n], k);
      assert actions[..n][..k] == actions[..k];
    }
  }
}
