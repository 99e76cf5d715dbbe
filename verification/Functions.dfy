/** One function served request by request: its instance is started when a request needs it and
    retired after servedTh requests. */
module Functions {
  import opened Arithmetic
  import opened Options
  import opened Texts

  // ----- the orchestrator a function drives -----

  datatype VMState = Running | Paused | Offloaded

  /** The VMs of all functions and the snapshots taken. A call is None when the VM is in no state for
      it: the orchestrator then reports an error, which makes the function panic. */
  datatype Orch = Orch(snapshotsEnabled: bool, vms: map<string, VMState>, snapshots: set<string>) {
    predicate Is(id: string, s: VMState) { id in vms && vms[id] == s }

    function StartVM(id: string): Option<Orch> {
      if id in vms then None else Some(this.(vms := vms[id := Running]))
    }

    function PauseVM(id: string): Option<Orch> {
      if Is(id, Running) then Some(this.(vms := vms[id := Paused])) else None
    }

    function ResumeVM(id: string): Option<Orch> {
      if Is(id, Paused) then Some(this.(vms := vms[id := Running])) else None
    }

    function CreateSnapshot(id: string): Option<Orch> {
      if Is(id, Paused) then Some(this.(snapshots := snapshots + {id})) else None
    }

    function Offload(id: string): Option<Orch> {
      if Is(id, Running) then Some(this.(vms := vms[id := Offloaded])) else None
    }

    function LoadSnapshot(id: string): Option<Orch> {
      if Is(id, Offloaded) && id in snapshots then Some(this.(vms := vms[id := Paused])) else None
    }

    function StopSingleVM(id: string): Option<Orch> {
      if id in vms then Some(this.(vms := vms - {id})) else None
    }
  }

  // ----- the function's state and what each operation makes of it -----

  datatype Config = Config(fID: string, isPinnedInMem: bool, servedTh: nat)

  /** `added` and `snapshotTaken` are the two Onces done; `held` is the permits taken. */
  datatype Fun = Fun(added: bool, snapshotTaken: bool, vmID: string, lastInstanceID: nat, isSnapshotReady: bool,
                     held: nat, servedSyncCounter: int, served: nat, started: nat, orch: Orch)

  datatype Reply = Answered(isColdStart: bool) | Failed(isColdStart: bool) | Blocked | Panicked

  datatype Served = Served(fun: Fun, reply: Reply)

  function VMID(fID: string, n: nat): string { fID + "-" + Decimal(n) }

  function NewFun(cfg: Config, orch: Orch): Fun {
    Fun(false, false, "", 0, false, 0, cfg.servedTh, 0, 0, orch)
  }

  function AfterLoad(f: Fun): Option<Fun> {
    match f.orch.LoadSnapshot(f.vmID)
    case None => None
    case Some(o) =>
      match o.ResumeVM(f.vmID)
      case None => None
      case Some(o') => Some(f.(orch := o'))
  }

  function AfterFreshStart(cfg: Config, f: Fun): Option<Fun> {
    var id := VMID(cfg.fID, f.lastInstanceID);
    match f.orch.StartVM(id)
    case None => None
    case Some(o) => Some(f.(orch := o, vmID := id, lastInstanceID := f.lastInstanceID + 1))
  }

  function AfterAdd(cfg: Config, f: Fun): Option<Fun> {
    match if f.isSnapshotReady then AfterLoad(f) else AfterFreshStart(cfg, f)
    case None => None
    case Some(g) => Some(g.(started := g.started + 1))
  }

  function AfterAddOnce(cfg: Config, f: Fun): Option<Fun> {
    if f.added then Some(f)
    else
      match AfterAdd(cfg, f)
      case None => None
      case Some(g) => Some(g.(added := true))
  }

  function AfterSnapshot(f: Fun): Option<Fun> {
    match f.orch.PauseVM(f.vmID)
    case None => None
    case Some(o) =>
      match o.CreateSnapshot(f.vmID)
      case None => None
      case Some(o') =>
        match o'.ResumeVM(f.vmID)
        case None => None
        case Some(o'') => Some(f.(orch := o''))
  }

  function AfterSnapshotOnce(f: Fun): Option<Fun> {
    if !f.orch.snapshotsEnabled || f.snapshotTaken then Some(f)
    else
      match AfterSnapshot(f)
      case None => None
      case Some(g) => Some(g.(isSnapshotReady := true, snapshotTaken := true))
  }

  function AfterRemove(f: Fun): Option<Fun> {
    match if f.orch.snapshotsEnabled then f.orch.Offload(f.vmID) else f.orch.StopSingleVM(f.vmID)
    case None => None
    case Some(o) => Some(f.(orch := o, added := false))
  }

  /** Releasing more permits than are held panics. */
  function AfterRetire(cfg: Config, f: Fun): Option<Fun> {
    match AfterRemove(f)
    case None => None
    case Some(g) =>
      if g.held < cfg.servedTh then None
      else Some(g.(served := 0, servedSyncCounter := cfg.servedTh, held := g.held - cfg.servedTh))
  }

  function AfterAdmit(cfg: Config, f: Fun): Fun {
    var g := if cfg.isPinnedInMem then f else f.(held := f.held + 1, servedSyncCounter := f.servedSyncCounter - 1);
    g.(served := g.served + 1)
  }

  function SyncID(cfg: Config, f: Fun): int {
    if cfg.isPinnedInMem then -1 else f.servedSyncCounter - 1
  }

  function AfterReply(cfg: Config, f: Fun, syncID: int): Option<Fun> {
    match AfterSnapshotOnce(f)
    case None => None
    case Some(g) => if !cfg.isPinnedInMem && syncID == 0 then AfterRetire(cfg, g) else Some(g)
  }

  /** A request on its own; `ok` is whether the forwarded call succeeds. With no permit left it waits
      for good, because nobody else runs. */
  function AfterServe(cfg: Config, f: Fun, ok: bool): Served {
    if !cfg.isPinnedInMem && f.held + 1 > cfg.servedTh then Served(f, Blocked)
    else
      match AfterAddOnce(cfg, AfterAdmit(cfg, f))
      case None => Served(f, Panicked)
      case Some(g) =>
        if !ok then Served(g, Failed(!f.added))
        else
          match AfterReply(cfg, g, SyncID(cfg, f))
          case None => Served(f, Panicked)
          case Some(h) => Served(h, Answered(!f.added))
  }

  // ----- the class -----

  class Function {
    const fID: string
    const isPinnedInMem: bool
    const servedTh: nat
    var onceAddInstance: bool
    var onceCreateSnapInstance: bool
    var vmID: string
    var lastInstanceID: nat
    var isSnapshotReady: bool
    var held: nat
    var servedSyncCounter: int
    var served: nat
    var started: nat
    var orch: Orch

    ghost function Cfg(): Config { Config(fID, isPinnedInMem, servedTh) }

    ghost function Value(): Fun
      reads this
    {
      Fun(onceAddInstance, onceCreateSnapInstance, vmID, lastInstanceID, isSnapshotReady, held, servedSyncCounter, served, started, orch)
    }

    constructor (fID: string, isToPin: bool, servedTh: nat, orch: Orch)
      ensures Cfg() == Config(fID, isToPin, servedTh) && Value() == NewFun(Cfg(), orch)
    {
      this.fID, this.isPinnedInMem, this.servedTh := fID, isToPin, servedTh;
      this.orch := orch;
      onceAddInstance, onceCreateSnapInstance, vmID, lastInstanceID, isSnapshotReady := false, false, "", 0, false;
      held, servedSyncCounter, served, started := 0, servedTh, 0, 0;
    }

    function GetVMID(): (id: string)
      reads this
      ensures id == VMID(fID, lastInstanceID)
    {
      fID + "-" + Decimal(lastInstanceID)
    }

    method LoadInstance() returns (panicked: bool)
      modifies this
      ensures panicked <==> AfterLoad(old(Value())).None?
      ensures !panicked ==> Value() == AfterLoad(old(Value())).value
    {
      var loaded := orch.LoadSnapshot(vmID);
      if loaded.None? { return true; }
      orch := loaded.value;
      var resumed := orch.ResumeVM(vmID);
      if resumed.None? { return true; }
      orch := resumed.value;
      return false;
    }

    method AddInstance() returns (panicked: bool)
      modifies this
      ensures panicked <==> AfterAdd(Cfg(), old(Value())).None?
      ensures !panicked ==> Value() == AfterAdd(Cfg(), old(Value())).value
    {
      if isSnapshotReady {
        panicked := LoadInstance();
        if panicked { return; }
      } else {
        var r := orch.StartVM(GetVMID());
        if r.None? { return true; }
        orch := r.value;
        vmID := GetVMID();
        lastInstanceID := lastInstanceID + 1;
      }
      started := started + 1;
      return false;
    }

    method CreateInstanceSnapshot() returns (panicked: bool)
      modifies this
      ensures panicked <==> AfterSnapshot(old(Value())).None?
      ensures !panicked ==> Value() == AfterSnapshot(old(Value())).value
    {
      var paused := orch.PauseVM(vmID);
      if paused.None? { return true; }
      orch := paused.value;
      var created := orch.CreateSnapshot(vmID);
      if created.None? { return true; }
      orch := created.value;
      var resumed := orch.ResumeVM(vmID);
      if resumed.None? { return true; }
      orch := resumed.value;
      return false;
    }

    method RemoveInstance() returns (panicked: bool)
      modifies this
      ensures panicked <==> AfterRemove(old(Value())).None?
      ensures !panicked ==> Value() == AfterRemove(old(Value())).value
    {
      onceAddInstance := false;
      var r := if orch.snapshotsEnabled then orch.Offload(vmID) else orch.StopSingleVM(vmID);
      if r.None? { return true; }
      orch := r.value;
      return false;
    }

    /** OnceAddInstance.Do */
    method AddInstanceOnce() returns (panicked: bool)
      modifies this
      ensures panicked <==> AfterAddOnce(Cfg(), old(Value())).None?
      ensures !panicked ==> Value() == AfterAddOnce(Cfg(), old(Value())).value
    {
      if onceAddInstance { return false; }
      panicked := AddInstance();
      if !panicked { onceAddInstance := true; }
    }

    /** OnceCreateSnapInstance.Do */
    method CreateSnapshotOnce() returns (panicked: bool)
      modifies this
      ensures panicked <==> AfterSnapshotOnce(old(Value())).None?
      ensures !panicked ==> Value() == AfterSnapshotOnce(old(Value())).value
    {
      if !orch.snapshotsEnabled || onceCreateSnapInstance { return false; }
      panicked := CreateInstanceSnapshot();
      if !panicked {
        isSnapshotReady := true;
        onceCreateSnapInstance := true;
      }
    }

    method Retire() returns (panicked: bool)
      modifies this
      ensures panicked <==> AfterRetire(Cfg(), old(Value())).None?
      ensures !panicked ==> Value() == AfterRetire(Cfg(), old(Value())).value
    {
      panicked := RemoveInstance();
      if panicked || held < servedTh { return true; }
      served := 0;
      servedSyncCounter := servedTh;
      held := held - servedTh;
    }

    method Serve(ok: bool) returns (reply: Reply)
      modifies this
      ensures reply == AfterServe(Cfg(), old(Value()), ok).reply
      ensures !reply.Panicked? ==> Value() == AfterServe(Cfg(), old(Value()), ok).fun
    {
      hide AfterAddOnce, AfterSnapshotOnce, AfterRetire;
      var syncID := -1;
      var isColdStart := !onceAddInstance;
      if !isPinnedInMem {
        if held + 1 > servedTh { return Blocked; }
        held := held + 1;
        servedSyncCounter := servedSyncCounter - 1;
        syncID := servedSyncCounter;
      }
      served := served + 1;
      var panicked := AddInstanceOnce();
      if panicked { return Panicked; }
      if !ok { return Failed(isColdStart); }
      panicked := CreateSnapshotOnce();
      if panicked { return Panicked; }
      if !isPinnedInMem && syncID == 0 {
        panicked := Retire();
        if panicked { return Panicked; }
      }
      return Answered(isColdStart);
    }
  }

  // ----- what every operation keeps -----

  lemma VMIDInjective(a: string, m: nat, b: string, n: nat)
    requires VMID(a, m) == VMID(b, n)
    ensures a == b && m == n
  {
    DecimalDigits(m);
    DecimalDigits(n);
    assert '-' !in Decimal(m) && '-' !in Decimal(n);
    JoinInjective(a, Decimal(m), b, Decimal(n), '-');
    DecimalInjective(m, n);
  }

  /** The next names are free. */
  ghost predicate NamesFree(cfg: Config, o: Orch, from: nat) {
    forall n: nat :: n >= from ==> VMID(cfg.fID, n) !in o.vms
  }

  /** The current VM is running while the Once is done; otherwise it is offloaded with its snapshot,
      or there is none. */
  ghost predicate Alive(cfg: Config, f: Fun) {
    && NamesFree(cfg, f.orch, f.lastInstanceID)
    && (f.lastInstanceID == 0 ==> f.vmID == "" && "" !in f.orch.vms)
    && (f.lastInstanceID > 0 ==> f.vmID == VMID(cfg.fID, f.lastInstanceID - 1))
    && (f.added ==> f.lastInstanceID > 0 && f.orch.Is(f.vmID, Running))
    && (!f.added && f.lastInstanceID > 0 ==>
          if f.orch.snapshotsEnabled then f.orch.Is(f.vmID, Offloaded) else f.vmID !in f.orch.vms)
    && (f.isSnapshotReady <==> f.snapshotTaken)
    && (f.isSnapshotReady ==> f.orch.snapshotsEnabled && f.lastInstanceID > 0 && f.vmID in f.orch.snapshots)
  }

  /** The permits held are what the counter has gone down by. */
  ghost predicate Counted(cfg: Config, f: Fun) {
    0 <= f.servedSyncCounter && f.held + f.servedSyncCounter == cfg.servedTh
  }

  ghost predicate Kept(cfg: Config, f: Fun) { Alive(cfg, f) && Counted(cfg, f) }

  lemma NamesDiffer(cfg: Config, m: nat)
    ensures forall n: nat :: n != m ==> VMID(cfg.fID, n) != VMID(cfg.fID, m)
    ensures VMID(cfg.fID, m) != ""
  {
    forall n: nat | n != m ensures VMID(cfg.fID, n) != VMID(cfg.fID, m) {
      if VMID(cfg.fID, n) == VMID(cfg.fID, m) { VMIDInjective(cfg.fID, n, cfg.fID, m); }
    }
  }

  lemma AddKeeps(cfg: Config, f: Fun)
    requires Alive(cfg, f)
    ensures var r := AfterAddOnce(cfg, f);
      && r.Some? && r.value.added && Alive(cfg, r.value) && r.value.orch.Is(r.value.vmID, Running)
      && r.value.orch.snapshotsEnabled == f.orch.snapshotsEnabled && (f.isSnapshotReady ==> f.orch.snapshotsEnabled)
      && r.value.started == f.started + (if f.added then 0 else 1)
      && r.value.lastInstanceID == f.lastInstanceID + (if f.added || f.isSnapshotReady then 0 else 1)
      && r.value == f.(added := true, orch := r.value.orch, vmID := r.value.vmID, started := r.value.started,
                       lastInstanceID := r.value.lastInstanceID)
  {
    hide VMID;
    NamesDiffer(cfg, f.lastInstanceID);
    if f.lastInstanceID > 0 { NamesDiffer(cfg, f.lastInstanceID - 1); }
  }

  lemma SnapshotKeeps(cfg: Config, f: Fun)
    requires Alive(cfg, f) && f.added
    ensures var r := AfterSnapshotOnce(f);
      && r.Some? && Alive(cfg, r.value) && r.value.orch.snapshotsEnabled == f.orch.snapshotsEnabled
      && r.value.isSnapshotReady == f.orch.snapshotsEnabled
      && r.value == f.(orch := r.value.orch, isSnapshotReady := r.value.isSnapshotReady, snapshotTaken := r.value.snapshotTaken)
  {
    hide VMID;
    NamesDiffer(cfg, f.lastInstanceID - 1);
  }

  /** Removing panics exactly when there is no running instance. */
  lemma RemovePanicsIff(cfg: Config, f: Fun)
    requires Alive(cfg, f)
    ensures AfterRemove(f).None? <==> !f.added
    ensures f.added ==>
      var g := AfterRemove(f).value;
      Alive(cfg, g) && g.orch.snapshotsEnabled == f.orch.snapshotsEnabled && g == f.(added := false, orch := g.orch)
  {
    hide VMID;
    if f.lastInstanceID > 0 { NamesDiffer(cfg, f.lastInstanceID - 1); }
  }

  /** A request that is not blocked is forwarded to a running VM of the function; no request panics. */
  lemma ServeReachesRunningVM(cfg: Config, f: Fun, ok: bool)
    requires Kept(cfg, f)
    ensures !AfterServe(cfg, f, ok).reply.Panicked?
    ensures Kept(cfg, AfterServe(cfg, f, ok).fun)
    ensures !AfterServe(cfg, f, ok).reply.Blocked? ==>
      var g := AfterAddOnce(cfg, AfterAdmit(cfg, f)); g.Some? && g.value.orch.Is(g.value.vmID, Running)
  {
    if !AfterServe(cfg, f, ok).reply.Blocked? {
      ServeSteps(cfg, f, ok);
    }
  }

  /** What a request that is not blocked does, step by step. */
  lemma ServeSteps(cfg: Config, f: Fun, ok: bool)
    requires Kept(cfg, f) && (!cfg.isPinnedInMem ==> f.held < cfg.servedTh)
    ensures var r := AfterServe(cfg, f, ok); var g := r.fun;
      var last := !cfg.isPinnedInMem && ok && f.servedSyncCounter == 1;
      && Kept(cfg, g)
      && AfterAddOnce(cfg, AfterAdmit(cfg, f)).Some?
      && AfterAddOnce(cfg, AfterAdmit(cfg, f)).value.orch.Is(AfterAddOnce(cfg, AfterAdmit(cfg, f)).value.vmID, Running)
      && r.reply == (if ok then Answered(!f.added) else Failed(!f.added))
      && g.added == !last
      && g.held == (if cfg.isPinnedInMem then f.held else if last then 0 else f.held + 1)
      && g.served == (if last then 0 else f.served + 1)
      && g.started == f.started + (if f.added then 0 else 1)
      && g.lastInstanceID == f.lastInstanceID + (if f.added || f.isSnapshotReady then 0 else 1)
      && (g.isSnapshotReady <==> f.isSnapshotReady || (ok && f.orch.snapshotsEnabled))
      && g.orch.snapshotsEnabled == f.orch.snapshotsEnabled
  {
    hide Alive, AfterAddOnce, AfterReply;
    var a := AfterAdmit(cfg, f);
    AliveSame(cfg, f, a);
    AddKeeps(cfg, a);
    if ok { ReplyKeeps(cfg, AfterAddOnce(cfg, a).value, SyncID(cfg, f)); }
  }

  lemma AliveSame(cfg: Config, f: Fun, g: Fun)
    requires Alive(cfg, f)
    requires g == f.(held := g.held, servedSyncCounter := g.servedSyncCounter, served := g.served)
    ensures Alive(cfg, g)
  {
    hide NamesFree;
  }

  lemma ReplyKeeps(cfg: Config, f: Fun, syncID: int)
    requires Alive(cfg, f) && f.added
    requires !cfg.isPinnedInMem && syncID == 0 ==> f.held >= cfg.servedTh
    ensures var r := AfterReply(cfg, f, syncID);
      var last := !cfg.isPinnedInMem && syncID == 0;
      && r.Some? && Alive(cfg, r.value)
      && r.value.orch.snapshotsEnabled == f.orch.snapshotsEnabled
      && r.value.isSnapshotReady == f.orch.snapshotsEnabled
      && r.value.added == !last
      && r.value.held == (if last then f.held - cfg.servedTh else f.held)
      && r.value.servedSyncCounter == (if last then cfg.servedTh else f.servedSyncCounter)
      && r.value.served == (if last then 0 else f.served)
      && r.value.started == f.started && r.value.lastInstanceID == f.lastInstanceID
  {
    hide Alive, AfterSnapshotOnce, AfterRemove;
    SnapshotKeeps(cfg, f);
    var h := AfterSnapshotOnce(f).value;
    if !cfg.isPinnedInMem && syncID == 0 {
      RemovePanicsIff(cfg, h);
      AliveSame(cfg, AfterRemove(h).value, AfterRetire(cfg, h).value);
    }
  }

  ghost predicate SameVM(o: Orch, o': Orch, id: string) {
    && (id in o.vms <==> id in o'.vms)
    && (id in o.vms ==> o.vms[id] == o'.vms[id])
    && (id in o.snapshots <==> id in o'.snapshots)
  }

  lemma AddTouches(cfg: Config, f: Fun, id: string)
    requires Alive(cfg, f) && id != f.vmID && id != VMID(cfg.fID, f.lastInstanceID)
    ensures SameVM(f.orch, AfterAddOnce(cfg, f).value.orch, id)
    ensures AfterAddOnce(cfg, f).value.vmID in {f.vmID, VMID(cfg.fID, f.lastInstanceID)}
  {
    hide VMID;
    AddKeeps(cfg, f);
  }

  lemma ReplyTouches(cfg: Config, f: Fun, syncID: int, id: string)
    requires id != f.vmID && AfterReply(cfg, f, syncID).Some?
    ensures SameVM(f.orch, AfterReply(cfg, f, syncID).value.orch, id)
  {
  }

  /** A request of one function leaves the VMs of every other function alone. */
  lemma OthersUntouched(cfg: Config, f: Fun, ok: bool, other: string, n: nat)
    requires Kept(cfg, f) && other != cfg.fID
    ensures SameVM(f.orch, AfterServe(cfg, f, ok).fun.orch, VMID(other, n))
  {
    hide VMID, AfterAddOnce, AfterReply, NamesFree;
    var id := VMID(other, n);
    NamesDiffer(Config(other, false, 0), n);
    if f.lastInstanceID > 0 && id == VMID(cfg.fID, f.lastInstanceID - 1) {
      VMIDInjective(other, n, cfg.fID, f.lastInstanceID - 1);
    }
    if id == VMID(cfg.fID, f.lastInstanceID) { VMIDInjective(other, n, cfg.fID, f.lastInstanceID); }
    if !AfterServe(cfg, f, ok).reply.Blocked? {
      ServeSteps(cfg, f, ok);
      var a := AfterAdmit(cfg, f);
      AliveSame(cfg, f, a);
      AddTouches(cfg, a, id);
      if ok { ReplyTouches(cfg, AfterAddOnce(cfg, a).value, SyncID(cfg, f), id); }
    }
  }

  // ----- requests one after the other -----

  datatype Trail = Trail(fun: Fun, replies: seq<Reply>)

  function ServeAll(cfg: Config, orch: Orch, oks: seq<bool>): Trail {
    if oks == [] then Trail(NewFun(cfg, orch), [])
    else
      var t := ServeAll(cfg, orch, oks[..|oks| - 1]);
      var r := AfterServe(cfg, t.fun, oks[|oks| - 1]);
      Trail(r.fun, t.replies + [r.reply])
  }

  /** No VM of the function exists before its first request. */
  ghost predicate Fits(cfg: Config, orch: Orch) { NamesFree(cfg, orch, 0) && "" !in orch.vms }

  /** Every request that is to retire an instance succeeds. */
  predicate RetiresWell(th: nat, oks: seq<bool>)
    requires th >= 1
  {
    forall i :: 0 <= i < |oks| && (i + 1) % th == 0 ==> oks[i]
  }

  /** Where an unpinned function stands after the given requests. */
  ghost predicate Standing(cfg: Config, f: Fun, enabled: bool, oks: seq<bool>)
    requires cfg.servedTh >= 1
  {
    var n := |oks|;
    && Kept(cfg, f)
    && f.orch.snapshotsEnabled == enabled
    && f.held == n % cfg.servedTh
    && f.served == n % cfg.servedTh
    && (f.added <==> n % cfg.servedTh != 0)
    && f.started == Ceil(n, cfg.servedTh)
    && f.lastInstanceID == (if enabled && n > 0 then 1 else f.started)
    && (f.isSnapshotReady <==> enabled && true in oks)
  }

  function ReplyOf(th: nat, i: nat, ok: bool): Reply
    requires th >= 1
  {
    if ok then Answered(i % th == 0) else Failed(i % th == 0)
  }

  /** As long as every retiring request succeeds, every servedTh-th request finds no instance and
      starts one, n requests start n / servedTh instances, rounded up, and with snapshots all of
      them are the same VM. */
  lemma {:induction false} InstancePerQuota(cfg: Config, orch: Orch, oks: seq<bool>)
    requires !cfg.isPinnedInMem && cfg.servedTh >= 1 && Fits(cfg, orch) && RetiresWell(cfg.servedTh, oks)
    ensures var t := ServeAll(cfg, orch, oks);
      && Standing(cfg, t.fun, orch.snapshotsEnabled, oks)
      && |t.replies| == |oks|
      && forall i :: 0 <= i < |oks| ==> t.replies[i] == ReplyOf(cfg.servedTh, i, oks[i])
  {
    hide Standing, AfterServe, RetiresWell, NewFun, Fits;
    if oks == [] {
      StandingStart(cfg, orch);
    } else {
      var n := |oks| - 1;
      RetiresPrefix(cfg.servedTh, oks);
      InstancePerQuota(cfg, orch, oks[..n]);
      StandingStep(cfg, ServeAll(cfg, orch, oks[..n]).fun, orch.snapshotsEnabled, oks[..n], oks[n]);
      assert oks == oks[..n] + [oks[n]];
    }
  }

  lemma StandingStart(cfg: Config, orch: Orch)
    requires cfg.servedTh >= 1 && Fits(cfg, orch)
    ensures Standing(cfg, NewFun(cfg, orch), orch.snapshotsEnabled, [])
  {
    CeilZero(cfg.servedTh);
    DivMod(0, 0, cfg.servedTh);
  }

  lemma NewKept(cfg: Config, orch: Orch)
    requires Fits(cfg, orch)
    ensures Kept(cfg, NewFun(cfg, orch))
  {
  }

  lemma RetiresPrefix(th: nat, oks: seq<bool>)
    requires th >= 1 && oks != [] && RetiresWell(th, oks)
    ensures RetiresWell(th, oks[..|oks| - 1])
    ensures |oks| % th == 0 ==> oks[|oks| - 1]
    ensures |oks| > 1 && (|oks| - 1) % th == 0 ==> true in oks[..|oks| - 1]
  {
    var n := |oks| - 1;
    if n > 0 && n % th == 0 { assert oks[n - 1] && oks[..n][n - 1]; }
  }

  lemma ServeNumbers(cfg: Config, f: Fun, ok: bool)
    requires Kept(cfg, f) && !cfg.isPinnedInMem && f.held < cfg.servedTh
    ensures var r := AfterServe(cfg, f, ok); var g := r.fun; var last := ok && f.servedSyncCounter == 1;
      && Kept(cfg, g)
      && r.reply == (if ok then Answered(!f.added) else Failed(!f.added))
      && g.added == !last
      && g.held == (if last then 0 else f.held + 1)
      && g.served == (if last then 0 else f.served + 1)
      && g.started == f.started + (if f.added then 0 else 1)
      && g.lastInstanceID == f.lastInstanceID + (if f.added || f.isSnapshotReady then 0 else 1)
      && (g.isSnapshotReady <==> f.isSnapshotReady || (ok && f.orch.snapshotsEnabled))
      && g.orch.snapshotsEnabled == f.orch.snapshotsEnabled
  {
    hide Kept, AfterServe, AfterAddOnce, AfterAdmit;
    ServeSteps(cfg, f, ok);
  }

  lemma HeldAndLeft(cfg: Config, f: Fun)
    requires Kept(cfg, f)
    ensures f.held + f.servedSyncCounter == cfg.servedTh
  {
    hide Alive;
  }

  lemma StandingStep(cfg: Config, f: Fun, enabled: bool, oks: seq<bool>, ok: bool)
    requires !cfg.isPinnedInMem && cfg.servedTh >= 1 && Standing(cfg, f, enabled, oks)
    requires (|oks| + 1) % cfg.servedTh == 0 ==> ok
    requires |oks| > 0 && |oks| % cfg.servedTh == 0 ==> true in oks
    ensures Standing(cfg, AfterServe(cfg, f, ok).fun, enabled, oks + [ok])
    ensures AfterServe(cfg, f, ok).reply == ReplyOf(cfg.servedTh, |oks|, ok)
  {
    hide Kept, AfterServe, Ceil;
    CountUp(|oks|, cfg.servedTh);
    CeilZero(cfg.servedTh);
    HeldAndLeft(cfg, f);
    ServeNumbers(cfg, f, ok);
    assert true in oks + [ok] <==> true in oks || ok;
  }

  /** A retiring request that fails keeps its permit and everybody else's: from then on the quota is
      used up. */
  lemma {:induction false} FailedRetirementExhausts(cfg: Config, orch: Orch, oks: seq<bool>)
    requires !cfg.isPinnedInMem && cfg.servedTh >= 1 && Fits(cfg, orch) && !RetiresWell(cfg.servedTh, oks)
    ensures ServeAll(cfg, orch, oks).fun.held == cfg.servedTh
  {
    hide Kept, AfterServe;
    var n := |oks| - 1;
    var th := cfg.servedTh;
    var f := ServeAll(cfg, orch, oks[..n]).fun;
    if RetiresWell(th, oks[..n]) {
      InstancePerQuota(cfg, orch, oks[..n]);
      assert (n + 1) % th == 0 && !oks[n];
      CountUp(n, th);
      StandingCounter(cfg, f, orch.snapshotsEnabled, oks[..n]);
      ServeSteps(cfg, f, false);
    } else {
      FailedRetirementExhausts(cfg, orch, oks[..n]);
      FullBlocks(cfg, f, oks[n]);
    }
  }

  lemma StandingCounter(cfg: Config, f: Fun, enabled: bool, oks: seq<bool>)
    requires cfg.servedTh >= 1 && Standing(cfg, f, enabled, oks)
    ensures f.servedSyncCounter == cfg.servedTh - |oks| % cfg.servedTh
  {
  }

  lemma FullBlocks(cfg: Config, f: Fun, ok: bool)
    requires !cfg.isPinnedInMem
    ensures AfterServe(cfg, f, ok).reply.Blocked? <==> f.held >= cfg.servedTh
    ensures f.held >= cfg.servedTh ==> AfterServe(cfg, f, ok).fun == f
  {
  }

  lemma FullBlocksOrPinned(cfg: Config, f: Fun, ok: bool)
    ensures AfterServe(cfg, f, ok).reply.Blocked? <==> !cfg.isPinnedInMem && f.held >= cfg.servedTh
  {
    if !cfg.isPinnedInMem { FullBlocks(cfg, f, ok); }
  }

  lemma ReadyIsTaken(cfg: Config, f: Fun)
    requires Alive(cfg, f)
    ensures (f.isSnapshotReady <==> f.snapshotTaken) && (f.isSnapshotReady || f.added ==> f.lastInstanceID > 0)
  {
  }

  /** A request waits for good exactly when some request before it that was to retire an instance
      failed. */
  lemma BlockedIff(cfg: Config, orch: Orch, oks: seq<bool>, ok: bool)
    requires !cfg.isPinnedInMem && cfg.servedTh >= 1 && Fits(cfg, orch)
    ensures AfterServe(cfg, ServeAll(cfg, orch, oks).fun, ok).reply.Blocked? <==> !RetiresWell(cfg.servedTh, oks)
  {
    hide Kept, AfterServe, RetiresWell;
    var f := ServeAll(cfg, orch, oks).fun;
    FullBlocks(cfg, f, ok);
    if RetiresWell(cfg.servedTh, oks) {
      InstancePerQuota(cfg, orch, oks);
    } else {
      FailedRetirementExhausts(cfg, orch, oks);
    }
  }

  /** A pinned function starts one instance and keeps it. */
  lemma {:induction false} PinnedKeepsInstance(cfg: Config, orch: Orch, oks: seq<bool>)
    requires cfg.isPinnedInMem && Fits(cfg, orch)
    ensures var t := ServeAll(cfg, orch, oks);
      && Kept(cfg, t.fun)
      && (t.fun.added <==> oks != [])
      && t.fun.started == t.fun.lastInstanceID == (if oks == [] then 0 else 1)
      && t.fun.served == |oks|
      && |t.replies| == |oks|
      && forall i :: 0 <= i < |oks| ==> t.replies[i] == (if oks[i] then Answered(i == 0) else Failed(i == 0))
  {
    hide Alive, AfterServe;
    if oks == [] {
      NewKept(cfg, orch);
    } else {
      var n := |oks| - 1;
      PinnedKeepsInstance(cfg, orch, oks[..n]);
      var f := ServeAll(cfg, orch, oks[..n]).fun;
      if n == 0 { NoSnapshotYet(cfg, f); }
      ServeSteps(cfg, f, oks[n]);
    }
  }

  lemma NoSnapshotYet(cfg: Config, f: Fun)
    requires Alive(cfg, f) && f.lastInstanceID == 0
    ensures !f.isSnapshotReady
  {
  }
}
