/** The pool of VMs over the tap manager. */
module VMPools {
  import opened Options
  import opened Taps
  import opened TapManagers

  datatype VM = VM(id: string, ni: NetworkInterface)

  datatype Pool = Pool(vms: map<string, VM>, taps: TapState)

  /** The pool afterwards and whether the call reports no error, or a panic. */
  datatype Outcome = Done(pool: Pool, ok: bool) | Panic

  function TapName(vmID: string): string { vmID + "_tap" }

  function AfterAllocate(p: Pool, vmID: string, env: Env): Outcome
    requires |p.taps.counts| == NUM_BRIDGES
  {
    if vmID in p.vms then Panic
    else
      var a := AfterAddTap(p.taps, TapName(vmID), env);
      if a.result.err || a.result.ni.None? then Done(p.(taps := a.taps), false)
      else Done(Pool(p.vms[vmID := VM(vmID, a.result.ni.value)], a.taps), true)
  }

  function AfterFree(p: Pool, vmID: string, removeOk: bool): Outcome {
    if vmID !in p.vms then Done(p, true)
    else if !removeOk then Done(p, false)
    else Done(p.(vms := p.vms - {vmID}), true)
  }

  function AfterRecreateTap(p: Pool, vmID: string, removeOk: bool, env: Env): Outcome
    requires |p.taps.counts| == NUM_BRIDGES
  {
    if vmID !in p.vms then Panic
    else if !removeOk then Done(p, false)
    else
      var a := AfterAddTap(p.taps, TapName(vmID), env);
      Done(p.(taps := a.taps), !a.result.err)
  }

  datatype Status = Ok | Error | Panicked

  class VMPool {
    var vmMap: map<string, VM>
    const tapManager: TapManager

    ghost predicate Ready()
      reads tapManager, tapManager.tapCountsPerBridge
    {
      tapManager.Ready()
    }

    ghost function Value(): Pool
      reads this, tapManager, tapManager.tapCountsPerBridge
    {
      Pool(vmMap, tapManager.Value())
    }

    constructor ()
      ensures Ready() && fresh(tapManager) && fresh(tapManager.tapCountsPerBridge)
      ensures Value() == Pool(map[], TapState([0, 0], map[]))
    {
      vmMap := map[];
      tapManager := new TapManager();
    }

    method Allocate(vmID: string, env: Env) returns (s: Status)
      requires Ready()
      modifies this, tapManager, tapManager.tapCountsPerBridge
      ensures Ready()
      ensures var o := AfterAllocate(old(Value()), vmID, env);
        && Value() == (if o.Panic? then old(Value()) else o.pool)
        && s == (if o.Panic? then Panicked else if o.ok then Ok else Error)
    {
      hide AfterAddTap;
      if vmID in vmMap { return Panicked; }
      var r := tapManager.AddTap(TapName(vmID), env);
      if r.err || r.ni.None? { return Error; }
      vmMap := vmMap[vmID := VM(vmID, r.ni.value)];
      return Ok;
    }

    method Free(vmID: string, removeOk: bool) returns (s: Status)
      modifies this
      ensures var o := AfterFree(old(Value()), vmID, removeOk);
        Value() == o.pool && s == if o.ok then Ok else Error
      ensures s == (if vmID in old(vmMap) && !removeOk then Error else Ok)
      ensures vmMap == if s == Ok then old(vmMap) - {vmID} else old(vmMap)
    {
      if vmID !in vmMap { return Ok; }
      if !removeOk { return Error; }
      vmMap := vmMap - {vmID};
      return Ok;
    }

    method RecreateTap(vmID: string, removeOk: bool, env: Env) returns (s: Status)
      requires Ready()
      modifies tapManager, tapManager.tapCountsPerBridge
      ensures Ready()
      ensures var o := AfterRecreateTap(old(Value()), vmID, removeOk, env);
        && Value() == (if o.Panic? then old(Value()) else o.pool)
        && s == (if o.Panic? then Panicked else if o.ok then Ok else Error)
    {
      hide AfterAddTap;
      if vmID !in vmMap { return Panicked; }
      if !removeOk { return Error; }
      var r := tapManager.AddTap(TapName(vmID), env);
      return if r.err then Error else Ok;
    }

    method GetVM(vmID: string) returns (vm: Option<VM>)
      ensures vm == if vmID in Value().vms then Some(Value().vms[vmID]) else None
    {
      vm := if vmID in vmMap then Some(vmMap[vmID]) else None;
    }
  }

  // ----- runs -----

  datatype Op =
    | Allocate(vmID: string, env: Env)
    | Free(vmID: string, removeOk: bool)
    | RecreateTap(vmID: string, removeOk: bool, env: Env)

  function After(p: Pool, op: Op): Outcome
    requires |p.taps.counts| == NUM_BRIDGES
  {
    match op
    case Allocate(id, env) => AfterAllocate(p, id, env)
    case Free(id, removeOk) => AfterFree(p, id, removeOk)
    case RecreateTap(id, removeOk, env) => AfterRecreateTap(p, id, removeOk, env)
  }

  /** Every VM has the interface that its tap name stands for. */
  ghost predicate PoolOk(p: Pool) {
    && TapsOk(p.taps)
    && forall id :: id in p.vms ==>
         p.vms[id].id == id && TapName(id) in p.taps.created && p.vms[id].ni == p.taps.created[TapName(id)]
  }

  /** Run from a given pool; None after a panic. */
  function Run(p: Pool, ops: seq<Op>): (r: Option<Pool>)
    requires PoolOk(p)
    ensures r.Some? ==> PoolOk(r.value)
  {
    if ops == [] then Some(p)
    else
      match Run(p, ops[..|ops| - 1])
      case None => None
      case Some(q) =>
        StepKeeps(q, ops[|ops| - 1]);
        match After(q, ops[|ops| - 1])
        case Panic => None
        case Done(q', _) => Some(q')
  }

  lemma StepKeeps(p: Pool, op: Op)
    requires PoolOk(p)
    ensures After(p, op).Done? ==> PoolOk(After(p, op).pool)
  {
    hide TapsOk, AfterAddTap;
    if !op.Free? {
      CountsKnown(p.taps);
      AddTapKeeps(p.taps, TapName(op.vmID), op.env);
      AddTapStable(p.taps, TapName(op.vmID), op.env);
    }
  }

  lemma CountsKnown(t: TapState)
    requires TapsOk(t)
    ensures |t.counts| == NUM_BRIDGES
  {
  }

  /** Interfaces once made stay as they are, over any run. */
  lemma {:induction false} InterfacesStay(p: Pool, ops: seq<Op>)
    requires PoolOk(p) && Run(p, ops).Some?
    ensures var q := Run(p, ops).value;
      forall n :: n in p.taps.created ==> n in q.taps.created && q.taps.created[n] == p.taps.created[n]
  {
    hide TapsOk, AfterAddTap;
    if ops != [] {
      var n := |ops| - 1;
      InterfacesStay(p, ops[..n]);
      var q := Run(p, ops[..n]).value;
      if !ops[n].Free? {
        CountsKnown(q.taps);
        AddTapStable(q.taps, TapName(ops[n].vmID), ops[n].env);
      }
    }
  }

  /** Stable addresses: whenever a VM of this name is in the pool again, however often it was freed
      and allocated in between, it has the interface it had before. */
  lemma StableAddresses(p: Pool, ops: seq<Op>, id: string)
    requires PoolOk(p) && Run(p, ops).Some? && id in p.vms && id in Run(p, ops).value.vms
    ensures Run(p, ops).value.vms[id] == p.vms[id]
  {
    InterfacesStay(p, ops);
  }

  /** Allocating a name that was allocated before consumes no slot. */
  lemma ReallocationIsFree(p: Pool, ops: seq<Op>, id: string, env: Env)
    requires PoolOk(p) && Run(p, ops).Some? && id in p.vms && id !in Run(p, ops).value.vms
    ensures var q := Run(p, ops).value;
      && |q.taps.counts| == NUM_BRIDGES
      && After(q, Allocate(id, env)).Done? && After(q, Allocate(id, env)).pool.taps == q.taps
      && (env.linkOk ==> After(q, Allocate(id, env)) == Done(q.(vms := q.vms[id := p.vms[id]]), true))
  {
    hide Run, TapsOk, AfterAddTap;
    InterfacesStay(p, ops);
    var q := Run(p, ops).value;
    CountsKnown(q.taps);
    AddTapStable(q.taps, TapName(id), env);
  }

  lemma TapNameInjective(a: string, b: string)
    requires TapName(a) == TapName(b)
    ensures a == b
  {
    assert |a| == |b|;
    assert a == TapName(a)[..|a|] && b == TapName(b)[..|b|];
  }

  /** VMs in the pool at the same time have different addresses. */
  lemma LiveVMsApart(p: Pool, ops: seq<Op>, a: string, b: string)
    requires PoolOk(p) && Run(p, ops).Some? && a != b
    requires a in Run(p, ops).value.vms && b in Run(p, ops).value.vms
    ensures var q := Run(p, ops).value;
      q.vms[a].ni.macAddress != q.vms[b].ni.macAddress && q.vms[a].ni.primaryAddress != q.vms[b].ni.primaryAddress
  {
    hide Run, TapName;
    if TapName(a) == TapName(b) { TapNameInjective(a, b); }
  }

  /** A fresh pool satisfies what every run keeps. */
  lemma NewPoolOk()
    ensures PoolOk(Pool(map[], TapState([0, 0], map[])))
  {
  }

  /** A panic is an allocation of a VM that is in the pool, or a tap recreated for one that is not. */
  lemma PanicIff(p: Pool, op: Op)
    requires PoolOk(p)
    ensures After(p, op).Panic? <==> (op.Allocate? && op.vmID in p.vms) || (op.RecreateTap? && op.vmID !in p.vms)
  {
    hide TapsOk, AfterAddTap;
    CountsKnown(p.taps);
  }

  // ----- what is in the pool -----

  /** The last Allocate or Free of this VM that reported no error was an Allocate; without any, the VM
      was in the pool at the start. */
  ghost predicate LastAllocated(p: Pool, ops: seq<Op>, id: string)
    requires PoolOk(p)
  {
    if ops == [] then id in p.vms
    else
      var n := |ops| - 1;
      if ops[n].vmID == id && !ops[n].RecreateTap? && Reported(p, ops, n) then ops[n].Allocate?
      else LastAllocated(p, ops[..n], id)
  }

  /** Operation k reports no error. */
  ghost predicate Reported(p: Pool, ops: seq<Op>, k: nat)
    requires PoolOk(p) && k < |ops|
  {
    Run(p, ops[..k]).Some?
    && var o := After(Run(p, ops[..k]).value, ops[k]);
       o.Done? && o.ok
  }

  /** What one operation does to the pool of VMs, by what it reports. */
  lemma VMsAfter(p: Pool, op: Op, id: string)
    requires PoolOk(p) && After(p, op).Done?
    ensures var o := After(p, op);
      && (id != op.vmID ==> (id in o.pool.vms <==> id in p.vms))
      && (id in p.vms && id in o.pool.vms ==> o.pool.vms[id] == p.vms[id])
      && (id == op.vmID && o.ok && op.Allocate? ==> id !in p.vms && id in o.pool.vms)
      && (id == op.vmID && o.ok && op.Free? ==> id !in o.pool.vms)
      && (op.RecreateTap? || !o.ok ==> o.pool.vms == p.vms)
  {
    hide TapsOk, AfterAddTap;
    CountsKnown(p.taps);
  }

  /** A VM is in the pool exactly when the last of its allocations and frees that succeeded was an
      allocation. */
  lemma {:induction false} InPoolIff(p: Pool, ops: seq<Op>, id: string)
    requires PoolOk(p) && Run(p, ops).Some?
    ensures id in Run(p, ops).value.vms <==> LastAllocated(p, ops, id)
  {
    hide PoolOk, After;
    if ops != [] {
      var n := |ops| - 1;
      InPoolIff(p, ops[..n], id);
      VMsAfter(Run(p, ops[..n]).value, ops[n], id);
    }
  }

  /** Only the operations of a VM put it in or take it out, and while it stays its entry stays. */
  lemma {:induction false} OthersLeaveIt(p: Pool, ops: seq<Op>, id: string)
    requires PoolOk(p) && Run(p, ops).Some? && forall k :: 0 <= k < |ops| ==> ops[k].vmID != id
    ensures var q := Run(p, ops).value;
      && (id in q.vms <==> id in p.vms)
      && (id in p.vms ==> q.vms[id] == p.vms[id])
  {
    hide PoolOk, After;
    if ops != [] {
      var n := |ops| - 1;
      OthersLeaveIt(p, ops[..n], id);
      VMsAfter(Run(p, ops[..n]).value, ops[n], id);
    }
  }

  /** When each operation reports no error. An allocation of a name that had a tap needs only the link; a
      new name also needs the packet filter and a bridge that is not full. */
  lemma RepliesIff(p: Pool, op: Op)
    requires PoolOk(p) && After(p, op).Done?
    ensures var known := TapName(op.vmID) in p.taps.created;
      var room := exists b: nat :: b < 2 && |p.taps.counts| == 2 && p.taps.counts[b] < 1000;
      After(p, op).ok <==>
        match op
        case Allocate(_, env) => env.linkOk && (known || (env.iptablesOk && room))
        case Free(id, removeOk) => id !in p.vms || removeOk
        case RecreateTap(_, removeOk, env) => removeOk && env.linkOk
  {
    hide TapsOk, AfterAddTap;
    CountsKnown(p.taps);
    if !op.Free? && TapName(op.vmID) !in p.taps.created { NewTapReply(p.taps, TapName(op.vmID), op.env); }
    if !op.Free? { AddTapStable(p.taps, TapName(op.vmID), op.env); }
  }

  lemma NewTapReply(t: TapState, name: string, env: Env)
    requires |t.counts| == NUM_BRIDGES && name !in t.created
    ensures var r := AfterAddTap(t, name, env).result;
      && (r.err <==> !(env.linkOk && env.iptablesOk && exists b: nat :: b < 2 && t.counts[b] < 1000))
      && (r.err <==> r.ni.None?)
  {
    hide AfterAddTap;
    if t.counts[0] < 1000 { NewTapTakesFirstFree(t, name, env, 0); }
    else if t.counts[1] < 1000 { NewTapTakesFirstFree(t, name, env, 1); }
    else { NewTapRefused(t, name, env); }
  }

  /** A VM whose free reported no error can be allocated again. */
  lemma FreedCanBeAllocated(p: Pool, id: string, removeOk: bool, env: Env)
    requires PoolOk(p) && After(p, Free(id, removeOk)).Done? && After(p, Free(id, removeOk)).ok
    ensures PoolOk(After(p, Free(id, removeOk)).pool)
    ensures After(After(p, Free(id, removeOk)).pool, Allocate(id, env)).Done?
  {
    hide TapsOk, AfterAddTap;
    CountsKnown(p.taps);
    StepKeeps(p, Free(id, removeOk));
    PanicIff(After(p, Free(id, removeOk)).pool, Allocate(id, env));
  }

  /** The tap of a VM in the pool has the VM's name and a place of its own. */
  lemma VMAddressed(p: Pool, ops: seq<Op>, id: string)
    requires PoolOk(p) && Run(p, ops).Some? && id in Run(p, ops).value.vms
    ensures var vm := Run(p, ops).value.vms[id];
      vm.id == id && exists b: nat, i: nat :: Addressed(vm.ni, id + "_tap", b, i)
  {
    hide Run, TapsOk, Addressed;
    InterfacesAddressed(Run(p, ops).value.taps, TapName(id));
  }
}
