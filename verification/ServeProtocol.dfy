/** The serving protocol of one function: any number of request threads, and callers that add or
    remove an instance, interleaved one atomic action at a time. */
module ServeProtocol {
  import opened Options

  /** Fixed for a function: the request quota of an instance, whether the function is pinned in
      memory, and whether the orchestrator takes snapshots. */
  datatype Config = Config(servedTh: nat, isPinned: bool, snapshotsEnabled: bool)

  datatype Role = Request | Adder | Remover

  datatype Pc =
    | Acquire       // before taking a permit
    | Decrement     // permit held, before the atomic decrement
    | LoadOnce      // before reading the current Once
    | DoOnce        // before Do on the Once that was read
    | AddLock       // in the Once's body, before the write lock
    | AddStart      // write lock held, before starting or loading the VM
    | AddUnlock     // VM started, write lock still held
    | OnceDone      // lock released, the Once not yet marked done
    | ReadLock
    | Rpc           // read lock held, request being forwarded
    | SnapOnce      // request answered, before Do on the snapshot Once
    | SnapCreate    // in its body, before the snapshot is taken
    | SnapMark      // snapshot taken, not yet marked ready
    | SnapDone      // marked ready, the Once not yet marked done
    | ReadUnlock
    | RemoveLock    // before the write lock of the removal
    | RemoveSwap    // write lock held, before the Once is replaced
    | RemoveUnlock  // Once replaced, write lock still held
    | Reset         // instance retired, before the counter is reset
    | Release       // counter reset, before the permits are released
    | Finished
    | Errored       // the request failed and returned early

  datatype Thread = Thread(role: Role, pc: Pc, syncID: int, once: nat)

  datatype OnceState = Fresh | Running(started: bool) | Done

  /** The semaphore's permits in use and the atomic counter, with what has happened: decrements
      since the last reset, permits ever taken, releases. */
  datatype Quota = Quota(held: int, counter: int, decrements: nat, admitted: nat, releases: nat)

  datatype Lock = Lock(writer: Option<nat>, readers: set<nat>)

  /** The current Once, the state of every Once so far, instances started and retired. */
  datatype Instances = Instances(current: nat, onces: map<nat, OnceState>, starts: nat, retirements: nat)

  /** The snapshot Once, the ready flag, the current VM, the next VM number, all VMs freshly started
      and all VMs that have a snapshot. */
  datatype Snapshots = Snapshots(once: OnceState, ready: bool, vm: Option<nat>, lastInstanceID: nat, started: seq<nat>, taken: set<nat>)

  datatype State = State(threads: map<nat, Thread>, quota: Quota, lock: Lock, insts: Instances, snaps: Snapshots)

  function Init(cfg: Config): State {
    State(map[], Quota(0, cfg.servedTh, 0, 0, 0), Lock(None, {}), Instances(0, map[0 := Fresh], 0, 0),
          Snapshots(Fresh, false, None, 0, [], {}))
  }

  function Entry(cfg: Config, role: Role): Pc {
    match role
    case Request => if cfg.isPinned then LoadOnce else Acquire
    case Adder => LoadOnce
    case Remover => RemoveLock
  }

  function AfterOnce(role: Role): Pc {
    if role.Request? then ReadLock else Finished
  }

  function AfterRequest(cfg: Config, syncID: int): Pc {
    if !cfg.isPinned && syncID == 0 then RemoveLock else Finished
  }

  /** A new thread enters. */
  function Arrive(cfg: Config, s: State, t: nat, role: Role): Option<State> {
    if t in s.threads then None
    else Some(s.(threads := s.threads[t := Thread(role, Entry(cfg, role), -1, 0)]))
  }

  /** Where a thread waits: for a permit, for the body of a Once another thread runs, for the read or
      the write lock; snapshotting needs a VM. */
  predicate Enabled(cfg: Config, s: State, th: Thread) {
    match th.pc
    case Acquire => s.quota.held + 1 <= cfg.servedTh
    case DoOnce => th.once in s.insts.onces && !s.insts.onces[th.once].Running?
    case AddLock => s.lock.writer == None && s.lock.readers == {}
    case ReadLock => s.lock.writer == None
    case SnapOnce => !s.snaps.once.Running?
    case SnapCreate => s.snaps.vm.Some?
    case RemoveLock => s.lock.writer == None && s.lock.readers == {}
    case Finished => false
    case Errored => false
    case _ => true
  }

  /** Where a thread goes; `ok` is whether the forwarded request succeeds. */
  function NextPc(cfg: Config, s: State, th: Thread, ok: bool): Pc {
    match th.pc
    case Acquire => Decrement
    case Decrement => LoadOnce
    case LoadOnce => DoOnce
    case DoOnce => if th.once in s.insts.onces && s.insts.onces[th.once].Done? then AfterOnce(th.role) else AddLock
    case AddLock => AddStart
    case AddStart => AddUnlock
    case AddUnlock => OnceDone
    case OnceDone => AfterOnce(th.role)
    case ReadLock => Rpc
    case Rpc => if !ok then Errored else if cfg.snapshotsEnabled then SnapOnce else ReadUnlock
    case SnapOnce => if s.snaps.once.Done? then ReadUnlock else SnapCreate
    case SnapCreate => SnapMark
    case SnapMark => SnapDone
    case SnapDone => ReadUnlock
    case ReadUnlock => AfterRequest(cfg, th.syncID)
    case RemoveLock => RemoveSwap
    case RemoveSwap => RemoveUnlock
    case RemoveUnlock => if th.role.Request? then Reset else Finished
    case Reset => Release
    case _ => Finished
  }

  function NextThread(cfg: Config, s: State, th: Thread, ok: bool): Thread {
    th.(pc := NextPc(cfg, s, th, ok),
        syncID := if th.pc.Decrement? then s.quota.counter - 1 else th.syncID,
        once := if th.pc.LoadOnce? then s.insts.current else th.once)
  }

  function NextQuota(cfg: Config, q: Quota, pc: Pc): Quota {
    match pc
    case Acquire => q.(held := q.held + 1, admitted := q.admitted + 1)
    case Decrement => q.(counter := q.counter - 1, decrements := q.decrements + 1)
    case Reset => q.(counter := cfg.servedTh, decrements := 0)
    case Release => q.(held := q.held - cfg.servedTh, releases := q.releases + 1)
    case _ => q
  }

  function NextLock(l: Lock, pc: Pc, t: nat, ok: bool): Lock {
    match pc
    case AddLock => l.(writer := Some(t))
    case AddUnlock => l.(writer := None)
    case ReadLock => l.(readers := l.readers + {t})
    case Rpc => if ok then l else l.(readers := l.readers - {t})
    case ReadUnlock => l.(readers := l.readers - {t})
    case RemoveLock => l.(writer := Some(t))
    case RemoveUnlock => l.(writer := None)
    case _ => l
  }

  function NextInsts(i: Instances, pc: Pc, once: nat): Instances {
    match pc
    case DoOnce => if once in i.onces && i.onces[once].Fresh? then i.(onces := i.onces[once := Running(false)]) else i
    case AddStart => i.(onces := i.onces[once := Running(true)], starts := i.starts + 1)
    case OnceDone => i.(onces := i.onces[once := Done])
    case RemoveSwap => i.(current := i.current + 1, onces := i.onces[i.current + 1 := Fresh], retirements := i.retirements + 1)
    case _ => i
  }

  /** AddStart loads the snapshot when there is one, otherwise it starts a fresh VM under the next
      number. */
  function NextSnaps(sn: Snapshots, pc: Pc): Snapshots {
    match pc
    case AddStart =>
      if sn.ready then sn
      else sn.(vm := Some(sn.lastInstanceID), lastInstanceID := sn.lastInstanceID + 1, started := sn.started + [sn.lastInstanceID])
    case SnapOnce => if sn.once.Fresh? then sn.(once := Running(false)) else sn
    case SnapCreate => if sn.vm.Some? then sn.(taken := sn.taken + {sn.vm.value}) else sn
    case SnapMark => sn.(ready := true)
    case SnapDone => sn.(once := Done)
    case _ => sn
  }

  /** The next atomic action of thread t; None when it has to wait or has nothing left to do. A
      panic ends the process, so a run simply has no step after it. */
  function Move(cfg: Config, s: State, t: nat, ok: bool): Option<State>
    requires t in s.threads
  {
    var th := s.threads[t];
    if !Enabled(cfg, s, th) then None
    else Some(State(s.threads[t := NextThread(cfg, s, th, ok)],
                    NextQuota(cfg, s.quota, th.pc),
                    NextLock(s.lock, th.pc, t, ok),
                    NextInsts(s.insts, th.pc, th.once),
                    NextSnaps(s.snaps, th.pc)))
  }

  /** One step of a run: a thread arrives, or a thread acts. */
  datatype Action = Enter(t: nat, role: Role) | Act(t: nat, ok: bool)

  function Next(cfg: Config, s: State, a: Action): Option<State> {
    match a
    case Enter(t, role) => Arrive(cfg, s, t, role)
    case Act(t, ok) => if t in s.threads then Move(cfg, s, t, ok) else None
  }

  /** The state after a sequence of actions; None when one of them is not possible. */
  function Run(cfg: Config, actions: seq<Action>): Option<State> {
    if actions == [] then Some(Init(cfg))
    else
      match Run(cfg, actions[..|actions| - 1])
      case None => None
      case Some(s) => Next(cfg, s, actions[|actions| - 1])
  }

  // ----- the quota -----

  ghost function Members(threads: map<nat, Thread>, p: Thread -> bool): set<nat> {
    set t | t in threads && p(threads[t])
  }

  lemma MembersWith(threads: map<nat, Thread>, p: Thread -> bool, t: nat, th: Thread)
    ensures Members(threads[t := th], p) == if p(th) then Members(threads, p) + {t} else Members(threads, p) - {t}
  {
  }

  lemma MembersUpdate(threads: map<nat, Thread>, p: Thread -> bool, t: nat, th: Thread)
    ensures |Members(threads[t := th], p)|
      == |Members(threads, p)| - (if t in threads && p(threads[t]) then 1 else 0) + (if p(th) then 1 else 0)
  {
    MembersWith(threads, p, t, th);
    assert t in threads && p(threads[t]) <==> t in Members(threads, p);
  }

  /** Holds a permit and has not drawn its number. */
  predicate IsPending(th: Thread) { th.pc.Decrement? }

  /** Drew the number zero and has not released the permits; an errored request stays here. */
  predicate DrewZero(th: Thread) { th.syncID == 0 && !th.pc.Release? && !th.pc.Finished? }

  predicate IsReleasing(th: Thread) { th.pc.Release? }

  ghost function Pending(s: State): set<nat> { Members(s.threads, IsPending) }

  ghost function Zero(s: State): set<nat> { Members(s.threads, DrewZero) }

  ghost function Releasing(s: State): set<nat> { Members(s.threads, IsReleasing) }

  /** Where a number drawn is known: none before the decrement, and of the requests only the one
      that drew zero retires the instance, resets and releases. */
  ghost predicate Numbered(cfg: Config, th: Thread) {
    && (th.pc.Acquire? || th.pc.Decrement? ==> th.role.Request? && th.syncID != 0 && !cfg.isPinned)
    && (th.pc.Reset? || th.pc.Release? ==> th.role.Request? && th.syncID == 0)
    && (th.pc.RemoveLock? || th.pc.RemoveSwap? || th.pc.RemoveUnlock? ==> (th.role.Request? <==> th.syncID == 0))
    && (!th.role.Request? || cfg.isPinned ==> th.syncID != 0)
  }

  ghost predicate AllNumbered(cfg: Config, s: State) {
    forall t :: t in s.threads ==> Numbered(cfg, s.threads[t])
  }

  /** The counter is the quota minus the decrements of the epoch; the permits held are those
      decrements, the pending ones, and the whole quota while it is being released; the number zero
      has been drawn exactly when the epoch is used up. */
  ghost predicate Balanced(cfg: Config, q: Quota, pending: nat, zero: nat, releasing: nat) {
    && q.counter == cfg.servedTh - q.decrements
    && q.decrements <= cfg.servedTh
    && zero == (if q.decrements == cfg.servedTh then 1 else 0)
    && releasing <= 1
    && (releasing == 1 ==> q.decrements == 0)
    && q.held == q.decrements + pending + (if releasing == 1 then cfg.servedTh else 0)
    && q.held <= cfg.servedTh
    && q.admitted == q.releases * cfg.servedTh + q.held
  }

  ghost predicate QuotaInv(cfg: Config, s: State) {
    && AllNumbered(cfg, s)
    && Balanced(cfg, s.quota, |Pending(s)|, |Zero(s)|, |Releasing(s)|)
  }

  lemma NumberedStep(cfg: Config, s: State, th: Thread, ok: bool)
    requires Numbered(cfg, th) && Enabled(cfg, s, th)
    ensures Numbered(cfg, NextThread(cfg, s, th, ok))
  {
  }

  lemma ReleaseProduct(releases: nat, th: nat)
    ensures (releases + 1) * th == releases * th + th
  {
  }

  lemma HasMember(threads: map<nat, Thread>, p: Thread -> bool, t: nat)
    requires t in threads && p(threads[t])
    ensures |Members(threads, p)| >= 1
  {
    assert t in Members(threads, p);
  }

  function One(b: bool): nat { if b then 1 else 0 }

  lemma BalancedStep(cfg: Config, s: State, th: Thread, ok: bool, pending: nat, zero: nat, releasing: nat)
    requires cfg.servedTh >= 1 && Numbered(cfg, th) && Enabled(cfg, s, th)
    requires Balanced(cfg, s.quota, pending, zero, releasing)
    requires (IsPending(th) ==> pending >= 1) && (DrewZero(th) ==> zero >= 1) && (IsReleasing(th) ==> releasing >= 1)
    ensures var th' := NextThread(cfg, s, th, ok);
      && pending - One(IsPending(th)) + One(IsPending(th')) >= 0
      && zero - One(DrewZero(th)) + One(DrewZero(th')) >= 0
      && releasing - One(IsReleasing(th)) + One(IsReleasing(th')) >= 0
      && Balanced(cfg, NextQuota(cfg, s.quota, th.pc),
           pending - One(IsPending(th)) + One(IsPending(th')),
           zero - One(DrewZero(th)) + One(DrewZero(th')),
           releasing - One(IsReleasing(th)) + One(IsReleasing(th')))
  {
    ReleaseProduct(s.quota.releases, cfg.servedTh);
  }

  lemma QuotaStep(cfg: Config, s: State, t: nat, ok: bool)
    requires cfg.servedTh >= 1 && QuotaInv(cfg, s)
    requires t in s.threads && Move(cfg, s, t, ok).Some?
    ensures QuotaInv(cfg, Move(cfg, s, t, ok).value)
  {
    hide Members, Balanced, Numbered, Enabled, NextThread, NextQuota, NextLock, NextInsts, NextSnaps, IsPending, DrewZero, IsReleasing;
    var th := s.threads[t];
    var th' := NextThread(cfg, s, th, ok);
    NumberedStep(cfg, s, th, ok);
    MembersUpdate(s.threads, IsPending, t, th');
    MembersUpdate(s.threads, DrewZero, t, th');
    MembersUpdate(s.threads, IsReleasing, t, th');
    if IsPending(th) { HasMember(s.threads, IsPending, t); }
    if DrewZero(th) { HasMember(s.threads, DrewZero, t); }
    if IsReleasing(th) { HasMember(s.threads, IsReleasing, t); }
    BalancedStep(cfg, s, th, ok, |Pending(s)|, |Zero(s)|, |Releasing(s)|);
  }

  lemma NewThreadQuota(cfg: Config, s: State, t: nat, role: Role)
    requires cfg.servedTh >= 1 && QuotaInv(cfg, s) && t !in s.threads
    ensures QuotaInv(cfg, Arrive(cfg, s, t, role).value)
  {
    hide Members, Balanced;
    var th := Thread(role, Entry(cfg, role), -1, 0);
    MembersUpdate(s.threads, IsPending, t, th);
    MembersUpdate(s.threads, DrewZero, t, th);
    MembersUpdate(s.threads, IsReleasing, t, th);
  }

  lemma NoMembers(p: Thread -> bool)
    ensures Members(map[], p) == {}
  {
  }

  /** In every interleaving of any number of requests, adders and removers, errored requests
      included, the counter, the permits and the draw of zero stay balanced. */
  lemma {:induction false} QuotaKept(cfg: Config, actions: seq<Action>)
    requires cfg.servedTh >= 1 && Run(cfg, actions).Some?
    ensures QuotaInv(cfg, Run(cfg, actions).value)
  {
    hide QuotaInv, Move, Arrive;
    var n := |actions| - 1;
    if actions == [] {
      QuotaStarts(cfg);
    } else {
      QuotaKept(cfg, actions[..n]);
      var s := Run(cfg, actions[..n]).value;
      match actions[n]
      case Enter(t, role) => ArriveSome(cfg, s, t, role); NewThreadQuota(cfg, s, t, role);
      case Act(t, ok) => QuotaStep(cfg, s, t, ok);
    }
  }

  lemma ArriveSome(cfg: Config, s: State, t: nat, role: Role)
    ensures Arrive(cfg, s, t, role).Some? <==> t !in s.threads
  {
  }

  lemma QuotaStarts(cfg: Config)
    requires cfg.servedTh >= 1
    ensures QuotaInv(cfg, Init(cfg))
  {
    NoMembers(IsPending);
    NoMembers(DrewZero);
    NoMembers(IsReleasing);
  }

  lemma OnlyMember(threads: map<nat, Thread>, p: Thread -> bool, t: nat, u: nat)
    requires t in threads && u in threads && p(threads[t]) && p(threads[u]) && |Members(threads, p)| <= 1
    ensures t == u
  {
    if t != u {
      assert {t, u} <= Members(threads, p);
      SubsetSize({t, u}, Members(threads, p));
    }
  }

  lemma SubsetSize<T>(a: set<T>, b: set<T>)
    requires a <= b
    ensures |a| <= |b|
  {
    assert b == a + (b - a);
  }

  lemma NotAMember(threads: map<nat, Thread>, p: Thread -> bool, t: nat)
    requires t in threads && |Members(threads, p)| == 0
    ensures !p(threads[t])
  {
    assert p(threads[t]) ==> t in Members(threads, p);
  }

  /** At most one request of an epoch is the one that drew zero. */
  lemma OneDrawsZero(cfg: Config, actions: seq<Action>, t: nat, u: nat)
    requires cfg.servedTh >= 1 && Run(cfg, actions).Some?
    requires var s := Run(cfg, actions).value;
      t in s.threads && u in s.threads && DrewZero(s.threads[t]) && DrewZero(s.threads[u])
    ensures t == u
  {
    hide Members, Run;
    QuotaKept(cfg, actions);
    OnlyMember(Run(cfg, actions).value.threads, DrewZero, t, u);
  }

  /** From the draw of zero to the release the whole quota is held, no decrement is pending and no
      permit can be taken: the plain reset races with no decrement, and the release gives back
      exactly the permits that are held. */
  lemma RetirementIsExclusive(cfg: Config, actions: seq<Action>, t: nat)
    requires cfg.servedTh >= 1 && Run(cfg, actions).Some?
    requires t in Run(cfg, actions).value.threads
    requires var th := Run(cfg, actions).value.threads[t]; DrewZero(th) || IsReleasing(th)
    ensures var s := Run(cfg, actions).value;
      && s.quota.held == cfg.servedTh
      && (forall u :: u in s.threads ==> !s.threads[u].pc.Decrement?)
      && (forall u :: u in s.threads && s.threads[u].pc.Acquire? ==> !Enabled(cfg, s, s.threads[u]))
      && (IsReleasing(s.threads[t]) ==> s.quota.counter == cfg.servedTh)
      && (DrewZero(s.threads[t]) ==> s.quota.counter == 0)
  {
    hide Members, Run;
    var s := Run(cfg, actions).value;
    QuotaKept(cfg, actions);
    if DrewZero(s.threads[t]) { HasMember(s.threads, DrewZero, t); }
    if IsReleasing(s.threads[t]) { HasMember(s.threads, IsReleasing, t); }
    forall u | u in s.threads ensures !IsPending(s.threads[u]) { NotAMember(s.threads, IsPending, u); }
  }

  /** A request that drew zero and failed. */
  predicate FailedRetirement(s: State, t: nat) {
    t in s.threads && s.threads[t].pc.Errored? && s.threads[t].syncID == 0
  }

  lemma FailedStays(cfg: Config, s: State, a: Action, t: nat)
    requires FailedRetirement(s, t) && Next(cfg, s, a).Some?
    ensures FailedRetirement(Next(cfg, s, a).value, t)
  {
    hide NextThread, NextQuota, NextLock, NextInsts, NextSnaps;
  }

  lemma OnlyAcquireAdmits(cfg: Config, s: State, a: Action)
    requires Next(cfg, s, a).Some?
    requires forall u :: u in s.threads && s.threads[u].pc.Acquire? ==> !Enabled(cfg, s, s.threads[u])
    ensures Next(cfg, s, a).value.quota.admitted == s.quota.admitted
  {
    hide Enabled, NextThread, NextLock, NextInsts, NextSnaps;
  }

  lemma PrefixRuns(cfg: Config, actions: seq<Action>)
    requires actions != [] && Run(cfg, actions).Some?
    ensures Run(cfg, actions[..|actions| - 1]).Some?
    ensures Run(cfg, actions) == Next(cfg, Run(cfg, actions[..|actions| - 1]).value, actions[|actions| - 1])
  {
    hide Next;
  }

  /** Once a request that drew zero has failed, no later action of any run takes a permit. */
  lemma {:induction false} FailedRetirementEndsAdmission(cfg: Config, actions: seq<Action>, k: nat, t: nat)
    requires cfg.servedTh >= 1 && Run(cfg, actions).Some? && k <= |actions|
    requires Run(cfg, actions[..k]).Some? && FailedRetirement(Run(cfg, actions[..k]).value, t)
    ensures var s := Run(cfg, actions).value;
      && FailedRetirement(s, t)
      && s.quota.admitted == Run(cfg, actions[..k]).value.quota.admitted
      && forall u :: u in s.threads && s.threads[u].pc.Acquire? ==> !Enabled(cfg, s, s.threads[u])
    decreases |actions|
  {
    hide Run, Next, Enabled;
    if k == |actions| {
      assert actions[..k] == actions;
    } else {
      var n := |actions| - 1;
      PrefixRuns(cfg, actions);
      assert actions[..n][..k] == actions[..k];
      FailedRetirementEndsAdmission(cfg, actions[..n], k, t);
      var s := Run(cfg, actions[..n]).value;
      FailedStays(cfg, s, actions[n], t);
      OnlyAcquireAdmits(cfg, s, actions[n]);
    }
    RetirementIsExclusive(cfg, actions, t);
  }
}
