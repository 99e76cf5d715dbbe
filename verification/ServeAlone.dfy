/** A request that runs alone through the interleaved protocol does what the serial function does. */
module ServeAlone {
  import opened Options
  import F = Functions
  import opened ServeProtocol

  /** n actions of thread t and of nobody else. */
  function Go(cfg: Config, s: State, t: nat, ok: bool, n: nat): Option<State>
    decreases n
  {
    if n == 0 then Some(s)
    else if t !in s.threads then None
    else
      match Move(cfg, s, t, ok)
      case None => None
      case Some(s') => Go(cfg, s', t, ok, n - 1)
  }

  lemma {:induction false} GoOn(cfg: Config, s: State, t: nat, ok: bool, m: nat, n: nat)
    requires Go(cfg, s, t, ok, m).Some?
    ensures Go(cfg, s, t, ok, m + n) == Go(cfg, Go(cfg, s, t, ok, m).value, t, ok, n)
    decreases m
  {
    hide Move;
    if m > 0 { GoOn(cfg, Move(cfg, s, t, ok).value, t, ok, m - 1, n); }
  }

  /** Thread t alone can take the one state to the other. */
  ghost predicate Reaches(cfg: Config, s: State, t: nat, ok: bool, s': State) {
    exists n :: Go(cfg, s, t, ok, n) == Some(s')
  }

  lemma Onwards(cfg: Config, a: State, b: State, c: State, t: nat, ok: bool)
    requires Reaches(cfg, a, t, ok, b) && Reaches(cfg, b, t, ok, c)
    ensures Reaches(cfg, a, t, ok, c)
  {
    hide Go;
    var m :| Go(cfg, a, t, ok, m) == Some(b);
    var n :| Go(cfg, b, t, ok, n) == Some(c);
    GoOn(cfg, a, t, ok, m, n);
  }

  /** The shared state with thread t as given. */
  function With(s: State, t: nat, th: Thread): State { s.(threads := s.threads[t := th]) }

  /** What an action makes of the state besides the thread. */
  function Shared(cfg: Config, s: State, t: nat, th: Thread, ok: bool): State {
    State(s.threads, NextQuota(cfg, s.quota, th.pc), NextLock(s.lock, th.pc, t, ok),
          NextInsts(s.insts, th.pc, th.once), NextSnaps(s.snaps, th.pc))
  }

  lemma OneStep(cfg: Config, s: State, t: nat, th: Thread, ok: bool)
    requires Enabled(cfg, s, th)
    ensures Reaches(cfg, With(s, t, th), t, ok, With(Shared(cfg, s, t, th, ok), t, NextThread(cfg, s, th, ok)))
  {
    hide NextQuota, NextLock, NextInsts, NextSnaps, NextThread;
    var w := With(s, t, th);
    var w' := With(Shared(cfg, s, t, th, ok), t, NextThread(cfg, s, th, ok));
    SameNext(cfg, w, s, th, ok);
    assert s.threads[t := th][t := NextThread(cfg, s, th, ok)] == s.threads[t := NextThread(cfg, s, th, ok)];
    assert Move(cfg, w, t, ok) == Some(w');
    assert Go(cfg, w', t, ok, 0) == Some(w');
    assert Go(cfg, w, t, ok, 1) == Some(w');
  }

  lemma SameNext(cfg: Config, s: State, s': State, th: Thread, ok: bool)
    requires s.quota == s'.quota && s.insts == s'.insts && s.snaps == s'.snaps && s.lock == s'.lock
    ensures NextThread(cfg, s, th, ok) == NextThread(cfg, s', th, ok)
    ensures Enabled(cfg, s, th) == Enabled(cfg, s', th)
  {
  }

  /** One more action of a thread that got here. */
  lemma Then(cfg: Config, start: State, s: State, t: nat, th: Thread, ok: bool)
    requires Reaches(cfg, start, t, ok, With(s, t, th)) && Enabled(cfg, s, th)
    ensures Reaches(cfg, start, t, ok, With(Shared(cfg, s, t, th, ok), t, NextThread(cfg, s, th, ok)))
  {
    hide Reaches, Shared, NextThread, With;
    OneStep(cfg, s, t, th, ok);
    Onwards(cfg, start, With(s, t, th), With(Shared(cfg, s, t, th, ok), t, NextThread(cfg, s, th, ok)), t, ok);
  }

  /** Nobody holds the lock and nobody is in the body of a Once. */
  ghost predicate Quiet(s: State) {
    && s.lock == Lock(None, {})
    && s.insts.current in s.insts.onces
    && !s.insts.onces[s.insts.current].Running?
    && !s.snaps.once.Running?
  }

  /** Taking a permit and a number. */
  function Admitted(cfg: Config, s: State): State {
    if cfg.isPinned then s
    else s.(quota := s.quota.(held := s.quota.held + 1, admitted := s.quota.admitted + 1,
                              counter := s.quota.counter - 1, decrements := s.quota.decrements + 1))
  }

  function Number(cfg: Config, s: State): int { if cfg.isPinned then -1 else s.quota.counter - 1 }

  lemma AdmitPhase(cfg: Config, start: State, s: State, t: nat, ok: bool)
    requires cfg.isPinned || s.quota.held < cfg.servedTh
    requires Reaches(cfg, start, t, ok, With(s, t, Thread(Request, Entry(cfg, Request), -1, 0)))
    ensures Reaches(cfg, start, t, ok, With(Admitted(cfg, s), t, Thread(Request, LoadOnce, Number(cfg, s), 0)))
  {
    hide Reaches, With;
    if !cfg.isPinned {
      Then(cfg, start, s, t, Thread(Request, Acquire, -1, 0), ok);
      var s1 := Shared(cfg, s, t, Thread(Request, Acquire, -1, 0), ok);
      Then(cfg, start, s1, t, Thread(Request, Decrement, -1, 0), ok);
    }
  }

  /** The instance is there: started if it was not. */
  function Present(s: State): State
    requires s.insts.current in s.insts.onces
  {
    if s.insts.onces[s.insts.current].Done? then s
    else
      s.(insts := s.insts.(onces := s.insts.onces[s.insts.current := OnceState.Done], starts := s.insts.starts + 1),
         snaps := NextSnaps(s.snaps, AddStart))
  }

  lemma PresencePhase(cfg: Config, start: State, s: State, t: nat, num: int, ok: bool)
    requires Quiet(s)
    requires Reaches(cfg, start, t, ok, With(s, t, Thread(Request, LoadOnce, num, 0)))
    ensures Reaches(cfg, start, t, ok, With(Present(s), t, Thread(Request, ReadLock, num, s.insts.current)))
  {
    hide Reaches, With, NextSnaps;
    var c := s.insts.current;
    Then(cfg, start, s, t, Thread(Request, LoadOnce, num, 0), ok);
    Unchanged(cfg, s, t, Thread(Request, LoadOnce, num, 0), ok);
    Then(cfg, start, s, t, Thread(Request, DoOnce, num, c), ok);
    if s.insts.onces[c].Done? {
      Unchanged(cfg, s, t, Thread(Request, DoOnce, num, c), ok);
    } else {
      StartPhase(cfg, start, s, t, num, ok);
    }
  }

  /** Actions that touch nothing shared. */
  lemma Unchanged(cfg: Config, s: State, t: nat, th: Thread, ok: bool)
    requires th.pc.LoadOnce? || (th.pc.DoOnce? && th.once in s.insts.onces && !s.insts.onces[th.once].Fresh?)
    ensures Shared(cfg, s, t, th, ok) == s
  {
  }

  lemma StartPhase(cfg: Config, start: State, s: State, t: nat, num: int, ok: bool)
    requires Quiet(s) && s.insts.onces[s.insts.current].Fresh?
    requires var th := Thread(Request, DoOnce, num, s.insts.current);
      Reaches(cfg, start, t, ok, With(Shared(cfg, s, t, th, ok), t, NextThread(cfg, s, th, ok)))
    ensures Reaches(cfg, start, t, ok, With(Present(s), t, Thread(Request, ReadLock, num, s.insts.current)))
  {
    hide Reaches, With, NextSnaps;
    var c := s.insts.current;
    var s1 := s.(insts := s.insts.(onces := s.insts.onces[c := Running(false)]));
    SnapsStay(s.snaps, DoOnce);
    assert Shared(cfg, s, t, Thread(Request, DoOnce, num, c), ok) == s1;
    Then(cfg, start, s1, t, Thread(Request, AddLock, num, c), ok);
    SnapsStay(s.snaps, AddLock);
    var s2 := s1.(lock := Lock(Some(t), {}));
    Then(cfg, start, s2, t, Thread(Request, AddStart, num, c), ok);
    var s3 := s2.(insts := s.insts.(onces := s1.insts.onces[c := Running(true)], starts := s.insts.starts + 1),
                 snaps := NextSnaps(s.snaps, AddStart));
    assert Shared(cfg, s2, t, Thread(Request, AddStart, num, c), ok) == s3;
    Then(cfg, start, s3, t, Thread(Request, AddUnlock, num, c), ok);
    SnapsStay(s3.snaps, AddUnlock);
    var s4 := s3.(lock := Lock(None, {}));
    assert Shared(cfg, s3, t, Thread(Request, AddUnlock, num, c), ok) == s4;
    Then(cfg, start, s4, t, Thread(Request, OnceDone, num, c), ok);
    SnapsStay(s4.snaps, OnceDone);
    assert s.insts.onces[c := Running(false)][c := Running(true)][c := OnceState.Done] == s.insts.onces[c := OnceState.Done];
    assert Shared(cfg, s4, t, Thread(Request, OnceDone, num, c), ok) == Present(s);
  }

  lemma SnapsStay(sn: Snapshots, pc: Pc)
    requires !pc.AddStart? && !pc.SnapOnce? && !pc.SnapCreate? && !pc.SnapMark? && !pc.SnapDone?
    ensures NextSnaps(sn, pc) == sn
  {
  }

  function Reading(s: State, t: nat): State { s.(lock := Lock(None, {t})) }

  lemma CallPhase(cfg: Config, start: State, s: State, t: nat, num: int, once: nat, ok: bool)
    requires Quiet(s)
    requires Reaches(cfg, start, t, ok, With(s, t, Thread(Request, ReadLock, num, once)))
    ensures ok ==> Reaches(cfg, start, t, ok,
      With(Reading(s, t), t, Thread(Request, if cfg.snapshotsEnabled then SnapOnce else ReadUnlock, num, once)))
    ensures !ok ==> Reaches(cfg, start, t, ok, With(s, t, Thread(Request, Errored, num, once)))
  {
    hide Reaches, With, NextSnaps;
    Then(cfg, start, s, t, Thread(Request, ReadLock, num, once), ok);
    SnapsStay(s.snaps, ReadLock);
    assert Shared(cfg, s, t, Thread(Request, ReadLock, num, once), ok) == Reading(s, t);
    Then(cfg, start, Reading(s, t), t, Thread(Request, Rpc, num, once), ok);
    SnapsStay(s.snaps, Rpc);
    assert Shared(cfg, Reading(s, t), t, Thread(Request, Rpc, num, once), ok) == if ok then Reading(s, t) else s;
  }

  function Snapped(cfg: Config, s: State): State {
    if !cfg.snapshotsEnabled || s.snaps.once.Done? || s.snaps.vm.None? then s
    else s.(snaps := s.snaps.(once := OnceState.Done, taken := s.snaps.taken + {s.snaps.vm.value}, ready := true))
  }

  lemma SnapPhase(cfg: Config, start: State, s: State, t: nat, num: int, once: nat, ok: bool)
    requires Quiet(s) && s.snaps.vm.Some?
    requires Reaches(cfg, start, t, ok,
      With(Reading(s, t), t, Thread(Request, if cfg.snapshotsEnabled then SnapOnce else ReadUnlock, num, once)))
    ensures Reaches(cfg, start, t, ok, With(Reading(Snapped(cfg, s), t), t, Thread(Request, ReadUnlock, num, once)))
  {
    hide Reaches, With, NextQuota, NextInsts;
    if cfg.snapshotsEnabled {
      var r := Reading(s, t);
      StayPut(cfg, s, t, SnapOnce, once, ok);
      StayPut(cfg, s, t, SnapCreate, once, ok);
      StayPut(cfg, s, t, SnapMark, once, ok);
      StayPut(cfg, s, t, SnapDone, once, ok);
      Then(cfg, start, r, t, Thread(Request, SnapOnce, num, once), ok);
      if s.snaps.once.Fresh? {
        var r1 := r.(snaps := s.snaps.(once := Running(false)));
        Then(cfg, start, r1, t, Thread(Request, SnapCreate, num, once), ok);
        var r2 := r1.(snaps := r1.snaps.(taken := s.snaps.taken + {s.snaps.vm.value}));
        Then(cfg, start, r2, t, Thread(Request, SnapMark, num, once), ok);
        var r3 := r2.(snaps := r2.snaps.(ready := true));
        Then(cfg, start, r3, t, Thread(Request, SnapDone, num, once), ok);
      }
    }
  }

  lemma StayPut(cfg: Config, s: State, t: nat, pc: Pc, once: nat, ok: bool)
    requires pc.SnapOnce? || pc.SnapCreate? || pc.SnapMark? || pc.SnapDone?
    ensures NextQuota(cfg, s.quota, pc) == s.quota && NextInsts(s.insts, pc, once) == s.insts
  {
  }

  lemma UnlockPhase(cfg: Config, start: State, s: State, t: nat, num: int, once: nat, ok: bool)
    requires s.lock == Lock(None, {})
    requires Reaches(cfg, start, t, ok, With(Reading(s, t), t, Thread(Request, ReadUnlock, num, once)))
    ensures Reaches(cfg, start, t, ok, With(s, t, Thread(Request, AfterRequest(cfg, num), num, once)))
  {
    hide Reaches, With, NextSnaps;
    Then(cfg, start, Reading(s, t), t, Thread(Request, ReadUnlock, num, once), ok);
    SnapsStay(s.snaps, ReadUnlock);
    assert Shared(cfg, Reading(s, t), t, Thread(Request, ReadUnlock, num, once), ok) == s;
  }

  /** The instance retired, the counter reset and the permits released. */
  function Retired(cfg: Config, s: State): State {
    var c := s.insts.current + 1;
    s.(insts := s.insts.(current := c, onces := s.insts.onces[c := Fresh], retirements := s.insts.retirements + 1),
       quota := s.quota.(counter := cfg.servedTh, decrements := 0, held := s.quota.held - cfg.servedTh, releases := s.quota.releases + 1))
  }

  lemma RetirePhase(cfg: Config, start: State, s: State, t: nat, once: nat, ok: bool)
    requires Quiet(s)
    requires Reaches(cfg, start, t, ok, With(s, t, Thread(Request, RemoveLock, 0, once)))
    ensures Reaches(cfg, start, t, ok, With(Retired(cfg, s), t, Thread(Request, Finished, 0, once)))
  {
    hide Reaches, With, NextSnaps;
    Then(cfg, start, s, t, Thread(Request, RemoveLock, 0, once), ok);
    SnapsStay(s.snaps, RemoveLock);
    var s1 := s.(lock := Lock(Some(t), {}));
    Then(cfg, start, s1, t, Thread(Request, RemoveSwap, 0, once), ok);
    SnapsStay(s.snaps, RemoveSwap);
    var s2 := s1.(insts := Retired(cfg, s).insts);
    Then(cfg, start, s2, t, Thread(Request, RemoveUnlock, 0, once), ok);
    SnapsStay(s.snaps, RemoveUnlock);
    var s3 := s2.(lock := Lock(None, {}));
    Then(cfg, start, s3, t, Thread(Request, Reset, 0, once), ok);
    SnapsStay(s.snaps, Reset);
    var s4 := s3.(quota := s.quota.(counter := cfg.servedTh, decrements := 0));
    Then(cfg, start, s4, t, Thread(Request, Release, 0, once), ok);
    SnapsStay(s.snaps, Release);
    assert Shared(cfg, s4, t, Thread(Request, Release, 0, once), ok) == Retired(cfg, s);
  }

  // ----- the serial function -----

  ghost predicate SameConfig(cfg: Config, fcfg: F.Config, f: F.Fun) {
    && fcfg.servedTh == cfg.servedTh && fcfg.isPinnedInMem == cfg.isPinned
    && f.orch.snapshotsEnabled == cfg.snapshotsEnabled
  }

  /** The interleaved state, with nobody under way, and the serial state agree. */
  ghost predicate Agrees(s: State, f: F.Fun) {
    && Quiet(s)
    && (s.insts.onces[s.insts.current].Done? <==> f.added)
    && (s.snaps.once.Done? <==> f.snapshotTaken)
    && s.snaps.ready == f.isSnapshotReady
    && s.snaps.lastInstanceID == f.lastInstanceID
    && s.snaps.vm == (if f.lastInstanceID == 0 then None else Some(f.lastInstanceID - 1))
    && s.insts.starts == f.started
    && s.quota.held == f.held && s.quota.counter == f.servedSyncCounter
  }

  /** The state after the whole request. */
  function Served(cfg: Config, s: State, ok: bool): State
    requires s.insts.current in s.insts.onces
  {
    var p := Present(Admitted(cfg, s));
    if !ok then p
    else if AfterRequest(cfg, Number(cfg, s)).RemoveLock? then Retired(cfg, Snapped(cfg, p))
    else Snapped(cfg, p)
  }

  lemma RunsAlone(cfg: Config, s: State, t: nat, ok: bool)
    requires Quiet(s) && t !in s.threads && (cfg.isPinned || s.quota.held < cfg.servedTh)
    requires s.insts.onces[s.insts.current].Done? ==> s.snaps.vm.Some?
    requires s.snaps.ready ==> s.snaps.vm.Some?
    ensures var th := Thread(Request, if ok then Finished else Errored, Number(cfg, s), s.insts.current);
      Reaches(cfg, Arrive(cfg, s, t, Request).value, t, ok, With(Served(cfg, s, ok), t, th))
  {
    hide Reaches, With;
    var start := Arrive(cfg, s, t, Request).value;
    var num, once := Number(cfg, s), s.insts.current;
    Begins(cfg, s, t, ok);
    AdmitPhase(cfg, start, s, t, ok);
    PresencePhase(cfg, start, Admitted(cfg, s), t, num, ok);
    var p := Present(Admitted(cfg, s));
    CallPhase(cfg, start, p, t, num, once, ok);
    if ok {
      SnapPhase(cfg, start, p, t, num, once, ok);
      UnlockPhase(cfg, start, Snapped(cfg, p), t, num, once, ok);
      if AfterRequest(cfg, num).RemoveLock? { RetirePhase(cfg, start, Snapped(cfg, p), t, once, ok); }
    }
  }

  lemma Begins(cfg: Config, s: State, t: nat, ok: bool)
    requires t !in s.threads
    ensures var start := Arrive(cfg, s, t, Request).value;
      Reaches(cfg, start, t, ok, With(s, t, Thread(Request, Entry(cfg, Request), -1, 0)))
  {
    var start := Arrive(cfg, s, t, Request).value;
    assert Go(cfg, start, t, ok, 0) == Some(start);
  }

  lemma ServedAgrees(cfg: Config, s: State, fcfg: F.Config, f: F.Fun, ok: bool)
    requires Agrees(s, f) && SameConfig(cfg, fcfg, f) && F.Kept(fcfg, f)
    requires !F.AfterServe(fcfg, f, ok).reply.Blocked?
    ensures Agrees(Served(cfg, s, ok), F.AfterServe(fcfg, f, ok).fun)
  {
    hide F.AfterServe, F.Alive, F.AfterAddOnce, F.AfterAdmit;
    F.FullBlocksOrPinned(fcfg, f, ok);
    F.ServeSteps(fcfg, f, ok);
    F.ReadyIsTaken(fcfg, f);
    F.ReadyIsTaken(fcfg, F.AfterServe(fcfg, f, ok).fun);
  }

  /** A request alone, from a state where nobody is under way, waits for a permit for ever exactly when
      the serial request is blocked; otherwise it runs to its end, and the state agrees with what the
      serial request leaves. */
  lemma AloneIsSerial(cfg: Config, s: State, fcfg: F.Config, f: F.Fun, t: nat, ok: bool) returns (s': State)
    requires Agrees(s, f) && SameConfig(cfg, fcfg, f) && F.Kept(fcfg, f) && t !in s.threads
    ensures var start := Arrive(cfg, s, t, Request).value; var r := F.AfterServe(fcfg, f, ok);
      && Reaches(cfg, start, t, ok, s') && Agrees(s', r.fun)
      && t in s'.threads && s'.threads == s.threads[t := s'.threads[t]]
      && if r.reply.Blocked? then s' == start && s'.threads[t].pc == Acquire && Move(cfg, s', t, ok) == None
         else s'.threads[t].pc == (if ok then Finished else Errored)
  {
    hide F.AfterServe, F.Alive, Reaches;
    F.FullBlocksOrPinned(fcfg, f, ok);
    if F.AfterServe(fcfg, f, ok).reply.Blocked? {
      s' := Arrive(cfg, s, t, Request).value;
      F.FullBlocks(fcfg, f, ok);
      Begins(cfg, s, t, ok);
    } else {
      F.ReadyIsTaken(fcfg, f);
      RunsAlone(cfg, s, t, ok);
      ServedAgrees(cfg, s, fcfg, f, ok);
      s' := With(Served(cfg, s, ok), t, Thread(Request, if ok then Finished else Errored, Number(cfg, s), s.insts.current));
    }
  }

  // ----- requests one after the other -----

  lemma {:induction false} GoIsRun(cfg: Config, actions: seq<Action>, s: State, t: nat, ok: bool, n: nat)
    returns (longer: seq<Action>)
    requires Run(cfg, actions) == Some(s) && Go(cfg, s, t, ok, n).Some?
    ensures Run(cfg, longer) == Go(cfg, s, t, ok, n)
    decreases n
  {
    hide Move;
    if n == 0 {
      longer := actions;
    } else {
      var more := actions + [Act(t, ok)];
      assert more[..|actions|] == actions;
      longer := GoIsRun(cfg, more, Move(cfg, s, t, ok).value, t, ok, n - 1);
    }
  }

  /** How a request's thread ended, by the serial reply. */
  predicate EndedAs(pc: Pc, reply: F.Reply) {
    match reply
    case Answered(_) => pc.Finished?
    case Failed(_) => pc.Errored?
    case Blocked => pc.Acquire?
    case Panicked => false
  }

  ghost predicate AllEnded(s: State, replies: seq<F.Reply>) {
    && (forall t: nat :: t in s.threads <==> t < |replies|)
    && forall t: nat :: t < |replies| ==> EndedAs(s.threads[t].pc, replies[t])
  }

  lemma ServeKeeps(cfg: Config, fcfg: F.Config, f: F.Fun, ok: bool)
    requires SameConfig(cfg, fcfg, f) && F.Kept(fcfg, f)
    ensures SameConfig(cfg, fcfg, F.AfterServe(fcfg, f, ok).fun) && F.Kept(fcfg, F.AfterServe(fcfg, f, ok).fun)
    ensures !F.AfterServe(fcfg, f, ok).reply.Panicked?
    ensures F.AfterServe(fcfg, f, ok).reply.Answered? ==> ok
    ensures F.AfterServe(fcfg, f, ok).reply.Failed? ==> !ok
  {
    hide F.AfterServe, F.Alive, F.AfterAddOnce, F.AfterAdmit;
    F.ServeReachesRunningVM(fcfg, f, ok);
    F.FullBlocksOrPinned(fcfg, f, ok);
    if F.AfterServe(fcfg, f, ok).reply.Blocked? { F.FullBlocks(fcfg, f, ok); } else { F.ServeSteps(fcfg, f, ok); }
  }

  lemma StartAgrees(cfg: Config, fcfg: F.Config, orch: F.Orch)
    requires SameConfig(cfg, fcfg, F.NewFun(fcfg, orch))
    ensures Agrees(Init(cfg), F.NewFun(fcfg, orch)) && AllEnded(Init(cfg), [])
  {
  }

  /** Requests that arrive one after the other, each when the one before it has ended or waits: some run
      of the interleaved protocol ends each of them as the serial function does, in a state that agrees
      with the serial one. */
  lemma {:induction false} SerialRun(cfg: Config, fcfg: F.Config, orch: F.Orch, oks: seq<bool>) returns (actions: seq<Action>)
    requires SameConfig(cfg, fcfg, F.NewFun(fcfg, orch)) && F.Fits(fcfg, orch)
    ensures var trail := F.ServeAll(fcfg, orch, oks);
      && SameConfig(cfg, fcfg, trail.fun) && F.Kept(fcfg, trail.fun) && |trail.replies| == |oks|
      && Run(cfg, actions).Some?
      && Agrees(Run(cfg, actions).value, trail.fun)
      && AllEnded(Run(cfg, actions).value, trail.replies)
    decreases |oks|
  {
    hide Agrees, SameConfig, Reaches, Run, Init, Arrive, F.Kept, F.AfterServe, F.NewFun, F.Fits;
    if oks == [] {
      actions := [];
      StartAgrees(cfg, fcfg, orch);
      F.NewKept(fcfg, orch);
      NothingRun(cfg);
    } else {
      var n := |oks| - 1;
      var before := SerialRun(cfg, fcfg, orch, oks[..n]);
      var s, f := Run(cfg, before).value, F.ServeAll(fcfg, orch, oks[..n]).fun;
      ServeKeeps(cfg, fcfg, f, oks[n]);
      var s' := AloneIsSerial(cfg, s, fcfg, f, n, oks[n]);
      actions := Extended(cfg, before, s, n, oks[n], s');
    }
  }

  lemma NothingRun(cfg: Config)
    ensures Run(cfg, []) == Some(Init(cfg))
  {
  }

  lemma Extended(cfg: Config, before: seq<Action>, s: State, t: nat, ok: bool, s': State) returns (actions: seq<Action>)
    requires Run(cfg, before) == Some(s) && t !in s.threads
    requires Reaches(cfg, Arrive(cfg, s, t, Request).value, t, ok, s')
    ensures Run(cfg, actions) == Some(s')
  {
    hide Go;
    var arrived := before + [Enter(t, Request)];
    assert arrived[..|before|] == before;
    var n :| Go(cfg, Arrive(cfg, s, t, Request).value, t, ok, n) == Some(s');
    actions := GoIsRun(cfg, arrived, Arrive(cfg, s, t, Request).value, t, ok, n);
  }
}
