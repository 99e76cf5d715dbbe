/** The two kinds of Once of a function, with any mix of requests, adders and removers: what runs
    alone, what waits for it, and what it is counted as. */
module ServeOnces {
  import opened Options
  import opened ServeProtocol

  // ----- the snapshot Once -----

  predicate InSnapBody(th: Thread) { th.pc.SnapCreate? || th.pc.SnapMark? || th.pc.SnapDone? }

  /** A thread past the snapshot Once has seen it done, and its last step follows the ready flag. */
  ghost predicate SnapSeen(cfg: Config, sn: Snapshots, th: Thread) {
    && (th.pc.ReadUnlock? && cfg.snapshotsEnabled ==> sn.once.Done?)
    && (th.pc.SnapDone? ==> sn.ready)
  }

  ghost predicate BodyInv(cfg: Config, s: State) {
    && |Members(s.threads, InSnapBody)| == One(s.snaps.once.Running?)
    && (s.snaps.once.Done? ==> s.snaps.ready)
    && forall t :: t in s.threads ==> SnapSeen(cfg, s.snaps, s.threads[t])
  }

  lemma BodyCount(cfg: Config, s: State, th: Thread, ok: bool, body: nat)
    requires Enabled(cfg, s, th) && body == One(s.snaps.once.Running?) && (InSnapBody(th) ==> body >= 1)
    ensures body - One(InSnapBody(th)) + One(InSnapBody(NextThread(cfg, s, th, ok))) == One(NextSnaps(s.snaps, th.pc).once.Running?)
  {
  }

  lemma SeenSelf(cfg: Config, s: State, th: Thread, ok: bool)
    requires Enabled(cfg, s, th) && SnapSeen(cfg, s.snaps, th) && (s.snaps.once.Done? ==> s.snaps.ready)
    ensures SnapSeen(cfg, NextSnaps(s.snaps, th.pc), NextThread(cfg, s, th, ok))
    ensures NextSnaps(s.snaps, th.pc).once.Done? ==> NextSnaps(s.snaps, th.pc).ready
  {
  }

  lemma SeenOther(cfg: Config, sn: Snapshots, pc: Pc, u: Thread)
    requires SnapSeen(cfg, sn, u)
    ensures SnapSeen(cfg, NextSnaps(sn, pc), u)
  {
  }

  lemma BodyStep(cfg: Config, s: State, t: nat, ok: bool)
    requires BodyInv(cfg, s) && t in s.threads && Move(cfg, s, t, ok).Some?
    ensures BodyInv(cfg, Move(cfg, s, t, ok).value)
  {
    hide Members, Enabled, NextThread, NextQuota, NextLock, NextInsts, NextSnaps, InSnapBody, SnapSeen;
    var th := s.threads[t];
    MembersUpdate(s.threads, InSnapBody, t, NextThread(cfg, s, th, ok));
    if InSnapBody(th) { HasMember(s.threads, InSnapBody, t); }
    BodyCount(cfg, s, th, ok, |Members(s.threads, InSnapBody)|);
    SeenSelf(cfg, s, th, ok);
    forall u | u in s.threads && u != t ensures SnapSeen(cfg, NextSnaps(s.snaps, th.pc), s.threads[u]) {
      SeenOther(cfg, s.snaps, th.pc, s.threads[u]);
    }
  }

  lemma BodyArrival(cfg: Config, s: State, t: nat, role: Role)
    requires BodyInv(cfg, s) && t !in s.threads
    ensures BodyInv(cfg, Arrive(cfg, s, t, role).value)
  {
    hide Members;
    MembersUpdate(s.threads, InSnapBody, t, Thread(role, Entry(cfg, role), -1, 0));
  }

  lemma {:induction false} BodyKept(cfg: Config, actions: seq<Action>)
    requires Run(cfg, actions).Some?
    ensures BodyInv(cfg, Run(cfg, actions).value)
  {
    hide BodyInv, Move, Arrive;
    var n := |actions| - 1;
    if actions == [] {
      BodyStarts(cfg);
    } else {
      BodyKept(cfg, actions[..n]);
      var s := Run(cfg, actions[..n]).value;
      match actions[n]
      case Enter(t, role) => ArriveSome(cfg, s, t, role); BodyArrival(cfg, s, t, role);
      case Act(t, ok) => BodyStep(cfg, s, t, ok);
    }
  }

  lemma BodyStarts(cfg: Config)
    ensures BodyInv(cfg, Init(cfg))
  {
    NoMembers(InSnapBody);
  }

  /** In every interleaving: at most one thread is in the body of the snapshot Once, one is exactly while
      the Once runs, and no request that would snapshot gets past the Once before that body is over and
      the snapshot ready. */
  lemma SnapshotBodyRunsAlone(cfg: Config, actions: seq<Action>)
    requires Run(cfg, actions).Some?
    ensures var s := Run(cfg, actions).value;
      && (forall t, u :: t in s.threads && u in s.threads && InSnapBody(s.threads[t]) && InSnapBody(s.threads[u]) ==> t == u)
      && ((exists t :: t in s.threads && InSnapBody(s.threads[t])) <==> s.snaps.once.Running?)
      && (forall t :: t in s.threads && s.threads[t].pc.ReadUnlock? && cfg.snapshotsEnabled ==> s.snaps.once.Done? && s.snaps.ready)
  {
    hide Run, Members, InSnapBody;
    BodyKept(cfg, actions);
    var s := Run(cfg, actions).value;
    forall t, u | t in s.threads && u in s.threads && InSnapBody(s.threads[t]) && InSnapBody(s.threads[u]) ensures t == u {
      OnlyMember(s.threads, InSnapBody, t, u);
    }
    if s.snaps.once.Running? { SomeMember(s.threads, InSnapBody); }
    forall t | t in s.threads && InSnapBody(s.threads[t]) ensures s.snaps.once.Running? { HasMember(s.threads, InSnapBody, t); }
    forall t | t in s.threads ensures SnapSeen(cfg, s.snaps, s.threads[t]) {}
  }

  lemma SomeMember(threads: map<nat, Thread>, p: Thread -> bool)
    requires |Members(threads, p)| >= 1
    ensures exists t :: t in threads && p(threads[t])
  {
    var t :| t in Members(threads, p);
  }

  /** Action i takes the snapshot. */
  ghost predicate Snapshots(cfg: Config, actions: seq<Action>, i: nat)
    requires i < |actions|
  {
    && Run(cfg, actions[..i]).Some? && actions[i].Act? && Run(cfg, actions[..i + 1]).Some?
    && var s := Run(cfg, actions[..i]).value;
       actions[i].t in s.threads && s.threads[actions[i].t].pc.SnapCreate?
  }

  /** The snapshot Once is used, and nobody is about to take the snapshot. */
  ghost predicate SnapshotPast(s: State) {
    !s.snaps.once.Fresh? && forall t :: t in s.threads ==> !s.threads[t].pc.SnapCreate?
  }

  lemma PastStays(cfg: Config, s: State, a: Action)
    requires SnapshotPast(s) && Next(cfg, s, a).Some?
    ensures SnapshotPast(Next(cfg, s, a).value)
  {
    hide NextQuota, NextLock, NextInsts;
  }

  lemma PastAfter(cfg: Config, s: State, t: nat, ok: bool)
    requires t in s.threads && s.threads[t].pc.SnapCreate? && Move(cfg, s, t, ok).Some?
    requires s.snaps.once.Running?
    requires forall u :: u in s.threads && InSnapBody(s.threads[u]) ==> u == t
    ensures SnapshotPast(Move(cfg, s, t, ok).value)
  {
    hide NextQuota, NextLock, NextInsts;
  }

  lemma {:induction false} PastForGood(cfg: Config, actions: seq<Action>, i: nat, k: nat)
    requires i < k <= |actions| && Snapshots(cfg, actions, i) && Run(cfg, actions[..k]).Some?
    ensures SnapshotPast(Run(cfg, actions[..k]).value)
    decreases k
  {
    hide Run, Next, SnapshotPast, InSnapBody;
    assert actions[..k][..k - 1] == actions[..k - 1] && actions[..k][k - 1] == actions[k - 1];
    PrefixRuns(cfg, actions[..k]);
    var s := Run(cfg, actions[..k - 1]).value;
    if i == k - 1 {
      SnapshotBodyRunsAlone(cfg, actions[..i]);
      assert InSnapBody(s.threads[actions[i].t]) by { AtSnapCreate(s.threads[actions[i].t]); }
      NextIsMove(cfg, s, actions[i]);
      PastAfter(cfg, s, actions[i].t, actions[i].ok);
    } else {
      PastForGood(cfg, actions, i, k - 1);
      PastStays(cfg, s, actions[k - 1]);
    }
  }

  lemma AtSnapCreate(th: Thread)
    requires th.pc.SnapCreate?
    ensures InSnapBody(th)
  {
  }

  lemma NextIsMove(cfg: Config, s: State, a: Action)
    requires a.Act? && a.t in s.threads
    ensures Next(cfg, s, a) == Move(cfg, s, a.t, a.ok)
  {
  }

  /** A run takes the snapshot at most once. */
  lemma SnapshotTakenOnce(cfg: Config, actions: seq<Action>, i: nat, j: nat)
    requires i < |actions| && j < |actions| && Snapshots(cfg, actions, i) && Snapshots(cfg, actions, j)
    ensures i == j
  {
    hide Run;
    if i < j { PastForGood(cfg, actions, i, j); }
    if j < i { PastForGood(cfg, actions, j, i); }
  }

  // ----- the Onces of the instances -----

  predicate InBody(th: Thread) { th.pc.AddLock? || th.pc.AddStart? || th.pc.AddUnlock? || th.pc.OnceDone? }

  /** From the read lock to the release of it. */
  predicate Forwards(th: Thread) {
    th.pc.ReadLock? || th.pc.Rpc? || th.pc.SnapOnce? || InSnapBody(th) || th.pc.ReadUnlock?
  }

  /** Adders only run Onces, removers only replace them. */
  predicate RoleOk(th: Thread) {
    match th.role
    case Request => true
    case Adder => th.pc.LoadOnce? || th.pc.DoOnce? || InBody(th) || th.pc.Finished?
    case Remover => th.pc.RemoveLock? || th.pc.RemoveSwap? || th.pc.RemoveUnlock? || th.pc.Finished?
  }

  /** The state of the Once that a thread has read, by where the thread is. */
  ghost predicate SeesOnce(i: Instances, th: Thread) {
    && RoleOk(th)
    && (th.pc.DoOnce? || InBody(th) || Forwards(th) ==> th.once in i.onces)
    && (th.pc.AddLock? || th.pc.AddStart? ==> i.onces[th.once] == Running(false))
    && (th.pc.AddUnlock? || th.pc.OnceDone? ==> i.onces[th.once] == Running(true))
    && (Forwards(th) ==> i.onces[th.once].Done?)
  }

  function StartedOnces(i: Instances): set<nat> {
    set o | o in i.onces && (i.onces[o].Done? || i.onces[o] == Running(true))
  }

  ghost predicate InstOnces(i: Instances) {
    && (forall o: nat :: o in i.onces <==> o <= i.current)
    && i.starts == |StartedOnces(i)|
    && i.retirements == i.current
  }

  ghost predicate BodiesApart(s: State) {
    forall t: nat, u: nat :: t in s.threads && u in s.threads && t != u && InBody(s.threads[t]) && InBody(s.threads[u]) ==>
      s.threads[t].once != s.threads[u].once
  }

  ghost predicate OncesInv(s: State) {
    && InstOnces(s.insts)
    && BodiesApart(s)
    && forall t: nat :: t in s.threads ==> SeesOnce(s.insts, s.threads[t])
  }

  lemma StartedStep(cfg: Config, s: State, th: Thread)
    requires Enabled(cfg, s, th) && InstOnces(s.insts) && SeesOnce(s.insts, th)
    ensures InstOnces(NextInsts(s.insts, th.pc, th.once))
  {
    var i, i' := s.insts, NextInsts(s.insts, th.pc, th.once);
    if th.pc.AddStart? {
      assert StartedOnces(i') == StartedOnces(i) + {th.once};
    } else {
      StartedStays(cfg, s, th);
    }
  }

  lemma StartedStays(cfg: Config, s: State, th: Thread)
    requires Enabled(cfg, s, th) && SeesOnce(s.insts, th) && !th.pc.AddStart?
    requires forall o: nat :: o in s.insts.onces <==> o <= s.insts.current
    ensures StartedOnces(NextInsts(s.insts, th.pc, th.once)) == StartedOnces(s.insts)
  {
  }

  lemma SeesSelf(cfg: Config, s: State, th: Thread, ok: bool)
    requires Enabled(cfg, s, th) && InstOnces(s.insts) && SeesOnce(s.insts, th)
    ensures SeesOnce(NextInsts(s.insts, th.pc, th.once), NextThread(cfg, s, th, ok))
    ensures InBody(NextThread(cfg, s, th, ok)) ==>
              NextThread(cfg, s, th, ok).once == th.once && (InBody(th) || s.insts.onces[th.once].Fresh?)
  {
  }

  lemma SeesOther(cfg: Config, s: State, th: Thread, u: Thread)
    requires Enabled(cfg, s, th) && InstOnces(s.insts) && SeesOnce(s.insts, th) && SeesOnce(s.insts, u)
    requires InBody(th) && InBody(u) ==> th.once != u.once
    ensures SeesOnce(NextInsts(s.insts, th.pc, th.once), u)
  {
  }

  lemma BodyRuns(i: Instances, th: Thread)
    requires SeesOnce(i, th) && InBody(th)
    ensures th.once in i.onces && i.onces[th.once].Running?
  {
  }

  lemma OncesStep(cfg: Config, s: State, t: nat, ok: bool)
    requires OncesInv(s) && t in s.threads && Move(cfg, s, t, ok).Some?
    ensures OncesInv(Move(cfg, s, t, ok).value)
  {
    hide Enabled, NextThread, NextQuota, NextLock, NextInsts, NextSnaps, InstOnces, SeesOnce, InBody;
    var th := s.threads[t];
    StartedStep(cfg, s, th);
    SeesSelf(cfg, s, th, ok);
    forall u: nat | u in s.threads && u != t
      ensures SeesOnce(NextInsts(s.insts, th.pc, th.once), s.threads[u])
      ensures InBody(s.threads[u]) && InBody(NextThread(cfg, s, th, ok)) ==> s.threads[u].once != NextThread(cfg, s, th, ok).once
    {
      SeesOther(cfg, s, th, s.threads[u]);
      if InBody(s.threads[u]) { BodyRuns(s.insts, s.threads[u]); }
    }
  }

  lemma OncesArrival(cfg: Config, s: State, t: nat, role: Role)
    requires OncesInv(s) && t !in s.threads
    ensures OncesInv(Arrive(cfg, s, t, role).value)
  {
    hide InstOnces;
  }

  lemma OncesStart(cfg: Config)
    ensures OncesInv(Init(cfg))
  {
    assert StartedOnces(Init(cfg).insts) == {};
  }

  lemma {:induction false} OncesKept(cfg: Config, actions: seq<Action>)
    requires Run(cfg, actions).Some?
    ensures OncesInv(Run(cfg, actions).value)
  {
    hide OncesInv, Move, Arrive, Init;
    var n := |actions| - 1;
    if actions == [] {
      OncesStart(cfg);
    } else {
      OncesKept(cfg, actions[..n]);
      var s := Run(cfg, actions[..n]).value;
      match actions[n]
      case Enter(t, role) => ArriveSome(cfg, s, t, role); OncesArrival(cfg, s, t, role);
      case Act(t, ok) => OncesStep(cfg, s, t, ok);
    }
  }

  /** In every interleaving of requests, adders and removers: at most one thread is in the body of a Once,
      and an instance is started once for every Once whose body has got that far. */
  lemma InstanceBodiesRunAlone(cfg: Config, actions: seq<Action>)
    requires Run(cfg, actions).Some?
    ensures var s := Run(cfg, actions).value;
      BodiesApart(s) && s.insts.starts == |StartedOnces(s.insts)| && s.insts.retirements == s.insts.current
  {
    hide Run, BodiesApart, StartedOnces;
    OncesKept(cfg, actions);
  }

  /** The Once of a thread in its body runs; only a request is forwarded, and only when the Once that it
      read is done; an adder replaces no Once. */
  lemma ForwardedAfterTheBody(cfg: Config, actions: seq<Action>, t: nat)
    requires Run(cfg, actions).Some? && t in Run(cfg, actions).value.threads
    ensures var s := Run(cfg, actions).value; var th := s.threads[t];
      && (InBody(th) ==> th.once in s.insts.onces && s.insts.onces[th.once].Running?)
      && (Forwards(th) ==> th.role.Request? && th.once in s.insts.onces && s.insts.onces[th.once].Done?)
      && (th.pc.RemoveSwap? ==> !th.role.Adder?)
  {
    hide Run;
    OncesKept(cfg, actions);
    assert SeesOnce(Run(cfg, actions).value.insts, Run(cfg, actions).value.threads[t]);
  }
}
