/** Starting a VM step by step, with deferred actions that undo the steps when one of them fails. */
module StartVMs {
  import opened Options
  import opened TapManagers
  import opened VMPools
  import opened Taps

  /** The pool's entries, and what exists of the VM that is started: its microVM, its container, its
      task and whether that is alive, and its registration with the memory manager. */
  datatype Live = Live(pooled: map<string, VM>, vm: bool, container: bool, task: Option<bool>, registered: bool)

  /** What a failed start leaves behind. */
  datatype Residue = Residue(taps: TapState, images: set<string>, io: set<string>, dirs: set<string>)

  datatype Step = AllocateVM | GetImage | CreateVM | NewContainer | NewTask | WaitTask | StartTask | MakeDir | Register

  datatype Undo = FreeVM | StopVM | DeleteContainer | DeleteTask | KillTask

  /** The effect of a deferred action; None when containerd refuses it: a task is killed before it is
      deleted, and a container is deleted after its task. Killing a task that is dead already, as the
      second of two kills does, changes nothing; the code logs the error and goes on. */
  function AfterUndo(l: Live, id: string, u: Undo): Option<Live> {
    match u
    case KillTask => if l.task.Some? then Some(l.(task := Some(false))) else None
    case DeleteTask => if l.task == Some(false) then Some(l.(task := None)) else None
    case DeleteContainer => if l.container && l.task.None? then Some(l.(container := false)) else None
    case StopVM => if l.vm then Some(l.(vm := false)) else None
    case FreeVM => if id in l.pooled then Some(l.(pooled := l.pooled - {id})) else None
  }

  /** The deferred actions run one after the other, the last one registered first. */
  function Rollback(l: Live, id: string, deferred: seq<Undo>): Option<Live>
    decreases |deferred|
  {
    if deferred == [] then Some(l)
    else
      match AfterUndo(l, id, deferred[|deferred| - 1])
      case None => None
      case Some(l') => Rollback(l', id, deferred[..|deferred| - 1])
  }

  function Reversed<T>(q: seq<T>): seq<T> {
    if q == [] then [] else [q[|q| - 1]] + Reversed(q[..|q| - 1])
  }

  lemma NothingReversed()
    ensures Reversed<Undo>([]) == []
  {
  }

  /** Nothing of this VM exists, except perhaps its tap. */
  predicate Absent(l: Live, id: string) {
    id !in l.pooled && !l.vm && !l.container && l.task.None?
  }

  /** The actions deferred when a step fails. */
  function UndosBefore(s: Step): seq<Undo> {
    match s
    case AllocateVM => []
    case GetImage => [FreeVM]
    case CreateVM => [FreeVM]
    case NewContainer => [FreeVM, StopVM]
    case NewTask => [FreeVM, StopVM, DeleteContainer]
    case WaitTask => [FreeVM, StopVM, DeleteContainer, DeleteTask]
    case StartTask => [FreeVM, StopVM, DeleteContainer, DeleteTask, KillTask]
    case MakeDir => [FreeVM, StopVM, DeleteContainer, DeleteTask, KillTask, KillTask]
    case Register => [FreeVM, StopVM, DeleteContainer, DeleteTask, KillTask, KillTask]
  }

  lemma UndosGrow()
    ensures UndosBefore(AllocateVM) == []
    ensures UndosBefore(GetImage) == UndosBefore(CreateVM) == [FreeVM]
    ensures UndosBefore(NewContainer) == UndosBefore(CreateVM) + [StopVM]
    ensures UndosBefore(NewTask) == UndosBefore(NewContainer) + [DeleteContainer]
    ensures UndosBefore(WaitTask) == UndosBefore(NewTask) + [DeleteTask]
    ensures UndosBefore(StartTask) == UndosBefore(WaitTask) + [KillTask]
    ensures UndosBefore(MakeDir) == UndosBefore(Register) == UndosBefore(StartTask) + [KillTask]
  {
  }

  /** The first step after the allocation that fails. */
  function FirstFailing(failing: set<Step>, upfEnabled: bool): Option<Step> {
    if GetImage in failing then Some(GetImage)
    else if CreateVM in failing then Some(CreateVM)
    else if NewContainer in failing then Some(NewContainer)
    else if NewTask in failing then Some(NewTask)
    else if WaitTask in failing then Some(WaitTask)
    else if StartTask in failing then Some(StartTask)
    else if MakeDir in failing then Some(MakeDir)
    else if upfEnabled && Register in failing then Some(Register)
    else None
  }

  /** It fails, it is reached, and no step before it fails; a registration is reached only with user-level
      page faults. */
  lemma FirstFailingIff(failing: set<Step>, upfEnabled: bool, s: Step)
    ensures FirstFailing(failing, upfEnabled) == Some(s)
      <==> Reached(s, upfEnabled) && s in failing && forall u :: u in failing && Reached(u, upfEnabled) ==> Order(s) <= Order(u)
    ensures FirstFailing(failing, upfEnabled) == None <==> forall u :: u in failing ==> !Reached(u, upfEnabled)
  {
    OrderInjective();
  }

  /** A step after the allocation that the start gets to when no other step fails. */
  predicate Reached(s: Step, upfEnabled: bool) {
    s != AllocateVM && (s == Register ==> upfEnabled)
  }

  lemma OrderInjective()
    ensures forall s, u :: Order(s) == Order(u) ==> s == u
  {
  }

  datatype Reply = Started(guestIP: string) | Failed(at: Step) | Panicked

  /** The deferred actions take the present back to the start. */
  ghost predicate Compensates(start: Live, l: Live, id: string, deferred: seq<Undo>) {
    Rollback(l, id, deferred) == Some(start)
  }

  lemma Deferred(start: Live, l: Live, l': Live, id: string, deferred: seq<Undo>, u: Undo)
    requires Compensates(start, l, id, deferred) && AfterUndo(l', id, u) == Some(l)
    ensures Compensates(start, l', id, deferred + [u])
  {
    assert (deferred + [u])[..|deferred|] == deferred;
  }

  lemma VMCompensated(start: Live, l: Live, id: string, deferred: seq<Undo>)
    requires Compensates(start, l, id, deferred) && !l.vm && !l.container
    ensures Compensates(start, l.(vm := true), id, deferred + [StopVM])
  {
    Deferred(start, l, l.(vm := true), id, deferred, StopVM);
  }

  lemma ContainerCompensated(start: Live, l: Live, id: string, deferred: seq<Undo>)
    requires Compensates(start, l, id, deferred) && !l.container && l.task.None?
    ensures Compensates(start, l.(container := true), id, deferred + [DeleteContainer])
  {
    Deferred(start, l, l.(container := true), id, deferred, DeleteContainer);
  }

  lemma TaskCompensated(start: Live, l: Live, id: string, deferred: seq<Undo>)
    requires Compensates(start, l, id, deferred) && l.task.None?
    ensures Compensates(start, l.(task := Some(false)), id, deferred + [DeleteTask])
  {
    Deferred(start, l, l.(task := Some(false)), id, deferred, DeleteTask);
  }

  lemma KillCompensated(start: Live, l: Live, id: string, deferred: seq<Undo>, alive: bool)
    requires Compensates(start, l, id, deferred) && l.task == Some(false)
    ensures Compensates(start, l.(task := Some(alive)), id, deferred + [KillTask])
  {
    Deferred(start, l, l.(task := Some(alive)), id, deferred, KillTask);
  }

  lemma AllocationCompensated(start: Live, id: string, vm: VM)
    requires Absent(start, id)
    ensures Compensates(start, start.(pooled := start.pooled[id := vm]), id, [FreeVM])
  {
    assert start.pooled[id := vm] - {id} == start.pooled;
    assert Compensates(start, start, id, []);
    Deferred(start, start, start.(pooled := start.pooled[id := vm]), id, [], FreeVM);
    assert [] + [FreeVM] == [FreeVM];
  }

  /** What exists when a step is reached. */
  function LiveAt(start: Live, id: string, vm: VM, s: Step): Live
    decreases Order(s)
  {
    match s
    case AllocateVM => start
    case GetImage => start.(pooled := start.pooled[id := vm])
    case CreateVM => LiveAt(start, id, vm, GetImage)
    case NewContainer => LiveAt(start, id, vm, CreateVM).(vm := true)
    case NewTask => LiveAt(start, id, vm, NewContainer).(container := true)
    case WaitTask => LiveAt(start, id, vm, NewTask).(task := Some(false))
    case StartTask => LiveAt(start, id, vm, WaitTask)
    case MakeDir => LiveAt(start, id, vm, StartTask).(task := Some(true))
    case Register => LiveAt(start, id, vm, MakeDir)
  }

  function Order(s: Step): nat {
    match s
    case AllocateVM => 0
    case GetImage => 1
    case CreateVM => 2
    case NewContainer => 3
    case NewTask => 4
    case WaitTask => 5
    case StartTask => 6
    case MakeDir => 7
    case Register => 8
  }

  /** Whichever step is reached, the actions deferred until then, the last registered first, can all
      run and restore the start. */
  lemma {:induction false} EveryFailureCompensated(start: Live, id: string, vm: VM, s: Step)
    requires Absent(start, id)
    ensures Compensates(start, LiveAt(start, id, vm, s), id, UndosBefore(s))
    decreases Order(s)
  {
    hide Compensates;
    match s
    case AllocateVM => NothingDeferred(start, id);
    case GetImage => AllocationCompensated(start, id, vm);
    case CreateVM => EveryFailureCompensated(start, id, vm, GetImage);
    case NewContainer =>
      EveryFailureCompensated(start, id, vm, CreateVM);
      VMCompensated(start, LiveAt(start, id, vm, CreateVM), id, UndosBefore(CreateVM));
      assert UndosBefore(s) == UndosBefore(CreateVM) + [StopVM];
    case NewTask =>
      EveryFailureCompensated(start, id, vm, NewContainer);
      ContainerCompensated(start, LiveAt(start, id, vm, NewContainer), id, UndosBefore(NewContainer));
      assert UndosBefore(s) == UndosBefore(NewContainer) + [DeleteContainer];
    case WaitTask =>
      EveryFailureCompensated(start, id, vm, NewTask);
      TaskCompensated(start, LiveAt(start, id, vm, NewTask), id, UndosBefore(NewTask));
      assert UndosBefore(s) == UndosBefore(NewTask) + [DeleteTask];
    case StartTask =>
      EveryFailureCompensated(start, id, vm, WaitTask);
      KillCompensated(start, LiveAt(start, id, vm, WaitTask), id, UndosBefore(WaitTask), false);
      assert UndosBefore(s) == UndosBefore(WaitTask) + [KillTask];
    case MakeDir =>
      EveryFailureCompensated(start, id, vm, StartTask);
      KillCompensated(start, LiveAt(start, id, vm, StartTask), id, UndosBefore(StartTask), true);
      assert UndosBefore(s) == UndosBefore(StartTask) + [KillTask];
    case Register => EveryFailureCompensated(start, id, vm, MakeDir);
  }

  lemma NothingDeferred(start: Live, id: string)
    ensures Compensates(start, start, id, [])
  {
  }

  /** The deferred actions in the order in which they were registered. */
  function Forward(l: Live, id: string, deferred: seq<Undo>): Option<Live>
    decreases |deferred|
  {
    if deferred == [] then Some(l)
    else
      match AfterUndo(l, id, deferred[0])
      case None => None
      case Some(l') => Forward(l', id, deferred[1..])
  }

  lemma ReversedLast<T>(q: seq<T>)
    requires q != []
    ensures Reversed(q) == [q[|q| - 1]] + Reversed(q[..|q| - 1])
  {
  }

  lemma {:induction false} ReversedFront<T>(q: seq<T>)
    requires q != []
    ensures Reversed(q) == Reversed(q[1..]) + [q[0]]
  {
    var n := |q| - 1;
    if n > 0 {
      hide Reversed;
      ReversedLast(q);
      ReversedFront(q[..n]);
      ReversedLast(q[1..]);
      assert q[..n][1..] == q[1..][..n - 1] && q[1..][n - 1] == q[n];
    } else {
      assert q[1..] == [] && q[..0] == [];
    }
  }

  lemma {:induction false} ForwardReverses(l: Live, id: string, deferred: seq<Undo>)
    ensures Rollback(l, id, Reversed(deferred)) == Forward(l, id, deferred)
    decreases |deferred|
  {
    hide AfterUndo, Reversed;
    if deferred == [] {
      NothingReversed();
    } else {
      ReversedFront(deferred);
      var r := Reversed(deferred);
      assert r[..|r| - 1] == Reversed(deferred[1..]) && r[|r| - 1] == deferred[0];
      var u := AfterUndo(l, id, deferred[0]);
      if u.Some? { ForwardReverses(u.value, id, deferred[1..]); }
    }
  }

  /** The order in which deferred actions run matters exactly once a task exists: before, the order of
      registration restores the start as well; from then on it is refused, since the container would be
      deleted before its task. */
  lemma OrderMattersIff(start: Live, id: string, vm: VM, s: Step)
    requires Absent(start, id)
    ensures Rollback(LiveAt(start, id, vm, s), id, Reversed(UndosBefore(s)))
      == if Order(s) >= Order(WaitTask) then None else Some(start)
  {
    hide Rollback, Reversed, LiveAt, Forward, UndosBefore;
    var l := LiveAt(start, id, vm, s);
    ForwardReverses(l, id, UndosBefore(s));
    if Order(s) >= Order(WaitTask) {
      WithTask(start, id, vm, s);
      RefusedFirst(l, id, s);
    } else {
      WithoutTask(start, id, vm, s);
    }
  }

  lemma {:induction false} WithTask(start: Live, id: string, vm: VM, s: Step)
    requires Order(s) >= Order(WaitTask)
    ensures var l := LiveAt(start, id, vm, s); id in l.pooled && l.vm && l.container && l.task.Some?
    decreases Order(s)
  {
    match s
    case WaitTask => assert LiveAt(start, id, vm, NewTask) == LiveAt(start, id, vm, CreateVM).(vm := true, container := true);
    case StartTask => WithTask(start, id, vm, WaitTask);
    case MakeDir => WithTask(start, id, vm, StartTask);
    case Register => WithTask(start, id, vm, MakeDir);
    case _ =>
  }

  lemma RefusedFirst(l: Live, id: string, s: Step)
    requires Order(s) >= Order(WaitTask) && id in l.pooled && l.vm && l.container && l.task.Some?
    ensures Forward(l, id, UndosBefore(s)) == None
  {
    var u := UndosBefore(s);
    assert u[0] == FreeVM && u[1..][0] == StopVM && u[1..][1..][0] == DeleteContainer;
    var l1 := AfterUndo(l, id, FreeVM).value;
    var l2 := AfterUndo(l1, id, StopVM).value;
    assert Forward(l2, id, u[1..][1..]) == None;
    assert Forward(l1, id, u[1..]) == None;
  }

  lemma WithoutTask(start: Live, id: string, vm: VM, s: Step)
    requires Absent(start, id) && Order(s) < Order(WaitTask)
    ensures Forward(LiveAt(start, id, vm, s), id, UndosBefore(s)) == Some(start)
  {
    var created := start.(pooled := start.pooled[id := vm]);
    assert start.pooled[id := vm] - {id} == start.pooled;
    NoneForward(start, id);
    FreedForward(created, start, id, []);
    FreedForward(created.(vm := true), start.(vm := true), id, [StopVM]);
    FreedForward(created.(vm := true, container := true), start.(vm := true, container := true), id, [StopVM, DeleteContainer]);
    NoneForward(start.(container := true), id);
    assert [StopVM][1..] == [] && [StopVM, DeleteContainer][1..] == [DeleteContainer] && [DeleteContainer][1..] == [];
    assert Forward(start.(container := true), id, [DeleteContainer]) == Some(start);
    assert Forward(start.(vm := true, container := true), id, [StopVM, DeleteContainer]) == Some(start);
    assert Forward(start.(vm := true), id, [StopVM]) == Some(start);
    assert LiveAt(start, id, vm, NewTask) == LiveAt(start, id, vm, NewContainer).(container := true);
    assert LiveAt(start, id, vm, CreateVM) == created;
  }

  lemma NoneForward(l: Live, id: string)
    ensures Forward(l, id, []) == Some(l)
  {
  }

  lemma FreedForward(l: Live, l': Live, id: string, rest: seq<Undo>)
    requires id in l.pooled && l' == l.(pooled := l.pooled - {id})
    ensures Forward(l, id, [FreeVM] + rest) == Forward(l', id, rest)
  {
    assert ([FreeVM] + rest)[1..] == rest;
  }

  /** The last deferred action can run, and leaves the others to compensate. */
  lemma LastRuns(start: Live, l: Live, id: string, rest: seq<Undo>)
    requires rest != [] && Compensates(start, l, id, rest)
    ensures var n := |rest| - 1;
      && AfterUndo(l, id, rest[n]).Some? && Compensates(start, AfterUndo(l, id, rest[n]).value, id, rest[..n])
      && Reversed(rest) == [rest[n]] + Reversed(rest[..n])
  {
    hide AfterUndo, Reversed;
    ReversedLast(rest);
  }

  lemma NothingLeft(start: Live, l: Live, id: string)
    requires Compensates(start, l, id, [])
    ensures l == start
  {
  }

  /** The start got past this step. */
  predicate Passed(r: Reply, s: Step) {
    r.Started? || (r.Failed? && Order(r.at) > Order(s))
  }

  /** What a start that did not panic leaves behind: the image once it was got, the task's I/O once the
      container was there, the directory once it was made. */
  function Left(residue: Residue, taps: TapState, image: string, id: string, r: Reply): Residue {
    Residue(taps,
            if Passed(r, GetImage) then residue.images + {image} else residue.images,
            if Passed(r, NewContainer) then residue.io + {id} else residue.io,
            if Passed(r, MakeDir) then residue.dirs + {id} else residue.dirs)
  }

  lemma LeftGrows(res: Residue, taps: TapState, image: string, id: string)
    ensures Left(res, taps, image, id, Failed(AllocateVM)) == Left(res, taps, image, id, Failed(GetImage)) == res.(taps := taps)
    ensures var got := res.(taps := taps, images := res.images + {image});
      var made := got.(io := res.io + {id});
      && Left(res, taps, image, id, Failed(CreateVM)) == Left(res, taps, image, id, Failed(NewContainer)) == got
      && Left(res, taps, image, id, Failed(NewTask)) == Left(res, taps, image, id, Failed(WaitTask)) == made
      && Left(res, taps, image, id, Failed(StartTask)) == Left(res, taps, image, id, Failed(MakeDir)) == made
      && Left(res, taps, image, id, Failed(Register)) == made.(dirs := res.dirs + {id})
      && forall ip :: Left(res, taps, image, id, Started(ip)) == made.(dirs := res.dirs + {id})
  {
  }

  class Orchestrator {
    const upfEnabled: bool
    var live: Live
    var residue: Residue
    var undone: seq<Undo>

    constructor (upfEnabled: bool, live: Live, residue: Residue)
      ensures this.upfEnabled == upfEnabled && this.live == live && this.residue == residue && undone == []
    {
      this.upfEnabled, this.live, this.residue, this.undone := upfEnabled, live, residue, [];
    }

    /** The return path of a failed start. */
    method RunDeferred(ghost start: Live, id: string, deferred: seq<Undo>)
      requires Compensates(start, live, id, deferred)
      modifies this`live, this`undone
      ensures live == start
      ensures undone == old(undone) + Reversed(deferred)
    {
      hide AfterUndo, Compensates, Reversed;
      var rest := deferred;
      while rest != []
        invariant Compensates(start, live, id, rest)
        invariant undone + Reversed(rest) == old(undone) + Reversed(deferred)
        decreases |rest|
      {
        LastRuns(start, live, id, rest);
        var u := rest[|rest| - 1];
        live := AfterUndo(live, id, u).value;
        undone := undone + [u];
        rest := rest[..|rest| - 1];
      }
      NothingReversed();
      NothingLeft(start, live, id);
    }

    /** `failing` are the steps that fail if they are reached, besides an allocation without a tap.
        Whichever step fails, what exists is what existed before, and the deferred actions of the
        steps before it ran, each in a state where it can; on success none did. */
    method StartVM(id: string, image: string, env: Env, failing: set<Step>) returns (r: Reply)
      requires |residue.taps.counts| == NUM_BRIDGES
      requires id !in live.pooled ==> Absent(live, id)
      modifies this
      ensures r.Panicked? <==> id in old(live).pooled
      ensures r.Panicked? ==> live == old(live) && residue == old(residue) && undone == old(undone)
      ensures r.Failed? && r.at != AllocateVM ==> FirstFailing(failing, upfEnabled) == Some(r.at)
      ensures r.Failed? ==>
        && live == old(live)
        && undone == old(undone) + Reversed(UndosBefore(r.at))
      ensures r.Started? ==>
        && undone == old(undone)
        && FirstFailing(failing, upfEnabled) == None
        && id in live.pooled && r.guestIP == live.pooled[id].ni.primaryAddress
        && live == Live(old(live).pooled[id := live.pooled[id]], true, true, Some(true), old(live).registered || upfEnabled)
      ensures !r.Panicked? ==>
        var o := AfterAllocate(Pool(old(live).pooled, old(residue).taps), id, env);
        o.Done? && residue == Left(old(residue), o.pool.taps, image, id, r) && (r == Failed(AllocateVM) <==> !o.ok)
    {
      hide AfterAllocate, AfterAddTap, AfterUndo, Compensates, Rollback, Reversed, LiveAt, UndosBefore, Left;
      NothingReversed();
      UndosGrow();
      ghost var start := live;
      AllocateMeans(Pool(live.pooled, residue.taps), id, env);
      var o := AfterAllocate(Pool(live.pooled, residue.taps), id, env);
      if o.Panic? { return Reply.Panicked; }
      LeftGrows(residue, o.pool.taps, image, id);
      residue := residue.(taps := o.pool.taps);
      if !o.ok { return Failed(AllocateVM); }
      live := live.(pooled := o.pool.vms);
      var deferred := [FreeVM];
      AllocationCompensated(start, id, live.pooled[id]);

      if GetImage in failing { RunDeferred(start, id, deferred); return Failed(GetImage); }
      residue := residue.(images := residue.images + {image});

      if CreateVM in failing { RunDeferred(start, id, deferred); return Failed(CreateVM); }
      VMCompensated(start, live, id, deferred);
      live := live.(vm := true);
      deferred := deferred + [StopVM];

      if NewContainer in failing { RunDeferred(start, id, deferred); return Failed(NewContainer); }
      ContainerCompensated(start, live, id, deferred);
      live := live.(container := true);
      deferred := deferred + [DeleteContainer];

      residue := residue.(io := residue.io + {id});
      if NewTask in failing { RunDeferred(start, id, deferred); return Failed(NewTask); }
      TaskCompensated(start, live, id, deferred);
      live := live.(task := Some(false));
      deferred := deferred + [DeleteTask];

      if WaitTask in failing { RunDeferred(start, id, deferred); return Failed(WaitTask); }
      KillCompensated(start, live, id, deferred, false);
      deferred := deferred + [KillTask];

      if StartTask in failing { RunDeferred(start, id, deferred); return Failed(StartTask); }
      KillCompensated(start, live, id, deferred, true);
      live := live.(task := Some(true));
      deferred := deferred + [KillTask];

      if MakeDir in failing { RunDeferred(start, id, deferred); return Failed(MakeDir); }
      residue := residue.(dirs := residue.dirs + {id});
      if upfEnabled {
        if Register in failing { RunDeferred(start, id, deferred); return Failed(Register); }
        live := live.(registered := true);
      }
      return Started(live.pooled[id].ni.primaryAddress);
    }
  }

  lemma AllocateMeans(p: Pool, id: string, env: Env)
    requires |p.taps.counts| == NUM_BRIDGES
    ensures var o := AfterAllocate(p, id, env);
      && (o.Panic? <==> id in p.vms)
      && (o.Done? && o.ok ==> id in o.pool.vms && o.pool.vms == p.vms[id := o.pool.vms[id]])
  {
    hide AfterAddTap;
  }
}
