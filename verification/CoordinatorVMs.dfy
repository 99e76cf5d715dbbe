/** What the instances are: the image for which each was made, and what the orchestrator's calls have
    made of its VM, in any interleaving. All of it is read off the actions. */
module CoordinatorVMs {
  import opened Bags
  import opened Coordinators
  import opened CoordinatorRuns
  import opened Options

  /** The image that handler t was asked to create a container of. */
  function Requested(actions: seq<Action>, t: nat): Option<string> {
    if actions == [] then None
    else
      var n := |actions| - 1;
      if actions[n].Create? && actions[n].t == t then Some(actions[n].image) else Requested(actions[..n], t)
  }

  /** Offloaded means that the offload was called; its error is only logged. */
  datatype Status = Unborn | Running | Paused | Offloaded | Loaded

  /** A VM, and the image for which its number was given. */
  datatype Vm = Vm(image: Option<string>, status: Status)

  /** What a call makes of the VM it is about; a call that fails changes nothing here. */
  function Called(cfg: Config, h: Handler, ok: bool, v: Status): Status {
    match h
    case Starting(_) => if ok || cfg.withoutOrchestrator then Running else v
    case Pausing(_) => if ok then Paused else v
    case Offloading(_) => Offloaded
    case Loading(_) => if ok then Loaded else v
    case Resuming(_) => if ok then Running else v
    case _ => v
  }

  function AfterAct(cfg: Config, nextID: nat, h: Handler, ok: bool, asked: Option<string>, x: nat, v: Vm): Vm {
    if h.NewID? && x == nextID + 1 then Vm(asked, Unborn)
    else if Holds(h).Some? && Holds(h).value.id == x then v.(status := Called(cfg, h, ok, v.status))
    else v
  }

  /** The VM of number x. */
  ghost function Story(cfg: Config, actions: seq<Action>, x: nat): Vm {
    if actions == [] then Vm(None, Unborn)
    else
      var n := |actions| - 1;
      var v := Story(cfg, actions[..n], x);
      match Run(cfg, actions[..n])
      case None => v
      case Some(s) =>
        if actions[n].Act? && actions[n].t in s.handlers
        then AfterAct(cfg, s.coord.nextID, s.handlers[actions[n].t], actions[n].ok, Requested(actions[..n], actions[n].t), x, v)
        else v
  }

  /** A handler that creates a container. */
  predicate Creates(h: Handler) {
    h.GetIdle? || h.NewID? || h.Starting? || h.Loading? || h.Resuming? || h.Started?
  }

  function ImageOf(h: Handler): string
    requires Creates(h)
  {
    if h.GetIdle? || h.NewID? then h.image else h.fi.image
  }

  /** The status in which a handler has its instance. */
  predicate Stands(h: Handler, v: Status) {
    match h
    case Starting(_) => v == Unborn
    case Loading(_) => v == Offloaded
    case Resuming(_) => v == Loaded
    case Snapshotting(_) => v == Paused
    case Offloading(_) => v == Running || v == Paused
    case Parking(_) => v == Offloaded
    case _ => v == Running
  }

  /** A handler's instance is of its VM's image, and the VM is in the right status. */
  predicate FitsVm(h: Handler, v: Vm) {
    Holds(h).Some? ==> v.image == Some(Holds(h).value.image) && Stands(h, v.status)
  }

  ghost predicate Fits(cfg: Config, actions: seq<Action>, h: Handler) {
    Holds(h).Some? ==> FitsVm(h, Story(cfg, actions, Holds(h).value.id))
  }

  ghost predicate HandlersFit(cfg: Config, actions: seq<Action>, s: State) {
    forall t: nat :: t in s.handlers ==>
      Fits(cfg, actions, s.handlers[t]) && (Creates(s.handlers[t]) ==> Requested(actions, t) == Some(ImageOf(s.handlers[t])))
  }

  ghost predicate ActiveFit(cfg: Config, actions: seq<Action>, s: State) {
    forall c :: c in s.coord.active ==> Story(cfg, actions, s.coord.active[c].id) == Vm(Some(s.coord.active[c].image), Running)
  }

  ghost predicate IdleFit(cfg: Config, actions: seq<Action>, s: State) {
    forall image, k: nat :: image in s.coord.idle && k < |s.coord.idle[image]| ==>
      s.coord.idle[image][k].image == image && Story(cfg, actions, s.coord.idle[image][k].id) == Vm(Some(image), Offloaded)
  }

  // ----- one action -----

  lemma StoryStep(cfg: Config, actions: seq<Action>, s: State, x: nat)
    requires actions != [] && Run(cfg, actions[..|actions| - 1]) == Some(s)
    requires actions[|actions| - 1].Act? && actions[|actions| - 1].t in s.handlers
    ensures var a := actions[|actions| - 1]; var before := actions[..|actions| - 1];
      Story(cfg, actions, x)
      == AfterAct(cfg, s.coord.nextID, s.handlers[a.t], a.ok, Requested(before, a.t), x, Story(cfg, before, x))
  {
    hide AfterAct, Run;
  }

  lemma RequestedStep(actions: seq<Action>, t: nat)
    requires actions != []
    ensures var a := actions[|actions| - 1];
      Requested(actions, t) == if a.Create? && a.t == t then Some(a.image) else Requested(actions[..|actions| - 1], t)
  {
  }

  /** Where an instance is while an action is under way: known, and not with the handler that acts. */
  ghost predicate Elsewhere(s: State, h: Handler, x: nat) {
    x <= s.coord.nextID && Held(h)[x] == 0
  }

  lemma StoryElsewhere(cfg: Config, nextID: nat, h: Handler, ok: bool, asked: Option<string>, x: nat, v: Vm)
    requires x <= nextID && Held(h)[x] == 0
    ensures AfterAct(cfg, nextID, h, ok, asked, x, v) == v
  {
    HeldIs(h, x);
  }

  /** Idle and active instances are known and not with a handler. */
  lemma IdleElsewhere(s: State, t: nat, image: string, k: nat)
    requires Conserved(s) && t in s.handlers && image in s.coord.idle && k < |s.coord.idle[image]|
    ensures Elsewhere(s, s.handlers[t], s.coord.idle[image][k].id)
  {
    hide Bag, Held, Listed;
    var x := s.coord.idle[image][k].id;
    assert Places(s, x) == if 1 <= x <= s.coord.nextID then 1 else 0;
    BagHas(s.coord.idle, Listed, image, x);
    ListedHas(s.coord.idle[image], k);
    BagHas(s.handlers, Held, t, x);
  }

  lemma ActiveElsewhere(s: State, t: nat, c: string)
    requires Conserved(s) && t in s.handlers && c in s.coord.active
    ensures Elsewhere(s, s.handlers[t], s.coord.active[c].id)
  {
    hide Bag, Held, Listed;
    var x := s.coord.active[c].id;
    assert Places(s, x) == if 1 <= x <= s.coord.nextID then 1 else 0;
    BagHas(s.coord.active, One, c, x);
    BagHas(s.handlers, Held, t, x);
  }

  lemma HandlerElsewhere(s: State, t: nat, u: nat)
    requires Conserved(s) && t in s.handlers && u in s.handlers && t != u && Holds(s.handlers[u]).Some?
    ensures Elsewhere(s, s.handlers[t], Holds(s.handlers[u]).value.id)
  {
    hide Bag, Held, Listed;
    var x := Holds(s.handlers[u]).value.id;
    HeldIs(s.handlers[u], x);
    HeldKnown(s, u, x);
    HeldAlone(s, u, x);
  }

  /** What the handler that acts has afterwards; y is its number, v that VM before. */
  lemma SelfFits(cfg: Config, s: State, h: Handler, ok: bool, stock: Option<string>, asked: Option<string>, y: nat, v: Vm)
    requires Enabled(s, h) && (Creates(h) ==> asked == Some(ImageOf(h)))
    requires Holds(NextHandler(cfg, s, h, ok, stock)).Some? ==> Holds(NextHandler(cfg, s, h, ok, stock)).value.id == y
    requires Holds(h).Some? && Holds(h).value.id == y ==> FitsVm(h, v)
    requires h.GetIdle? && FirstIdle(s.coord, h.image).Some? && FirstIdle(s.coord, h.image).value.id == y ==>
               FirstIdle(s.coord, h.image).value.image == h.image && v == Vm(Some(h.image), Offloaded)
    requires h.Take? && h.containerID in s.coord.active && s.coord.active[h.containerID].id == y ==>
               v == Vm(Some(s.coord.active[h.containerID].image), Running)
    ensures var h' := NextHandler(cfg, s, h, ok, stock);
      && FitsVm(h', AfterAct(cfg, s.coord.nextID, h, ok, asked, y, v))
      && (Creates(h') ==> asked == Some(ImageOf(h')))
  {
  }

  lemma HandlersStep(cfg: Config, actions: seq<Action>, s: State)
    requires LastActs(cfg, actions, s) && Conserved(s)
    requires HandlersFit(cfg, actions[..|actions| - 1], s) && ActiveFit(cfg, actions[..|actions| - 1], s) && IdleFit(cfg, actions[..|actions| - 1], s)
    ensures HandlersFit(cfg, actions, After(cfg, actions, s))
  {
    hide Run, Conserved, NextHandler, NextCoord, NextSnaps, NextEnds, NextHistory,
         AfterAct, Story, Requested, Creates, ImageOf, Stands, Holds, Enabled, Held;
    var a, before := actions[|actions| - 1], actions[..|actions| - 1];
    var h, asked := s.handlers[a.t], Requested(before, a.t);
    var h' := NextHandler(cfg, s, h, a.ok, a.stock);
    forall u: nat | u in s.handlers && u != a.t
      ensures Fits(cfg, actions, s.handlers[u])
      ensures Creates(s.handlers[u]) ==> Requested(actions, u) == Some(ImageOf(s.handlers[u]))
    {
      assert Fits(cfg, before, s.handlers[u]);
      RequestedStep(actions, u);
      if Holds(s.handlers[u]).Some? {
        var x := Holds(s.handlers[u]).value.id;
        HandlerElsewhere(s, a.t, u);
        StoryStep(cfg, actions, s, x);
        StoryElsewhere(cfg, s.coord.nextID, h, a.ok, asked, x, Story(cfg, before, x));
      }
    }
    RequestedStep(actions, a.t);
    assert Fits(cfg, before, h);
    var y := if Holds(h').Some? then Holds(h').value.id else 0;
    FirstIdleFits(cfg, before, s, h);
    SelfFits(cfg, s, h, a.ok, a.stock, asked, y, Story(cfg, before, y));
    StoryStep(cfg, actions, s, y);
  }

  lemma FirstIdleFits(cfg: Config, actions: seq<Action>, s: State, h: Handler)
    requires IdleFit(cfg, actions, s)
    ensures h.GetIdle? && FirstIdle(s.coord, h.image).Some? ==>
      var fi := FirstIdle(s.coord, h.image).value;
      fi.image == h.image && Story(cfg, actions, fi.id) == Vm(Some(h.image), Offloaded)
  {
    hide Story;
  }

  /** The last action is that of a handler, and can happen. */
  ghost predicate LastActs(cfg: Config, actions: seq<Action>, s: State) {
    && actions != [] && Run(cfg, actions[..|actions| - 1]) == Some(s)
    && var a := actions[|actions| - 1];
       a.Act? && a.t in s.handlers && Move(cfg, s, a.t, a.ok, a.stock).Some?
  }

  ghost function After(cfg: Config, actions: seq<Action>, s: State): State
    requires LastActs(cfg, actions, s)
  {
    var a := actions[|actions| - 1];
    Move(cfg, s, a.t, a.ok, a.stock).value
  }

  lemma StoryStays(cfg: Config, actions: seq<Action>, s: State, x: nat)
    requires LastActs(cfg, actions, s) && Elsewhere(s, s.handlers[actions[|actions| - 1].t], x)
    ensures Story(cfg, actions, x) == Story(cfg, actions[..|actions| - 1], x)
  {
    hide Run, AfterAct, Story, Requested, Move;
    var a, before := actions[|actions| - 1], actions[..|actions| - 1];
    StoryStep(cfg, actions, s, x);
    StoryElsewhere(cfg, s.coord.nextID, s.handlers[a.t], a.ok, Requested(before, a.t), x, Story(cfg, before, x));
  }

  /** A handler that makes its instance active, or idle, hands over a VM in the right status. */
  lemma HandsOver(cfg: Config, nextID: nat, h: Handler, ok: bool, asked: Option<string>, v: Vm)
    requires (h.Started? || h.Parking?) && FitsVm(h, v)
    ensures AfterAct(cfg, nextID, h, ok, asked, h.fi.id, v) == Vm(Some(h.fi.image), if h.Started? then Running else Offloaded)
  {
  }

  lemma ActiveMoves(c: Coord, h: Handler, stock: Option<string>, id: string)
    ensures var c' := NextCoord(c, h, stock);
      id in c'.active ==> (id in c.active && c'.active[id] == c.active[id]) || (h.Started? && c'.active[id] == h.fi)
  {
  }

  lemma ActiveFitStep(cfg: Config, actions: seq<Action>, s: State)
    requires LastActs(cfg, actions, s) && Conserved(s)
    requires HandlersFit(cfg, actions[..|actions| - 1], s) && ActiveFit(cfg, actions[..|actions| - 1], s)
    ensures ActiveFit(cfg, actions, After(cfg, actions, s))
  {
    hide Run, Conserved, NextHandler, NextCoord, NextSnaps, NextEnds, NextHistory,
         AfterAct, Story, Requested, Creates, ImageOf, Stands, Enabled, Held;
    var a, before := actions[|actions| - 1], actions[..|actions| - 1];
    var h := s.handlers[a.t];
    assert Fits(cfg, before, h);
    if h.Started? {
      HandsOver(cfg, s.coord.nextID, h, a.ok, Requested(before, a.t), Story(cfg, before, h.fi.id));
      StoryStep(cfg, actions, s, h.fi.id);
    }
    forall c | c in NextCoord(s.coord, h, a.stock).active
      ensures var fi := NextCoord(s.coord, h, a.stock).active[c]; Story(cfg, actions, fi.id) == Vm(Some(fi.image), Running)
    {
      ActiveMoves(s.coord, h, a.stock, c);
      if c in s.coord.active && NextCoord(s.coord, h, a.stock).active[c] == s.coord.active[c] {
        ActiveElsewhere(s, a.t, c);
        StoryStays(cfg, actions, s, s.coord.active[c].id);
      }
    }
  }

  lemma IdleFitMoves(c: Coord, h: Handler, stock: Option<string>, image: string, k: nat)
    requires image in NextCoord(c, h, stock).idle && k < |NextCoord(c, h, stock).idle[image]|
    ensures var fi := NextCoord(c, h, stock).idle[image][k];
      (image in c.idle && fi in c.idle[image]) || (h.Parking? && fi == h.fi && image == fi.image)
  {
  }

  lemma IdleFitStep(cfg: Config, actions: seq<Action>, s: State)
    requires LastActs(cfg, actions, s) && Conserved(s)
    requires HandlersFit(cfg, actions[..|actions| - 1], s) && IdleFit(cfg, actions[..|actions| - 1], s)
    ensures IdleFit(cfg, actions, After(cfg, actions, s))
  {
    hide Run, Conserved, NextHandler, NextCoord, NextSnaps, NextEnds, NextHistory,
         AfterAct, Story, Requested, Creates, ImageOf, Stands, Enabled, Held;
    var a, before := actions[|actions| - 1], actions[..|actions| - 1];
    var h := s.handlers[a.t];
    assert Fits(cfg, before, h);
    if h.Parking? {
      HandsOver(cfg, s.coord.nextID, h, a.ok, Requested(before, a.t), Story(cfg, before, h.fi.id));
      StoryStep(cfg, actions, s, h.fi.id);
    }
    var idle: map<string, seq<Instance>> := NextCoord(s.coord, h, a.stock).idle;
    forall image, k: nat | image in idle && k < |idle[image]|
      ensures idle[image][k].image == image && Story(cfg, actions, idle[image][k].id) == Vm(Some(image), Offloaded)
    {
      IdleFitMoves(s.coord, h, a.stock, image, k);
      if image in s.coord.idle && idle[image][k] in s.coord.idle[image] {
        var l: nat :| l < |s.coord.idle[image]| && s.coord.idle[image][l] == idle[image][k];
        IdleElsewhere(s, a.t, image, l);
        StoryStays(cfg, actions, s, idle[image][k].id);
      }
    }
  }

  lemma ArrivalFits(cfg: Config, actions: seq<Action>, s: State, t: nat, h: Handler)
    requires actions != [] && Run(cfg, actions[..|actions| - 1]) == Some(s) && t !in s.handlers
    requires actions[|actions| - 1] == (if h.GetIdle? then Create(t, h.image) else if h.Take? then Remove(t, h.containerID) else Act(t, false, None))
    requires h.GetIdle? || h.Take?
    requires HandlersFit(cfg, actions[..|actions| - 1], s) && ActiveFit(cfg, actions[..|actions| - 1], s) && IdleFit(cfg, actions[..|actions| - 1], s)
    ensures var s' := s.(handlers := s.handlers[t := h]);
      HandlersFit(cfg, actions, s') && ActiveFit(cfg, actions, s') && IdleFit(cfg, actions, s')
  {
    hide Run, Requested, AfterAct;
    forall x: nat ensures Story(cfg, actions, x) == Story(cfg, actions[..|actions| - 1], x) {}
    hide Story, Stands;
    forall u: nat ensures u != t ==> Requested(actions, u) == Requested(actions[..|actions| - 1], u) { RequestedStep(actions, u); }
    RequestedStep(actions, t);
    forall u: nat | u in s.handlers ensures Fits(cfg, actions, s.handlers[u]) { assert Fits(cfg, actions[..|actions| - 1], s.handlers[u]); }
  }

  lemma {:induction false} FitsKept(cfg: Config, actions: seq<Action>)
    requires Run(cfg, actions).Some?
    ensures var s := Run(cfg, actions).value;
      HandlersFit(cfg, actions, s) && ActiveFit(cfg, actions, s) && IdleFit(cfg, actions, s)
  {
    hide Conserved, Disciplined, Move, HandlersFit, ActiveFit, IdleFit, Init;
    var n := |actions| - 1;
    if actions == [] {
      NothingFits(cfg);
    } else {
      FitsKept(cfg, actions[..n]);
      Kept(cfg, actions[..n]);
      var s := Run(cfg, actions[..n]).value;
      match actions[n]
      case Create(t, image) => ArrivalFits(cfg, actions, s, t, GetIdle(image));
      case Remove(t, containerID) => ArrivalFits(cfg, actions, s, t, Take(containerID));
      case Act(t, ok, stock) =>
        HandlersStep(cfg, actions, s);
        ActiveFitStep(cfg, actions, s);
        IdleFitStep(cfg, actions, s);
    }
  }

  lemma NothingFits(cfg: Config)
    ensures HandlersFit(cfg, [], Init()) && ActiveFit(cfg, [], Init()) && IdleFit(cfg, [], Init())
  {
  }

  // ----- what holds in every interleaving -----

  /** Whatever a creation has at any time, from the pop of an idle instance or the start of a new one to
      the container that is inserted, is of the image that was requested. */
  lemma CreationGetsItsImage(cfg: Config, actions: seq<Action>, t: nat)
    requires Run(cfg, actions).Some? && t in Run(cfg, actions).value.handlers
    ensures var h := Run(cfg, actions).value.handlers[t];
      h.Starting? || h.Loading? || h.Resuming? || h.Started? ==> Requested(actions, t) == Some(h.fi.image)
  {
    hide Run, ActiveFit, IdleFit, Fits, Requested;
    FitsKept(cfg, actions);
  }

  /** An active container has a running VM of the image for which its number was given; an idle instance
      is offloaded, of the image of its list; what is loaded was offloaded, what is resumed was loaded,
      and what is snapshotted was paused. */
  lemma StatusesFit(cfg: Config, actions: seq<Action>)
    requires Run(cfg, actions).Some?
    ensures var s := Run(cfg, actions).value;
      && (forall c :: c in s.coord.active ==> Story(cfg, actions, s.coord.active[c].id) == Vm(Some(s.coord.active[c].image), Running))
      && (forall image, k: nat :: image in s.coord.idle && k < |s.coord.idle[image]| ==>
            Story(cfg, actions, s.coord.idle[image][k].id) == Vm(Some(image), Offloaded))
      && (forall t: nat :: t in s.handlers ==> var h := s.handlers[t];
            && (h.Starting? ==> Story(cfg, actions, h.fi.id) == Vm(Some(h.fi.image), Unborn))
            && (h.Loading? || h.Parking? ==> Story(cfg, actions, h.fi.id) == Vm(Some(h.fi.image), Offloaded))
            && (h.Resuming? ==> Story(cfg, actions, h.fi.id) == Vm(Some(h.fi.image), Loaded))
            && (h.Snapshotting? ==> Story(cfg, actions, h.fi.id) == Vm(Some(h.fi.image), Paused))
            && (h.Started? || h.Pausing? || h.Stopping? ==> Story(cfg, actions, h.fi.id) == Vm(Some(h.fi.image), Running)))
  {
    hide Run, Story;
    FitsKept(cfg, actions);
    var s := Run(cfg, actions).value;
    forall t: nat | t in s.handlers ensures Fits(cfg, actions, s.handlers[t]) {}
  }

  /** The handler whose instance a container has: the last to insert it, unless it was taken since. */
  ghost function Inserter(cfg: Config, actions: seq<Action>, c: string): Option<nat> {
    if actions == [] then None
    else
      var n := |actions| - 1;
      var last := Inserter(cfg, actions[..n], c);
      var a := actions[n];
      match Run(cfg, actions[..n])
      case None => last
      case Some(s) =>
        if !a.Act? || a.t !in s.handlers then last
        else if s.handlers[a.t] == Take(c) then None
        else if s.handlers[a.t].Started? && a.stock == Some(c) && last.None? then Some(a.t)
        else last
  }

  lemma InsertedStep(cfg: Config, actions: seq<Action>, s: State, c: string)
    requires LastActs(cfg, actions, s) && HandlersFit(cfg, actions[..|actions| - 1], s)
    requires var before := actions[..|actions| - 1]; var who := Inserter(cfg, before, c);
      && (c in s.coord.active <==> who.Some?)
      && (who.Some? ==> who.value in s.handlers && Requested(before, who.value) == Some(s.coord.active[c].image))
    ensures var s' := After(cfg, actions, s); var who := Inserter(cfg, actions, c);
      && (c in s'.coord.active <==> who.Some?)
      && (who.Some? ==> who.value in s'.handlers && Requested(actions, who.value) == Some(s'.coord.active[c].image))
  {
    hide Run, Fits, NextHandler, NextSnaps, NextEnds, NextHistory, Enabled;
  }

  /** A container is active exactly from its insertion to the removal that takes it, and its instance is
      of the image that the creation which inserted it was asked for. */
  lemma {:induction false} ActiveHasTheRequestedImage(cfg: Config, actions: seq<Action>, c: string)
    requires Run(cfg, actions).Some?
    ensures var s := Run(cfg, actions).value; var who := Inserter(cfg, actions, c);
      && (c in s.coord.active <==> who.Some?)
      && (who.Some? ==> who.value in s.handlers && Requested(actions, who.value) == Some(s.coord.active[c].image))
  {
    hide Move, HandlersFit, ActiveFit, IdleFit;
    if actions != [] {
      var n := |actions| - 1;
      var s := Run(cfg, actions[..n]).value;
      ActiveHasTheRequestedImage(cfg, actions[..n], c);
      FitsKept(cfg, actions[..n]);
      if actions[n].Act? { InsertedStep(cfg, actions, s, c); }
    }
  }

  // ----- what is counted, by the actions -----

  datatype Event = Stops | Fails | Pauses | Snapshots | Takes

  /** What an action of handler h on instance x is. */
  predicate Is(cfg: Config, c: Coord, h: Handler, ok: bool, stock: Option<string>, e: Event, x: nat) {
    && Holds(h).Some? && Holds(h).value.id == x
    && match e
       case Stops => h.Stopping? && (ok || cfg.withoutOrchestrator)
       case Fails =>
         || ((h.Starting? || h.Stopping?) && !ok && !cfg.withoutOrchestrator)
         || ((h.Loading? || h.Resuming? || h.Pausing? || h.Snapshotting?) && !ok)
         || (h.Started? && (stock.None? || stock.value in c.active))
       case Pauses => h.Pausing?
       case Snapshots => h.Snapshotting?
       case Takes => h.Snapshotting? && ok
  }

  ghost function Times(cfg: Config, actions: seq<Action>, e: Event, x: nat): nat {
    if actions == [] then 0
    else
      var n := |actions| - 1;
      var before := Times(cfg, actions[..n], e, x);
      match Run(cfg, actions[..n])
      case None => before
      case Some(s) =>
        var a := actions[n];
        before + if a.Act? && a.t in s.handlers && Is(cfg, s.coord, s.handlers[a.t], a.ok, a.stock, e, x) then 1 else 0
  }

  lemma SnapsCounted(cfg: Config, c: Coord, sn: Snaps, h: Handler, ok: bool, stock: Option<string>, x: nat)
    ensures var sn' := NextSnaps(sn, h, ok);
      && sn'.pauses[x] == sn.pauses[x] + (if Is(cfg, c, h, ok, stock, Pauses, x) then 1 else 0)
      && sn'.snapshots[x] == sn.snapshots[x] + (if Is(cfg, c, h, ok, stock, Snapshots, x) then 1 else 0)
      && (x in sn'.taken <==> x in sn.taken || Is(cfg, c, h, ok, stock, Takes, x))
  {
  }

  lemma EndsCounted(cfg: Config, c: Coord, e: Ends, h: Handler, ok: bool, stock: Option<string>, x: nat)
    ensures var e' := NextEnds(cfg, c, e, h, ok, stock);
      && e'.stopped[x] == e.stopped[x] + (if Is(cfg, c, h, ok, stock, Stops, x) then 1 else 0)
      && e'.dropped[x] == e.dropped[x] + (if Is(cfg, c, h, ok, stock, Fails, x) then 1 else 0)
  {
  }

  /** An instance is stopped exactly by a stop that succeeds, given up exactly by a call that fails or a
      container that cannot be inserted, and has its snapshot exactly after a snapshot that succeeded. */
  lemma {:induction false} CountedAsHappened(cfg: Config, actions: seq<Action>, x: nat)
    requires Run(cfg, actions).Some?
    ensures var s := Run(cfg, actions).value;
      && s.ends.stopped[x] == Times(cfg, actions, Stops, x)
      && s.ends.dropped[x] == Times(cfg, actions, Fails, x)
      && s.snaps.pauses[x] == Times(cfg, actions, Pauses, x)
      && s.snaps.snapshots[x] == Times(cfg, actions, Snapshots, x)
      && (x in s.snaps.taken <==> Times(cfg, actions, Takes, x) >= 1)
  {
    hide Is, NextHandler, NextCoord, NextSnaps, NextEnds, NextHistory, Enabled;
    if actions != [] {
      var n := |actions| - 1;
      CountedAsHappened(cfg, actions[..n], x);
      var s := Run(cfg, actions[..n]).value;
      if actions[n].Act? {
        var h := s.handlers[actions[n].t];
        SnapsCounted(cfg, s.coord, s.snaps, h, actions[n].ok, actions[n].stock, x);
        EndsCounted(cfg, s.coord, s.ends, h, actions[n].ok, actions[n].stock, x);
      }
    }
  }
}
