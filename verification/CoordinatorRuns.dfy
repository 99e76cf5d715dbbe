/** Any number of handlers that create or remove containers, interleaved one coordinator call or one
    orchestrator call at a time. */
module CoordinatorRuns {
  import opened Bags
  import opened Coordinators
  import opened Options

  datatype Handler =
    | GetIdle(image: string)
    | NewID(image: string)         // no idle instance: before the number is taken
    | Starting(fi: Instance)       // before StartVM returns
    | Loading(fi: Instance)        // before LoadSnapshot returns
    | Resuming(fi: Instance)       // before ResumeVM returns
    | Started(fi: Instance)        // before the container is known and the instance inserted
    | Take(containerID: string)    // a removal, before it takes the active entry
    | Stopping(fi: Instance)       // before StopSingleVM returns
    | SnapOnce(fi: Instance)       // before Do on the instance's snapshot Once
    | Pausing(fi: Instance)        // in its body, before PauseVM returns
    | Snapshotting(fi: Instance)   // before CreateSnapshot returns
    | Offloading(fi: Instance)     // before Offload returns
    | Parking(fi: Instance)        // before the instance is set idle
    | Finished

  /** The instances' snapshot Onces, the pauses and snapshots asked for, and the snapshots taken. */
  datatype Snaps = Snaps(running: set<nat>, done: set<nat>, pauses: multiset<nat>, snapshots: multiset<nat>, taken: set<nat>)

  /** Where instances end: stopped, dropped by a handler that met an error, or popped from an idle
      list and not used. */
  datatype Ends = Ends(stopped: multiset<nat>, dropped: multiset<nat>, discarded: multiset<nat>)

  /** Per image, every instance set idle and every instance popped, in order. */
  datatype History = History(pushed: map<string, seq<Instance>>, popped: map<string, seq<Instance>>)

  datatype State = State(coord: Coord, handlers: map<nat, Handler>, snaps: Snaps, ends: Ends, hist: History)

  function Init(): State {
    State(Coord(0, map[], map[]), map[], Snaps({}, {}, multiset{}, multiset{}, {}),
          Ends(multiset{}, multiset{}, multiset{}), History(map[], map[]))
  }

  /** Do on a Once that another handler runs waits. */
  predicate Enabled(s: State, h: Handler) {
    match h
    case SnapOnce(fi) => fi.id !in s.snaps.running
    case Finished => false
    case _ => true
  }

  /** `ok` is whether the orchestrator call succeeds; `stock` is the container that the stock runtime
      made for the instance, if it made one. */
  function NextHandler(cfg: Config, s: State, h: Handler, ok: bool, stock: Option<string>): Handler {
    match h
    case GetIdle(image) =>
      var fi := FirstIdle(s.coord, image);
      if cfg.snapshotsEnabled && fi.Some? then Loading(fi.value) else NewID(image)
    case NewID(image) => Starting(Instance(s.coord.nextID + 1, image))
    case Starting(fi) => if ok || cfg.withoutOrchestrator then Started(fi) else Finished
    case Loading(fi) => if ok then Resuming(fi) else Finished
    case Resuming(fi) => if ok then Started(fi) else Finished
    case Take(containerID) =>
      if containerID !in s.coord.active then Finished
      else if cfg.snapshotsEnabled then SnapOnce(s.coord.active[containerID])
      else Stopping(s.coord.active[containerID])
    case SnapOnce(fi) => if fi.id in s.snaps.done then Offloading(fi) else Pausing(fi)
    case Pausing(fi) => if ok then Snapshotting(fi) else Finished
    case Snapshotting(fi) => if ok then Offloading(fi) else Finished
    case Offloading(fi) => Parking(fi)
    case _ => Finished
  }

  function NextCoord(c: Coord, h: Handler, stock: Option<string>): Coord {
    match h
    case GetIdle(image) => WithoutFirst(c, image)
    case NewID(_) => WithNewID(c)
    case Started(fi) => if stock.Some? then WithActive(c, stock.value, fi) else c
    case Take(containerID) => WithoutActive(c, containerID)
    case Parking(fi) => WithIdle(c, fi)
    case _ => c
  }

  function NextSnaps(sn: Snaps, h: Handler, ok: bool): Snaps {
    match h
    case SnapOnce(fi) => if fi.id in sn.done then sn else sn.(running := sn.running + {fi.id})
    case Pausing(fi) =>
      var p := sn.(pauses := sn.pauses + multiset{fi.id});
      if ok then p else p.(running := sn.running - {fi.id}, done := sn.done + {fi.id})
    case Snapshotting(fi) =>
      sn.(snapshots := sn.snapshots + multiset{fi.id}, running := sn.running - {fi.id}, done := sn.done + {fi.id},
          taken := if ok then sn.taken + {fi.id} else sn.taken)
    case _ => sn
  }

  function Drop(e: Ends, fi: Instance): Ends { e.(dropped := e.dropped + multiset{fi.id}) }

  function NextEnds(cfg: Config, c: Coord, e: Ends, h: Handler, ok: bool, stock: Option<string>): Ends {
    match h
    case GetIdle(image) =>
      var fi := FirstIdle(c, image);
      if fi.Some? && !cfg.snapshotsEnabled then e.(discarded := e.discarded + multiset{fi.value.id}) else e
    case Starting(fi) => if ok || cfg.withoutOrchestrator then e else Drop(e, fi)
    case Loading(fi) => if ok then e else Drop(e, fi)
    case Resuming(fi) => if ok then e else Drop(e, fi)
    case Started(fi) => if stock.Some? && stock.value !in c.active then e else Drop(e, fi)
    case Stopping(fi) =>
      if ok || cfg.withoutOrchestrator then e.(stopped := e.stopped + multiset{fi.id}) else Drop(e, fi)
    case Pausing(fi) => if ok then e else Drop(e, fi)
    case Snapshotting(fi) => if ok then e else Drop(e, fi)
    case _ => e
  }

  function NextHistory(c: Coord, hist: History, h: Handler): History {
    match h
    case GetIdle(image) =>
      var fi := FirstIdle(c, image);
      if fi.None? then hist else hist.(popped := hist.popped[image := Queue(hist.popped, image) + [fi.value]])
    case Parking(fi) => hist.(pushed := hist.pushed[fi.image := Queue(hist.pushed, fi.image) + [fi]])
    case _ => hist
  }

  function Move(cfg: Config, s: State, t: nat, ok: bool, stock: Option<string>): Option<State>
    requires t in s.handlers
  {
    var h := s.handlers[t];
    if !Enabled(s, h) then None
    else Some(State(NextCoord(s.coord, h, stock),
                    s.handlers[t := NextHandler(cfg, s, h, ok, stock)],
                    NextSnaps(s.snaps, h, ok),
                    NextEnds(cfg, s.coord, s.ends, h, ok, stock),
                    NextHistory(s.coord, s.hist, h)))
  }

  /** A create or a remove request arrives, or a handler acts. */
  datatype Action = Create(t: nat, image: string) | Remove(t: nat, containerID: string) | Act(t: nat, ok: bool, stock: Option<string>)

  function Arrive(s: State, t: nat, h: Handler): Option<State> {
    if t in s.handlers then None else Some(s.(handlers := s.handlers[t := h]))
  }

  function Next(cfg: Config, s: State, a: Action): Option<State> {
    match a
    case Create(t, image) => Arrive(s, t, GetIdle(image))
    case Remove(t, containerID) => Arrive(s, t, Take(containerID))
    case Act(t, ok, stock) => if t in s.handlers then Move(cfg, s, t, ok, stock) else None
  }

  function Run(cfg: Config, actions: seq<Action>): Option<State> {
    if actions == [] then Some(Init())
    else
      match Run(cfg, actions[..|actions| - 1])
      case None => None
      case Some(s) => Next(cfg, s, actions[|actions| - 1])
  }

  // ----- every instance is in exactly one place -----

  /** What a handler holds. */
  function Held(h: Handler): multiset<nat> {
    match h
    case GetIdle(_) => multiset{}
    case NewID(_) => multiset{}
    case Take(_) => multiset{}
    case Finished => multiset{}
    case _ => multiset{h.fi.id}
  }

  function One(fi: Instance): multiset<nat> { multiset{fi.id} }

  function Listed(q: seq<Instance>): multiset<nat> {
    if q == [] then multiset{} else multiset{q[0].id} + Listed(q[1..])
  }

  /** How often an instance number occurs among the handlers, the active and the idle instances and
      those that ended. */
  ghost function Places(s: State, x: nat): nat {
    Bag(s.handlers, Held)[x] + Bag(s.coord.active, One)[x] + Bag(s.coord.idle, Listed)[x] + Ended(s.ends, x)
  }

  ghost function Ended(e: Ends, x: nat): nat { e.stopped[x] + e.dropped[x] + e.discarded[x] }

  /** Every number that was given is in exactly one place, and no other number is anywhere. */
  ghost predicate Conserved(s: State) {
    forall x: nat :: Places(s, x) == if 1 <= x <= s.coord.nextID then 1 else 0
  }

  lemma {:induction false} ListedAppend(q: seq<Instance>, fi: Instance, x: nat)
    ensures Listed(q + [fi])[x] == Listed(q)[x] + multiset{fi.id}[x]
  {
    if q == [] {
      assert (q + [fi])[1..] == [];
    } else {
      assert (q + [fi])[1..] == q[1..] + [fi];
      ListedAppend(q[1..], fi, x);
    }
  }

  /** What an action takes out of the coordinator's maps, and what it puts into them. */
  function Leaving(c: Coord, h: Handler): Option<Instance> {
    match h
    case GetIdle(image) => FirstIdle(c, image)
    case Take(containerID) => if containerID in c.active then Some(c.active[containerID]) else None
    case _ => None
  }

  function Entering(c: Coord, h: Handler, stock: Option<string>): Option<Instance> {
    match h
    case Started(fi) => if stock.Some? && stock.value !in c.active then Some(fi) else None
    case Parking(fi) => Some(fi)
    case _ => None
  }

  function Count(fi: Option<Instance>, x: nat): nat { if fi.Some? && fi.value.id == x then 1 else 0 }

  lemma IdleMoves(c: Coord, h: Handler, stock: Option<string>, x: nat)
    requires h.GetIdle? || h.Parking?
    ensures Bag(NextCoord(c, h, stock).idle, Listed)[x] + Count(Leaving(c, h), x)
      == Bag(c.idle, Listed)[x] + Count(Entering(c, h, stock), x)
  {
    hide Bag;
    if h.GetIdle? {
      var q := Queue(c.idle, h.image);
      BagUpdate(c.idle, Listed, h.image, if q == [] then [] else q[1..], x);
    } else {
      var q := Queue(c.idle, h.fi.image);
      ListedAppend(q, h.fi, x);
      BagUpdate(c.idle, Listed, h.fi.image, q + [h.fi], x);
    }
  }

  lemma CoordMoves(c: Coord, h: Handler, stock: Option<string>, x: nat)
    ensures var c' := NextCoord(c, h, stock);
      Bag(c'.active, One)[x] + Bag(c'.idle, Listed)[x] + Count(Leaving(c, h), x)
      == Bag(c.active, One)[x] + Bag(c.idle, Listed)[x] + Count(Entering(c, h, stock), x)
  {
    hide Bag;
    if h.GetIdle? || h.Parking? {
      IdleMoves(c, h, stock, x);
    } else if h.Started? && stock.Some? {
      BagUpdate(c.active, One, stock.value, h.fi, x);
    } else if h.Take? {
      BagRemove(c.active, One, h.containerID, x);
    }
  }

  function Fresh(c: Coord, h: Handler, x: nat): nat { if h.NewID? && x == c.nextID + 1 then 1 else 0 }

  function Holds(h: Handler): Option<Instance> {
    match h
    case GetIdle(_) => None
    case NewID(_) => None
    case Take(_) => None
    case Finished => None
    case _ => Some(h.fi)
  }

  lemma HeldIs(h: Handler, x: nat)
    ensures Held(h)[x] == Count(Holds(h), x)
  {
  }

  /** What an action brings to an end. */
  function Ending(cfg: Config, c: Coord, h: Handler, ok: bool, stock: Option<string>): Option<Instance> {
    match h
    case GetIdle(image) => if cfg.snapshotsEnabled then None else FirstIdle(c, image)
    case Starting(fi) => if ok || cfg.withoutOrchestrator then None else Some(fi)
    case Started(fi) => if stock.Some? && stock.value !in c.active then None else Some(fi)
    case Stopping(fi) => Some(fi)
    case Loading(fi) => if ok then None else Some(fi)
    case Resuming(fi) => if ok then None else Some(fi)
    case Pausing(fi) => if ok then None else Some(fi)
    case Snapshotting(fi) => if ok then None else Some(fi)
    case _ => None
  }

  lemma EndsMove(cfg: Config, c: Coord, e: Ends, h: Handler, ok: bool, stock: Option<string>, x: nat)
    ensures Ended(NextEnds(cfg, c, e, h, ok, stock), x) == Ended(e, x) + Count(Ending(cfg, c, h, ok, stock), x)
  {
  }

  /** A handler that takes an instance out holds it afterwards, and what it no longer holds is in the
      maps or at an end. */
  lemma HandlerMoves(cfg: Config, s: State, h: Handler, ok: bool, stock: Option<string>, x: nat)
    requires Enabled(s, h)
    ensures Held(NextHandler(cfg, s, h, ok, stock))[x] + Ended(NextEnds(cfg, s.coord, s.ends, h, ok, stock), x)
              + Count(Entering(s.coord, h, stock), x)
      == Held(h)[x] + Ended(s.ends, x) + Count(Leaving(s.coord, h), x) + Fresh(s.coord, h, x)
  {
    hide Held, Ended, NextEnds;
    HeldIs(h, x);
    HeldIs(NextHandler(cfg, s, h, ok, stock), x);
    EndsMove(cfg, s.coord, s.ends, h, ok, stock, x);
  }

  lemma ConservedStep(cfg: Config, s: State, t: nat, ok: bool, stock: Option<string>)
    requires Conserved(s) && t in s.handlers && Move(cfg, s, t, ok, stock).Some?
    ensures Conserved(Move(cfg, s, t, ok, stock).value)
  {
    hide Bag, Held, Ended, NextHandler, NextCoord, NextEnds, NextSnaps, NextHistory, Leaving, Entering, Enabled;
    var h := s.handlers[t];
    var s' := Move(cfg, s, t, ok, stock).value;
    NumbersMove(s.coord, h, stock);
    forall x: nat ensures Places(s', x) == if 1 <= x <= s'.coord.nextID then 1 else 0 {
      BagUpdate(s.handlers, Held, t, NextHandler(cfg, s, h, ok, stock), x);
      HandlerMoves(cfg, s, h, ok, stock, x);
      CoordMoves(s.coord, h, stock, x);
      assert Places(s, x) == if 1 <= x <= s.coord.nextID then 1 else 0;
    }
  }

  lemma NumbersMove(c: Coord, h: Handler, stock: Option<string>)
    ensures NextCoord(c, h, stock).nextID == c.nextID + (if h.NewID? then 1 else 0)
  {
  }

  lemma ConservedArrival(s: State, t: nat, h: Handler)
    requires Conserved(s) && t !in s.handlers && Held(h) == multiset{}
    ensures Conserved(Arrive(s, t, h).value)
  {
    hide Bag, Held;
    forall x: nat ensures Places(Arrive(s, t, h).value, x) == Places(s, x) { BagUpdate(s.handlers, Held, t, h, x); }
  }

  lemma ListedFront(q: seq<Instance>, x: nat)
    requires q != []
    ensures Listed(q)[x] == (if q[0].id == x then 1 else 0) + Listed(q[1..])[x]
  {
  }

  lemma {:induction false} ListedHas(q: seq<Instance>, k: nat)
    requires k < |q|
    ensures Listed(q)[q[k].id] >= 1
  {
    hide Listed;
    ListedFront(q, q[k].id);
    if k > 0 { ListedHas(q[1..], k - 1); }
  }

  lemma {:induction false} ListedHasBoth(q: seq<Instance>, k: nat, l: nat)
    requires k < l < |q| && q[k].id == q[l].id
    ensures Listed(q)[q[k].id] >= 2
  {
    hide Listed;
    ListedFront(q, q[k].id);
    if k > 0 { ListedHasBoth(q[1..], k - 1, l - 1); } else { ListedHas(q[1..], l - 1); }
  }

  /** An instance that a handler holds is held by no other handler and is neither active nor idle. */
  lemma HeldAlone(s: State, t: nat, x: nat)
    requires Conserved(s) && t in s.handlers && Held(s.handlers[t])[x] >= 1
    ensures forall u :: u in s.handlers && u != t ==> Held(s.handlers[u])[x] == 0
    ensures forall c :: c in s.coord.active ==> s.coord.active[c].id != x
    ensures forall image, k: nat :: image in s.coord.idle && k < |s.coord.idle[image]| ==> s.coord.idle[image][k].id != x
  {
    hide Bag, Held, Listed;
    assert Places(s, x) <= 1;
    BagHas(s.handlers, Held, t, x);
    forall u | u in s.handlers && u != t ensures Held(s.handlers[u])[x] == 0 {
      BagHasBoth(s.handlers, Held, t, u, x);
    }
    forall c | c in s.coord.active ensures s.coord.active[c].id != x { BagHas(s.coord.active, One, c, x); }
    forall image, k: nat | image in s.coord.idle && k < |s.coord.idle[image]| ensures s.coord.idle[image][k].id != x {
      BagHas(s.coord.idle, Listed, image, x);
      ListedHas(s.coord.idle[image], k);
    }
  }

  // ----- pausing and snapshotting -----

  /** What is known of the snapshot of one instance. */
  ghost predicate OnceAt(sn: Snaps, x: nat) {
    && !(x in sn.running && x in sn.done)
    && (x !in sn.running && x !in sn.done ==> sn.pauses[x] == 0 && sn.snapshots[x] == 0)
    && sn.pauses[x] <= 1 && sn.snapshots[x] <= 1
    && (x in sn.running ==> sn.snapshots[x] == 0)
    && (x in sn.taken ==> x in sn.done && sn.pauses[x] == 1 && sn.snapshots[x] == 1)
  }

  ghost predicate SameAt(sn: Snaps, sn': Snaps, x: nat) {
    && (x in sn.running <==> x in sn'.running)
    && (x in sn.done <==> x in sn'.done)
    && (x in sn.taken <==> x in sn'.taken)
    && sn.pauses[x] == sn'.pauses[x] && sn.snapshots[x] == sn'.snapshots[x]
  }

  /** Nobody is in the body of the Once, and if it is done the snapshot was taken. */
  ghost predicate Clean(sn: Snaps, x: nat) { x !in sn.running && (x in sn.done ==> x in sn.taken) }

  ghost predicate HandlerOk(cfg: Config, sn: Snaps, h: Handler) {
    match h
    case GetIdle(_) => true
    case NewID(_) => true
    case Take(_) => true
    case Finished => true
    case Pausing(fi) => cfg.snapshotsEnabled && fi.id in sn.running && sn.pauses[fi.id] == 0
    case Snapshotting(fi) => cfg.snapshotsEnabled && fi.id in sn.running && sn.pauses[fi.id] == 1
    case Loading(fi) => cfg.snapshotsEnabled && fi.id in sn.taken
    case Resuming(fi) => cfg.snapshotsEnabled && fi.id in sn.taken
    case Offloading(fi) => cfg.snapshotsEnabled && fi.id in sn.taken
    case Parking(fi) => cfg.snapshotsEnabled && fi.id in sn.taken
    case SnapOnce(fi) => cfg.snapshotsEnabled && Clean(sn, fi.id)
    case Starting(fi) => Clean(sn, fi.id)
    case Started(fi) => Clean(sn, fi.id)
    case Stopping(fi) => !cfg.snapshotsEnabled && Clean(sn, fi.id)
  }

  ghost predicate OncesOk(sn: Snaps, nextID: nat) {
    forall x: nat :: OnceAt(sn, x) && (x > nextID ==> x !in sn.running && x !in sn.done)
  }

  ghost predicate ActiveOk(sn: Snaps, c: Coord) {
    forall id :: id in c.active ==> Clean(sn, c.active[id].id)
  }

  /** An idle instance is in the list of its own image and has its snapshot; without snapshots nothing
      is idle. */
  ghost predicate IdleOk(cfg: Config, sn: Snaps, c: Coord) {
    && (forall image, k: nat :: image in c.idle && k < |c.idle[image]| ==>
          c.idle[image][k].image == image && c.idle[image][k].id in sn.taken)
    && (!cfg.snapshotsEnabled ==> forall image :: image in c.idle ==> c.idle[image] == [])
  }

  /** What was set idle is what was popped and what is idle, in this order. */
  ghost predicate Fifo(c: Coord, hist: History) {
    forall image :: Queue(hist.pushed, image) == Queue(hist.popped, image) + Queue(c.idle, image)
  }

  ghost predicate Disciplined(cfg: Config, s: State) {
    && OncesOk(s.snaps, s.coord.nextID)
    && (forall t :: t in s.handlers ==> HandlerOk(cfg, s.snaps, s.handlers[t]))
    && ActiveOk(s.snaps, s.coord)
    && IdleOk(cfg, s.snaps, s.coord)
    && Fifo(s.coord, s.hist)
    && s.ends.discarded == multiset{}
  }

  lemma OncesStep(cfg: Config, sn: Snaps, h: Handler, ok: bool, nextID: nat)
    requires OncesOk(sn, nextID) && HandlerOk(cfg, sn, h)
    requires h.SnapOnce? ==> h.fi.id <= nextID
    ensures OncesOk(NextSnaps(sn, h, ok), nextID)
  {
    forall x: nat ensures OnceAt(NextSnaps(sn, h, ok), x) {
      assert OnceAt(sn, x);
    }
  }

  lemma SnapsLocal(sn: Snaps, h: Handler, ok: bool, x: nat)
    requires Held(h)[x] == 0
    ensures SameAt(sn, NextSnaps(sn, h, ok), x)
  {
  }

  lemma SelfDisciplined(cfg: Config, s: State, h: Handler, ok: bool, stock: Option<string>)
    requires Enabled(s, h) && HandlerOk(cfg, s.snaps, h)
    requires OncesOk(s.snaps, s.coord.nextID) && ActiveOk(s.snaps, s.coord) && IdleOk(cfg, s.snaps, s.coord)
    ensures HandlerOk(cfg, NextSnaps(s.snaps, h, ok), NextHandler(cfg, s, h, ok, stock))
  {
    match h
    case NewID(_) => assert OnceAt(s.snaps, s.coord.nextID + 1);
    case Snapshotting(fi) => assert OnceAt(s.snaps, fi.id);
    case Pausing(fi) => assert OnceAt(s.snaps, fi.id);
    case _ =>
  }

  lemma OtherDisciplined(cfg: Config, sn: Snaps, h: Handler, ok: bool, u: Handler)
    requires HandlerOk(cfg, sn, u)
    requires forall x: nat :: Held(u)[x] >= 1 ==> Held(h)[x] == 0
    ensures HandlerOk(cfg, NextSnaps(sn, h, ok), u)
  {
    hide NextSnaps;
    if !(u.GetIdle? || u.NewID? || u.Take? || u.Finished?) {
      assert Held(u)[u.fi.id] >= 1;
      SnapsLocal(sn, h, ok, u.fi.id);
    }
  }

  lemma ActiveStep(cfg: Config, s: State, h: Handler, ok: bool, stock: Option<string>)
    requires HandlerOk(cfg, s.snaps, h) && ActiveOk(s.snaps, s.coord)
    requires forall id, x: nat :: id in s.coord.active && Held(h)[x] >= 1 ==> s.coord.active[id].id != x
    ensures ActiveOk(NextSnaps(s.snaps, h, ok), NextCoord(s.coord, h, stock))
  {
    hide HandlerOk, NextSnaps, Held;
    var sn' := NextSnaps(s.snaps, h, ok);
    forall id | id in s.coord.active ensures Clean(sn', s.coord.active[id].id) {
      SnapsLocal(s.snaps, h, ok, s.coord.active[id].id);
    }
    if h.Started? { StartedClean(cfg, s.snaps, h, ok); }
  }

  lemma StartedClean(cfg: Config, sn: Snaps, h: Handler, ok: bool)
    requires h.Started? && HandlerOk(cfg, sn, h)
    ensures Clean(NextSnaps(sn, h, ok), h.fi.id)
  {
  }

  lemma IdleStep(cfg: Config, s: State, h: Handler, ok: bool, stock: Option<string>)
    requires HandlerOk(cfg, s.snaps, h) && IdleOk(cfg, s.snaps, s.coord)
    ensures IdleOk(cfg, NextSnaps(s.snaps, h, ok), NextCoord(s.coord, h, stock))
  {
    assert s.snaps.taken <= NextSnaps(s.snaps, h, ok).taken;
  }

  lemma QueueUpdate<T>(m: map<string, seq<T>>, k: string, q: seq<T>, image: string)
    ensures Queue(m[k := q], image) == if image == k then q else Queue(m, image)
  {
  }

  lemma MoveFront<T>(p: seq<T>, q: seq<T>)
    requires q != []
    ensures p + q == (p + [q[0]]) + q[1..]
  {
  }

  lemma MoveBack<T>(p: seq<T>, q: seq<T>, x: T)
    ensures (p + q) + [x] == p + (q + [x])
  {
  }

  lemma FifoPop(c: Coord, hist: History, h: Handler, stock: Option<string>, image: string)
    requires h.GetIdle? && Queue(hist.pushed, image) == Queue(hist.popped, image) + Queue(c.idle, image)
    ensures var c', hist' := NextCoord(c, h, stock), NextHistory(c, hist, h);
      Queue(hist'.pushed, image) == Queue(hist'.popped, image) + Queue(c'.idle, image)
  {
    hide Queue;
    var q := Queue(c.idle, h.image);
    QueueUpdate(c.idle, h.image, if q == [] then [] else q[1..], image);
    if q != [] {
      QueueUpdate(hist.popped, h.image, Queue(hist.popped, h.image) + [q[0]], image);
      MoveFront(Queue(hist.popped, h.image), q);
    }
  }

  lemma FifoPush(c: Coord, hist: History, h: Handler, stock: Option<string>, image: string)
    requires h.Parking? && Queue(hist.pushed, image) == Queue(hist.popped, image) + Queue(c.idle, image)
    ensures var c', hist' := NextCoord(c, h, stock), NextHistory(c, hist, h);
      Queue(hist'.pushed, image) == Queue(hist'.popped, image) + Queue(c'.idle, image)
  {
    hide Queue;
    QueueUpdate(c.idle, h.fi.image, Queue(c.idle, h.fi.image) + [h.fi], image);
    QueueUpdate(hist.pushed, h.fi.image, Queue(hist.pushed, h.fi.image) + [h.fi], image);
    MoveBack(Queue(hist.popped, h.fi.image), Queue(c.idle, h.fi.image), h.fi);
  }

  lemma QueuesStay(c: Coord, hist: History, h: Handler, stock: Option<string>)
    requires !h.GetIdle? && !h.Parking?
    ensures NextCoord(c, h, stock).idle == c.idle && NextHistory(c, hist, h) == hist
  {
  }

  lemma FifoStep(c: Coord, hist: History, h: Handler, stock: Option<string>)
    requires Fifo(c, hist)
    ensures Fifo(NextCoord(c, h, stock), NextHistory(c, hist, h))
  {
    hide NextCoord, NextHistory, Queue;
    var c', hist' := NextCoord(c, h, stock), NextHistory(c, hist, h);
    forall image ensures Queue(hist'.pushed, image) == Queue(hist'.popped, image) + Queue(c'.idle, image) {
      assert Queue(hist.pushed, image) == Queue(hist.popped, image) + Queue(c.idle, image);
      if h.GetIdle? { FifoPop(c, hist, h, stock, image); }
      else if h.Parking? { FifoPush(c, hist, h, stock, image); }
      else { QueuesStay(c, hist, h, stock); }
    }
  }

  lemma HeldKnown(s: State, t: nat, x: nat)
    requires Conserved(s) && t in s.handlers && Held(s.handlers[t])[x] >= 1
    ensures x <= s.coord.nextID
  {
    hide Bag, Held, Listed;
    assert Places(s, x) == if 1 <= x <= s.coord.nextID then 1 else 0;
    BagHas(s.handlers, Held, t, x);
  }

  lemma HeldItself(h: Handler)
    ensures h.SnapOnce? ==> Held(h)[h.fi.id] >= 1
  {
  }

  lemma OncesLater(cfg: Config, c: Coord, h: Handler, stock: Option<string>, sn: Snaps)
    requires OncesOk(sn, c.nextID)
    ensures OncesOk(sn, NextCoord(c, h, stock).nextID)
  {
    NumbersMove(c, h, stock);
  }

  lemma NothingDiscarded(cfg: Config, s: State, h: Handler, ok: bool, stock: Option<string>)
    requires IdleOk(cfg, s.snaps, s.coord)
    ensures NextEnds(cfg, s.coord, s.ends, h, ok, stock).discarded == s.ends.discarded
  {
  }

  lemma DisciplinedStep(cfg: Config, s: State, t: nat, ok: bool, stock: Option<string>)
    requires Conserved(s) && Disciplined(cfg, s)
    requires t in s.handlers && Move(cfg, s, t, ok, stock).Some?
    ensures Disciplined(cfg, Move(cfg, s, t, ok, stock).value)
  {
    hide Bag, OncesOk, HandlerOk, ActiveOk, IdleOk, Fifo, Enabled, NextHandler, NextCoord, NextSnaps, NextHistory, NextEnds, Held;
    var h := s.handlers[t];
    forall x: nat | Held(h)[x] >= 1
      ensures x <= s.coord.nextID
      ensures forall u :: u in s.handlers && u != t ==> Held(s.handlers[u])[x] == 0
      ensures forall c :: c in s.coord.active ==> s.coord.active[c].id != x
    {
      HeldAlone(s, t, x);
      HeldKnown(s, t, x);
    }
    SelfDisciplined(cfg, s, h, ok, stock);
    HeldItself(h);
    OncesStep(cfg, s.snaps, h, ok, s.coord.nextID);
    OncesLater(cfg, s.coord, h, stock, NextSnaps(s.snaps, h, ok));
    NothingDiscarded(cfg, s, h, ok, stock);
    forall u | u in s.handlers && u != t ensures HandlerOk(cfg, NextSnaps(s.snaps, h, ok), s.handlers[u]) {
      OtherDisciplined(cfg, s.snaps, h, ok, s.handlers[u]);
    }
    ActiveStep(cfg, s, h, ok, stock);
    IdleStep(cfg, s, h, ok, stock);
    FifoStep(s.coord, s.hist, h, stock);
  }

  lemma DisciplinedArrival(cfg: Config, s: State, t: nat, h: Handler)
    requires Disciplined(cfg, s) && t !in s.handlers && (h.GetIdle? || h.Take?)
    ensures Disciplined(cfg, Arrive(s, t, h).value)
  {
    hide OncesOk, ActiveOk, IdleOk, Fifo;
  }

  lemma Starts(cfg: Config)
    ensures Conserved(Init()) && Disciplined(cfg, Init())
  {
    var s := Init();
    assert Bag(s.handlers, Held) == multiset{} && Bag(s.coord.active, One) == multiset{} && Bag(s.coord.idle, Listed) == multiset{};
    assert forall image: string :: Queue(s.coord.idle, image) == [];
  }

  lemma ArriveSome(s: State, t: nat, h: Handler)
    ensures Arrive(s, t, h).Some? <==> t !in s.handlers
  {
  }

  lemma {:induction false} Kept(cfg: Config, actions: seq<Action>)
    requires Run(cfg, actions).Some?
    ensures Conserved(Run(cfg, actions).value) && Disciplined(cfg, Run(cfg, actions).value)
  {
    hide Conserved, Disciplined, Move, Arrive, Init;
    var n := |actions| - 1;
    if actions == [] {
      Starts(cfg);
    } else {
      Kept(cfg, actions[..n]);
      var s := Run(cfg, actions[..n]).value;
      match actions[n]
      case Create(t, image) =>
        ArriveSome(s, t, GetIdle(image));
        ConservedArrival(s, t, GetIdle(image));
        DisciplinedArrival(cfg, s, t, GetIdle(image));
      case Remove(t, containerID) =>
        ArriveSome(s, t, Take(containerID));
        ConservedArrival(s, t, Take(containerID));
        DisciplinedArrival(cfg, s, t, Take(containerID));
      case Act(t, ok, stock) =>
        ConservedStep(cfg, s, t, ok, stock);
        DisciplinedStep(cfg, s, t, ok, stock);
    }
  }

  // ----- what holds in every interleaving -----

  ghost predicate HandlersApart(s: State) {
    forall t, u :: t in s.handlers && u in s.handlers && t != u ==> Held(s.handlers[t]) !! Held(s.handlers[u])
  }

  ghost predicate ActiveApart(s: State) {
    && (forall c, d :: c in s.coord.active && d in s.coord.active && c != d ==> s.coord.active[c].id != s.coord.active[d].id)
    && (forall t, c :: t in s.handlers && c in s.coord.active ==> s.coord.active[c].id !in Held(s.handlers[t]))
  }

  ghost predicate IdleApart(s: State) {
    && (forall image, k: nat, l: nat :: image in s.coord.idle && k < l < |s.coord.idle[image]| ==>
          s.coord.idle[image][k].id != s.coord.idle[image][l].id)
    && (forall t, image, k: nat :: t in s.handlers && image in s.coord.idle && k < |s.coord.idle[image]| ==>
          s.coord.idle[image][k].id !in Held(s.handlers[t]))
    && (forall c, image, k: nat :: c in s.coord.active && image in s.coord.idle && k < |s.coord.idle[image]| ==>
          s.coord.idle[image][k].id != s.coord.active[c].id)
  }

  lemma AllHandlersApart(s: State)
    requires Conserved(s)
    ensures HandlersApart(s)
  {
    hide Bag, Held;
    forall t, u, x: nat | t in s.handlers && u in s.handlers && t != u && Held(s.handlers[t])[x] >= 1
      ensures Held(s.handlers[u])[x] == 0
    {
      HeldAlone(s, t, x);
    }
  }

  lemma AllActiveApart(s: State)
    requires Conserved(s)
    ensures ActiveApart(s)
  {
    hide Bag, Held, Listed;
    forall c, d | c in s.coord.active && d in s.coord.active && c != d ensures s.coord.active[c].id != s.coord.active[d].id {
      assert Places(s, s.coord.active[c].id) <= 1;
      BagHasBoth(s.coord.active, One, c, d, s.coord.active[c].id);
    }
    forall t, c | t in s.handlers && c in s.coord.active ensures s.coord.active[c].id !in Held(s.handlers[t]) {
      if s.coord.active[c].id in Held(s.handlers[t]) { HeldAlone(s, t, s.coord.active[c].id); }
    }
  }

  lemma AllIdleApart(s: State)
    requires Conserved(s)
    ensures IdleApart(s)
  {
    hide Bag, Held, Listed;
    var idle: map<string, seq<Instance>> := s.coord.idle;
    forall image, k: nat, l: nat | image in idle && k < l < |idle[image]| ensures idle[image][k].id != idle[image][l].id {
      assert Places(s, idle[image][k].id) <= 1;
      if idle[image][k].id == idle[image][l].id {
        ListedHasBoth(idle[image], k, l);
        BagHas(idle, Listed, image, idle[image][k].id);
      }
    }
    forall t, image, k: nat | t in s.handlers && image in idle && k < |idle[image]| ensures idle[image][k].id !in Held(s.handlers[t]) {
      if idle[image][k].id in Held(s.handlers[t]) { HeldAlone(s, t, idle[image][k].id); }
    }
    forall c, image, k: nat | c in s.coord.active && image in idle && k < |idle[image]| ensures idle[image][k].id != s.coord.active[c].id {
      assert Places(s, idle[image][k].id) <= 1;
      ListedHas(idle[image], k);
      BagHas(idle, Listed, image, idle[image][k].id);
      BagHas(s.coord.active, One, c, s.coord.active[c].id);
    }
  }

  /** No two of the places where an instance can be (a handler, an active entry, a position of an idle
      list) ever have the same instance. */
  lemma Ownership(cfg: Config, actions: seq<Action>)
    requires Run(cfg, actions).Some?
    ensures var s := Run(cfg, actions).value;
      HandlersApart(s) && ActiveApart(s) && IdleApart(s)
  {
    hide Conserved, HandlersApart, ActiveApart, IdleApart, Run;
    Kept(cfg, actions);
    var s := Run(cfg, actions).value;
    AllHandlersApart(s);
    AllActiveApart(s);
    AllIdleApart(s);
  }

  function Ids(n: nat): multiset<nat> {
    if n == 0 then multiset{} else Ids(n - 1) + multiset{n}
  }

  lemma {:induction false} IdsCount(n: nat)
    ensures |Ids(n)| == n
    ensures forall x: nat :: Ids(n)[x] == if 1 <= x <= n then 1 else 0
  {
    if n > 0 { IdsCount(n - 1); }
  }

  lemma {:induction false} BagOfOnes<K>(m: map<K, Instance>)
    ensures |Bag(m, One)| == |m|
    decreases m.Keys
  {
    if m != map[] {
      BagOfOnes(m - {Pick(m)});
      assert m.Keys == (m - {Pick(m)}).Keys + {Pick(m)};
    }
  }

  /** The numbers given are those in flight, active, idle, stopped and dropped on an error; a popped
      instance is never discarded. */
  lemma Conservation(cfg: Config, actions: seq<Action>)
    requires Run(cfg, actions).Some?
    ensures var s := Run(cfg, actions).value;
      && s.coord.nextID == |Bag(s.handlers, Held)| + |s.coord.active| + |Bag(s.coord.idle, Listed)| + |s.ends.stopped| + |s.ends.dropped|
      && s.ends.discarded == multiset{}
  {
    hide Run, Bag, Held, Listed;
    Kept(cfg, actions);
    var s := Run(cfg, actions).value;
    AllPlaces(s);
    IdsCount(s.coord.nextID);
    BagOfOnes(s.coord.active);
  }

  lemma AllPlaces(s: State)
    requires Conserved(s)
    ensures Bag(s.handlers, Held) + Bag(s.coord.active, One) + Bag(s.coord.idle, Listed)
            + s.ends.stopped + s.ends.dropped + s.ends.discarded == Ids(s.coord.nextID)
  {
    hide Bag, Held, Listed;
    IdsCount(s.coord.nextID);
    forall x: nat ensures Places(s, x) == Ids(s.coord.nextID)[x] {
      assert Places(s, x) == if 1 <= x <= s.coord.nextID then 1 else 0;
    }
  }

  /** Every idle instance was paused once and snapshotted once, successfully; no instance ever is more
      than once. */
  lemma SnapshottedOnce(cfg: Config, actions: seq<Action>)
    requires Run(cfg, actions).Some?
    ensures var s := Run(cfg, actions).value;
      && (forall x: nat :: s.snaps.pauses[x] <= 1 && s.snaps.snapshots[x] <= 1)
      && (forall image, k: nat :: image in s.coord.idle && k < |s.coord.idle[image]| ==>
            var fi := s.coord.idle[image][k];
            fi.image == image && fi.id in s.snaps.taken && s.snaps.pauses[fi.id] == 1 && s.snaps.snapshots[fi.id] == 1)
      && (!cfg.snapshotsEnabled ==> forall image :: image in s.coord.idle ==> s.coord.idle[image] == [])
  {
    hide Run, Conserved;
    Kept(cfg, actions);
    var s := Run(cfg, actions).value;
    forall x: nat
      ensures s.snaps.pauses[x] <= 1 && s.snaps.snapshots[x] <= 1
      ensures x in s.snaps.taken ==> s.snaps.pauses[x] == 1 && s.snaps.snapshots[x] == 1
    {
      assert OnceAt(s.snaps, x);
    }
  }

  /** Instances are popped in the order in which they were set idle, image by image. */
  lemma ReuseIsFifo(cfg: Config, actions: seq<Action>, image: string)
    requires Run(cfg, actions).Some?
    ensures var h := Run(cfg, actions).value.hist; Queue(h.popped, image) <= Queue(h.pushed, image)
  {
    hide Run, Conserved;
    Kept(cfg, actions);
    var s := Run(cfg, actions).value;
    assert Queue(s.hist.pushed, image) == Queue(s.hist.popped, image) + Queue(s.coord.idle, image);
  }

  /** Only instances with a snapshot are loaded, and no handler waits for a snapshot Once: the handler
      that took the instance is the only one that can run it. */
  lemma NobodyWaits(cfg: Config, actions: seq<Action>, t: nat)
    requires Run(cfg, actions).Some? && t in Run(cfg, actions).value.handlers
    ensures var s := Run(cfg, actions).value; var h := s.handlers[t];
      && (!h.Finished? ==> Enabled(s, h))
      && (h.Loading? ==> h.fi.id in s.snaps.taken)
  {
    hide Run, Conserved;
    Kept(cfg, actions);
    assert HandlerOk(cfg, Run(cfg, actions).value.snaps, Run(cfg, actions).value.handlers[t]);
  }
}
