/** Who owns a function instance on a worker: the instances that serve a container, and the idle ones
    that wait, image by image, to be used again. */
module Coordinators {
  import opened Options
  import opened Texts

  /** An instance; its vmID is the text of its number. */
  datatype Instance = Instance(id: nat, image: string)

  function VmID(fi: Instance): string { Decimal(fi.id) }

  lemma VmIDsDistinct(a: Instance, b: Instance)
    requires VmID(a) == VmID(b)
    ensures a.id == b.id
  {
    DecimalInjective(a.id, b.id);
  }

  /** The coordinator's fields as a value. */
  datatype Coord = Coord(nextID: nat, active: map<string, Instance>, idle: map<string, seq<Instance>>)

  function Queue<T>(m: map<string, seq<T>>, image: string): seq<T> {
    if image in m then m[image] else []
  }

  function FirstIdle(c: Coord, image: string): Option<Instance> {
    if Queue(c.idle, image) == [] then None else Some(Queue(c.idle, image)[0])
  }

  function WithoutFirst(c: Coord, image: string): Coord {
    var q := Queue(c.idle, image);
    c.(idle := c.idle[image := if q == [] then [] else q[1..]])
  }

  function WithIdle(c: Coord, fi: Instance): Coord {
    c.(idle := c.idle[fi.image := Queue(c.idle, fi.image) + [fi]])
  }

  function WithActive(c: Coord, containerID: string, fi: Instance): Coord {
    if containerID in c.active then c else c.(active := c.active[containerID := fi])
  }

  function WithoutActive(c: Coord, containerID: string): Coord {
    c.(active := c.active - {containerID})
  }

  function WithNewID(c: Coord): Coord { c.(nextID := c.nextID + 1) }

  /** Whether the orchestrator takes snapshots, and whether the coordinator runs without it. */
  datatype Config = Config(snapshotsEnabled: bool, withoutOrchestrator: bool)

  /** Whether the orchestrator's calls succeed; that of an offload does not matter. */
  datatype Answers = Answers(startOk: bool, loadOk: bool, resumeOk: bool, pauseOk: bool, snapshotOk: bool, stopOk: bool)

  /** Every method runs under the coordinator's lock, the number is taken atomically. */
  class Coordinator {
    var nextID: nat
    var activeInstances: map<string, Instance>
    var idleInstances: map<string, seq<Instance>>
    /** The instances whose snapshot Once is done. */
    var onceCreateSnapInstance: set<nat>

    ghost function Value(): Coord
      reads this
    {
      Coord(nextID, activeInstances, idleInstances)
    }

    constructor ()
      ensures Value() == Coord(0, map[], map[]) && onceCreateSnapInstance == {}
    {
      onceCreateSnapInstance := {};
      nextID := 0;
      activeInstances := map[];
      idleInstances := map[];
    }

    method GetIdleInstance(image: string) returns (fi: Option<Instance>)
      modifies this`idleInstances
      ensures fi == FirstIdle(old(Value()), image)
      ensures Value() == WithoutFirst(old(Value()), image)
    {
      if image !in idleInstances {
        idleInstances := idleInstances[image := []];
        return None;
      }
      var idles := idleInstances[image];
      if |idles| != 0 {
        idleInstances := idleInstances[image := idles[1..]];
        return Some(idles[0]);
      }
      assert idleInstances == idleInstances[image := []];
      return None;
    }

    method SetIdleInstance(fi: Instance)
      modifies this`idleInstances
      ensures Value() == WithIdle(old(Value()), fi)
    {
      if fi.image !in idleInstances {
        idleInstances := idleInstances[fi.image := []];
      }
      idleInstances := idleInstances[fi.image := idleInstances[fi.image] + [fi]];
    }

    method InsertActive(containerID: string, fi: Instance) returns (ok: bool)
      modifies this`activeInstances
      ensures ok <==> containerID !in old(activeInstances)
      ensures Value() == WithActive(old(Value()), containerID, fi)
    {
      if containerID in activeInstances { return false; }
      activeInstances := activeInstances[containerID := fi];
      return true;
    }

    /** The locked part of stopVM. */
    method TakeActive(containerID: string) returns (fi: Option<Instance>)
      modifies this`activeInstances
      ensures fi == if containerID in old(activeInstances) then Some(old(activeInstances)[containerID]) else None
      ensures Value() == WithoutActive(old(Value()), containerID)
    {
      fi := if containerID in activeInstances then Some(activeInstances[containerID]) else None;
      activeInstances := activeInstances - {containerID};
    }

    method IsActive(containerID: string) returns (ok: bool)
      ensures ok <==> containerID in Value().active
    {
      ok := containerID in activeInstances;
    }

    /** The instance that orchStartVM makes. */
    method NewInstance(image: string) returns (fi: Instance)
      modifies this`nextID
      ensures Value() == WithNewID(old(Value()))
      ensures fi == Instance(Value().nextID, image)
    {
      nextID := nextID + 1;
      fi := Instance(nextID, image);
    }

    /** The oldest idle instance of the image is loaded when there is one and snapshots are taken;
        otherwise a new one is started. */
    method StartVM(image: string, cfg: Config, answers: Answers) returns (fi: Instance, err: bool)
      modifies this`nextID, this`idleInstances
      ensures var was := old(Value());
        if cfg.snapshotsEnabled && Queue(was.idle, image) != [] then
          fi == Queue(was.idle, image)[0] && Value() == WithoutFirst(was, image) && err == !(answers.loadOk && answers.resumeOk)
        else
          && fi == Instance(was.nextID + 1, image)
          && Value() == WithNewID(WithoutFirst(was, image))
          && err == !(answers.startOk || cfg.withoutOrchestrator)
    {
      var idle := GetIdleInstance(image);
      if cfg.snapshotsEnabled && idle.Some? {
        return idle.value, !answers.loadOk || !answers.resumeOk;
      }
      fi := NewInstance(image);
      err := !answers.startOk && !cfg.withoutOrchestrator;
    }

    /** Pauses and snapshots the instance the first time; an error is reported that time only. */
    method CreateSnapshot(fi: Instance, answers: Answers) returns (err: bool)
      modifies this`onceCreateSnapInstance
      ensures onceCreateSnapInstance == old(onceCreateSnapInstance) + {fi.id}
      ensures err <==> fi.id !in old(onceCreateSnapInstance) && !(answers.pauseOk && answers.snapshotOk)
    {
      if fi.id in onceCreateSnapInstance { return false; }
      onceCreateSnapInstance := onceCreateSnapInstance + {fi.id};
      return !answers.pauseOk || !answers.snapshotOk;
    }

    /** The container's instance is taken, and becomes idle exactly when snapshots are taken and its
        own is there; an unknown container is no error. */
    method StopVM(containerID: string, cfg: Config, answers: Answers) returns (err: bool)
      modifies this`activeInstances, this`idleInstances, this`onceCreateSnapInstance
      ensures var was := old(Value());
        if containerID !in was.active then Value() == was && !err
        else
          var fi := was.active[containerID];
          var failed := fi.id !in old(onceCreateSnapInstance) && !(answers.pauseOk && answers.snapshotOk);
          && Value() == (if cfg.snapshotsEnabled && !failed then WithIdle(WithoutActive(was, containerID), fi)
                         else WithoutActive(was, containerID))
          && err == (if cfg.snapshotsEnabled then failed else !(answers.stopOk || cfg.withoutOrchestrator))
    {
      var fi := TakeActive(containerID);
      if fi.None? {
        assert activeInstances == old(activeInstances);
        return false;
      }
      if cfg.snapshotsEnabled {
        err := CreateSnapshot(fi.value, answers);
        if err { return; }
        SetIdleInstance(fi.value);
        return false;
      }
      return !answers.stopOk && !cfg.withoutOrchestrator;
    }
  }
}
