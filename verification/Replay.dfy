/** Whole runs: a VM is loaded, touches pages of its memory, and is offloaded, again and again. */
module Replay {
  import opened Options
  import opened Sorting
  import opened Regions
  import opened WorkingSet
  import opened Traces
  import opened SnapshotStates
  import opened PageFaults
  import opened MemoryManagers
  import opened Lifecycle

  /** One activation: where the guest's memory lies this time, and the offsets it touches in order. */
  datatype Cycle = Cycle(base: nat, visits: seq<nat>)

  ghost predicate Visits(mem: seq<Byte>, visits: seq<nat>) {
    && Aligned(visits) && Inside(mem, visits)
    && (visits != [] ==> visits[0] == 0)
  }

  ghost predicate Playable(mem: seq<Byte>, c: Cycle) {
    GuestRange(Uffd(c.base, |mem|, map[]), mem) && Visits(mem, c.visits)
  }

  /** LoadSnapshot: fetch the working set, then activate. */
  function Load(s: State, base: nat): State {
    var answers := FetchAnswers(true, true, Bytes(|s.trace|), true, true);
    ActivateVM(FetchVM(s, answers).state, true, true, base).state
  }

  /** A touch of an absent page faults until the page is there; two faults suffice. */
  ghost function Touch(s: State, a: nat): Option<State> {
    if a in s.uffd.pages then Some(s)
    else
      match ServePageFault(s, a)
      case None => None
      case Some(s1) => if a in s1.uffd.pages then Some(s1) else ServePageFault(s1, a)
  }

  /** What the guest reads, page by page. */
  datatype Played = Played(state: State, seen: seq<Page>)

  ghost function Play(s: State, visits: seq<nat>): Option<Played> {
    if visits == [] then Some(Played(s, []))
    else
      var n := |visits| - 1;
      match Play(s, visits[..n])
      case None => None
      case Some(p) =>
        var a := p.state.uffd.base + visits[n];
        match Touch(p.state, a)
        case None => None
        case Some(s') => if a in s'.uffd.pages then Some(Played(s', p.seen + [s'.uffd.pages[a]])) else None
  }

  ghost function PlayCycle(s: State, c: Cycle): Option<Played> {
    match Play(Load(s, c.base), c.visits)
    case None => None
    case Some(p) =>
      var o := DeactivateVM(p.state, true);
      if o.reply == Done then Some(Played(o.state, p.seen)) else None
  }

  ghost function PlayAll(s: State, cycles: seq<Cycle>): Option<Played> {
    if cycles == [] then Some(Played(s, []))
    else
      match PlayAll(s, cycles[..|cycles| - 1])
      case None => None
      case Some(p) =>
        match PlayCycle(p.state, cycles[|cycles| - 1])
        case None => None
        case Some(q) => Some(Played(q.state, p.seen + q.seen))
  }

  function SeenPages(mem: seq<Byte>, visits: seq<nat>): seq<Page> {
    if visits == [] then []
    else SeenPages(mem, visits[..|visits| - 1]) + [PageAt(mem, visits[|visits| - 1])]
  }

  /** The pages of the memory file at every touched offset, in order. */
  function SeenAll(mem: seq<Byte>, cycles: seq<Cycle>): seq<Page> {
    if cycles == [] then []
    else SeenAll(mem, cycles[..|cycles| - 1]) + SeenPages(mem, cycles[|cycles| - 1].visits)
  }

  predicate Replays(s: State) {
    s.isRecordReady && !s.cfg.isLazyMode
  }

  /** During an activation: the pages present are those touched, and in a replay those recorded. */
  ghost predicate Playing(s: State, visited: seq<nat>) {
    && Inv(s) && Fetched(s) && s.isPolling
    && (s.firstFaultSeen <==> visited != [])
    && forall a: nat :: a in s.uffd.pages <==>
         Among(s.uffd.base, visited, a) || (Replays(s) && visited != [] && Among(s.uffd.base, s.trace, a))
  }

  /** What a served touch leaves alone. */
  ghost predicate SameRun(s: State, s': State) {
    && s'.cfg == s.cfg && s'.isRecordReady == s.isRecordReady && s'.uffd.base == s.uffd.base
    && s'.stats.(replayedNum := s.stats.replayedNum, uniqueNum := s.stats.uniqueNum) == s.stats
    && (s.isRecordReady ==> s'.trace == s.trace)
  }

  ghost predicate TouchedAt(s: State, visited: seq<nat>, v: nat, r: Option<State>) {
    && r.Some?
    && SameRun(s, r.value)
    && Playing(r.value, visited + [v])
    && s.uffd.base + v in r.value.uffd.pages
  }

  lemma AmongSnoc(base: nat, offs: seq<nat>, o: nat, a: nat)
    ensures Among(base, offs + [o], a) <==> Among(base, offs, a) || a == base + o
  {
    if a >= base {
      assert a - base in offs + [o] <==> a - base in offs || a - base == o;
    }
  }

  lemma AmongNil(base: nat, a: nat)
    ensures !Among(base, [], a)
  {
  }

  /** A single fault on a page not yet touched. */
  lemma TouchSingle(s: State, visited: seq<nat>, v: nat)
    requires Playing(s, visited) && Fault(s, s.uffd.base + v) && !Bulk(s)
    ensures TouchedAt(s, visited, v, ServePageFault(s, s.uffd.base + v))
  {
    hide Inv, ServePageFault, Among, PageAt, ServedBulk;
    var a := s.uffd.base + v;
    FaultServed(s, a);
    var s' := ServedFault(s, a);
    assert SameRun(s, s');
    FirstTouchedNil(s, visited);
    forall x: nat
      ensures x in s'.uffd.pages <==>
        Among(s'.uffd.base, visited + [v], x) || (Replays(s') && Among(s'.uffd.base, s'.trace, x))
    {
      AmongSnoc(s.uffd.base, visited, v, x);
    }
  }

  lemma FirstTouchedNil(s: State, visited: seq<nat>)
    requires Playing(s, visited)
    ensures visited == [] ==> s.uffd.pages == map[]
  {
    forall a: nat ensures !Among(s.uffd.base, [], a) { AmongNil(s.uffd.base, a); }
  }

  /** The first touch of a replay: the bulk installation brings the page, or, when nothing was
      recorded, a second fault does. */
  lemma TouchBulk(s: State)
    requires Playing(s, []) && Fault(s, s.uffd.base) && Bulk(s)
    ensures TouchedAt(s, [], 0, Touch(s, s.uffd.base))
  {
    hide Inv, ServePageFault, ServedOne, ServedBulk, Among, PageAt, Shows;
    var a := s.uffd.base;
    FaultServed(s, a);
    BulkShows(s, a);
    FirstFaultResolvedIff(s, a);
    var s1 := ServedFault(s, a);
    forall x: nat ensures Among(a, [] + [0], x) <==> x == a { AmongNil(a, x); AmongSnoc(a, [], 0, x); }
    if s.trace == [] {
      forall x: nat ensures x !in s1.uffd.pages { AmongNil(a, x); }
      FaultServed(s1, a);
      SingleShows(s1, a);
    }
  }

  lemma BulkShows(s: State, a: nat)
    requires Inv(s) && Fetched(s) && Fault(s, a) && Bulk(s)
    ensures var s1 := ServedFault(s, a);
      && s1 == s.(firstFaultSeen := true, startAddress := a, uffd := s1.uffd) && s1.uffd == s.uffd.(pages := s1.uffd.pages)
      && forall x: nat :: x in s1.uffd.pages <==> Among(a, s.trace, x)
  {
    hide Inv, ServePageFault, PutPages, Sort, PageAt, Among;
    BulkStep(s, a);
  }

  lemma SingleShows(s: State, a: nat)
    requires s.uffd.base <= a && s.isRecordReady && s.firstFaultSeen
    ensures var s1 := ServedOne(s, a);
      && SameRun(s, s1)
      && s1 == s.(uffd := s1.uffd, stats := s1.stats) && s1.uffd == s.uffd.(pages := s1.uffd.pages)
      && forall x :: x in s1.uffd.pages <==> x in s.uffd.pages || x == a
  {
    hide PageAt;
  }

  /** Every touch ends with the page present, never with the end of the process. */
  lemma TouchServed(s: State, visited: seq<nat>, v: nat)
    requires Playing(s, visited) && v % 4096 == 0 && v + PAGE <= |s.cfg.mem| && (visited == [] ==> v == 0)
    ensures TouchedAt(s, visited, v, Touch(s, s.uffd.base + v))
  {
    hide Inv, ServePageFault, ServedOne, ServedBulk, Among, PageAt, Shows;
    var a := s.uffd.base + v;
    FirstTouchedNil(s, visited);
    AmongSnoc(s.uffd.base, visited, v, a);
    if a in s.uffd.pages {
      forall x: nat ensures Among(s.uffd.base, visited + [v], x) <==> Among(s.uffd.base, visited, x) || x == a {
        AmongSnoc(s.uffd.base, visited, v, x);
      }
    } else if Bulk(s) {
      TouchBulk(s);
    } else {
      TouchSingle(s, visited, v);
    }
  }

  lemma {:induction false} PlayServed(s: State, visits: seq<nat>)
    requires Playing(s, []) && Visits(s.cfg.mem, visits)
    ensures var p := Play(s, visits);
      && p.Some? && SameRun(s, p.value.state) && Playing(p.value.state, visits)
      && p.value.seen == SeenPages(s.cfg.mem, visits)
  {
    hide Inv, ServePageFault, Touch, Among, PageAt, Fetched;
    if visits != [] {
      var n := |visits| - 1;
      assert visits == visits[..n] + [visits[n]];
      PlayServed(s, visits[..n]);
      var p := Play(s, visits[..n]).value;
      TouchServed(p.state, visits[..n], visits[n]);
      SeesTheFile(Touch(p.state, p.state.uffd.base + visits[n]).value, visits, visits[n]);
    }
  }

  lemma SeesTheFile(s: State, visited: seq<nat>, v: nat)
    requires Playing(s, visited) && s.uffd.base + v in s.uffd.pages
    ensures s.uffd.pages[s.uffd.base + v] == PageAt(s.cfg.mem, v)
  {
    hide PageAt, Recorded, Encode, Sort, Pages, Counted;
  }

  ghost predicate Resting(s: State) {
    Inv(s) && !s.isActive
  }

  /** Loading with a full fetch: nothing is present, everything needed is in memory. */
  lemma LoadPlays(s: State, base: nat)
    requires Resting(s) && GuestRange(Uffd(base, |s.cfg.mem|, map[]), s.cfg.mem)
    ensures var s' := Load(s, base);
      && Playing(s', []) && s'.uffd.base == base && SameRecord(s, s')
      && s'.stats.(replayedNum := s.stats.replayedNum, uniqueNum := s.stats.uniqueNum) == s.stats
  {
    hide Recorded, Encode, Sort, Pages, PageAt, FetchState;
    var answers := FetchAnswers(true, true, Bytes(|s.trace|), true, true);
    var f := FetchVM(s, answers);
    KeptFromInv(s);
    FetchKeeps(s, answers);
    FetchSucceeds(s, answers);
    FullReadFetches(s, answers);
    FetchFrame(s, answers);
    NothingPresent(base, |s.cfg.mem|, s.trace);
    forall a: nat ensures !Among(base, [], a) { AmongNil(base, a); }
  }

  lemma KeptFromInv(s: State)
    requires Inv(s)
    ensures Kept(s)
  {
    hide Recorded, Encode, Sort, Pages, Serving;
  }

  lemma NothingPresent(base: nat, size: nat, t: seq<nat>)
    ensures Unrecorded(Uffd(base, size, map[]), t) == {}
  {
  }

  lemma FetchSucceeds(s: State, a: FetchAnswers)
    requires Kept(s) && a == FetchAnswers(true, true, Bytes(|s.trace|), true, true)
    ensures FetchVM(s, a).reply == Done
  {
    hide Recorded, Encode, Sort, Pages, Serving, StatsKept;
    if s.isRecordReady && !s.cfg.isLazyMode { FetchSizeIsFileSize(s); }
  }

  lemma FetchStateFrame(s: State, a: FetchAnswers)
    ensures FetchState(s, a).state == s.(workingSet := FetchState(s, a).state.workingSet)
  {
    hide ReadInto;
  }

  lemma FetchFrame(s: State, a: FetchAnswers)
    ensures FetchVM(s, a).state == s.(workingSet := FetchVM(s, a).state.workingSet)
  {
    hide FetchState;
    FetchStateFrame(s, a);
  }

  lemma {:induction false} ShiftCount(base: nat, os: set<nat>, addrs: set<nat>)
    requires forall a: nat :: a in addrs <==> a >= base && a - base in os
    ensures |addrs| == |os|
  {
    if os == {} {
      assert forall a: nat :: a !in addrs;
      assert addrs == {};
    } else {
      var o :| o in os;
      assert base + o in addrs;
      ShiftCount(base, os - {o}, addrs - {base + o});
    }
  }

  /** How many touched pages the record does not have. */
  ghost function NewPages(visits: seq<nat>, recorded: seq<nat>): nat {
    |Elems(visits) - Elems(recorded)|
  }

  lemma UnrecordedAre(s: State, visited: seq<nat>, a: nat)
    requires Playing(s, visited)
    ensures a in Unrecorded(s.uffd, s.trace) <==>
      a >= s.uffd.base && a - s.uffd.base in Elems(visited) - Elems(s.trace)
  {
    hide Inv, Fetched;
  }

  lemma LazyPagesAre(s: State, visited: seq<nat>, a: nat)
    requires Playing(s, visited) && s.cfg.isLazyMode
    ensures a in s.uffd.pages <==> a >= s.uffd.base && a - s.uffd.base in Elems(visited)
  {
    hide Inv, Fetched;
  }

  lemma CountsAre(s: State, visited: seq<nat>)
    requires Playing(s, visited) && s.isRecordReady
    ensures |Unrecorded(s.uffd, s.trace)| == NewPages(visited, s.trace)
    ensures s.cfg.isLazyMode ==> |s.uffd.pages| == |Elems(visited)|
  {
    hide Playing, Elems, Unrecorded;
    forall a: nat
      ensures a in Unrecorded(s.uffd, s.trace) <==>
        a >= s.uffd.base && a - s.uffd.base in Elems(visited) - Elems(s.trace)
    {
      UnrecordedAre(s, visited, a);
    }
    ShiftCount(s.uffd.base, Elems(visited) - Elems(s.trace), Unrecorded(s.uffd, s.trace));
    if s.cfg.isLazyMode {
      forall a: nat ensures a in s.uffd.pages.Keys <==> a >= s.uffd.base && a - s.uffd.base in Elems(visited) {
        LazyPagesAre(s, visited, a);
      }
      ShiftCount(s.uffd.base, Elems(visited), s.uffd.pages.Keys);
    }
  }

  /** What one activation adds to the statistics. */
  ghost predicate StatsAfter(s: State, s': State, visits: seq<nat>) {
    if s.isRecordReady && s.cfg.metricsModeOn then
      && s'.stats.uniquePFServed == s.stats.uniquePFServed + [NewPages(visits, s.trace)]
      && s'.stats.latencies == s.stats.latencies + 1
      && (s.cfg.isLazyMode ==>
            && s'.stats.totalPFServed == s.stats.totalPFServed + [|Elems(visits)|]
            && s'.stats.reusedPFServed == s.stats.reusedPFServed + [|Elems(visits)| - NewPages(visits, s.trace)])
    else s'.stats.(replayedNum := s.stats.replayedNum, uniqueNum := s.stats.uniqueNum) == s.stats
  }

  /** The end of an activation: a recording leaves the offsets touched, a replay changes no record. */
  lemma UnloadRests(s: State, visits: seq<nat>)
    requires Playing(s, visits)
    ensures var o := DeactivateVM(s, true);
      && o.reply == Done && Resting(o.state) && o.state.isRecordReady && o.state.cfg == s.cfg
      && StatsAfter(s, o.state, visits)
      && (if s.isRecordReady then o.state.trace == s.trace else forall x :: x in o.state.trace <==> x in visits)
  {
    hide Recorded, Encode, Sort, Pages, Compact, Listing, Faithful, NewPages, Unrecorded, Among, Fetched, PageAt;
    KeptFromInv(s);
    DeactivateKeeps(s, true);
    if s.isRecordReady {
      CountsAre(s, visits);
    } else {
      RecordingEnds(ProcessMetrics(s.(isPolling := false, guestMem := [])));
      RecordedIsTouched(s, visits);
    }
  }

  lemma RecordedIsTouched(s: State, visits: seq<nat>)
    requires Playing(s, visits) && !s.isRecordReady
    ensures forall x :: x in s.trace <==> x in visits
  {
    hide Recorded, Encode, Sort, Pages, Faithful, Fetched, PageAt;
    forall x: nat ensures x in s.trace <==> x in visits {
      var a := s.uffd.base + x;
      assert Among(s.uffd.base, s.trace, a) <==> a in s.uffd.pages;
      assert Among(s.uffd.base, visits, a) <==> a in s.uffd.pages;
    }
  }

  /** One activation, from load to offload. */
  ghost predicate CycleGood(s: State, c: Cycle, r: Option<Played>) {
    && r.Some?
    && Resting(r.value.state) && r.value.state.isRecordReady && r.value.state.cfg == s.cfg
    && r.value.seen == SeenPages(s.cfg.mem, c.visits)
    && StatsAfter(s, r.value.state, c.visits)
    && (if s.isRecordReady then r.value.state.trace == s.trace
        else forall x :: x in r.value.state.trace <==> x in c.visits)
  }

  lemma CycleServed(s: State, c: Cycle)
    requires Resting(s) && Playable(s.cfg.mem, c)
    ensures CycleGood(s, c, PlayCycle(s, c))
  {
    hide Inv, Fetched, Load, DeactivateVM, Play, SeenPages, Visits, GuestRange, NewPages, Elems;
    LoadPlays(s, c.base);
    PlayServed(Load(s, c.base), c.visits);
    UnloadRests(Play(Load(s, c.base), c.visits).value.state, c.visits);
  }

  /** The unique-fault statistic that a run must show, read off the touched offsets alone. */
  ghost function Uniques(cycles: seq<Cycle>): seq<int> {
    if |cycles| <= 1 then []
    else Uniques(cycles[..|cycles| - 1]) + [NewPages(cycles[|cycles| - 1].visits, cycles[0].visits)]
  }

  ghost function Totals(cycles: seq<Cycle>): seq<int> {
    if |cycles| <= 1 then []
    else Totals(cycles[..|cycles| - 1]) + [|Elems(cycles[|cycles| - 1].visits)|]
  }

  ghost predicate RunGood(cfg: Config, cycles: seq<Cycle>, r: Option<Played>) {
    && r.Some?
    && Resting(r.value.state) && r.value.state.cfg == cfg
    && r.value.state.isRecordReady == (cycles != [])
    && r.value.seen == SeenAll(cfg.mem, cycles)
    && (cycles != [] ==> forall x :: x in r.value.state.trace <==> x in cycles[0].visits)
    && (cfg.metricsModeOn ==> r.value.state.stats.uniquePFServed == Uniques(cycles))
    && (cfg.metricsModeOn && cfg.isLazyMode ==> r.value.state.stats.totalPFServed == Totals(cycles))
  }

  lemma SameMembers(a: seq<nat>, b: seq<nat>)
    requires forall x :: x in a <==> x in b
    ensures Elems(a) == Elems(b)
  {
  }

  lemma RunStep(cfg: Config, cycles: seq<Cycle>, c: Cycle, p: Played, q: Played)
    requires RunGood(cfg, cycles, Some(p)) && CycleGood(p.state, c, Some(q))
    ensures RunGood(cfg, cycles + [c], Some(Played(q.state, p.seen + q.seen)))
  {
    hide Resting, SeenPages;
    var cs := cycles + [c];
    assert cs[..|cycles|] == cycles;
    if cycles != [] {
      assert cs[0] == cycles[0];
      SameMembers(p.state.trace, cycles[0].visits);
    }
  }

  /** Whole runs in either mode: for any number of activations at any bases, the process never
      ends, the guest sees exactly the memory file, the trace is what the first activation touched,
      and the statistics are those of the touched pages. */
  lemma {:induction false} RunServed(cfg: Config, cycles: seq<Cycle>)
    requires forall i :: 0 <= i < |cycles| ==> Playable(cfg.mem, cycles[i])
    ensures RunGood(cfg, cycles, PlayAll(NewState(cfg), cycles))
  {
    hide Resting, Playable, PlayCycle, RunGood, CycleGood;
    var n := |cycles| - 1;
    if cycles == [] {
      NothingPlayed(cfg);
    } else {
      RunServed(cfg, cycles[..n]);
      assert cycles == cycles[..n] + [cycles[n]];
      RunGoodParts(cfg, cycles[..n], PlayAll(NewState(cfg), cycles[..n]));
      var p := PlayAll(NewState(cfg), cycles[..n]).value;
      CycleServed(p.state, cycles[n]);
      CycleGoodSome(p.state, cycles[n], PlayCycle(p.state, cycles[n]));
      RunStep(cfg, cycles[..n], cycles[n], p, PlayCycle(p.state, cycles[n]).value);
    }
  }

  lemma NothingPlayed(cfg: Config)
    ensures RunGood(cfg, [], PlayAll(NewState(cfg), []))
  {
  }

  lemma RunGoodParts(cfg: Config, cycles: seq<Cycle>, r: Option<Played>)
    requires RunGood(cfg, cycles, r)
    ensures r.Some? && Resting(r.value.state) && r.value.state.cfg == cfg
  {
    hide Resting;
  }

  lemma CycleGoodSome(s: State, c: Cycle, r: Option<Played>)
    requires CycleGood(s, c, r)
    ensures r.Some?
  {
    hide Resting;
  }

  /** Record and replay agrees with lazy serving: on every run the guest sees the same pages, and
      both modes count the same unique faults. */
  lemma ReplayAgreesWithLazy(cfg: Config, cycles: seq<Cycle>)
    requires forall i :: 0 <= i < |cycles| ==> Playable(cfg.mem, cycles[i])
    ensures var lazy := PlayAll(NewState(cfg.(isLazyMode := true)), cycles);
      var replay := PlayAll(NewState(cfg.(isLazyMode := false)), cycles);
      && lazy.Some? && replay.Some?
      && replay.value.seen == lazy.value.seen == SeenAll(cfg.mem, cycles)
      && (cfg.metricsModeOn ==> replay.value.state.stats.uniquePFServed == lazy.value.state.stats.uniquePFServed)
  {
    hide Resting, Playable, PlayAll, SeenAll, Uniques, Totals, NewState;
    RunServed(cfg.(isLazyMode := true), cycles);
    RunServed(cfg.(isLazyMode := false), cycles);
  }

  lemma {:induction false} StatsAt(cycles: seq<Cycle>, i: nat)
    requires i + 1 < |cycles|
    ensures |Uniques(cycles)| == |Totals(cycles)| == |cycles| - 1
    ensures Uniques(cycles)[i] == NewPages(cycles[i + 1].visits, cycles[0].visits)
    ensures Totals(cycles)[i] == |Elems(cycles[i + 1].visits)|
  {
    hide NewPages, Elems;
    var n := |cycles| - 1;
    if n == 1 {
      assert Uniques(cycles[..n]) == [] && Totals(cycles[..n]) == [];
    } else {
      StatsAt(cycles[..n], if i < n - 1 then i else 0);
    }
  }

  lemma SplitCount(a: set<nat>, b: set<nat>)
    ensures |a| == |a - b| + |a * b|
  {
    assert a == (a - b) + (a * b);
  }

  /** At the end of every lazy replay the pages served are the unique and the reused ones, and the
      reused ones are those whose offset was recorded. */
  lemma ReusedAreRecorded(cfg: Config, cycles: seq<Cycle>, i: nat)
    requires forall k :: 0 <= k < |cycles| ==> Playable(cfg.mem, cycles[k])
    requires cfg.metricsModeOn && cfg.isLazyMode && i + 1 < |cycles|
    ensures PlayAll(NewState(cfg), cycles).Some?
    ensures var st := PlayAll(NewState(cfg), cycles).value.state.stats;
      && |st.reusedPFServed| == |st.totalPFServed| == |st.uniquePFServed| == st.latencies == |cycles| - 1
      && st.totalPFServed[i] == st.uniquePFServed[i] + st.reusedPFServed[i]
      && st.reusedPFServed[i] == |Elems(cycles[i + 1].visits) * Elems(cycles[0].visits)|
  {
    hide PlayAll, NewState, Playable, SeenAll, Elems, Serving, TraceKept, Flags, Counted;
    RunServed(cfg, cycles);
    StatsAt(cycles, i);
    SplitCount(Elems(cycles[i + 1].visits), Elems(cycles[0].visits));
  }
}
