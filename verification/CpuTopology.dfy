/** The processors of the machine, as nested lists by socket and core and as a map, read from the lines
    of the kernel's processor description. */
module CpuTopology {
  import opened Options
  import opened Sorting

  /** A line by its kind, with its number if that can be read; negative socket and core numbers can
      occur in the text. */
  datatype Line = ProcessorLine(proc: Option<nat>) | PhysicalIdLine(socket: Option<int>) | CoreIdLine(core: Option<int>) | OtherLine

  datatype Place = Place(socket: nat, core: nat)

  type Core = seq<nat>
  type Socket = seq<Core>

  datatype Info = Info(sockets: seq<Socket>, processors: map<nat, Place>) {
    /** None when the processor is unknown or alone on its core. */
    function GetSibling(processor: nat): Option<nat>
      requires processor in processors ==> Listed(this, processors[processor], processor)
    {
      if processor !in processors then None
      else
        var core := CoreAt(sockets, processors[processor]);
        if |core| == 1 then None
        else if core[0] == processor then Some(core[1])
        else Some(core[0])
    }

    function NumCPU(): nat { |processors| }

    method SocketCPUs(socket: int) returns (r: Option<seq<nat>>)
      ensures r == if 0 <= socket < |sockets| then Some(Sort(Concat(sockets[socket]))) else None
    {
      if socket >= |sockets| || socket < 0 { return None; }
      var result: seq<nat> := [];
      for k := 0 to |sockets[socket]|
        invariant result == Concat(sockets[socket][..k])
      {
        ConcatSnoc(sockets[socket], k);
        result := result + sockets[socket][k];
      }
      assert sockets[socket][..|sockets[socket]|] == sockets[socket];
      return Some(Sort(result));
    }

    method AllCPUs() returns (r: seq<nat>)
      ensures r == Sort(Flat(sockets))
    {
      var result: seq<nat> := [];
      for i := 0 to |sockets|
        invariant result == Flat(sockets[..i])
      {
        var socket := sockets[i];
        for k := 0 to |socket|
          invariant result == Flat(sockets[..i]) + Concat(socket[..k])
        {
          ConcatSnoc(socket, k);
          result := result + socket[k];
        }
        assert socket[..|socket|] == socket;
        FlatSnoc(sockets, i);
      }
      assert sockets[..|sockets|] == sockets;
      return Sort(result);
    }
  }

  function CoreAt(sockets: seq<Socket>, p: Place): Core {
    if p.socket < |sockets| && p.core < |sockets[p.socket]| then sockets[p.socket][p.core] else []
  }

  predicate Listed(info: Info, p: Place, processor: nat) { processor in CoreAt(info.sockets, p) }

  function Concat(cores: seq<seq<nat>>): seq<nat> {
    if cores == [] then [] else cores[0] + Concat(cores[1..])
  }

  function Flat(sockets: seq<Socket>): seq<nat> {
    if sockets == [] then [] else Concat(sockets[0]) + Flat(sockets[1..])
  }

  lemma {:induction false} ConcatSnoc(cores: seq<seq<nat>>, k: nat)
    requires k < |cores|
    ensures Concat(cores[..k + 1]) == Concat(cores[..k]) + cores[k]
  {
    if k == 0 {
      assert cores[..1] == [cores[0]] && cores[..1][1..] == [];
    } else {
      ConcatSnoc(cores[1..], k - 1);
      assert cores[..k + 1][1..] == cores[1..][..k] && cores[..k][1..] == cores[1..][..k - 1];
    }
  }

  lemma {:induction false} FlatSnoc(sockets: seq<Socket>, k: nat)
    requires k < |sockets|
    ensures Flat(sockets[..k + 1]) == Flat(sockets[..k]) + Concat(sockets[k])
  {
    if k == 0 {
      assert sockets[..1] == [sockets[0]] && sockets[..1][1..] == [];
    } else {
      FlatSnoc(sockets[1..], k - 1);
      assert sockets[..k + 1][1..] == sockets[1..][..k] && sockets[..k][1..] == sockets[1..][..k - 1];
    }
  }

  /** The reader's variables. */
  datatype Reader = Reader(procID: nat, socketID: int, info: Info)

  datatype Outcome = Ok(reader: Reader) | Err | Panic

  /** The list extended by empty elements until it has an element n. */
  function Grown<T>(s: seq<T>, n: int, empty: T): (r: seq<T>)
    ensures |r| >= |s| && (n >= 0 ==> n < |r|)
  {
    if n < |s| then s else s + seq(n + 1 - |s|, _ => empty)
  }

  function WithProcessor(sockets: seq<Socket>, socketID: nat, coreID: nat, procID: nat): seq<Socket>
    requires socketID < |sockets|
  {
    var cores := Grown(sockets[socketID], coreID, []);
    sockets[socketID := cores[coreID := cores[coreID] + [procID]]]
  }

  /** An index out of range panics. */
  function AfterLine(r: Reader, line: Line): Outcome {
    match line
    case ProcessorLine(None) => Err
    case ProcessorLine(Some(n)) => Ok(r.(procID := n))
    case PhysicalIdLine(None) => Err
    case PhysicalIdLine(Some(n)) => Ok(r.(socketID := n, info := r.info.(sockets := Grown(r.info.sockets, n, []))))
    case CoreIdLine(None) => Err
    case CoreIdLine(Some(n)) =>
      if !(0 <= r.socketID < |r.info.sockets|) || n < 0 then Panic
      else
        Ok(r.(info := Info(WithProcessor(r.info.sockets, r.socketID, n, r.procID),
                           r.info.processors[r.procID := Place(r.socketID, n)])))
    case OtherLine => Ok(r)
  }

  function Read(lines: seq<Line>): Outcome {
    if lines == [] then Ok(Reader(0, 0, Info([], map[])))
    else
      var n := |lines| - 1;
      match Read(lines[..n])
      case Ok(r) => AfterLine(r, lines[n])
      case o => o
  }

  method GetCPUInfo(lines: seq<Line>) returns (o: Outcome)
    ensures o == Read(lines)
  {
    var procID: nat, socketID: int := 0, 0;
    var sockets: seq<Socket>, processors: map<nat, Place> := [], map[];
    for k := 0 to |lines|
      invariant Read(lines[..k]) == Ok(Reader(procID, socketID, Info(sockets, processors)))
    {
      ghost var before := Reader(procID, socketID, Info(sockets, processors));
      assert lines[..k + 1][..k] == lines[..k];
      if !Read(lines[..k + 1]).Ok? { Failing(lines, k + 1); }
      match lines[k] {
        case ProcessorLine(n) =>
          if n.None? { return Err; }
          procID := n.value;
        case PhysicalIdLine(n) =>
          if n.None? { return Err; }
          socketID := n.value;
          while |sockets| <= socketID
            invariant Grown(sockets, socketID, []) == Grown(before.info.sockets, socketID, [])
            decreases socketID - |sockets|
          {
            sockets := sockets + [[]];
          }
        case CoreIdLine(n) =>
          if n.None? { return Err; }
          var coreID := n.value;
          if !(0 <= socketID < |sockets|) || coreID < 0 { return Panic; }
          var cores := sockets[socketID];
          while |cores| <= coreID
            invariant Grown(cores, coreID, []) == Grown(before.info.sockets[socketID], coreID, [])
            decreases coreID - |cores|
          {
            cores := cores + [[]];
          }
          sockets := sockets[socketID := cores[coreID := cores[coreID] + [procID]]];
          processors := processors[procID := Place(socketID, coreID)];
        case OtherLine =>
      }
    }
    assert lines[..|lines|] == lines;
    return Ok(Reader(procID, socketID, Info(sockets, processors)));
  }

  /** An error or a panic ends the reading. */
  lemma {:induction false} Failing(lines: seq<Line>, k: nat)
    requires k <= |lines| && !Read(lines[..k]).Ok?
    ensures Read(lines) == Read(lines[..k])
    decreases |lines|
  {
    if k < |lines| {
      var n := |lines| - 1;
      assert lines[..n][..k] == lines[..k];
      Failing(lines[..n], k);
    } else {
      assert lines[..k] == lines;
    }
  }

  // ----- what the lines list -----

  datatype Entry = Entry(proc: nat, place: Place)

  /** The number of the last processor line. */
  function LastProc(lines: seq<Line>): nat {
    if lines == [] then 0
    else
      match lines[|lines| - 1]
      case ProcessorLine(Some(n)) => n
      case _ => LastProc(lines[..|lines| - 1])
  }

  /** The number of the last physical-id line, if there is one. */
  function LastSocket(lines: seq<Line>): Option<int> {
    if lines == [] then None
    else
      match lines[|lines| - 1]
      case PhysicalIdLine(Some(n)) => Some(n)
      case _ => LastSocket(lines[..|lines| - 1])
  }

  /** A core line after these lines has a place. */
  predicate Placeable(before: seq<Line>, core: int) {
    core >= 0 && LastSocket(before).Some? && LastSocket(before).value >= 0
  }

  /** The processors that the core lines list, in order: each is the one of the last processor line
      before, on the socket of the last physical-id line before, at the core of its own line. */
  function Entries(lines: seq<Line>): seq<Entry> {
    if lines == [] then []
    else
      var before := lines[..|lines| - 1];
      match lines[|lines| - 1]
      case CoreIdLine(Some(n)) =>
        Entries(before) + (if Placeable(before, n) then [Entry(LastProc(before), Place(LastSocket(before).value, n))] else [])
      case _ => Entries(before)
  }

  /** A line whose number cannot be read. */
  predicate Unreadable(line: Line) {
    match line
    case ProcessorLine(n) => n.None?
    case PhysicalIdLine(n) => n.None?
    case CoreIdLine(n) => n.None?
    case OtherLine => false
  }

  /** A core line without a place: its number or that of its socket is negative, or no physical-id line
      comes before it. */
  predicate Misplaced(lines: seq<Line>, k: nat)
    requires k < |lines|
  {
    lines[k].CoreIdLine? && lines[k].core.Some? && !Placeable(lines[..k], lines[k].core.value)
  }

  predicate GoodLine(lines: seq<Line>, k: nat)
    requires k < |lines|
  {
    !Unreadable(lines[k]) && !Misplaced(lines, k)
  }

  ghost predicate FirstBad(lines: seq<Line>, k: nat) {
    k < |lines| && !GoodLine(lines, k) && forall j: nat :: j < k ==> GoodLine(lines, j)
  }

  /** The reader's variables are what the lines last said. */
  ghost predicate Knows(r: Reader, lines: seq<Line>) {
    && r.procID == LastProc(lines)
    && (LastSocket(lines).None? ==> r.info.sockets == [])
    && (LastSocket(lines).Some? ==> r.socketID == LastSocket(lines).value < |r.info.sockets|)
  }

  lemma KnowsStep(r: Reader, lines: seq<Line>)
    requires lines != [] && Knows(r, lines[..|lines| - 1])
    ensures var n := |lines| - 1; var o := AfterLine(r, lines[n]);
      && (o.Err? <==> Unreadable(lines[n]))
      && (o.Panic? <==> Misplaced(lines, n))
      && (o.Ok? ==> Knows(o.reader, lines))
  {
  }

  lemma GoodBefore(lines: seq<Line>, n: nat, k: nat)
    requires k < n <= |lines|
    ensures GoodLine(lines[..n], k) == GoodLine(lines, k) && lines[..n][k] == lines[k]
    ensures Misplaced(lines[..n], k) == Misplaced(lines, k)
  {
    assert lines[..n][..k] == lines[..k];
  }

  lemma FirstBadBefore(lines: seq<Line>, n: nat, k: nat)
    requires k < n <= |lines|
    ensures FirstBad(lines[..n], k) == FirstBad(lines, k)
  {
    hide GoodLine, Misplaced;
    forall j: nat | j <= k ensures GoodLine(lines[..n], j) == GoodLine(lines, j) { GoodBefore(lines, n, j); }
  }

  /** The first bad line decides: the reading fails if its number cannot be read, and panics if it is a
      core line without a place; without a bad line it succeeds. */
  lemma {:induction false} ReadOutcome(lines: seq<Line>)
    ensures Read(lines).Ok? <==> forall k: nat :: k < |lines| ==> GoodLine(lines, k)
    ensures Read(lines).Err? <==> exists k: nat :: FirstBad(lines, k) && Unreadable(lines[k])
    ensures Read(lines).Panic? <==> exists k: nat :: FirstBad(lines, k) && Misplaced(lines, k)
    ensures Read(lines).Ok? ==> Knows(Read(lines).reader, lines)
  {
    hide AfterLine, Knows, Unreadable, Misplaced;
    if lines == [] {
      KnowsNothing();
    } else {
      var n := |lines| - 1;
      ReadOutcome(lines[..n]);
      forall k: nat | k < n
        ensures FirstBad(lines[..n], k) == FirstBad(lines, k)
        ensures Misplaced(lines[..n], k) == Misplaced(lines, k) && lines[..n][k] == lines[k]
      {
        FirstBadBefore(lines, n, k);
        GoodBefore(lines, n, k);
      }
      if Read(lines[..n]).Ok? {
        forall k: nat | k < n ensures GoodLine(lines, k) {
          assert GoodLine(lines[..n], k);
          GoodBefore(lines, n, k);
        }
        KnowsStep(Read(lines[..n]).reader, lines);
        OneBad(lines[n]);
        assert !GoodLine(lines, n) ==> FirstBad(lines, n);
      } else {
        var k: nat :| FirstBad(lines[..n], k);
        assert FirstBad(lines, k);
        OnlyFirst(lines, k);
        OnlyFirst(lines[..n], k);
      }
    }
  }

  lemma OnlyFirst(lines: seq<Line>, k: nat)
    requires FirstBad(lines, k)
    ensures forall j: nat :: FirstBad(lines, j) ==> j == k
  {
    hide GoodLine;
  }

  lemma KnowsNothing()
    ensures Knows(Reader(0, 0, Info([], map[])), [])
  {
  }

  lemma OneBad(line: Line)
    ensures Unreadable(line) ==> !(line.CoreIdLine? && line.core.Some?)
  {
  }

  function Procs(es: seq<Entry>): seq<nat> { seq(|es|, i requires 0 <= i < |es| => es[i].proc) }

  /** The processors listed at a place. */
  function ProcsAt(es: seq<Entry>, p: Place): seq<nat> {
    if es == [] then []
    else ProcsAt(es[..|es| - 1], p) + (if es[|es| - 1].place == p then [es[|es| - 1].proc] else [])
  }

  function LastPlaces(es: seq<Entry>): map<nat, Place> {
    if es == [] then map[] else LastPlaces(es[..|es| - 1])[es[|es| - 1].proc := es[|es| - 1].place]
  }

  lemma CoreAtGrown(sockets: seq<Socket>, n: int, p: Place)
    ensures CoreAt(Grown(sockets, n, []), p) == CoreAt(sockets, p)
  {
  }

  lemma CoreAtWith(sockets: seq<Socket>, socketID: nat, coreID: nat, procID: nat, p: Place)
    requires socketID < |sockets|
    ensures CoreAt(WithProcessor(sockets, socketID, coreID, procID), p)
      == CoreAt(sockets, p) + (if p == Place(socketID, coreID) then [procID] else [])
  {
  }

  lemma ProcsSnoc(es: seq<Entry>, e: Entry, p: Place)
    ensures ProcsAt(es + [e], p) == ProcsAt(es, p) + (if p == e.place then [e.proc] else [])
    ensures LastPlaces(es + [e]) == LastPlaces(es)[e.proc := e.place]
  {
    assert (es + [e])[..|es|] == es;
  }

  /** A physical-id line has k or a greater number. */
  ghost predicate SocketUpTo(lines: seq<Line>, k: nat) {
    exists n: int :: n >= k && PhysicalIdLine(Some(n)) in lines
  }

  /** An entry of the socket has core c or a greater one. */
  ghost predicate CoreUpTo(es: seq<Entry>, socket: nat, c: nat) {
    exists e :: e in es && e.place.socket == socket && e.place.core >= c
  }

  /** What a core line that is read adds. */
  lemma EntriesStep(r: Reader, lines: seq<Line>)
    requires lines != [] && Knows(r, lines[..|lines| - 1]) && AfterLine(r, lines[|lines| - 1]).Ok?
    ensures var n := |lines| - 1;
      Entries(lines) == Entries(lines[..n])
        + (if lines[n].CoreIdLine? then [Entry(r.procID, Place(r.socketID, lines[n].core.value))] else [])
  {
  }

  /** Every core lists the processors of its lines, in order, and the map has the last place of every
      processor. */
  lemma {:induction false} ReadLists(lines: seq<Line>, p: Place)
    requires Read(lines).Ok?
    ensures CoreAt(Read(lines).reader.info.sockets, p) == ProcsAt(Entries(lines), p)
    ensures Read(lines).reader.info.processors == LastPlaces(Entries(lines))
  {
    hide WithProcessor, CoreAt, Grown, ProcsAt, LastPlaces, Entries, Knows;
    if lines == [] {
      NothingListed(p);
    } else {
      var n := |lines| - 1;
      ReadLists(lines[..n], p);
      ReadOutcome(lines[..n]);
      var r := Read(lines[..n]).reader;
      var es := Entries(lines[..n]);
      EntriesStep(r, lines);
      if lines[n].CoreIdLine? {
        var m := lines[n].core.value;
        CoreAtWith(r.info.sockets, r.socketID, m, r.procID, p);
        ProcsSnoc(es, Entry(r.procID, Place(r.socketID, m)), p);
      } else {
        assert Entries(lines) == es;
        if lines[n].PhysicalIdLine? { CoreAtGrown(r.info.sockets, lines[n].socket.value, p); }
      }
    }
  }

  lemma SocketUpToStep(lines: seq<Line>, k: nat)
    requires lines != []
    ensures var n := |lines| - 1;
      SocketUpTo(lines, k)
      == (SocketUpTo(lines[..n], k) || (lines[n].PhysicalIdLine? && lines[n].socket.Some? && lines[n].socket.value >= k))
  {
    var n := |lines| - 1;
    assert lines == lines[..n] + [lines[n]];
  }

  lemma CoreUpToStep(es: seq<Entry>, e: Entry, socket: nat, c: nat)
    ensures CoreUpTo(es + [e], socket, c) == (CoreUpTo(es, socket, c) || (e.place.socket == socket && e.place.core >= c))
  {
    assert e in es + [e];
    assert forall d :: d in es + [e] <==> d in es || d == e;
    if CoreUpTo(es, socket, c) {
      var d :| d in es && d.place.socket == socket && d.place.core >= c;
      assert d in es + [e];
    }
  }

  function CoreCount(sockets: seq<Socket>, k: nat): nat { if k < |sockets| then |sockets[k]| else 0 }

  lemma GrownRoom(sockets: seq<Socket>, n: int, k: nat)
    ensures k < |Grown(sockets, n, [])| <==> k < |sockets| || k <= n
    ensures CoreCount(Grown(sockets, n, []), k) == CoreCount(sockets, k)
  {
  }

  lemma WithRoom(sockets: seq<Socket>, socketID: nat, coreID: nat, procID: nat, k: nat, c: nat)
    requires socketID < |sockets|
    ensures |WithProcessor(sockets, socketID, coreID, procID)| == |sockets|
    ensures c < CoreCount(WithProcessor(sockets, socketID, coreID, procID), k)
      <==> c < CoreCount(sockets, k) || (k == socketID && c <= coreID)
  {
  }

  /** There is a list for every socket up to the greatest physical-id number, and on a socket one for every
      core up to the greatest that is listed there. */
  lemma {:induction false} ReadRoom(lines: seq<Line>, k: nat, c: nat)
    requires Read(lines).Ok?
    ensures k < |Read(lines).reader.info.sockets| <==> SocketUpTo(lines, k)
    ensures c < CoreCount(Read(lines).reader.info.sockets, k) <==> CoreUpTo(Entries(lines), k, c)
  {
    hide WithProcessor, Grown, Entries, Knows, SocketUpTo, CoreUpTo, CoreCount;
    if lines == [] {
      NoRoom(k, c);
    } else {
      var n := |lines| - 1;
      ReadRoom(lines[..n], k, c);
      ReadOutcome(lines[..n]);
      var r := Read(lines[..n]).reader;
      EntriesStep(r, lines);
      SocketUpToStep(lines, k);
      if lines[n].CoreIdLine? {
        var m := lines[n].core.value;
        WithRoom(r.info.sockets, r.socketID, m, r.procID, k, c);
        CoreUpToStep(Entries(lines[..n]), Entry(r.procID, Place(r.socketID, m)), k, c);
      } else {
        assert Entries(lines) == Entries(lines[..n]);
        if lines[n].PhysicalIdLine? { GrownRoom(r.info.sockets, lines[n].socket.value, k); }
      }
    }
  }

  lemma NoRoom(k: nat, c: nat)
    ensures !SocketUpTo([], k) && !CoreUpTo([], k, c) && CoreCount([], k) == 0 && Entries([]) == []
  {
  }

  lemma NothingListed(p: Place)
    ensures CoreAt([], p) == ProcsAt([], p) && LastPlaces([]) == map[] && Entries([]) == []
  {
  }

  lemma {:induction false} ProcsAtMember(es: seq<Entry>, p: Place, x: nat)
    ensures x in ProcsAt(es, p) <==> Entry(x, p) in es
  {
    if es != [] {
      var n := |es| - 1;
      ProcsAtMember(es[..n], p, x);
      assert es == es[..n] + [es[n]];
    }
  }

  lemma {:induction false} LastPlaceMember(es: seq<Entry>, x: nat)
    ensures x in LastPlaces(es) <==> x in Procs(es)
    ensures x in LastPlaces(es) ==> Entry(x, LastPlaces(es)[x]) in es
  {
    if es != [] {
      var n := |es| - 1;
      LastPlaceMember(es[..n], x);
      assert es == es[..n] + [es[n]] && Procs(es) == Procs(es[..n]) + [es[n].proc];
    }
  }

  /** The place that the map has for a processor is that of its last entry. */
  lemma {:induction false} LastPlaceIsLast(es: seq<Entry>, i: nat)
    requires i < |es| && forall j: nat :: i < j < |es| ==> es[j].proc != es[i].proc
    ensures es[i].proc in LastPlaces(es) && LastPlaces(es)[es[i].proc] == es[i].place
  {
    var n := |es| - 1;
    if i < n { LastPlaceIsLast(es[..n], i); }
  }

  /** The lists and the map say the same: every listed processor has its place in the map, every
      processor of the map is listed there, and no core lists a processor twice. */
  ghost predicate Inverse(info: Info) {
    && (forall p, k: nat :: k < |CoreAt(info.sockets, p)| ==>
          CoreAt(info.sockets, p)[k] in info.processors && info.processors[CoreAt(info.sockets, p)[k]] == p)
    && (forall x :: x in info.processors ==> x in CoreAt(info.sockets, info.processors[x]))
    && (forall p :: Distinct(CoreAt(info.sockets, p)))
  }

  lemma EntryUnique(es: seq<Entry>, a: Entry, b: Entry)
    requires Distinct(Procs(es)) && a in es && b in es && a.proc == b.proc
    ensures a == b
  {
    var i :| 0 <= i < |es| && es[i] == a;
    var j :| 0 <= j < |es| && es[j] == b;
    assert Procs(es)[i] == Procs(es)[j];
  }

  lemma {:induction false} ProcsAtDistinct(es: seq<Entry>, p: Place)
    requires Distinct(Procs(es))
    ensures Distinct(ProcsAt(es, p))
  {
    if es != [] {
      var n := |es| - 1;
      assert Procs(es[..n]) == Procs(es)[..n];
      ProcsAtDistinct(es[..n], p);
      if es[n].place == p {
        ProcsAtMember(es[..n], p, es[n].proc);
        forall i | 0 <= i < n ensures es[i].proc != es[n].proc { assert Procs(es)[i] != Procs(es)[n]; }
      }
    }
  }

  lemma {:induction false} ProcsAtRepeats(es: seq<Entry>, i: nat, j: nat)
    requires i < j < |es| && es[i] == es[j]
    ensures !Distinct(ProcsAt(es, es[i].place))
  {
    var n := |es| - 1;
    var p := es[i].place;
    if j < n {
      ProcsAtRepeats(es[..n], i, j);
      var q := ProcsAt(es[..n], p);
      var a, b :| 0 <= a < b < |q| && q[a] == q[b];
      assert ProcsAt(es, p)[a] == ProcsAt(es, p)[b];
    } else {
      var q := ProcsAt(es[..n], p);
      assert es[..n][i] == es[i];
      ProcsAtMember(es[..n], p, es[i].proc);
      var a :| 0 <= a < |q| && q[a] == es[i].proc;
      assert ProcsAt(es, p)[a] == ProcsAt(es, p)[|q|];
    }
  }

  /** The lists and the map are inverse to each other exactly when the core lines are of different
      processors. */
  lemma InverseIff(lines: seq<Line>)
    requires Read(lines).Ok?
    ensures Inverse(Read(lines).reader.info) <==> Distinct(Procs(Entries(lines)))
  {
    var info := Read(lines).reader.info;
    var es := Entries(lines);
    forall p ensures CoreAt(info.sockets, p) == ProcsAt(es, p) && info.processors == LastPlaces(es) { ReadLists(lines, p); }
    ReadLists(lines, Place(0, 0));
    if Distinct(Procs(es)) {
      DistinctInverse(info, es);
    } else {
      var i: nat, j: nat :| i < j < |es| && Procs(es)[i] == Procs(es)[j];
      RepeatedNotInverse(info, es, i, j);
    }
  }

  lemma DistinctInverse(info: Info, es: seq<Entry>)
    requires (forall p :: CoreAt(info.sockets, p) == ProcsAt(es, p)) && info.processors == LastPlaces(es)
    requires Distinct(Procs(es))
    ensures Inverse(info)
  {
    forall p, k: nat | k < |CoreAt(info.sockets, p)|
      ensures CoreAt(info.sockets, p)[k] in info.processors && info.processors[CoreAt(info.sockets, p)[k]] == p
    {
      var x := ProcsAt(es, p)[k];
      ProcsAtMember(es, p, x);
      var i :| 0 <= i < |es| && es[i] == Entry(x, p);
      assert Procs(es)[i] == x;
      LastPlaceMember(es, x);
      EntryUnique(es, Entry(x, p), Entry(x, LastPlaces(es)[x]));
    }
    forall x | x in info.processors ensures x in CoreAt(info.sockets, info.processors[x]) {
      LastPlaceMember(es, x);
      ProcsAtMember(es, LastPlaces(es)[x], x);
    }
    forall p ensures Distinct(CoreAt(info.sockets, p)) { ProcsAtDistinct(es, p); }
  }

  lemma RepeatedNotInverse(info: Info, es: seq<Entry>, i: nat, j: nat)
    requires (forall p :: CoreAt(info.sockets, p) == ProcsAt(es, p)) && info.processors == LastPlaces(es)
    requires i < j < |es| && es[i].proc == es[j].proc
    ensures !Inverse(info)
  {
    var x := es[i].proc;
    if es[i].place == es[j].place {
      ProcsAtRepeats(es, i, j);
      assert !Distinct(CoreAt(info.sockets, es[i].place));
    } else {
      ProcsAtMember(es, es[i].place, x);
      ProcsAtMember(es, es[j].place, x);
      assert es[i] in es && es[j] in es;
      var a :| 0 <= a < |CoreAt(info.sockets, es[i].place)| && CoreAt(info.sockets, es[i].place)[a] == x;
      var b :| 0 <= b < |CoreAt(info.sockets, es[j].place)| && CoreAt(info.sockets, es[j].place)[b] == x;
    }
  }

  /** A sibling is a different processor of the same core, the first one that it lists; on a core with two processors each is the
      other's sibling, and a processor has none exactly when it is alone. */
  lemma SiblingShares(info: Info, x: nat)
    requires Inverse(info) && x in info.processors
    ensures info.GetSibling(x).None? <==> |CoreAt(info.sockets, info.processors[x])| == 1
    ensures info.GetSibling(x).Some? ==>
      var y := info.GetSibling(x).value;
      && y != x && y in info.processors && info.processors[y] == info.processors[x]
      && (forall k: nat :: k < |CoreAt(info.sockets, info.processors[x])| && CoreAt(info.sockets, info.processors[x])[k] != x
            && (forall j: nat :: j < k ==> CoreAt(info.sockets, info.processors[x])[j] == x)
            ==> y == CoreAt(info.sockets, info.processors[x])[k])
      && (|CoreAt(info.sockets, info.processors[x])| == 2 ==> info.GetSibling(y) == Some(x))
  {
    hide CoreAt;
    var core := CoreAt(info.sockets, info.processors[x]);
    assert Distinct(core);
  }

  // ----- all processors -----

  lemma {:induction false} ConcatUpdate(cores: seq<seq<nat>>, k: nat, c: seq<nat>, x: nat)
    requires k < |cores|
    ensures multiset(Concat(cores[k := c]))[x] + multiset(cores[k])[x] == multiset(Concat(cores))[x] + multiset(c)[x]
  {
    if k == 0 {
      assert cores[0 := c][1..] == cores[1..];
    } else {
      ConcatUpdate(cores[1..], k - 1, c, x);
      assert cores[k := c][1..] == cores[1..][k - 1 := c];
    }
  }

  lemma {:induction false} FlatUpdate(sockets: seq<Socket>, k: nat, c: Socket, x: nat)
    requires k < |sockets|
    ensures multiset(Flat(sockets[k := c]))[x] + multiset(Concat(sockets[k]))[x] == multiset(Flat(sockets))[x] + multiset(Concat(c))[x]
  {
    hide Concat;
    if k == 0 {
      assert sockets[0 := c][1..] == sockets[1..];
    } else {
      FlatUpdate(sockets[1..], k - 1, c, x);
      assert sockets[k := c][1..] == sockets[1..][k - 1 := c];
    }
  }

  lemma {:induction false} ConcatEmpties(cores: seq<seq<nat>>, m: nat)
    ensures Concat(cores + seq(m, _ => [])) == Concat(cores)
  {
    var all := cores + seq(m, _ => []);
    if m == 0 {
      assert all == cores;
    } else {
      ConcatEmpties(cores, m - 1);
      assert all[..|all| - 1] == cores + seq(m - 1, _ => []);
      ConcatSnoc(all, |all| - 1);
      assert all[..|all|] == all;
    }
  }

  lemma {:induction false} FlatEmpties(sockets: seq<Socket>, m: nat)
    ensures Flat(sockets + seq(m, _ => [])) == Flat(sockets)
  {
    var all := sockets + seq(m, _ => []);
    if m == 0 {
      assert all == sockets;
    } else {
      FlatEmpties(sockets, m - 1);
      assert all[..|all| - 1] == sockets + seq(m - 1, _ => []);
      FlatSnoc(sockets + seq(m, _ => []), |all| - 1);
      assert all[..|all|] == all;
    }
  }

  lemma FlatWith(sockets: seq<Socket>, socketID: nat, coreID: nat, procID: nat, x: nat)
    requires socketID < |sockets|
    ensures multiset(Flat(WithProcessor(sockets, socketID, coreID, procID)))[x]
      == multiset(Flat(sockets))[x] + (if x == procID then 1 else 0)
  {
    hide Flat, Concat;
    var cores := Grown(sockets[socketID], coreID, []);
    var core := cores[coreID];
    if coreID >= |sockets[socketID]| { ConcatEmpties(sockets[socketID], coreID + 1 - |sockets[socketID]|); }
    ConcatUpdate(cores, coreID, core + [procID], x);
    FlatUpdate(sockets, socketID, cores[coreID := core + [procID]], x);
  }

  lemma CountAppend(s: seq<nat>, y: nat, x: nat)
    ensures multiset(s + [y])[x] == multiset(s)[x] + (if x == y then 1 else 0)
  {
  }

  lemma ProcsAppend(es: seq<Entry>, e: Entry)
    ensures Procs(es + [e]) == Procs(es) + [e.proc]
    ensures Procs([]) == []
  {
  }

  lemma {:induction false} ReadFlat(lines: seq<Line>, x: nat)
    requires Read(lines).Ok?
    ensures multiset(Flat(Read(lines).reader.info.sockets))[x] == multiset(Procs(Entries(lines)))[x]
  {
    hide WithProcessor, Grown, Flat, Procs, Entries, Knows;
    if lines == [] {
      NothingListed(Place(0, 0));
      NothingFlat();
      ProcsAppend([], Entry(0, Place(0, 0)));
    } else {
      var n := |lines| - 1;
      ReadFlat(lines[..n], x);
      ReadOutcome(lines[..n]);
      EntriesStep(Read(lines[..n]).reader, lines);
      var r := Read(lines[..n]).reader;
      var es := Entries(lines[..n]);
      if lines[n].CoreIdLine? {
        var m := lines[n].core.value;
        FlatWith(r.info.sockets, r.socketID, m, r.procID, x);
        ProcsAppend(es, Entry(r.procID, Place(r.socketID, m)));
        CountAppend(Procs(es), r.procID, x);
      } else {
        assert Entries(lines) == es;
        if lines[n].PhysicalIdLine? { FlatGrown(r.info.sockets, lines[n].socket.value); }
      }
    }
  }

  lemma FlatGrown(sockets: seq<Socket>, n: int)
    ensures Flat(Grown(sockets, n, [])) == Flat(sockets)
  {
    if n >= |sockets| { FlatEmpties(sockets, n + 1 - |sockets|); }
  }

  lemma NothingFlat()
    ensures Flat([]) == []
  {
  }

  lemma {:induction false} ElemsAtMost(s: seq<nat>)
    ensures |Elems(s)| <= |s|
    ensures |Elems(s)| == |s| <==> Distinct(s)
  {
    if s == [] {
      assert Elems(s) == {};
    } else {
      var n := |s| - 1;
      ElemsAtMost(s[..n]);
      ElemsSnoc(s[..n], s[n]);
      assert s == s[..n] + [s[n]];
      if Distinct(s[..n]) && s[n] !in s[..n] {
        assert Distinct(s);
      } else if s[n] in s[..n] {
        var i :| 0 <= i < n && s[..n][i] == s[n];
        assert s[i] == s[n];
        assert Elems(s[..n]) + {s[n]} == Elems(s[..n]);
      } else {
        var i, j :| 0 <= i < j < n && s[..n][i] == s[..n][j];
        assert s[i] == s[j];
      }
    }
  }

  lemma FlatPermutes(lines: seq<Line>)
    requires Read(lines).Ok?
    ensures multiset(Flat(Read(lines).reader.info.sockets)) == multiset(Procs(Entries(lines)))
  {
    hide Flat, Procs, Entries, Read;
    forall x: nat ensures multiset(Flat(Read(lines).reader.info.sockets))[x] == multiset(Procs(Entries(lines)))[x] { ReadFlat(lines, x); }
  }

  /** All processors, sorted, are as many as the map has exactly when the core lines are of different
      processors, and then they are the map's keys in ascending order. */
  lemma AllCPUsIff(lines: seq<Line>)
    requires Read(lines).Ok?
    ensures var info := Read(lines).reader.info; var all := Sort(Flat(info.sockets));
      && Elems(all) == info.processors.Keys
      && (|all| == info.NumCPU() <==> Distinct(Procs(Entries(lines))))
      && (|all| == info.NumCPU() ==> Ascending(all))
  {
    hide Flat, Read, Entries, CoreAt;
    var info := Read(lines).reader.info;
    var es := Entries(lines);
    var flat := Flat(info.sockets);
    FlatPermutes(lines);
    SortSorts(flat);
    MultisetElems(Sort(flat), Procs(es));
    ElemsAtMost(Procs(es));
    ReadLists(lines, Place(0, 0));
    forall x ensures x in info.processors.Keys <==> x in Elems(Procs(es)) { LastPlaceMember(es, x); }
    assert info.processors.Keys == Elems(Procs(es));
    if Distinct(Procs(es)) {
      SamePermutationDistinct(Procs(es), flat);
      SortDistinct(flat);
    }
  }

  lemma SamePermutationDistinct(a: seq<nat>, b: seq<nat>)
    requires multiset(a) == multiset(b) && Distinct(a)
    ensures Distinct(b)
  {
    DistinctCounts(a);
    CountsDistinct(b);
  }

  lemma {:induction false} ConcatMember(cores: seq<seq<nat>>, x: nat)
    ensures x in Concat(cores) <==> exists k: nat :: k < |cores| && x in cores[k]
  {
    if cores != [] {
      ConcatMember(cores[1..], x);
      if x in Concat(cores[1..]) {
        var k: nat :| k < |cores[1..]| && x in cores[1..][k];
        assert x in cores[k + 1];
      }
      if exists k: nat :: k < |cores| && x in cores[k] {
        var k: nat :| k < |cores| && x in cores[k];
        if k > 0 { assert x in cores[1..][k - 1]; }
      }
    }
  }

  lemma {:induction false} FlatHas(sockets: seq<Socket>, k: nat, x: nat)
    requires k < |sockets|
    ensures multiset(Concat(sockets[k]))[x] <= multiset(Flat(sockets))[x]
  {
    hide Concat;
    if k > 0 { FlatHas(sockets[1..], k - 1, x); }
  }

  /** The processors of a socket are those that the map places there, in ascending order: the sockets
      partition the processors. */
  lemma SocketCPUsPartition(lines: seq<Line>, socket: nat)
    requires Read(lines).Ok? && Distinct(Procs(Entries(lines))) && socket < |Read(lines).reader.info.sockets|
    ensures var info := Read(lines).reader.info; var mine := Sort(Concat(info.sockets[socket]));
      && Ascending(mine)
      && forall x :: x in mine <==> x in info.processors && info.processors[x].socket == socket
  {
    hide Flat, Concat, Read, Entries;
    var info := Read(lines).reader.info;
    var c: seq<nat> := Concat(info.sockets[socket]);
    FlatPermutes(lines);
    DistinctCounts(Procs(Entries(lines)));
    forall x: nat ensures multiset(c)[x] <= 1 { FlatHas(info.sockets, socket, x); }
    CountsDistinct(c);
    SortDistinct(c);
    InverseIff(lines);
    forall x ensures x in Sort(c) <==> x in info.processors && info.processors[x].socket == socket {
      assert x in Sort(c) <==> x in Elems(Sort(c));
      ConcatMember(info.sockets[socket], x);
      InSocket(info, socket, x);
    }
  }

  lemma InSocket(info: Info, socket: nat, x: nat)
    requires Inverse(info) && socket < |info.sockets|
    ensures (exists k: nat :: k < |info.sockets[socket]| && x in info.sockets[socket][k])
      <==> x in info.processors && info.processors[x].socket == socket
  {
    if exists k: nat :: k < |info.sockets[socket]| && x in info.sockets[socket][k] {
      var k: nat :| k < |info.sockets[socket]| && x in info.sockets[socket][k];
      var core := CoreAt(info.sockets, Place(socket, k));
      var i: nat :| i < |core| && core[i] == x;
      assert CoreAt(info.sockets, Place(socket, k))[i] in info.processors;
    }
    if x in info.processors && info.processors[x].socket == socket {
      assert x in CoreAt(info.sockets, info.processors[x]);
      assert x in info.sockets[socket][info.processors[x].core];
    }
  }
}
