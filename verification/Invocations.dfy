/** What the database knows of one invocation of a workflow, event by event. */
module Invocations {
  import opened Completions
  import opened Options
  import Sorting

  datatype Event = Event(workflowId: string, invocationId: string, invokedOn: int, attributes: Attributes)

  datatype Record = Record(event: Event, recordedOn: int, isCompletion: bool)

  /** The awaited descriptors, and the invocation's description with its status. */
  datatype Inv = Inv(id: string, pending: seq<Descriptor>, invokedOn: int, duration: Option<int>, records: seq<Record>, completed: bool)

  function NewInv(template: seq<Descriptor>, e: Event): Inv {
    Inv(e.invocationId, template, e.invokedOn, None, [], false)
  }

  function Longer(duration: Option<int>, d: int): int {
    if duration.None? || d > duration.value then d else duration.value
  }

  function AfterCompletion(v: Inv, i: nat, e: Event, now: int): Inv
    requires i < |v.pending|
  {
    v.(pending := Without(v.pending, i),
       duration := Some(Longer(v.duration, now - e.invokedOn)),
       completed := |v.pending| == 1 || v.completed)
  }

  function AfterEvent(v: Inv, e: Event, now: int): Inv {
    var r := FirstMatch(v.pending, e.attributes);
    var v' := if r.Some? then AfterCompletion(v, r.value, e, now) else v;
    v'.(records := v.records + [Record(e, now, r.Some?)])
  }

  datatype Arrival = Arrival(event: Event, now: int)

  function AfterAll(v: Inv, arrivals: seq<Arrival>): Inv {
    if arrivals == [] then v
    else
      var n := |arrivals| - 1;
      AfterEvent(AfterAll(v, arrivals[..n]), arrivals[n].event, arrivals[n].now)
  }

  // ----- what the events account for -----

  /** For each descriptor of the template: the number of the record that completed it, or -1 while it
      is awaited; and the places of the awaited descriptors in the template. */
  datatype Track = Track(places: seq<nat>, records: seq<int>)

  ghost predicate Increasing(s: seq<nat>, n: nat) {
    && (forall i, j :: 0 <= i < j < |s| ==> s[i] < s[j])
    && (forall i :: 0 <= i < |s| ==> s[i] < n)
  }

  ghost predicate Serves(v: Inv, d: Descriptor, r: int) {
    0 <= r < |v.records| && v.records[r].isCompletion && Matches(d, v.records[r].event.attributes)
  }

  /** The awaited descriptors are those at the places, in the order of the template. */
  ghost predicate PlacesOk(template: seq<Descriptor>, pending: seq<Descriptor>, places: seq<nat>) {
    && Increasing(places, |template|)
    && |places| == |pending|
    && (forall k :: 0 <= k < |places| ==> pending[k] == template[places[k]])
  }

  /** Every descriptor that is not awaited has a completion record of its own, which its matchers
      match, and there are no other completion records. */
  ghost predicate RecordsOk(template: seq<Descriptor>, v: Inv, t: Track) {
    && |t.records| == |template|
    && (forall p: nat :: p < |template| ==> (p in t.places <==> t.records[p] == -1))
    && (forall p: nat :: p < |template| && t.records[p] != -1 ==> Serves(v, template[p], t.records[p]))
    && (forall p: nat, q: nat :: p < q < |template| && t.records[p] != -1 ==> t.records[p] != t.records[q])
    && (forall r: nat :: r < |v.records| && v.records[r].isCompletion ==> r in t.records)
  }

  ghost predicate Tracked(template: seq<Descriptor>, v: Inv, t: Track) {
    PlacesOk(template, v.pending, t.places) && RecordsOk(template, v, t)
  }

  function TrackAfter(t: Track, i: Option<nat>, record: nat): Track {
    if i.Some? && i.value < |t.places| && t.places[i.value] < |t.records|
    then Track(Without(t.places, i.value), t.records[t.places[i.value] := record])
    else t
  }

  lemma PlacesStep(s: seq<nat>, i: nat, n: nat)
    requires Increasing(s, n) && i < |s|
    ensures Increasing(Without(s, i), n)
    ensures forall p :: p in Without(s, i) <==> p in s && p != s[i]
  {
    var w := Without(s, i);
    assert forall k :: 0 <= k < |w| ==> w[k] == s[if k < i then k else k + 1];
    forall p | p in s && p != s[i] ensures p in w {
      var k :| 0 <= k < |s| && s[k] == p;
      assert w[if k < i then k else k - 1] == p;
    }
  }

  lemma PlacesAfter(template: seq<Descriptor>, pending: seq<Descriptor>, places: seq<nat>, i: nat)
    requires PlacesOk(template, pending, places) && i < |pending|
    ensures PlacesOk(template, Without(pending, i), Without(places, i))
    ensures forall p :: p in Without(places, i) <==> p in places && p != places[i]
  {
    hide Increasing;
    IncreasingBound(places, |template|);
    PlacesStep(places, i, |template|);
    IncreasingBound(Without(places, i), |template|);
    assert forall k :: 0 <= k < |places| - 1 ==> Without(places, i)[k] == places[if k < i then k else k + 1];
    assert forall k :: 0 <= k < |pending| - 1 ==> Without(pending, i)[k] == pending[if k < i then k else k + 1];
  }

  lemma IncreasingBound(s: seq<nat>, n: nat)
    requires Increasing(s, n)
    ensures forall i :: 0 <= i < |s| ==> s[i] < n
  {
  }

  lemma RecordsAfter(template: seq<Descriptor>, v: Inv, t: Track, i: Option<nat>, e: Event, now: int)
    requires RecordsOk(template, v, t) && i == FirstMatch(v.pending, e.attributes)
    requires i.Some? ==> i.value < |t.places| && t.places[i.value] < |template| && v.pending[i.value] == template[t.places[i.value]]
    requires i.Some? ==> forall p :: p in Without(t.places, i.value) <==> p in t.places && p != t.places[i.value]
    ensures RecordsOk(template, AfterEvent(v, e, now), TrackAfter(t, i, |v.records|))
  {
    hide Matches, Without;
    var v' := AfterEvent(v, e, now);
    var t' := TrackAfter(t, i, |v.records|);
    assert forall r :: 0 <= r < |v.records| ==> v'.records[r] == v.records[r];
    if i.Some? {
      var p0 := t.places[i.value];
      assert p0 in t.places;
      assert Serves(v', template[p0], |v.records|);
      assert t'.records[p0] == |v.records|;
      forall r: nat | r < |v.records| && v'.records[r].isCompletion ensures r in t'.records {
        var p :| 0 <= p < |t.records| && t.records[p] == r;
        assert t'.records[p] == r;
      }
    }
  }

  lemma TrackStep(template: seq<Descriptor>, v: Inv, t: Track, e: Event, now: int)
    requires Tracked(template, v, t)
    ensures Tracked(template, AfterEvent(v, e, now), TrackAfter(t, FirstMatch(v.pending, e.attributes), |v.records|))
  {
    hide Matches, FirstMatch, Increasing, RecordsOk, Without;
    var i := FirstMatch(v.pending, e.attributes);
    if i.Some? {
      TrackedBounds(template, v, t, i.value);
      PlacesAfter(template, v.pending, t.places, i.value);
    }
    RecordsAfter(template, v, t, i, e, now);
  }

  lemma TrackedBounds(template: seq<Descriptor>, v: Inv, t: Track, i: nat)
    requires Tracked(template, v, t) && i < |v.pending|
    ensures i < |t.places| && t.places[i] < |template| && |t.records| == |template| && t.records[t.places[i]] == -1
  {
    assert t.places[i] in t.places;
  }

  function Everyone(n: nat): seq<nat> { seq(n, k requires 0 <= k < n => k) }

  ghost function TrackOf(template: seq<Descriptor>, v: Inv, arrivals: seq<Arrival>): Track {
    if arrivals == [] then Track(Everyone(|template|), seq(|template|, k => -1))
    else
      var n := |arrivals| - 1;
      var w := AfterAll(v, arrivals[..n]);
      TrackAfter(TrackOf(template, v, arrivals[..n]), FirstMatch(w.pending, arrivals[n].event.attributes), |w.records|)
  }

  lemma TrackStart(template: seq<Descriptor>, e: Event)
    ensures Tracked(template, NewInv(template, e), TrackOf(template, NewInv(template, e), []))
  {
    var t := TrackOf(template, NewInv(template, e), []);
    forall p: nat | p < |template| ensures p in t.places { assert t.places[p] == p; }
  }

  lemma {:induction false} AlwaysTracked(template: seq<Descriptor>, e: Event, arrivals: seq<Arrival>)
    ensures var v := NewInv(template, e); Tracked(template, AfterAll(v, arrivals), TrackOf(template, v, arrivals))
  {
    hide Tracked, AfterEvent, TrackAfter, FirstMatch, NewInv;
    if arrivals == [] {
      TrackStart(template, e);
    } else {
      var n := |arrivals| - 1;
      var v := NewInv(template, e);
      AlwaysTracked(template, e, arrivals[..n]);
      TrackStep(template, AfterAll(v, arrivals[..n]), TrackOf(template, v, arrivals[..n]), arrivals[n].event, arrivals[n].now);
    }
  }

  function CompletionRecords(records: seq<Record>): nat {
    if records == [] then 0
    else (if records[|records| - 1].isCompletion then 1 else 0) + CompletionRecords(records[..|records| - 1])
  }

  /** The descriptors that completion events have taken, in order. */
  function Consumed(v: Inv, arrivals: seq<Arrival>): seq<Descriptor> {
    if arrivals == [] then []
    else
      var n := |arrivals| - 1;
      var w := AfterAll(v, arrivals[..n]);
      var i := FirstMatch(w.pending, arrivals[n].event.attributes);
      Consumed(v, arrivals[..n]) + (if i.Some? then [w.pending[i.value]] else [])
  }

  lemma WithoutMultiset<T>(s: seq<T>, i: nat)
    requires i < |s|
    ensures multiset(s) == multiset(Without(s, i)) + multiset{s[i]}
  {
    assert s == s[..i] + [s[i]] + s[i + 1..];
  }

  lemma RecordsGrow(records: seq<Record>, r: Record)
    ensures CompletionRecords(records + [r]) == CompletionRecords(records) + (if r.isCompletion then 1 else 0)
  {
    assert (records + [r])[..|records|] == records;
  }

  /** Awaited and taken descriptors together are the template, and the completion records are as many
      as were taken. */
  lemma {:induction false} TemplateConserved(template: seq<Descriptor>, e: Event, arrivals: seq<Arrival>)
    ensures var v := AfterAll(NewInv(template, e), arrivals);
      var c := Consumed(NewInv(template, e), arrivals);
      && multiset(v.pending) + multiset(c) == multiset(template)
      && |c| == CompletionRecords(v.records) == |template| - |v.pending|
      && |v.records| == |arrivals|
  {
    hide FirstMatch, Matches;
    if arrivals != [] {
      var n := |arrivals| - 1;
      TemplateConserved(template, e, arrivals[..n]);
      var w := AfterAll(NewInv(template, e), arrivals[..n]);
      var i := FirstMatch(w.pending, arrivals[n].event.attributes);
      if i.Some? { WithoutMultiset(w.pending, i.value); }
      RecordsGrow(w.records, Record(arrivals[n].event, arrivals[n].now, i.Some?));
    }
  }

  /** An invocation is completed exactly when something was awaited and nothing is any more. */
  lemma {:induction false} CompletedIff(template: seq<Descriptor>, e: Event, arrivals: seq<Arrival>)
    ensures var v := AfterAll(NewInv(template, e), arrivals);
      v.completed <==> template != [] && v.pending == []
  {
    hide FirstMatch;
    if arrivals != [] {
      CompletedIff(template, e, arrivals[..|arrivals| - 1]);
      TemplateConserved(template, e, arrivals[..|arrivals| - 1]);
    }
  }

  /** A completed invocation stays completed, and its awaited descriptors stay none. */
  lemma {:induction false} CompletedForGood(v: Inv, arrivals: seq<Arrival>)
    requires v.completed && v.pending == []
    ensures AfterAll(v, arrivals).completed && AfterAll(v, arrivals).pending == []
      && AfterAll(v, arrivals).duration == v.duration
  {
    if arrivals != [] { CompletedForGood(v, arrivals[..|arrivals| - 1]); }
  }

  /** A completed invocation has, for each descriptor of the template, a completion record of its own
      that the matchers match, and no other completion record. */
  lemma CompletedMeansMatched(template: seq<Descriptor>, e: Event, arrivals: seq<Arrival>) returns (f: seq<nat>)
    requires AfterAll(NewInv(template, e), arrivals).completed
    ensures var v := AfterAll(NewInv(template, e), arrivals);
      && |f| == |template|
      && (forall p: nat :: p < |f| ==> Serves(v, template[p], f[p]))
      && Sorting.Distinct(f)
      && (forall r: nat :: r < |v.records| && v.records[r].isCompletion ==> r in f)
  {
    hide AfterAll, NewInv, TrackOf, Matches, Increasing;
    var v := AfterAll(NewInv(template, e), arrivals);
    var t := TrackOf(template, NewInv(template, e), arrivals);
    AlwaysTracked(template, e, arrivals);
    CompletedIff(template, e, arrivals);
    assert t.places == [];
    assert forall p: nat :: p < |template| ==> t.records[p] != -1 && Serves(v, template[p], t.records[p]);
    f := seq(|template|, p requires 0 <= p < |template| => t.records[p] as nat);
    forall r: nat | r < |v.records| && v.records[r].isCompletion ensures r in f {
      var p :| 0 <= p < |t.records| && t.records[p] == r;
      assert f[p] == r;
    }
  }

  ghost predicate LongestOf(records: seq<Record>, duration: Option<int>) {
    && (duration.None? <==> forall r :: 0 <= r < |records| ==> !records[r].isCompletion)
    && (duration.Some? ==> exists r :: 0 <= r < |records| && records[r].isCompletion && Lasted(records[r]) == duration.value)
    && (forall r :: 0 <= r < |records| && records[r].isCompletion ==> duration.Some? && Lasted(records[r]) <= duration.value)
  }

  /** The time from the invocation, as the event reports it, to the event's arrival. */
  function Lasted(r: Record): int { r.recordedOn - r.event.invokedOn }

  lemma LongestStep(records: seq<Record>, duration: Option<int>, r: Record)
    requires LongestOf(records, duration)
    ensures LongestOf(records + [r], if r.isCompletion then Some(Longer(duration, Lasted(r))) else duration)
  {
    var rs := records + [r];
    assert forall k :: 0 <= k < |records| ==> rs[k] == records[k];
    assert rs[|records|] == r;
    if duration.Some? {
      var k :| 0 <= k < |records| && records[k].isCompletion && Lasted(records[k]) == duration.value;
      assert rs[k].isCompletion;
    }
  }

  /** The duration is the longest time that any completion event reports. */
  lemma {:induction false} DurationIsLongest(template: seq<Descriptor>, e: Event, arrivals: seq<Arrival>)
    ensures var v := AfterAll(NewInv(template, e), arrivals); LongestOf(v.records, v.duration)
  {
    hide LongestOf, FirstMatch, Longer;
    if arrivals == [] {
      NoRecords();
    } else {
      var n := |arrivals| - 1;
      DurationIsLongest(template, e, arrivals[..n]);
      var w := AfterAll(NewInv(template, e), arrivals[..n]);
      var i := FirstMatch(w.pending, arrivals[n].event.attributes);
      LongestStep(w.records, w.duration, Record(arrivals[n].event, arrivals[n].now, i.Some?));
    }
  }

  lemma NoRecords()
    ensures LongestOf([], None)
  {
  }

  function Attrs(arrivals: seq<Arrival>): seq<Attributes> {
    seq(|arrivals|, k requires 0 <= k < |arrivals| => arrivals[k].event.attributes)
  }

  lemma {:induction false} AwaitedSnoc(pending: seq<Descriptor>, events: seq<Attributes>, a: Attributes)
    ensures Awaited(pending, events + [a]) == Remaining(Awaited(pending, events), a)
    decreases |events|
  {
    hide Remaining;
    var all := events + [a];
    if events == [] {
      assert all[0] == a && all[1..] == [];
    } else {
      assert all[0] == events[0] && all[1..] == events[1..] + [a];
      AwaitedSnoc(Remaining(pending, events[0]), events[1..], a);
    }
  }

  lemma {:induction false} PendingIsAwaited(v: Inv, arrivals: seq<Arrival>)
    ensures AfterAll(v, arrivals).pending == Awaited(v.pending, Attrs(arrivals))
  {
    hide FirstMatch, Awaited;
    if arrivals == [] {
      NothingArrived(v.pending);
    } else {
      var n := |arrivals| - 1;
      PendingIsAwaited(v, arrivals[..n]);
      assert Attrs(arrivals) == Attrs(arrivals[..n]) + [arrivals[n].event.attributes];
      AwaitedSnoc(v.pending, Attrs(arrivals[..n]), arrivals[n].event.attributes);
    }
  }

  lemma NothingArrived(pending: seq<Descriptor>)
    ensures Awaited(pending, Attrs([])) == pending
  {
  }

  /** Every event is recorded, in the order of arrival. */
  lemma {:induction false} EventsRecorded(template: seq<Descriptor>, e: Event, arrivals: seq<Arrival>)
    ensures var v := AfterAll(NewInv(template, e), arrivals);
      && |v.records| == |arrivals|
      && forall r :: 0 <= r < |arrivals| ==> v.records[r].event == arrivals[r].event && v.records[r].recordedOn == arrivals[r].now
  {
    hide FirstMatch;
    if arrivals != [] { EventsRecorded(template, e, arrivals[..|arrivals| - 1]); }
  }

  /** With the specific descriptors first, an invocation is completed exactly when the events that
      arrived include a different matching one for each descriptor. */
  lemma CompletedIffCompletable(template: seq<Descriptor>, e: Event, arrivals: seq<Arrival>)
    requires template != [] && SpecificFirst(template)
    ensures AfterAll(NewInv(template, e), arrivals).completed <==> Completable(template, Attrs(arrivals))
  {
    hide AfterAll, Matches, SpecificFirst, Awaited;
    var v := NewInv(template, e);
    CompletedIff(template, e, arrivals);
    PendingIsAwaited(v, arrivals);
    EventsRecorded(template, e, arrivals);
    if AfterAll(v, arrivals).completed {
      var f := CompletedMeansMatched(template, e, arrivals);
      var w := AfterAll(v, arrivals);
      forall p: nat | p < |f| ensures f[p] < |arrivals| && Matches(template[p], Attrs(arrivals)[f[p]]) {
        assert Serves(w, template[p], f[p]);
      }
      assert Assigns(f, template, Attrs(arrivals));
    }
    if Completable(template, Attrs(arrivals)) { FirstMatchCompletes(template, Attrs(arrivals)); }
  }

  // ----- the documented duration -----

  /** The arrival of the last completion event. */
  function LastArrival(records: seq<Record>): Option<int> {
    if records == [] then None
    else
      var n := |records| - 1;
      if records[n].isCompletion then Some(records[n].recordedOn) else LastArrival(records[..n])
  }

  /** The last of the completion arrivals minus the time of the invocation. */
  function DocumentedDuration(v: Inv): Option<int> {
    match LastArrival(v.records)
    case None => None
    case Some(t) => Some(t - v.invokedOn)
  }

  predicate InOrder(arrivals: seq<Arrival>) {
    forall i, j :: 0 <= i < j < |arrivals| ==> arrivals[i].now < arrivals[j].now
  }

  /** For arrivals in order, the last completion arrival is the greatest one. */
  lemma {:induction false} LastIsGreatest(records: seq<Record>)
    requires forall i, j :: 0 <= i < j < |records| ==> records[i].recordedOn < records[j].recordedOn
    ensures LastArrival(records).None? <==> forall r :: 0 <= r < |records| ==> !records[r].isCompletion
    ensures LastArrival(records).Some? ==>
      && (exists r :: 0 <= r < |records| && records[r].isCompletion && records[r].recordedOn == LastArrival(records).value)
      && (forall r :: 0 <= r < |records| && records[r].isCompletion ==> records[r].recordedOn <= LastArrival(records).value)
  {
    if records != [] {
      var n := |records| - 1;
      LastIsGreatest(records[..n]);
      assert forall r :: 0 <= r < n ==> records[..n][r] == records[r];
      if records[n].isCompletion {
        assert LastArrival(records) == Some(records[n].recordedOn);
      } else if LastArrival(records).Some? {
        var r :| 0 <= r < n && records[..n][r].isCompletion && records[..n][r].recordedOn == LastArrival(records).value;
        assert records[r].isCompletion;
      }
    }
  }

  lemma LastBefore(template: seq<Descriptor>, e: Event, arrivals: seq<Arrival>, now: int)
    requires InOrder(arrivals) && forall i :: 0 <= i < |arrivals| ==> arrivals[i].now < now
    ensures var l := LastArrival(AfterAll(NewInv(template, e), arrivals).records); l.Some? ==> l.value < now
  {
    hide AfterAll;
    EventsRecorded(template, e, arrivals);
    LastIsGreatest(AfterAll(NewInv(template, e), arrivals).records);
  }

  /** One event: if the duration was the documented one, it stays so exactly when the event completes
      nothing or reports the invocation's time. */
  lemma DocumentedStep(v: Inv, e: Event, now: int)
    requires v.duration == DocumentedDuration(v) && (LastArrival(v.records).Some? ==> LastArrival(v.records).value < now)
    ensures var v' := AfterEvent(v, e, now);
      && v'.invokedOn == v.invokedOn && |v'.records| == |v.records| + 1
      && v'.records[..|v.records|] == v.records && v'.records[|v.records|].event == e
      && ((v'.duration == DocumentedDuration(v')) <==> (v'.records[|v.records|].isCompletion ==> e.invokedOn == v.invokedOn))
  {
    hide FirstMatch;
    var v' := AfterEvent(v, e, now);
    assert v'.records[..|v.records|] == v.records;
  }

  /** After none of the events, after the first, after the first two and so on. */
  ghost predicate AlwaysDocumented(v: Inv, arrivals: seq<Arrival>) {
    && AfterAll(v, arrivals).duration == DocumentedDuration(AfterAll(v, arrivals))
    && (arrivals == [] || AlwaysDocumented(v, arrivals[..|arrivals| - 1]))
  }

  lemma {:induction false} DocumentedAfter(v: Inv, arrivals: seq<Arrival>, k: nat)
    requires AlwaysDocumented(v, arrivals) && k <= |arrivals|
    ensures AfterAll(v, arrivals[..k]).duration == DocumentedDuration(AfterAll(v, arrivals[..k]))
    decreases |arrivals|
  {
    hide AfterAll, DocumentedDuration;
    if k == |arrivals| {
      assert arrivals[..k] == arrivals;
    } else {
      DocumentedAfter(v, arrivals[..|arrivals| - 1], k);
      assert arrivals[..|arrivals| - 1][..k] == arrivals[..k];
    }
  }

  ghost predicate ReportsInvocation(v: Inv) {
    forall r :: 0 <= r < |v.records| && v.records[r].isCompletion ==> v.records[r].event.invokedOn == v.invokedOn
  }

  /** For arrivals in order: after every event the duration is the last completion arrival minus the
      invocation's own time, exactly when every completion event reports that time. */
  lemma {:induction false} DocumentedIff(template: seq<Descriptor>, e: Event, arrivals: seq<Arrival>)
    requires InOrder(arrivals)
    ensures var v := NewInv(template, e);
      AlwaysDocumented(v, arrivals) <==> ReportsInvocation(AfterAll(v, arrivals))
  {
    hide FirstMatch, AfterEvent, DocumentedDuration;
    var v := NewInv(template, e);
    if arrivals == [] {
      NothingDocumented(template, e);
    } else {
      var n := |arrivals| - 1;
      var w, a := AfterAll(v, arrivals[..n]), arrivals[n];
      DocumentedIff(template, e, arrivals[..n]);
      RecordsKept(w, a.event, a.now);
      if AlwaysDocumented(v, arrivals[..n]) {
        LastBefore(template, e, arrivals[..n], a.now);
        DocumentedStep(w, a.event, a.now);
      }
    }
  }

  lemma RecordsKept(v: Inv, e: Event, now: int)
    ensures var v' := AfterEvent(v, e, now);
      && v'.invokedOn == v.invokedOn && |v'.records| == |v.records| + 1
      && forall r :: 0 <= r < |v.records| ==> v'.records[r] == v.records[r]
  {
  }

  lemma NothingDocumented(template: seq<Descriptor>, e: Event)
    ensures AlwaysDocumented(NewInv(template, e), [])
  {
  }

  /** A concrete invocation, completed by an event that reports 10 and arrives at 20 and one that
      reports 0 and arrives at 21: the duration is 21, the documented one 11. */
  lemma DurationIsNotDocumented()
    ensures var d := Descriptor(map[]);
      var first, second := Event("w", "i", 10, map[]), Event("w", "i", 0, map[]);
      var v := AfterAll(NewInv([d, d], first), [Arrival(first, 20), Arrival(second, 21)]);
      v.completed && v.invokedOn == 10 && v.duration == Some(21) && DocumentedDuration(v) == Some(11)
  {
    var d := Descriptor(map[]);
    var first, second := Event("w", "i", 10, map[]), Event("w", "i", 0, map[]);
    var a, b := Arrival(first, 20), Arrival(second, 21);
    assert [a, b][..1] == [a] && [a][..0] == [];
    var v0 := NewInv([d, d], first);
    FirstMatchIs([d, d], map[], 0);
    FirstMatchIs([d], map[], 0);
    assert Without([d, d], 0) == [d] && Without([d], 0) == [];
    assert AfterAll(v0, [a]) == AfterEvent(v0, first, 20);
  }

  /** In any order of arrival: if all events report the invocation's time, the duration is the greatest
      completion arrival minus that time. */
  lemma DurationFromGreatestArrival(template: seq<Descriptor>, e: Event, arrivals: seq<Arrival>)
    requires forall i :: 0 <= i < |arrivals| ==> arrivals[i].event.invokedOn == e.invokedOn
    ensures var v := AfterAll(NewInv(template, e), arrivals);
      && v.invokedOn == e.invokedOn
      && (v.duration.Some? ==>
            && (exists r :: 0 <= r < |v.records| && v.records[r].isCompletion && v.records[r].recordedOn == v.duration.value + v.invokedOn)
            && (forall r :: 0 <= r < |v.records| && v.records[r].isCompletion ==> v.records[r].recordedOn <= v.duration.value + v.invokedOn))
  {
    hide AfterAll, NewInv;
    DurationIsLongest(template, e, arrivals);
    EventsRecorded(template, e, arrivals);
    InvokedOnStays(template, e, arrivals);
  }

  lemma {:induction false} InvokedOnStays(template: seq<Descriptor>, e: Event, arrivals: seq<Arrival>)
    ensures AfterAll(NewInv(template, e), arrivals).invokedOn == e.invokedOn
  {
    hide FirstMatch;
    if arrivals != [] { InvokedOnStays(template, e, arrivals[..|arrivals| - 1]); }
  }

  // ----- the invocations of a workflow -----

  /** A workflow as a value. */
  datatype Flow = Flow(template: seq<Descriptor>, invocations: map<string, Inv>)

  function AfterRegister(w: Flow, e: Event, now: int): Flow {
    var v := if e.invocationId in w.invocations then w.invocations[e.invocationId] else NewInv(w.template, e);
    w.(invocations := w.invocations[e.invocationId := AfterEvent(v, e, now)])
  }

  /** Registering an event of an unknown invocation is registering the invocation and then the event. */
  lemma RegisterInTwo(w: Flow, w': Flow, e: Event, now: int)
    requires w' == if e.invocationId in w.invocations then w else w.(invocations := w.invocations[e.invocationId := NewInv(w.template, e)])
    ensures AfterRegister(w, e, now)
      == w'.(invocations := w'.invocations[e.invocationId := AfterEvent(w'.invocations[e.invocationId], e, now)])
  {
    hide NewInv, AfterEvent;
    assert w.invocations[e.invocationId := NewInv(w.template, e)][e.invocationId := AfterEvent(NewInv(w.template, e), e, now)]
      == w.invocations[e.invocationId := AfterEvent(NewInv(w.template, e), e, now)];
  }

  function AfterRegistered(w: Flow, arrivals: seq<Arrival>): Flow {
    if arrivals == [] then w
    else
      var n := |arrivals| - 1;
      AfterRegister(AfterRegistered(w, arrivals[..n]), arrivals[n].event, arrivals[n].now)
  }

  /** The events of one invocation. */
  function Own(arrivals: seq<Arrival>, id: string): seq<Arrival> {
    if arrivals == [] then []
    else
      var n := |arrivals| - 1;
      Own(arrivals[..n], id) + (if arrivals[n].event.invocationId == id then [arrivals[n]] else [])
  }

  lemma AfterAllSnoc(v: Inv, arrivals: seq<Arrival>, a: Arrival)
    ensures AfterAll(v, arrivals + [a]) == AfterEvent(AfterAll(v, arrivals), a.event, a.now)
  {
    assert (arrivals + [a])[..|arrivals|] == arrivals;
  }

  /** Invocations do not disturb each other: each one is what its own events alone make of it, and the
      template stays. */
  lemma {:induction false} InvocationsApart(template: seq<Descriptor>, arrivals: seq<Arrival>, id: string)
    ensures var w := AfterRegistered(Flow(template, map[]), arrivals);
      var own := Own(arrivals, id);
      && w.template == template
      && (id in w.invocations <==> own != [])
      && (own != [] ==> w.invocations[id] == AfterAll(NewInv(template, own[0].event), own))
      && (own != [] ==> w.invocations[id].id == id && w.invocations[id].invokedOn == own[0].event.invokedOn)
  {
    hide AfterEvent, NewInv, AfterRegister, AfterAll;
    if Own(arrivals, id) != [] {
      OwnIsOwn(arrivals, id);
      NewInvIs(template, Own(arrivals, id)[0].event);
      NameStays(NewInv(template, Own(arrivals, id)[0].event), Own(arrivals, id));
    }
    if arrivals != [] {
      var n := |arrivals| - 1;
      var own := Own(arrivals[..n], id);
      InvocationsApart(template, arrivals[..n], id);
      RegisterApart(AfterRegistered(Flow(template, map[]), arrivals[..n]), arrivals[n].event, arrivals[n].now, id);
      if arrivals[n].event.invocationId == id {
        var first := (own + [arrivals[n]])[0].event;
        AfterAllSnoc(NewInv(template, first), own, arrivals[n]);
        if own == [] { NothingYet(NewInv(template, first)); }
      } else {
        assert Own(arrivals, id) == own;
      }
    }
  }

  lemma NewInvIs(template: seq<Descriptor>, e: Event)
    ensures NewInv(template, e).id == e.invocationId && NewInv(template, e).invokedOn == e.invokedOn
  {
  }

  lemma {:induction false} NameStays(v: Inv, arrivals: seq<Arrival>)
    ensures AfterAll(v, arrivals).id == v.id && AfterAll(v, arrivals).invokedOn == v.invokedOn
  {
    if arrivals != [] { NameStays(v, arrivals[..|arrivals| - 1]); }
  }

  lemma {:induction false} OwnIsOwn(arrivals: seq<Arrival>, id: string)
    ensures forall k :: 0 <= k < |Own(arrivals, id)| ==> Own(arrivals, id)[k].event.invocationId == id
  {
    if arrivals != [] { OwnIsOwn(arrivals[..|arrivals| - 1], id); }
  }

  lemma NothingYet(v: Inv)
    ensures AfterAll(v, []) == v
  {
  }

  lemma RegisterApart(w: Flow, e: Event, now: int, id: string)
    ensures var w' := AfterRegister(w, e, now);
      && w'.template == w.template
      && (e.invocationId != id ==> (id in w'.invocations <==> id in w.invocations))
      && (e.invocationId != id && id in w.invocations ==> w'.invocations[id] == w.invocations[id])
      && (e.invocationId == id ==> id in w'.invocations)
      && (e.invocationId == id ==>
            w'.invocations[id] == AfterEvent(if id in w.invocations then w.invocations[id] else NewInv(w.template, e), e, now))
  {
    hide AfterEvent, NewInv;
  }
}
