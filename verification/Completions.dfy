/** Which of the awaited events an event completes, and whether all of them can be completed. */
module Completions {
  import opened Options
  import opened Sorting

  type Attributes = map<string, string>

  datatype Descriptor = Descriptor(attrMatchers: Attributes)

  /** All the entries match. */
  predicate Matches(d: Descriptor, a: Attributes) {
    forall k :: k in d.attrMatchers ==> k in a && a[k] == d.attrMatchers[k]
  }

  /** The first awaited event that the given one completes. */
  function FirstMatch(pending: seq<Descriptor>, a: Attributes): (r: Option<nat>)
    ensures r.Some? ==> r.value < |pending| && Matches(pending[r.value], a)
    ensures forall i :: 0 <= i < (if r.Some? then r.value else |pending|) ==> !Matches(pending[i], a)
  {
    if pending == [] then None
    else if Matches(pending[0], a) then Some(0)
    else
      match FirstMatch(pending[1..], a)
      case None => None
      case Some(i) => Some(i + 1)
  }

  lemma FirstMatchIs(pending: seq<Descriptor>, a: Attributes, i: nat)
    requires i < |pending| && Matches(pending[i], a) && forall j :: 0 <= j < i ==> !Matches(pending[j], a)
    ensures FirstMatch(pending, a) == Some(i)
  {
  }

  function Without<T>(s: seq<T>, i: nat): (r: seq<T>)
    requires i < |s|
    ensures |r| == |s| - 1
  {
    s[..i] + s[i + 1..]
  }

  lemma WithoutIs<T>(s: seq<T>, i: nat, w: seq<T>)
    requires i < |s| && |w| == |s| - 1 && forall j :: 0 <= j < |w| ==> w[j] == s[if j < i then j else j + 1]
    ensures w == Without(s, i)
  {
  }

  /** The events still awaited after one event. */
  function Remaining(pending: seq<Descriptor>, a: Attributes): seq<Descriptor> {
    var r := FirstMatch(pending, a);
    if r.Some? then Without(pending, r.value) else pending
  }

  /** The events still awaited after several. */
  function Awaited(pending: seq<Descriptor>, events: seq<Attributes>): seq<Descriptor> {
    if events == [] then pending else Awaited(Remaining(pending, events[0]), events[1..])
  }

  // ----- when all awaited events are found -----

  /** A different event for each descriptor. */
  ghost predicate Assigns(f: seq<nat>, pending: seq<Descriptor>, events: seq<Attributes>) {
    && |f| == |pending|
    && (forall i :: 0 <= i < |f| ==> f[i] < |events| && Matches(pending[i], events[f[i]]))
    && Distinct(f)
  }

  /** Some assignment of different events to all descriptors exists. */
  ghost predicate Completable(pending: seq<Descriptor>, events: seq<Attributes>) {
    exists f :: Assigns(f, pending, events)
  }

  predicate Compatible(d: Descriptor, e: Descriptor) {
    forall k :: k in d.attrMatchers && k in e.attrMatchers ==> d.attrMatchers[k] == e.attrMatchers[k]
  }

  /** Every event that completes `d` completes `e`. */
  predicate Implies(d: Descriptor, e: Descriptor) { Matches(e, d.attrMatchers) }

  /** Of two descriptors that one event can match, the later one matches every event that the earlier
      one does. */
  predicate SpecificFirst(pending: seq<Descriptor>) {
    forall i, j :: 0 <= i < j < |pending| && Compatible(pending[i], pending[j]) ==> Implies(pending[i], pending[j])
  }

  lemma ImpliesMatches(d: Descriptor, e: Descriptor, a: Attributes)
    requires Implies(d, e) && Matches(d, a)
    ensures Matches(e, a)
  {
  }

  lemma BothMatch(d: Descriptor, e: Descriptor, a: Attributes)
    requires Matches(d, a) && Matches(e, a)
    ensures Compatible(d, e)
  {
  }

  lemma SpecificWithout(pending: seq<Descriptor>, i: nat)
    requires SpecificFirst(pending) && i < |pending|
    ensures SpecificFirst(Without(pending, i))
  {
    hide Compatible, Implies;
    var r := Without(pending, i);
    forall a, b | 0 <= a < b < |r| && Compatible(r[a], r[b]) ensures Implies(r[a], r[b]) {
      var a', b' := if a < i then a else a + 1, if b < i then b else b + 1;
      assert r[a] == pending[a'] && r[b] == pending[b'];
    }
  }

  /** The assignment with the first match given the first event, which may cost another descriptor that
      event: it takes over what the first match had. */
  ghost function Exchanged(f: seq<nat>, i: nat): seq<nat>
    requires i < |f|
  {
    seq(|f|, k requires 0 <= k < |f| => if k == i then 0 else if f[k] == 0 then f[i] else f[k])
  }

  lemma ExchangeDistinct(f: seq<nat>, i: nat)
    requires i < |f| && Distinct(f)
    ensures |Exchanged(f, i)| == |f| && Distinct(Exchanged(f, i))
  {
  }

  /** What the first match had serves the descriptor that lost the first event. */
  lemma TakesOver(pending: seq<Descriptor>, i: nat, k: nat, a: Attributes, b: Attributes)
    requires SpecificFirst(pending) && k < |pending| && i != k
    requires FirstMatch(pending, a) == Some(i) && Matches(pending[k], a) && Matches(pending[i], b)
    ensures Matches(pending[k], b)
  {
    hide Matches, Compatible, Implies;
    BothMatch(pending[i], pending[k], a);
    ImpliesMatches(pending[i], pending[k], b);
  }

  lemma ExchangeAssigns(f: seq<nat>, pending: seq<Descriptor>, events: seq<Attributes>, i: nat)
    requires Assigns(f, pending, events) && SpecificFirst(pending) && events != []
    requires FirstMatch(pending, events[0]) == Some(i)
    ensures i < |f| && Assigns(Exchanged(f, i), pending, events) && Exchanged(f, i)[i] == 0
  {
    hide Matches, SpecificFirst;
    var g := Exchanged(f, i);
    assert Distinct(f);
    ExchangeDistinct(f, i);
    forall k: nat | k < |g| ensures g[k] < |events| && Matches(pending[k], events[g[k]]) {
      if k != i && f[k] == 0 { TakesOver(pending, i, k, events[0], events[f[i]]); }
    }
  }

  /** The assignment of the rest, once the first event is used up. */
  lemma RestAssigned(f: seq<nat>, pending: seq<Descriptor>, events: seq<Attributes>, i: nat)
    requires Assigns(f, pending, events) && i < |f| && f[i] == 0 && events != []
    ensures Completable(Without(pending, i), events[1..])
  {
    var w := Without(f, i);
    assert forall k :: 0 <= k < |w| ==> w[k] == f[if k < i then k else k + 1] > 0;
    var g := seq(|w|, k requires 0 <= k < |w| => (w[k] - 1) as nat);
    assert forall k :: 0 <= k < |w| ==> Without(pending, i)[k] == pending[if k < i then k else k + 1];
    assert Assigns(g, Without(pending, i), events[1..]);
  }

  lemma NotAssigned(f: seq<nat>, pending: seq<Descriptor>, events: seq<Attributes>)
    requires Assigns(f, pending, events) && events != [] && FirstMatch(pending, events[0]) == None
    ensures Completable(pending, events[1..])
  {
    assert forall k :: 0 <= k < |f| ==> f[k] != 0;
    var g := seq(|f|, k requires 0 <= k < |f| => (f[k] - 1) as nat);
    assert Assigns(g, pending, events[1..]);
  }

  lemma EventsForAll(f: seq<nat>, pending: seq<Descriptor>, events: seq<Attributes>)
    requires Assigns(f, pending, events)
    ensures pending != [] ==> events != []
  {
    assert |f| > 0 ==> f[0] < |events|;
  }

  /** With the specific descriptors first, giving every event to the first descriptor that it matches
      completes whatever can be completed. */
  lemma {:induction false} FirstMatchCompletes(pending: seq<Descriptor>, events: seq<Attributes>)
    requires SpecificFirst(pending) && Completable(pending, events)
    ensures Awaited(pending, events) == []
    decreases |events|
  {
    var f :| Assigns(f, pending, events);
    if events != [] {
      match FirstMatch(pending, events[0])
      case None =>
        NotAssigned(f, pending, events);
        FirstMatchCompletes(pending, events[1..]);
      case Some(i) =>
        ExchangeAssigns(f, pending, events, i);
        RestAssigned(Exchanged(f, i), pending, events, i);
        SpecificWithout(pending, i);
        FirstMatchCompletes(Without(pending, i), events[1..]);
    } else {
      EventsForAll(f, pending, events);
    }
  }

  // ----- and when they may not be -----

  /** The attributes that every event has. */
  predicate WellFormed(a: Attributes) { "id" in a && "source" in a && "type" in a }

  predicate AllWellFormed(events: seq<Attributes>) {
    forall i :: 0 <= i < |events| ==> WellFormed(events[i])
  }

  /** The event that has the given attributes and otherwise nothing that is looked for. */
  function Fill(a: Attributes, unused: string): Attributes {
    map["id" := unused, "source" := unused, "type" := unused] + a
  }

  predicate Unused(pending: seq<Descriptor>, s: string) {
    forall i, k :: 0 <= i < |pending| && k in pending[i].attrMatchers ==> pending[i].attrMatchers[k] != s
  }

  lemma FillMatches(pending: seq<Descriptor>, i: nat, a: Attributes, unused: string)
    requires i < |pending| && Unused(pending, unused)
    ensures Matches(pending[i], Fill(a, unused)) <==> Matches(pending[i], a)
    ensures WellFormed(Fill(a, unused))
  {
  }

  lemma LongerExists(s: set<string>) returns (t: string)
    ensures forall x :: x in s ==> |x| < |t|
  {
    if s == {} {
      t := "";
    } else {
      var x :| x in s;
      var r := LongerExists(s - {x});
      t := r + x + "x";
      assert forall y :: y in s ==> y == x || y in s - {x};
    }
  }

  lemma UnusedExists(pending: seq<Descriptor>) returns (s: string)
    ensures Unused(pending, s)
  {
    s := LongerExists(set i, k | 0 <= i < |pending| && k in pending[i].attrMatchers :: pending[i].attrMatchers[k]);
  }

  /** How many descriptors an event of descriptor `d` alone would have to leave to others, and how many
      events can complete `d`. */
  ghost function Stricter(pending: seq<Descriptor>, d: Descriptor): nat {
    if pending == [] then 0 else (if Implies(pending[0], d) then 1 else 0) + Stricter(pending[1..], d)
  }

  ghost function Completing(events: seq<Attributes>, d: Descriptor): nat {
    if events == [] then 0 else (if Matches(d, events[0]) then 1 else 0) + Completing(events[1..], d)
  }

  lemma {:induction false} StricterWithout(pending: seq<Descriptor>, i: nat, d: Descriptor)
    requires i < |pending|
    ensures Stricter(Without(pending, i), d) == Stricter(pending, d) - (if Implies(pending[i], d) then 1 else 0)
  {
    hide Implies;
    var w := Without(pending, i);
    if i == 0 {
      assert w == pending[1..];
    } else {
      assert w[0] == pending[0] && w[1..] == Without(pending[1..], i - 1);
      StricterWithout(pending[1..], i - 1, d);
    }
  }

  /** With more descriptors as strict as `d` than events that can complete it, something stays
      awaited. */
  lemma {:induction false} TooFew(pending: seq<Descriptor>, events: seq<Attributes>, d: Descriptor)
    requires Stricter(pending, d) > Completing(events, d)
    ensures Awaited(pending, events) != []
    decreases |events|
  {
    if events != [] {
      var r := FirstMatch(pending, events[0]);
      if r.Some? {
        StricterWithout(pending, r.value, d);
        if Implies(pending[r.value], d) { ImpliesMatches(pending[r.value], d, events[0]); }
      }
      TooFew(Remaining(pending, events[0]), events[1..], d);
    }
  }

  /** One event for each descriptor, but the first of the two gets the event that both match, and the
      second one the event of the first. */
  ghost function Crossed(pending: seq<Descriptor>, i: nat, j: nat, unused: string): seq<Attributes>
    requires i < j < |pending|
  {
    seq(|pending|, k requires 0 <= k < |pending| =>
      if k == i then Fill(pending[i].attrMatchers + pending[j].attrMatchers, unused)
      else if k == j then Fill(pending[i].attrMatchers, unused)
      else Fill(pending[k].attrMatchers, unused))
  }

  lemma SelfMatches(d: Descriptor, e: Descriptor)
    ensures Matches(d, d.attrMatchers) && Matches(e, d.attrMatchers + e.attrMatchers)
    ensures Compatible(d, e) ==> Matches(d, d.attrMatchers + e.attrMatchers)
  {
  }

  lemma CrossedCompletable(pending: seq<Descriptor>, i: nat, j: nat, unused: string)
    requires i < j < |pending| && Unused(pending, unused)
    ensures Completable(pending, Crossed(pending, i, j, unused)) && AllWellFormed(Crossed(pending, i, j, unused))
  {
    hide Matches, Fill, Unused;
    var events := Crossed(pending, i, j, unused);
    var f: seq<nat> := seq(|pending|, k requires 0 <= k < |pending| => if k == i then j else if k == j then i else k);
    forall k: nat | k < |pending| ensures Matches(pending[k], events[f[k]]) && WellFormed(events[k]) {
      SelfMatches(pending[k], pending[k]);
      SelfMatches(pending[i], pending[j]);
      FillMatches(pending, k, pending[k].attrMatchers, unused);
      FillMatches(pending, j, pending[i].attrMatchers + pending[j].attrMatchers, unused);
      FillMatches(pending, i, pending[i].attrMatchers, unused);
    }
    assert Assigns(f, pending, events);
  }

  /** Until the first of the two, every event completes the first descriptor. */
  lemma {:induction false} CrossedPrefix(pending: seq<Descriptor>, i: nat, j: nat, unused: string, k: nat)
    requires i < j < |pending| && Unused(pending, unused) && Compatible(pending[i], pending[j]) && k <= i + 1
    ensures var events := Crossed(pending, i, j, unused);
      Awaited(pending[k..], events[k..]) == Awaited(pending[i + 1..], events[i + 1..])
    decreases i + 1 - k
  {
    hide Matches, Fill, Unused;
    var events := Crossed(pending, i, j, unused);
    if k <= i {
      SelfMatches(pending[k], pending[j]);
      FillMatches(pending, k, pending[k].attrMatchers, unused);
      FillMatches(pending, k, pending[k].attrMatchers + pending[j].attrMatchers, unused);
      assert Matches(pending[k..][0], events[k..][0]);
      FirstMatchIs(pending[k..], events[k..][0], 0);
      assert Without(pending[k..], 0) == pending[k + 1..] && events[k..][1..] == events[k + 1..];
      CrossedPrefix(pending, i, j, unused, k + 1);
    }
  }

  lemma {:induction false} CrossedCounts(pending: seq<Descriptor>, i: nat, j: nat, unused: string, k: nat)
    requires i < j < |pending| && Unused(pending, unused) && !Implies(pending[i], pending[j]) && i < k <= |pending|
    ensures Completing(Crossed(pending, i, j, unused)[k..], pending[j]) + (if k <= j then 1 else 0) == Stricter(pending[k..], pending[j])
    decreases |pending| - k
  {
    hide Matches, Fill, Unused;
    var events := Crossed(pending, i, j, unused);
    if k < |pending| {
      assert events[k..][1..] == events[k + 1..] && pending[k..][1..] == pending[k + 1..];
      SelfMatches(pending[j], pending[j]);
      FillMatches(pending, j, pending[k].attrMatchers, unused);
      FillMatches(pending, j, pending[i].attrMatchers, unused);
      CrossedCounts(pending, i, j, unused, k + 1);
    }
  }

  /** Giving every event to the first descriptor that it matches completes whatever can be completed
      exactly when the specific descriptors come first. */
  lemma FirstMatchCompletesIff(pending: seq<Descriptor>)
    ensures SpecificFirst(pending)
      <==> forall events :: AllWellFormed(events) && Completable(pending, events) ==> Awaited(pending, events) == []
  {
    hide Completable, Awaited, AllWellFormed, Compatible, Implies, Crossed, Stricter, Completing;
    if SpecificFirst(pending) {
      forall events | Completable(pending, events) ensures Awaited(pending, events) == [] { FirstMatchCompletes(pending, events); }
    } else {
      var i: nat, j: nat :| i < j < |pending| && Compatible(pending[i], pending[j]) && !Implies(pending[i], pending[j]);
      var unused := UnusedExists(pending);
      var events := Crossed(pending, i, j, unused);
      CrossedCompletable(pending, i, j, unused);
      CrossedPrefix(pending, i, j, unused, 0);
      CrossedLength(pending, i, j, unused);
      CrossedCounts(pending, i, j, unused, i + 1);
      TooFew(pending[i + 1..], events[i + 1..], pending[j]);
      assert pending[0..] == pending && events[0..] == events;
    }
  }

  lemma CrossedLength(pending: seq<Descriptor>, i: nat, j: nat, unused: string)
    requires i < j < |pending|
    ensures |Crossed(pending, i, j, unused)| == |pending|
  {
  }
}
