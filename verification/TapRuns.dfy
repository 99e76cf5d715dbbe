/** Any number of AddTap calls for different new names, interleaved one atomic increment at a time. */
module TapRuns {
  import opened Options
  import Sorting
  import opened Taps

  datatype Caller =
    | At(bridge: nat)      // before the increment of this bridge's counter
    | Got(slot: Slot)
    | NoSpace

  /** The counters, every call, and the slots given in order. */
  datatype State = State(counts: seq<nat>, callers: map<nat, Caller>, given: seq<Slot>)

  function Init(): State { State([0, 0], map[], []) }

  datatype Action = Call(t: nat) | Act(t: nat)

  /** One increment of the bridge's counter, and what its result means. */
  function Increment(s: State, t: nat, b: nat): State
    requires b < |s.counts|
  {
    var n := s.counts[b];
    var counted := s.(counts := s.counts[b := n + 1]);
    if n < TAPS_PER_BRIDGE then counted.(callers := s.callers[t := Got(Slot(b, n))], given := s.given + [Slot(b, n)])
    else counted.(callers := s.callers[t := At(b + 1)])
  }

  function Next(s: State, a: Action): Option<State>
    requires |s.counts| == NUM_BRIDGES
  {
    match a
    case Call(t) => if t in s.callers then None else Some(s.(callers := s.callers[t := At(0)]))
    case Act(t) =>
      if t !in s.callers || !s.callers[t].At? then None
      else if s.callers[t].bridge >= NUM_BRIDGES then Some(s.(callers := s.callers[t := NoSpace]))
      else Some(Increment(s, t, s.callers[t].bridge))
  }

  function Run(actions: seq<Action>): (s: Option<State>)
    ensures s.Some? ==> |s.value.counts| == NUM_BRIDGES
  {
    if actions == [] then Some(Init())
    else
      match Run(actions[..|actions| - 1])
      case None => None
      case Some(s) => Next(s, actions[|actions| - 1])
  }

  function Taken(n: nat): nat { if n < TAPS_PER_BRIDGE then n else TAPS_PER_BRIDGE }

  /** Exactly the slots below the counter, and below the limit, are given, each of them once. */
  ghost predicate GivenOk(s: State)
    requires |s.counts| == NUM_BRIDGES
  {
    && (forall x: Slot :: multiset(s.given)[x] == if x.bridge < NUM_BRIDGES && x.index < Taken(s.counts[x.bridge]) then 1 else 0)
    && |s.given| == Taken(s.counts[0]) + Taken(s.counts[1])
  }

  ghost predicate Full(s: State, upTo: nat)
    requires |s.counts| == NUM_BRIDGES
  {
    forall b: nat :: b < upTo && b < NUM_BRIDGES ==> s.counts[b] >= TAPS_PER_BRIDGE
  }

  ghost predicate CallerOk(s: State, c: Caller)
    requires |s.counts| == NUM_BRIDGES
  {
    match c
    case At(b) => Full(s, b)
    case NoSpace => Full(s, NUM_BRIDGES)
    case Got(slot) => slot in s.given
  }

  ghost predicate Inv(s: State) {
    && |s.counts| == NUM_BRIDGES
    && GivenOk(s)
    && (forall t :: t in s.callers ==> CallerOk(s, s.callers[t]))
    && (forall t, u :: t in s.callers && u in s.callers && t != u && s.callers[t].Got? && s.callers[u].Got? ==>
          s.callers[t].slot != s.callers[u].slot)
  }

  lemma GivenStep(s: State, t: nat, b: nat)
    requires |s.counts| == NUM_BRIDGES && GivenOk(s) && b < NUM_BRIDGES
    ensures GivenOk(Increment(s, t, b))
  {
    var s' := Increment(s, t, b);
    var n := s.counts[b];
    forall x: Slot
      ensures multiset(s'.given)[x] == if x.bridge < NUM_BRIDGES && x.index < Taken(s'.counts[x.bridge]) then 1 else 0
    {
      if n < TAPS_PER_BRIDGE {
        assert multiset(s'.given) == multiset(s.given) + multiset{Slot(b, n)};
      }
    }
  }

  lemma CallersStep(s: State, t: nat, b: nat, c: Caller)
    requires |s.counts| == NUM_BRIDGES && b < NUM_BRIDGES && CallerOk(s, c)
    ensures CallerOk(Increment(s, t, b), c)
  {
  }

  lemma SelfStep(s: State, t: nat, b: nat)
    requires Inv(s) && b < NUM_BRIDGES && t in s.callers && s.callers[t] == At(b)
    ensures CallerOk(Increment(s, t, b), Increment(s, t, b).callers[t])
  {
    hide GivenOk;
  }

  lemma NewSlot(s: State, b: nat)
    requires |s.counts| == NUM_BRIDGES && GivenOk(s) && b < NUM_BRIDGES
    ensures Slot(b, s.counts[b]) !in s.given
  {
    assert multiset(s.given)[Slot(b, s.counts[b])] == 0;
  }

  lemma IncrementKeeps(s: State, t: nat, b: nat)
    requires Inv(s) && b < NUM_BRIDGES && t in s.callers && s.callers[t] == At(b)
    ensures Inv(Increment(s, t, b))
  {
    hide GivenOk, CallerOk;
    GivenStep(s, t, b);
    SelfStep(s, t, b);
    NewSlot(s, b);
    forall u | u in s.callers && u != t
      ensures CallerOk(Increment(s, t, b), s.callers[u])
      ensures s.callers[u].Got? ==> s.callers[u].slot in s.given
    {
      CallersStep(s, t, b, s.callers[u]);
      GotGiven(s, s.callers[u]);
    }
  }

  lemma GotGiven(s: State, c: Caller)
    requires |s.counts| == NUM_BRIDGES && CallerOk(s, c)
    ensures c.Got? ==> c.slot in s.given
  {
  }

  lemma {:induction false} Kept(actions: seq<Action>)
    requires Run(actions).Some?
    ensures Inv(Run(actions).value)
  {
    hide Increment;
    var n := |actions| - 1;
    if actions != [] {
      Kept(actions[..n]);
      var s := Run(actions[..n]).value;
      var a := actions[n];
      if a.Act? && s.callers[a.t].bridge < NUM_BRIDGES {
        IncrementKeeps(s, a.t, s.callers[a.t].bridge);
      }
    }
  }

  /** In every interleaving: no slot is given twice, every slot given exists, there are at most 2000,
      and a call fails only when all of them have been given. */
  lemma SlotsGivenOnce(actions: seq<Action>)
    requires Run(actions).Some?
    ensures var s := Run(actions).value;
      && Sorting.Distinct(s.given)
      && (forall i :: 0 <= i < |s.given| ==> Valid(s.given[i]))
      && |s.given| <= 2000
      && (forall t :: t in s.callers && s.callers[t].NoSpace? ==> |s.given| == 2000)
      && (forall t, u :: t in s.callers && u in s.callers && t != u && s.callers[t].Got? && s.callers[u].Got? ==>
            s.callers[t].slot != s.callers[u].slot)
  {
    hide Run;
    Kept(actions);
    var s := Run(actions).value;
    forall t | t in s.callers && s.callers[t].NoSpace? ensures |s.given| == 2000 {
      assert CallerOk(s, s.callers[t]);
      assert s.counts[0] >= TAPS_PER_BRIDGE && s.counts[1] >= TAPS_PER_BRIDGE;
    }
    forall i | 0 <= i < |s.given| ensures Valid(s.given[i]) { assert multiset(s.given)[s.given[i]] >= 1; }
    Sorting.CountsDistinct(s.given);
  }
}
