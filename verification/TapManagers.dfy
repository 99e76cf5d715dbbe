/** The tap manager: who gets which slot, and which interfaces exist. */
module TapManagers {
  import opened Options
  import opened Taps

  /** The taps given per bridge, counting refused ones, and the interface of every tap name. */
  datatype TapState = TapState(counts: seq<nat>, created: map<string, NetworkInterface>)

  /** Whether making or reconnecting the link succeeds, and whether the packet filter can be set up. */
  datatype Env = Env(linkOk: bool, iptablesOk: bool)

  datatype AddResult = AddResult(ni: Option<NetworkInterface>, err: bool)

  datatype Claimed = Claimed(counts: seq<nat>, slot: Option<Slot>)

  /** The bridges are tried in order, each attempt counts. */
  function Claim(counts: seq<nat>, i: nat): Claimed
    requires |counts| == NUM_BRIDGES
    decreases NUM_BRIDGES - i
  {
    if i >= NUM_BRIDGES then Claimed(counts, None)
    else if counts[i] < TAPS_PER_BRIDGE then Claimed(counts[i := counts[i] + 1], Some(Slot(i, counts[i])))
    else Claim(counts[i := counts[i] + 1], i + 1)
  }

  datatype Added = Added(taps: TapState, result: AddResult)

  lemma {:induction false} ClaimValid(counts: seq<nat>, i: nat)
    requires |counts| == NUM_BRIDGES
    ensures var c := Claim(counts, i);
      && |c.counts| == NUM_BRIDGES
      && (forall b :: 0 <= b < NUM_BRIDGES ==> counts[b] <= c.counts[b])
      && (c.slot.Some? ==> Valid(c.slot.value) && i <= c.slot.value.bridge)
      && (c.slot.Some? ==> c.slot.value.index == counts[c.slot.value.bridge] && c.slot.value.index < c.counts[c.slot.value.bridge])
      && (c.slot.None? <==> forall b :: i <= b < NUM_BRIDGES ==> counts[b] >= TAPS_PER_BRIDGE)
    decreases NUM_BRIDGES - i
  {
    if i < NUM_BRIDGES && counts[i] >= TAPS_PER_BRIDGE {
      var c' := counts[i := counts[i] + 1];
      ClaimValid(c', i + 1);
      assert forall b :: i < b < NUM_BRIDGES ==> c'[b] == counts[b];
    }
  }

  function AfterAddTap(t: TapState, tapName: string, env: Env): Added
    requires |t.counts| == NUM_BRIDGES
  {
    if tapName in t.created then Added(t, AddResult(Some(t.created[tapName]), !env.linkOk))
    else
      var c := Claim(t.counts, 0);
      var t' := t.(counts := c.counts);
      match c.slot
      case None => Added(t', AddResult(None, true))
      case Some(slot) =>
        ClaimValid(t.counts, 0);
        if !env.linkOk then Added(t', AddResult(None, true))
        else
          var ni := Interface(tapName, slot);
          Added(t'.(created := t'.created[tapName := ni]), if env.iptablesOk then AddResult(Some(ni), false) else AddResult(None, true))
  }

  class TapManager {
    const numBridges: nat
    const tapCountsPerBridge: array<nat>
    var createdTaps: map<string, NetworkInterface>

    ghost predicate Ready()
      reads this, tapCountsPerBridge
    {
      numBridges == NUM_BRIDGES && tapCountsPerBridge.Length == NUM_BRIDGES
    }

    ghost function Value(): TapState
      reads this, tapCountsPerBridge
    {
      TapState(tapCountsPerBridge[..], createdTaps)
    }

    constructor ()
      ensures Ready() && fresh(tapCountsPerBridge) && Value() == TapState([0, 0], map[])
    {
      numBridges := NUM_BRIDGES;
      tapCountsPerBridge := new nat[NUM_BRIDGES](_ => 0);
      createdTaps := map[];
    }

    method AddTap(tapName: string, env: Env) returns (r: AddResult)
      requires Ready()
      modifies this, tapCountsPerBridge
      ensures Ready() && Value() == AfterAddTap(old(Value()), tapName, env).taps
      ensures r == AfterAddTap(old(Value()), tapName, env).result
    {
      hide Interface;
      if tapName in createdTaps {
        return AddResult(Some(createdTaps[tapName]), !env.linkOk);
      }
      ghost var claim := Claim(tapCountsPerBridge[..], 0);
      ClaimValid(tapCountsPerBridge[..], 0);
      for i := 0 to numBridges
        invariant createdTaps == old(createdTaps)
        invariant Claim(tapCountsPerBridge[..], i) == claim
      {
        ghost var before := tapCountsPerBridge[..];
        tapCountsPerBridge[i] := tapCountsPerBridge[i] + 1;
        assert tapCountsPerBridge[..] == before[i := before[i] + 1];
        var tapsInBridge := tapCountsPerBridge[i];
        if tapsInBridge - 1 < TAPS_PER_BRIDGE {
          if !env.linkOk { return AddResult(None, true); }
          var ni := Interface(tapName, Slot(i, tapsInBridge - 1));
          createdTaps := createdTaps[tapName := ni];
          if !env.iptablesOk { return AddResult(None, true); }
          return AddResult(Some(ni), false);
        }
      }
      return AddResult(None, true);
    }
  }

  // ----- what the manager keeps -----

  ghost predicate Backs(t: TapState, name: string, slot: Slot)
    requires |t.counts| == NUM_BRIDGES && name in t.created
  {
    Valid(slot) && slot.index < t.counts[slot.bridge] && t.created[name] == Interface(name, slot)
  }

  /** Every interface stands on a slot that was given, and no two share an address. */
  ghost predicate TapsOk(t: TapState) {
    && |t.counts| == NUM_BRIDGES
    && (forall n :: n in t.created ==> exists slot :: Backs(t, n, slot))
    && (forall n, m :: n in t.created && m in t.created && n != m ==>
          t.created[n].macAddress != t.created[m].macAddress
          && t.created[n].primaryAddress != t.created[m].primaryAddress)
  }

  /** A tap name keeps its interface for good, and asking for it again takes no slot. */
  lemma AddTapStable(t: TapState, name: string, env: Env)
    requires TapsOk(t)
    ensures var a := AfterAddTap(t, name, env);
      && (forall n :: n in t.created ==> n in a.taps.created && a.taps.created[n] == t.created[n])
      && (name in t.created ==> a == Added(t, AddResult(Some(t.created[name]), !env.linkOk)))
      && (a.result.ni.Some? ==> name in a.taps.created && a.result.ni.value == a.taps.created[name])
      && (!a.result.err ==> a.result.ni.Some?)
  {
    hide Interface, Claim;
    ClaimValid(t.counts, 0);
  }

  lemma NewSlotApart(t: TapState, n: string, slot: Slot, name: string)
    requires TapsOk(t) && n in t.created && Valid(slot) && slot.index == t.counts[slot.bridge]
    ensures t.created[n].macAddress != Interface(name, slot).macAddress
    ensures t.created[n].primaryAddress != Interface(name, slot).primaryAddress
  {
    hide MacAddress, PrimaryAddress;
    var place :| Backs(t, n, place);
    if MacAddress(place) == MacAddress(slot) { MacInjective(place, slot); }
    if PrimaryAddress(place.index, place.bridge) == PrimaryAddress(slot.index, slot.bridge) { PrimaryInjective(place, slot); }
  }

  lemma WithSlotKeeps(t: TapState, t': TapState, name: string, slot: Slot)
    requires TapsOk(t) && name !in t.created && Valid(slot) && slot.index == t.counts[slot.bridge]
    requires |t'.counts| == NUM_BRIDGES && slot.index < t'.counts[slot.bridge]
    requires forall b :: 0 <= b < NUM_BRIDGES ==> t.counts[b] <= t'.counts[b]
    requires t'.created == t.created[name := Interface(name, slot)]
    ensures TapsOk(t')
  {
    hide Interface;
    forall n | n in t.created
      ensures t.created[n].macAddress != Interface(name, slot).macAddress
      ensures t.created[n].primaryAddress != Interface(name, slot).primaryAddress
    {
      NewSlotApart(t, n, slot, name);
    }
    assert Backs(t', name, slot);
    forall n | n in t.created ensures exists slot :: Backs(t', n, slot) {
      var place :| Backs(t, n, place);
      assert Backs(t', n, place);
    }
  }

  lemma WithoutSlotKeeps(t: TapState, t': TapState)
    requires TapsOk(t) && |t'.counts| == NUM_BRIDGES && t'.created == t.created
    requires forall b :: 0 <= b < NUM_BRIDGES ==> t.counts[b] <= t'.counts[b]
    ensures TapsOk(t')
  {
    hide Interface;
    forall n | n in t.created ensures exists slot :: Backs(t', n, slot) {
      var place :| Backs(t, n, place);
      assert Backs(t', n, place);
    }
  }

  lemma AddTapKeeps(t: TapState, name: string, env: Env)
    requires TapsOk(t)
    ensures TapsOk(AfterAddTap(t, name, env).taps)
  {
    hide Interface, Claim, Backs;
    ClaimValid(t.counts, 0);
    var t' := AfterAddTap(t, name, env).taps;
    var c := Claim(t.counts, 0);
    if name !in t.created {
      if c.slot.Some? && env.linkOk {
        WithSlotKeeps(t, t', name, c.slot.value);
      } else {
        WithoutSlotKeeps(t, t');
      }
    }
  }

  /** The first free bridge, in order: without an error of the link, no interface is made exactly when
      both bridges are full. */
  lemma NoSpaceIff(t: TapState, name: string)
    requires TapsOk(t)
    ensures AfterAddTap(t, name, Env(true, true)).result.err
      <==> name !in t.created && forall b :: 0 <= b < NUM_BRIDGES ==> t.counts[b] >= TAPS_PER_BRIDGE
  {
    hide Interface, Claim;
    ClaimValid(t.counts, 0);
  }

  /** The fields of every interface there is are those of a place that was given. */
  lemma InterfacesAddressed(t: TapState, name: string)
    requires TapsOk(t) && name in t.created
    ensures exists b: nat, i: nat :: Addressed(t.created[name], name, b, i) && i < t.counts[b]
  {
    hide Interface, Addressed;
    var slot :| Backs(t, name, slot);
    InterfaceAddressed(name, slot);
  }

  lemma TwoCounts(t: TapState)
    requires TapsOk(t)
    ensures |t.counts| == NUM_BRIDGES
  {
  }

  /** The interface that AddTap returns. */
  lemma ReturnedAddressed(t: TapState, name: string, env: Env)
    requires TapsOk(t)
    requires AfterAddTap(t, name, env).result.ni.Some?
    ensures exists b: nat, i: nat :: Addressed(AfterAddTap(t, name, env).result.ni.value, name, b, i)
  {
    hide TapsOk, AfterAddTap, Addressed;
    TwoCounts(t);
    AddTapKeeps(t, name, env);
    AddTapStable(t, name, env);
    InterfacesAddressed(AfterAddTap(t, name, env).taps, name);
  }

  ghost predicate FullBelow(t: TapState, b: nat) {
    |t.counts| == 2 && forall k: nat :: k < b && k < 2 ==> t.counts[k] >= 1000
  }

  /** Every bridge tried counts one more, those after it stay. */
  ghost predicate Counted(t: TapState, t': TapState, tried: nat) {
    |t.counts| == 2 && |t'.counts| == 2
    && forall k: nat :: k < 2 ==> t'.counts[k] == t.counts[k] + (if k < tried then 1 else 0)
  }

  lemma ClaimFirst(t: TapState, t': TapState)
    requires |t.counts| == 2 && t'.counts == Claim(t.counts, 0).counts
    ensures var slot := Claim(t.counts, 0).slot;
      && (slot.None? ==> FullBelow(t, 2) && Counted(t, t', 2))
      && (slot.Some? ==>
            var b := slot.value.bridge;
            b < 2 && FullBelow(t, b) && slot.value.index == t.counts[b] < 1000 && Counted(t, t', b + 1))
  {
  }

  /** A new name takes the next place of the first bridge that is not full. */
  lemma NewTapTakesFirstFree(t: TapState, name: string, env: Env, b: nat)
    requires name !in t.created && b < 2 && FullBelow(t, b) && t.counts[b] < 1000
    ensures var a := AfterAddTap(t, name, env);
      && Counted(t, a.taps, b + 1)
      && (a.result.err <==> !env.linkOk || !env.iptablesOk)
      && (!env.linkOk ==> a.taps.created == t.created && a.result.ni.None?)
      && (env.linkOk ==>
          && a.taps.created.Keys == t.created.Keys + {name}
          && (forall n :: n in t.created ==> a.taps.created[n] == t.created[n])
          && Addressed(a.taps.created[name], name, b, t.counts[b])
          && a.result.ni == if env.iptablesOk then Some(a.taps.created[name]) else None)
  {
    hide Interface, Claim, Addressed;
    var slot := Claim(t.counts, 0).slot;
    ClaimFirst(t, AfterAddTap(t, name, env).taps);
    assert slot.Some? && slot.value.bridge == b;
    InterfaceAddressed(name, slot.value);
  }

  /** With both bridges full a new name is refused, and the attempt counts. */
  lemma NewTapRefused(t: TapState, name: string, env: Env)
    requires name !in t.created && FullBelow(t, 2)
    ensures var a := AfterAddTap(t, name, env);
      Counted(t, a.taps, 2) && a.taps.created == t.created && a.result == AddResult(None, true)
  {
    hide Interface, Claim;
    ClaimFirst(t, AfterAddTap(t, name, env).taps);
  }
}
