/** The database itself: workflows with their descriptor templates, and invocations that shrink their
    own list of descriptors in place. */
module Timeseries {
  import opened Completions
  import opened Invocations
  import opened Options

  class Invocation {
    const id: string
    const buffer: array<Descriptor>
    var len: nat
    const invokedOn: int
    var duration: Option<int>
    var records: seq<Record>
    var completed: bool

    ghost predicate Valid()
      reads this
    {
      len <= buffer.Length
    }

    ghost function Value(): Inv
      requires Valid()
      reads this, buffer
    {
      Inv(id, buffer[..len], invokedOn, duration, records, completed)
    }

    /** The template is copied, not shared. */
    constructor (template: array<Descriptor>, e: Event)
      ensures Valid() && fresh(buffer) && Value() == NewInv(template[..], e)
    {
      id := e.invocationId;
      invokedOn := e.invokedOn;
      var copied := new Descriptor[template.Length](i requires 0 <= i < template.Length reads template => template[i]);
      buffer := copied;
      len := template.Length;
      duration := None;
      records := [];
      completed := false;
    }

    method CheckCompletion(attributes: Attributes) returns (r: Option<nat>)
      requires Valid()
      ensures r == FirstMatch(buffer[..len], attributes)
    {
      for i := 0 to len
        invariant forall j :: 0 <= j < i ==> !Matches(buffer[j], attributes)
      {
        var isCompletion := true;
        var rest := buffer[i].attrMatchers.Keys;
        while rest != {}
          invariant rest <= buffer[i].attrMatchers.Keys
          invariant forall k :: k in buffer[i].attrMatchers && k !in rest ==>
            k in attributes && attributes[k] == buffer[i].attrMatchers[k]
          decreases |rest|
        {
          var attr :| attr in rest;
          if attr !in attributes || attributes[attr] != buffer[i].attrMatchers[attr] {
            isCompletion := false;
            break;
          }
          rest := rest - {attr};
        }
        if isCompletion {
          FirstMatchIs(buffer[..len], attributes, i);
          return Some(i);
        }
      }
      return None;
    }

    /** The matched descriptor is removed by moving the ones behind it forward. */
    method OnCompletionEvent(e: Event, descriptorIdx: nat, now: int)
      requires Valid() && descriptorIdx < len
      modifies this`len, this`duration, this`completed, buffer
      ensures Valid() && Value() == AfterCompletion(old(Value()), descriptorIdx, e, now)
    {
      hide Without;
      var n := len;
      for i := descriptorIdx to n - 1
        modifies buffer
        invariant forall j :: 0 <= j < descriptorIdx ==> buffer[j] == old(buffer[j])
        invariant forall j :: descriptorIdx <= j < i ==> buffer[j] == old(buffer[j + 1])
        invariant forall j :: i <= j < n ==> buffer[j] == old(buffer[j])
      {
        buffer[i] := buffer[i + 1];
      }
      len := n - 1;
      ghost var was := old(buffer[..len]);
      WithoutIs(was, descriptorIdx, buffer[..len]);
      var sinceInvocation := now - e.invokedOn;
      if duration.None? || sinceInvocation > duration.value {
        duration := Some(sinceInvocation);
      }
      if len == 0 {
        completed := true;
      }
    }

    method RegisterEvent(e: Event, now: int)
      requires Valid()
      modifies this, buffer
      ensures Valid() && Value() == AfterEvent(old(Value()), e, now)
    {
      var r := CheckCompletion(e.attributes);
      if r.Some? {
        OnCompletionEvent(e, r.value, now);
      }
      records := records + [Record(e, now, r.Some?)];
    }
  }

  class Workflow {
    const id: string
    const template: array<Descriptor>
    var invocations: map<string, Invocation>
    ghost var Repr: set<object>

    /** No invocation shares its descriptors with another one or with the template. */
    ghost predicate Valid()
      reads this, Repr
    {
      && this in Repr && template in Repr
      && (forall i :: i in invocations ==>
            && invocations[i] in Repr && invocations[i].buffer in Repr
            && invocations[i].buffer != template && invocations[i].Valid())
      && (forall i, j :: i in invocations && j in invocations && i != j ==>
            invocations[i] != invocations[j] && invocations[i].buffer != invocations[j].buffer)
    }

    ghost function Value(): Flow
      requires Valid()
      reads this, Repr
    {
      Flow(template[..], map i | i in invocations :: invocations[i].Value())
    }

    constructor (id: string, descriptors: seq<Descriptor>)
      ensures Valid() && fresh(Repr) && this.id == id && Value() == Flow(descriptors, map[])
    {
      this.id := id;
      var copied := new Descriptor[|descriptors|](i requires 0 <= i < |descriptors| => descriptors[i]);
      template := copied;
      invocations := map[];
      Repr := {this, copied};
      new;
      assert template[..] == descriptors;
    }

    method Put(id: string, inv: Invocation)
      requires Valid() && inv.Valid() && inv !in Repr && inv.buffer !in Repr && id !in invocations
      modifies this
      ensures Valid() && Repr == old(Repr) + {inv, inv.buffer} && invocations == old(invocations)[id := inv]
      ensures Value() == old(Value()).(invocations := old(Value()).invocations[id := inv.Value()])
    {
      hide Invocation.Value;
      invocations := invocations[id := inv];
      Repr := Repr + {inv, inv.buffer};
    }

    method RegisterInvocation(e: Event) returns (inv: Invocation)
      requires Valid() && e.invocationId !in invocations
      modifies this
      ensures Valid() && fresh(Repr - old(Repr))
      ensures inv in Repr && inv.buffer in Repr && e.invocationId in invocations && inv == invocations[e.invocationId]
      ensures Value() == old(Value()).(invocations := old(Value()).invocations[e.invocationId := NewInv(template[..], e)])
    {
      hide NewInv, Invocation.Value, Value;
      inv := new Invocation(template, e);
      Put(e.invocationId, inv);
    }

    /** Only this invocation changes. */
    method RegisterWith(inv: Invocation, e: Event, now: int)
      requires Valid() && e.invocationId in invocations && inv == invocations[e.invocationId]
      modifies Repr
      ensures Valid() && Repr == old(Repr) && template[..] == old(template[..])
      ensures Value() == old(Value()).(invocations :=
                old(Value()).invocations[e.invocationId := AfterEvent(old(Value()).invocations[e.invocationId], e, now)])
    {
      hide NewInv, AfterEvent, Invocation.Value;
      ghost var before := Value();
      inv.RegisterEvent(e, now);
      forall i | i in invocations && i != e.invocationId ensures invocations[i].Value() == before.invocations[i] {
        assert invocations[i].Value() == old(invocations[i].Value());
      }
      assert template[..] == before.template;
    }

    method RegisterEvent(e: Event, now: int)
      requires Valid()
      modifies Repr
      ensures Valid() && fresh(Repr - old(Repr))
      ensures Value() == AfterRegister(old(Value()), e, now)
    {
      hide NewInv, AfterEvent, Invocation.Value, AfterRegister, Value;
      var inv: Invocation;
      InvocationKnown(this, e.invocationId);
      if e.invocationId in invocations {
        inv := invocations[e.invocationId];
      } else {
        inv := RegisterInvocation(e);
      }
      RegisterInTwo(old(Value()), Value(), e, now);
      RegisterWith(inv, e, now);
    }
  }

  lemma InvocationKnown(w: Workflow, id: string)
    requires w.Valid()
    ensures id in w.Value().invocations <==> id in w.invocations
    ensures w.Value().template == w.template[..]
  {
  }

  lemma InOwnRepr(w: Workflow)
    requires w.Valid()
    ensures w in w.Repr
  {
  }
}
