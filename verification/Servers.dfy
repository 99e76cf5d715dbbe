/** The server: the workflows of the running experiment. */
module Servers {
  import opened Completions
  import opened Invocations
  import opened Timeseries

  datatype Definition = Definition(id: string, descriptors: seq<Descriptor>)

  /** Of definitions with the same id the last one counts. */
  function Started(definitions: seq<Definition>): map<string, Flow> {
    if definitions == [] then map[]
    else
      var d := definitions[|definitions| - 1];
      Started(definitions[..|definitions| - 1])[d.id := Flow(d.descriptors, map[])]
  }

  /** A workflow is known exactly when a definition has its id. */
  lemma {:induction false} StartedIff(definitions: seq<Definition>, id: string)
    ensures id in Started(definitions) <==> exists k: nat :: k < |definitions| && definitions[k].id == id
  {
    if definitions != [] {
      var n := |definitions| - 1;
      StartedIff(definitions[..n], id);
      if k: nat :| k < n && definitions[k].id == id { assert definitions[..n][k].id == id; }
    }
  }

  /** It has the descriptors of the last of them, and no invocation. */
  lemma {:induction false} StartedIsLast(definitions: seq<Definition>, k: nat)
    requires k < |definitions| && forall j: nat :: k < j < |definitions| ==> definitions[j].id != definitions[k].id
    ensures var id := definitions[k].id;
      && id in Started(definitions)
      && Started(definitions)[id].template == definitions[k].descriptors
      && Started(definitions)[id].invocations == map[]
  {
    var n := |definitions| - 1;
    if k < n { StartedIsLast(definitions[..n], k); }
  }

  class Server {
    var workflows: map<string, Workflow>
    ghost var Repr: set<object>

    ghost predicate Valid()
      reads this, Repr
    {
      && this in Repr
      && (forall w :: w in workflows ==>
            workflows[w] in Repr && workflows[w].Repr <= Repr && this !in workflows[w].Repr
            && workflows[w] in workflows[w].Repr && workflows[w].Valid())
      && (forall v, w :: v in workflows && w in workflows && v != w ==> workflows[v].Repr !! workflows[w].Repr)
    }

    ghost function Value(): map<string, Flow>
      requires Valid()
      reads this, Repr
    {
      map w | w in workflows :: workflows[w].Value()
    }

    constructor ()
      ensures Valid() && fresh(Repr) && Value() == map[]
    {
      workflows := map[];
      Repr := {this};
    }

    method Put(id: string, w: Workflow)
      requires Valid() && w.Valid() && w in w.Repr && w.Repr !! Repr
      modifies this
      ensures Valid() && Repr == old(Repr) + w.Repr
      ensures Value() == old(Value())[id := w.Value()]
    {
      hide Workflow.Valid, Workflow.Value;
      workflows := workflows[id := w];
      Repr := Repr + w.Repr;
    }

    method AddWorkflow(d: Definition)
      requires Valid()
      modifies this
      ensures Valid() && fresh(Repr - old(Repr))
      ensures Value() == old(Value())[d.id := Flow(d.descriptors, map[])]
    {
      hide Workflow.Valid, Workflow.Value, Value;
      var w := new Workflow(d.id, d.descriptors);
      InOwnRepr(w);
      Put(d.id, w);
    }

    /** What was known before is forgotten. */
    method StartExperiment(definitions: seq<Definition>)
      requires Valid()
      modifies this
      ensures Valid() && fresh(Repr - old(Repr))
      ensures Value() == Started(definitions)
    {
      workflows := map[];
      for i := 0 to |definitions|
        invariant Valid() && fresh(Repr - old(Repr))
        invariant Value() == Started(definitions[..i])
      {
        AddWorkflow(definitions[i]);
        assert definitions[..i + 1][..i] == definitions[..i];
      }
      assert definitions[..|definitions|] == definitions;
    }

    /** An unknown workflow ends the process. No other workflow changes. */
    method RegisterEvent(e: Event, now: int) returns (fatal: bool)
      requires Valid()
      modifies Repr
      ensures Valid() && fresh(Repr - old(Repr))
      ensures fatal <==> e.workflowId !in old(Value())
      ensures Value() == if fatal then old(Value()) else old(Value())[e.workflowId := AfterRegister(old(Value())[e.workflowId], e, now)]
    {
      hide AfterRegister, Workflow.Valid, Workflow.Value, Value;
      WorkflowsKnown(this);
      if e.workflowId !in workflows { return true; }
      var w := workflows[e.workflowId];
      ghost var before, all, own := Value(), Repr, w.Repr;
      InOwnRepr(w);
      w.RegisterEvent(e, now);
      InOwnRepr(w);
      assert (w.Repr - own) !! all;
      forall v | v in workflows && v != e.workflowId
        ensures workflows[v].Valid() && workflows[v].Value() == before[v]
        ensures workflows[v].Repr == old(workflows[v].Repr) && workflows[v].Repr !! w.Repr
      {
        assert workflows[v].Value() == old(workflows[v].Value());
        StaysApart(workflows[v].Repr, own, w.Repr, all);
      }
      Repr := Repr + w.Repr;
      ValueIs(this, before[e.workflowId := w.Value()]);
      return false;
    }
  }

  lemma StaysApart(a: set<object>, own: set<object>, own': set<object>, all: set<object>)
    requires a <= all && a !! own && (own' - own) !! all
    ensures a !! own'
  {
  }

  lemma WorkflowsKnown(s: Server)
    requires s.Valid()
    ensures s.Value().Keys == s.workflows.Keys
    ensures forall w :: w in s.workflows ==> s.Value()[w] == s.workflows[w].Value()
  {
  }

  lemma ValueIs(s: Server, m: map<string, Flow>)
    requires s.Valid() && m.Keys == s.workflows.Keys && forall w :: w in s.workflows ==> m[w] == s.workflows[w].Value()
    ensures s.Value() == m
  {
  }
}
