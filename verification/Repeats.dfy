/** No reconciler writes without cause: repeating a completed pass on an otherwise unchanged cluster
    changes no stored object and no stored status, however much later it runs. */
module Repeats {
  import opened Types
  import opened Api
  import opened Conditions
  import opened Deployments
  import opened Placement
  import EP = EnvProtocol
  import SR = ServiceRouting
  import WS = WorkloadStatus
  import BS = BindingStatus
  import ES = EndpointStatus
  import FS = FederationStatus

  // -------------------------------------------------------------------------------- objects

  lemma RebuildTwice(d: DeploymentObj, w: Workload)
    ensures var d' := Rebuild(d, w.uid, w.key.name, w.spec); Rebuild(d', w.uid, w.key.name, w.spec) == d'
  {
    EP.RebuildSettles(EP.World(w.uid, w.key.name, w.spec, map[]), d);
  }

  lemma WritesRepeat(o: Objects, w: Workload)
    requires !DeploymentConflict(o, w) && !ServiceConflict(o, w)
    ensures var o' := WriteService(WriteDeployment(o, w), w);
      && !DeploymentConflict(o', w) && !ServiceConflict(o', w)
      && WriteDeployment(o', w) == o' && WriteService(o', w) == o'
  {
    var o' := WriteService(WriteDeployment(o, w), w);
    var d := StoredDeployment(o, w.key);
    RebuildTwice(d, w);
    assert o'.deployments[w.key] == Rebuild(d, w.uid, w.key.name, w.spec);
    assert WriteDeployment(o', w).deployments == o'.deployments;
    assert WriteService(o', w).services == o'.services;
  }

  /** A whole Workload pass, checks included: the second one comes to the same verdict and leaves
      every Deployment and Service as the first did. */
  lemma WorkloadPassRepeats(x: World, o: Objects, w: Workload)
    ensures var (o', v) := Pass(x, o, w); Pass(x, o', w) == (o', v)
  {
    if Gate(x, o, w) == Proceed {
      WritesRepeat(o, w);
    }
  }

  lemma AnnotationsRepeat(a: SR.Annotations, spec: EndpointSpec, self: string)
    ensures SR.Routed(SR.Routed(a, spec, self), spec, self) == SR.Routed(a, spec, self)
    ensures SR.Unrouted(SR.Unrouted(a)) == SR.Unrouted(a)
    ensures SR.Unrouted(SR.Routed(a, spec, self)) == SR.Unrouted(a)
  {
  }

  // ------------------------------------------------------------------------------- statuses

  lemma SetThenFieldsShow(cs: seq<Condition>, w: Wanted, fields: seq<Field>, now: int)
    requires w.ctype != FIELDS_NOT_ENFORCED
    ensures Shows(SetFields(Set(cs, w, now), w.generation, fields, now), w)
    ensures FieldsShown(SetFields(Set(cs, w, now), w.generation, fields, now), w.generation, fields)
  {
    SetFind(cs, w, now, w.ctype);
    SetFieldsFind(Set(cs, w, now), w.generation, fields, now, w.ctype);
    SetFieldsNoop(Set(cs, w, now), w.generation, fields, now);
  }

  lemma SetAndFieldsNoop(cs: seq<Condition>, w: Wanted, fields: seq<Field>, now: int)
    requires Shows(cs, w) && FieldsShown(cs, w.generation, fields)
    ensures SetFields(Set(cs, w, now), w.generation, fields, now) == cs
  {
    SetNoop(cs, w, now);
    SetFieldsNoop(cs, w.generation, fields, now);
  }

  lemma ThreeRemovesNoop(cs: seq<Condition>, a: ConditionType, b: ConditionType, c: ConditionType)
    requires !HasType(cs, a) && !HasType(cs, b) && !HasType(cs, c)
    ensures Remove(Remove(Remove(cs, a), b), c) == cs
  {
    RemoveFind(cs, a, a);
    RemoveFind(cs, b, b);
    RemoveFind(cs, c, c);
  }

  lemma WorkloadConditionsRepeat(cs: seq<Condition>, p: WS.Pass, later: int)
    ensures var out := WS.ConditionsAfter(cs, p); WS.ConditionsAfter(out, p.(now := later)) == out
  {
    var out := WS.ConditionsAfter(cs, p);
    forall t { WS.AfterShows(cs, p, t); }
    match p.outcome {
      case IsDegraded(reason, message) =>
        var w := Wanted(DEGRADED, StatusTrue, p.generation, reason, message);
        SetThenFieldsShow(Remove(Remove(Remove(cs, PENDING), APPLIED), AVAILABLE), w, p.fields, p.now);
        ThreeRemovesNoop(out, PENDING, APPLIED, AVAILABLE);
        SetAndFieldsNoop(out, w, p.fields, later);
      case IsPending(reason, message) =>
        var w := Wanted(PENDING, StatusTrue, p.generation, reason, message);
        SetThenFieldsShow(Remove(Remove(Remove(cs, DEGRADED), APPLIED), AVAILABLE), w, p.fields, p.now);
        ThreeRemovesNoop(out, DEGRADED, APPLIED, AVAILABLE);
        SetAndFieldsNoop(out, w, p.fields, later);
      case IsApplied(_, _, available) =>
        AppliedShow(Remove(Remove(cs, DEGRADED), PENDING), p);
        RemoveFind(out, DEGRADED, DEGRADED);
        RemoveFind(out, PENDING, PENDING);
        SetNoop(out, WS.AppliedWanted(p.generation), later);
        SetAndFieldsNoop(out, WS.AvailableWanted(p.generation, available), p.fields, later);
    }
  }

  lemma AppliedShow(kept: seq<Condition>, p: WS.Pass)
    requires p.outcome.IsApplied?
    ensures
      var one := Set(kept, WS.AppliedWanted(p.generation), p.now);
      var w := WS.AvailableWanted(p.generation, p.outcome.available);
      var out := SetFields(Set(one, w, p.now), p.generation, p.fields, p.now);
      Shows(out, WS.AppliedWanted(p.generation)) && Shows(out, w) && FieldsShown(out, p.generation, p.fields)
  {
    var one := Set(kept, WS.AppliedWanted(p.generation), p.now);
    var w := WS.AvailableWanted(p.generation, p.outcome.available);
    SetFind(kept, WS.AppliedWanted(p.generation), p.now, APPLIED);
    SetFind(one, w, p.now, APPLIED);
    SetFieldsFind(Set(one, w, p.now), p.generation, p.fields, p.now, APPLIED);
    SetThenFieldsShow(one, w, p.fields, p.now);
  }

  /** A Workload's status: a later pass with the same outcome computes what is already stored, so the
      write test skips it; transition times included. */
  lemma WorkloadStatusRepeats(st: WS.Status, member: string, p: WS.Pass, later: int)
    ensures var st' := WS.After(st, member, p); WS.After(st', member, p.(now := later)) == st'
  {
    WorkloadConditionsRepeat(st.conditions, p, later);
    var st' := WS.After(st, member, p);
    assert WS.Since(st'.targets, member, WS.StateOf(p.outcome), later) == st'.targets[0].lastTransition.value;
  }

  /** A binding's status, degraded and ready. */
  lemma BindingStatusRepeats(st: BS.Status, generation: int, m: Message, fields: seq<Field>, now: int, later: int)
    requires m.About?
    ensures var st' := BS.StoredAfterDegraded(st, generation, m, fields, now);
      BS.StoredAfterDegraded(st', generation, m, fields, later) == st'
    ensures var st' := BS.AfterReady(st, generation, fields, now);
      BS.AfterReady(st', generation, fields, later) == st'
  {
    var d, r := BS.DegradedTrue(generation, m), BS.ReadyFalse(generation, m);
    var both := SetBoth(st.conditions, d, r, fields, now);
    SetBothTypes(st.conditions, d, r, fields, now);
    SetBothNoop(st.conditions, d, r, fields, now);
    SetBothNoop(both, d, r, fields, later);
    ReadyRepeats(st.conditions, BS.ReadyTrue(generation), fields, now, later);
  }

  lemma ReadyRepeats(cs: seq<Condition>, w: Wanted, fields: seq<Field>, now: int, later: int)
    requires w.ctype == READY
    ensures var out := SetFields(Set(Remove(cs, DEGRADED), w, now), w.generation, fields, now);
      && SetFields(Set(Remove(out, DEGRADED), w, later), w.generation, fields, later) == out
      && Shows(out, w)
  {
    var kept := Remove(cs, DEGRADED);
    var one := Set(kept, w, now);
    var out := SetFields(one, w.generation, fields, now);
    SetThenFieldsShow(kept, w, fields, now);
    RemoveFind(cs, DEGRADED, DEGRADED);
    SetFind(kept, w, now, DEGRADED);
    SetFieldsFind(one, w.generation, fields, now, DEGRADED);
    RemoveFind(out, DEGRADED, DEGRADED);
    SetAndFieldsNoop(out, w, fields, later);
  }

  lemma EndpointReadyRepeats(st: ES.Status, generation: int, active: string, hostnames: seq<string>,
                             fields: seq<Field>, now: int, later: int)
    ensures var st' := ES.AfterReady(st, generation, active, hostnames, fields, now);
      ES.AfterReady(st', generation, active, hostnames, fields, later) == st'
  {
    ReadyRepeats(st.conditions, ES.ReadyTrue(generation), fields, now, later);
  }

  /** What is computed once is computed again. */
  lemma EndpointDegradedRepeats(st: ES.Status, generation: int, reason: Reason, m: Message,
                                fields: seq<Field>, now: int, later: int)
    ensures var st' := ES.AfterDegraded(st, generation, reason, m, fields, now);
      ES.AfterDegraded(st', generation, reason, m, fields, later) == st'
  {
    var d, r := ES.DegradedTrue(generation, reason, m), ES.ReadyFalse(generation, reason, m);
    SetBothTypes(st.conditions, d, r, fields, now);
    SetBothNoop(st.conditions, d, r, fields, now);
    SetBothNoop(SetBoth(st.conditions, d, r, fields, now), d, r, fields, later);
  }

  /** What the comparison did not see, it does not see later. */
  lemma UnseenStaysUnseen(st: ES.Status, generation: int, reason: Reason, m: Message,
                          fields: seq<Field>, now: int, later: int)
    requires st.lastTransition != Some(now) && !ES.DegradedWrites(st, generation, reason, m, fields, now)
    ensures !ES.DegradedWrites(st, generation, reason, m, fields, later)
  {
  }

  /** An endpoint's status, ready and degraded; a lost update stays lost. */
  lemma EndpointStatusRepeats(st: ES.Status, p: ES.Pass, later: int)
    requires st.lastTransition != Some(p.now)
    ensures var st' := ES.StoredAfter(st, p); ES.StoredAfter(st', p.(now := later)) == st'
  {
    match p.outcome {
      case IsDegraded(reason, m) =>
        if ES.DegradedWrites(st, p.generation, reason, m, p.fields, p.now) {
          EndpointDegradedRepeats(st, p.generation, reason, m, p.fields, p.now, later);
        } else {
          UnseenStaysUnseen(st, p.generation, reason, m, p.fields, p.now, later);
        }
      case IsReady(active, hostnames) =>
        EndpointReadyRepeats(st, p.generation, active, hostnames, p.fields, p.now, later);
    }
  }

  /** A Federation's status, from any status the operator wrote. */
  lemma FederationStatusRepeats(st: FS.Status, generation: int, members: seq<ClusterMember>,
                                fieldsAt: int -> seq<Field>, now: int, later: int)
    requires FS.OperatorWritten(st, fieldsAt)
    ensures var st' := FS.Stored(st, generation, members, fieldsAt(generation), now);
      FS.Stored(st', generation, members, fieldsAt(generation), later) == st'
  {
    var fields, cs := fieldsAt(generation), st.conditions;
    FS.WriteExact(st, generation, members, fieldsAt, now);
    var st' := FS.Stored(st, generation, members, fields, now);
    FS.WriteExact(st', generation, members, fieldsAt, later);
    if FS.AllReady(members) {
      SetThenRemoveRepeats(cs, FS.ReadyTrue(generation), fields, now, later);
    } else if members == [] {
      SetThenRemoveRepeats(cs, FS.ReadyNone(generation), fields, now, later);
    } else {
      SetBothTypes(cs, FS.ReadySome(generation), FS.DegradedSome(generation), fields, now);
      SetBothNoop(cs, FS.ReadySome(generation), FS.DegradedSome(generation), fields, now);
      SetBothNoop(st'.conditions, FS.ReadySome(generation), FS.DegradedSome(generation), fields, later);
    }
  }

  lemma SetThenRemoveRepeats(cs: seq<Condition>, w: Wanted, fields: seq<Field>, now: int, later: int)
    requires w.ctype == READY
    ensures var out := SetThenRemove(cs, w, DEGRADED, fields, now);
      SetThenRemove(out, w, DEGRADED, fields, later) == out
  {
    var out := SetThenRemove(cs, w, DEGRADED, fields, now);
    FS.SetThenRemoveShows(cs, w, fields, now);
    SetNoop(out, w, later);
    RemoveFind(out, DEGRADED, DEGRADED);
    SetFieldsNoop(out, w.generation, fields, later);
  }
}
