/** Non-interference, continued: unenforced fields change no verdict, no requeue and no computed
    status apart from the FieldsNotEnforced condition. */
module UnenforcedStatus {
  import opened Types
  import opened Api
  import opened Conditions
  import opened Deployments
  import opened Placement
  import opened Membership
  import opened Finalizers
  import opened Cluster
  import opened Preflight
  import opened Unenforced
  import opened PassReports
  import WS = WorkloadStatus
  import BS = BindingStatus
  import ES = EndpointStatus
  import FS = FederationStatus

  // ----------------------------------------------------- conditions without the informational one

  function Bare(cs: seq<Condition>): seq<Condition> { Remove(cs, FIELDS_NOT_ENFORCED) }

  lemma SetCons(c: Condition, cs: seq<Condition>, w: Wanted, now: int)
    ensures Set([c] + cs, w, now) == if c.ctype == w.ctype then [Edited(c, w, now)] + cs else [c] + Set(cs, w, now)
  {
    assert ([c] + cs)[1..] == cs;
  }

  lemma {:induction false} BareSet(cs: seq<Condition>, w: Wanted, now: int)
    requires w.ctype != FIELDS_NOT_ENFORCED
    ensures Bare(Set(cs, w, now)) == Set(Bare(cs), w, now)
  {
    if cs == [] {
      var c := Condition(w.ctype, w.status, w.generation, now, w.reason, w.message);
      assert Set(cs, w, now) == [c] + [];
      BareCons(c, []);
    } else {
      var c, rest := cs[0], cs[1..];
      assert cs == [c] + rest;
      SetCons(c, rest, w, now);
      SetCons(c, Bare(rest), w, now);
      BareSet(rest, w, now);
      BareCons(c, rest);
      BareCons(c, Set(rest, w, now));
      BareCons(Edited(c, w, now), rest);
    }
  }

  lemma BareCons(c: Condition, cs: seq<Condition>)
    ensures Bare([c] + cs) == if c.ctype == FIELDS_NOT_ENFORCED then Bare(cs) else [c] + Bare(cs)
  {
    assert ([c] + cs)[1..] == cs;
  }

  lemma {:induction false} BareSetSelf(cs: seq<Condition>, w: Wanted, now: int)
    requires w.ctype == FIELDS_NOT_ENFORCED
    ensures Bare(Set(cs, w, now)) == Bare(cs)
  {
    if cs == [] {
      var c := Condition(w.ctype, w.status, w.generation, now, w.reason, w.message);
      assert Set(cs, w, now) == [c] + [];
      BareCons(c, []);
    } else {
      var c, rest := cs[0], cs[1..];
      assert cs == [c] + rest;
      SetCons(c, rest, w, now);
      BareSetSelf(rest, w, now);
      BareCons(c, rest);
      BareCons(c, Set(rest, w, now));
      BareCons(Edited(c, w, now), rest);
    }
  }

  lemma {:induction false} BareRemove(cs: seq<Condition>, t: ConditionType)
    ensures Bare(Remove(cs, t)) == Remove(Bare(cs), t)
  {
    if cs != [] {
      var c, rest := cs[0], cs[1..];
      BareRemove(rest, t);
      if c.ctype != t { BareCons(c, Remove(rest, t)); }
      if c.ctype != FIELDS_NOT_ENFORCED { assert ([c] + Bare(rest))[1..] == Bare(rest); }
    }
  }

  lemma BareSetFields(cs: seq<Condition>, generation: int, fields: seq<Field>, now: int)
    ensures Bare(SetFields(cs, generation, fields, now)) == Bare(cs)
  {
    if fields == [] {
      RemoveFind(cs, FIELDS_NOT_ENFORCED, FIELDS_NOT_ENFORCED);
      RemoveFind(Bare(cs), FIELDS_NOT_ENFORCED, FIELDS_NOT_ENFORCED);
    } else {
      BareSetSelf(cs, FieldsWanted(generation, fields), now);
    }
  }

  lemma BareSetBoth(cs: seq<Condition>, c1: Wanted, c2: Wanted, fields: seq<Field>, now: int)
    requires c1.ctype != FIELDS_NOT_ENFORCED && c2.ctype != FIELDS_NOT_ENFORCED
    ensures Bare(SetBoth(cs, c1, c2, fields, now)) == Set(Set(Bare(cs), c1, now), c2, now)
  {
    BareSet(cs, c1, now);
    BareSet(Set(cs, c1, now), c2, now);
    BareSetFields(Set(Set(cs, c1, now), c2, now), c1.generation, fields, now);
  }

  lemma BareFind(cs: seq<Condition>, t: ConditionType)
    requires t != FIELDS_NOT_ENFORCED
    ensures Find(Bare(cs), t) == Find(cs, t)
  {
    RemoveFind(cs, FIELDS_NOT_ENFORCED, t);
  }

  // ---------------------------------------------------------------------- Workload statuses

  ghost predicate AlikeInput(i1: Input, i2: Input) {
    && AlikeWorld(i1.world, i2.world) && AlikeWorkload(i1.workload, i2.workload)
    && i1.objects == i2.objects && i1.generation == i2.generation && i1.now == i2.now
  }

  predicate AlikeWorkloadStatus(st1: WS.Status, st2: WS.Status) {
    st1.(conditions := []) == st2.(conditions := []) && Bare(st1.conditions) == Bare(st2.conditions)
  }

  lemma {:induction false} FirstMissingNameAlike(x1: World, x2: World, ns: string, ds: seq<Dependency>)
    requires AlikeWorld(x1, x2)
    ensures FirstMissingName(x1, ns, ds) == FirstMissingName(x2, ns, ds)
  {
    if ds != [] { FirstMissingNameAlike(x1, x2, ns, ds[1..]); }
  }

  /** One reconciliation over alike specs: the same objects, verdict, requeue, and outcome. */
  lemma OutcomesAgree(i1: Input, i2: Input)
    requires AlikeInput(i1, i2)
    ensures Pass(i1.world, i1.objects, i1.workload) == Pass(i2.world, i2.objects, i2.workload)
    ensures WorkloadRequeue(PassOf(i1)) == WorkloadRequeue(PassOf(i2))
    ensures PassOf(i1).(fields := []) == PassOf(i2).(fields := [])
  {
    GateAlike(i1.world, i2.world, i1.objects, i1.workload, i2.workload);
    WritesAlike(i1.objects, i1.workload, i2.workload);
    WritesAlike(WriteDeployment(i1.objects, i1.workload), i1.workload, i2.workload);
    MembershipAlike(i1.world, i2.world, i1.workload.spec, i2.workload.spec);
    assert Needs(i1.workload.spec) == Needs(i2.workload.spec);
    FirstMissingNameAlike(i1.world, i2.world, i1.workload.key.ns, Needs(i1.workload.spec));
  }

  /** A Workload writer's edits commute with forgetting the informational condition. */
  lemma BareAfter(cs: seq<Condition>, p: WS.Pass)
    ensures Bare(WS.ConditionsAfter(cs, p)) == WS.ConditionsAfter(Bare(cs), p.(fields := []))
  {
    match p.outcome {
      case IsDegraded(reason, message) =>
        BareRemoves(cs, PENDING, APPLIED, AVAILABLE);
        SetThenBare(Remove(Remove(Remove(cs, PENDING), APPLIED), AVAILABLE),
                     Wanted(DEGRADED, StatusTrue, p.generation, reason, message), p);
      case IsPending(reason, message) =>
        BareRemoves(cs, DEGRADED, APPLIED, AVAILABLE);
        SetThenBare(Remove(Remove(Remove(cs, DEGRADED), APPLIED), AVAILABLE),
                     Wanted(PENDING, StatusTrue, p.generation, reason, message), p);
      case IsApplied(_, _, available) =>
        BareRemove(cs, DEGRADED);
        BareRemove(Remove(cs, DEGRADED), PENDING);
        var kept := Remove(Remove(cs, DEGRADED), PENDING);
        BareSet(kept, WS.AppliedWanted(p.generation), p.now);
        SetThenBare(Set(kept, WS.AppliedWanted(p.generation), p.now), WS.AvailableWanted(p.generation, available), p);
    }
  }

  lemma BareRemoves(cs: seq<Condition>, a: ConditionType, b: ConditionType, c: ConditionType)
    ensures Bare(Remove(Remove(Remove(cs, a), b), c)) == Remove(Remove(Remove(Bare(cs), a), b), c)
  {
    BareRemove(cs, a);
    BareRemove(Remove(cs, a), b);
    BareRemove(Remove(Remove(cs, a), b), c);
  }

  lemma SetThenBare(cs: seq<Condition>, w: Wanted, p: WS.Pass)
    requires w.ctype != FIELDS_NOT_ENFORCED
    ensures Bare(SetFields(Set(cs, w, p.now), p.generation, p.fields, p.now))
         == SetFields(Set(Bare(cs), w, p.now), p.generation, [], p.now)
  {
    BareSet(cs, w, p.now);
    BareSetFields(Set(cs, w, p.now), p.generation, p.fields, p.now);
    RemoveFind(Set(cs, w, p.now), FIELDS_NOT_ENFORCED, FIELDS_NOT_ENFORCED);
    RemoveFind(Bare(Set(cs, w, p.now)), FIELDS_NOT_ENFORCED, FIELDS_NOT_ENFORCED);
  }

  lemma OneStatusAgrees(st1: WS.Status, st2: WS.Status, member: string, p1: WS.Pass, p2: WS.Pass)
    requires AlikeWorkloadStatus(st1, st2) && p1.(fields := []) == p2.(fields := [])
    ensures AlikeWorkloadStatus(WS.After(st1, member, p1), WS.After(st2, member, p2))
  {
    BareAfter(st1.conditions, p1);
    BareAfter(st2.conditions, p2);
  }

  lemma {:induction false} WorkloadPassesAgree(
    st1: WS.Status, st2: WS.Status, member: string, ps1: seq<WS.Pass>, ps2: seq<WS.Pass>)
    requires AlikeWorkloadStatus(st1, st2) && |ps1| == |ps2|
    requires forall i :: 0 <= i < |ps1| ==> ps1[i].(fields := []) == ps2[i].(fields := [])
    ensures AlikeWorkloadStatus(WS.Stored(st1, member, ps1), WS.Stored(st2, member, ps2))
  {
    if ps1 != [] {
      var n := |ps1| - 1;
      WorkloadPassesAgree(st1, st2, member, ps1[..n], ps2[..n]);
      assert ps1[n].(fields := []) == ps2[n].(fields := []);
      OneStatusAgrees(WS.Stored(st1, member, ps1[..n]), WS.Stored(st2, member, ps2[..n]), member, ps1[n], ps2[n]);
    }
  }

  function PassesOf(inputs: seq<Input>): (ps: seq<WS.Pass>)
    ensures |ps| == |inputs| && forall i :: 0 <= i < |inputs| ==> ps[i] == PassOf(inputs[i])
  {
    seq(|inputs|, i requires 0 <= i < |inputs| => PassOf(inputs[i]))
  }

  /** Two series of Workload reconciliations over specs that differ in unenforced fields only: the
      stored statuses stay the same but for FieldsNotEnforced. */
  lemma WorkloadStatusesAgree(st1: WS.Status, st2: WS.Status, member: string, is1: seq<Input>, is2: seq<Input>)
    requires AlikeWorkloadStatus(st1, st2) && |is1| == |is2|
    requires forall i :: 0 <= i < |is1| ==> AlikeInput(is1[i], is2[i])
    ensures AlikeWorkloadStatus(WS.Stored(st1, member, PassesOf(is1)), WS.Stored(st2, member, PassesOf(is2)))
  {
    forall i | 0 <= i < |is1| ensures PassesOf(is1)[i].(fields := []) == PassesOf(is2)[i].(fields := []) {
      OutcomesAgree(is1[i], is2[i]);
    }
    WorkloadPassesAgree(st1, st2, member, PassesOf(is1), PassesOf(is2));
  }

  // ---------------------------------------------------------------------- binding statuses

  ghost predicate AlikeObjects(i1: ObjectInput, i2: ObjectInput) {
    Alike(i1.state, i2.state) && i1.k == i2.k && i1.generation == i2.generation && i1.now == i2.now
  }

  /** A binding pass over such specs finds the same problem, or none, with the same text. */
  lemma BindingOutcomesAgree(i1: ObjectInput, i2: ObjectInput)
    requires AlikeObjects(i1, i2)
    ensures Binds(i1) <==> Binds(i2)
    ensures Binds(i1) ==> BindingPass(i1).(fields := []) == BindingPass(i2).(fields := [])
    ensures Binds(i1) ==> BindingRequeue(BindingPass(i1)) == BindingRequeue(BindingPass(i2))
  {
    var k := i1.k;
    PassAlike(i1.state.bindings, i2.state.bindings, k, BindingWithout);
    if Binds(i1) {
      var o1, o2 := i1.state.bindings.passes[k].obj, i2.state.bindings.passes[k].obj;
      assert AlikeStored(o1, o2, BindingWithout);
      OwnsAlike(i1.state, i2.state, Target(k, o1));
      assert BindingProblem(i1.state, k) == BindingProblem(i2.state, k);
    }
  }

  predicate AlikeBindingStatus(st1: BS.Status, st2: BS.Status) {
    st1.(conditions := []) == st2.(conditions := []) && Bare(st1.conditions) == Bare(st2.conditions)
  }

  lemma OneBindingStatusAgrees(st1: BS.Status, st2: BS.Status, p1: BS.Pass, p2: BS.Pass,
                               fields1: int -> seq<Field>, fields2: int -> seq<Field>)
    requires BS.OperatorWritten(st1, fields1) && BS.OperatorWritten(st2, fields2) && AlikeBindingStatus(st1, st2)
    requires p1.Valid() && p2.Valid() && p1.(fields := []) == p2.(fields := [])
    requires p1.fields == fields1(p1.generation) && p2.fields == fields2(p2.generation)
    ensures AlikeBindingStatus(BS.StoredAfter(st1, p1), BS.StoredAfter(st2, p2))
    ensures BS.OperatorWritten(BS.StoredAfter(st1, p1), fields1) && BS.OperatorWritten(BS.StoredAfter(st2, p2), fields2)
  {
    var g, now := p1.generation, p1.now;
    match p1.problem {
      case Some(m) =>
        BS.DegradedWriteExact(st1, g, m, fields1, now);
        BS.DegradedWriteExact(st2, g, m, fields2, now);
        BareSetBoth(st1.conditions, BS.DegradedTrue(g, m), BS.ReadyFalse(g, m), p1.fields, now);
        BareSetBoth(st2.conditions, BS.DegradedTrue(g, m), BS.ReadyFalse(g, m), p2.fields, now);
      case None =>
        BS.ReadyStaysOperatorWritten(st1, g, p1.fields, fields1, now);
        BS.ReadyStaysOperatorWritten(st2, g, p2.fields, fields2, now);
        BareReady(st1.conditions, BS.ReadyTrue(g), p1.fields, now);
        BareReady(st2.conditions, BS.ReadyTrue(g), p2.fields, now);
    }
  }

  lemma BareReady(cs: seq<Condition>, w: Wanted, fields: seq<Field>, now: int)
    requires w.ctype == READY
    ensures Bare(SetFields(Set(Remove(cs, DEGRADED), w, now), w.generation, fields, now))
         == Set(Remove(Bare(cs), DEGRADED), w, now)
  {
    BareRemove(cs, DEGRADED);
    BareSet(Remove(cs, DEGRADED), w, now);
    BareSetFields(Set(Remove(cs, DEGRADED), w, now), w.generation, fields, now);
  }

  /** The passes of a binding whose generation determines its spec. */
  ghost predicate BindingSeries(passes: seq<BS.Pass>, fieldsAt: int -> seq<Field>) {
    forall i :: 0 <= i < |passes| ==> passes[i].Valid() && passes[i].fields == fieldsAt(passes[i].generation)
  }

  lemma {:induction false} BindingPassesAgree(
    st1: BS.Status, st2: BS.Status, ps1: seq<BS.Pass>, ps2: seq<BS.Pass>,
    fields1: int -> seq<Field>, fields2: int -> seq<Field>)
    requires BS.OperatorWritten(st1, fields1) && BS.OperatorWritten(st2, fields2) && AlikeBindingStatus(st1, st2)
    requires BindingSeries(ps1, fields1) && BindingSeries(ps2, fields2) && |ps1| == |ps2|
    requires forall i :: 0 <= i < |ps1| ==> ps1[i].(fields := []) == ps2[i].(fields := [])
    ensures AlikeBindingStatus(BS.Stored(st1, ps1), BS.Stored(st2, ps2))
    ensures BS.OperatorWritten(BS.Stored(st1, ps1), fields1) && BS.OperatorWritten(BS.Stored(st2, ps2), fields2)
  {
    if ps1 != [] {
      var n := |ps1| - 1;
      BindingPassesAgree(st1, st2, ps1[..n], ps2[..n], fields1, fields2);
      assert ps1[n].(fields := []) == ps2[n].(fields := []);
      OneBindingStatusAgrees(BS.Stored(st1, ps1[..n]), BS.Stored(st2, ps2[..n]), ps1[n], ps2[n], fields1, fields2);
    }
  }

  function BindingPasses(inputs: seq<ObjectInput>): (ps: seq<BS.Pass>)
    requires forall i :: 0 <= i < |inputs| ==> Binds(inputs[i])
    ensures |ps| == |inputs| && forall i :: 0 <= i < |inputs| ==> ps[i] == BindingPass(inputs[i])
  {
    seq(|inputs|, i requires 0 <= i < |inputs| => BindingPass(inputs[i]))
  }

  /** Two series of binding passes over clusters that differ in unenforced fields only: the stored
      statuses stay the same but for FieldsNotEnforced. */
  lemma BindingStatusesAgree(
    st1: BS.Status, st2: BS.Status, is1: seq<ObjectInput>, is2: seq<ObjectInput>,
    fields1: int -> seq<Field>, fields2: int -> seq<Field>)
    requires BS.OperatorWritten(st1, fields1) && BS.OperatorWritten(st2, fields2) && AlikeBindingStatus(st1, st2)
    requires |is1| == |is2| && forall i :: 0 <= i < |is1| ==> Binds(is1[i]) && AlikeObjects(is1[i], is2[i])
    requires forall i :: 0 <= i < |is2| ==> Binds(is2[i])
    requires BindingSeries(BindingPasses(is1), fields1) && BindingSeries(BindingPasses(is2), fields2)
    ensures AlikeBindingStatus(BS.Stored(st1, BindingPasses(is1)), BS.Stored(st2, BindingPasses(is2)))
  {
    forall i | 0 <= i < |is1|
      ensures BindingPasses(is1)[i].(fields := []) == BindingPasses(is2)[i].(fields := [])
    {
      BindingOutcomesAgree(is1[i], is2[i]);
    }
    BindingPassesAgree(st1, st2, BindingPasses(is1), BindingPasses(is2), fields1, fields2);
  }

  // --------------------------------------------------------------------- endpoint statuses

  lemma EndpointObjectsAgree(s1: State, s2: State, k: Key)
    requires Alike(s1, s2) && Applying(s1.endpoints, k) && Applying(s2.endpoints, k)
    ensures var o1, o2 := s1.endpoints.passes[k].obj, s2.endpoints.passes[k].obj;
      && Target(k, o1) == Target(k, o2) && o1.workloadRef == o2.workloadRef
      && EndpointWithout(o1.spec) == EndpointWithout(o2.spec)
      && o1.spec.primaryMemberRef == o2.spec.primaryMemberRef && o1.spec.routingMode == o2.spec.routingMode
  {
    var o1, o2 := s1.endpoints.passes[k].obj, s2.endpoints.passes[k].obj;
    assert AlikeStored(o1, o2, EndpointWithout);
    assert EndpointWithout(o1.spec).primaryMemberRef == EndpointWithout(o2.spec).primaryMemberRef;
    assert EndpointWithout(o1.spec).routingMode == EndpointWithout(o2.spec).routingMode;
  }

  lemma EndpointWorkloadsAgree(s1: State, s2: State, t: Key, primary: string)
    requires Alike(s1, s2)
    ensures t in s1.workloads <==> t in s2.workloads
    ensures t in s1.workloads ==>
      var w1, w2 := s1.workloads[t].spec, s2.workloads[t].spec;
      && w1.federationRef == w2.federationRef
      && PrimaryDecision(FederationOf(s1.world, w1), w1.federationRef != "", primary, s1.world.members)
         == PrimaryDecision(FederationOf(s2.world, w2), w2.federationRef != "", primary, s2.world.members)
  {
    if t in s1.workloads {
      assert AlikeWorkload(s1.workloads[t], s2.workloads[t]);
      var w1, w2 := s1.workloads[t].spec, s2.workloads[t].spec;
      assert Enforced(w1).federationRef == Enforced(w2).federationRef;
      PrimaryAlike(s1.world, s2.world, w1, w2, primary);
    }
  }

  lemma EndpointTextsAgree(s1: State, s2: State, k: Key)
    requires Alike(s1, s2) && Applying(s1.endpoints, k) && Applying(s2.endpoints, k)
    ensures forall reason :: EndpointText(s1, k, reason) == EndpointText(s2, k, reason)
  {
    var t := Target(k, s1.endpoints.passes[k].obj);
    EndpointObjectsAgree(s1, s2, k);
    if t in s1.workloads {
      assert AlikeWorkload(s1.workloads[t], s2.workloads[t]);
      assert Enforced(s1.workloads[t].spec).federationRef == Enforced(s2.workloads[t].spec).federationRef;
    }
  }

  lemma EndpointProblemsAgree(s1: State, s2: State, k: Key)
    requires Alike(s1, s2) && Applying(s1.endpoints, k) && Applying(s2.endpoints, k)
    ensures EndpointProblem(s1, k) == EndpointProblem(s2, k)
    ensures EndpointWithout(s1.endpoints.passes[k].obj.spec) == EndpointWithout(s2.endpoints.passes[k].obj.spec)
  {
    var o := s1.endpoints.passes[k].obj;
    EndpointObjectsAgree(s1, s2, k);
    OwnsAlike(s1, s2, Target(k, o));
    EndpointWorkloadsAgree(s1, s2, Target(k, o), o.spec.primaryMemberRef);
  }

  /** An endpoint pass over such specs comes to the same outcome, with the same text. */
  lemma EndpointOutcomesAgree(i1: ObjectInput, i2: ObjectInput)
    requires AlikeObjects(i1, i2)
    ensures Routes(i1) <==> Routes(i2)
    ensures Routes(i1) ==> EndpointPass(i1).(fields := []) == EndpointPass(i2).(fields := [])
    ensures Routes(i1) ==> EndpointRequeue(EndpointPass(i1)) == EndpointRequeue(EndpointPass(i2))
  {
    PassAlike(i1.state.endpoints, i2.state.endpoints, i1.k, EndpointWithout);
    if Routes(i1) {
      EndpointProblemsAgree(i1.state, i2.state, i1.k);
      EndpointTextsAgree(i1.state, i2.state, i1.k);
    }
  }

  predicate AlikeEndpointStatus(st1: ES.Status, st2: ES.Status) {
    st1.(conditions := []) == st2.(conditions := []) && Bare(st1.conditions) == Bare(st2.conditions)
  }

  lemma OneEndpointStatusAgrees(st1: ES.Status, st2: ES.Status, p1: ES.Pass, p2: ES.Pass,
                                fields1: int -> seq<Field>, fields2: int -> seq<Field>)
    requires ES.OperatorWritten(st1, fields1) && ES.OperatorWritten(st2, fields2) && AlikeEndpointStatus(st1, st2)
    requires p1.(fields := []) == p2.(fields := []) && st1.lastTransition != Some(p1.now)
    requires p1.fields == fields1(p1.generation) && p2.fields == fields2(p2.generation)
    ensures AlikeEndpointStatus(ES.StoredAfter(st1, p1), ES.StoredAfter(st2, p2))
  {
    BareFind(st1.conditions, READY);
    BareFind(st2.conditions, READY);
    BareFind(st1.conditions, DEGRADED);
    BareFind(st2.conditions, DEGRADED);
    var g, now := p1.generation, p1.now;
    match p1.outcome {
      case IsDegraded(reason, m) =>
        ES.LostExactlyOnMessageChange(st1, g, reason, m, fields1, now);
        ES.LostExactlyOnMessageChange(st2, g, reason, m, fields2, now);
        BareSetBoth(st1.conditions, ES.DegradedTrue(g, reason, m), ES.ReadyFalse(g, reason, m), p1.fields, now);
        BareSetBoth(st2.conditions, ES.DegradedTrue(g, reason, m), ES.ReadyFalse(g, reason, m), p2.fields, now);
      case IsReady(_, _) =>
        BareReady(st1.conditions, ES.ReadyTrue(g), p1.fields, now);
        BareReady(st2.conditions, ES.ReadyTrue(g), p2.fields, now);
    }
  }

  lemma EndpointStaysWritten(st: ES.Status, p: ES.Pass, fieldsAt: int -> seq<Field>)
    requires ES.OperatorWritten(st, fieldsAt) && p.fields == fieldsAt(p.generation)
    ensures ES.OperatorWritten(ES.StoredAfter(st, p), fieldsAt)
  {
    match p.outcome {
      case IsDegraded(reason, m) => ES.StaysOperatorWritten(st, p.generation, reason, m, "", [], fieldsAt, p.now);
      case IsReady(active, hostnames) =>
        ES.StaysOperatorWritten(st, p.generation, Reconciled, NoText, active, hostnames, fieldsAt, p.now);
    }
  }

  /** The stored time, if any, lies before `now`. */
  predicate StampedBefore(st: ES.Status, now: int) { st.lastTransition.Some? ==> st.lastTransition.value < now }

  lemma StampedByThen(st: ES.Status, p: ES.Pass, later: int)
    requires StampedBefore(st, p.now) && p.now < later
    ensures StampedBefore(ES.StoredAfter(st, p), later)
  {
  }

  /** The passes of an endpoint whose generation determines its spec, with an advancing clock. */
  ghost predicate EndpointSeries(st: ES.Status, passes: seq<ES.Pass>, fieldsAt: int -> seq<Field>) {
    && ES.ClockAdvances(passes)
    && forall i :: 0 <= i < |passes| ==>
         passes[i].fields == fieldsAt(passes[i].generation) && StampedBefore(st, passes[i].now)
  }

  /** What a series keeps, for one run. */
  lemma {:induction false} EndpointSeriesKeeps(
    st: ES.Status, passes: seq<ES.Pass>, fieldsAt: int -> seq<Field>, later: int)
    requires ES.OperatorWritten(st, fieldsAt) && EndpointSeries(st, passes, fieldsAt) && StampedBefore(st, later)
    requires forall i :: 0 <= i < |passes| ==> passes[i].now < later
    ensures ES.OperatorWritten(ES.Stored(st, passes), fieldsAt) && StampedBefore(ES.Stored(st, passes), later)
  {
    if passes != [] {
      var before, last := passes[..|passes| - 1], passes[|passes| - 1];
      EndpointSeriesKeeps(st, before, fieldsAt, last.now);
      EndpointStaysWritten(ES.Stored(st, before), last, fieldsAt);
      StampedByThen(ES.Stored(st, before), last, later);
      ES.StoredLast(st, passes);
    }
  }

  lemma {:induction false} EndpointPassesAgree(
    st1: ES.Status, st2: ES.Status, ps1: seq<ES.Pass>, ps2: seq<ES.Pass>,
    fields1: int -> seq<Field>, fields2: int -> seq<Field>)
    requires ES.OperatorWritten(st1, fields1) && ES.OperatorWritten(st2, fields2) && AlikeEndpointStatus(st1, st2)
    requires EndpointSeries(st1, ps1, fields1) && EndpointSeries(st2, ps2, fields2) && |ps1| == |ps2|
    requires forall i :: 0 <= i < |ps1| ==> ps1[i].(fields := []) == ps2[i].(fields := [])
    ensures AlikeEndpointStatus(ES.Stored(st1, ps1), ES.Stored(st2, ps2))
  {
    if ps1 != [] {
      var n := |ps1| - 1;
      EndpointPassesAgree(st1, st2, ps1[..n], ps2[..n], fields1, fields2);
      assert ps1[n].(fields := []) == ps2[n].(fields := []);
      EndpointSeriesKeeps(st1, ps1[..n], fields1, ps1[n].now);
      EndpointSeriesKeeps(st2, ps2[..n], fields2, ps2[n].now);
      OneEndpointStatusAgrees(ES.Stored(st1, ps1[..n]), ES.Stored(st2, ps2[..n]), ps1[n], ps2[n], fields1, fields2);
      ES.StoredLast(st1, ps1);
      ES.StoredLast(st2, ps2);
    }
  }

  function EndpointPasses(inputs: seq<ObjectInput>): (ps: seq<ES.Pass>)
    requires forall i :: 0 <= i < |inputs| ==> Routes(inputs[i])
    ensures |ps| == |inputs| && forall i :: 0 <= i < |inputs| ==> ps[i] == EndpointPass(inputs[i])
  {
    seq(|inputs|, i requires 0 <= i < |inputs| => EndpointPass(inputs[i]))
  }

  /** Two series of endpoint passes: the same, although the degraded writer can lose updates; it loses
      them in both runs or in neither. */
  lemma EndpointStatusesAgree(
    st1: ES.Status, st2: ES.Status, is1: seq<ObjectInput>, is2: seq<ObjectInput>,
    fields1: int -> seq<Field>, fields2: int -> seq<Field>)
    requires ES.OperatorWritten(st1, fields1) && ES.OperatorWritten(st2, fields2) && AlikeEndpointStatus(st1, st2)
    requires |is1| == |is2| && forall i :: 0 <= i < |is1| ==> Routes(is1[i]) && AlikeObjects(is1[i], is2[i])
    requires forall i :: 0 <= i < |is2| ==> Routes(is2[i])
    requires EndpointSeries(st1, EndpointPasses(is1), fields1) && EndpointSeries(st2, EndpointPasses(is2), fields2)
    ensures AlikeEndpointStatus(ES.Stored(st1, EndpointPasses(is1)), ES.Stored(st2, EndpointPasses(is2)))
  {
    forall i | 0 <= i < |is1|
      ensures EndpointPasses(is1)[i].(fields := []) == EndpointPasses(is2)[i].(fields := [])
    {
      EndpointOutcomesAgree(is1[i], is2[i]);
    }
    EndpointPassesAgree(st1, st2, EndpointPasses(is1), EndpointPasses(is2), fields1, fields2);
  }

  // ------------------------------------------------------------------- Federation statuses

  /** One pass of a Federation: its spec, the stored members, what List answers for the selector. */
  datatype FederationInput = FederationInput(
    spec: FederationSpec, store: Store, items: seq<ClusterMember>, generation: int, now: int)

  predicate AlikeFederations(i1: FederationInput, i2: FederationInput) {
    FederationWithout(i1.spec) == FederationWithout(i2.spec) && i1 == i2.(spec := i1.spec)
  }

  /** Resolution does not depend on the unenforced field: the same list, or the same failure. */
  lemma FederationOutcomesAgree(i1: FederationInput, i2: FederationInput)
    requires AlikeFederations(i1, i2)
    ensures Resolution(i1.spec, i1.store, i1.items) == Resolution(i2.spec, i2.store, i2.items)
    ensures Answered(i1.spec, i1.store, i1.items) <==> Answered(i2.spec, i2.store, i2.items)
    ensures forall ms :: Resolves(i1.spec, i1.store, ms) <==> Resolves(i2.spec, i2.store, ms)
  {
    assert FederationWithout(i1.spec).members == FederationWithout(i2.spec).members;
    assert FederationWithout(i1.spec).memberSelector == FederationWithout(i2.spec).memberSelector;
    assert forall m :: Selected(i1.spec, m) == Selected(i2.spec, m);
    assert forall n :: Listed(i1.spec, n) == Listed(i2.spec, n);
  }

  /** A failed resolution ends the pass before the status is written. */
  ghost function FederationStored(st: FS.Status, i: FederationInput): FS.Status {
    match Resolution(i.spec, i.store, i.items)
    case None => st
    case Some(members) => FS.Stored(st, i.generation, members, FederationFields(i.spec), i.now)
  }

  predicate AlikeFederationStatus(st1: FS.Status, st2: FS.Status) {
    st1.(conditions := []) == st2.(conditions := []) && Bare(st1.conditions) == Bare(st2.conditions)
  }

  lemma OneFederationStatusAgrees(st1: FS.Status, st2: FS.Status, i1: FederationInput, i2: FederationInput,
                                  fields1: int -> seq<Field>, fields2: int -> seq<Field>)
    requires FS.OperatorWritten(st1, fields1) && FS.OperatorWritten(st2, fields2) && AlikeFederationStatus(st1, st2)
    requires AlikeFederations(i1, i2)
    requires FederationFields(i1.spec) == fields1(i1.generation) && FederationFields(i2.spec) == fields2(i2.generation)
    ensures AlikeFederationStatus(FederationStored(st1, i1), FederationStored(st2, i2))
    ensures FS.OperatorWritten(FederationStored(st1, i1), fields1)
    ensures FS.OperatorWritten(FederationStored(st2, i2), fields2)
  {
    FederationOutcomesAgree(i1, i2);
    match Resolution(i1.spec, i1.store, i1.items) {
      case None =>
      case Some(members) =>
        FS.WriteExact(st1, i1.generation, members, fields1, i1.now);
        FS.WriteExact(st2, i2.generation, members, fields2, i2.now);
        BareFederation(st1.conditions, i1.generation, members, fields1(i1.generation), i1.now);
        BareFederation(st2.conditions, i2.generation, members, fields2(i2.generation), i2.now);
    }
  }

  lemma BareFederation(cs: seq<Condition>, generation: int, members: seq<ClusterMember>, fields: seq<Field>, now: int)
    ensures Bare(FS.ConditionsAfter(cs, generation, members, fields, now))
         == if FS.AllReady(members) then Remove(Set(Bare(cs), FS.ReadyTrue(generation), now), DEGRADED)
            else if members == [] then Remove(Set(Bare(cs), FS.ReadyNone(generation), now), DEGRADED)
            else Set(Set(Bare(cs), FS.ReadySome(generation), now), FS.DegradedSome(generation), now)
  {
    if FS.AllReady(members) || members == [] {
      var w := if FS.AllReady(members) then FS.ReadyTrue(generation) else FS.ReadyNone(generation);
      BareSet(cs, w, now);
      BareRemove(Set(cs, w, now), DEGRADED);
      BareSetFields(Remove(Set(cs, w, now), DEGRADED), generation, fields, now);
    } else {
      BareSetBoth(cs, FS.ReadySome(generation), FS.DegradedSome(generation), fields, now);
    }
  }

  ghost function FederationStatusAfter(st: FS.Status, inputs: seq<FederationInput>): FS.Status {
    if inputs == [] then st
    else FederationStored(FederationStatusAfter(st, inputs[..|inputs| - 1]), inputs[|inputs| - 1])
  }

  /** Two series of Federation passes over specs that differ in defaultTargetPolicy only. */
  lemma {:induction false} FederationStatusesAgree(
    st1: FS.Status, st2: FS.Status, is1: seq<FederationInput>, is2: seq<FederationInput>,
    fields1: int -> seq<Field>, fields2: int -> seq<Field>)
    requires FS.OperatorWritten(st1, fields1) && FS.OperatorWritten(st2, fields2) && AlikeFederationStatus(st1, st2)
    requires |is1| == |is2| && forall i :: 0 <= i < |is1| ==> AlikeFederations(is1[i], is2[i])
    requires forall i :: 0 <= i < |is1| ==> FederationFields(is1[i].spec) == fields1(is1[i].generation)
    requires forall i :: 0 <= i < |is2| ==> FederationFields(is2[i].spec) == fields2(is2[i].generation)
    ensures AlikeFederationStatus(FederationStatusAfter(st1, is1), FederationStatusAfter(st2, is2))
    ensures FS.OperatorWritten(FederationStatusAfter(st1, is1), fields1)
    ensures FS.OperatorWritten(FederationStatusAfter(st2, is2), fields2)
  {
    if is1 != [] {
      var n := |is1| - 1;
      FederationStatusesAgree(st1, st2, is1[..n], is2[..n], fields1, fields2);
      OneFederationStatusAgrees(FederationStatusAfter(st1, is1[..n]), FederationStatusAfter(st2, is2[..n]),
                                is1[n], is2[n], fields1, fields2);
    }
  }
}
