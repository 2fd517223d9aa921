/** A DatastoreBinding's stored status over a whole run, and what an uninterrupted pass of a binding or a
    Workload reports. */
module BindingRuns {
  import opened Types
  import opened Api
  import opened Conditions
  import opened Placement
  import opened Finalizers
  import opened Cluster
  import opened Preflight
  import opened Unenforced
  import opened PassReports
  import opened Passes
  import BS = BindingStatus

  const EMPTY_STATUS := BS.Status([], 0, NoText)

  /** The pass of a binding that completed last. */
  datatype LastPass = NoPass | Injection | Refusal(problem: Message)

  ghost function LastNext(s: State, last: LastPass, step: Step, b: Key): LastPass {
    if step == InjectBinding(b) && Applying(s.bindings, b) && Fresh(s.bindings, b) then
      if CanInject(s, b) then Injection else Refusal(BindingFinding(s, b).value)
    else if step.OnBinding? && (b !in s.bindings.stored || b !in Next(s, step).bindings.stored) then NoPass
    else last
  }

  ghost function LastOf(s: State, steps: seq<Step>, b: Key): LastPass {
    if steps == [] then NoPass
    else
      var n := |steps| - 1;
      LastNext(Run(s, steps[..n]), LastOf(s, steps[..n], b), steps[n], b)
  }

  /** The stored status: each completed pass written over the one before; none for a binding that is gone or
      new. */
  ghost function StatusNext(s: State, st: Option<BS.Status>, step: Step, m: Moment, b: Key): Option<BS.Status> {
    var report := BindingReport(b)(s, step, m);
    if report.Some? then
      if report.value.Valid() then Some(BS.StoredAfter(if st.Some? then st.value else EMPTY_STATUS, report.value))
      else st
    else if step.OnBinding? && (b !in s.bindings.stored || b !in Next(s, step).bindings.stored) then None
    else st
  }

  ghost function StatusAlong(s: State, steps: seq<Step>, at: nat -> Moment, b: Key): Option<BS.Status> {
    if steps == [] then None
    else
      var n := |steps| - 1;
      StatusNext(Run(s, steps[..n]), StatusAlong(s, steps[..n], at, b), steps[n], at(n), b)
  }

  /** Ready, or degraded with the problem in Message and in both conditions. */
  ghost predicate StatusFollows(st: Option<BS.Status>, last: LastPass) {
    match last
    case NoPass => st.None?
    case Injection =>
      && st.Some? && st.value.message == BindingReadyText && Absent(st.value.conditions, DEGRADED)
      && exists g :: Says(st.value.conditions, READY, StatusTrue, g, Reconciled, About(Reconciled, []))
    case Refusal(m) =>
      && st.Some? && m.About? && st.value.message == m
      && exists g ::
           && Says(st.value.conditions, DEGRADED, StatusTrue, g, m.reason, m)
           && Says(st.value.conditions, READY, StatusFalse, g, m.reason, m)
  }

  lemma InjectionFollows(st: BS.Status, p: BS.Pass)
    requires p.problem.None?
    ensures StatusFollows(Some(BS.StoredAfter(st, p)), Injection)
  {
    var g, cs := p.generation, BS.StoredAfter(st, p).conditions;
    BS.ReadyStaysOperatorWritten(st, g, p.fields, (_: int) => [], p.now);
    ShowsSays(cs, BS.ReadyTrue(g));
    AbsentIs(cs, DEGRADED);
  }

  /** A degraded pass writes, or finds its message stored already. */
  lemma RefusalFollows(st: Option<BS.Status>, p: BS.Pass, last: LastPass)
    requires StatusFollows(st, last) && p.Valid() && p.problem.Some?
    ensures var was := if st.Some? then st.value else EMPTY_STATUS;
      StatusFollows(Some(BS.StoredAfter(was, p)), Refusal(p.problem.value))
  {
    var was, g, m := if st.Some? then st.value else EMPTY_STATUS, p.generation, p.problem.value;
    var d, r := BS.DegradedTrue(g, m), BS.ReadyFalse(g, m);
    if BS.DegradedWrites(was, g, m, p.fields) {
      SetBothTypes(was.conditions, d, r, p.fields, p.now);
      ShowsSays(SetBoth(was.conditions, d, r, p.fields, p.now), d);
      ShowsSays(SetBoth(was.conditions, d, r, p.fields, p.now), r);
    } else {
      AbsentIs(was.conditions, DEGRADED);
    }
  }

  lemma FindingIs(s: State, b: Key)
    requires Applying(s.bindings, b)
    ensures BindingFinding(s, b).None? <==> CanInject(s, b)
    ensures BindingFinding(s, b).Some? ==> BindingFinding(s, b).value.About?
  {
  }

  lemma StatusFollowsNext(s: State, st: Option<BS.Status>, last: LastPass, step: Step, m: Moment, b: Key)
    requires StatusFollows(st, last)
    ensures StatusFollows(StatusNext(s, st, step, m, b), LastNext(s, last, step, b))
  {
    var report := BindingReport(b)(s, step, m);
    if report.Some? {
      FindingIs(s, b);
      if CanInject(s, b) {
        InjectionFollows(if st.Some? then st.value else EMPTY_STATUS, report.value);
      } else {
        RefusalFollows(st, report.value, last);
      }
    }
  }

  /** Over every run the stored status of a binding tells the pass that completed last: Ready iff it injected,
      and otherwise the problem it found. */
  lemma {:induction false} StoredStatusFollows(s: State, steps: seq<Step>, at: nat -> Moment, b: Key)
    ensures StatusFollows(StatusAlong(s, steps, at, b), LastOf(s, steps, b))
  {
    if steps != [] {
      var n := |steps| - 1;
      StoredStatusFollows(s, steps[..n], at, b);
      StatusFollowsNext(Run(s, steps[..n]), StatusAlong(s, steps[..n], at, b), LastOf(s, steps[..n], b), steps[n],
                        at(n), b);
    }
  }

  // ------------------------------------------------------------ what uninterrupted passes report

  lemma ReportsOfThree<P>(s: State, a: Step, b: Step, c: Step, at: nat -> Moment,
                          report: (State, Step, Moment) -> Option<P>)
    ensures var r1, r2, r3 := report(s, a, at(0)), report(Next(s, a), b, at(1)), report(Next(Next(s, a), b), c, at(2));
      Reports(s, [a, b, c], at, report)
      == (if r1.Some? then [r1.value] else []) + (if r2.Some? then [r2.value] else [])
         + (if r3.Some? then [r3.value] else [])
  {
    assert [a, b, c][..2] == [a, b] && [a, b][..1] == [a] && [a][..0] == [];
    TwoSteps(s, a, b);
    RunLast(s, [], a);
    assert [] + [a] == [a];
    assert Run(s, [a]) == Next(s, a);
    assert Reports(s, [a], at, report) == if report(s, a, at(0)).Some? then [report(s, a, at(0)).value] else [];
  }

  /** An uninterrupted Workload pass reports once: what the whole reconciliation comes to. */
  lemma WorkloadPassReports(s: State, k: Key, at: nat -> Moment, m: Moment)
    requires k in s.workloads && s.workloads[k].key == k && k !in s.workloadPass
    requires forall i: nat :: at(i) == m
    ensures Reports(s, WorkloadSteps(k), at, WorkloadReport(k))
         == [PassOf(Input(s.world, s.objects, s.workloads[k], m.generation, m.now))]
  {
    ReportsOfThree(s, StartWorkload(k), ApplyDeployment(k), ApplyService(k), at, WorkloadReport(k));
    var w, one, report := s.workloads[k], StartedWorkload(s, k), WorkloadReport(k);
    var two := AppliedDeployment(one, k);
    assert report(one, ApplyDeployment(k), at(1)).None?;
    if Gate(s.world, s.objects, w) == Proceed {
      assert report(s, StartWorkload(k), at(0)).None?;
      AppliedReports(s, k, m);
    } else {
      assert one == s && two == s;
      ToldIs(s, w, m);
      assert report(s, StartWorkload(k), at(0)) == Some(Told(s, w, Gate(s.world, s.objects, w), m));
      assert report(s, ApplyService(k), at(2)).None?;
    }
  }

  lemma ToldIs(s: State, w: Workload, m: Moment)
    ensures var (o, v) := Pass(s.world, s.objects, w);
      Told(s.(objects := o), w, v, m) == PassOf(Input(s.world, s.objects, w, m.generation, m.now))
  {
  }

  /** The last step reports what it has read back, which the Service does not change. */
  lemma AppliedReports(s: State, k: Key, m: Moment)
    requires k in s.workloads && s.workloads[k].key == k && k !in s.workloadPass
    requires Gate(s.world, s.objects, s.workloads[k]) == Proceed
    ensures WorkloadReport(k)(AppliedDeployment(StartedWorkload(s, k), k), ApplyService(k), m)
         == Some(PassOf(Input(s.world, s.objects, s.workloads[k], m.generation, m.now)))
  {
    var w, one := s.workloads[k], StartedWorkload(s, k);
    var two := AppliedDeployment(one, k);
    assert two == one.(objects := WriteDeployment(s.objects, w), workloadPass := one.workloadPass[k := ToService(w)]);
    assert OwnershipVerdict(s.objects, w) == Proceed && !ServiceConflict(two.objects, w);
    assert two.workloadPass[k] == ToService(w) && k in two.objects.deployments;
    assert WorkloadReport(k)(two, ApplyService(k), m) == Some(Told(two, w, Proceed, m));
    var o := WriteService(two.objects, w);
    assert o.deployments == two.objects.deployments;
    ToldIs(s, w, m);
    assert Told(two, w, Proceed, m) == Told(s.(objects := o), w, Proceed, m);
  }

  /** A binding pass reports once: ready if what it asks for is there, and a problem if not. */
  lemma BindingPassReports(s: State, b: Key, at: nat -> Moment, m: Moment)
    requires b in s.bindings.stored && b !in s.bindings.passes && !s.bindings.stored[b].deleting
    requires forall i: nat :: at(i) == m
    ensures var o, reports := s.bindings.stored[b], Reports(s, BindingSteps(b), at, BindingReport(b));
      && |reports| == 1
      && (reports[0].problem.None? <==>
            BindingFits(s, Target(b, o), Resolve(b, o.spec.connectionRef), o.spec.engine))
      && reports[0].generation == m.generation && reports[0].now == m.now
      && reports[0].fields == BindingFields(o.spec)
  {
    ReportsOfThree(s, OnBinding(StartPass(b)), OnBinding(WriteFinalizer(b)), InjectBinding(b), at, BindingReport(b));
    BindingStarts(s, b);
    var one, report := Next(s, OnBinding(StartPass(b))), BindingReport(b);
    var mid := Next(one, OnBinding(WriteFinalizer(b)));
    assert report(s, OnBinding(StartPass(b)), at(0)).None?;
    assert report(one, OnBinding(WriteFinalizer(b)), at(1)).None?;
    assert Fresh(mid.bindings, b);
    FindingIs(mid, b);
    assert report(mid, InjectBinding(b), at(2)) == Some(BindingPass(ObjectInput(mid, b, m.generation, m.now)));
  }
}
