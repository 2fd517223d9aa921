/** Non-interference, joined up: the passes of one run report their statuses and requeues, and two runs
    that differ in unenforced fields only report the same. */
module UnenforcedRuns {
  import opened Types
  import opened Api
  import opened Conditions
  import opened Placement
  import opened Finalizers
  import opened Cluster
  import opened Unenforced
  import opened PassReports
  import opened UnenforcedStatus
  import SR = ServiceRouting
  import WS = WorkloadStatus
  import BS = BindingStatus
  import ES = EndpointStatus

  // ----------------------------------------------------------------- collecting along a run

  /** On alike states and steps there is a report in both runs or in neither, the same but for what
      `bare` forgets. */
  ghost predicate Agrees<P(!new)>(report: (State, Step, Moment) -> Option<P>, bare: P -> P) {
    forall s1, s2, a, b, m :: Alike(s1, s2) && AlikeStep(a, b) ==> AgreeAt(report(s1, a, m), report(s2, b, m), bare)
  }

  predicate AgreeAt<P(==)>(r1: Option<P>, r2: Option<P>, bare: P -> P) {
    r1.Some? == r2.Some? && (r1.Some? ==> bare(r1.value) == bare(r2.value))
  }

  lemma {:induction false} ReportsAgree<P(!new)>(
    s1: State, s2: State, steps1: seq<Step>, steps2: seq<Step>, at: nat -> Moment,
    report: (State, Step, Moment) -> Option<P>, bare: P -> P)
    requires Alike(s1, s2) && |steps1| == |steps2| && Agrees(report, bare)
    requires forall i :: 0 <= i < |steps1| ==> AlikeStep(steps1[i], steps2[i])
    ensures var r1, r2 := Reports(s1, steps1, at, report), Reports(s2, steps2, at, report);
      |r1| == |r2| && forall i :: 0 <= i < |r1| ==> bare(r1[i]) == bare(r2[i])
  {
    if steps1 != [] {
      var n := |steps1| - 1;
      ReportsAgree(s1, s2, steps1[..n], steps2[..n], at, report, bare);
      RunsAgree(s1, s2, steps1[..n], steps2[..n]);
      var t1, t2 := Run(s1, steps1[..n]), Run(s2, steps2[..n]);
      assert AgreeAt(report(t1, steps1[n], at(n)), report(t2, steps2[n], at(n)), bare);
    }
  }

  // ------------------------------------------------------------------- what each step reports

  function BareWorkload(p: WS.Pass): WS.Pass { p.(fields := []) }

  function BareBinding(p: BS.Pass): BS.Pass { p.(fields := []) }

  function BareEndpoint(p: ES.Pass): ES.Pass { p.(fields := []) }

  lemma ToldAgree(s1: State, s2: State, w1: Workload, w2: Workload, v: Verdict, m: Moment)
    requires Alike(s1, s2) && AlikeWorkload(w1, w2)
    ensures Told(s1, w1, v, m).(fields := []) == Told(s2, w2, v, m).(fields := [])
  {
    MembershipAlike(s1.world, s2.world, w1.spec, w2.spec);
    assert Needs(w1.spec) == Needs(w2.spec);
    FirstMissingNameAlike(s1.world, s2.world, w1.key.ns, Needs(w1.spec));
  }

  lemma StartReportAgrees(s1: State, s2: State, k: Key, m: Moment)
    requires Alike(s1, s2)
    ensures AgreeAt(WorkloadReport(k)(s1, StartWorkload(k), m), WorkloadReport(k)(s2, StartWorkload(k), m),
                    BareWorkload)
  {
    if k in s1.workloads {
      var w1, w2 := s1.workloads[k], s2.workloads[k];
      GateAlike(s1.world, s2.world, s1.objects, w1, w2);
      ToldAgree(s1, s2, w1, w2, Gate(s1.world, s1.objects, w1), m);
    }
  }

  lemma DoneReportAgrees(s1: State, s2: State, k: Key, m: Moment)
    requires Alike(s1, s2)
    ensures AgreeAt(WorkloadReport(k)(s1, ApplyService(k), m), WorkloadReport(k)(s2, ApplyService(k), m), BareWorkload)
  {
    if k in s1.workloadPass {
      assert AlikePhase(s1.workloadPass[k], s2.workloadPass[k]);
      ToldAgree(s1, s2, s1.workloadPass[k].w, s2.workloadPass[k].w, Proceed, m);
      WritesAlike(s1.objects, s1.workloadPass[k].w, s2.workloadPass[k].w);
    }
  }

  lemma WorkloadReportAgrees(k: Key)
    ensures Agrees(WorkloadReport(k), BareWorkload)
  {
    forall s1, s2, a, b, m | Alike(s1, s2) && AlikeStep(a, b)
      ensures AgreeAt(WorkloadReport(k)(s1, a, m), WorkloadReport(k)(s2, b, m), BareWorkload)
    {
      if a == StartWorkload(k) {
        StartReportAgrees(s1, s2, k, m);
      } else if a == ApplyService(k) {
        DoneReportAgrees(s1, s2, k, m);
      } else {
        assert WorkloadReport(k)(s1, a, m).None? && WorkloadReport(k)(s2, b, m).None?;
      }
    }
  }

  lemma BindingReportAgrees(k: Key)
    ensures Agrees(BindingReport(k), BareBinding)
  {
    forall s1, s2, a, b, m | Alike(s1, s2) && AlikeStep(a, b)
      ensures AgreeAt(BindingReport(k)(s1, a, m), BindingReport(k)(s2, b, m), BareBinding)
    {
      BindingOutcomesAgree(ObjectInput(s1, k, m.generation, m.now), ObjectInput(s2, k, m.generation, m.now));
    }
  }

  lemma DegradedReportAgrees(s1: State, s2: State, k: Key, m: Moment)
    requires Alike(s1, s2)
    ensures AgreeAt(EndpointReport(k)(s1, AnnotateService(k), m), EndpointReport(k)(s2, AnnotateService(k), m),
                    BareEndpoint)
  {
    EndpointOutcomesAgree(ObjectInput(s1, k, m.generation, m.now), ObjectInput(s2, k, m.generation, m.now));
    PassAlike(s1.endpoints, s2.endpoints, k, EndpointWithout);
    if Applying(s1.endpoints, k) { CanAnnotateAlike(s1, s2, k); }
  }

  lemma ReportedSpecsAgree(l1: Ledger<EndpointSpec>, l2: Ledger<EndpointSpec>, k: Key)
    requires AlikeLedger(l1, l2, EndpointWithout) && k in l1.passes
    ensures Reporting(l1, k) == Reporting(l2, k) && Fresh(l1, k) == Fresh(l2, k) && k in l2.passes
    ensures var e1, e2 := l1.passes[k].obj.spec, l2.passes[k].obj.spec;
      SR.ActiveMember(e1) == SR.ActiveMember(e2) && e1.hostnames == e2.hostnames
  {
    PassAlike(l1, l2, k, EndpointWithout);
    var e1, e2 := l1.passes[k].obj.spec, l2.passes[k].obj.spec;
    assert EndpointWithout(e1).hostnames == EndpointWithout(e2).hostnames;
    assert EndpointWithout(e1).primaryMemberRef == EndpointWithout(e2).primaryMemberRef;
    assert EndpointWithout(e1).routingMode == EndpointWithout(e2).routingMode;
  }

  lemma ReadyReportAgrees(s1: State, s2: State, k: Key, m: Moment)
    requires AlikeLedger(s1.endpoints, s2.endpoints, EndpointWithout)
    ensures AgreeAt(EndpointReport(k)(s1, ReportEndpoint(k), m), EndpointReport(k)(s2, ReportEndpoint(k), m),
                    BareEndpoint)
  {
    PassAlike(s1.endpoints, s2.endpoints, k, EndpointWithout);
    if Reporting(s1.endpoints, k) && Fresh(s1.endpoints, k) {
      ReportedSpecsAgree(s1.endpoints, s2.endpoints, k);
      var r1, r2 := EndpointReport(k)(s1, ReportEndpoint(k), m), EndpointReport(k)(s2, ReportEndpoint(k), m);
      assert r1.Some? && r2.Some?;
      assert BareEndpoint(r1.value) == BareEndpoint(r2.value);
    }
  }

  lemma EndpointReportAgrees(k: Key)
    ensures Agrees(EndpointReport(k), BareEndpoint)
  {
    forall s1, s2, a, b, m | Alike(s1, s2) && AlikeStep(a, b)
      ensures AgreeAt(EndpointReport(k)(s1, a, m), EndpointReport(k)(s2, b, m), BareEndpoint)
    {
      if a == AnnotateService(k) {
        DegradedReportAgrees(s1, s2, k, m);
      } else if a == ReportEndpoint(k) {
        ReadyReportAgrees(s1, s2, k, m);
      }
    }
  }

  // --------------------------------------------------------------------- the joined statement

  /** Two alike runs. */
  ghost predicate AlikeRuns(s1: State, s2: State, steps1: seq<Step>, steps2: seq<Step>) {
    Alike(s1, s2) && |steps1| == |steps2| && forall i :: 0 <= i < |steps1| ==> AlikeStep(steps1[i], steps2[i])
  }

  /** Runs that differ in unenforced fields only: the passes of each Workload report the same and requeue
      alike, one by one, and its stored status is the same apart from FieldsNotEnforced. */
  lemma WorkloadRunsAgree(s1: State, s2: State, steps1: seq<Step>, steps2: seq<Step>, at: nat -> Moment, k: Key,
                          st1: WS.Status, st2: WS.Status, member: string)
    requires AlikeRuns(s1, s2, steps1, steps2) && AlikeWorkloadStatus(st1, st2)
    ensures var r1, r2 := Reports(s1, steps1, at, WorkloadReport(k)), Reports(s2, steps2, at, WorkloadReport(k));
      && |r1| == |r2|
      && (forall i :: 0 <= i < |r1| ==> BareWorkload(r1[i]) == BareWorkload(r2[i]))
      && (forall i :: 0 <= i < |r1| ==> WorkloadRequeue(r1[i]) == WorkloadRequeue(r2[i]))
      && AlikeWorkloadStatus(WS.Stored(st1, member, r1), WS.Stored(st2, member, r2))
  {
    WorkloadReportAgrees(k);
    ReportsAgree(s1, s2, steps1, steps2, at, WorkloadReport(k), BareWorkload);
    var r1, r2 := Reports(s1, steps1, at, WorkloadReport(k)), Reports(s2, steps2, at, WorkloadReport(k));
    forall i | 0 <= i < |r1|
      ensures r1[i].(fields := []) == r2[i].(fields := []) && WorkloadRequeue(r1[i]) == WorkloadRequeue(r2[i])
    {
      assert BareWorkload(r1[i]) == BareWorkload(r2[i]);
    }
    WorkloadPassesAgree(st1, st2, member, r1, r2);
  }

  /** The same for each binding; its generation determines its spec. */
  lemma BindingRunsAgree(s1: State, s2: State, steps1: seq<Step>, steps2: seq<Step>, at: nat -> Moment, k: Key,
                         st1: BS.Status, st2: BS.Status, fields1: int -> seq<Field>, fields2: int -> seq<Field>)
    requires AlikeRuns(s1, s2, steps1, steps2) && AlikeBindingStatus(st1, st2)
    requires BS.OperatorWritten(st1, fields1) && BS.OperatorWritten(st2, fields2)
    requires BindingSeries(Reports(s1, steps1, at, BindingReport(k)), fields1)
    requires BindingSeries(Reports(s2, steps2, at, BindingReport(k)), fields2)
    ensures var r1, r2 := Reports(s1, steps1, at, BindingReport(k)), Reports(s2, steps2, at, BindingReport(k));
      && |r1| == |r2|
      && (forall i :: 0 <= i < |r1| ==> BareBinding(r1[i]) == BareBinding(r2[i]))
      && (forall i :: 0 <= i < |r1| ==> BindingRequeue(r1[i]) == BindingRequeue(r2[i]))
      && AlikeBindingStatus(BS.Stored(st1, r1), BS.Stored(st2, r2))
  {
    BindingReportAgrees(k);
    ReportsAgree(s1, s2, steps1, steps2, at, BindingReport(k), BareBinding);
    var r1, r2 := Reports(s1, steps1, at, BindingReport(k)), Reports(s2, steps2, at, BindingReport(k));
    forall i | 0 <= i < |r1|
      ensures r1[i].(fields := []) == r2[i].(fields := []) && BindingRequeue(r1[i]) == BindingRequeue(r2[i])
    {
      assert BareBinding(r1[i]) == BareBinding(r2[i]);
    }
    BindingPassesAgree(st1, st2, r1, r2, fields1, fields2);
  }

  /** And for each endpoint, with an advancing clock. */
  lemma EndpointRunsAgree(s1: State, s2: State, steps1: seq<Step>, steps2: seq<Step>, at: nat -> Moment, k: Key,
                          st1: ES.Status, st2: ES.Status, fields1: int -> seq<Field>, fields2: int -> seq<Field>)
    requires AlikeRuns(s1, s2, steps1, steps2) && AlikeEndpointStatus(st1, st2)
    requires ES.OperatorWritten(st1, fields1) && ES.OperatorWritten(st2, fields2)
    requires EndpointSeries(st1, Reports(s1, steps1, at, EndpointReport(k)), fields1)
    requires EndpointSeries(st2, Reports(s2, steps2, at, EndpointReport(k)), fields2)
    ensures var r1, r2 := Reports(s1, steps1, at, EndpointReport(k)), Reports(s2, steps2, at, EndpointReport(k));
      && |r1| == |r2|
      && (forall i :: 0 <= i < |r1| ==> BareEndpoint(r1[i]) == BareEndpoint(r2[i]))
      && (forall i :: 0 <= i < |r1| ==> EndpointRequeue(r1[i]) == EndpointRequeue(r2[i]))
      && AlikeEndpointStatus(ES.Stored(st1, r1), ES.Stored(st2, r2))
  {
    EndpointReportAgrees(k);
    ReportsAgree(s1, s2, steps1, steps2, at, EndpointReport(k), BareEndpoint);
    var r1, r2 := Reports(s1, steps1, at, EndpointReport(k)), Reports(s2, steps2, at, EndpointReport(k));
    forall i | 0 <= i < |r1|
      ensures r1[i].(fields := []) == r2[i].(fields := []) && EndpointRequeue(r1[i]) == EndpointRequeue(r2[i])
    {
      assert BareEndpoint(r1[i]) == BareEndpoint(r2[i]);
    }
    EndpointPassesAgree(st1, st2, r1, r2, fields1, fields2);
  }
}
