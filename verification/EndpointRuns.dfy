/** A ServiceEndpoint's stored status over a whole run: what the status writers leave, pass by pass, is what
    the cluster's history of completed passes calls for. */
module EndpointRuns {
  import opened Types
  import opened Api
  import opened Conditions
  import opened Finalizers
  import opened Cluster
  import opened Ownership
  import opened PassReports
  import opened Routing
  import SR = ServiceRouting
  import ES = EndpointStatus

  const EMPTY_STATUS := ES.Status([], "", [], None, 0)

  /** The status stored for endpoint e: that of `before` with each completed pass of the run written over it.
      A deleted endpoint has none, and a new one has none until its first pass completes. */
  ghost function StatusAlong(s: State, before: Option<ES.Status>, steps: seq<Step>, at: nat -> Moment, e: Key)
    : Option<ES.Status>
  {
    if steps == [] then before
    else
      var n := |steps| - 1;
      StatusNext(Run(s, steps[..n]), StatusAlong(s, before, steps[..n], at, e), steps[n], at(n), e)
  }

  ghost function StatusNext(s: State, st: Option<ES.Status>, step: Step, m: Moment, e: Key): Option<ES.Status> {
    var report := EndpointReport(e)(s, step, m);
    if report.Some? then Some(ES.StoredAfter(if st.Some? then st.value else EMPTY_STATUS, report.value))
    else if step.OnEndpoint? && (e !in s.endpoints.stored || e !in Next(s, step).endpoints.stored) then None
    else st
  }

  /** What the status says when `v` is the version of the pass that completed last, None if that pass was
      degraded. */
  ghost predicate StatusFollows(st: ES.Status, v: Option<EndpointSpec>) {
    match v
    case Some(spec) =>
      && st.activeMemberRef == (if spec.routingMode.ActivePassive? then spec.primaryMemberRef else "")
      && st.resolvedHostnames == spec.hostnames && Absent(st.conditions, DEGRADED)
      && exists g :: Says(st.conditions, READY, StatusTrue, g, Reconciled, About(Reconciled, []))
    case None =>
      && st.activeMemberRef == "" && st.resolvedHostnames == []
      && exists g, reason, m ::
           && Says(st.conditions, DEGRADED, StatusTrue, g, reason, m)
           && Says(st.conditions, READY, StatusFalse, g, reason, m)
  }

  /** The stored status, the machine's report and the history agree. */
  ghost predicate StatusAgrees(s: State, st: Option<ES.Status>, v: Option<EndpointSpec>, e: Key) {
    && (st.Some? <==> e in s.reported) && (v.Some? ==> st.Some?)
    && (st.Some? ==> st.value.activeMemberRef == s.reported[e] && StatusFollows(st.value, v))
  }

  lemma ReadyFollows(st: ES.Status, p: ES.Pass, spec: EndpointSpec)
    requires p.outcome == ES.IsReady(SR.ActiveMember(spec), spec.hostnames)
    ensures StatusFollows(ES.StoredAfter(st, p), Some(spec))
  {
    ES.ReadyTells(st, p);
  }

  /** A degraded pass either writes, or finds a status that is degraded already. */
  lemma DegradedFollows(st: ES.Status, p: ES.Pass, v: Option<EndpointSpec>)
    requires p.outcome.IsDegraded? && (st == EMPTY_STATUS || StatusFollows(st, v))
    ensures StatusFollows(ES.StoredAfter(st, p), None)
  {
    if ES.DegradedWrites(st, p.generation, p.outcome.reason, p.outcome.message, p.fields, p.now) {
      ES.DegradedTells(st, p);
    } else {
      AbsentIs(st.conditions, DEGRADED);
    }
  }

  /** The version a step completes, as `LastCompleted` counts it. */
  ghost function Completes(s: State, step: Step, e: Key, v: Option<EndpointSpec>): Option<EndpointSpec> {
    if step == ReportEndpoint(e) && Reporting(s.endpoints, e) && Fresh(s.endpoints, e) then
      Some(s.endpoints.passes[e].obj.spec)
    else if step == AnnotateService(e) && Applying(s.endpoints, e) && Fresh(s.endpoints, e)
      && !CanAnnotate(s, e) then None
    else if step.OnEndpoint? && (e !in s.endpoints.stored || e !in Next(s, step).endpoints.stored) then None
    else v
  }

  lemma StatusAgreesNext(s: State, st: Option<ES.Status>, v: Option<EndpointSpec>, step: Step, m: Moment, e: Key)
    requires StatusAgrees(s, st, v, e)
    ensures StatusAgrees(Next(s, step), StatusNext(s, st, step, m, e), Completes(s, step, e, v), e)
  {
    var stored := if st.Some? then st.value else EMPTY_STATUS;
    if step == ReportEndpoint(e) {
      ReportAgrees(s, st, v, m, e);
    } else if step == AnnotateService(e) {
      AnnotateAgrees(s, st, v, m, e);
    } else if step.OnEndpoint? {
      assert EndpointReport(e)(s, step, m).None?;
    } else {
      assert EndpointReport(e)(s, step, m).None?;
      OtherStepsLeaveReports(s, step, e);
      assert At(Next(s, step).reported, e) == At(s.reported, e);
    }
  }

  lemma ReportAgrees(s: State, st: Option<ES.Status>, v: Option<EndpointSpec>, m: Moment, e: Key)
    requires StatusAgrees(s, st, v, e)
    ensures StatusAgrees(Reported(s, e), StatusNext(s, st, ReportEndpoint(e), m, e),
                         Completes(s, ReportEndpoint(e), e, v), e)
  {
    var report := EndpointReport(e)(s, ReportEndpoint(e), m);
    if Reporting(s.endpoints, e) && Fresh(s.endpoints, e) {
      ReadyFollows(if st.Some? then st.value else EMPTY_STATUS, report.value, s.endpoints.passes[e].obj.spec);
    }
  }

  lemma AnnotateAgrees(s: State, st: Option<ES.Status>, v: Option<EndpointSpec>, m: Moment, e: Key)
    requires StatusAgrees(s, st, v, e)
    ensures StatusAgrees(Annotated(s, e), StatusNext(s, st, AnnotateService(e), m, e),
                         Completes(s, AnnotateService(e), e, v), e)
  {
    var report := EndpointReport(e)(s, AnnotateService(e), m);
    if report.Some? {
      ProblemFound(s, e);
      DegradedFollows(if st.Some? then st.value else EMPTY_STATUS, report.value, v);
    }
  }

  lemma ProblemFound(s: State, e: Key)
    requires Applying(s.endpoints, e) && !CanAnnotate(s, e)
    ensures forall m: Moment :: EndpointPass(ObjectInput(s, e, m.generation, m.now)).outcome.IsDegraded?
  {
  }

  /** Over every run from an empty cluster, deletions, cut-off passes, lost updates and failed writes included:
      the activeMemberRef stored by the status writers is the member the cluster is taken to report, and active
      member, hostnames, Ready and Degraded are those of the version whose pass completed last. */
  lemma {:induction false} StoredStatusFollows(s: State, steps: seq<Step>, at: nat -> Moment, e: Key)
    requires Initial(s)
    ensures StatusAgrees(Run(s, steps), StatusAlong(s, None, steps, at, e), LastCompleted(s, steps, e), e)
  {
    if steps != [] {
      var n := |steps| - 1;
      StoredStatusFollows(s, steps[..n], at, e);
      StatusAgreesNext(Run(s, steps[..n]), StatusAlong(s, None, steps[..n], at, e),
                       LastCompleted(s, steps[..n], e), steps[n], at(n), e);
    }
  }

  lemma StoredSnoc(st: ES.Status, passes: seq<ES.Pass>, p: ES.Pass)
    ensures ES.Stored(st, passes + [p]) == ES.StoredAfter(ES.Stored(st, passes), p)
  {
    assert (passes + [p])[..|passes|] == passes;
  }

  /** A step while the endpoint is stored, before and after. */
  lemma ReportedNext(s: State, st: ES.Status, passes: seq<ES.Pass>, step: Step, m: Moment, e: Key)
    requires e in s.endpoints.stored && e in Next(s, step).endpoints.stored
    ensures var report := EndpointReport(e)(s, step, m);
      StatusNext(s, Some(ES.Stored(st, passes)), step, m, e)
      == Some(ES.Stored(st, passes + if report.Some? then [report.value] else []))
  {
    var report := EndpointReport(e)(s, step, m);
    if report.Some? {
      StoredSnoc(st, passes, report.value);
    } else {
      assert passes + [] == passes;
    }
  }

  /** While the endpoint is not deleted, its status is that of the series of passes it reports. */
  lemma {:induction false} StatusOfReports(s: State, st: ES.Status, steps: seq<Step>, at: nat -> Moment, e: Key)
    requires forall i :: 0 <= i <= |steps| ==> e in Run(s, steps[..i]).endpoints.stored
    ensures StatusAlong(s, Some(st), steps, at, e) == Some(ES.Stored(st, Reports(s, steps, at, EndpointReport(e))))
  {
    if steps != [] {
      var n := |steps| - 1;
      assert forall i :: 0 <= i <= n ==> steps[..n][..i] == steps[..i];
      StatusOfReports(s, st, steps[..n], at, e);
      assert steps[..n + 1] == steps;
      ReportedNext(Run(s, steps[..n]), st, Reports(s, steps[..n], at, EndpointReport(e)), steps[n], at(n), e);
    }
  }

  /** Once the fleet has settled on an ActivePassive version, every cluster's stored status names its primary
      and is Ready. */
  lemma SettledFleetShows(f: Fleet, e: Key, t: Key, v: EndpointSpec, at: nat -> Moment, m: string)
    requires Valid(f) && v.routingMode.ActivePassive? && m in f && SettledOn(f, m, e, t, v)
    ensures var st := StatusAlong(f[m].start, None, f[m].steps, at, e);
      && st.Some? && st.value.activeMemberRef == v.primaryMemberRef && st.value.resolvedHostnames == v.hostnames
      && Absent(st.value.conditions, DEGRADED)
      && exists g :: Says(st.value.conditions, READY, StatusTrue, g, Reconciled, About(Reconciled, []))
  {
    StoredStatusFollows(f[m].start, f[m].steps, at, e);
  }
}
