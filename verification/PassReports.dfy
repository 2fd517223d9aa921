/** What the passes of a run report: the outcome each of them writes to a status, the objects its text
    names, and when it is repeated unasked. */
module PassReports {
  import opened Types
  import opened Api
  import opened Conditions
  import opened Deployments
  import opened Membership
  import opened Placement
  import opened Finalizers
  import opened Cluster
  import opened Preflight
  import opened Unenforced
  import SR = ServiceRouting
  import WS = WorkloadStatus
  import BS = BindingStatus
  import ES = EndpointStatus

  // ------------------------------------------------------------------------------ Workloads

  /** What the text of a degraded or pending Workload names. */
  function Named(x: World, w: Workload, v: Verdict): seq<string> {
    match v
    case Proceed => []
    case Pend(reason) => if reason.NotAFederationMember? then [x.self, w.spec.federationRef] else [x.self]
    case Degrade(reason) =>
      match reason
      case FederationNotFound => [w.spec.federationRef]
      case InvalidFederationSelector => [w.spec.federationRef]
      case ClusterMemberNotFound =>
        if MembershipVerdict(x, w.spec) == v then [x.self, w.spec.federationRef] else [x.self]
      case InvalidTargetPolicy => []
      case SecretNotFound => [FirstMissingName(x, w.key.ns, Needs(w.spec)), w.key.ns]
      case ConfigMapNotFound => [FirstMissingName(x, w.key.ns, Needs(w.spec)), w.key.ns]
      case _ => [w.key.name, w.key.ns, w.key.name]
  }

  function FirstMissingName(x: World, ns: string, ds: seq<Dependency>): string {
    if ds == [] then ""
    else if !Present(x, ns, ds[0]) then ds[0].name
    else FirstMissingName(x, ns, ds[1..])
  }

  /** What a pass over these objects reports. `o` are the objects the pass leaves. */
  function OutcomeOf(x: World, o: Objects, w: Workload, v: Verdict): WS.Outcome {
    match v
    case Degrade(reason) => WS.IsDegraded(reason, About(reason, Named(x, w, v)))
    case Pend(reason) => WS.IsPending(reason, About(reason, Named(x, w, v)))
    case Proceed => WS.IsApplied(w.spec.image, w.key.name, Available(StoredDeployment(o, w.key)))
  }

  /** One reconciliation of a Workload: what it reads, its generation, and the clock. */
  datatype Input = Input(world: World, objects: Objects, workload: Workload, generation: int, now: int)

  function PassOf(i: Input): WS.Pass {
    var (o, v) := Pass(i.world, i.objects, i.workload);
    WS.Pass(OutcomeOf(i.world, o, i.workload, v), i.generation, WorkloadFields(i.workload.spec), i.now)
  }

  /** Seconds until a Workload pass is repeated unasked; 0 means not at all. */
  function WorkloadRequeue(p: WS.Pass): (r: nat)
    ensures r == 30 <==> !p.outcome.IsApplied?
    ensures r == 0 <==> p.outcome.IsApplied?
  {
    if p.outcome.IsApplied? then 0 else 30
  }

  /** Dependency i is the first that is missing. */
  ghost predicate FirstMissingAt(x: World, ns: string, ds: seq<Dependency>, i: nat) {
    i < |ds| && !Present(x, ns, ds[i]) && forall j :: 0 <= j < i ==> Present(x, ns, ds[j])
  }

  lemma {:induction false} FirstMissingIs(x: World, ns: string, ds: seq<Dependency>, i: nat)
    requires FirstMissingAt(x, ns, ds, i)
    ensures FirstMissing(x, ns, ds) == Missing(ds[i]) && FirstMissingName(x, ns, ds) == ds[i].name
  {
    if i > 0 {
      assert Present(x, ns, ds[0]);
      assert forall j :: 0 <= j < i - 1 ==> ds[1..][j] == ds[j + 1];
      FirstMissingIs(x, ns, ds[1..], i - 1);
    }
  }

  lemma {:induction false} FirstMissingExists(x: World, ns: string, ds: seq<Dependency>) returns (i: nat)
    requires FirstMissing(x, ns, ds) != Proceed
    ensures FirstMissingAt(x, ns, ds, i)
  {
    if !Present(x, ns, ds[0]) {
      i := 0;
    } else {
      var j := FirstMissingExists(x, ns, ds[1..]);
      i := j + 1;
      assert forall k :: 0 < k < i ==> ds[k] == ds[1..][k - 1];
    }
  }

  /** The text names the first missing dependency, with the namespace. */
  ghost predicate NamesMissing(x: World, ns: string, spec: WorkloadSpec, names: seq<string>) {
    exists i: nat :: FirstMissingAt(x, ns, Needs(spec), i) && names == [Needs(spec)[i].name, ns]
  }

  /** Degraded for this reason, with a text that names these objects. */
  ghost predicate Degrades(o: WS.Outcome, reason: Reason, names: seq<string>) {
    o == WS.IsDegraded(reason, About(reason, names))
  }

  ghost predicate Pends(o: WS.Outcome, reason: Reason, names: seq<string>) {
    o == WS.IsPending(reason, About(reason, names))
  }

  /** Why placement fails, with the text: for each reason exactly when. */
  lemma PlacementReported(i: Input)
    ensures var x, spec, o := i.world, i.workload.spec, PassOf(i).outcome;
      && (Degrades(o, FederationNotFound, [spec.federationRef]) <==>
            x.self != "" && spec.federationRef != "" && spec.federationRef !in x.federations)
      && (Degrades(o, InvalidFederationSelector, [spec.federationRef]) <==>
            BySelector(x, spec) && x.self in x.members && InvalidSelector(x.federations[spec.federationRef]))
      && (Degrades(o, ClusterMemberNotFound, [x.self, spec.federationRef]) <==>
            BySelector(x, spec) && x.self !in x.members)
      && (Pends(o, NotAFederationMember, [x.self, spec.federationRef]) <==>
            && x.self != "" && spec.federationRef != "" && spec.federationRef in x.federations
            && !InFederation(x, spec)
            && (BySelector(x, spec) ==>
                  x.self in x.members && !InvalidSelector(x.federations[spec.federationRef])))
    ensures var x, spec, o := i.world, i.workload.spec, PassOf(i).outcome;
      && (Degrades(o, InvalidTargetPolicy, []) <==>
            ByPolicySelector(x, spec) && AsSelector(spec.targetPolicy.value.memberSelector.value).None?)
      && (Degrades(o, ClusterMemberNotFound, [x.self]) <==>
            && ByPolicySelector(x, spec) && AsSelector(spec.targetPolicy.value.memberSelector.value).Some?
            && x.self !in x.members)
      && (Pends(o, ExcludedByTargetPolicy, [x.self]) <==> x.self != "" && InFederation(x, spec) && Excluded(x, spec))
  {
    ReasonIsFirstFailing(i.world, i.objects, i.workload);
    if i.world.self != "" { MembershipReasons(i.world, i.workload.spec); }
  }

  /** A missing dependency: Degraded, for the kind of the first one missing, with its name. */
  lemma DependencyReported(i: Input)
    requires Placed(i.world, i.workload.spec)
    ensures var x, ns, spec, out := i.world, i.workload.key.ns, i.workload.spec, PassOf(i).outcome;
      && ((exists names :: Degrades(out, SecretNotFound, names) && NamesMissing(x, ns, spec, names)) <==>
            !PullsPresent(x, ns, spec) || LacksSecret(x, ns, spec.envFrom))
      && ((exists names :: Degrades(out, ConfigMapNotFound, names) && NamesMissing(x, ns, spec, names)) <==>
            PullsPresent(x, ns, spec) && LacksConfigMap(x, ns, spec.envFrom))
  {
    var x, ns, spec, ds := i.world, i.workload.key.ns, i.workload.spec, Needs(i.workload.spec);
    ReasonIsFirstFailing(x, i.objects, i.workload);
    DependenciesIff(x, ns, spec);
    if FirstMissing(x, ns, ds) != Proceed {
      var j := FirstMissingExists(x, ns, ds);
      FirstMissingIs(x, ns, ds, j);
      assert NamesMissing(x, ns, spec, [ds[j].name, ns]);
    } else {
      PreflightReasons(x, ns, spec);
    }
  }

  /** Everything there: Degraded for the object somebody else controls, or applied, with the image, the Deployment
      and whether that is available. */
  lemma WritesReported(i: Input)
    requires Placed(i.world, i.workload.spec)
    requires DependenciesPresent(i.world, i.workload.key.ns, i.workload.spec)
    ensures var o, w, out := i.objects, i.workload, PassOf(i).outcome;
      var available := exists c :: c in StoredDeployment(o, w.key).conditions
                                   && c.ctype == "Available" && c.status == "True";
      && (Degrades(out, DeploymentOwnershipConflict, [w.key.name, w.key.ns, w.key.name]) <==> DeploymentConflict(o, w))
      && (Degrades(out, ServiceOwnershipConflict, [w.key.name, w.key.ns, w.key.name]) <==>
            !DeploymentConflict(o, w) && ServiceConflict(o, w))
      && (out == WS.IsApplied(w.spec.image, w.key.name, available) <==>
            !DeploymentConflict(o, w) && !ServiceConflict(o, w))
  {
    ReasonIsFirstFailing(i.world, i.objects, i.workload);
    GateExact(i.world, i.objects, i.workload);
    AvailableIs(StoredDeployment(i.objects, i.workload.key));
  }

  lemma AvailableIs(d: DeploymentObj)
    ensures Available(d) <==> exists c :: c in d.conditions && c.ctype == "Available" && c.status == "True"
  {
    forall c | c in d.conditions && c.ctype == "Available" && c.status == "True" ensures Available(d) {
      assert c == DeploymentCondition("Available", "True");
    }
  }

  // ------------------------------------------------------------------ bindings and endpoints

  /** One pass of a binding or an endpoint past its finalizer: the cluster it reads, the object's key
      and generation, and the clock. */
  datatype ObjectInput = ObjectInput(state: State, k: Key, generation: int, now: int)

  predicate Binds(i: ObjectInput) { Applying(i.state.bindings, i.k) }

  function BindingPass(i: ObjectInput): (p: BS.Pass)
    requires Binds(i)
    ensures p.Valid()
  {
    BS.Pass(BindingFinding(i.state, i.k), i.generation, BindingFields(i.state.bindings.passes[i.k].obj.spec), i.now)
  }

  /** Seconds until the pass is repeated unasked. */
  function BindingRequeue(p: BS.Pass): (r: nat)
    ensures r == 30 <==> p.problem.Some?
    ensures r == 0 <==> p.problem.None?
  {
    if p.problem.Some? then 30 else 0
  }

  predicate Routes(i: ObjectInput) { Applying(i.state.endpoints, i.k) }

  function EndpointPass(i: ObjectInput): ES.Pass
    requires Routes(i)
  {
    var spec, problem := i.state.endpoints.passes[i.k].obj.spec, EndpointFinding(i.state, i.k);
    ES.Pass(if problem.Some? then ES.IsDegraded(problem.value.reason, problem.value)
            else ES.IsReady(SR.ActiveMember(spec), spec.hostnames),
            i.generation, EndpointFields(spec), i.now)
  }

  function EndpointRequeue(p: ES.Pass): (r: nat)
    ensures r == 5 <==> p.outcome.IsDegraded?
    ensures r == 0 <==> p.outcome.IsReady?
  {
    if p.outcome.IsDegraded? then 5 else 0
  }

  // ----------------------------------------------------------------------- along a run

  /** The generation of the reconciled object, and the clock, at each step of a run. */
  datatype Moment = Moment(generation: int, now: int)

  /** What the steps of a run report, in order. */
  ghost function Reports<P>(s: State, steps: seq<Step>, at: nat -> Moment, report: (State, Step, Moment) -> Option<P>)
    : seq<P>
  {
    if steps == [] then []
    else
      var n := |steps| - 1;
      var last := report(Run(s, steps[..n]), steps[n], at(n));
      Reports(s, steps[..n], at, report) + if last.Some? then [last.value] else []
  }

  /** A Workload pass reports at once if it finds something wrong, and otherwise after its last write,
      when it has read the Deployment back. */
  function WorkloadReport(k: Key): (State, Step, Moment) -> Option<WS.Pass> {
    (s: State, step: Step, m: Moment) =>
      if step == StartWorkload(k) && k in s.workloads && k !in s.workloadPass
         && Gate(s.world, s.objects, s.workloads[k]) != Proceed then
        var w := s.workloads[k];
        Some(Told(s, w, Gate(s.world, s.objects, w), m))
      else if step == ApplyService(k) && k in s.workloadPass && s.workloadPass[k].ToService?
         && !ServiceConflict(s.objects, s.workloadPass[k].w) && k in s.objects.deployments then
        Some(Told(s, s.workloadPass[k].w, Proceed, m))
      else None
  }

  function Told(s: State, w: Workload, v: Verdict, m: Moment): WS.Pass {
    WS.Pass(OutcomeOf(s.world, s.objects, w, v), m.generation, WorkloadFields(w.spec), m.now)
  }

  /** A binding pass reports a problem, or success after its injection. The write of the status carries the
      version that was read, and fails on any other. */
  function BindingReport(k: Key): (State, Step, Moment) -> Option<BS.Pass> {
    (s: State, step: Step, m: Moment) =>
      if step == InjectBinding(k) && Applying(s.bindings, k) && Fresh(s.bindings, k)
      then Some(BindingPass(ObjectInput(s, k, m.generation, m.now))) else None
  }

  /** An endpoint pass reports a problem when it finds it, and success after its patch; with the version
      that was read, too. */
  function EndpointReport(k: Key): (State, Step, Moment) -> Option<ES.Pass> {
    (s: State, step: Step, m: Moment) =>
      if step == AnnotateService(k) && Applying(s.endpoints, k) && Fresh(s.endpoints, k) && !CanAnnotate(s, k) then
        Some(EndpointPass(ObjectInput(s, k, m.generation, m.now)))
      else if step == ReportEndpoint(k) && Reporting(s.endpoints, k) && Fresh(s.endpoints, k) then
        var spec := s.endpoints.passes[k].obj.spec;
        Some(ES.Pass(ES.IsReady(SR.ActiveMember(spec), spec.hostnames), m.generation, EndpointFields(spec), m.now))
      else None
  }
}
