/** One member cluster as a state machine over its object store. Every step is one atomic API
    write, or the read that begins a pass; passes of different keys interleave freely with each other
    and with users, and any pass may end between any two of its writes. */
module Cluster {
  import opened Types
  import opened Api
  import opened EnvNames
  import opened ManagedAnnotation
  import opened Deployments
  import opened Membership
  import opened Placement
  import opened Finalizers
  import SR = ServiceRouting

  /** What a Workload pass writes next, for the Workload it has read. */
  datatype WorkloadPhase = ToDeployment(w: Workload) | ToService(w: Workload)

  /** `withUrl` are the Secrets that hold the preferred key; `reported` is the activeMemberRef in the
      status of each ServiceEndpoint that has one. */
  datatype State = State(
    next: nat,
    world: World,
    withUrl: set<Key>,
    workloads: map<Key, Workload>,
    workloadPass: map<Key, WorkloadPhase>,
    objects: Objects,
    bindings: Ledger<BindingSpec>,
    endpoints: Ledger<EndpointSpec>,
    reported: map<Key, string>)

  datatype Step =
    // Workload reconciler
    | StartWorkload(k: Key) | ApplyDeployment(k: Key) | ApplyService(k: Key) | EndWorkload(k: Key)
    // DatastoreBinding reconciler: its writes to the Deployment, and to the binding itself
    | InjectBinding(k: Key) | WithdrawBinding(k: Key) | OnBinding(bop: LedgerOp<BindingSpec>)
    // ServiceEndpoint reconciler: its writes to the Service, and to the endpoint itself
    | AnnotateService(k: Key) | ReportEndpoint(k: Key) | CleanService(k: Key) | OnEndpoint(eop: LedgerOp<EndpointSpec>)
    // users, other controllers and the garbage collector; OnBinding and OnEndpoint include theirs
    | PutWorkload(k: Key, wspec: WorkloadSpec) | DropWorkload(k: Key)
    | PutDeployment(k: Key, d: DeploymentObj) | DropDeployment(k: Key)
    | PutService(k: Key, svc: ServiceObj) | DropService(k: Key)
    | ChangeWorld(world: World, withUrl: set<Key>)

  // ----------------------------------------------------------------------- what passes resolve

  predicate AcceptedEngine(engine: string) {
    engine == "yugabytedb" || engine == "postgres_compatible" || engine == "postgres"
  }

  /** connectionSecretKey prefers "url". */
  function ValuesFor(s: State, k: Key, spec: BindingSpec): BindingValues {
    var secret := Resolve(k, spec.connectionRef);
    BindingValues(secret.name, if secret in s.withUrl then "url" else DATABASE_URL, spec.replicationMode)
  }

  /** The Deployment at k exists and is controlled by the Workload stored at k. */
  predicate OwnsDeployment(s: State, k: Key) {
    k in s.workloads && k in s.objects.deployments
    && Controls(s.workloads[k].uid, s.objects.deployments[k].controller)
  }

  predicate OwnsService(s: State, k: Key) {
    k in s.workloads && k in s.objects.services
    && Controls(s.workloads[k].uid, s.objects.services[k].controller)
  }

  /** Whether an injection goes through: engine, Workload, Secret, Deployment and its owner. */
  predicate CanInject(s: State, k: Key) {
    Applying(s.bindings, k)
    && var o := s.bindings.passes[k].obj;
       AcceptedEngine(o.spec.engine) && Resolve(k, o.spec.connectionRef) in s.world.secrets
       && OwnsDeployment(s, Target(k, o))
  }

  /** Whether annotations are applied: the primary is checked for ActivePassive only. */
  predicate CanAnnotate(s: State, k: Key) {
    Applying(s.endpoints, k)
    && var o := s.endpoints.passes[k].obj;
       var t := Target(k, o);
       OwnsService(s, t)
       && (o.spec.routingMode.ActivePassive? ==>
             var spec := s.workloads[t].spec;
             Yes == PrimaryDecision(FederationOf(s.world, spec), spec.federationRef != "",
                                    o.spec.primaryMemberRef, s.world.members))
  }

  // ------------------------------------------------------------------------------ transitions

  function SetDeployment(o: Objects, k: Key, d: DeploymentObj): Objects {
    o.(deployments := o.deployments[k := d])
  }

  function SetService(o: Objects, k: Key, svc: ServiceObj): Objects {
    o.(services := o.services[k := svc])
  }

  function EndedWorkload(s: State, k: Key): State { s.(workloadPass := s.workloadPass - {k}) }

  function StartedWorkload(s: State, k: Key): State {
    if k !in s.workloadPass && k in s.workloads && Gate(s.world, s.objects, s.workloads[k]) == Proceed
    then s.(workloadPass := s.workloadPass[k := ToDeployment(s.workloads[k])]) else s
  }

  function AppliedDeployment(s: State, k: Key): State {
    if k !in s.workloadPass || !s.workloadPass[k].ToDeployment? then s
    else
      var w := s.workloadPass[k].w;
      if DeploymentConflict(s.objects, w) || ServiceConflict(s.objects, w) then EndedWorkload(s, k)
      else s.(objects := WriteDeployment(s.objects, w), workloadPass := s.workloadPass[k := ToService(w)])
  }

  function AppliedService(s: State, k: Key): State {
    if k !in s.workloadPass || !s.workloadPass[k].ToService? then s
    else
      var w := s.workloadPass[k].w;
      if ServiceConflict(s.objects, w) then EndedWorkload(s, k)
      else EndedWorkload(s, k).(objects := WriteService(s.objects, w))
  }

  ghost function Injected(s: State, k: Key): State {
    if !Applying(s.bindings, k) then s
    else
      var o := s.bindings.passes[k].obj;
      var t := Target(k, o);
      s.(bindings := End(s.bindings, k),
         objects := if CanInject(s, k)
                    then SetDeployment(s.objects, t, Inject(s.objects.deployments[t], k.name, ValuesFor(s, k, o.spec)))
                    else s.objects)
  }

  ghost function Withdrawn(s: State, k: Key): State {
    if !CleaningUp(s.bindings, k) then s
    else
      var t := Target(k, s.bindings.passes[k].obj);
      s.(bindings := CleanedUp(s.bindings, k),
         objects := if OwnsDeployment(s, t)
                    then SetDeployment(s.objects, t, Withdraw(s.objects.deployments[t], k.name)) else s.objects)
  }

  /** A pass that cannot annotate reports that it is degraded, with no active member, and ends. */
  function Annotated(s: State, k: Key): State {
    if !Applying(s.endpoints, k) then s
    else if !CanAnnotate(s, k) then
      Ended(s, k).(reported := if Fresh(s.endpoints, k) then s.reported[k := ""] else s.reported)
    else
      var o := s.endpoints.passes[k].obj;
      var t := Target(k, o);
      var svc := s.objects.services[t];
      s.(endpoints := Applied(s.endpoints, k),
         objects := SetService(s.objects, t, svc.(annotations := SR.Routed(svc.annotations, o.spec, s.world.self))))
  }

  function Ended(s: State, k: Key): State { s.(endpoints := End(s.endpoints, k)) }

  /** The status write that completes a pass. */
  function Reported(s: State, k: Key): State {
    if !Reporting(s.endpoints, k) then s
    else
      Ended(s, k).(reported := if Fresh(s.endpoints, k)
                               then s.reported[k := SR.ActiveMember(s.endpoints.passes[k].obj.spec)] else s.reported)
  }

  function OnBindings(s: State, op: LedgerOp<BindingSpec>): State {
    s.(next := s.next + 1, bindings := Perform(s.bindings, op, s.next))
  }

  /** An endpoint that is gone, or new, has no status. */
  function OnEndpoints(s: State, op: LedgerOp<EndpointSpec>): State {
    var l := Perform(s.endpoints, op, s.next);
    s.(next := s.next + 1, endpoints := l,
       reported := map k | k in s.reported && k in s.endpoints.stored && k in l.stored :: s.reported[k])
  }

  function Cleaned(s: State, k: Key): State {
    if !CleaningUp(s.endpoints, k) then s
    else
      var t := Target(k, s.endpoints.passes[k].obj);
      s.(endpoints := CleanedUp(s.endpoints, k),
         objects := if OwnsService(s, t) then
                      var svc := s.objects.services[t];
                      SetService(s.objects, t, svc.(annotations := SR.Unrouted(svc.annotations)))
                    else s.objects)
  }

  /** A user's edit changes neither the controller nor what the operator's own annotations say. */
  ghost predicate DeploymentEditAllowed(d: DeploymentObj, d': DeploymentObj) {
    d'.controller == d.controller && Managed(d'.annotations) == Managed(d.annotations)
  }

  predicate HasRouting(a: SR.Annotations) { SR.GLOBAL in a || SR.SHARED in a }

  ghost predicate ServiceEditAllowed(svc: ServiceObj, svc': ServiceObj) {
    && svc'.controller == svc.controller
    && forall a :: a in svc'.annotations && (a == SR.GLOBAL || a == SR.SHARED) ==>
         a in svc.annotations && svc.annotations[a] == svc'.annotations[a]
  }

  /** An object somebody else creates has no controller, or one with a UID that no Workload here has.
      Its kind and name may be those of a Workload all the same, as in a restored manifest. */
  function Foreign(c: Option<Owner>, next: nat): Option<Owner> {
    if c.None? then None else Some(c.value.(uid := next))
  }

  function PutWorkloadAt(s: State, k: Key, spec: WorkloadSpec): State {
    if k in s.workloads then s.(workloads := s.workloads[k := s.workloads[k].(spec := spec)])
    else s.(next := s.next + 1, workloads := s.workloads[k := Workload(k, s.next, spec)])
  }

  ghost function PutDeploymentAt(s: State, k: Key, d: DeploymentObj): State {
    if k !in s.objects.deployments then
      s.(next := s.next + 1, objects := SetDeployment(s.objects, k, d.(controller := Foreign(d.controller, s.next))))
    else if DeploymentEditAllowed(s.objects.deployments[k], d) then s.(objects := SetDeployment(s.objects, k, d))
    else s
  }

  ghost function PutServiceAt(s: State, k: Key, svc: ServiceObj): State {
    if k !in s.objects.services then
      s.(next := s.next + 1, objects := SetService(s.objects, k, svc.(controller := Foreign(svc.controller, s.next))))
    else if ServiceEditAllowed(s.objects.services[k], svc) then s.(objects := SetService(s.objects, k, svc))
    else s
  }

  /** The API server admits DNS names only. */
  predicate Admitted(op: LedgerOp<BindingSpec>) { op.PutObject? ==> DnsName(op.k.name) }

  ghost function Next(s: State, step: Step): State {
    match step
    case StartWorkload(k) => StartedWorkload(s, k)
    case ApplyDeployment(k) => AppliedDeployment(s, k)
    case ApplyService(k) => AppliedService(s, k)
    case EndWorkload(k) => EndedWorkload(s, k)
    case InjectBinding(k) => Injected(s, k)
    case WithdrawBinding(k) => Withdrawn(s, k)
    case OnBinding(op) => if Admitted(op) then OnBindings(s, op) else s
    case AnnotateService(k) => Annotated(s, k)
    case CleanService(k) => Cleaned(s, k)
    case ReportEndpoint(k) => Reported(s, k)
    case OnEndpoint(op) => OnEndpoints(s, op)
    case PutWorkload(k, spec) => PutWorkloadAt(s, k, spec)
    case DropWorkload(k) => s.(workloads := s.workloads - {k})
    case PutDeployment(k, d) => PutDeploymentAt(s, k, d)
    case DropDeployment(k) => s.(objects := s.objects.(deployments := s.objects.deployments - {k}))
    case PutService(k, svc) => PutServiceAt(s, k, svc)
    case DropService(k) => s.(objects := s.objects.(services := s.objects.services - {k}))
    case ChangeWorld(world, withUrl) => s.(world := world.(self := s.world.self), withUrl := withUrl)
  }

  ghost function Run(s: State, steps: seq<Step>): State {
    if steps == [] then s else Next(Run(s, steps[..|steps| - 1]), steps[|steps| - 1])
  }

  lemma RunLast(s: State, steps: seq<Step>, step: Step)
    ensures Run(s, steps + [step]) == Next(Run(s, steps), step)
  {
    assert (steps + [step])[..|steps|] == steps;
  }

  lemma ThreeSteps(s: State, a: Step, b: Step, c: Step)
    ensures Run(s, [a, b, c]) == Next(Next(Next(s, a), b), c)
  {
    assert [] + [a] == [a] && [a] + [b] == [a, b] && [a, b] + [c] == [a, b, c];
    RunLast(s, [], a);
    RunLast(s, [a], b);
    RunLast(s, [a, b], c);
  }

  lemma {:induction false} RunConcat(s: State, a: seq<Step>, c: seq<Step>)
    ensures Run(s, a + c) == Run(Run(s, a), c)
  {
    if c == [] {
      assert a + c == a;
    } else {
      var n := |c| - 1;
      RunConcat(s, a, c[..n]);
      assert (a + c)[..|a + c| - 1] == a + c[..n];
    }
  }

  /** A cluster before anybody has created anything. */
  ghost predicate Initial(s: State) {
    s.workloads == map[] && s.workloadPass == map[] && s.objects == Objects(map[], map[])
    && s.bindings == Ledger(map[], map[]) && s.endpoints == Ledger(map[], map[])
    && s.reported == map[]
  }

  /** Run without interruption, the three steps of a Workload pass do what the reconciler does. */
  lemma UninterruptedPass(s: State, k: Key)
    requires k in s.workloads && s.workloads[k].key == k && k !in s.workloadPass
    ensures AppliedService(AppliedDeployment(StartedWorkload(s, k), k), k)
         == s.(objects := Pass(s.world, s.objects, s.workloads[k]).0)
  {
    var w, one := s.workloads[k], StartedWorkload(s, k);
    if Gate(s.world, s.objects, w) == Proceed {
      var two := AppliedDeployment(one, k);
      assert two == one.(objects := WriteDeployment(s.objects, w), workloadPass := one.workloadPass[k := ToService(w)]);
      assert AppliedService(two, k) == EndedWorkload(two, k).(objects := WriteService(two.objects, w));
      assert two.workloadPass - {k} == s.workloadPass;
    }
  }
}
