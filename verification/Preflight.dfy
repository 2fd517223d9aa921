/** The reading half of a DatastoreBinding and a ServiceEndpoint pass: the checks in the order the
    reconcilers make them, and which problem a degraded pass reports. */
module Preflight {
  import opened Types
  import opened Api
  import opened Conditions
  import opened Placement
  import opened Membership
  import opened Finalizers
  import opened Cluster

  const ENGINES := ["yugabytedb", "postgres_compatible", "postgres"]

  /** acceptedEngine. */
  method IsAccepted(engine: string) returns (ok: bool)
    ensures ok == AcceptedEngine(engine)
    ensures ok <==> engine == "yugabytedb" || engine == "postgres_compatible" || engine == "postgres"
  {
    for i := 0 to |ENGINES|
      invariant forall j :: 0 <= j < i ==> ENGINES[j] != engine
    {
      if ENGINES[i] == engine {
        assert engine == ENGINES[0] || engine == ENGINES[1] || engine == ENGINES[2];
        return true;
      }
    }
    assert ENGINES[0] != engine && ENGINES[1] != engine && ENGINES[2] != engine;
    return false;
  }

  /** What is wrong for a binding pass past its finalizer, if anything. */
  function BindingProblem(s: State, k: Key): Option<Reason>
    requires Applying(s.bindings, k)
  {
    var o := s.bindings.passes[k].obj;
    var t := Target(k, o);
    if !AcceptedEngine(o.spec.engine) then Some(UnsupportedEngine)
    else if t !in s.workloads then Some(WorkloadNotFound)
    else if Resolve(k, o.spec.connectionRef) !in s.world.secrets then Some(ConnectionSecretNotFound)
    else if t !in s.objects.deployments then Some(DeploymentNotFound)
    else if !OwnsDeployment(s, t) then Some(DeploymentOwnershipConflict)
    else None
  }

  /** The text that goes with it, by the objects it names. */
  function BindingText(s: State, k: Key, reason: Reason): Message
    requires Applying(s.bindings, k)
  {
    var o := s.bindings.passes[k].obj;
    var t := Target(k, o);
    About(reason, match reason
      case UnsupportedEngine => [o.spec.engine]
      case WorkloadNotFound => [o.workloadRef.name]
      case ConnectionSecretNotFound => [o.spec.connectionRef.name]
      case DeploymentNotFound => [t.name, t.ns]
      case _ => [t.name, t.ns, t.name])
  }

  /** What a binding pass reports: the problem's text, if there is one. */
  function BindingFinding(s: State, k: Key): Option<Message>
    requires Applying(s.bindings, k)
  {
    var problem := BindingProblem(s, k);
    if problem.Some? then Some(BindingText(s, k, problem.value)) else None
  }

  /** A binding pass past its finalizer injects exactly when nothing is wrong; otherwise it reports
      the first of: engine, Workload, connection Secret, Deployment, its controller; with the names
      of what is wrong. References without a namespace mean the binding's own. */
  method BindingPreflight(s: State, k: Key) returns (problem: Option<Message>)
    requires Applying(s.bindings, k)
    ensures problem == BindingFinding(s, k)
    ensures problem.None? <==> CanInject(s, k)
    ensures
      var o := s.bindings.passes[k].obj;
      var t := Key(if o.workloadRef.ns == "" then k.ns else o.workloadRef.ns, o.workloadRef.name);
      var c := o.spec.connectionRef;
      var engine := o.spec.engine in {"yugabytedb", "postgres_compatible", "postgres"};
      var workload := t in s.workloads;
      var secret := Key(if c.ns == "" then k.ns else c.ns, c.name) in s.world.secrets;
      var deployment := t in s.objects.deployments;
      var owned := workload && deployment && UidOf(s.objects.deployments[t].controller) == Some(s.workloads[t].uid);
      && (problem == Some(About(UnsupportedEngine, [o.spec.engine])) <==> !engine)
      && (problem == Some(About(WorkloadNotFound, [t.name])) <==> engine && !workload)
      && (problem == Some(About(ConnectionSecretNotFound, [c.name])) <==> engine && workload && !secret)
      && (problem == Some(About(DeploymentNotFound, [t.name, t.ns])) <==>
            engine && workload && secret && !deployment)
      && (problem == Some(About(DeploymentOwnershipConflict, [t.name, t.ns, t.name])) <==>
            engine && workload && secret && deployment && !owned)
      && (problem.None? <==> engine && workload && secret && deployment && owned)
  {
    var o := s.bindings.passes[k].obj;
    var accepted := IsAccepted(o.spec.engine);
    if !accepted {
      return Some(About(UnsupportedEngine, [o.spec.engine]));
    }
    var t := Target(k, o);
    if t !in s.workloads {
      return Some(About(WorkloadNotFound, [o.workloadRef.name]));
    }
    if Resolve(k, o.spec.connectionRef) !in s.world.secrets {
      return Some(About(ConnectionSecretNotFound, [o.spec.connectionRef.name]));
    }
    if t !in s.objects.deployments {
      return Some(About(DeploymentNotFound, [t.name, t.ns]));
    }
    if !Controls(s.workloads[t].uid, s.objects.deployments[t].controller) {
      return Some(About(DeploymentOwnershipConflict, [t.name, t.ns, t.name]));
    }
    return None;
  }

  /** Why a primary is refused. */
  function Refusal(d: Decision): Option<Reason> {
    match d
    case Yes => None
    case No => Some(PrimaryMemberNotInFederation)
    case MemberMissing => Some(PrimaryMemberNotFound)
    case BadSelector => Some(InvalidFederationSelector)
    case FederationMissing => Some(FederationNotFound)
  }

  /** What is wrong with the primary, as the endpoint's Workload w sees it; ActiveActive has none. */
  function PrimaryProblem(x: World, endpoint: EndpointSpec, w: WorkloadSpec): Option<Reason> {
    if endpoint.routingMode.ActivePassive?
    then Refusal(PrimaryDecision(FederationOf(x, w), w.federationRef != "", endpoint.primaryMemberRef, x.members))
    else None
  }

  /** What is wrong for an endpoint pass past its finalizer, if anything. */
  function EndpointProblem(s: State, k: Key): Option<Reason>
    requires Applying(s.endpoints, k)
  {
    var o := s.endpoints.passes[k].obj;
    var t := Target(k, o);
    if t !in s.workloads then Some(WorkloadNotFound)
    else if PrimaryProblem(s.world, o.spec, s.workloads[t].spec).Some? then
      PrimaryProblem(s.world, o.spec, s.workloads[t].spec)
    else if t !in s.objects.services then Some(ServiceNotFound)
    else if !OwnsService(s, t) then Some(ServiceOwnershipConflict)
    else None
  }

  /** The text that goes with it; PrimaryMemberNotInFederation has two. */
  function EndpointText(s: State, k: Key, reason: Reason): Message
    requires Applying(s.endpoints, k)
  {
    var o := s.endpoints.passes[k].obj;
    var t := Target(k, o);
    var federation := if t in s.workloads then s.workloads[t].spec.federationRef else "";
    About(reason, match reason
      case WorkloadNotFound => [o.workloadRef.name]
      case PrimaryMemberNotFound => [o.spec.primaryMemberRef]
      case PrimaryMemberNotInFederation =>
        if federation == "" then [t.name, o.spec.primaryMemberRef] else [o.spec.primaryMemberRef, federation, t.name]
      case FederationNotFound => [federation, t.name]
      case InvalidFederationSelector => [federation]
      case ServiceNotFound => [t.name, t.ns]
      case _ => [t.name, t.ns, t.name])
  }

  function EndpointFinding(s: State, k: Key): Option<Message>
    requires Applying(s.endpoints, k)
  {
    var problem := EndpointProblem(s, k);
    if problem.Some? then Some(EndpointText(s, k, problem.value)) else None
  }

  /** The primary is checked and stored, and the Workload's Federation is given and there. */
  ghost predicate PrimaryJudged(x: World, e: EndpointSpec, w: WorkloadSpec) {
    && e.routingMode.ActivePassive? && e.primaryMemberRef in x.members
    && w.federationRef != "" && w.federationRef in x.federations
  }

  /** The primary is a member of it. */
  ghost predicate PrimaryBelongs(x: World, e: EndpointSpec, w: WorkloadSpec) {
    && PrimaryJudged(x, e, w)
    && var f := x.federations[w.federationRef];
       Listed(f, e.primaryMemberRef) || Selected(f, x.members[e.primaryMemberRef])
  }

  /** The question cannot be answered: the member is not listed and the selector does not parse. */
  ghost predicate PrimaryUndecided(x: World, e: EndpointSpec, w: WorkloadSpec) {
    && PrimaryJudged(x, e, w)
    && !Listed(x.federations[w.federationRef], e.primaryMemberRef) && InvalidSelector(x.federations[w.federationRef])
  }

  /** What is wrong with the primary, for each reason exactly when. */
  ghost predicate PrimaryReported(x: World, e: EndpointSpec, w: WorkloadSpec, t: Key, problem: Option<Message>) {
    var p, f, passive := e.primaryMemberRef, w.federationRef, e.routingMode.ActivePassive?;
    && (problem == Some(About(PrimaryMemberNotFound, [p])) <==> passive && p !in x.members)
    && (problem == Some(About(PrimaryMemberNotInFederation, [t.name, p])) <==>
          passive && p in x.members && f == "")
    && (problem == Some(About(PrimaryMemberNotInFederation, [p, f, t.name])) <==>
          PrimaryJudged(x, e, w) && !PrimaryBelongs(x, e, w) && !PrimaryUndecided(x, e, w))
    && (problem == Some(About(FederationNotFound, [f, t.name])) <==>
          passive && p in x.members && f != "" && f !in x.federations)
    && (problem == Some(About(InvalidFederationSelector, [f])) <==> PrimaryUndecided(x, e, w))
  }

  /** validatePrimaryMember's answer, with its text. */
  method PrimaryPreflight(x: World, e: EndpointSpec, w: WorkloadSpec, t: Key) returns (problem: Option<Message>)
    ensures e.routingMode.ActivePassive? ==> PrimaryReported(x, e, w, t, problem)
    ensures e.routingMode.ActivePassive? ==> (problem.None? <==> PrimaryBelongs(x, e, w))
    ensures e.routingMode.ActiveActive? ==> problem.None?
    ensures problem.Some? ==>
              problem.value.About? && PrimaryProblem(x, e, w) == Some(problem.value.reason)
    ensures problem.None? ==> PrimaryProblem(x, e, w).None?
  {
    if !e.routingMode.ActivePassive? {
      return None;
    }
    var f, p := w.federationRef, e.primaryMemberRef;
    var d := ValidatePrimaryMember(FederationOf(x, w), f != "", p, x.members);
    match d {
      case Yes => return None;
      case MemberMissing => return Some(About(PrimaryMemberNotFound, [p]));
      case FederationMissing => return Some(About(FederationNotFound, [f, t.name]));
      case BadSelector => return Some(About(InvalidFederationSelector, [f]));
      case No =>
        if f == "" {
          return Some(About(PrimaryMemberNotInFederation, [t.name, p]));
        }
        return Some(About(PrimaryMemberNotInFederation, [p, f, t.name]));
    }
  }

  /** An endpoint pass past its finalizer annotates exactly when nothing is wrong; otherwise it
      reports the first of: Workload, primary, Service, its controller. */
  method EndpointPreflight(s: State, k: Key) returns (problem: Option<Message>)
    requires Applying(s.endpoints, k)
    ensures problem == EndpointFinding(s, k)
    ensures problem.None? <==> CanAnnotate(s, k)
    ensures
      var o := s.endpoints.passes[k].obj;
      var t := Key(if o.workloadRef.ns == "" then k.ns else o.workloadRef.ns, o.workloadRef.name);
      if t !in s.workloads then problem == Some(About(WorkloadNotFound, [t.name]))
      else
        var w := s.workloads[t];
        var fits := o.spec.routingMode.ActivePassive? ==> PrimaryBelongs(s.world, o.spec, w.spec);
        var service := t in s.objects.services;
        var owned := service && UidOf(s.objects.services[t].controller) == Some(w.uid);
        && PrimaryReported(s.world, o.spec, w.spec, t, problem)
        && (problem == Some(About(ServiceNotFound, [t.name, t.ns])) <==> fits && !service)
        && (problem == Some(About(ServiceOwnershipConflict, [t.name, t.ns, t.name])) <==> fits && service && !owned)
        && (problem.None? <==> fits && service && owned)
  {
    var o := s.endpoints.passes[k].obj;
    var t := Target(k, o);
    if t !in s.workloads {
      return Some(About(WorkloadNotFound, [o.workloadRef.name]));
    }
    problem := PrimaryPreflight(s.world, o.spec, s.workloads[t].spec, t);
    if problem.Some? {
      return;
    }
    if t !in s.objects.services {
      return Some(About(ServiceNotFound, [t.name, t.ns]));
    }
    if !Controls(s.workloads[t].uid, s.objects.services[t].controller) {
      return Some(About(ServiceOwnershipConflict, [t.name, t.ns, t.name]));
    }
    return None;
  }
}
