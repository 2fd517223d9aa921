/** What the passes of each reconciler bring about on a cluster, from the read that begins them to their
    last write, with every reference resolved and every value named. */
module Passes {
  import opened Types
  import opened Api
  import opened EnvNames
  import opened EnvList
  import opened ManagedAnnotation
  import opened Deployments
  import opened Membership
  import opened Placement
  import opened Finalizers
  import opened Cluster
  import opened ClusterSafety
  import EP = EnvProtocol
  import SR = ServiceRouting

  // ------------------------------------------------------------------------ binding passes

  /** An injection by the binding called `name`: the URL by reference, the mode literally, DATABASE_URL for
      the binding called primary; every other variable as it was, and the names on record. */
  ghost predicate Provided(d: DeploymentObj, d': DeploymentObj, name: string, url: EnvValue, mode: string) {
    && OnlyAppEnv(d, d') && Managed(d'.annotations) == Managed(d.annotations) + ManagedSet(name)
    && (AppIndex(d.containers) >= 0 ==>
          && Lookup(AppEnv(d'), UrlName(name)) == Some(url)
          && Lookup(AppEnv(d'), ModeName(name)) == Some(Literal(mode))
          && (name == "primary" ==> Lookup(AppEnv(d'), "DATABASE_URL") == Some(url))
          && forall n :: n !in ManagedSet(name) ==> Lookup(AppEnv(d'), n) == Lookup(AppEnv(d), n))
  }

  lemma InjectProvides(d: DeploymentObj, name: string, v: BindingValues)
    requires DnsName(name)
    ensures Provided(d, Inject(d, name, v), name, SecretKeyRef(v.secret, v.secretKey), v.mode)
  {
    ManagedSetValid(name);
    UpdateDecodes(d.annotations, ManagedSet(name), {});
    assert Managed(d.annotations) - {} == Managed(d.annotations);
    InjectOnlyAppEnv(d, name, v);
    if AppIndex(d.containers) >= 0 { EP.InjectedEnvironment(d, name, v); }
  }

  /** No Deployment but the one at t, and no Service, changes. */
  ghost predicate OnlyDeployment(o: Objects, o': Objects, t: Key) {
    o'.services == o.services && o'.deployments - {t} == o.deployments - {t}
  }

  ghost predicate OnlyService(o: Objects, o': Objects, t: Key) {
    o'.deployments == o.deployments && o'.services - {t} == o.services - {t}
  }

  /** What binding b, read as o, injects: the URL under "url" if the connection Secret has that key, and
      under "DATABASE_URL" if not. */
  function UrlOf(s: State, b: Key, o: Stored<BindingSpec>): EnvValue {
    var secret := Resolve(b, o.spec.connectionRef);
    SecretKeyRef(secret.name, if secret in s.withUrl then "url" else "DATABASE_URL")
  }

  lemma ValuesAre(s: State, b: Key, o: Stored<BindingSpec>)
    ensures var v := ValuesFor(s, b, o.spec);
      SecretKeyRef(v.secret, v.secretKey) == UrlOf(s, b, o) && v.mode == o.spec.replicationMode
  {
  }

  lemma InjectionWrites(s: State, b: Key)
    requires CanInject(s, b)
    ensures var o := s.bindings.passes[b].obj;
      var t := Target(b, o);
      && t in s.objects.deployments
      && Injected(s, b).objects
         == SetDeployment(s.objects, t, Inject(s.objects.deployments[t], b.name, ValuesFor(s, b, o.spec)))
      && Injected(s, b).bindings.stored == s.bindings.stored && b !in Injected(s, b).bindings.passes
  {
  }

  /** The step that injects, whatever ran before it in the pass. */
  lemma InjectionReferences(s: State, b: Key)
    requires CanInject(s, b) && DnsName(b.name)
    ensures var o, s' := s.bindings.passes[b].obj, Injected(s, b);
      var t := Target(b, o);
      && t in s.objects.deployments && t in s'.objects.deployments
      && Provided(s.objects.deployments[t], s'.objects.deployments[t], b.name, UrlOf(s, b, o), o.spec.replicationMode)
      && OnlyDeployment(s.objects, s'.objects, t)
      && s'.bindings.stored == s.bindings.stored && b !in s'.bindings.passes
  {
    var o := s.bindings.passes[b].obj;
    InjectionWrites(s, b);
    ValuesAre(s, b, o);
    InjectProvides(s.objects.deployments[Target(b, o)], b.name, ValuesFor(s, b, o.spec));
  }

  /** Everything a binding's pass asks for is there. */
  ghost predicate BindingFits(s: State, t: Key, secret: Key, engine: string) {
    && engine in {"yugabytedb", "postgres_compatible", "postgres"}
    && t in s.workloads && secret in s.world.secrets
    && t in s.objects.deployments && UidOf(s.objects.deployments[t].controller) == Some(s.workloads[t].uid)
  }

  function BindingSteps(b: Key): seq<Step> {
    [OnBinding(StartPass(b)), OnBinding(WriteFinalizer(b)), InjectBinding(b)]
  }

  /** The read and the write on the binding itself that come first. */
  lemma BindingStarts(s: State, b: Key)
    requires b in s.bindings.stored && b !in s.bindings.passes && !s.bindings.stored[b].deleting
    ensures
      var mid := Next(Next(s, OnBinding(StartPass(b))), OnBinding(WriteFinalizer(b)));
      && Applying(mid.bindings, b) && Held(mid.bindings, b) && SameObject(s.bindings, mid.bindings, b)
      && mid.bindings.passes[b].obj == mid.bindings.stored[b]
      && mid == s.(next := mid.next, bindings := mid.bindings)
  {
    var one := Next(s, OnBinding(StartPass(b)));
    PassBegins(s.bindings, b, s.next);
    if !s.bindings.stored[b].finalizer { FinalizerWritten(one.bindings, b, one.next); }
  }

  /** A binding's pass, run through: the binding holds the finalizer, and its variables are in the app container
      of the Workload it references. */
  lemma BindingPassInjects(s: State, b: Key)
    requires b in s.bindings.stored && b !in s.bindings.passes && !s.bindings.stored[b].deleting && DnsName(b.name)
    requires var o := s.bindings.stored[b];
      BindingFits(s, Target(b, o), Resolve(b, o.spec.connectionRef), o.spec.engine)
    ensures var o, s' := s.bindings.stored[b], Run(s, BindingSteps(b));
      var t := Target(b, o);
      && Held(s'.bindings, b) && b !in s'.bindings.passes && SameObject(s.bindings, s'.bindings, b)
      && t in s'.objects.deployments
      && Provided(s.objects.deployments[t], s'.objects.deployments[t], b.name, UrlOf(s, b, o), o.spec.replicationMode)
      && OnlyDeployment(s.objects, s'.objects, t)
  {
    ThreeSteps(s, OnBinding(StartPass(b)), OnBinding(WriteFinalizer(b)), InjectBinding(b));
    BindingStarts(s, b);
    InjectionReferences(Next(Next(s, OnBinding(StartPass(b))), OnBinding(WriteFinalizer(b))), b);
  }

  // --------------------------------------------------------------------- binding deletions

  /** None of the binding's variables is in the app container or on record; everything else is as before. */
  ghost predicate Cleared(d: DeploymentObj, d': DeploymentObj, name: string) {
    && OnlyAppEnv(d, d') && Managed(d'.annotations) == Managed(d.annotations) - ManagedSet(name)
    && forall n :: Lookup(AppEnv(d'), n) == if n in ManagedSet(name) then None else Lookup(AppEnv(d), n)
  }

  lemma WithdrawClears(d: DeploymentObj, name: string)
    ensures Cleared(d, Withdraw(d, name), name)
  {
    UpdateDecodes(d.annotations, {}, ManagedSet(name));
    forall n { WithdrawnEnvironment(d, name, n); }
  }

  /** The clean-up step, whatever ran before it. */
  lemma WithdrawalClears(s: State, b: Key)
    requires CleaningUp(s.bindings, b)
    ensures var o, s' := s.bindings.passes[b].obj, Withdrawn(s, b);
      var t := Target(b, o);
      && (OwnsDeployment(s, t) ==>
            && OwnsDeployment(s', t) && OnlyDeployment(s.objects, s'.objects, t)
            && Cleared(s.objects.deployments[t], s'.objects.deployments[t], b.name))
      && (!OwnsDeployment(s, t) ==> s'.objects == s.objects)
      && s'.bindings.stored == s.bindings.stored
      && Releasing(s'.bindings, b) && s'.bindings.passes[b].obj == o
  {
    var t := Target(b, s.bindings.passes[b].obj);
    if OwnsDeployment(s, t) { WithdrawClears(s.objects.deployments[t], b.name); }
  }

  function DeletionSteps(b: Key, othersHold: bool): seq<Step> {
    [OnBinding(StartPass(b)), WithdrawBinding(b), OnBinding(ReleaseFinalizer(b, othersHold))]
  }

  /** A deletion, run through: the binding is gone, or waits for other people's finalizers only, and its variables
      are off its Workload's Deployment. */
  lemma BindingDeletionCompletes(s: State, b: Key, othersHold: bool)
    requires b in s.bindings.stored && b !in s.bindings.passes
    requires s.bindings.stored[b].deleting && s.bindings.stored[b].finalizer
    ensures var s', t := Run(s, DeletionSteps(b, othersHold)), Target(b, s.bindings.stored[b]);
      && b !in s'.bindings.passes && !Held(s'.bindings, b) && (b in s'.bindings.stored <==> othersHold)
      && (OwnsDeployment(s, t) ==>
            && OwnsDeployment(s', t) && OnlyDeployment(s.objects, s'.objects, t)
            && Cleared(s.objects.deployments[t], s'.objects.deployments[t], b.name))
      && (!OwnsDeployment(s, t) ==> s'.objects == s.objects)
      && forall n :: n in ManagedSet(b.name) ==> !Recorded(s', t, n)
  {
    ThreeSteps(s, OnBinding(StartPass(b)), WithdrawBinding(b), OnBinding(ReleaseFinalizer(b, othersHold)));
    var one := Next(s, OnBinding(StartPass(b)));
    PassBegins(s.bindings, b, s.next);
    WithdrawalClears(one, b);
    var two := Next(one, WithdrawBinding(b));
    FinalizerReleased(two.bindings, b, othersHold, two.next);
    assert Next(two, OnBinding(ReleaseFinalizer(b, othersHold))).objects == two.objects;
  }

  // ------------------------------------------------------------------ with others in between

  /** The step works on binding b itself. */
  predicate Concerns(step: Step, b: Key) {
    (step.OnBinding? && step.bop.k == b) || step == InjectBinding(b) || step == WithdrawBinding(b)
  }

  /** The binding and its pass, as they are. */
  ghost predicate SameEntry<S>(l: Ledger<S>, l': Ledger<S>, b: Key) {
    && (b in l.stored <==> b in l'.stored) && (b in l.stored ==> l'.stored[b] == l.stored[b])
    && (b in l.passes <==> b in l'.passes) && (b in l.passes ==> l'.passes[b] == l.passes[b])
  }

  lemma PerformElsewhere<S>(l: Ledger<S>, op: LedgerOp<S>, next: nat, b: Key)
    requires op.k != b
    ensures SameEntry(l, Perform(l, op, next), b)
  {
  }

  lemma OthersLeaveBinding(s: State, step: Step, b: Key)
    requires !Concerns(step, b)
    ensures SameEntry(s.bindings, Next(s, step).bindings, b)
  {
    match step {
      case OnBinding(op) => PerformElsewhere(s.bindings, op, s.next, b);
      case InjectBinding(c) => OtherBindingSteps(s, c, b);
      case WithdrawBinding(c) => OtherBindingSteps(s, c, b);
      case _ => OthersLeaveBindings(s, step);
    }
  }

  lemma OtherBindingSteps(s: State, c: Key, b: Key)
    requires c != b
    ensures SameEntry(s.bindings, Injected(s, c).bindings, b)
    ensures SameEntry(s.bindings, Withdrawn(s, c).bindings, b)
  {
  }

  lemma OthersLeaveBindings(s: State, step: Step)
    requires !step.OnBinding? && !step.InjectBinding? && !step.WithdrawBinding?
    ensures Next(s, step).bindings == s.bindings
  {
  }

  lemma {:induction false} OthersLeaveBindingAlong(s: State, steps: seq<Step>, b: Key)
    requires forall step :: step in steps ==> !Concerns(step, b)
    ensures SameEntry(s.bindings, Run(s, steps).bindings, b)
  {
    if steps != [] {
      OthersLeaveBindingAlong(s, steps[..|steps| - 1], b);
      OthersLeaveBinding(Run(s, steps[..|steps| - 1]), steps[|steps| - 1], b);
    }
  }

  lemma RunAfter(s: State, step: Step, steps: seq<Step>)
    ensures Run(s, [step] + steps) == Run(Next(s, step), steps)
  {
    RunConcat(s, [step], steps);
    assert Run(s, [step]) == Next(Run(s, []), step) by { assert [step][..0] == []; }
  }

  /** Deletion gets through whatever happens between its steps, as long as nobody touches the binding
      itself: other passes, users and the garbage collector may do anything else. */
  lemma DeletionGetsThrough(s: State, b: Key, othersHold: bool, u: seq<Step>, v: seq<Step>)
    requires b in s.bindings.stored && b !in s.bindings.passes
    requires s.bindings.stored[b].deleting && s.bindings.stored[b].finalizer
    requires forall step :: step in u || step in v ==> !Concerns(step, b)
    ensures
      var steps := ([OnBinding(StartPass(b))] + u) + ([WithdrawBinding(b)] + v);
      var s' := Run(s, steps + [OnBinding(ReleaseFinalizer(b, othersHold))]);
      b !in s'.bindings.passes && !Held(s'.bindings, b) && (b in s'.bindings.stored <==> othersHold)
  {
    var head, tail := [OnBinding(StartPass(b))] + u, [WithdrawBinding(b)] + v;
    RunLast(s, head + tail, OnBinding(ReleaseFinalizer(b, othersHold)));
    RunConcat(s, head, tail);
    var one := Next(s, OnBinding(StartPass(b)));
    RunAfter(s, OnBinding(StartPass(b)), u);
    PassBegins(s.bindings, b, s.next);
    OthersLeaveBindingAlong(one, u, b);
    var two := Run(one, u);
    WithdrawalClears(two, b);
    RunAfter(two, WithdrawBinding(b), v);
    var three := Run(Next(two, WithdrawBinding(b)), v);
    OthersLeaveBindingAlong(Next(two, WithdrawBinding(b)), v, b);
    FinalizerReleased(three.bindings, b, othersHold, three.next);
  }

  // ----------------------------------------------------------------------- endpoint passes

  /** The Service carries the routing of a version: global, and shared if the version is for this cluster. */
  ghost predicate RoutedFor(svc: ServiceObj, svc': ServiceObj, spec: EndpointSpec, self: string) {
    && svc' == svc.(annotations := svc'.annotations)
    && svc'.annotations - {SR.GLOBAL, SR.SHARED} == svc.annotations - {SR.GLOBAL, SR.SHARED}
    && SR.GLOBAL in svc'.annotations && svc'.annotations[SR.GLOBAL] == "true"
    && SR.SHARED in svc'.annotations
    && svc'.annotations[SR.SHARED] == if spec.routingMode.ActiveActive? || self == spec.primaryMemberRef then "true"
                                      else "false"
  }

  lemma AnnotationRoutes(s: State, e: Key)
    requires CanAnnotate(s, e)
    ensures var o, s' := s.endpoints.passes[e].obj, Annotated(s, e);
      var t := Target(e, o);
      && t in s.objects.services && t in s'.objects.services
      && RoutedFor(s.objects.services[t], s'.objects.services[t], o.spec, s.world.self)
      && OnlyService(s.objects, s'.objects, t)
      && Reporting(s'.endpoints, e) && s'.endpoints.passes[e].obj == o && s'.endpoints.stored == s.endpoints.stored
      && s'.reported == s.reported
  {
  }

  lemma ReportStores(s: State, e: Key)
    requires Reporting(s.endpoints, e) && Fresh(s.endpoints, e)
    ensures var spec, s' := s.endpoints.passes[e].obj.spec, Reported(s, e);
      && e in s'.reported
      && (spec.routingMode.ActivePassive? ==> s'.reported[e] == spec.primaryMemberRef)
      && (spec.routingMode.ActiveActive? ==> s'.reported[e] == "")
      && s'.reported - {e} == s.reported - {e}
      && s'.objects == s.objects && s'.endpoints.stored == s.endpoints.stored && e !in s'.endpoints.passes
  {
  }

  lemma EndpointStarts(s: State, e: Key)
    requires e in s.endpoints.stored && e !in s.endpoints.passes && !s.endpoints.stored[e].deleting
    ensures
      var mid := Next(Next(s, OnEndpoint(StartPass(e))), OnEndpoint(WriteFinalizer(e)));
      && Applying(mid.endpoints, e) && Held(mid.endpoints, e) && SameObject(s.endpoints, mid.endpoints, e)
      && mid.endpoints.passes[e].obj == mid.endpoints.stored[e]
      && mid == s.(next := mid.next, endpoints := mid.endpoints, reported := mid.reported)
  {
    var one := Next(s, OnEndpoint(StartPass(e)));
    PassBegins(s.endpoints, e, s.next);
    if !s.endpoints.stored[e].finalizer { FinalizerWritten(one.endpoints, e, one.next); }
  }

  /** Everything an endpoint's pass asks for is there. */
  ghost predicate EndpointFits(s: State, t: Key, e: EndpointSpec) {
    && t in s.workloads && t in s.objects.services
    && UidOf(s.objects.services[t].controller) == Some(s.workloads[t].uid)
    && (e.routingMode.ActivePassive? ==>
          var p, f := e.primaryMemberRef, s.workloads[t].spec.federationRef;
          && p in s.world.members && f != "" && f in s.world.federations
          && (Listed(s.world.federations[f], p) || Selected(s.world.federations[f], s.world.members[p])))
  }

  function EndpointSteps(e: Key): seq<Step> {
    [OnEndpoint(StartPass(e)), OnEndpoint(WriteFinalizer(e))] + [AnnotateService(e), ReportEndpoint(e)]
  }

  lemma TwoSteps(s: State, a: Step, b: Step)
    ensures Run(s, [a, b]) == Next(Next(s, a), b)
  {
    assert [] + [a] == [a] && [a] + [b] == [a, b];
    RunLast(s, [], a);
    RunLast(s, [a], b);
  }

  /** The second half, from the checks on. */
  lemma EndpointFinishes(s: State, e: Key)
    requires CanAnnotate(s, e) && Fresh(s.endpoints, e)
    ensures var o, s' := s.endpoints.passes[e].obj, Run(s, [AnnotateService(e), ReportEndpoint(e)]);
      var t := Target(e, o);
      && s'.endpoints.stored == s.endpoints.stored && e !in s'.endpoints.passes
      && t in s.objects.services && t in s'.objects.services && OnlyService(s.objects, s'.objects, t)
      && RoutedFor(s.objects.services[t], s'.objects.services[t], o.spec, s.world.self)
      && e in s'.reported
      && s'.reported[e] == if o.spec.routingMode.ActivePassive? then o.spec.primaryMemberRef else ""
  {
    TwoSteps(s, AnnotateService(e), ReportEndpoint(e));
    AnnotationRoutes(s, e);
    ReportStores(Annotated(s, e), e);
  }

  /** An endpoint's pass, run through: the finalizer is held, the Service carries the routing, and the primary is
      reported. */
  lemma EndpointPassRoutes(s: State, e: Key)
    requires e in s.endpoints.stored && e !in s.endpoints.passes && !s.endpoints.stored[e].deleting
    requires EndpointFits(s, Target(e, s.endpoints.stored[e]), s.endpoints.stored[e].spec)
    ensures var o, s' := s.endpoints.stored[e], Run(s, EndpointSteps(e));
      var t := Target(e, o);
      && Held(s'.endpoints, e) && e !in s'.endpoints.passes && SameObject(s.endpoints, s'.endpoints, e)
      && t in s'.objects.services && OnlyService(s.objects, s'.objects, t)
      && RoutedFor(s.objects.services[t], s'.objects.services[t], o.spec, s.world.self)
      && e in s'.reported
      && s'.reported[e] == if o.spec.routingMode.ActivePassive? then o.spec.primaryMemberRef else ""
  {
    RunConcat(s, [OnEndpoint(StartPass(e)), OnEndpoint(WriteFinalizer(e))], [AnnotateService(e), ReportEndpoint(e)]);
    TwoSteps(s, OnEndpoint(StartPass(e)), OnEndpoint(WriteFinalizer(e)));
    EndpointStarts(s, e);
    var mid := Next(Next(s, OnEndpoint(StartPass(e))), OnEndpoint(WriteFinalizer(e)));
    EndpointFinishes(mid, e);
  }

  // -------------------------------------------------------------------- endpoint deletions

  /** No routing annotation is left; everything else is as before. */
  ghost predicate Unrouted(svc: ServiceObj, svc': ServiceObj) {
    && svc' == svc.(annotations := svc'.annotations) && !HasRouting(svc'.annotations)
    && svc'.annotations == svc.annotations - {SR.GLOBAL, SR.SHARED}
  }

  lemma CleaningUnroutes(s: State, e: Key)
    requires CleaningUp(s.endpoints, e)
    ensures var o, s' := s.endpoints.passes[e].obj, Cleaned(s, e);
      var t := Target(e, o);
      && (OwnsService(s, t) ==>
            && OwnsService(s', t) && OnlyService(s.objects, s'.objects, t)
            && Unrouted(s.objects.services[t], s'.objects.services[t]))
      && (!OwnsService(s, t) ==> s'.objects == s.objects)
      && s'.workloads == s.workloads && s'.endpoints.stored == s.endpoints.stored
      && Releasing(s'.endpoints, e) && s'.endpoints.passes[e].obj == o
  {
  }

  function EndpointDeletionSteps(e: Key, othersHold: bool): seq<Step> {
    [OnEndpoint(StartPass(e)), CleanService(e), OnEndpoint(ReleaseFinalizer(e, othersHold))]
  }

  /** The same for an endpoint: gone, with its report, and its annotations off the Service. */
  lemma EndpointDeletionCompletes(s: State, e: Key, othersHold: bool)
    requires e in s.endpoints.stored && e !in s.endpoints.passes
    requires s.endpoints.stored[e].deleting && s.endpoints.stored[e].finalizer
    ensures var s', t := Run(s, EndpointDeletionSteps(e, othersHold)), Target(e, s.endpoints.stored[e]);
      && e !in s'.endpoints.passes && !Held(s'.endpoints, e) && (e in s'.endpoints.stored <==> othersHold)
      && (!othersHold ==> e !in s'.reported)
      && (OwnsService(s, t) ==>
            && OwnsService(s', t) && OnlyService(s.objects, s'.objects, t)
            && Unrouted(s.objects.services[t], s'.objects.services[t]))
      && (!OwnsService(s, t) ==> s'.objects == s.objects)
      && !RoutedAt(s', t)
  {
    ThreeSteps(s, OnEndpoint(StartPass(e)), CleanService(e), OnEndpoint(ReleaseFinalizer(e, othersHold)));
    var one := Next(s, OnEndpoint(StartPass(e)));
    PassBegins(s.endpoints, e, s.next);
    CleaningUnroutes(one, e);
    var two := Next(one, CleanService(e));
    FinalizerReleased(two.endpoints, e, othersHold, two.next);
    assert Next(two, OnEndpoint(ReleaseFinalizer(e, othersHold))).objects == two.objects;
  }

  predicate ConcernsEndpoint(step: Step, e: Key) {
    (step.OnEndpoint? && step.eop.k == e) || step in {AnnotateService(e), ReportEndpoint(e), CleanService(e)}
  }

  lemma OthersLeaveEndpoint(s: State, step: Step, e: Key)
    requires !ConcernsEndpoint(step, e)
    ensures SameEntry(s.endpoints, Next(s, step).endpoints, e)
  {
    match step {
      case OnEndpoint(op) => PerformElsewhere(s.endpoints, op, s.next, e);
      case AnnotateService(f) => OtherAnnotations(s, f, e);
      case ReportEndpoint(f) => OtherEndpointSteps(s, f, e);
      case CleanService(f) => OtherEndpointSteps(s, f, e);
      case _ => OthersLeaveEndpoints(s, step);
    }
  }

  lemma OtherEndpointSteps(s: State, f: Key, e: Key)
    requires f != e
    ensures SameEntry(s.endpoints, Reported(s, f).endpoints, e)
    ensures SameEntry(s.endpoints, Cleaned(s, f).endpoints, e)
  {
  }

  lemma OtherAnnotations(s: State, f: Key, e: Key)
    requires f != e
    ensures SameEntry(s.endpoints, Annotated(s, f).endpoints, e)
  {
  }

  lemma {:induction false} OthersLeaveEndpointAlong(s: State, steps: seq<Step>, e: Key)
    requires forall step :: step in steps ==> !ConcernsEndpoint(step, e)
    ensures SameEntry(s.endpoints, Run(s, steps).endpoints, e)
  {
    if steps != [] {
      OthersLeaveEndpointAlong(s, steps[..|steps| - 1], e);
      OthersLeaveEndpoint(Run(s, steps[..|steps| - 1]), steps[|steps| - 1], e);
    }
  }

  lemma EndpointDeletionGetsThrough(s: State, e: Key, othersHold: bool, u: seq<Step>, v: seq<Step>)
    requires e in s.endpoints.stored && e !in s.endpoints.passes
    requires s.endpoints.stored[e].deleting && s.endpoints.stored[e].finalizer
    requires forall step :: step in u || step in v ==> !ConcernsEndpoint(step, e)
    ensures
      var steps := ([OnEndpoint(StartPass(e))] + u) + ([CleanService(e)] + v);
      var s' := Run(s, steps + [OnEndpoint(ReleaseFinalizer(e, othersHold))]);
      e !in s'.endpoints.passes && !Held(s'.endpoints, e) && (e in s'.endpoints.stored <==> othersHold)
  {
    var head, tail := [OnEndpoint(StartPass(e))] + u, [CleanService(e)] + v;
    RunLast(s, head + tail, OnEndpoint(ReleaseFinalizer(e, othersHold)));
    RunConcat(s, head, tail);
    var one := Next(s, OnEndpoint(StartPass(e)));
    RunAfter(s, OnEndpoint(StartPass(e)), u);
    PassBegins(s.endpoints, e, s.next);
    OthersLeaveEndpointAlong(one, u, e);
    var two := Run(one, u);
    CleaningUnroutes(two, e);
    RunAfter(two, CleanService(e), v);
    var three := Run(Next(two, CleanService(e)), v);
    OthersLeaveEndpointAlong(Next(two, CleanService(e)), v, e);
    FinalizerReleased(three.endpoints, e, othersHold, three.next);
  }

  // ----------------------------------------------------------------------- Workload passes

  function WorkloadSteps(k: Key): seq<Step> { [StartWorkload(k), ApplyDeployment(k), ApplyService(k)] }

  /** A Workload's pass, run through on a cluster meant to run it: the Deployment is built from spec, with what the
      bindings put into its first container, and the Service exposes it. */
  lemma WorkloadPassBuilds(s: State, k: Key)
    requires k in s.workloads && s.workloads[k].key == k && k !in s.workloadPass
    requires Placed(s.world, s.workloads[k].spec) && DependenciesPresent(s.world, k.ns, s.workloads[k].spec)
    requires !DeploymentConflict(s.objects, s.workloads[k]) && !ServiceConflict(s.objects, s.workloads[k])
    ensures var s', w := Run(s, WorkloadSteps(k)), s.workloads[k];
      && k in s'.objects.deployments && Built(StoredDeployment(s.objects, k), s'.objects.deployments[k], w)
      && (w.spec.ports != [] ==>
            k in s'.objects.services
            && Exposed(StoredService(s.objects, k), s'.objects.services[k], s'.objects.deployments[k], w))
      && s'.objects.deployments - {k} == s.objects.deployments - {k}
      && s'.objects.services - {k} == s.objects.services - {k}
      && s' == s.(objects := s'.objects)
  {
    ThreeSteps(s, StartWorkload(k), ApplyDeployment(k), ApplyService(k));
    UninterruptedPass(s, k);
    GateExact(s.world, s.objects, s.workloads[k]);
  }

  // ------------------------------------------------------------------------------- users

  /** Edits take effect. A Workload keeps its UID while it is edited, and gets a new one when it is created. */
  lemma WorkloadEditsReachStore(s: State, k: Key, spec: WorkloadSpec)
    ensures var s' := PutWorkloadAt(s, k, spec);
      && k in s'.workloads && s'.workloads[k].spec == spec && s'.workloads - {k} == s.workloads - {k}
      && (k in s.workloads ==> s'.workloads[k] == s.workloads[k].(spec := spec))
      && (k !in s.workloads ==> s'.workloads[k].key == k && s'.workloads[k].uid == s.next && s.next < s'.next)
    ensures Next(s, DropWorkload(k)).workloads == s.workloads - {k}
  {
  }

  /** Users may bring a Deployment into any state that leaves controller and recorded names alone, and create any at
      all: a controller it names keeps its kind and name, under a UID that nobody here has. */
  lemma DeploymentEditsReachStore(s: State, k: Key, d: DeploymentObj)
    requires k in s.objects.deployments ==>
               && d.controller == s.objects.deployments[k].controller
               && Managed(d.annotations) == Managed(s.objects.deployments[k].annotations)
    ensures var d' := if k in s.objects.deployments || d.controller.None? then d
                      else d.(controller := Some(Owner(s.next, d.controller.value.kind, d.controller.value.name)));
      PutDeploymentAt(s, k, d).objects == SetDeployment(s.objects, k, d')
    ensures k !in Next(s, DropDeployment(k)).objects.deployments
  {
  }

  /** And a Service into any state that leaves the controller alone and sets no routing annotation anew; they may
      remove those that are there. */
  lemma ServiceEditsReachStore(s: State, k: Key, svc: ServiceObj)
    requires k in s.objects.services ==>
               var was := s.objects.services[k];
               && svc.controller == was.controller
               && forall a :: (a == SR.GLOBAL || a == SR.SHARED) && a in svc.annotations ==>
                    a in was.annotations && was.annotations[a] == svc.annotations[a]
    ensures var svc' := if k in s.objects.services || svc.controller.None? then svc
                        else svc.(controller := Some(Owner(s.next, svc.controller.value.kind,
                                                           svc.controller.value.name)));
      PutServiceAt(s, k, svc).objects == SetService(s.objects, k, svc')
    ensures k !in Next(s, DropService(k)).objects.services
  {
  }
}
