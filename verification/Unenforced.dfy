/** Fields that are accepted but not acted on. The collectors that report them, and the two-run
    property that justifies the report: runs that differ in these fields only agree in every
    object they write. */
module Unenforced {
  import opened Types
  import opened Api
  import opened Conditions
  import opened Deployments
  import opened Membership
  import opened Placement
  import opened Finalizers
  import opened Cluster

  // ----------------------------------------------------------------------------- collectors

  function WorkloadFields(spec: WorkloadSpec): (fields: seq<Field>)
    ensures TargetPolicyStrategy in fields <==> spec.targetPolicy.Some? && spec.targetPolicy.value.strategy != ""
    ensures RolloutRef in fields <==> spec.rolloutRef.Some?
    ensures fields == [] <==> spec == WithoutUnenforced(spec)
    ensures |fields| > 1 ==> fields == [TargetPolicyStrategy, RolloutRef]
  {
    (if spec.targetPolicy.Some? && spec.targetPolicy.value.strategy != "" then [TargetPolicyStrategy] else [])
    + (if spec.rolloutRef.Some? then [RolloutRef] else [])
  }

  function EndpointFields(spec: EndpointSpec): (fields: seq<Field>)
    ensures FailoverPolicy in fields <==> spec.failoverPolicy
    ensures GatewayRef in fields <==> spec.gatewayRef
    ensures fields == [] <==> spec == EndpointWithout(spec)
    ensures |fields| > 1 ==> fields == [FailoverPolicy, GatewayRef]
  {
    (if spec.failoverPolicy then [FailoverPolicy] else []) + (if spec.gatewayRef then [GatewayRef] else [])
  }

  function BindingFields(spec: BindingSpec): (fields: seq<Field>)
    ensures ConflictPolicy in fields <==> spec.conflictPolicy != ""
    ensures fields == [] <==> spec == BindingWithout(spec)
  {
    if spec.conflictPolicy != "" then [ConflictPolicy] else []
  }

  function FederationFields(spec: FederationSpec): (fields: seq<Field>)
    ensures DefaultTargetPolicy in fields <==> spec.defaultTargetPolicy
    ensures fields == [] <==> spec == FederationWithout(spec)
  {
    if spec.defaultTargetPolicy then [DefaultTargetPolicy] else []
  }

  // ------------------------------------------------------------- specs without those fields

  function WithoutUnenforced(spec: WorkloadSpec): WorkloadSpec {
    spec.(rolloutRef := None,
          targetPolicy := if spec.targetPolicy.Some? then Some(spec.targetPolicy.value.(strategy := "")) else None)
  }

  /** What the operator acts on: a target policy that only names a strategy is as good as none. */
  function Enforced(spec: WorkloadSpec): WorkloadSpec {
    var kept := WithoutUnenforced(spec);
    if kept.targetPolicy == Some(TargetPolicy(None, [], "")) then kept.(targetPolicy := None) else kept
  }

  function EndpointWithout(spec: EndpointSpec): EndpointSpec { spec.(failoverPolicy := false, gatewayRef := false) }

  function BindingWithout(spec: BindingSpec): BindingSpec { spec.(conflictPolicy := "") }

  function FederationWithout(spec: FederationSpec): FederationSpec { spec.(defaultTargetPolicy := false) }

  // -------------------------------------------------------- states alike but for those fields

  ghost predicate AlikeWorld(x1: World, x2: World) {
    && x1 == x2.(federations := x1.federations)
    && x1.federations.Keys == x2.federations.Keys
    && forall f :: f in x1.federations ==> FederationWithout(x1.federations[f]) == FederationWithout(x2.federations[f])
  }

  predicate AlikeWorkload(w1: Workload, w2: Workload) {
    w1.key == w2.key && w1.uid == w2.uid && Enforced(w1.spec) == Enforced(w2.spec)
  }

  predicate AlikePhase(p1: WorkloadPhase, p2: WorkloadPhase) {
    p1.ToDeployment? == p2.ToDeployment? && AlikeWorkload(p1.w, p2.w)
  }

  predicate AlikeStored<S(==)>(o1: Stored<S>, o2: Stored<S>, without: S -> S) {
    o1 == o2.(spec := o1.spec) && without(o1.spec) == without(o2.spec)
  }

  function Kind<S>(p: Phase<S>): nat {
    match p
    case ToFinalizer(_) => 0
    case ToApply(_) => 1
    case ToReport(_) => 2
    case ToCleanUp(_) => 3
    case ToRelease(_) => 4
  }

  ghost predicate AlikeLedger<S>(l1: Ledger<S>, l2: Ledger<S>, without: S -> S) {
    && l1.stored.Keys == l2.stored.Keys && l1.passes.Keys == l2.passes.Keys
    && (forall k :: k in l1.stored ==> AlikeStored(l1.stored[k], l2.stored[k], without))
    && (forall k :: k in l1.passes ==>
          Kind(l1.passes[k]) == Kind(l2.passes[k]) && AlikeStored(l1.passes[k].obj, l2.passes[k].obj, without))
  }

  ghost predicate AlikeWorkloads(a: map<Key, Workload>, b: map<Key, Workload>) {
    a.Keys == b.Keys && forall k :: k in a ==> AlikeWorkload(a[k], b[k])
  }

  ghost predicate AlikePasses(a: map<Key, WorkloadPhase>, b: map<Key, WorkloadPhase>) {
    a.Keys == b.Keys && forall k :: k in a ==> AlikePhase(a[k], b[k])
  }

  /** Everything the operator writes is equal: Deployments, Services, reported members. */
  ghost predicate Alike(s1: State, s2: State) {
    && s1.next == s2.next && s1.withUrl == s2.withUrl && s1.objects == s2.objects && s1.reported == s2.reported
    && AlikeWorld(s1.world, s2.world)
    && AlikeWorkloads(s1.workloads, s2.workloads) && AlikePasses(s1.workloadPass, s2.workloadPass)
    && AlikeLedger(s1.bindings, s2.bindings, BindingWithout)
    && AlikeLedger(s1.endpoints, s2.endpoints, EndpointWithout)
  }

  ghost predicate AlikeOp<S(!new)>(a: LedgerOp<S>, b: LedgerOp<S>, without: S -> S) {
    if a.PutObject? && b.PutObject? then a == b.(spec := a.spec) && without(a.spec) == without(b.spec) else a == b
  }

  ghost predicate AlikeStep(a: Step, b: Step) {
    match (a, b)
    case (PutWorkload(k1, spec1), PutWorkload(k2, spec2)) =>
      k1 == k2 && Enforced(spec1) == Enforced(spec2)
    case (OnBinding(op1), OnBinding(op2)) => AlikeOp(op1, op2, BindingWithout)
    case (OnEndpoint(op1), OnEndpoint(op2)) => AlikeOp(op1, op2, EndpointWithout)
    case (ChangeWorld(x1, u1), ChangeWorld(x2, u2)) => AlikeWorld(x1, x2) && u1 == u2
    case _ => a == b
  }

  // ---------------------------------------------------------------------- decisions agree

  lemma TargetAlike(x1: World, x2: World, spec1: WorkloadSpec, spec2: WorkloadSpec)
    requires AlikeWorld(x1, x2) && Enforced(spec1) == Enforced(spec2)
    ensures TargetVerdict(x1, spec1) == TargetVerdict(x2, spec2)
  {
    if spec1.targetPolicy.Some? && spec2.targetPolicy.Some? {
      assert spec1.targetPolicy.value.(strategy := "") == spec2.targetPolicy.value.(strategy := "");
    }
  }

  lemma MembershipAlike(x1: World, x2: World, spec1: WorkloadSpec, spec2: WorkloadSpec)
    requires AlikeWorld(x1, x2) && Enforced(spec1) == Enforced(spec2)
    ensures MembershipVerdict(x1, spec1) == MembershipVerdict(x2, spec2)
  {
    var f := spec1.federationRef;
    if f in x1.federations {
      assert FederationWithout(x1.federations[f]) == FederationWithout(x2.federations[f]);
    }
  }

  lemma {:induction false} MissingAlike(x1: World, x2: World, ns: string, ds: seq<Dependency>)
    requires AlikeWorld(x1, x2)
    ensures FirstMissing(x1, ns, ds) == FirstMissing(x2, ns, ds)
  {
    if ds != [] { MissingAlike(x1, x2, ns, ds[1..]); }
  }

  lemma GateAlike(x1: World, x2: World, o: Objects, w1: Workload, w2: Workload)
    requires AlikeWorld(x1, x2) && AlikeWorkload(w1, w2)
    ensures Gate(x1, o, w1) == Gate(x2, o, w2)
  {
    MembershipAlike(x1, x2, w1.spec, w2.spec);
    TargetAlike(x1, x2, w1.spec, w2.spec);
    assert Needs(w1.spec) == Needs(w2.spec);
    MissingAlike(x1, x2, w1.key.ns, Needs(w1.spec));
  }

  lemma WritesAlike(o: Objects, w1: Workload, w2: Workload)
    requires AlikeWorkload(w1, w2)
    ensures WriteDeployment(o, w1) == WriteDeployment(o, w2) && WriteService(o, w1) == WriteService(o, w2)
    ensures DeploymentConflict(o, w1) == DeploymentConflict(o, w2) && ServiceConflict(o, w1) == ServiceConflict(o, w2)
  {
  }

  lemma PrimaryAlike(x1: World, x2: World, spec1: WorkloadSpec, spec2: WorkloadSpec, primary: string)
    requires AlikeWorld(x1, x2) && Enforced(spec1) == Enforced(spec2)
    ensures PrimaryDecision(FederationOf(x1, spec1), spec1.federationRef != "", primary, x1.members)
         == PrimaryDecision(FederationOf(x2, spec2), spec2.federationRef != "", primary, x2.members)
  {
    var f := spec1.federationRef;
    if f in x1.federations {
      assert FederationWithout(x1.federations[f]) == FederationWithout(x2.federations[f]);
    }
  }

  // ---------------------------------------------------------------------------- steps agree

  lemma StartWorkloadAlike(s1: State, s2: State, k: Key)
    requires Alike(s1, s2)
    ensures Alike(StartedWorkload(s1, k), StartedWorkload(s2, k))
  {
    if k in s1.workloads && k !in s1.workloadPass {
      var w1, w2 := s1.workloads[k], s2.workloads[k];
      GateAlike(s1.world, s2.world, s1.objects, w1, w2);
      if Gate(s1.world, s1.objects, w1) == Proceed {
        ReplacePasses(s1, s2, s1.workloadPass[k := ToDeployment(w1)], s2.workloadPass[k := ToDeployment(w2)],
                      s1.objects);
      }
    }
  }

  lemma ApplyDeploymentAlike(s1: State, s2: State, k: Key)
    requires Alike(s1, s2)
    ensures Alike(AppliedDeployment(s1, k), AppliedDeployment(s2, k))
  {
    if k in s1.workloadPass && s1.workloadPass[k].ToDeployment? {
      var w1, w2 := s1.workloadPass[k].w, s2.workloadPass[k].w;
      WritesAlike(s1.objects, w1, w2);
      if DeploymentConflict(s1.objects, w1) || ServiceConflict(s1.objects, w1) {
        assert AppliedDeployment(s2, k) == EndedWorkload(s2, k);
      } else {
        ReplacePasses(s1, s2, s1.workloadPass[k := ToService(w1)], s2.workloadPass[k := ToService(w2)],
                      WriteDeployment(s1.objects, w1));
      }
    }
  }

  lemma ReplacePasses(s1: State, s2: State, m1: map<Key, WorkloadPhase>, m2: map<Key, WorkloadPhase>, o: Objects)
    requires Alike(s1, s2) && AlikePasses(m1, m2)
    ensures Alike(s1.(workloadPass := m1, objects := o), s2.(workloadPass := m2, objects := o))
  {
  }

  lemma ApplyServiceAlike(s1: State, s2: State, k: Key)
    requires Alike(s1, s2)
    ensures Alike(AppliedService(s1, k), AppliedService(s2, k))
  {
    if k in s1.workloadPass {
      var w := s1.workloadPass[k].w;
      WritesAlike(s1.objects, w, s2.workloadPass[k].w);
      assert AlikePhase(s1.workloadPass[k], s2.workloadPass[k]);
    }
  }

  /** The passes of k are at the same point, for the same target. */
  lemma PassAlike<S>(l1: Ledger<S>, l2: Ledger<S>, k: Key, without: S -> S)
    requires AlikeLedger(l1, l2, without)
    ensures Applying(l1, k) == Applying(l2, k) && Reporting(l1, k) == Reporting(l2, k)
    ensures CleaningUp(l1, k) == CleaningUp(l2, k) && Releasing(l1, k) == Releasing(l2, k)
    ensures Fresh(l1, k) == Fresh(l2, k)
    ensures k in l1.passes ==> Target(k, l1.passes[k].obj) == Target(k, l2.passes[k].obj)
  {
  }

  lemma EndAlike<S>(l1: Ledger<S>, l2: Ledger<S>, k: Key, without: S -> S)
    requires AlikeLedger(l1, l2, without)
    ensures AlikeLedger(End(l1, k), End(l2, k), without)
  {
  }

  lemma LedgerAlike<S>(l1: Ledger<S>, l2: Ledger<S>, k: Key, without: S -> S)
    requires AlikeLedger(l1, l2, without)
    ensures Applying(l1, k) ==> AlikeLedger(Applied(l1, k), Applied(l2, k), without)
    ensures CleaningUp(l1, k) ==> AlikeLedger(CleanedUp(l1, k), CleanedUp(l2, k), without)
  {
    if k in l1.passes { assert AlikeStored(l1.passes[k].obj, l2.passes[k].obj, without); }
  }

  lemma ReplaceBindings(s1: State, s2: State, l1: Ledger<BindingSpec>, l2: Ledger<BindingSpec>, o: Objects)
    requires Alike(s1, s2) && AlikeLedger(l1, l2, BindingWithout)
    ensures Alike(s1.(bindings := l1, objects := o), s2.(bindings := l2, objects := o))
  {
  }

  lemma ReplaceEndpoints(s1: State, s2: State, l1: Ledger<EndpointSpec>, l2: Ledger<EndpointSpec>,
                         o: Objects, r: map<Key, string>)
    requires Alike(s1, s2) && AlikeLedger(l1, l2, EndpointWithout)
    ensures Alike(s1.(endpoints := l1, objects := o, reported := r), s2.(endpoints := l2, objects := o, reported := r))
  {
  }

  lemma OwnsAlike(s1: State, s2: State, t: Key)
    requires Alike(s1, s2)
    ensures OwnsDeployment(s1, t) == OwnsDeployment(s2, t) && OwnsService(s1, t) == OwnsService(s2, t)
  {
  }

  lemma InjectedAlike(s1: State, s2: State, k: Key)
    requires Alike(s1, s2)
    ensures Alike(Injected(s1, k), Injected(s2, k))
  {
    PassAlike(s1.bindings, s2.bindings, k, BindingWithout);
    EndAlike(s1.bindings, s2.bindings, k, BindingWithout);
    LedgerAlike(s1.bindings, s2.bindings, k, BindingWithout);
    if Applying(s1.bindings, k) {
      OwnsAlike(s1, s2, Target(k, s1.bindings.passes[k].obj));
      CanInjectAlike(s1, s2, k);
      ReplaceBindings(s1, s2, End(s1.bindings, k), End(s2.bindings, k), Injected(s1, k).objects);
    }
  }

  lemma CanInjectAlike(s1: State, s2: State, k: Key)
    requires Alike(s1, s2) && Applying(s1.bindings, k)
    ensures CanInject(s1, k) == CanInject(s2, k)
    ensures ValuesFor(s1, k, s1.bindings.passes[k].obj.spec) == ValuesFor(s2, k, s2.bindings.passes[k].obj.spec)
  {
  }

  lemma WithdrawnAlike(s1: State, s2: State, k: Key)
    requires Alike(s1, s2)
    ensures Alike(Withdrawn(s1, k), Withdrawn(s2, k))
  {
    PassAlike(s1.bindings, s2.bindings, k, BindingWithout);
    EndAlike(s1.bindings, s2.bindings, k, BindingWithout);
    LedgerAlike(s1.bindings, s2.bindings, k, BindingWithout);
    if CleaningUp(s1.bindings, k) {
      OwnsAlike(s1, s2, Target(k, s1.bindings.passes[k].obj));
      ReplaceBindings(s1, s2, CleanedUp(s1.bindings, k), CleanedUp(s2.bindings, k), Withdrawn(s1, k).objects);
    }
  }

  lemma CanAnnotateAlike(s1: State, s2: State, k: Key)
    requires Alike(s1, s2) && Applying(s1.endpoints, k)
    ensures CanAnnotate(s1, k) == CanAnnotate(s2, k)
    ensures EndpointWithout(s1.endpoints.passes[k].obj.spec) == EndpointWithout(s2.endpoints.passes[k].obj.spec)
  {
    var o := s1.endpoints.passes[k].obj;
    var t := Target(k, o);
    OwnsAlike(s1, s2, t);
    if t in s1.workloads {
      PrimaryAlike(s1.world, s2.world, s1.workloads[t].spec, s2.workloads[t].spec, o.spec.primaryMemberRef);
    }
  }

  lemma AnnotationAlike(s1: State, s2: State, k: Key)
    requires Alike(s1, s2) && CanAnnotate(s1, k) && CanAnnotate(s2, k)
    requires EndpointWithout(s1.endpoints.passes[k].obj.spec) == EndpointWithout(s2.endpoints.passes[k].obj.spec)
    requires Target(k, s1.endpoints.passes[k].obj) == Target(k, s2.endpoints.passes[k].obj)
    ensures Annotated(s1, k).objects == Annotated(s2, k).objects
  {
  }

  lemma AnnotatedAlike(s1: State, s2: State, k: Key)
    requires Alike(s1, s2)
    ensures Alike(Annotated(s1, k), Annotated(s2, k))
  {
    PassAlike(s1.endpoints, s2.endpoints, k, EndpointWithout);
    EndAlike(s1.endpoints, s2.endpoints, k, EndpointWithout);
    LedgerAlike(s1.endpoints, s2.endpoints, k, EndpointWithout);
    if Applying(s1.endpoints, k) {
      CanAnnotateAlike(s1, s2, k);
      if CanAnnotate(s1, k) {
        AnnotationAlike(s1, s2, k);
        ReplaceEndpoints(s1, s2, Applied(s1.endpoints, k), Applied(s2.endpoints, k),
                         Annotated(s1, k).objects, s1.reported);
      } else {
        ReplaceEndpoints(s1, s2, End(s1.endpoints, k), End(s2.endpoints, k), s1.objects, Annotated(s1, k).reported);
      }
    }
  }

  lemma ReportedAlike(s1: State, s2: State, k: Key)
    requires Alike(s1, s2)
    ensures Alike(Reported(s1, k), Reported(s2, k))
  {
    PassAlike(s1.endpoints, s2.endpoints, k, EndpointWithout);
    EndAlike(s1.endpoints, s2.endpoints, k, EndpointWithout);
    LedgerAlike(s1.endpoints, s2.endpoints, k, EndpointWithout);
    if Reporting(s1.endpoints, k) {
      assert EndpointWithout(s1.endpoints.passes[k].obj.spec) == EndpointWithout(s2.endpoints.passes[k].obj.spec);
      ReplaceEndpoints(s1, s2, End(s1.endpoints, k), End(s2.endpoints, k), s1.objects, Reported(s1, k).reported);
    }
  }

  lemma CleanedAlike(s1: State, s2: State, k: Key)
    requires Alike(s1, s2)
    ensures Alike(Cleaned(s1, k), Cleaned(s2, k))
  {
    PassAlike(s1.endpoints, s2.endpoints, k, EndpointWithout);
    EndAlike(s1.endpoints, s2.endpoints, k, EndpointWithout);
    LedgerAlike(s1.endpoints, s2.endpoints, k, EndpointWithout);
    if CleaningUp(s1.endpoints, k) {
      OwnsAlike(s1, s2, Target(k, s1.endpoints.passes[k].obj));
      ReplaceEndpoints(s1, s2, CleanedUp(s1.endpoints, k), CleanedUp(s2.endpoints, k),
                       Cleaned(s1, k).objects, s1.reported);
    }
  }

  lemma StartAlike<S>(l1: Ledger<S>, l2: Ledger<S>, k: Key, without: S -> S)
    requires AlikeLedger(l1, l2, without)
    ensures AlikeLedger(Start(l1, k), Start(l2, k), without)
  {
  }

  lemma AddFinalizerAlike<S>(l1: Ledger<S>, l2: Ledger<S>, k: Key, next: nat, without: S -> S)
    requires AlikeLedger(l1, l2, without)
    ensures AlikeLedger(AddFinalizer(l1, k, next), AddFinalizer(l2, k, next), without)
  {
  }

  lemma ReleaseAlike<S>(l1: Ledger<S>, l2: Ledger<S>, k: Key, othersHold: bool, next: nat, without: S -> S)
    requires AlikeLedger(l1, l2, without)
    ensures AlikeLedger(Release(l1, k, othersHold, next), Release(l2, k, othersHold, next), without)
  {
    PassAlike(l1, l2, k, without);
    if Releasing(l1, k) {
      if Fresh(l1, k) && othersHold {
        assert AlikeStored(l1.passes[k].obj, l2.passes[k].obj, without);
      } else {
        EndAlike(l1, l2, k, without);
      }
    }
  }

  lemma PutAlike<S>(l1: Ledger<S>, l2: Ledger<S>, k: Key, ref: Key, spec1: S, spec2: S, next: nat, without: S -> S)
    requires AlikeLedger(l1, l2, without) && without(spec1) == without(spec2)
    ensures AlikeLedger(Put(l1, k, ref, spec1, next), Put(l2, k, ref, spec2, next), without)
  {
  }

  lemma DropAlike<S>(l1: Ledger<S>, l2: Ledger<S>, k: Key, othersHold: bool, next: nat, without: S -> S)
    requires AlikeLedger(l1, l2, without)
    ensures AlikeLedger(Drop(l1, k, othersHold, next), Drop(l2, k, othersHold, next), without)
  {
  }

  lemma StripAlike<S>(l1: Ledger<S>, l2: Ledger<S>, k: Key, othersHold: bool, next: nat, without: S -> S)
    requires AlikeLedger(l1, l2, without)
    ensures AlikeLedger(Strip(l1, k, othersHold, next), Strip(l2, k, othersHold, next), without)
  {
    if k in l1.stored { assert AlikeStored(l1.stored[k], l2.stored[k], without); }
  }

  lemma PerformAlike<S(!new)>(l1: Ledger<S>, l2: Ledger<S>, a: LedgerOp<S>, b: LedgerOp<S>, next: nat, without: S -> S)
    requires AlikeLedger(l1, l2, without) && AlikeOp(a, b, without)
    ensures AlikeLedger(Perform(l1, a, next), Perform(l2, b, next), without)
  {
    match a {
      case StartPass(k) => StartAlike(l1, l2, k, without);
      case EndPass(k) => EndAlike(l1, l2, k, without);
      case WriteFinalizer(k) => AddFinalizerAlike(l1, l2, k, next, without);
      case ReleaseFinalizer(k, othersHold) => ReleaseAlike(l1, l2, k, othersHold, next, without);
      case PutObject(k, ref, spec) => PutAlike(l1, l2, k, ref, spec, b.spec, next, without);
      case DropObject(k, othersHold) => DropAlike(l1, l2, k, othersHold, next, without);
      case StripFinalizer(k, othersHold) => StripAlike(l1, l2, k, othersHold, next, without);
    }
  }

  lemma OnEndpointsAlike(s1: State, s2: State, a: LedgerOp<EndpointSpec>, b: LedgerOp<EndpointSpec>)
    requires Alike(s1, s2) && AlikeOp(a, b, EndpointWithout)
    ensures Alike(OnEndpoints(s1, a), OnEndpoints(s2, b))
  {
    PerformAlike(s1.endpoints, s2.endpoints, a, b, s1.next, EndpointWithout);
  }

  lemma PassStepAlike(s1: State, s2: State, a: Step)
    requires Alike(s1, s2)
    ensures a.StartWorkload? || a.ApplyDeployment? || a.ApplyService? ==> Alike(Next(s1, a), Next(s2, a))
    ensures a.InjectBinding? || a.WithdrawBinding? ==> Alike(Next(s1, a), Next(s2, a))
    ensures a.AnnotateService? || a.ReportEndpoint? || a.CleanService? ==> Alike(Next(s1, a), Next(s2, a))
  {
    match a {
      case StartWorkload(k) => StartWorkloadAlike(s1, s2, k);
      case ApplyDeployment(k) => ApplyDeploymentAlike(s1, s2, k);
      case ApplyService(k) => ApplyServiceAlike(s1, s2, k);
      case InjectBinding(_) => BindingStepAlike(s1, s2, a);
      case WithdrawBinding(_) => BindingStepAlike(s1, s2, a);
      case AnnotateService(_) => EndpointStepAlike(s1, s2, a);
      case ReportEndpoint(_) => EndpointStepAlike(s1, s2, a);
      case CleanService(_) => EndpointStepAlike(s1, s2, a);
      case _ =>
    }
  }

  lemma BindingStepAlike(s1: State, s2: State, a: Step)
    requires Alike(s1, s2) && (a.InjectBinding? || a.WithdrawBinding?)
    ensures Alike(Next(s1, a), Next(s2, a))
  {
    match a {
      case InjectBinding(k) => InjectedAlike(s1, s2, k);
      case WithdrawBinding(k) => WithdrawnAlike(s1, s2, k);
    }
  }

  lemma EndpointStepAlike(s1: State, s2: State, a: Step)
    requires Alike(s1, s2) && (a.AnnotateService? || a.ReportEndpoint? || a.CleanService?)
    ensures Alike(Next(s1, a), Next(s2, a))
  {
    match a {
      case AnnotateService(k) => AnnotatedAlike(s1, s2, k);
      case ReportEndpoint(k) => ReportedAlike(s1, s2, k);
      case CleanService(k) => CleanedAlike(s1, s2, k);
    }
  }

  lemma ReplaceObjects(s1: State, s2: State, next: nat, o: Objects)
    requires Alike(s1, s2)
    ensures Alike(s1.(next := next, objects := o), s2.(next := next, objects := o))
  {
  }

  lemma ReplaceWorkloads(s1: State, s2: State, next: nat, m1: map<Key, Workload>, m2: map<Key, Workload>)
    requires Alike(s1, s2) && AlikeWorkloads(m1, m2)
    ensures Alike(s1.(next := next, workloads := m1), s2.(next := next, workloads := m2))
  {
  }

  lemma PutWorkloadAlike(s1: State, s2: State, k: Key, spec1: WorkloadSpec, spec2: WorkloadSpec)
    requires Alike(s1, s2) && Enforced(spec1) == Enforced(spec2)
    ensures Alike(PutWorkloadAt(s1, k, spec1), PutWorkloadAt(s2, k, spec2))
  {
    if k in s1.workloads {
      var m1 := s1.workloads[k := s1.workloads[k].(spec := spec1)];
      ReplaceWorkloads(s1, s2, s1.next, m1, s2.workloads[k := s2.workloads[k].(spec := spec2)]);
    } else {
      var m1 := s1.workloads[k := Workload(k, s1.next, spec1)];
      ReplaceWorkloads(s1, s2, s1.next + 1, m1, s2.workloads[k := Workload(k, s2.next, spec2)]);
    }
  }

  lemma PutDeploymentAlike(s1: State, s2: State, k: Key, d: DeploymentObj)
    requires Alike(s1, s2)
    ensures Alike(PutDeploymentAt(s1, k, d), PutDeploymentAt(s2, k, d))
  {
    if k !in s1.objects.deployments || DeploymentEditAllowed(s1.objects.deployments[k], d) {
      var t := PutDeploymentAt(s1, k, d);
      ReplaceObjects(s1, s2, t.next, t.objects);
    }
  }

  lemma PutServiceAlike(s1: State, s2: State, k: Key, svc: ServiceObj)
    requires Alike(s1, s2)
    ensures Alike(PutServiceAt(s1, k, svc), PutServiceAt(s2, k, svc))
  {
    if k !in s1.objects.services || ServiceEditAllowed(s1.objects.services[k], svc) {
      var t := PutServiceAt(s1, k, svc);
      ReplaceObjects(s1, s2, t.next, t.objects);
    }
  }

  predicate Bookkeeping(a: Step) {
    a.EndWorkload? || a.DropWorkload? || a.DropDeployment? || a.DropService? || a.ChangeWorld?
  }

  lemma BookkeepingAlike(s1: State, s2: State, a: Step, b: Step)
    requires Alike(s1, s2) && AlikeStep(a, b) && Bookkeeping(a)
    ensures Alike(Next(s1, a), Next(s2, b))
  {
  }

  lemma EditStepAlike(s1: State, s2: State, a: Step, b: Step)
    requires Alike(s1, s2) && AlikeStep(a, b)
    ensures a.PutWorkload? || a.PutDeployment? || a.PutService? || a.OnBinding? || a.OnEndpoint? ==>
              Alike(Next(s1, a), Next(s2, b))
  {
    match a {
      case PutWorkload(k, spec) => PutWorkloadAlike(s1, s2, k, spec, b.wspec);
      case PutDeployment(k, d) => PutDeploymentAlike(s1, s2, k, d);
      case PutService(k, svc) => PutServiceAlike(s1, s2, k, svc);
      case OnBinding(op) => OnBindingAlike(s1, s2, op, b.bop);
      case OnEndpoint(op) => OnEndpointsAlike(s1, s2, op, b.eop);
      case _ =>
    }
  }

  lemma OnBindingAlike(s1: State, s2: State, a: LedgerOp<BindingSpec>, b: LedgerOp<BindingSpec>)
    requires Alike(s1, s2) && AlikeOp(a, b, BindingWithout)
    ensures Alike(Next(s1, OnBinding(a)), Next(s2, OnBinding(b)))
  {
    if Admitted(a) {
      PerformAlike(s1.bindings, s2.bindings, a, b, s1.next, BindingWithout);
    }
  }

  lemma StepAlike(s1: State, s2: State, a: Step, b: Step)
    requires Alike(s1, s2) && AlikeStep(a, b)
    ensures Alike(Next(s1, a), Next(s2, b))
  {
    if Bookkeeping(a) {
      BookkeepingAlike(s1, s2, a, b);
    } else {
      PassStepAlike(s1, s2, a);
      EditStepAlike(s1, s2, a, b);
    }
  }

  /** Non-interference: two runs whose steps differ in strategy, rolloutRef, failoverPolicy,
      gatewayRef, conflictPolicy and defaultTargetPolicy only, from states that differ in those
      only, agree step by step in all Deployments, Services and reported members, and in what
      every pass does next. */
  lemma {:induction false} RunsAgree(s1: State, s2: State, steps1: seq<Step>, steps2: seq<Step>)
    requires Alike(s1, s2) && |steps1| == |steps2|
    requires forall i :: 0 <= i < |steps1| ==> AlikeStep(steps1[i], steps2[i])
    ensures Alike(Run(s1, steps1), Run(s2, steps2))
    ensures Run(s1, steps1).objects == Run(s2, steps2).objects
  {
    if steps1 != [] {
      var n := |steps1| - 1;
      RunsAgree(s1, s2, steps1[..n], steps2[..n]);
      StepAlike(Run(s1, steps1[..n]), Run(s2, steps2[..n]), steps1[n], steps2[n]);
    }
  }
}
