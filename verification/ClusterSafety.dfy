/** What every step of a cluster keeps, and what therefore holds over every run: no orphaned
    variables and no orphaned routing annotations. Forced removals of finalizers can break that;
    exactly when is proved too. */
module ClusterSafety {
  import opened Types
  import opened Api
  import opened EnvNames
  import opened ManagedAnnotation
  import opened Deployments
  import opened Placement
  import opened Finalizers
  import opened Cluster
  import SR = ServiceRouting

  // ------------------------------------------------------------------------- the invariants

  ghost predicate Below(c: Option<Owner>, n: nat) { c.Some? ==> c.value.uid < n }

  /** UIDs in use have been handed out. */
  ghost predicate Numbered(s: State) {
    && (forall k :: k in s.workloads ==> s.workloads[k].uid < s.next && s.workloads[k].key == k)
    && (forall k :: k in s.workloadPass ==> s.workloadPass[k].w.uid < s.next && s.workloadPass[k].w.key == k)
    && (forall k :: k in s.objects.deployments ==> Below(s.objects.deployments[k].controller, s.next))
    && (forall k :: k in s.objects.services ==> Below(s.objects.services[k].controller, s.next))
  }

  /** Names of bindings, stored or being worked for, are those the API server admits. */
  ghost predicate Named(s: State) {
    (forall b :: b in s.bindings.stored ==> DnsName(b.name)) && (forall b :: b in s.bindings.passes ==> DnsName(b.name))
  }

  ghost predicate Ledgers(s: State) {
    Holds(s.bindings, s.next) && Holds(s.endpoints, s.next) && Named(s)
  }

  /** A variable recorded on the Deployment of the Workload stored at k. */
  ghost predicate Recorded(s: State, k: Key, n: string) {
    OwnsDeployment(s, k) && n in Managed(s.objects.deployments[k].annotations)
  }

  ghost predicate Provider(s: State, b: Key, k: Key, n: string) {
    Answers(s.bindings, b, k) && n in ManagedSet(b.name)
  }

  ghost predicate NoOrphanVariables(s: State) {
    forall k, n :: Recorded(s, k, n) ==> exists b :: Provider(s, b, k, n)
  }

  ghost predicate RoutedAt(s: State, k: Key) {
    OwnsService(s, k) && HasRouting(s.objects.services[k].annotations)
  }

  ghost predicate NoOrphanRouting(s: State) {
    forall k :: RoutedAt(s, k) ==> exists e :: Answers(s.endpoints, e, k)
  }

  ghost predicate NoOrphans(s: State) { NoOrphanVariables(s) && NoOrphanRouting(s) }

  ghost predicate Inv(s: State) { Numbered(s) && Ledgers(s) && NoOrphans(s) }

  // --------------------------------------------------------------------- carrying orphanhood

  lemma VariablesCarry(s: State, s': State)
    requires NoOrphanVariables(s) && Keeps(s.bindings, s'.bindings)
    requires forall k, n :: Recorded(s', k, n) ==> Recorded(s, k, n)
    ensures NoOrphanVariables(s')
  {
    forall k, n | Recorded(s', k, n) ensures exists b :: Provider(s', b, k, n) {
      var b :| Provider(s, b, k, n);
      assert Provider(s', b, k, n);
    }
  }

  lemma RoutingCarries(s: State, s': State)
    requires NoOrphanRouting(s) && Keeps(s.endpoints, s'.endpoints)
    requires forall k :: RoutedAt(s', k) ==> RoutedAt(s, k)
    ensures NoOrphanRouting(s')
  {
    forall k | RoutedAt(s', k) ensures exists e :: Answers(s'.endpoints, e, k) {
      var e :| Answers(s.endpoints, e, k);
      assert Answers(s'.endpoints, e, k);
    }
  }

  /** A step that leaves Workloads and their objects alone. */
  lemma LedgerStepKeeps(s: State, s': State)
    requires Inv(s) && s.next <= s'.next && Ledgers(s')
    requires s'.workloads == s.workloads && s'.workloadPass == s.workloadPass && s'.objects == s.objects
    requires Keeps(s.bindings, s'.bindings) && Keeps(s.endpoints, s'.endpoints)
    ensures Inv(s')
  {
    assert forall k, n :: Recorded(s', k, n) ==> Recorded(s, k, n);
    VariablesCarry(s, s');
    RoutingCarries(s, s');
  }

  /** A step that leaves bindings and endpoints alone. */
  lemma ObjectStepKeeps(s: State, s': State)
    requires Inv(s) && s.next <= s'.next && Numbered(s')
    requires s'.bindings == s.bindings && s'.endpoints == s.endpoints
    requires forall k, n :: Recorded(s', k, n) ==> Recorded(s, k, n)
    requires forall k :: RoutedAt(s', k) ==> RoutedAt(s, k)
    ensures Inv(s')
  {
    LaterHolds(s.bindings, s.next, s'.next);
    LaterHolds(s.endpoints, s.next, s'.next);
    VariablesCarry(s, s');
    RoutingCarries(s, s');
  }

  // ---------------------------------------------------------------------------- Workload steps

  lemma StartWorkloadKeeps(s: State, k: Key)
    requires Inv(s)
    ensures Inv(StartedWorkload(s, k))
  {
    var s' := StartedWorkload(s, k);
    assert s'.objects == s.objects && s'.workloads == s.workloads;
    ObjectStepKeeps(s, s');
  }

  lemma EndWorkloadKeeps(s: State, k: Key)
    requires Inv(s)
    ensures Inv(EndedWorkload(s, k))
  {
    ObjectStepKeeps(s, EndedWorkload(s, k));
  }

  lemma RebuildKeeps(d: DeploymentObj, w: Workload)
    ensures var d' := Rebuild(d, w.uid, w.key.name, w.spec);
      d'.annotations == d.annotations && d'.controller == Some(OwnerRef(w.uid, w.key.name))
  {
  }

  /** Writing one Deployment records no name that was not recorded before. */
  lemma DeploymentWriteKeeps(s: State, s': State, t: Key, d: DeploymentObj)
    requires Inv(s) && s.next <= s'.next
    requires s' == s.(next := s'.next, workloadPass := s'.workloadPass, objects := SetDeployment(s.objects, t, d))
    requires forall k :: k in s'.workloadPass ==> s'.workloadPass[k].w.uid < s'.next && s'.workloadPass[k].w.key == k
    requires Below(d.controller, s'.next)
    requires forall n :: Recorded(s', t, n) ==> Recorded(s, t, n)
    ensures Inv(s')
  {
    assert forall k :: RoutedAt(s', k) ==> RoutedAt(s, k);
    ObjectStepKeeps(s, s');
  }

  lemma ServiceWriteKeeps(s: State, s': State, t: Key, svc: ServiceObj)
    requires Inv(s) && s.next <= s'.next
    requires s' == s.(next := s'.next, workloadPass := s'.workloadPass, objects := SetService(s.objects, t, svc))
    requires forall k :: k in s'.workloadPass ==> s'.workloadPass[k].w.uid < s'.next && s'.workloadPass[k].w.key == k
    requires Below(svc.controller, s'.next)
    requires RoutedAt(s', t) ==> RoutedAt(s, t)
    ensures Inv(s')
  {
    assert forall k, n :: Recorded(s', k, n) ==> Recorded(s, k, n);
    ObjectStepKeeps(s, s');
  }

  lemma ApplyDeploymentKeeps(s: State, k: Key)
    requires Inv(s)
    ensures Inv(AppliedDeployment(s, k))
  {
    if k in s.workloadPass && s.workloadPass[k].ToDeployment? {
      var w := s.workloadPass[k].w;
      if DeploymentConflict(s.objects, w) || ServiceConflict(s.objects, w) {
        EndWorkloadKeeps(s, k);
      } else {
        var d := StoredDeployment(s.objects, k);
        RebuildKeeps(d, w);
        DeploymentWriteKeeps(s, AppliedDeployment(s, k), k, Rebuild(d, w.uid, k.name, w.spec));
      }
    }
  }

  lemma ApplyServiceKeeps(s: State, k: Key)
    requires Inv(s)
    ensures Inv(AppliedService(s, k))
  {
    if k in s.workloadPass && s.workloadPass[k].ToService? {
      EndWorkloadKeeps(s, k);
      var w, mid := s.workloadPass[k].w, EndedWorkload(s, k);
      if !ServiceConflict(s.objects, w) {
        if w.spec.ports == [] {
          ObjectStepKeeps(mid, AppliedService(s, k));
        } else {
          ServiceWriteKeeps(mid, AppliedService(s, k), k, RebuildService(StoredService(s.objects, k), w));
        }
      }
    }
  }

  // ----------------------------------------------------------------- binding and endpoint steps

  /** Some binding of that name answers for the Workload an injection writes to. */
  ghost predicate InjectionBacked(s: State, b: Key)
    requires Applying(s.bindings, b)
  {
    exists c :: Answers(s.bindings, c, Target(b, s.bindings.passes[b].obj)) && c.name == b.name
  }

  lemma InjectedRecords(s: State, b: Key, k: Key, n: string)
    requires Applying(s.bindings, b) && Named(s)
    ensures Recorded(Injected(s, b), k, n)
       <==> || Recorded(s, k, n)
            || (CanInject(s, b) && k == Target(b, s.bindings.passes[b].obj) && n in ManagedSet(b.name))
  {
    var t := Target(b, s.bindings.passes[b].obj);
    if CanInject(s, b) {
      ManagedSetValid(b.name);
      UpdateDecodes(s.objects.deployments[t].annotations, ManagedSet(b.name), {});
    }
  }

  lemma InjectKeeps(s: State, b: Key)
    requires Inv(s) && (CanInject(s, b) ==> InjectionBacked(s, b))
    ensures Inv(Injected(s, b))
  {
    var s' := Injected(s, b);
    if Applying(s.bindings, b) {
      EndKeeps(s.bindings, b, s.next);
      assert forall k :: RoutedAt(s', k) ==> RoutedAt(s, k);
      RoutingCarries(s, s');
      forall k, n | Recorded(s', k, n) ensures exists c :: Provider(s', c, k, n) {
        InjectedRecords(s, b, k, n);
        if Recorded(s, k, n) {
          var c :| Provider(s, c, k, n);
          assert Provider(s', c, k, n);
        } else {
          var c :| Answers(s.bindings, c, k) && c.name == b.name;
          assert Provider(s', c, k, n);
        }
      }
    }
  }

  /** An injection that nobody backs is orphaned at once. */
  lemma UnbackedInjection(s: State, b: Key)
    requires Inv(s) && CanInject(s, b) && !InjectionBacked(s, b)
    ensures !NoOrphans(Injected(s, b))
  {
    var t, n, s' := Target(b, s.bindings.passes[b].obj), UrlName(b.name), Injected(s, b);
    ManagedSetIs(b.name);
    InjectedRecords(s, b, t, n);
    forall c ensures !Provider(s', c, t, n) {
      if Provider(s', c, t, n) {
        assert Answers(s.bindings, c, t);
        if c.name != b.name { NamesNeverCollide(c.name, b.name); }
      }
    }
    assert Recorded(s', t, n);
  }

  /** b provided only its own names on its own target, and those are gone. */
  lemma WithdrawnRecorded(s: State, b: Key, k: Key, n: string)
    requires CleaningUp(s.bindings, b) && Recorded(Withdrawn(s, b), k, n)
    ensures Recorded(s, k, n)
    ensures k == Target(b, s.bindings.passes[b].obj) ==> n !in ManagedSet(b.name)
  {
    var t := Target(b, s.bindings.passes[b].obj);
    if OwnsDeployment(s, t) {
      UpdateDecodes(s.objects.deployments[t].annotations, {}, ManagedSet(b.name));
    }
  }

  lemma WithdrawKeeps(s: State, b: Key)
    requires Inv(s)
    ensures Inv(Withdrawn(s, b))
  {
    var s' := Withdrawn(s, b);
    if CleaningUp(s.bindings, b) {
      CleanedUpKeeps(s.bindings, b, s.next);
      assert forall k :: RoutedAt(s', k) ==> RoutedAt(s, k);
      RoutingCarries(s, s');
      assert PassHolds(s.bindings, b, s.next);
      forall k, n | Recorded(s', k, n) ensures exists c :: Provider(s', c, k, n) {
        WithdrawnRecorded(s, b, k, n);
        var c :| Provider(s, c, k, n);
        assert c != b;
        assert Provider(s', c, k, n);
      }
    }
  }

  ghost predicate AnnotationBacked(s: State, e: Key)
    requires Applying(s.endpoints, e)
  {
    exists f :: Answers(s.endpoints, f, Target(e, s.endpoints.passes[e].obj))
  }

  lemma AnnotateKeeps(s: State, e: Key)
    requires Inv(s) && (CanAnnotate(s, e) ==> AnnotationBacked(s, e))
    ensures Inv(Annotated(s, e))
  {
    if !CanAnnotate(s, e) {
      EndKeeps(s.endpoints, e, s.next);
      LedgerStepKeeps(s, Annotated(s, e));
    } else {
      var o := s.endpoints.passes[e].obj;
      var t := Target(e, o);
      var svc := s.objects.services[t];
      AppliedKeeps(s.endpoints, e, s.next);
      var mid := s.(endpoints := Applied(s.endpoints, e));
      LedgerStepKeeps(s, mid);
      var f :| Answers(s.endpoints, f, t);
      ServiceEditKeeps(mid, t, svc.(annotations := SR.Routed(svc.annotations, o.spec, s.world.self)), f);
    }
  }

  /** Annotations that nobody backs are orphaned at once. */
  lemma UnbackedAnnotation(s: State, e: Key)
    requires Inv(s) && CanAnnotate(s, e) && !AnnotationBacked(s, e)
    ensures !NoOrphans(Annotated(s, e))
  {
    var t, s' := Target(e, s.endpoints.passes[e].obj), Annotated(s, e);
    assert RoutedAt(s', t);
    assert forall f :: Answers(s'.endpoints, f, t) ==> Answers(s.endpoints, f, t);
  }

  /** New annotations on a Service that endpoint e answers for. */
  lemma ServiceEditKeeps(s: State, t: Key, svc: ServiceObj, e: Key)
    requires Inv(s) && OwnsService(s, t) && svc.controller == s.objects.services[t].controller
    requires Answers(s.endpoints, e, t)
    ensures Inv(s.(objects := SetService(s.objects, t, svc)))
  {
    var s' := s.(objects := SetService(s.objects, t, svc));
    assert forall k, n :: Recorded(s', k, n) ==> Recorded(s, k, n);
    VariablesCarry(s, s');
    forall k | RoutedAt(s', k) ensures exists f :: Answers(s'.endpoints, f, k) {
      if k != t {
        assert RoutedAt(s, k);
      }
    }
  }

  lemma ReportKeeps(s: State, e: Key)
    requires Inv(s)
    ensures Inv(Reported(s, e))
  {
    EndKeeps(s.endpoints, e, s.next);
    LedgerStepKeeps(s, Reported(s, e));
  }

  lemma CleanKeeps(s: State, e: Key)
    requires Inv(s)
    ensures Inv(Cleaned(s, e))
  {
    var s' := Cleaned(s, e);
    if CleaningUp(s.endpoints, e) {
      CleanedUpKeeps(s.endpoints, e, s.next);
      assert forall k, n :: Recorded(s', k, n) ==> Recorded(s, k, n);
      VariablesCarry(s, s');
      assert PassHolds(s.endpoints, e, s.next);
      forall k | RoutedAt(s', k) ensures exists f :: Answers(s'.endpoints, f, k) {
        assert RoutedAt(s, k);
        var f :| Answers(s.endpoints, f, k);
        assert f != e;
        assert Answers(s'.endpoints, f, k);
      }
    }
  }

  lemma OnBindingKeeps(s: State, op: LedgerOp<BindingSpec>)
    requires Inv(s) && Admitted(op) && !op.StripFinalizer?
    ensures Inv(OnBindings(s, op))
  {
    PerformKeeps(s.bindings, op, s.next);
    LaterHolds(s.endpoints, s.next, s.next + 1);
    LedgerStepKeeps(s, OnBindings(s, op));
  }

  lemma OnEndpointKeeps(s: State, op: LedgerOp<EndpointSpec>)
    requires Inv(s) && !op.StripFinalizer?
    ensures Inv(OnEndpoints(s, op))
  {
    PerformKeeps(s.endpoints, op, s.next);
    LaterHolds(s.bindings, s.next, s.next + 1);
    LedgerStepKeeps(s, OnEndpoints(s, op));
  }

  // ----------------------------------------------------------------------------- user steps

  lemma PutWorkloadKeeps(s: State, k: Key, spec: WorkloadSpec)
    requires Inv(s)
    ensures Inv(PutWorkloadAt(s, k, spec))
  {
    ObjectStepKeeps(s, PutWorkloadAt(s, k, spec));
  }

  lemma PutDeploymentKeeps(s: State, k: Key, d: DeploymentObj)
    requires Inv(s)
    ensures Inv(PutDeploymentAt(s, k, d))
  {
    var s' := PutDeploymentAt(s, k, d);
    if s' != s {
      DeploymentWriteKeeps(s, s', k, s'.objects.deployments[k]);
    }
  }

  lemma PutServiceKeeps(s: State, k: Key, svc: ServiceObj)
    requires Inv(s)
    ensures Inv(PutServiceAt(s, k, svc))
  {
    var s' := PutServiceAt(s, k, svc);
    if s' != s {
      ServiceWriteKeeps(s, s', k, s'.objects.services[k]);
    }
  }

  lemma RemovalKeeps(s: State, step: Step)
    requires Inv(s) && Removal(step)
    ensures Inv(Next(s, step))
  {
    ObjectStepKeeps(s, Next(s, step));
  }

  lemma PassStepKeeps(s: State, step: Step)
    requires Inv(s)
    ensures step.StartWorkload? || step.EndWorkload? ==> Inv(Next(s, step))
    ensures step.ApplyDeployment? || step.ApplyService? ==> Inv(Next(s, step))
    ensures step.WithdrawBinding? || step.ReportEndpoint? || step.CleanService? ==> Inv(Next(s, step))
  {
    match step {
      case StartWorkload(k) => StartWorkloadKeeps(s, k);
      case ApplyDeployment(k) => ApplyDeploymentKeeps(s, k);
      case ApplyService(k) => ApplyServiceKeeps(s, k);
      case EndWorkload(k) => EndWorkloadKeeps(s, k);
      case WithdrawBinding(k) => WithdrawKeeps(s, k);
      case ReportEndpoint(k) => ReportKeeps(s, k);
      case CleanService(k) => CleanKeeps(s, k);
      case _ =>
    }
  }

  lemma PutStepKeeps(s: State, step: Step)
    requires Inv(s) && (step.PutWorkload? || step.PutDeployment? || step.PutService?)
    ensures Inv(Next(s, step))
  {
    match step {
      case PutWorkload(k, spec) => PutWorkloadKeeps(s, k, spec);
      case PutDeployment(k, d) => PutDeploymentKeeps(s, k, d);
      case PutService(k, svc) => PutServiceKeeps(s, k, svc);
    }
  }

  lemma BindingOpKeeps(s: State, op: LedgerOp<BindingSpec>)
    requires Inv(s) && !op.StripFinalizer?
    ensures Inv(Next(s, OnBinding(op)))
  {
    if Admitted(op) {
      OnBindingKeeps(s, op);
      assert Next(s, OnBinding(op)) == OnBindings(s, op);
    } else {
      assert Next(s, OnBinding(op)) == s;
    }
  }

  lemma EndpointOpKeeps(s: State, op: LedgerOp<EndpointSpec>)
    requires Inv(s) && !op.StripFinalizer?
    ensures Inv(Next(s, OnEndpoint(op)))
  {
    OnEndpointKeeps(s, op);
  }

  lemma ReferrerStepKeeps(s: State, step: Step)
    requires Inv(s) && (step.OnBinding? || step.OnEndpoint?) && !Strips(step)
    ensures Inv(Next(s, step))
  {
    match step {
      case OnBinding(op) => BindingOpKeeps(s, op);
      case OnEndpoint(op) => EndpointOpKeeps(s, op);
    }
  }

  predicate Removal(step: Step) {
    step.DropWorkload? || step.DropDeployment? || step.DropService? || step.ChangeWorld?
  }

  // ------------------------------------------------------------------- forced removals

  predicate Strips(step: Step) {
    (step.OnBinding? && step.bop.StripFinalizer?) || (step.OnEndpoint? && step.eop.StripFinalizer?)
  }

  /** Every recorded variable has a provider other than b. */
  ghost predicate BindingSpared(s: State, b: Key) {
    forall k, n :: Recorded(s, k, n) ==> exists c :: c != b && Provider(s, c, k, n)
  }

  ghost predicate EndpointSpared(s: State, e: Key) {
    forall k :: RoutedAt(s, k) ==> exists f :: f != e && Answers(s.endpoints, f, k)
  }

  function StrippedBinding(s: State, b: Key, othersHold: bool): State {
    s.(next := s.next + 1, bindings := Strip(s.bindings, b, othersHold, s.next))
  }

  function StrippedEndpoint(s: State, e: Key, othersHold: bool): State {
    OnEndpoints(s, StripFinalizer(e, othersHold))
  }

  lemma StrippedRest(s: State, b: Key, othersHold: bool)
    requires Inv(s)
    ensures var s' := StrippedBinding(s, b, othersHold);
      && Numbered(s') && Ledgers(s') && NoOrphanRouting(s')
      && forall k, n :: Recorded(s', k, n) <==> Recorded(s, k, n)
  {
    var s' := StrippedBinding(s, b, othersHold);
    StripSilences(s.bindings, b, othersHold, s.next);
    LaterHolds(s.endpoints, s.next, s'.next);
    RoutingCarries(s, s');
  }

  lemma StrippedProviders(s: State, b: Key, othersHold: bool)
    requires Holds(s.bindings, s.next) && Held(s.bindings, b)
    ensures forall c, k, n :: Provider(StrippedBinding(s, b, othersHold), c, k, n) <==> c != b && Provider(s, c, k, n)
  {
    StripSilences(s.bindings, b, othersHold, s.next);
  }

  lemma StripBindingIff(s: State, b: Key, othersHold: bool)
    requires Inv(s)
    ensures var s', clean := StrippedBinding(s, b, othersHold), Held(s.bindings, b) ==> BindingSpared(s, b);
      (clean ==> Inv(s')) && (NoOrphans(s') ==> clean)
  {
    var s' := StrippedBinding(s, b, othersHold);
    StrippedRest(s, b, othersHold);
    if Held(s.bindings, b) {
      StrippedProviders(s, b, othersHold);
      assert NoOrphanVariables(s') <==> BindingSpared(s, b);
    } else {
      StripSilences(s.bindings, b, othersHold, s.next);
      VariablesCarry(s, s');
    }
  }

  lemma StrippedAnswers(s: State, e: Key, othersHold: bool)
    requires Inv(s)
    ensures var s' := StrippedEndpoint(s, e, othersHold);
      && Numbered(s') && Ledgers(s') && NoOrphanVariables(s')
      && (forall k :: RoutedAt(s', k) <==> RoutedAt(s, k))
      && (Held(s.endpoints, e) ==> forall f, k :: Answers(s'.endpoints, f, k) <==> f != e && Answers(s.endpoints, f, k))
      && (!Held(s.endpoints, e) ==> s'.endpoints == s.endpoints)
  {
    var s' := StrippedEndpoint(s, e, othersHold);
    StripSilences(s.endpoints, e, othersHold, s.next);
    LaterHolds(s.bindings, s.next, s'.next);
    StrippedVariables(s, e, othersHold);
  }

  lemma StrippedVariables(s: State, e: Key, othersHold: bool)
    requires NoOrphanVariables(s)
    ensures NoOrphanVariables(StrippedEndpoint(s, e, othersHold))
  {
    var s' := StrippedEndpoint(s, e, othersHold);
    assert forall k, n :: Recorded(s', k, n) ==> Recorded(s, k, n);
    VariablesCarry(s, s');
  }

  lemma StripEndpointIff(s: State, e: Key, othersHold: bool)
    requires Inv(s)
    ensures var s', clean := StrippedEndpoint(s, e, othersHold), Held(s.endpoints, e) ==> EndpointSpared(s, e);
      (clean ==> Inv(s')) && (NoOrphans(s') ==> clean)
  {
    var s' := StrippedEndpoint(s, e, othersHold);
    StrippedAnswers(s, e, othersHold);
    if Held(s.endpoints, e) {
      assert NoOrphanRouting(s') <==> EndpointSpared(s, e);
    } else {
      RoutingCarries(s, s');
    }
  }

  /** Failing input: when b alone provides a recorded variable, removing its finalizer orphans it. */
  lemma StripOrphansVariable(s: State, b: Key, othersHold: bool, k: Key, n: string)
    requires Inv(s) && Held(s.bindings, b) && Recorded(s, k, n) && forall c :: Provider(s, c, k, n) ==> c == b
    ensures Recorded(StrippedBinding(s, b, othersHold), k, n)
    ensures forall c :: !Provider(StrippedBinding(s, b, othersHold), c, k, n)
  {
    StrippedProviders(s, b, othersHold);
  }

  /** Failing input: a pass goes on after its object's finalizer is gone, and what it then injects is
      orphaned. */
  lemma StripOrphansInjection(s: State, b: Key, othersHold: bool)
    requires Inv(s) && Held(s.bindings, b) && CanInject(s, b) && BindingSpared(s, b)
    requires forall c :: Answers(s.bindings, c, Target(b, s.bindings.passes[b].obj)) && c.name == b.name ==> c == b
    ensures Inv(StrippedBinding(s, b, othersHold))
    ensures !NoOrphans(Injected(StrippedBinding(s, b, othersHold), b))
  {
    var mid := StrippedBinding(s, b, othersHold);
    StripBindingIff(s, b, othersHold);
    StripSilences(s.bindings, b, othersHold, s.next);
    UnbackedInjection(mid, b);
  }

  // ----------------------------------------------------------------------- steps and runs

  /** What a step must not do: write for a pass whose object has been disowned, with nobody else to
      answer for it; or disown an object that alone answers for something. */
  ghost predicate Clean(s: State, step: Step) {
    match step
    case InjectBinding(b) => CanInject(s, b) ==> InjectionBacked(s, b)
    case AnnotateService(e) => CanAnnotate(s, e) ==> AnnotationBacked(s, e)
    case OnBinding(op) => op.StripFinalizer? && Held(s.bindings, op.k) ==> BindingSpared(s, op.k)
    case OnEndpoint(op) => op.StripFinalizer? && Held(s.endpoints, op.k) ==> EndpointSpared(s, op.k)
    case _ => true
  }

  lemma WriteStepIff(s: State, step: Step)
    requires Inv(s) && (step.InjectBinding? || step.AnnotateService?)
    ensures Clean(s, step) ==> Inv(Next(s, step))
    ensures NoOrphans(Next(s, step)) ==> Clean(s, step)
  {
    match step {
      case InjectBinding(b) =>
        if Clean(s, step) { InjectKeeps(s, b); } else { UnbackedInjection(s, b); }
      case AnnotateService(e) =>
        if Clean(s, step) { AnnotateKeeps(s, e); } else { UnbackedAnnotation(s, e); }
    }
  }

  /** A step leaves no orphans exactly when it is clean. */
  lemma StepKeepsIff(s: State, step: Step)
    requires Inv(s)
    ensures Clean(s, step) ==> Inv(Next(s, step))
    ensures NoOrphans(Next(s, step)) <==> Clean(s, step)
  {
    if Removal(step) {
      RemovalKeeps(s, step);
    } else if Strips(step) {
      if step.OnBinding? {
        StripBindingIff(s, step.bop.k, step.bop.othersHold);
      } else {
        StripEndpointIff(s, step.eop.k, step.eop.othersHold);
      }
    } else if step.OnBinding? || step.OnEndpoint? {
      ReferrerStepKeeps(s, step);
    } else if step.PutWorkload? || step.PutDeployment? || step.PutService? {
      PutStepKeeps(s, step);
    } else if step.InjectBinding? || step.AnnotateService? {
      WriteStepIff(s, step);
    } else {
      PassStepKeeps(s, step);
    }
  }

  ghost predicate NoOrphansThroughout(s: State, steps: seq<Step>) {
    forall i :: 0 <= i <= |steps| ==> NoOrphans(Run(s, steps[..i]))
  }

  ghost predicate CleanThroughout(s: State, steps: seq<Step>) {
    forall i :: 0 <= i < |steps| ==> Clean(Run(s, steps[..i]), steps[i])
  }

  lemma {:induction false} InvAlong(s: State, steps: seq<Step>, n: nat)
    requires Inv(s) && n <= |steps|
    requires forall i :: 0 <= i < n ==> Clean(Run(s, steps[..i]), steps[i])
    ensures Inv(Run(s, steps[..n]))
  {
    if n > 0 {
      assert steps[..n][..n - 1] == steps[..n - 1];
      InvAlong(s, steps, n - 1);
      StepKeepsIff(Run(s, steps[..n - 1]), steps[n - 1]);
    }
  }

  lemma {:induction false} CleanAlong(s: State, steps: seq<Step>, n: nat)
    requires Inv(s) && n <= |steps| && NoOrphansThroughout(s, steps)
    ensures Inv(Run(s, steps[..n]))
    ensures forall i :: 0 <= i < n ==> Clean(Run(s, steps[..i]), steps[i])
  {
    if n > 0 {
      assert steps[..n][..n - 1] == steps[..n - 1];
      CleanAlong(s, steps, n - 1);
      assert NoOrphans(Run(s, steps[..n]));
      StepKeepsIff(Run(s, steps[..n - 1]), steps[n - 1]);
    }
  }

  /** No orphans over every run: whatever the interleaving of passes, cut-off passes, user edits,
      deletions and re-creations, each name recorded on the Deployment of an existing Workload
      belongs to a binding that still exists, holds the finalizer and references that Workload, and
      routing annotations on its Service belong to such an endpoint. This holds at every point of a
      run if and only if each of its steps is clean. */
  lemma NoOrphansEver(s: State, steps: seq<Step>)
    requires Initial(s)
    ensures NoOrphansThroughout(s, steps) <==> CleanThroughout(s, steps)
  {
    if CleanThroughout(s, steps) {
      forall i | 0 <= i <= |steps| ensures NoOrphans(Run(s, steps[..i])) { InvAlong(s, steps, i); }
    }
    if NoOrphansThroughout(s, steps) { CleanAlong(s, steps, |steps|); }
  }

  // --------------------------------------------------------------- without forced removals

  lemma BackedBindings(s: State, step: Step)
    requires Backed(s.bindings) && !step.OnBinding?
    ensures Backed(Next(s, step).bindings)
  {
    var l := Next(s, step).bindings;
    assert l.stored == s.bindings.stored;
    assert forall k :: Applying(l, k) ==> Applying(s.bindings, k);
  }

  lemma BackedEndpoints(s: State, step: Step)
    requires Backed(s.endpoints) && !step.OnEndpoint?
    ensures Backed(Next(s, step).endpoints)
  {
    match step {
      case AnnotateService(e) => BackedEndpointSteps(s, e);
      case ReportEndpoint(e) => BackedEndpointSteps(s, e);
      case CleanService(e) => BackedEndpointSteps(s, e);
      case _ => OthersLeaveEndpoints(s, step);
    }
  }

  lemma BackedEndpointSteps(s: State, e: Key)
    requires Backed(s.endpoints)
    ensures Backed(Annotated(s, e).endpoints) && Backed(Reported(s, e).endpoints) && Backed(Cleaned(s, e).endpoints)
  {
    assert Annotated(s, e).endpoints in {s.endpoints, End(s.endpoints, e), Applied(s.endpoints, e)};
    assert Reported(s, e).endpoints in {s.endpoints, End(s.endpoints, e)};
    assert Cleaned(s, e).endpoints in {s.endpoints, CleanedUp(s.endpoints, e)};
    BackedPasses(s.endpoints, e);
  }

  lemma BackedPasses<S>(l: Ledger<S>, k: Key)
    requires Backed(l)
    ensures Backed(End(l, k)) && Backed(Applied(l, k)) && Backed(CleanedUp(l, k))
  {
    assert forall j :: Applying(End(l, k), j) ==> Applying(l, j);
    assert forall j :: Applying(Applied(l, k), j) ==> Applying(l, j);
    assert forall j :: Applying(CleanedUp(l, k), j) ==> Applying(l, j);
  }

  lemma OthersLeaveEndpoints(s: State, step: Step)
    requires !step.OnEndpoint? && !step.AnnotateService? && !step.ReportEndpoint? && !step.CleanService?
    ensures Next(s, step).endpoints == s.endpoints
  {
  }

  lemma BackedStep(s: State, step: Step)
    requires Backed(s.bindings) && Backed(s.endpoints) && !Strips(step)
    ensures Backed(Next(s, step).bindings) && Backed(Next(s, step).endpoints)
  {
    if step.OnBinding? { PerformBacked(s.bindings, step.bop, s.next); } else { BackedBindings(s, step); }
    if step.OnEndpoint? { PerformBacked(s.endpoints, step.eop, s.next); } else { BackedEndpoints(s, step); }
  }

  lemma BackedIsClean(s: State, step: Step)
    requires Ledgers(s) && Backed(s.bindings) && Backed(s.endpoints) && !Strips(step)
    ensures Clean(s, step)
  {
    match step {
      case InjectBinding(b) => if CanInject(s, b) { ApplyingAnswers(s.bindings, b, s.next); }
      case AnnotateService(e) => if CanAnnotate(s, e) { ApplyingAnswers(s.endpoints, e, s.next); }
      case _ =>
    }
  }

  ghost predicate AllBacked(s: State) { Inv(s) && Backed(s.bindings) && Backed(s.endpoints) }

  lemma UnforcedStep(s: State, step: Step)
    requires AllBacked(s) && !Strips(step)
    ensures Clean(s, step) && AllBacked(Next(s, step))
  {
    BackedIsClean(s, step);
    StepKeepsIff(s, step);
    BackedStep(s, step);
  }

  lemma {:induction false} UnforcedAlong(s: State, steps: seq<Step>, n: nat)
    requires AllBacked(s) && n <= |steps| && forall i :: 0 <= i < |steps| ==> !Strips(steps[i])
    ensures AllBacked(Run(s, steps[..n]))
  {
    if n > 0 {
      UnforcedAlong(s, steps, n - 1);
      UnforcedStep(Run(s, steps[..n - 1]), steps[n - 1]);
      RunPrefix(s, steps, n - 1);
    }
  }

  lemma RunPrefix(s: State, steps: seq<Step>, n: nat)
    requires n < |steps|
    ensures Run(s, steps[..n + 1]) == Next(Run(s, steps[..n]), steps[n])
  {
    assert steps[..n + 1][..n] == steps[..n];
  }

  /** So there are no orphans, at any point, in any run in which nobody removes a finalizer by force. */
  lemma NoOrphansUnlessForced(s: State, steps: seq<Step>)
    requires Initial(s) && forall i :: 0 <= i < |steps| ==> !Strips(steps[i])
    ensures CleanThroughout(s, steps) && NoOrphansThroughout(s, steps)
  {
    forall i | 0 <= i < |steps| ensures Clean(Run(s, steps[..i]), steps[i]) {
      UnforcedAlong(s, steps, i);
      UnforcedStep(Run(s, steps[..i]), steps[i]);
    }
    NoOrphansEver(s, steps);
  }
}
