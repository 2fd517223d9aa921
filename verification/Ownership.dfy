/** Ownership: what a pass may touch, step by step and over whole runs; and that recorded variables
    are really in the container. */
module Ownership {
  import opened Types
  import opened Api
  import opened EnvNames
  import opened EnvList
  import opened ManagedAnnotation
  import opened Deployments
  import opened Placement
  import opened Finalizers
  import opened Cluster
  import opened ClusterSafety
  import EP = EnvProtocol

  // -------------------------------------------------------------------- one step at a time

  function At<T>(m: map<Key, T>, k: Key): Option<T> { if k in m then Some(m[k]) else None }

  /** Steps that edit Deployments and Services directly, outside the operator. */
  predicate UserEdit(step: Step) {
    step.PutDeployment? || step.DropDeployment? || step.PutService? || step.DropService?
  }

  /** The step works on the objects at k for the Workload with this UID. */
  predicate ActsFor(s: State, step: Step, k: Key, uid: Uid) {
    match step
    case ApplyDeployment(j) => j == k && k in s.workloadPass && s.workloadPass[k].w.uid == uid
    case ApplyService(j) => j == k && k in s.workloadPass && s.workloadPass[k].w.uid == uid
    case InjectBinding(b) => ActsThrough(s, s.bindings, b, k, uid)
    case WithdrawBinding(b) => ActsThrough(s, s.bindings, b, k, uid)
    case AnnotateService(e) => ActsThrough(s, s.endpoints, e, k, uid)
    case CleanService(e) => ActsThrough(s, s.endpoints, e, k, uid)
    case _ => false
  }

  /** A pass for object j, whose Workload is the one stored at k. */
  predicate ActsThrough<S>(s: State, l: Ledger<S>, j: Key, k: Key, uid: Uid) {
    j in l.passes && Target(j, l.passes[j].obj) == k && k in s.workloads && s.workloads[k].uid == uid
  }

  /** If it changed: it was absent or controlled by uid, and if it still exists it is controlled by
      uid. */
  predicate OwnedChange(before: Option<Option<Owner>>, after: Option<Option<Owner>>, uid: Uid) {
    (before.Some? ==> Controls(uid, before.value)) && (after.Some? ==> Controls(uid, after.value))
  }

  function DeploymentController(s: State, k: Key): Option<Option<Owner>> {
    if k in s.objects.deployments then Some(s.objects.deployments[k].controller) else None
  }

  function ServiceController(s: State, k: Key): Option<Option<Owner>> {
    if k in s.objects.services then Some(s.objects.services[k].controller) else None
  }

  predicate WritesDeployments(step: Step) {
    step.ApplyDeployment? || step.InjectBinding? || step.WithdrawBinding? || step.PutDeployment? || step.DropDeployment?
  }

  predicate WritesServices(step: Step) {
    step.ApplyService? || step.AnnotateService? || step.CleanService? || step.PutService? || step.DropService?
  }

  lemma OtherStepsLeaveDeployments(s: State, step: Step)
    requires !WritesDeployments(step)
    ensures Next(s, step).objects.deployments == s.objects.deployments
  {
  }

  lemma OtherStepsLeaveServices(s: State, step: Step)
    requires !WritesServices(step)
    ensures Next(s, step).objects.services == s.objects.services
  {
  }

  lemma AppliedDeploymentOwns(s: State, j: Key, k: Key)
    requires Numbered(s) && At(s.objects.deployments, k) != At(AppliedDeployment(s, j).objects.deployments, k)
    ensures k == j && k in s.workloadPass
    ensures OwnedChange(DeploymentController(s, k), DeploymentController(AppliedDeployment(s, j), k),
                        s.workloadPass[k].w.uid)
    ensures k in AppliedDeployment(s, j).objects.deployments
    ensures s.workloadPass[k].ToDeployment? && AppliedDeployment(s, j).objects.deployments[k]
         == Rebuild(StoredDeployment(s.objects, k), s.workloadPass[k].w.uid, k.name, s.workloadPass[k].w.spec)
  {
    RebuildKeeps(StoredDeployment(s.objects, j), s.workloadPass[j].w);
  }

  lemma InjectedOwns(s: State, b: Key, k: Key)
    requires At(s.objects.deployments, k) != At(Injected(s, b).objects.deployments, k)
    ensures CanInject(s, b) && k == Target(b, s.bindings.passes[b].obj) && OwnsDeployment(s, k)
    ensures k in Injected(s, b).objects.deployments
         && Injected(s, b).objects.deployments[k].controller == s.objects.deployments[k].controller
  {
  }

  lemma WithdrawnOwns(s: State, b: Key, k: Key)
    requires At(s.objects.deployments, k) != At(Withdrawn(s, b).objects.deployments, k)
    ensures CleaningUp(s.bindings, b) && k == Target(b, s.bindings.passes[b].obj) && OwnsDeployment(s, k)
    ensures k in Withdrawn(s, b).objects.deployments
         && Withdrawn(s, b).objects.deployments[k].controller == s.objects.deployments[k].controller
  {
  }

  /** No pass creates, changes or deletes a Deployment unless it is absent or controlled by the UID
      of the Workload the pass works for. Only Workload passes create one, and none deletes it. */
  lemma DeploymentsChangeForOwnersOnly(s: State, step: Step, k: Key)
    requires Numbered(s) && !UserEdit(step)
    requires At(s.objects.deployments, k) != At(Next(s, step).objects.deployments, k)
    ensures k in Next(s, step).objects.deployments
    ensures k in s.objects.deployments || step.ApplyDeployment?
    ensures exists uid :: ActsFor(s, step, k, uid)
              && OwnedChange(DeploymentController(s, k), DeploymentController(Next(s, step), k), uid)
  {
    if !WritesDeployments(step) {
      OtherStepsLeaveDeployments(s, step);
    } else if step.ApplyDeployment? {
      AppliedDeploymentOwns(s, step.k, k);
      assert ActsFor(s, step, k, s.workloadPass[k].w.uid);
    } else if step.InjectBinding? {
      InjectedOwns(s, step.k, k);
      assert ActsFor(s, step, k, s.workloads[k].uid);
    } else {
      WithdrawnOwns(s, step.k, k);
      assert ActsFor(s, step, k, s.workloads[k].uid);
    }
  }

  lemma AppliedServiceOwns(s: State, j: Key, k: Key)
    requires Numbered(s) && At(s.objects.services, k) != At(AppliedService(s, j).objects.services, k)
    ensures k == j && k in s.workloadPass
    ensures OwnedChange(ServiceController(s, k), ServiceController(AppliedService(s, j), k), s.workloadPass[k].w.uid)
  {
  }

  lemma AnnotatedOwns(s: State, e: Key, k: Key)
    requires At(s.objects.services, k) != At(Annotated(s, e).objects.services, k)
    ensures CanAnnotate(s, e) && k == Target(e, s.endpoints.passes[e].obj) && OwnsService(s, k)
    ensures ServiceController(Annotated(s, e), k) == ServiceController(s, k)
  {
  }

  lemma CleanedOwns(s: State, e: Key, k: Key)
    requires At(s.objects.services, k) != At(Cleaned(s, e).objects.services, k)
    ensures CleaningUp(s.endpoints, e) && k == Target(e, s.endpoints.passes[e].obj) && OwnsService(s, k)
    ensures ServiceController(Cleaned(s, e), k) == ServiceController(s, k)
  {
  }

  /** The same for Services; here a Workload pass also deletes. */
  lemma ServicesChangeForOwnersOnly(s: State, step: Step, k: Key)
    requires Numbered(s) && !UserEdit(step)
    requires At(s.objects.services, k) != At(Next(s, step).objects.services, k)
    ensures (k in s.objects.services && k in Next(s, step).objects.services) || step.ApplyService?
    ensures exists uid :: ActsFor(s, step, k, uid)
              && OwnedChange(ServiceController(s, k), ServiceController(Next(s, step), k), uid)
  {
    if !WritesServices(step) {
      OtherStepsLeaveServices(s, step);
    } else if step.ApplyService? {
      AppliedServiceOwns(s, step.k, k);
      assert ActsFor(s, step, k, s.workloadPass[k].w.uid);
    } else if step.AnnotateService? {
      AnnotatedOwns(s, step.k, k);
      assert ActsFor(s, step, k, s.workloads[k].uid);
    } else {
      CleanedOwns(s, step.k, k);
      assert ActsFor(s, step, k, s.workloads[k].uid);
    }
  }

  // ------------------------------------------------------------------------- over whole runs

  /** No Workload at k, stored or being worked for, has this UID, and none ever will. */
  ghost predicate ForeignTo(s: State, k: Key, c: Option<Owner>) {
    && (k in s.workloads ==> !Controls(s.workloads[k].uid, c))
    && (k in s.workloadPass ==> !Controls(s.workloadPass[k].w.uid, c))
    && Below(c, s.next)
  }

  /** Workloads keep their UIDs; new ones get new UIDs; passes work for stored Workloads. */
  lemma WorkloadsAfter(s: State, step: Step, k: Key)
    ensures var s' := Next(s, step);
      && s.next <= s'.next
      && (k in s'.workloads ==>
            || (k in s.workloads && s'.workloads[k] == s.workloads[k].(spec := s'.workloads[k].spec))
            || (s.next < s'.next && s'.workloads[k].uid == s.next && s'.workloads[k].key == k))
  {
  }

  lemma PassesAfter(s: State, step: Step, k: Key)
    ensures var s' := Next(s, step);
      k in s'.workloadPass ==>
        || (k in s.workloadPass && s'.workloadPass[k].w == s.workloadPass[k].w)
        || (k in s.workloads && s'.workloadPass[k].w == s.workloads[k])
  {
  }

  lemma ForeignStays(s: State, step: Step, k: Key, c: Option<Owner>)
    requires ForeignTo(s, k, c)
    ensures ForeignTo(Next(s, step), k, c)
  {
    WorkloadsAfter(s, step, k);
    PassesAfter(s, step, k);
  }

  lemma PutDeploymentBelow(s: State, j: Key, d: DeploymentObj, k: Key)
    requires Numbered(s) && k in PutDeploymentAt(s, j, d).objects.deployments
    ensures Below(PutDeploymentAt(s, j, d).objects.deployments[k].controller, PutDeploymentAt(s, j, d).next)
  {
  }

  lemma PutServiceBelow(s: State, j: Key, svc: ServiceObj, k: Key)
    requires Numbered(s) && k in PutServiceAt(s, j, svc).objects.services
    ensures Below(PutServiceAt(s, j, svc).objects.services[k].controller, PutServiceAt(s, j, svc).next)
  {
  }

  lemma NextGrows(s: State, step: Step)
    ensures s.next <= Next(s, step).next
  {
  }

  lemma DeploymentBelow(s: State, step: Step, k: Key)
    requires Numbered(s) && k in Next(s, step).objects.deployments
    ensures Below(Next(s, step).objects.deployments[k].controller, Next(s, step).next)
  {
    NextGrows(s, step);
    if step.PutDeployment? {
      PutDeploymentBelow(s, step.k, step.d, k);
    } else if !WritesDeployments(step) {
      OtherStepsLeaveDeployments(s, step);
    } else if !step.DropDeployment? && At(s.objects.deployments, k) != At(Next(s, step).objects.deployments, k) {
      DeploymentsChangeForOwnersOnly(s, step, k);
    }
  }

  lemma ServiceBelow(s: State, step: Step, k: Key)
    requires Numbered(s) && k in Next(s, step).objects.services
    ensures Below(Next(s, step).objects.services[k].controller, Next(s, step).next)
  {
    NextGrows(s, step);
    if step.PutService? {
      PutServiceBelow(s, step.k, step.svc, k);
    } else if !WritesServices(step) {
      OtherStepsLeaveServices(s, step);
    } else if !step.DropService? && At(s.objects.services, k) != At(Next(s, step).objects.services, k) {
      ServicesChangeForOwnersOnly(s, step, k);
    }
  }

  /** UIDs in use have been handed out, at every step, forced removals of finalizers included. */
  lemma NumberedStep(s: State, step: Step)
    requires Numbered(s)
    ensures Numbered(Next(s, step))
  {
    var s' := Next(s, step);
    forall k
      ensures k in s'.workloads ==> s'.workloads[k].uid < s'.next && s'.workloads[k].key == k
      ensures k in s'.workloadPass ==> s'.workloadPass[k].w.uid < s'.next && s'.workloadPass[k].w.key == k
      ensures k in s'.objects.deployments ==> Below(s'.objects.deployments[k].controller, s'.next)
      ensures k in s'.objects.services ==> Below(s'.objects.services[k].controller, s'.next)
    {
      WorkloadsAfter(s, step, k);
      PassesAfter(s, step, k);
      if k in s'.objects.deployments { DeploymentBelow(s, step, k); }
      if k in s'.objects.services { ServiceBelow(s, step, k); }
    }
  }

  lemma {:induction false} NumberedEver(s: State, steps: seq<Step>)
    requires Numbered(s)
    ensures Numbered(Run(s, steps))
  {
    if steps != [] {
      NumberedEver(s, steps[..|steps| - 1]);
      NumberedStep(Run(s, steps[..|steps| - 1]), steps[|steps| - 1]);
    }
  }

  // -------------------------------------------------------------------- controllers persist

  datatype Kind = DeploymentKind | ServiceKind

  /** The controller of the object of that kind at k, if there is one. */
  function ControllerOf(s: State, kind: Kind, k: Key): Option<Option<Owner>> {
    match kind
    case DeploymentKind => DeploymentController(s, k)
    case ServiceKind => ServiceController(s, k)
  }

  /** A controller with the UID of the Workload at k, stored or being worked for, is that Workload. */
  ghost predicate OwnersMatch(s: State, kind: Kind, k: Key) {
    var c := ControllerOf(s, kind, k);
    && (k in s.workloads && c.Some? && Controls(s.workloads[k].uid, c.value) ==>
          c.value == Some(OwnerRef(s.workloads[k].uid, k.name)))
    && (k in s.workloadPass && c.Some? && Controls(s.workloadPass[k].w.uid, c.value) ==>
          c.value == Some(OwnerRef(s.workloadPass[k].w.uid, k.name)))
  }

  lemma PutDeploymentController(s: State, j: Key, d: DeploymentObj, k: Key)
    ensures var c, c' := DeploymentController(s, k), DeploymentController(PutDeploymentAt(s, j, d), k);
      if c.Some? then c' == c else c'.Some? && c'.value.Some? ==> c'.value.value.uid == s.next
  {
  }

  lemma PutServiceController(s: State, j: Key, svc: ServiceObj, k: Key)
    ensures var c, c' := ServiceController(s, k), ServiceController(PutServiceAt(s, j, svc), k);
      if c.Some? then c' == c else c'.Some? && c'.value.Some? ==> c'.value.value.uid == s.next
  {
  }

  lemma AppliedServiceController(s: State, j: Key, k: Key)
    requires Numbered(s) && OwnersMatch(s, ServiceKind, k)
    ensures var c, c' := ServiceController(s, k), ServiceController(AppliedService(s, j), k);
      && (c.Some? && c'.Some? ==> c' == c)
      && (c.None? && c'.Some? ==>
            k in s.workloadPass && c'.value == Some(OwnerRef(s.workloadPass[k].w.uid, k.name)))
  {
  }

  /** What a step does to a controller: nothing, or the object goes; or it appears, made by a Workload
      pass or with a UID of its own. */
  lemma DeploymentControllerAfter(s: State, step: Step, k: Key)
    requires Numbered(s) && OwnersMatch(s, DeploymentKind, k)
    ensures var c, c' := DeploymentController(s, k), DeploymentController(Next(s, step), k);
      && (c.Some? && c'.Some? ==> c' == c)
      && (c.None? && c'.Some? && c'.value.Some? ==>
            || (c'.value.value.uid == s.next && step.PutDeployment?)
            || (k in s.workloadPass && c'.value == Some(OwnerRef(s.workloadPass[k].w.uid, k.name))))
  {
    if step.PutDeployment? {
      PutDeploymentController(s, step.k, step.d, k);
    } else if !WritesDeployments(step) {
      OtherStepsLeaveDeployments(s, step);
    } else if step.ApplyDeployment? {
      AppliedDeploymentController(s, step.k, k);
    }
  }

  lemma AppliedDeploymentController(s: State, j: Key, k: Key)
    requires Numbered(s) && OwnersMatch(s, DeploymentKind, k)
    ensures var c, c' := DeploymentController(s, k), DeploymentController(AppliedDeployment(s, j), k);
      && (c.Some? && c'.Some? ==> c' == c)
      && (c.None? && c'.Some? ==>
            k in s.workloadPass && c'.value == Some(OwnerRef(s.workloadPass[k].w.uid, k.name)))
  {
    if At(s.objects.deployments, k) != At(AppliedDeployment(s, j).objects.deployments, k) {
      AppliedDeploymentOwns(s, j, k);
      RebuildKeeps(StoredDeployment(s.objects, k), s.workloadPass[k].w);
    }
  }

  lemma ServiceControllerAfter(s: State, step: Step, k: Key)
    requires Numbered(s) && OwnersMatch(s, ServiceKind, k)
    ensures var c, c' := ServiceController(s, k), ServiceController(Next(s, step), k);
      && (c.Some? && c'.Some? ==> c' == c)
      && (c.None? && c'.Some? && c'.value.Some? ==>
            || (c'.value.value.uid == s.next && step.PutService?)
            || (k in s.workloadPass && c'.value == Some(OwnerRef(s.workloadPass[k].w.uid, k.name))))
  {
    if step.PutService? {
      PutServiceController(s, step.k, step.svc, k);
    } else if !WritesServices(step) {
      OtherStepsLeaveServices(s, step);
    } else if step.ApplyService? {
      AppliedServiceController(s, step.k, k);
    } else if step.AnnotateService? && At(s.objects.services, k) != At(Annotated(s, step.k).objects.services, k) {
      AnnotatedOwns(s, step.k, k);
    } else if step.CleanService? && At(s.objects.services, k) != At(Cleaned(s, step.k).objects.services, k) {
      CleanedOwns(s, step.k, k);
    }
  }

  /** A step that creates an object creates no Workload. */
  lemma PutsWorkload(s: State, step: Step)
    requires step.PutDeployment? || step.PutService?
    ensures Next(s, step).workloads == s.workloads && Next(s, step).workloadPass == s.workloadPass
  {
  }

  /** The Workload at k, stored or being worked for: kept, or new with the next UID. */
  ghost predicate WorkloadsKept(s: State, s': State, k: Key) {
    && (k in s'.workloads ==>
          || (k in s.workloads && s'.workloads[k].uid == s.workloads[k].uid)
          || s'.workloads[k].uid == s.next)
    && (k in s'.workloadPass ==>
          || (k in s.workloadPass && s'.workloadPass[k].w.uid == s.workloadPass[k].w.uid)
          || (k in s.workloads && s'.workloadPass[k].w.uid == s.workloads[k].uid))
  }

  /** The controller of the object at k: kept, made by a Workload pass, or with the next UID. */
  ghost predicate ControllerKept(s: State, s': State, kind: Kind, k: Key) {
    var c, c' := ControllerOf(s, kind, k), ControllerOf(s', kind, k);
    && (c.Some? && c'.Some? ==> c' == c)
    && (c.None? && c'.Some? && c'.value.Some? ==>
          || (c'.value.value.uid == s.next && s'.workloads == s.workloads && s'.workloadPass == s.workloadPass)
          || (k in s.workloadPass && c'.value == Some(OwnerRef(s.workloadPass[k].w.uid, k.name))))
  }

  lemma WorkloadsKeptAfter(s: State, step: Step, k: Key)
    ensures WorkloadsKept(s, Next(s, step), k)
  {
    WorkloadsAfter(s, step, k);
    PassesAfter(s, step, k);
  }

  lemma ControllerKeptAfter(s: State, step: Step, kind: Kind, k: Key)
    requires Numbered(s) && OwnersMatch(s, kind, k)
    ensures ControllerKept(s, Next(s, step), kind, k)
  {
    if step.PutDeployment? || step.PutService? { PutsWorkload(s, step); }
    match kind {
      case DeploymentKind => DeploymentControllerAfter(s, step, k);
      case ServiceKind => ServiceControllerAfter(s, step, k);
    }
  }

  lemma OwnersStillMatch(s: State, s': State, kind: Kind, k: Key)
    requires Numbered(s) && OwnersMatch(s, kind, k) && WorkloadsKept(s, s', k) && ControllerKept(s, s', kind, k)
    ensures OwnersMatch(s', kind, k)
  {
  }

  /** A controller never changes while its object lives. */
  lemma ControllersPersist(s: State, step: Step, kind: Kind, k: Key)
    requires Numbered(s) && OwnersMatch(s, kind, k)
    ensures ControllerOf(s, kind, k).Some? && ControllerOf(Next(s, step), kind, k).Some? ==>
              ControllerOf(Next(s, step), kind, k) == ControllerOf(s, kind, k)
    ensures OwnersMatch(Next(s, step), kind, k)
  {
    WorkloadsKeptAfter(s, step, k);
    ControllerKeptAfter(s, step, kind, k);
    OwnersStillMatch(s, Next(s, step), kind, k);
  }

  predicate EditsDeployment(step: Step, k: Key) {
    (step.PutDeployment? || step.DropDeployment?) && step.k == k
  }

  predicate EditsService(step: Step, k: Key) {
    (step.PutService? || step.DropService?) && step.k == k
  }

  lemma DeploymentEditsElsewhere(s: State, step: Step, k: Key)
    requires UserEdit(step) && !EditsDeployment(step, k)
    ensures At(Next(s, step).objects.deployments, k) == At(s.objects.deployments, k)
  {
    if !WritesDeployments(step) { OtherStepsLeaveDeployments(s, step); }
  }

  lemma ServiceEditsElsewhere(s: State, step: Step, k: Key)
    requires UserEdit(step) && !EditsService(step, k)
    ensures At(Next(s, step).objects.services, k) == At(s.objects.services, k)
  {
    if !WritesServices(step) { OtherStepsLeaveServices(s, step); }
  }

  lemma ForeignDeploymentStep(s: State, step: Step, k: Key)
    requires Numbered(s) && k in s.objects.deployments && ForeignTo(s, k, s.objects.deployments[k].controller)
    requires !EditsDeployment(step, k)
    ensures At(Next(s, step).objects.deployments, k) == At(s.objects.deployments, k)
  {
    if UserEdit(step) {
      DeploymentEditsElsewhere(s, step, k);
    } else if At(Next(s, step).objects.deployments, k) != At(s.objects.deployments, k) {
      DeploymentsChangeForOwnersOnly(s, step, k);
      assert false;
    }
  }

  lemma ForeignServiceStep(s: State, step: Step, k: Key)
    requires Numbered(s) && k in s.objects.services && ForeignTo(s, k, s.objects.services[k].controller)
    requires !EditsService(step, k)
    ensures At(Next(s, step).objects.services, k) == At(s.objects.services, k)
  {
    if UserEdit(step) {
      ServiceEditsElsewhere(s, step, k);
    } else if At(Next(s, step).objects.services, k) != At(s.objects.services, k) {
      ServicesChangeForOwnersOnly(s, step, k);
      assert false;
    }
  }

  /** Nothing is ever adopted: a Deployment or Service that exists beside its namesake Workload
      without being controlled by it stays exactly as it is over every run, however the Workload,
      bindings and endpoints of that name come and go, until somebody outside the operator edits
      or deletes it. */
  lemma {:induction false} ForeignObjectsUntouched(s: State, steps: seq<Step>, k: Key)
    requires Numbered(s)
    ensures Numbered(Run(s, steps))
    ensures k in s.objects.deployments && ForeignTo(s, k, s.objects.deployments[k].controller)
            && (forall i :: 0 <= i < |steps| ==> !EditsDeployment(steps[i], k)) ==>
              At(Run(s, steps).objects.deployments, k) == At(s.objects.deployments, k)
              && ForeignTo(Run(s, steps), k, s.objects.deployments[k].controller)
    ensures k in s.objects.services && ForeignTo(s, k, s.objects.services[k].controller)
            && (forall i :: 0 <= i < |steps| ==> !EditsService(steps[i], k)) ==>
              At(Run(s, steps).objects.services, k) == At(s.objects.services, k)
              && ForeignTo(Run(s, steps), k, s.objects.services[k].controller)
  {
    if steps != [] {
      var before, last := steps[..|steps| - 1], steps[|steps| - 1];
      ForeignObjectsUntouched(s, before, k);
      var mid := Run(s, before);
      NumberedStep(mid, last);
      if k in s.objects.deployments && ForeignTo(s, k, s.objects.deployments[k].controller)
         && (forall i :: 0 <= i < |steps| ==> !EditsDeployment(steps[i], k)) {
        ForeignDeploymentStep(mid, last, k);
        ForeignStays(mid, last, k, s.objects.deployments[k].controller);
      }
      if k in s.objects.services && ForeignTo(s, k, s.objects.services[k].controller)
         && (forall i :: 0 <= i < |steps| ==> !EditsService(steps[i], k)) {
        ForeignServiceStep(mid, last, k);
        ForeignStays(mid, last, k, s.objects.services[k].controller);
      }
    }
  }

  // ----------------------------------------------------------------- recorded means present

  /** The app container comes first, and each recorded name occurs in its env. */
  ghost predicate Carries(d: DeploymentObj) {
    EP.AppFirst(d) && forall n :: n in Managed(d.annotations) ==> Has(AppEnv(d), n)
  }

  ghost predicate RecordedOccur(s: State) {
    forall k :: OwnsDeployment(s, k) ==> Carries(s.objects.deployments[k])
  }

  /** A user's edit leaves what bindings wrote in a leading app container. */
  ghost predicate Gentle(s: State, step: Step) {
    step.PutDeployment? && OwnsDeployment(s, step.k) && DeploymentEditAllowed(s.objects.deployments[step.k], step.d) ==>
      Carries(step.d)
  }

  lemma PerformNamed(l: Ledger<BindingSpec>, op: LedgerOp<BindingSpec>, next: nat, b: Key)
    requires Admitted(op)
    ensures b in Perform(l, op, next).stored || b in Perform(l, op, next).passes ==>
              b in l.stored || b in l.passes || DnsName(b.name)
  {
  }

  lemma BindingsFrom(s: State, step: Step, b: Key)
    requires !step.OnBinding?
    ensures b in Next(s, step).bindings.stored || b in Next(s, step).bindings.passes ==>
              b in s.bindings.stored || b in s.bindings.passes
  {
  }

  lemma NamedStep(s: State, step: Step)
    requires Named(s)
    ensures Named(Next(s, step))
  {
    var l := Next(s, step).bindings;
    forall b | b in l.stored || b in l.passes ensures DnsName(b.name) {
      if !step.OnBinding? {
        BindingsFrom(s, step, b);
      } else if Admitted(step.bop) {
        PerformNamed(s.bindings, step.bop, s.next, b);
      }
    }
  }

  lemma RebuildCarries(d: DeploymentObj, w: Workload)
    requires d == EMPTY || Carries(d)
    ensures Carries(Rebuild(d, w.uid, w.key.name, w.spec))
  {
    var d' := Rebuild(d, w.uid, w.key.name, w.spec);
    assert AppEnv(d') == RebuiltEnv(d, w.spec);
    assert d != EMPTY ==> AppEnv(d) == FirstEnv(d);
    forall n | n in Managed(d'.annotations) ensures Has(AppEnv(d'), n) {
      LookupRebuilt(d, w.spec, n);
    }
  }

  lemma InjectCarries(d: DeploymentObj, b: string, v: BindingValues)
    requires Carries(d) && DnsName(b)
    ensures Carries(Inject(d, b, v))
  {
    EP.InjectAt(d, b, v);
    InjectionNames(b, v);
    forall n | n in Managed(Inject(d, b, v).annotations) ensures Has(AppEnv(Inject(d, b, v)), n) {
      MergeLookup(AppEnv(d), Injection(b, v), n);
    }
  }

  lemma WithdrawCarries(d: DeploymentObj, b: string)
    requires Carries(d)
    ensures Carries(Withdraw(d, b))
  {
    EP.WithdrawAt(d, b);
    forall n | n in Managed(Withdraw(d, b).annotations) ensures Has(AppEnv(Withdraw(d, b)), n) {
      KeepLookup(AppEnv(d), ManagedSet(b), false, n);
    }
  }

  lemma OccurStep(s: State, step: Step)
    requires Numbered(s) && Named(s) && RecordedOccur(s) && Gentle(s, step)
    ensures RecordedOccur(Next(s, step))
  {
    var s' := Next(s, step);
    forall k | OwnsDeployment(s', k) ensures Carries(s'.objects.deployments[k]) {
      if !OwnsDeployment(s, k) || s'.objects.deployments[k] != s.objects.deployments[k] {
        OccurAt(s, step, k);
      }
    }
  }

  /** Only three steps change an owned Deployment, or make one, apart from users' edits. */
  lemma OccurAt(s: State, step: Step, k: Key)
    requires Numbered(s) && Named(s) && RecordedOccur(s) && Gentle(s, step) && OwnsDeployment(Next(s, step), k)
    requires !OwnsDeployment(s, k) || Next(s, step).objects.deployments[k] != s.objects.deployments[k]
    ensures Carries(Next(s, step).objects.deployments[k])
  {
    WorkloadsAfter(s, step, k);
    if step.PutDeployment? {
      OccurUser(s, step.k, step.d, k);
    } else if step.ApplyDeployment? {
      AppliedDeploymentOwns(s, step.k, k);
      RebuildKeeps(StoredDeployment(s.objects, k), s.workloadPass[k].w);
      RebuildCarries(StoredDeployment(s.objects, k), s.workloadPass[k].w);
    } else if step.InjectBinding? {
      InjectedOwns(s, step.k, k);
      InjectCarries(s.objects.deployments[k], step.k.name, ValuesFor(s, step.k, s.bindings.passes[step.k].obj.spec));
    } else if step.WithdrawBinding? {
      WithdrawnOwns(s, step.k, k);
      WithdrawCarries(s.objects.deployments[k], step.k.name);
    } else {
      OccurElse(s, step, k);
    }
  }

  lemma OccurUser(s: State, j: Key, d: DeploymentObj, k: Key)
    requires Numbered(s) && RecordedOccur(s) && Gentle(s, PutDeployment(j, d))
    requires OwnsDeployment(PutDeploymentAt(s, j, d), k)
    ensures Carries(PutDeploymentAt(s, j, d).objects.deployments[k])
  {
  }

  lemma OccurElse(s: State, step: Step, k: Key)
    requires Numbered(s) && RecordedOccur(s) && OwnsDeployment(Next(s, step), k)
    requires step.DropDeployment? || !WritesDeployments(step)
    ensures Carries(Next(s, step).objects.deployments[k])
  {
    WorkloadsAfter(s, step, k);
    if !step.DropDeployment? { OtherStepsLeaveDeployments(s, step); }
    assert OwnsDeployment(s, k);
  }

  /** A step leaves every recorded name in a leading app container exactly when it is gentle. */
  lemma OccurStepIff(s: State, step: Step)
    requires Numbered(s) && Named(s) && RecordedOccur(s)
    ensures RecordedOccur(Next(s, step)) <==> Gentle(s, step)
  {
    if Gentle(s, step) {
      OccurStep(s, step);
    } else {
      assert OwnsDeployment(Next(s, step), step.k);
    }
  }

  /** The Deployment without variable n in its first container. */
  function WithoutVariable(d: DeploymentObj, n: string): DeploymentObj
    requires d.containers != []
  {
    var c := d.containers[0];
    d.(containers := d.containers[0 := c.(env := Without(c.env, {n}))])
  }

  /** Failing input: a user who deletes a variable from the app container leaves its name recorded,
      until the next pass of its binding. */
  lemma EditLosesVariable(s: State, k: Key, n: string)
    requires Recorded(s, k, n) && EP.AppFirst(s.objects.deployments[k])
    ensures var s' := Next(s, PutDeployment(k, WithoutVariable(s.objects.deployments[k], n)));
      Recorded(s', k, n) && !Has(AppEnv(s'.objects.deployments[k]), n)
  {
    var d := WithoutVariable(s.objects.deployments[k], n);
    assert PutDeploymentAt(s, k, d) == s.(objects := SetDeployment(s.objects, k, d));
    KeepLookup(s.objects.deployments[k].containers[0].env, {n}, false, n);
  }

  ghost predicate OccurThroughout(s: State, steps: seq<Step>) {
    forall i :: 0 <= i <= |steps| ==> RecordedOccur(Run(s, steps[..i]))
  }

  ghost predicate GentleThroughout(s: State, steps: seq<Step>) {
    forall i :: 0 <= i < |steps| ==> Gentle(Run(s, steps[..i]), steps[i])
  }

  lemma {:induction false} NamedEver(s: State, steps: seq<Step>)
    requires Named(s)
    ensures Named(Run(s, steps))
  {
    if steps != [] {
      NamedEver(s, steps[..|steps| - 1]);
      NamedStep(Run(s, steps[..|steps| - 1]), steps[|steps| - 1]);
    }
  }

  lemma {:induction false} OccurAlong(s: State, steps: seq<Step>, n: nat)
    requires Numbered(s) && Named(s) && RecordedOccur(s) && GentleThroughout(s, steps) && n <= |steps|
    ensures RecordedOccur(Run(s, steps[..n]))
  {
    if n > 0 {
      assert steps[..n][..n - 1] == steps[..n - 1];
      OccurAlong(s, steps, n - 1);
      NumberedEver(s, steps[..n - 1]);
      NamedEver(s, steps[..n - 1]);
      OccurStepIff(Run(s, steps[..n - 1]), steps[n - 1]);
    }
  }

  lemma GentleAt(s: State, steps: seq<Step>, i: nat)
    requires Numbered(s) && Named(s) && i < |steps| && OccurThroughout(s, steps)
    ensures Gentle(Run(s, steps[..i]), steps[i])
  {
    assert steps[..i + 1][..i] == steps[..i];
    NumberedEver(s, steps[..i]);
    NamedEver(s, steps[..i]);
    assert RecordedOccur(Run(s, steps[..i])) && RecordedOccur(Run(s, steps[..i + 1]));
    OccurStepIff(Run(s, steps[..i]), steps[i]);
  }

  /** Over every run, cut-off passes and forced removals included: each recorded name is in a leading
      app container at every point if and only if every user's edit of an owned Deployment is
      gentle. */
  lemma RecordedNamesOccur(s: State, steps: seq<Step>)
    requires Initial(s)
    ensures OccurThroughout(s, steps) <==> GentleThroughout(s, steps)
  {
    if GentleThroughout(s, steps) {
      forall i | 0 <= i <= |steps| ensures RecordedOccur(Run(s, steps[..i])) { OccurAlong(s, steps, i); }
    }
    if OccurThroughout(s, steps) {
      forall i | 0 <= i < |steps| ensures Gentle(Run(s, steps[..i]), steps[i]) { GentleAt(s, steps, i); }
    }
  }

  /** Both halves together: with gentle edits and clean steps, each recorded name occurs in the app
      container's env and belongs to a binding that still exists, holds the finalizer and references
      the Workload. */
  lemma RecordedNamesOccurAndBelong(s: State, steps: seq<Step>, k: Key, n: string)
    requires Initial(s) && GentleThroughout(s, steps) && CleanThroughout(s, steps)
    requires Recorded(Run(s, steps), k, n)
    ensures Has(AppEnv(Run(s, steps).objects.deployments[k]), n)
    ensures exists b :: Provider(Run(s, steps), b, k, n)
  {
    OccurAlong(s, steps, |steps|);
    InvAlong(s, steps, |steps|);
    assert steps[..|steps|] == steps;
  }

  // -------------------------------------------------------------------------- nothing strays

  /** Once no binding of that name answers for the Workload any more, none of its variables is
      recorded on the Workload's Deployment, at any point of any run. */
  lemma GoneBindingRecordsNothing(s: State, steps: seq<Step>, k: Key, name: string)
    requires Initial(s) && CleanThroughout(s, steps) && DnsName(name) && OwnsDeployment(Run(s, steps), k)
    requires forall b :: Answers(Run(s, steps).bindings, b, k) ==> b.name != name
    ensures Managed(Run(s, steps).objects.deployments[k].annotations) !! ManagedSet(name)
  {
    InvAlong(s, steps, |steps|);
    assert steps[..|steps|] == steps;
    var s' := Run(s, steps);
    forall n | n in ManagedSet(name) ensures n !in Managed(s'.objects.deployments[k].annotations) {
      if Recorded(s', k, n) {
        var b :| Provider(s', b, k, n);
        NamesNeverCollide(b.name, name);
      }
    }
  }

  /** And when a Workload pass writes the Deployment, every variable it leaves in the container is
      either in spec.env or provided by a binding that answers for the Workload right then. */
  lemma NoStrayVariables(s: State, k: Key, n: string)
    requires Inv(s) && k in s.workloadPass && s.workloadPass[k].ToDeployment?
    requires !DeploymentConflict(s.objects, s.workloadPass[k].w) && !ServiceConflict(s.objects, s.workloadPass[k].w)
    requires OwnsDeployment(AppliedDeployment(s, k), k)
    requires Has(AppEnv(AppliedDeployment(s, k).objects.deployments[k]), n)
    ensures Has(SpecEnvVars(s.workloadPass[k].w.spec.env), n) || exists b :: Provider(AppliedDeployment(s, k), b, k, n)
  {
    var w, d, s' := s.workloadPass[k].w, StoredDeployment(s.objects, k), AppliedDeployment(s, k);
    ApplyDeploymentKeeps(s, k);
    RebuildKeeps(d, w);
    assert s'.objects.deployments[k] == Rebuild(d, w.uid, k.name, w.spec);
    assert AppEnv(s'.objects.deployments[k]) == RebuiltEnv(d, w.spec);
    LookupRebuilt(d, w.spec, n);
    if !Has(SpecEnvVars(w.spec.env), n) {
      assert Recorded(s', k, n);
    }
  }
}
