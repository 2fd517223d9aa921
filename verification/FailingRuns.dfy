/** Runs from an empty cluster that end in orphans, once a finalizer is removed by force. They show
    that what the failing inputs assume does come about. */
module FailingRuns {
  import opened Types
  import opened Api
  import opened EnvNames
  import opened ManagedAnnotation
  import opened Deployments
  import opened Placement
  import opened Finalizers
  import opened Cluster
  import opened ClusterSafety

  /** A Workload without dependencies, and a binding that can be injected into it. */
  ghost predicate Setting(s: State, k: Key, spec: WorkloadSpec, b: Key, ref: Key, bspec: BindingSpec) {
    && Initial(s) && s.world.self == "" && Resolve(b, ref) == k && DnsName(b.name)
    && spec.imagePullSecrets == [] && spec.envFrom == [] && spec.ports == []
    && AcceptedEngine(bspec.engine) && Resolve(b, bspec.connectionRef) in s.world.secrets
  }

  /** The Workload's pass creates the Deployment. */
  function WorkloadSteps(k: Key, spec: WorkloadSpec): seq<Step> {
    [PutWorkload(k, spec), StartWorkload(k), ApplyDeployment(k)]
  }

  /** The binding's pass gets as far as its finalizer. */
  function BindingSteps(b: Key, ref: Key, bspec: BindingSpec): seq<Step> {
    [OnBinding(PutObject(b, ref, bspec)), OnBinding(StartPass(b)), OnBinding(WriteFinalizer(b))]
  }

  function Before(k: Key, spec: WorkloadSpec, b: Key, ref: Key, bspec: BindingSpec): seq<Step> {
    WorkloadSteps(k, spec) + BindingSteps(b, ref, bspec)
  }

  function Forced(b: Key): Step { OnBinding(StripFinalizer(b, false)) }

  lemma NothingMissingYet(x: World, w: Workload)
    requires x.self == "" && w.spec.imagePullSecrets == [] && w.spec.envFrom == [] && w.spec.ports == []
    ensures Gate(x, Objects(map[], map[]), w) == Proceed
  {
    assert Needs(w.spec) == [];
  }

  lemma AfterWorkload(s: State, k: Key, spec: WorkloadSpec, b: Key, ref: Key, bspec: BindingSpec)
    requires Setting(s, k, spec, b, ref, bspec)
    ensures var s' := Run(s, WorkloadSteps(k, spec));
      && s'.world == s.world && s'.bindings == Ledger(map[], map[])
      && OwnsDeployment(s', k) && s'.objects.deployments.Keys == {k} && s'.objects.deployments[k].annotations == map[]
  {
    var w := Workload(k, s.next, spec);
    var s1 := PutWorkloadAt(s, k, spec);
    NothingMissingYet(s.world, w);
    assert StartedWorkload(s1, k) == s1.(workloadPass := map[k := ToDeployment(w)]);
    RebuildKeeps(EMPTY, w);
    ThreeSteps(s, PutWorkload(k, spec), StartWorkload(k), ApplyDeployment(k));
  }

  lemma AfterBinding(s: State, b: Key, ref: Key, bspec: BindingSpec)
    requires DnsName(b.name) && s.bindings == Ledger(map[], map[])
    ensures var s' := Run(s, BindingSteps(b, ref, bspec));
      && s'.world == s.world && s'.objects == s.objects && s'.workloads == s.workloads
      && Applying(s'.bindings, b) && s'.bindings.passes[b].obj.spec == bspec
      && Target(b, s'.bindings.passes[b].obj) == Resolve(b, ref)
      && Held(s'.bindings, b) && s'.bindings.stored.Keys == {b}
  {
    ThreeSteps(s, OnBinding(PutObject(b, ref, bspec)), OnBinding(StartPass(b)), OnBinding(WriteFinalizer(b)));
  }

  /** The pass can inject, its binding alone answers, and nothing is recorded yet. */
  ghost predicate Ready(s: State, k: Key, b: Key) {
    && Inv(s) && Held(s.bindings, b) && CanInject(s, b) && Target(b, s.bindings.passes[b].obj) == k
    && (forall j, n :: !Recorded(s, j, n))
    && (forall c, t :: Answers(s.bindings, c, t) ==> c == b)
  }

  lemma NothingManaged()
    ensures Managed(map[]) == {}
  {
    assert Split("") == [""];
  }

  lemma ReadyToInject(s: State, k: Key, spec: WorkloadSpec, b: Key, ref: Key, bspec: BindingSpec)
    requires Setting(s, k, spec, b, ref, bspec)
    ensures Ready(Run(s, Before(k, spec, b, ref, bspec)), k, b)
  {
    var first, steps := Run(s, WorkloadSteps(k, spec)), Before(k, spec, b, ref, bspec);
    AfterWorkload(s, k, spec, b, ref, bspec);
    AfterBinding(first, b, ref, bspec);
    RunConcat(s, WorkloadSteps(k, spec), BindingSteps(b, ref, bspec));
    InvWhileUnforced(s, steps);
    NothingManaged();
  }

  lemma InvWhileUnforced(s: State, steps: seq<Step>)
    requires Initial(s) && forall i :: 0 <= i < |steps| ==> !Strips(steps[i])
    ensures Inv(Run(s, steps))
  {
    UnforcedAlong(s, steps, |steps|);
    assert steps[..|steps|] == steps;
  }

  lemma OrphansDuring(s: State, k: Key, b: Key)
    requires Ready(s, k, b)
    ensures NoOrphans(StrippedBinding(s, b, false)) && !NoOrphans(Injected(StrippedBinding(s, b, false), b))
  {
    StripOrphansInjection(s, b, false);
  }

  /** An injection leaves the binding alone answering. */
  lemma AfterInjection(s: State, k: Key, b: Key)
    requires Ready(s, k, b) && DnsName(b.name)
    ensures Held(Injected(s, b).bindings, b) && Recorded(Injected(s, b), k, UrlName(b.name))
    ensures forall c, t :: Answers(Injected(s, b).bindings, c, t) ==> c == b
  {
    ManagedSetIs(b.name);
    InjectedRecords(s, b, k, UrlName(b.name));
    EndAnswers(s.bindings, b);
    assert Injected(s, b).bindings == End(s.bindings, b);
  }

  lemma EndAnswers<S>(l: Ledger<S>, k: Key)
    requires Applying(l, k)
    ensures forall c, t :: Answers(End(l, k), c, t) ==> Answers(l, c, t)
  {
  }

  lemma OrphansAfter(s: State, k: Key, b: Key, n: string)
    requires Inv(s) && Held(s.bindings, b) && Recorded(s, k, n)
    requires forall c, t :: Answers(s.bindings, c, t) ==> c == b
    ensures !NoOrphans(StrippedBinding(s, b, false))
  {
    StripOrphansVariable(s, b, false, k, n);
  }

  lemma RunRemoval(s: State, steps: seq<Step>, b: Key)
    ensures Run(s, steps + [Forced(b)]) == StrippedBinding(Run(s, steps), b, false)
  {
    RunLast(s, steps, Forced(b));
  }

  lemma RunInjection(s: State, steps: seq<Step>, b: Key)
    ensures Run(s, steps + [InjectBinding(b)]) == Injected(Run(s, steps), b)
  {
    RunLast(s, steps, InjectBinding(b));
  }

  lemma FailsDuring(s: State, before: seq<Step>, k: Key, b: Key)
    requires Ready(Run(s, before), k, b)
    ensures NoOrphans(Run(s, before + [Forced(b)]))
    ensures !NoOrphans(Run(s, before + [Forced(b)] + [InjectBinding(b)]))
  {
    OrphansDuring(Run(s, before), k, b);
    RunRemoval(s, before, b);
    RunInjection(s, before + [Forced(b)], b);
  }

  lemma FailsAfter(s: State, before: seq<Step>, k: Key, b: Key)
    requires Ready(Run(s, before), k, b) && DnsName(b.name) && Inv(Run(s, before + [InjectBinding(b)]))
    ensures !NoOrphans(Run(s, before + [InjectBinding(b)] + [Forced(b)]))
  {
    AfterInjection(Run(s, before), k, b);
    RunInjection(s, before, b);
    RunRemoval(s, before + [InjectBinding(b)], b);
    OrphansAfter(Injected(Run(s, before), b), k, b, UrlName(b.name));
  }

  lemma Unforced(k: Key, spec: WorkloadSpec, b: Key, ref: Key, bspec: BindingSpec)
    ensures var steps := Before(k, spec, b, ref, bspec);
      forall i :: 0 <= i < |steps| ==> !Strips(steps[i])
  {
  }

  /** Removed during the pass: the variables of the injection that follows are orphaned, although there
      are no orphans up to then. */
  lemma RemovedDuringPass(s: State, k: Key, spec: WorkloadSpec, b: Key, ref: Key, bspec: BindingSpec)
    requires Setting(s, k, spec, b, ref, bspec)
    ensures var steps := Before(k, spec, b, ref, bspec) + [Forced(b)];
      NoOrphans(Run(s, steps)) && !NoOrphans(Run(s, steps + [InjectBinding(b)]))
  {
    ReadyToInject(s, k, spec, b, ref, bspec);
    FailsDuring(s, Before(k, spec, b, ref, bspec), k, b);
  }

  /** Removed after the pass: the injected variables are orphaned at once. */
  lemma RemovedAfterPass(s: State, k: Key, spec: WorkloadSpec, b: Key, ref: Key, bspec: BindingSpec)
    requires Setting(s, k, spec, b, ref, bspec)
    ensures var steps := Before(k, spec, b, ref, bspec) + [InjectBinding(b)];
      NoOrphans(Run(s, steps)) && !NoOrphans(Run(s, steps + [Forced(b)]))
  {
    ReadyToInject(s, k, spec, b, ref, bspec);
    Unforced(k, spec, b, ref, bspec);
    InvWhileUnforced(s, Before(k, spec, b, ref, bspec) + [InjectBinding(b)]);
    FailsAfter(s, Before(k, spec, b, ref, bspec), k, b);
  }
}
