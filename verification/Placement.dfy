/** The Workload reconciler's decisions: whether this cluster runs the Workload, and what one pass
    then does to the Deployment and the Service. */
module Placement {
  import opened Types
  import opened Api
  import opened Membership
  import opened Deployments
  import opened Conditions

  // --------------------------------------------------------------------- what a pass can read

  /** A cluster as the Workload reconciler reads it. `self` is empty in single-cluster mode. */
  datatype World = World(
    self: string,
    federations: map<string, FederationSpec>,
    members: Store,
    secrets: set<Key>,
    configMaps: set<Key>)

  datatype ServiceObj = ServiceObj(
    controller: Option<Owner>, labels: map<string, string>, annotations: map<string, string>,
    selector: map<string, string>, ports: seq<ContainerPort>)

  const NO_SERVICE := ServiceObj(None, map[], map[], map[], [])

  datatype Objects = Objects(deployments: map<Key, DeploymentObj>, services: map<Key, ServiceObj>)

  datatype Workload = Workload(key: Key, uid: Uid, spec: WorkloadSpec)

  datatype Verdict = Proceed | Degrade(reason: Reason) | Pend(reason: Reason)

  // --------------------------------------------------------------------------- the checks

  function FederationOf(x: World, spec: WorkloadSpec): Option<FederationSpec> {
    if spec.federationRef in x.federations then Some(x.federations[spec.federationRef]) else None
  }

  function MembershipVerdict(x: World, spec: WorkloadSpec): Verdict {
    match OwnDecision(FederationOf(x, spec), spec.federationRef != "", x.self, x.members)
    case Yes => Proceed
    case No => Pend(NotAFederationMember)
    case MemberMissing => Degrade(ClusterMemberNotFound)
    case BadSelector => Degrade(InvalidFederationSelector)
    case FederationMissing => Degrade(FederationNotFound)
  }

  /** Explicit names win over a selector; a policy with neither targets everybody. */
  function TargetVerdict(x: World, spec: WorkloadSpec): Verdict {
    if spec.targetPolicy.None? then Proceed
    else
      var p := spec.targetPolicy.value;
      if p.members != [] then
        if x.self in p.members then Proceed else Pend(ExcludedByTargetPolicy)
      else if p.memberSelector.None? then Proceed
      else if AsSelector(p.memberSelector.value).None? then Degrade(InvalidTargetPolicy)
      else if x.self !in x.members then Degrade(ClusterMemberNotFound)
      else if Matches(AsSelector(p.memberSelector.value).value, x.members[x.self].labels) then Proceed
      else Pend(ExcludedByTargetPolicy)
  }

  /** One object a Workload depends on. */
  datatype Dependency = NeedsSecret(name: string) | NeedsConfigMap(name: string)

  function SourceNeeds(s: EnvFromSource): seq<Dependency> {
    (if s.configMapRef.Some? then [NeedsConfigMap(s.configMapRef.value)] else [])
    + (if s.secretRef.Some? then [NeedsSecret(s.secretRef.value)] else [])
  }

  function EnvFromNeeds(sources: seq<EnvFromSource>): seq<Dependency> {
    if sources == [] then [] else SourceNeeds(sources[0]) + EnvFromNeeds(sources[1..])
  }

  /** Everything the pass must find, in the order it looks. */
  function Needs(spec: WorkloadSpec): seq<Dependency> {
    PullNeeds(spec.imagePullSecrets) + EnvFromNeeds(spec.envFrom)
  }

  function PullNeeds(pulls: seq<string>): seq<Dependency> {
    seq(|pulls|, i requires 0 <= i < |pulls| => NeedsSecret(pulls[i]))
  }

  predicate Present(x: World, ns: string, d: Dependency) {
    match d
    case NeedsSecret(name) => Key(ns, name) in x.secrets
    case NeedsConfigMap(name) => Key(ns, name) in x.configMaps
  }

  function Missing(d: Dependency): Verdict {
    match d
    case NeedsSecret(_) => Degrade(SecretNotFound)
    case NeedsConfigMap(_) => Degrade(ConfigMapNotFound)
  }

  /** The reason of the first missing dependency, or Proceed. */
  function FirstMissing(x: World, ns: string, ds: seq<Dependency>): Verdict {
    if ds == [] then Proceed
    else if !Present(x, ns, ds[0]) then Missing(ds[0])
    else FirstMissing(x, ns, ds[1..])
  }

  /** IsControlledBy: the UIDs are compared. */
  predicate Controls(uid: Uid, controller: Option<Owner>) { controller.Some? && controller.value.uid == uid }

  function UidOf(controller: Option<Owner>): Option<Uid> {
    match controller
    case None => None
    case Some(owner) => Some(owner.uid)
  }

  predicate DeploymentConflict(o: Objects, w: Workload) {
    w.key in o.deployments && !Controls(w.uid, o.deployments[w.key].controller)
  }

  predicate ServiceConflict(o: Objects, w: Workload) {
    w.spec.ports != [] && w.key in o.services && !Controls(w.uid, o.services[w.key].controller)
  }

  function OwnershipVerdict(o: Objects, w: Workload): Verdict {
    if DeploymentConflict(o, w) then Degrade(DeploymentOwnershipConflict)
    else if ServiceConflict(o, w) then Degrade(ServiceOwnershipConflict)
    else Proceed
  }

  /** Both placement checks; neither is made in single-cluster mode. */
  function PlacementVerdict(x: World, spec: WorkloadSpec): Verdict {
    if x.self == "" then Proceed
    else if MembershipVerdict(x, spec) != Proceed then MembershipVerdict(x, spec)
    else TargetVerdict(x, spec)
  }

  /** The verdict of the reading half of a pass. */
  function Gate(x: World, o: Objects, w: Workload): Verdict {
    if PlacementVerdict(x, w.spec) != Proceed then PlacementVerdict(x, w.spec)
    else if FirstMissing(x, w.key.ns, Needs(w.spec)) != Proceed then FirstMissing(x, w.key.ns, Needs(w.spec))
    else OwnershipVerdict(o, w)
  }

  // --------------------------------------------------------------------------- the writes

  function ServicePorts(ports: seq<ContainerPort>): seq<ContainerPort> { ContainerPorts(ports) }

  function RebuildService(s: ServiceObj, w: Workload): ServiceObj {
    s.(controller := Some(OwnerRef(w.uid, w.key.name)), labels := WorkloadLabels(w.key.name),
       selector := WorkloadLabels(w.key.name),
       ports := ServicePorts(w.spec.ports))
  }

  function StoredDeployment(o: Objects, k: Key): DeploymentObj {
    if k in o.deployments then o.deployments[k] else EMPTY
  }

  function StoredService(o: Objects, k: Key): ServiceObj {
    if k in o.services then o.services[k] else NO_SERVICE
  }

  function WriteDeployment(o: Objects, w: Workload): Objects {
    o.(deployments := o.deployments[w.key := Rebuild(StoredDeployment(o, w.key), w.uid, w.key.name, w.spec)])
  }

  /** Without ports the Service is deleted if it is ours and otherwise left alone. */
  function WriteService(o: Objects, w: Workload): Objects {
    if w.spec.ports == [] then
      if w.key in o.services && Controls(w.uid, o.services[w.key].controller)
      then o.(services := o.services - {w.key}) else o
    else o.(services := o.services[w.key := RebuildService(StoredService(o, w.key), w)])
  }

  /** Between the two states no Deployment or Service changes that w does not control. */
  ghost predicate TakesNothing(o: Objects, o': Objects, w: Workload) {
    && (forall k :: k in o.deployments && !Controls(w.uid, o.deployments[k].controller) ==>
          k in o'.deployments && o'.deployments[k] == o.deployments[k])
    && (forall k :: k in o.services && !Controls(w.uid, o.services[k].controller) ==>
          k in o'.services && o'.services[k] == o.services[k])
  }

  /** A whole pass without API errors. */
  function Pass(x: World, o: Objects, w: Workload): (Objects, Verdict) {
    var v := Gate(x, o, w);
    if v == Proceed then (WriteService(WriteDeployment(o, w), w), v) else (o, v)
  }

  // ------------------------------------------------------------------------- the pass itself

  /** The objects of one cluster that Workload passes write. */
  class Cluster {
    var deployments: map<Key, DeploymentObj>
    var services: map<Key, ServiceObj>

    ghost function View(): Objects
      reads this
    {
      Objects(deployments, services)
    }

    constructor (o: Objects)
      ensures View() == o
    {
      deployments, services := o.deployments, o.services;
    }

    method Reconcile(x: World, w: Workload) returns (v: Verdict)
      modifies this
      ensures (View(), v) == Pass(x, old(View()), w)
    {
      v := PlacementChecks(x, w.spec);
      if v != Proceed {
        return;
      }
      v := DependencyPreflight(x, w.key.ns, w.spec);
      if v != Proceed {
        return;
      }
      v := OwnershipPreflight(w);
      if v != Proceed {
        return;
      }
      ReconcileDeployment(w);
      ReconcileService(w);
    }

    static method PlacementChecks(x: World, spec: WorkloadSpec) returns (v: Verdict)
      ensures v == PlacementVerdict(x, spec)
    {
      v := Proceed;
      if x.self != "" {
        var d := IsFederationMember(FederationOf(x, spec), spec.federationRef != "", x.self, x.members);
        match d {
          case Yes =>
          case No => return Pend(NotAFederationMember);
          case MemberMissing => return Degrade(ClusterMemberNotFound);
          case BadSelector => return Degrade(InvalidFederationSelector);
          case FederationMissing => return Degrade(FederationNotFound);
        }
        v := IsTargetPolicyMatch(x, spec);
      }
    }

    /** isTargetPolicyMatch. */
    static method IsTargetPolicyMatch(x: World, spec: WorkloadSpec) returns (v: Verdict)
      ensures v == TargetVerdict(x, spec)
    {
      if spec.targetPolicy.None? {
        return Proceed;
      }
      var policy := spec.targetPolicy.value;
      if |policy.members| > 0 {
        var i := 0;
        while i < |policy.members|
          invariant 0 <= i <= |policy.members| && x.self !in policy.members[..i]
        {
          if policy.members[i] == x.self {
            return Proceed;
          }
          assert policy.members[..i + 1] == policy.members[..i] + [policy.members[i]];
          i := i + 1;
        }
        assert policy.members[..i] == policy.members;
        return Pend(ExcludedByTargetPolicy);
      }
      if policy.memberSelector.Some? {
        var selector := AsSelector(policy.memberSelector.value);
        if selector.None? {
          return Degrade(InvalidTargetPolicy);
        }
        if x.self !in x.members {
          return Degrade(ClusterMemberNotFound);
        }
        return if Matches(selector.value, x.members[x.self].labels) then Proceed else Pend(ExcludedByTargetPolicy);
      }
      return Proceed;
    }

    /** dependencyPreflight: pull secrets first, then per source the config map before the secret. */
    static method DependencyPreflight(x: World, ns: string, spec: WorkloadSpec) returns (v: Verdict)
      ensures v == FirstMissing(x, ns, Needs(spec))
      ensures v == Proceed <==> DependenciesPresent(x, ns, spec)
      ensures v == Degrade(ConfigMapNotFound) <==> PullsPresent(x, ns, spec) && LacksConfigMap(x, ns, spec.envFrom)
      ensures v == Degrade(SecretNotFound)
         <==> !PullsPresent(x, ns, spec) || LacksSecret(x, ns, spec.envFrom)
    {
      DependenciesIff(x, ns, spec);
      PreflightReasons(x, ns, spec);
      ghost var all := Needs(spec);
      var pulls := spec.imagePullSecrets;
      var i := 0;
      while i < |pulls|
        invariant 0 <= i <= |pulls|
        invariant FirstMissing(x, ns, all) == FirstMissing(x, ns, all[i..])
      {
        assert all[i..][0] == NeedsSecret(pulls[i]) && all[i..][1..] == all[i + 1..];
        if Key(ns, pulls[i]) !in x.secrets {
          return Degrade(SecretNotFound);
        }
        i := i + 1;
      }
      assert all[i..] == EnvFromNeeds(spec.envFrom);
      i := 0;
      while i < |spec.envFrom|
        invariant 0 <= i <= |spec.envFrom|
        invariant FirstMissing(x, ns, all) == FirstMissing(x, ns, EnvFromNeeds(spec.envFrom[i..]))
      {
        var source := spec.envFrom[i];
        ghost var rest := EnvFromNeeds(spec.envFrom[i + 1..]);
        assert spec.envFrom[i..][0] == source && spec.envFrom[i..][1..] == spec.envFrom[i + 1..];
        FirstMissingSource(x, ns, source, rest);
        if source.configMapRef.Some? && Key(ns, source.configMapRef.value) !in x.configMaps {
          return Degrade(ConfigMapNotFound);
        }
        if source.secretRef.Some? && Key(ns, source.secretRef.value) !in x.secrets {
          return Degrade(SecretNotFound);
        }
        i := i + 1;
      }
      return Proceed;
    }

    /** The preflight lets the pass through exactly when its writes would take nothing from anybody
        else, and otherwise names the first object they would take: the Deployment, or the Service
        if there are ports. */
    method OwnershipPreflight(w: Workload) returns (v: Verdict)
      ensures v == Proceed || v == Degrade(DeploymentOwnershipConflict) || v == Degrade(ServiceOwnershipConflict)
      ensures v == Proceed <==> TakesNothing(View(), WriteService(WriteDeployment(View(), w), w), w)
      ensures v == Degrade(DeploymentOwnershipConflict)
         <==> w.key in deployments && UidOf(deployments[w.key].controller) != Some(w.uid)
      ensures v == Degrade(ServiceOwnershipConflict)
         <==> && (w.key in deployments ==> UidOf(deployments[w.key].controller) == Some(w.uid))
              && w.spec.ports != [] && w.key in services && UidOf(services[w.key].controller) != Some(w.uid)
    {
      if w.key in deployments && !Controls(w.uid, deployments[w.key].controller) {
        return Degrade(DeploymentOwnershipConflict);
      }
      if |w.spec.ports| == 0 {
        return Proceed;
      }
      if w.key in services && !Controls(w.uid, services[w.key].controller) {
        return Degrade(ServiceOwnershipConflict);
      }
      return Proceed;
    }

    method ReconcileDeployment(w: Workload)
      modifies this`deployments
      ensures View() == WriteDeployment(old(View()), w)
      ensures w.key in deployments && Built(StoredDeployment(old(View()), w.key), deployments[w.key], w)
    {
      var stored := if w.key in deployments then deployments[w.key] else EMPTY;
      var deployment := new Deployment.Read(stored);
      deployment.RebuildFor(w.uid, w.key.name, w.spec);
      var written := deployment.Snapshot();
      deployments := deployments[w.key := written];
    }

    method ReconcileService(w: Workload)
      modifies this`services
      ensures View() == WriteService(old(View()), w)
      ensures services - {w.key} == old(services) - {w.key}
      ensures w.spec.ports == [] ==>
                if w.key in old(services) && !Controls(w.uid, old(services)[w.key].controller)
                then w.key in services && services[w.key] == old(services)[w.key] else w.key !in services
      ensures w.spec.ports != [] ==>
                && w.key in services
                && services[w.key].controller == Some(Owner(w.uid, WorkloadOwner, w.key.name))
                && Serves(services[w.key], w)
                && services[w.key].annotations == StoredService(old(View()), w.key).annotations
    {
      if |w.spec.ports| == 0 {
        if w.key in services && Controls(w.uid, services[w.key].controller) {
          services := services - {w.key};
        }
        return;
      }
      var stored := if w.key in services then services[w.key] else NO_SERVICE;
      services := services[w.key := RebuildService(stored, w)];
    }
  }

  lemma FirstMissingSource(x: World, ns: string, s: EnvFromSource, rest: seq<Dependency>)
    ensures FirstMissing(x, ns, SourceNeeds(s) + rest)
         == if s.configMapRef.Some? && Key(ns, s.configMapRef.value) !in x.configMaps then Degrade(ConfigMapNotFound)
            else if s.secretRef.Some? && Key(ns, s.secretRef.value) !in x.secrets then Degrade(SecretNotFound)
            else FirstMissing(x, ns, rest)
  {
    var ds := SourceNeeds(s) + rest;
    if s.configMapRef.Some? {
      assert ds[0] == NeedsConfigMap(s.configMapRef.value);
      if s.secretRef.Some? {
        assert ds[1..][0] == NeedsSecret(s.secretRef.value) && ds[1..][1..] == rest;
      } else {
        assert ds[1..] == rest;
      }
    } else if s.secretRef.Some? {
      assert ds[0] == NeedsSecret(s.secretRef.value) && ds[1..] == rest;
    } else {
      assert ds == rest;
    }
  }

  /** The Service offers the Workload's ports, TCP by default, and selects its pods. */
  ghost predicate Serves(s: ServiceObj, w: Workload) {
    Offers(s.ports, w.spec.ports) && Labelled(s.selector, w.key.name) && Labelled(s.labels, w.key.name)
  }

  /** The Deployment is the Workload's, as its spec describes it. `was` is what was stored before. */
  ghost predicate Built(was: DeploymentObj, d: DeploymentObj, w: Workload) {
    Rebuilt(was, d, w.uid, w.key.name, w.spec)
  }

  /** The Workload's Service, which picks the Deployment's pods and keeps its annotations. */
  ghost predicate Exposed(was: ServiceObj, s: ServiceObj, d: DeploymentObj, w: Workload) {
    && s.controller == Some(Owner(w.uid, WorkloadOwner, w.key.name))
    && Serves(s, w) && Picks(s.selector, d.podLabels) && s.annotations == was.annotations
  }

  // ------------------------------------------------------------------- the gate is exact

  /** This cluster is meant to run the Workload, said without the order of the checks. */
  ghost predicate Placed(x: World, spec: WorkloadSpec) {
    x.self != "" ==>
      && (spec.federationRef == ""
          || (&& spec.federationRef in x.federations
              && var f := x.federations[spec.federationRef];
                 Listed(f, x.self) || (x.self in x.members && Selected(f, x.members[x.self]))))
      && (spec.targetPolicy.Some? ==>
            var p := spec.targetPolicy.value;
            && (p.members != [] ==> x.self in p.members)
            && (p.members == [] && p.memberSelector.Some? ==>
                  && x.self in x.members && AsSelector(p.memberSelector.value).Some?
                  && Matches(AsSelector(p.memberSelector.value).value, x.members[x.self].labels)))
  }

  ghost predicate DependenciesPresent(x: World, ns: string, spec: WorkloadSpec) {
    && (forall s :: s in spec.imagePullSecrets ==> Key(ns, s) in x.secrets)
    && (forall e :: e in spec.envFrom && e.configMapRef.Some? ==> Key(ns, e.configMapRef.value) in x.configMaps)
    && (forall e :: e in spec.envFrom && e.secretRef.Some? ==> Key(ns, e.secretRef.value) in x.secrets)
  }

  lemma {:induction false} NothingMissing(x: World, ns: string, ds: seq<Dependency>)
    ensures FirstMissing(x, ns, ds) == Proceed <==> forall d :: d in ds ==> Present(x, ns, d)
  {
    if ds != [] {
      NothingMissing(x, ns, ds[1..]);
      assert ds == [ds[0]] + ds[1..];
    }
  }

  ghost predicate PullsPresent(x: World, ns: string, spec: WorkloadSpec) {
    forall s :: s in spec.imagePullSecrets ==> Key(ns, s) in x.secrets
  }

  ghost predicate SourcePresent(x: World, ns: string, e: EnvFromSource) {
    && (e.configMapRef.Some? ==> Key(ns, e.configMapRef.value) in x.configMaps)
    && (e.secretRef.Some? ==> Key(ns, e.secretRef.value) in x.secrets)
  }

  ghost predicate SourcesPresent(x: World, ns: string, sources: seq<EnvFromSource>) {
    forall e :: e in sources ==> SourcePresent(x, ns, e)
  }

  predicate NoConfigMap(x: World, ns: string, e: EnvFromSource) {
    e.configMapRef.Some? && Key(ns, e.configMapRef.value) !in x.configMaps
  }

  predicate NoSecret(x: World, ns: string, e: EnvFromSource) {
    e.secretRef.Some? && Key(ns, e.secretRef.value) !in x.secrets
  }

  /** The first source with something missing lacks its ConfigMap. */
  ghost predicate LacksConfigMap(x: World, ns: string, sources: seq<EnvFromSource>) {
    exists i :: 0 <= i < |sources| && SourcesPresent(x, ns, sources[..i]) && NoConfigMap(x, ns, sources[i])
  }

  /** It has its ConfigMap, if it names one, and lacks its Secret. */
  ghost predicate LacksSecret(x: World, ns: string, sources: seq<EnvFromSource>) {
    exists i :: 0 <= i < |sources| && SourcesPresent(x, ns, sources[..i])
      && !NoConfigMap(x, ns, sources[i]) && NoSecret(x, ns, sources[i])
  }

  lemma SourcesTail(x: World, ns: string, sources: seq<EnvFromSource>, i: nat)
    requires i < |sources| - 1
    ensures SourcesPresent(x, ns, sources[..i + 1])
       <==> SourcePresent(x, ns, sources[0]) && SourcesPresent(x, ns, sources[1..][..i])
  {
    assert sources[..i + 1] == [sources[0]] + sources[1..][..i];
  }

  lemma LacksConfigMapTail(x: World, ns: string, sources: seq<EnvFromSource>)
    requires sources != []
    ensures LacksConfigMap(x, ns, sources)
       <==> || NoConfigMap(x, ns, sources[0])
            || (SourcePresent(x, ns, sources[0]) && LacksConfigMap(x, ns, sources[1..]))
  {
    var tail := sources[1..];
    assert SourcesPresent(x, ns, sources[..0]);
    if LacksConfigMap(x, ns, sources) && !NoConfigMap(x, ns, sources[0]) {
      var i :| 0 <= i < |sources| && SourcesPresent(x, ns, sources[..i]) && NoConfigMap(x, ns, sources[i]);
      SourcesTail(x, ns, sources, i - 1);
      assert tail[i - 1] == sources[i];
    }
    if SourcePresent(x, ns, sources[0]) && LacksConfigMap(x, ns, tail) {
      var i :| 0 <= i < |tail| && SourcesPresent(x, ns, tail[..i]) && NoConfigMap(x, ns, tail[i]);
      SourcesTail(x, ns, sources, i);
      assert tail[i] == sources[i + 1];
    }
  }

  lemma LacksSecretTail(x: World, ns: string, sources: seq<EnvFromSource>)
    requires sources != []
    ensures LacksSecret(x, ns, sources)
       <==> || (!NoConfigMap(x, ns, sources[0]) && NoSecret(x, ns, sources[0]))
            || (SourcePresent(x, ns, sources[0]) && LacksSecret(x, ns, sources[1..]))
  {
    var tail := sources[1..];
    assert SourcesPresent(x, ns, sources[..0]);
    if LacksSecret(x, ns, sources) && (NoConfigMap(x, ns, sources[0]) || !NoSecret(x, ns, sources[0])) {
      var i :| 0 <= i < |sources| && SourcesPresent(x, ns, sources[..i])
               && !NoConfigMap(x, ns, sources[i]) && NoSecret(x, ns, sources[i]);
      SourcesTail(x, ns, sources, i - 1);
      assert tail[i - 1] == sources[i];
    }
    if SourcePresent(x, ns, sources[0]) && LacksSecret(x, ns, tail) {
      var i :| 0 <= i < |tail| && SourcesPresent(x, ns, tail[..i])
               && !NoConfigMap(x, ns, tail[i]) && NoSecret(x, ns, tail[i]);
      SourcesTail(x, ns, sources, i);
      assert tail[i] == sources[i + 1];
    }
  }

  lemma {:induction false} SourceReasons(x: World, ns: string, sources: seq<EnvFromSource>)
    ensures var v := FirstMissing(x, ns, EnvFromNeeds(sources));
      && (v == Degrade(ConfigMapNotFound) <==> LacksConfigMap(x, ns, sources))
      && (v == Degrade(SecretNotFound) <==> LacksSecret(x, ns, sources))
  {
    if sources != [] {
      SourceReasons(x, ns, sources[1..]);
      LacksConfigMapTail(x, ns, sources);
      LacksSecretTail(x, ns, sources);
      FirstMissingSource(x, ns, sources[0], EnvFromNeeds(sources[1..]));
    }
  }

  lemma {:induction false} PullsFirst(x: World, ns: string, pulls: seq<string>, rest: seq<Dependency>)
    ensures FirstMissing(x, ns, PullNeeds(pulls) + rest)
         == if forall s :: s in pulls ==> Key(ns, s) in x.secrets then FirstMissing(x, ns, rest)
            else Degrade(SecretNotFound)
  {
    if pulls == [] {
      assert PullNeeds(pulls) + rest == rest;
    } else {
      PullsFirst(x, ns, pulls[1..], rest);
      assert (PullNeeds(pulls) + rest)[1..] == PullNeeds(pulls[1..]) + rest;
      assert pulls == [pulls[0]] + pulls[1..];
    }
  }

  lemma PreflightReasons(x: World, ns: string, spec: WorkloadSpec)
    ensures var v := FirstMissing(x, ns, Needs(spec));
      && (v == Degrade(ConfigMapNotFound) <==> PullsPresent(x, ns, spec) && LacksConfigMap(x, ns, spec.envFrom))
      && (v == Degrade(SecretNotFound) <==> !PullsPresent(x, ns, spec) || LacksSecret(x, ns, spec.envFrom))
  {
    PullsFirst(x, ns, spec.imagePullSecrets, EnvFromNeeds(spec.envFrom));
    SourceReasons(x, ns, spec.envFrom);
  }

  lemma {:induction false} EnvFromNeedsAre(sources: seq<EnvFromSource>, d: Dependency)
    ensures d in EnvFromNeeds(sources) <==> exists s :: s in sources && d in SourceNeeds(s)
  {
    if sources != [] {
      EnvFromNeedsAre(sources[1..], d);
      assert sources == [sources[0]] + sources[1..];
    }
  }

  lemma DependenciesIff(x: World, ns: string, spec: WorkloadSpec)
    ensures FirstMissing(x, ns, Needs(spec)) == Proceed <==> DependenciesPresent(x, ns, spec)
  {
    var ds := Needs(spec);
    NothingMissing(x, ns, ds);
    var pulls := ds[..|spec.imagePullSecrets|];
    assert ds == pulls + EnvFromNeeds(spec.envFrom);
    if FirstMissing(x, ns, ds) == Proceed {
      forall s | s in spec.imagePullSecrets ensures Key(ns, s) in x.secrets {
        var i :| 0 <= i < |spec.imagePullSecrets| && spec.imagePullSecrets[i] == s;
        assert ds[i] == NeedsSecret(s);
        assert Present(x, ns, NeedsSecret(s));
      }
      forall e | e in spec.envFrom
        ensures e.configMapRef.Some? ==> Key(ns, e.configMapRef.value) in x.configMaps
        ensures e.secretRef.Some? ==> Key(ns, e.secretRef.value) in x.secrets
      {
        forall d | d in SourceNeeds(e) ensures Present(x, ns, d) { EnvFromNeedsAre(spec.envFrom, d); }
        if e.configMapRef.Some? { assert Present(x, ns, SourceNeeds(e)[0]); }
        if e.secretRef.Some? { assert Present(x, ns, SourceNeeds(e)[|SourceNeeds(e)| - 1]); }
      }
    }
    if DependenciesPresent(x, ns, spec) {
      forall d | d in ds ensures Present(x, ns, d) {
        if d in pulls {
          var i :| 0 <= i < |pulls| && pulls[i] == d;
          assert spec.imagePullSecrets[i] in spec.imagePullSecrets;
        } else {
          EnvFromNeedsAre(spec.envFrom, d);
        }
      }
    }
  }

  lemma PlacedIff(x: World, spec: WorkloadSpec)
    ensures PlacementVerdict(x, spec) == Proceed <==> Placed(x, spec)
  {
    if x.self != "" {
      assert MembershipVerdict(x, spec) == Proceed
        <==> OwnDecision(FederationOf(x, spec), spec.federationRef != "", x.self, x.members) == Yes;
    }
  }

  /** The placement gate is exact and all-or-nothing: a pass without API errors leaves a Deployment
      controlled by this Workload, with the Service the ports ask for, exactly when the cluster is
      meant to run it, every dependency exists and nobody else owns the objects; in every other
      case no Deployment and no Service changes at all. */
  lemma GateExact(x: World, o: Objects, w: Workload)
    ensures var (o', v) := Pass(x, o, w);
      var open := Placed(x, w.spec) && DependenciesPresent(x, w.key.ns, w.spec)
                  && !DeploymentConflict(o, w) && !ServiceConflict(o, w);
      && (v == Proceed <==> open)
      && (open ==>
            && w.key in o'.deployments && Built(StoredDeployment(o, w.key), o'.deployments[w.key], w)
            && o'.deployments - {w.key} == o.deployments - {w.key}
            && o'.services - {w.key} == o.services - {w.key}
            && (w.spec.ports != [] ==>
                  w.key in o'.services
                  && Exposed(StoredService(o, w.key), o'.services[w.key], o'.deployments[w.key], w))
            && (w.spec.ports == [] ==> (w.key in o'.services <==>
                  w.key in o.services && !Controls(w.uid, o.services[w.key].controller))))
      && (!open ==> o' == o)
  {
    PlacedIff(x, w.spec);
    DependenciesIff(x, w.key.ns, w.spec);
    RebuiltIs(StoredDeployment(o, w.key), w.uid, w.key.name, w.spec);
    if Gate(x, o, w) == Proceed { PassWrites(x, o, w); }
  }

  lemma PassWrites(x: World, o: Objects, w: Workload)
    requires Gate(x, o, w) == Proceed
    ensures var o' := Pass(x, o, w).0;
      && w.key in o'.deployments
      && o'.deployments[w.key] == Rebuild(StoredDeployment(o, w.key), w.uid, w.key.name, w.spec)
      && (w.spec.ports != [] ==>
            w.key in o'.services && o'.services[w.key] == RebuildService(StoredService(o, w.key), w))
  {
  }

  /** The Federation check passes. */
  ghost predicate InFederation(x: World, spec: WorkloadSpec) {
    || spec.federationRef == ""
    || (&& spec.federationRef in x.federations
        && var f := x.federations[spec.federationRef];
           Listed(f, x.self) || (x.self in x.members && Selected(f, x.members[x.self])))
  }

  /** The Federation exists and settles the question by its selector. */
  ghost predicate BySelector(x: World, spec: WorkloadSpec) {
    && x.self != "" && spec.federationRef != "" && spec.federationRef in x.federations
    && !Listed(x.federations[spec.federationRef], x.self)
    && x.federations[spec.federationRef].memberSelector.Some?
  }

  /** The target policy settles the question by its selector. */
  ghost predicate ByPolicySelector(x: World, spec: WorkloadSpec) {
    && x.self != "" && InFederation(x, spec) && spec.targetPolicy.Some?
    && spec.targetPolicy.value.members == [] && spec.targetPolicy.value.memberSelector.Some?
  }

  /** The target policy names other members, or its selector picks others. */
  ghost predicate Excluded(x: World, spec: WorkloadSpec) {
    && spec.targetPolicy.Some?
    && var p := spec.targetPolicy.value;
       || (p.members != [] && x.self !in p.members)
       || (&& ByPolicySelector(x, spec) && AsSelector(p.memberSelector.value).Some? && x.self in x.members
           && !Matches(AsSelector(p.memberSelector.value).value, x.members[x.self].labels))
  }

  /** The reason of each verdict on the Federation, exactly. */
  lemma MembershipReasons(x: World, spec: WorkloadSpec)
    requires x.self != ""
    ensures var v := MembershipVerdict(x, spec);
      && (v == Proceed <==> InFederation(x, spec))
      && (v == Degrade(FederationNotFound) <==> spec.federationRef != "" && spec.federationRef !in x.federations)
      && (v == Degrade(ClusterMemberNotFound) <==> BySelector(x, spec) && x.self !in x.members)
      && (v == Degrade(InvalidFederationSelector) <==>
            BySelector(x, spec) && x.self in x.members && InvalidSelector(x.federations[spec.federationRef]))
      && (v == Pend(NotAFederationMember) <==>
            && spec.federationRef != "" && spec.federationRef in x.federations
            && !Listed(x.federations[spec.federationRef], x.self)
            && (BySelector(x, spec) ==>
                  && x.self in x.members && !InvalidSelector(x.federations[spec.federationRef])
                  && !Selected(x.federations[spec.federationRef], x.members[x.self])))
  {
  }

  /** The reason of each verdict on the target policy, exactly. */
  lemma TargetReasons(x: World, spec: WorkloadSpec)
    requires x.self != "" && InFederation(x, spec)
    ensures var v := TargetVerdict(x, spec);
      && (v == Degrade(InvalidTargetPolicy) <==>
            ByPolicySelector(x, spec) && AsSelector(spec.targetPolicy.value.memberSelector.value).None?)
      && (v == Degrade(ClusterMemberNotFound) <==>
            && ByPolicySelector(x, spec) && AsSelector(spec.targetPolicy.value.memberSelector.value).Some?
            && x.self !in x.members)
      && (v == Pend(ExcludedByTargetPolicy) <==> Excluded(x, spec))
  {
  }

  /** The reported reason is that of the first failing check: for each of the ten reasons, exactly
      when it is reported. */
  lemma ReasonIsFirstFailing(x: World, o: Objects, w: Workload)
    ensures var v, spec := Pass(x, o, w).1, w.spec;
      && (v == Degrade(FederationNotFound) <==>
            x.self != "" && spec.federationRef != "" && spec.federationRef !in x.federations)
      && (v == Degrade(InvalidFederationSelector) <==>
            BySelector(x, spec) && x.self in x.members && InvalidSelector(x.federations[spec.federationRef]))
      && (v == Pend(NotAFederationMember) <==>
            && x.self != "" && spec.federationRef != "" && spec.federationRef in x.federations
            && !Listed(x.federations[spec.federationRef], x.self)
            && (BySelector(x, spec) ==>
                  && x.self in x.members && !InvalidSelector(x.federations[spec.federationRef])
                  && !Selected(x.federations[spec.federationRef], x.members[x.self])))
      && (v == Degrade(InvalidTargetPolicy) <==>
            ByPolicySelector(x, spec) && AsSelector(spec.targetPolicy.value.memberSelector.value).None?)
      && (v == Degrade(ClusterMemberNotFound) <==>
            && x.self !in x.members
            && (BySelector(x, spec)
                || (ByPolicySelector(x, spec) && AsSelector(spec.targetPolicy.value.memberSelector.value).Some?)))
      && (v == Pend(ExcludedByTargetPolicy) <==> x.self != "" && InFederation(x, spec) && Excluded(x, spec))
    ensures var v, ns, spec := Pass(x, o, w).1, w.key.ns, w.spec;
      && (v == Degrade(SecretNotFound) <==>
            Placed(x, spec) && (!PullsPresent(x, ns, spec) || LacksSecret(x, ns, spec.envFrom)))
      && (v == Degrade(ConfigMapNotFound) <==>
            Placed(x, spec) && PullsPresent(x, ns, spec) && LacksConfigMap(x, ns, spec.envFrom))
    ensures var v := Pass(x, o, w).1;
      && (v == Degrade(DeploymentOwnershipConflict) <==>
            Placed(x, w.spec) && DependenciesPresent(x, w.key.ns, w.spec) && DeploymentConflict(o, w))
      && (v == Degrade(ServiceOwnershipConflict) <==>
            && Placed(x, w.spec) && DependenciesPresent(x, w.key.ns, w.spec)
            && !DeploymentConflict(o, w) && ServiceConflict(o, w))
  {
    PlacedIff(x, w.spec);
    DependenciesIff(x, w.key.ns, w.spec);
    MissingIsDegrade(x, w.key.ns, Needs(w.spec));
    PreflightReasons(x, w.key.ns, w.spec);
    if x.self != "" {
      MembershipReasons(x, w.spec);
      if InFederation(x, w.spec) { TargetReasons(x, w.spec); }
    }
  }

  lemma {:induction false} MissingIsDegrade(x: World, ns: string, ds: seq<Dependency>)
    ensures FirstMissing(x, ns, ds) in {Proceed, Degrade(SecretNotFound), Degrade(ConfigMapNotFound)}
  {
    if ds != [] { MissingIsDegrade(x, ns, ds[1..]); }
  }
}
