/** The Deployment object and the three closures that edit it: the Workload reconciler's
    rebuild, and the DatastoreBinding reconciler's injection and withdrawal. */
module Deployments {
  import opened Types
  import opened Api
  import opened EnvList
  import opened EnvNames
  import opened ManagedAnnotation

  const APP := "app"

  datatype Container = Container(
    name: string, image: string, ports: seq<ContainerPort>, env: seq<EnvVar>, envFrom: seq<EnvFromSource>)

  datatype DeploymentCondition = DeploymentCondition(ctype: string, status: string)

  /** A stored Deployment. `controller` is its controller owner reference. */
  datatype DeploymentObj = DeploymentObj(
    controller: Option<Owner>,
    labels: map<string, string>,
    annotations: Annotations,
    replicas: Option<int>,
    selector: map<string, string>,
    podLabels: map<string, string>,
    serviceAccountName: string,
    imagePullSecrets: seq<string>,
    containers: seq<Container>,
    conditions: seq<DeploymentCondition>)

  const EMPTY := DeploymentObj(None, map[], map[], None, map[], map[], "", [], [], [])

  /** What a binding's pass resolved: where the connection URL lives, and the declared mode. */
  datatype BindingValues = BindingValues(secret: string, secretKey: string, mode: string)

  // ------------------------------------------------------------------ what the closures mean

  function WorkloadLabels(name: string): map<string, string> {
    map["app.kubernetes.io/managed-by" := "polykube-operator", "polykube.dev/workload" := name]
  }

  function Protocol(value: string): string { if value == "" then "TCP" else value }

  function ContainerPorts(ports: seq<ContainerPort>): seq<ContainerPort> {
    seq(|ports|, i requires 0 <= i < |ports| => ports[i].(protocol := Protocol(ports[i].protocol)))
  }

  function SpecEnvVars(env: seq<SpecEnv>): seq<EnvVar> {
    seq(|env|, i requires 0 <= i < |env| => EnvVar(env[i].name, Literal(env[i].value)))
  }

  /** The env list a Workload pass writes: it looks at the first container, whatever its name. */
  function RebuiltEnv(d: DeploymentObj, spec: WorkloadSpec): seq<EnvVar> {
    if d.containers == [] then SpecEnvVars(spec.env)
    else Preserve(SpecEnvVars(spec.env), d.containers[0].env, Managed(d.annotations))
  }

  function OwnerRef(uid: Uid, name: string): Owner { Owner(uid, WorkloadOwner, name) }

  /** reconcileDeployment's closure, run on `EMPTY` when the Deployment does not exist yet. */
  function Rebuild(d: DeploymentObj, owner: Uid, name: string, spec: WorkloadSpec): DeploymentObj {
    d.(controller := Some(OwnerRef(owner, name)),
       labels := WorkloadLabels(name),
       replicas := spec.replicas,
       selector := WorkloadLabels(name),
       podLabels := WorkloadLabels(name),
       serviceAccountName := spec.serviceAccountName,
       imagePullSecrets := spec.imagePullSecrets,
       containers := [Container(APP, spec.image, ContainerPorts(spec.ports), RebuiltEnv(d, spec), spec.envFrom)])
  }

  function FirstEnv(d: DeploymentObj): seq<EnvVar> {
    if d.containers == [] then [] else d.containers[0].env
  }

  /** The first container called "app", or -1. */
  function AppIndex(containers: seq<Container>): (r: int)
    ensures -1 <= r < |containers|
    ensures r >= 0 ==> containers[r].name == APP && forall i :: 0 <= i < r ==> containers[i].name != APP
    ensures r < 0 ==> forall i :: 0 <= i < |containers| ==> containers[i].name != APP
  {
    if containers == [] then -1
    else if containers[0].name == APP then 0
    else
      var r := AppIndex(containers[1..]);
      if r < 0 then -1 else r + 1
  }

  function AppEnv(d: DeploymentObj): seq<EnvVar> {
    var i := AppIndex(d.containers);
    if i < 0 then [] else d.containers[i].env
  }

  function WithAppEnv(containers: seq<Container>, env: seq<EnvVar>): seq<Container> {
    var i := AppIndex(containers);
    if i < 0 then containers else containers[i := containers[i].(env := env)]
  }

  function Injection(binding: string, v: BindingValues): seq<EnvVar> {
    [EnvVar(UrlName(binding), SecretKeyRef(v.secret, v.secretKey)), EnvVar(ModeName(binding), Literal(v.mode))]
    + if binding == PRIMARY then [EnvVar(DATABASE_URL, SecretKeyRef(v.secret, v.secretKey))] else []
  }

  /** injectEnvVars' closure. */
  ghost function Inject(d: DeploymentObj, binding: string, v: BindingValues): DeploymentObj {
    d.(containers := WithAppEnv(d.containers, Merge(AppEnv(d), Injection(binding, v))),
       annotations := Update(d.annotations, ManagedSet(binding), {}))
  }

  /** reconcileBindingDelete's closure. */
  ghost function Withdraw(d: DeploymentObj, binding: string): DeploymentObj {
    d.(containers := WithAppEnv(d.containers, Without(AppEnv(d), ManagedSet(binding))),
       annotations := Update(d.annotations, {}, ManagedSet(binding)))
  }

  predicate Available(d: DeploymentObj) {
    DeploymentCondition("Available", "True") in d.conditions
  }

  /** deploymentAvailable. */
  method DeploymentAvailable(conditions: seq<DeploymentCondition>) returns (available: bool)
    ensures available <==>
              exists i :: 0 <= i < |conditions| && conditions[i].ctype == "Available" && conditions[i].status == "True"
    ensures forall d: DeploymentObj :: d.conditions == conditions ==> available == Available(d)
  {
    for i := 0 to |conditions|
      invariant DeploymentCondition("Available", "True") !in conditions[..i]
    {
      if conditions[i].ctype == "Available" && conditions[i].status == "True" {
        assert conditions[i] == DeploymentCondition("Available", "True");
        return true;
      }
      assert conditions[..i + 1] == conditions[..i] + [conditions[i]];
    }
    assert conditions[..|conditions|] == conditions;
    return false;
  }

  // ----------------------------------------------------------- what a rebuilt object runs

  /** The ports asked for, TCP where no protocol is given. */
  ghost predicate Offers(ports: seq<ContainerPort>, asked: seq<ContainerPort>) {
    && |ports| == |asked|
    && forall i :: 0 <= i < |ports| ==>
         && ports[i].name == asked[i].name && ports[i].port == asked[i].port
         && (asked[i].protocol != "" ==> ports[i].protocol == asked[i].protocol)
         && (asked[i].protocol == "" ==> ports[i].protocol == "TCP")
  }

  /** Every label the selector asks for is there. */
  ghost predicate Picks(selector: map<string, string>, labels: map<string, string>) {
    forall l :: l in selector ==> l in labels && labels[l] == selector[l]
  }

  /** The labels say who manages the object, and for which Workload. */
  ghost predicate Labelled(labels: map<string, string>, name: string) {
    && "app.kubernetes.io/managed-by" in labels && labels["app.kubernetes.io/managed-by"] == "polykube-operator"
    && "polykube.dev/workload" in labels && labels["polykube.dev/workload"] == name
  }

  /** The Deployment runs one container called app, as spec describes it, in pods it selects itself. */
  ghost predicate Runs(d: DeploymentObj, owner: Uid, name: string, spec: WorkloadSpec) {
    && d.controller == Some(Owner(owner, WorkloadOwner, name))
    && |d.containers| == 1 && d.containers[0].name == "app"
    && d.containers[0].image == spec.image && d.containers[0].envFrom == spec.envFrom
    && Offers(d.containers[0].ports, spec.ports)
    && d.replicas == spec.replicas && d.imagePullSecrets == spec.imagePullSecrets
    && d.serviceAccountName == spec.serviceAccountName
    && Picks(d.selector, d.podLabels) && Labelled(d.selector, name) && Labelled(d.labels, name)
  }

  /** The value spec.env gives to a name: that of the last entry, literally. */
  ghost predicate FromSpec(v: Option<EnvValue>, env: seq<SpecEnv>, n: string) {
    match v
    case None => forall i :: 0 <= i < |env| ==> env[i].name != n
    case Some(x) =>
      exists i :: 0 <= i < |env| && env[i].name == n && x == Literal(env[i].value)
        && forall j :: i < j < |env| ==> env[j].name != n
  }

  lemma SpecLookup(env: seq<SpecEnv>, n: string)
    ensures FromSpec(Lookup(SpecEnvVars(env), n), env, n)
  {
    var vars := SpecEnvVars(env);
    assert forall i :: 0 <= i < |env| ==> vars[i].name == env[i].name;
  }

  /** Where a variable of the rebuilt container comes from: a managed name keeps the value it has in the
      first container, every other one has that of spec.env. */
  ghost predicate Sourced(d: DeploymentObj, env: seq<EnvVar>, spec: WorkloadSpec, n: string) {
    if n in Managed(d.annotations) && Has(FirstEnv(d), n) then Lookup(env, n) == Lookup(FirstEnv(d), n)
    else FromSpec(Lookup(env, n), spec.env, n)
  }

  lemma LookupRebuilt(d: DeploymentObj, spec: WorkloadSpec, n: string)
    ensures Sourced(d, RebuiltEnv(d, spec), spec, n)
    ensures Lookup(RebuiltEnv(d, spec), n)
         == if n in Managed(d.annotations) && Has(FirstEnv(d), n) then Lookup(FirstEnv(d), n)
            else Lookup(SpecEnvVars(spec.env), n)
  {
    var managed := Managed(d.annotations);
    SpecLookup(spec.env, n);
    if d.containers != [] && managed != {} {
      MergeLookup(SpecEnvVars(spec.env), Only(FirstEnv(d), managed), n);
      KeepLookup(FirstEnv(d), managed, true, n);
    }
  }

  /** d' is the Deployment as spec describes it, variables included; d is what was there before. */
  ghost predicate Rebuilt(d: DeploymentObj, d': DeploymentObj, owner: Uid, name: string, spec: WorkloadSpec) {
    && Runs(d', owner, name, spec)
    && (forall n :: Sourced(d, d'.containers[0].env, spec, n))
    && d'.annotations == d.annotations && d'.conditions == d.conditions
  }

  /** What a rebuild makes of any Deployment at all. */
  lemma RebuiltIs(d: DeploymentObj, owner: Uid, name: string, spec: WorkloadSpec)
    ensures Rebuilt(d, Rebuild(d, owner, name, spec), owner, name, spec)
  {
    forall n ensures Sourced(d, RebuiltEnv(d, spec), spec, n) { LookupRebuilt(d, spec, n); }
  }

  // -------------------------------------------------- what the bindings' closures leave alone

  /** Only the annotation and the env list of the first container called app differ. */
  ghost predicate OnlyAppEnv(d: DeploymentObj, d': DeploymentObj) {
    && d'.(containers := d.containers, annotations := d.annotations) == d
    && d'.annotations - {MANAGED_KEY} == d.annotations - {MANAGED_KEY}
    && |d'.containers| == |d.containers|
    && forall i :: 0 <= i < |d.containers| ==>
         && d'.containers[i].(env := d.containers[i].env) == d.containers[i]
         && ((d.containers[i].name != "app" || exists j :: 0 <= j < i && d.containers[j].name == "app") ==>
               d'.containers[i] == d.containers[i])
  }

  lemma WithAppEnvOnly(d: DeploymentObj, d': DeploymentObj, env: seq<EnvVar>)
    requires d' == d.(containers := WithAppEnv(d.containers, env), annotations := d'.annotations)
    requires d'.annotations - {MANAGED_KEY} == d.annotations - {MANAGED_KEY}
    ensures OnlyAppEnv(d, d') && AppIndex(d'.containers) == AppIndex(d.containers)
    ensures AppIndex(d.containers) >= 0 ==> AppEnv(d') == env
  {
    var k := AppIndex(d.containers);
    assert forall i :: 0 <= i < |d.containers| ==> d'.containers[i].name == d.containers[i].name;
    forall i | 0 <= i < |d.containers| && i != k
      ensures d'.containers[i] == d.containers[i]
    {
    }
  }

  lemma InjectOnlyAppEnv(d: DeploymentObj, binding: string, v: BindingValues)
    ensures OnlyAppEnv(d, Inject(d, binding, v))
  {
    WithAppEnvOnly(d, Inject(d, binding, v), Merge(AppEnv(d), Injection(binding, v)));
  }

  /** What one deletion means: none of the binding's variables in the app container or the record, every
      other variable and recorded name as before, and nothing else touched. */
  lemma WithdrawnEnvironment(d: DeploymentObj, binding: string, n: string)
    ensures var d' := Withdraw(d, binding);
      && OnlyAppEnv(d, d')
      && Lookup(AppEnv(d'), n) == (if n in ManagedSet(binding) then None else Lookup(AppEnv(d), n))
      && (n in Managed(d'.annotations) <==> n in Managed(d.annotations) && n !in ManagedSet(binding))
  {
    WithAppEnvOnly(d, Withdraw(d, binding), Without(AppEnv(d), ManagedSet(binding)));
    KeepLookup(AppEnv(d), ManagedSet(binding), false, n);
    UpdateDecodes(d.annotations, {}, ManagedSet(binding));
  }

  lemma InjectionNames(binding: string, v: BindingValues)
    ensures NamesOf(Injection(binding, v)) == ManagedSet(binding)
    ensures forall n :: n in ManagedSet(binding) <==> Has(Injection(binding, v), n)
  {
    ManagedSetIs(binding);
    var inj := Injection(binding, v);
    assert inj[0].name == UrlName(binding) && inj[1].name == ModeName(binding);
    assert inj[0] in inj && inj[1] in inj && (binding == PRIMARY ==> inj[2] in inj);
    forall n ensures n in ManagedSet(binding) <==> Has(inj, n) { HasIsMember(inj, n); }
  }

  lemma ManagedSetValid(binding: string)
    requires DnsName(binding)
    ensures forall n :: n in ManagedSet(binding) ==> ValidName(n)
  {
    forall n | n in ManagedSet(binding) ensures ValidName(n) {
      GeneratedNamesClean(binding, n);
      assert forall i :: 0 <= i < |n| ==> n[i] != ',' && !IsSpace(n[i]);
      assert TrimLeft(n) == n && TrimRight(n) == n;
    }
  }

  // ---------------------------------------------------------------------- the object itself

  /** A Deployment in memory, edited field by field between a read and a write. */
  class Deployment {
    var controller: Option<Owner>
    var labels: map<string, string>
    var annotations: Annotations
    var replicas: Option<int>
    var selector: map<string, string>
    var podLabels: map<string, string>
    var serviceAccountName: string
    var imagePullSecrets: seq<string>
    var containers: seq<Container>
    var conditions: seq<DeploymentCondition>

    ghost function Obj(): DeploymentObj
      reads this
    {
      DeploymentObj(controller, labels, annotations, replicas, selector, podLabels,
                    serviceAccountName, imagePullSecrets, containers, conditions)
    }

    constructor Read(d: DeploymentObj)
      ensures Obj() == d
    {
      controller, labels, annotations := d.controller, d.labels, d.annotations;
      replicas, selector, podLabels := d.replicas, d.selector, d.podLabels;
      serviceAccountName, imagePullSecrets := d.serviceAccountName, d.imagePullSecrets;
      containers, conditions := d.containers, d.conditions;
    }

    method Snapshot() returns (d: DeploymentObj)
      ensures d == Obj()
    {
      d := DeploymentObj(controller, labels, annotations, replicas, selector, podLabels,
                         serviceAccountName, imagePullSecrets, containers, conditions);
    }

    /** The spec's variables, with what bindings put into the first container. */
    method DesiredEnv(spec: WorkloadSpec) returns (env: seq<EnvVar>)
      ensures env == RebuiltEnv(Obj(), spec)
    {
      env := SpecEnvVars(spec.env);
      if |containers| > 0 {
        var managed := DecodeManaged(annotations);
        env := PreserveDatastoreManagedEnvVars(env, containers[0].env, managed);
      }
    }

    method RebuildFor(owner: Uid, name: string, spec: WorkloadSpec)
      modifies this
      ensures Obj() == Rebuild(old(Obj()), owner, name, spec)
      ensures Rebuilt(old(Obj()), Obj(), owner, name, spec)
    {
      ghost var was := Obj();
      var env := DesiredEnv(spec);
      controller := Some(OwnerRef(owner, name));
      labels := WorkloadLabels(name);
      replicas := spec.replicas;
      selector := WorkloadLabels(name);
      podLabels := WorkloadLabels(name);
      serviceAccountName := spec.serviceAccountName;
      imagePullSecrets := spec.imagePullSecrets;
      containers := [Container(APP, spec.image, ContainerPorts(spec.ports), env, spec.envFrom)];
      assert Obj() == Rebuild(was, owner, name, spec);
      RebuiltIs(was, owner, name, spec);
    }

    /** updateDatastoreManagedEnvVars. */
    method UpdateDatastoreManagedEnvVars(addNames: seq<string>, removeNames: seq<string>)
      modifies this`annotations
      ensures annotations == Update(old(annotations), ToSet(addNames), ToSet(removeNames))
    {
      var managed := DecodeManaged(annotations);
      ghost var was := managed;
      for i := 0 to |removeNames|
        invariant managed == was - ToSet(removeNames[..i])
      {
        assert removeNames[..i + 1] == removeNames[..i] + [removeNames[i]];
        managed := managed - {removeNames[i]};
      }
      assert removeNames[..|removeNames|] == removeNames;
      ghost var kept := managed;
      for i := 0 to |addNames|
        invariant managed == kept + ToSet(addNames[..i])
      {
        assert addNames[..i + 1] == addNames[..i] + [addNames[i]];
        managed := managed + {addNames[i]};
      }
      assert addNames[..|addNames|] == addNames;
      if managed == {} {
        annotations := annotations - {MANAGED_KEY};
        return;
      }
      var value := EncodeManaged(managed);
      annotations := annotations[MANAGED_KEY := value];
    }

    method FindApp() returns (i: nat)
      ensures i == if AppIndex(containers) < 0 then |containers| else AppIndex(containers)
    {
      i := 0;
      while i < |containers| && containers[i].name != APP
        invariant i <= |containers| && forall k :: 0 <= k < i ==> containers[k].name != APP
      {
        i := i + 1;
      }
    }

    method InjectEnvVars(binding: string, v: BindingValues)
      modifies this
      ensures Obj() == Inject(old(Obj()), binding, v)
      ensures OnlyAppEnv(old(Obj()), Obj())
    {
      InjectOnlyAppEnv(Obj(), binding, v);
      var i := FindApp();
      if i < |containers| {
        var env := MergeEnvVars(containers[i].env, Injection(binding, v));
        containers := containers[i := containers[i].(env := env)];
      }
      assert ToSet<string>([]) == {};
      UpdateDatastoreManagedEnvVars(ManagedNames(binding), []);
    }

    method WithdrawEnvVars(binding: string)
      modifies this
      ensures Obj() == Withdraw(old(Obj()), binding)
      ensures OnlyAppEnv(old(Obj()), Obj())
      ensures forall n :: n in ManagedSet(binding) ==> !Has(AppEnv(Obj()), n) && n !in Managed(annotations)
      ensures forall n :: n !in ManagedSet(binding) ==> Lookup(AppEnv(Obj()), n) == old(Lookup(AppEnv(Obj()), n))
    {
      forall n { WithdrawnEnvironment(Obj(), binding, n); }
      var names := ManagedNames(binding);
      var keysToRemove := ToSet(names);
      var i := FindApp();
      if i < |containers| {
        var env := containers[i].env;
        var buf := new EnvVar[|env|](k requires 0 <= k < |env| => env[k]);
        assert buf[..|env|] == env;
        var kept := RemoveEnvVars(buf, |env|, keysToRemove);
        containers := containers[i := containers[i].(env := buf[..kept])];
      }
      assert ToSet<string>([]) == {};
      UpdateDatastoreManagedEnvVars([], names);
    }
  }
}
