/** The protocol between the Workload reconciler, which rebuilds the app container from spec on
    every pass, and the DatastoreBinding reconciler, which edits that container's env list.
    They never talk: the managed-names annotation is all they share. */
module EnvProtocol {
  import opened Types
  import opened Api
  import opened EnvList
  import opened EnvNames
  import opened ManagedAnnotation
  import opened Deployments

  /** One successful write to the shared Deployment. */
  datatype Event = WorkloadPass | BindingPass(binding: string) | BindingDelete(binding: string)

  /** What stays fixed along a schedule: one Workload, and the bindings that reference it with
      the values they inject. A map, so the binding names are distinct. */
  datatype World = World(owner: Uid, name: string, spec: WorkloadSpec, values: map<string, BindingValues>) {
    ghost predicate Valid() {
      forall b :: b in values ==> DnsName(b)
    }

    function SpecEnv(): seq<EnvVar> { SpecEnvVars(spec.env) }

    function Inj(b: string): seq<EnvVar>
      requires b in values
    {
      Injection(b, values[b])
    }

    ghost predicate Allows(e: Event) {
      e.WorkloadPass? || e.binding in values
    }
  }

  ghost function Apply(w: World, d: DeploymentObj, e: Event): DeploymentObj
    requires w.Allows(e)
  {
    match e
    case WorkloadPass => Rebuild(d, w.owner, w.name, w.spec)
    case BindingPass(b) => Inject(d, b, w.values[b])
    case BindingDelete(b) => Withdraw(d, b)
  }

  ghost predicate Schedule(w: World, es: seq<Event>) {
    forall e :: e in es ==> w.Allows(e)
  }

  ghost function Run(w: World, d: DeploymentObj, es: seq<Event>): DeploymentObj
    requires Schedule(w, es)
  {
    if es == [] then d
    else
      assert es[|es| - 1] in es;
      Apply(w, Run(w, d, es[..|es| - 1]), es[|es| - 1])
  }

  // ------------------------------------------------------------------- settled env lists

  /** The lists a Workload pass leaves alone, said without running one: the spec's entries in
      place, of which only the last occurrence of a managed name may differ, then managed
      entries under names the spec does not use. */
  ghost predicate Settled(spec: seq<EnvVar>, env: seq<EnvVar>, managed: set<string>) {
    && |spec| <= |env|
    && (forall i :: 0 <= i < |spec| ==> env[i].name == spec[i].name)
    && (forall i :: 0 <= i < |spec| && env[i] != spec[i] ==>
          LastIndex(spec, spec[i].name) == i && spec[i].name in managed)
    && (forall i :: |spec| <= i < |env| ==> !Has(spec, env[i].name) && env[i].name in managed)
  }

  lemma KeepIn(env: seq<EnvVar>, names: set<string>, inside: bool, v: EnvVar)
    requires v in Keep(env, names, inside)
    ensures v in env && (v.name in names) == inside
  {
    if (env[0].name in names) == inside {
      if v != env[0] { assert v in Keep(env[1..], names, inside); KeepIn(env[1..], names, inside, v); }
    } else {
      KeepIn(env[1..], names, inside, v);
    }
  }

  lemma PreservedHead(spec: seq<EnvVar>, env: seq<EnvVar>, managed: set<string>, i: nat)
    requires i < |spec| && managed != {}
    ensures i < |Preserve(spec, env, managed)| && Preserve(spec, env, managed)[i].name == spec[i].name
    ensures Preserve(spec, env, managed)[i] != spec[i] ==> LastIndex(spec, spec[i].name) == i && spec[i].name in managed
  {
    KeepLookup(env, managed, true, spec[i].name);
    assert Preserve(spec, env, managed)[i] == OverwrittenAt(spec, Only(env, managed), i);
  }

  lemma PreservedTail(spec: seq<EnvVar>, env: seq<EnvVar>, managed: set<string>, i: nat)
    requires managed != {} && |spec| <= i < |Preserve(spec, env, managed)|
    ensures var v := Preserve(spec, env, managed)[i]; !Has(spec, v.name) && v.name in managed
  {
    var tail, v := Without(Only(env, managed), NamesOf(spec)), Preserve(spec, env, managed)[i];
    assert Preserve(spec, env, managed) == Overwritten(spec, Only(env, managed)) + tail;
    assert v == tail[i - |spec|];
    KeepIn(Only(env, managed), NamesOf(spec), false, v);
    KeepIn(env, managed, true, v);
    HasIsMember(spec, v.name);
  }

  lemma PreserveSettles(spec: seq<EnvVar>, env: seq<EnvVar>, managed: set<string>)
    ensures Settled(spec, Preserve(spec, env, managed), managed)
  {
    if managed != {} {
      var out := Preserve(spec, env, managed);
      forall i | 0 <= i < |spec|
        ensures i < |out| && out[i].name == spec[i].name
        ensures out[i] != spec[i] ==> LastIndex(spec, spec[i].name) == i && spec[i].name in managed
      {
        PreservedHead(spec, env, managed, i);
      }
      forall i | |spec| <= i < |out| ensures !Has(spec, out[i].name) && out[i].name in managed {
        PreservedTail(spec, env, managed, i);
      }
      assert |out| == |spec| + |Without(Only(env, managed), NamesOf(spec))|;
    }
  }

  lemma SettledLast(spec: seq<EnvVar>, env: seq<EnvVar>, managed: set<string>, i: nat)
    requires Settled(spec, env, managed) && i < |spec| && LastIndex(spec, spec[i].name) == i
    ensures LastIndex(env, spec[i].name) == i
  {
    LastIndexIs(env, spec[i].name, i);
  }

  lemma TailIsManaged(spec: seq<EnvVar>, env: seq<EnvVar>, managed: set<string>, i: nat)
    requires Settled(spec, env, managed) && |spec| <= i < |env|
    ensures env[i].name in managed
  {
  }

  lemma SettledHead(spec: seq<EnvVar>, env: seq<EnvVar>, managed: set<string>, i: nat)
    requires Settled(spec, env, managed) && i < |spec|
    ensures OverwrittenAt(spec, Only(env, managed), i) == env[i]
  {
    var n := spec[i].name;
    KeepLookup(env, managed, true, n);
    if LastIndex(spec, n) == i { SettledLast(spec, env, managed, i); }
  }

  lemma SettledTail(spec: seq<EnvVar>, env: seq<EnvVar>, managed: set<string>)
    requires Settled(spec, env, managed)
    ensures Without(Only(env, managed), NamesOf(spec)) == env[|spec|..]
  {
    var head, tail := env[..|spec|], env[|spec|..];
    assert env == head + tail;
    forall n | n in NamesOf(tail) ensures n in managed && n !in NamesOf(spec) {
      var v :| v in tail && v.name == n;
      var i :| 0 <= i < |tail| && tail[i] == v;
      assert env[|spec| + i] == v;
      HasIsMember(spec, n);
    }
    forall n | n in NamesOf(head) ensures n in NamesOf(spec) {
      var v :| v in head && v.name == n;
      var i :| 0 <= i < |head| && head[i] == v;
      assert spec[i] in spec;
    }
    KeepAppend(head, tail, managed, true);
    KeepAll(tail, managed, true);
    KeepAppend(Only(head, managed), tail, NamesOf(spec), false);
    KeepNames(head, managed, true);
    KeepNone(Only(head, managed), NamesOf(spec), false);
    KeepAll(tail, NamesOf(spec), false);
  }

  /** Settled lists are exactly the fixed points of a Workload pass. */
  lemma SettledIffFixpoint(spec: seq<EnvVar>, env: seq<EnvVar>, managed: set<string>)
    ensures Settled(spec, env, managed) <==> Preserve(spec, env, managed) == env
  {
    PreserveSettles(spec, env, managed);
    if Settled(spec, env, managed) {
      if managed == {} {
        if |env| > |spec| { TailIsManaged(spec, env, managed, |spec|); }
        assert env == spec;
      } else {
        SettledTail(spec, env, managed);
        forall i | 0 <= i < |spec| ensures OverwrittenAt(spec, Only(env, managed), i) == env[i] {
          SettledHead(spec, env, managed, i);
        }
        assert Overwritten(spec, Only(env, managed)) == env[..|spec|];
      }
    }
  }

  lemma InjectKeepsSettled(
    spec: seq<EnvVar>, env: seq<EnvVar>, managed: set<string>, inj: seq<EnvVar>, names: set<string>)
    requires Settled(spec, env, managed) && NamesOf(inj) <= names
    ensures Settled(spec, Merge(env, inj), managed + names)
  {
    var out := Merge(env, inj);
    var tail := Without(inj, NamesOf(env));
    assert out == Overwritten(env, inj) + tail;
    forall i | 0 <= i < |env| && out[i] != env[i] ensures env[i].name in names && LastIndex(env, env[i].name) == i {
      HasIsMember(inj, env[i].name);
    }
    forall i | 0 <= i < |spec| && out[i] != spec[i]
      ensures LastIndex(spec, spec[i].name) == i && spec[i].name in managed + names
    {
      var n := spec[i].name;
      if out[i] != env[i] {
        assert LastIndex(env, n) == i;
        LastIndexIs(spec, n, i);
      }
    }
    forall i | |spec| <= i < |out| ensures !Has(spec, out[i].name) && out[i].name in managed + names {
      if i < |env| {
        assert out[i].name == env[i].name;
      } else {
        assert out[i] == tail[i - |env|];
        KeepIn(inj, NamesOf(env), false, out[i]);
        HasIsMember(env, out[i].name);
        var n := out[i].name;
        if Has(spec, n) { SettledLast(spec, env, managed, LastIndex(spec, n)); }
      }
    }
  }

  // --------------------------------------------------------------------- no write war

  ghost predicate AppFirst(d: DeploymentObj) {
    d.containers != [] && d.containers[0].name == APP
  }

  /** A Deployment on which a Workload pass has nothing to write. */
  ghost predicate SettledObj(w: World, d: DeploymentObj) {
    Rebuild(d, w.owner, w.name, w.spec) == d
  }

  lemma RebuildSettles(w: World, d: DeploymentObj)
    ensures AppFirst(Rebuild(d, w.owner, w.name, w.spec))
    ensures SettledObj(w, Rebuild(d, w.owner, w.name, w.spec))
  {
    var d' := Rebuild(d, w.owner, w.name, w.spec);
    var managed := Managed(d.annotations);
    if d.containers == [] {
      // The annotation may name variables that this list never held.
      assert AppEnv(d') == w.SpecEnv();
      assert Settled(w.SpecEnv(), w.SpecEnv(), managed);
    } else {
      PreserveSettles(w.SpecEnv(), d.containers[0].env, managed);
    }
    SettledIffFixpoint(w.SpecEnv(), d'.containers[0].env, managed);
  }

  lemma InjectAt(d: DeploymentObj, b: string, v: BindingValues)
    requires AppFirst(d) && DnsName(b)
    ensures var d' := Inject(d, b, v);
      && d'.containers == d.containers[0 := d.containers[0].(env := Merge(d.containers[0].env, Injection(b, v)))]
      && Managed(d'.annotations) == Managed(d.annotations) + ManagedSet(b)
  {
    ManagedSetValid(b);
    UpdateDecodes(d.annotations, ManagedSet(b), {});
    assert Managed(d.annotations) - {} == Managed(d.annotations);
  }

  lemma WithdrawAt(d: DeploymentObj, b: string)
    requires AppFirst(d)
    ensures var d' := Withdraw(d, b);
      && d'.containers == d.containers[0 := d.containers[0].(env := Without(d.containers[0].env, ManagedSet(b)))]
      && Managed(d'.annotations) == Managed(d.annotations) - ManagedSet(b)
  {
    UpdateDecodes(d.annotations, {}, ManagedSet(b));
  }

  lemma InjectKeepsSettledObj(w: World, d: DeploymentObj, b: string)
    requires w.Valid() && b in w.values && SettledObj(w, d)
    ensures SettledObj(w, Inject(d, b, w.values[b]))
  {
    assert d.containers == Rebuild(d, w.owner, w.name, w.spec).containers;
    InjectAt(d, b, w.values[b]);
    InjectionNames(b, w.values[b]);
    var env, managed := d.containers[0].env, Managed(d.annotations);
    SettledIffFixpoint(w.SpecEnv(), env, managed);
    InjectKeepsSettled(w.SpecEnv(), env, managed, w.Inj(b), ManagedSet(b));
    SettledIffFixpoint(w.SpecEnv(), Merge(env, w.Inj(b)), managed + ManagedSet(b));
  }

  ghost predicate NoDeletes(es: seq<Event>) {
    forall e :: e in es ==> !e.BindingDelete?
  }

  /** No write war: once a Workload pass has run, any number of injections and Workload passes
      later a Workload pass still leaves the whole object as it is, order and duplicates of
      the env list included. */
  lemma {:induction false} NoWriteWar(w: World, d: DeploymentObj, es: seq<Event>)
    requires w.Valid() && Schedule(w, es) && NoDeletes(es)
    ensures SettledObj(w, Run(w, Rebuild(d, w.owner, w.name, w.spec), es))
  {
    if es == [] {
      RebuildSettles(w, d);
    } else {
      var before, e := es[..|es| - 1], es[|es| - 1];
      assert e in es;
      NoWriteWar(w, d, before);
      if e.BindingPass? {
        InjectKeepsSettledObj(w, Run(w, Rebuild(d, w.owner, w.name, w.spec), before), e.binding);
      }
    }
  }

  lemma AddTwice(a: Annotations, names: set<string>)
    requires forall n :: n in names ==> ValidName(n)
    ensures Update(Update(a, names, {}), names, {}) == Update(a, names, {})
  {
    UpdateDecodes(a, names, {});
    var managed := Managed(a) - {} + names;
    assert managed - {} + names == managed;
  }

  /** Repeating an injection changes nothing, on any Deployment whatever. */
  lemma RepeatInjectIsNoop(d: DeploymentObj, b: string, v: BindingValues)
    requires DnsName(b)
    ensures Inject(Inject(d, b, v), b, v) == Inject(d, b, v)
  {
    var env, inj := AppEnv(d), Injection(b, v);
    MergeIdempotent(env, inj);
    SetAppEnvTwice(d.containers, Merge(env, inj));
    assert AppIndex(d.containers) >= 0 ==> AppEnv(Inject(d, b, v)) == Merge(env, inj);
    ManagedSetValid(b);
    AddTwice(d.annotations, ManagedSet(b));
  }

  /** Repeating a withdrawal changes nothing either. */
  lemma RepeatWithdrawIsNoop(d: DeploymentObj, b: string)
    ensures Withdraw(Withdraw(d, b), b) == Withdraw(d, b)
  {
    var env := AppEnv(d);
    var kept := Without(env, ManagedSet(b));
    KeepNames(env, ManagedSet(b), false);
    KeepAll(kept, ManagedSet(b), false);
    SetAppEnvTwice(d.containers, kept);
    UpdateDecodes(d.annotations, {}, ManagedSet(b));
    var managed := Managed(d.annotations) - ManagedSet(b) + {};
    assert managed - ManagedSet(b) + {} == managed;
  }

  lemma SetAppEnvTwice(cs: seq<Container>, env: seq<EnvVar>)
    ensures AppIndex(WithAppEnv(cs, env)) == AppIndex(cs)
    ensures WithAppEnv(WithAppEnv(cs, env), env) == WithAppEnv(cs, env)
  {
    var i := AppIndex(cs);
    var out := WithAppEnv(cs, env);
    assert forall k :: 0 <= k < |cs| ==> out[k].name == cs[k].name;
  }

  // ------------------------------------------------------------------------- confluence

  /** The environment every complete schedule must reach: spec.env overridden by the bindings. */
  ghost function Expected(w: World, n: string): Option<EnvValue> {
    if exists b :: b in w.values && n in ManagedSet(b) then
      var b :| b in w.values && n in ManagedSet(b);
      Lookup(w.Inj(b), n)
    else Lookup(w.SpecEnv(), n)
  }

  lemma ExpectedIs(w: World, b: string, n: string)
    requires w.Valid() && b in w.values && n in ManagedSet(b)
    ensures Expected(w, n) == Lookup(w.Inj(b), n) && Expected(w, n).Some?
  {
    forall c | c in w.values && n in ManagedSet(c) ensures c == b {
      if c != b { NamesNeverCollide(b, c); }
    }
    InjectionNames(b, w.values[b]);
  }

  ghost predicate Bound(w: World, n: string) {
    exists b :: b in w.values && n in ManagedSet(b)
  }

  ghost predicate ManagedByWorld(w: World, d: DeploymentObj) {
    forall n :: n in Managed(d.annotations) ==> Bound(w, n)
  }

  /** Every reconciler has run: the Workload's, and each binding's. */
  ghost predicate Complete(w: World, es: seq<Event>) {
    WorkloadPass in es && forall b :: b in w.values ==> BindingPass(b) in es
  }

  ghost predicate Reaches(w: World, d: DeploymentObj) {
    forall n :: Lookup(AppEnv(d), n) == Expected(w, n)
  }

  /** What the Workload pass makes of a managed name, going by the first container. */
  ghost function Kept(w: World, d0: DeploymentObj, n: string): Option<EnvValue> {
    if Has(FirstEnv(d0), n) then Lookup(FirstEnv(d0), n) else Lookup(w.SpecEnv(), n)
  }

  /** A first container that already carries what every binding would inject, directly or by
      way of spec.env. */
  ghost predicate FirstCarriesAll(w: World, d: DeploymentObj) {
    forall n :: Bound(w, n) ==> Kept(w, d, n) == Expected(w, n)
  }

  /** What holds after a prefix of a schedule. Until the first Workload pass an injection may
      have gone to a container the Workload reconciler never looks at. */
  ghost predicate Progress(w: World, d0: DeploymentObj, d: DeploymentObj, es: seq<Event>) {
    && ManagedByWorld(w, d)
    && (forall b, n :: BindingPass(b) in es && n in ManagedSet(b) ==> n in Managed(d.annotations))
    && (AppFirst(d) ==>
          && (forall b, n :: BindingPass(b) in es && n in ManagedSet(b) ==> Lookup(AppEnv(d), n) == Expected(w, n))
          && (WorkloadPass in es ==>
                && SettledObj(w, d)
                && forall n :: !Bound(w, n) ==> Lookup(AppEnv(d), n) == Lookup(w.SpecEnv(), n)))
    && (!AppFirst(d) ==> WorkloadPass !in es && FirstEnv(d) == FirstEnv(d0) && FirstCarriesAll(w, d0))
  }

  lemma ProgressWorkload(w: World, d0: DeploymentObj, d: DeploymentObj, es: seq<Event>)
    requires w.Valid() && Progress(w, d0, d, es)
    requires forall b :: BindingPass(b) in es ==> b in w.values
    ensures Progress(w, d0, Apply(w, d, WorkloadPass), es + [WorkloadPass])
  {
    var d' := Apply(w, d, WorkloadPass);
    RebuildSettles(w, d);
    assert AppEnv(d') == RebuiltEnv(d, w.spec);
    assert AppFirst(d) ==> AppEnv(d) == FirstEnv(d);
    forall b, n | BindingPass(b) in es + [WorkloadPass] && n in ManagedSet(b)
      ensures n in Managed(d'.annotations) && Lookup(AppEnv(d'), n) == Expected(w, n)
    {
      LookupRebuilt(d, w.spec, n);
      ExpectedIs(w, b, n);
      assert Bound(w, n);
    }
    forall n | !Bound(w, n) ensures Lookup(AppEnv(d'), n) == Lookup(w.SpecEnv(), n) { LookupRebuilt(d, w.spec, n); }
  }

  lemma InjectAside(w: World, d: DeploymentObj, b: string)
    requires w.Valid() && b in w.values && !AppFirst(d)
    ensures var d' := Apply(w, d, BindingPass(b));
      !AppFirst(d') && FirstEnv(d') == FirstEnv(d) && Managed(d'.annotations) == Managed(d.annotations) + ManagedSet(b)
  {
    ManagedSetValid(b);
    UpdateDecodes(d.annotations, ManagedSet(b), {});
    SetAppEnvTwice(d.containers, Merge(AppEnv(d), w.Inj(b)));
    assert d.containers != [] ==> AppIndex(d.containers) != 0;
  }

  lemma ProgressBinding(w: World, d0: DeploymentObj, d: DeploymentObj, es: seq<Event>, b: string)
    requires w.Valid() && Progress(w, d0, d, es) && b in w.values
    requires forall c :: BindingPass(c) in es ==> c in w.values
    ensures Progress(w, d0, Apply(w, d, BindingPass(b)), es + [BindingPass(b)])
  {
    var d' := Apply(w, d, BindingPass(b));
    InjectionNames(b, w.values[b]);
    if AppFirst(d) {
      InjectAt(d, b, w.values[b]);
      forall c, n | BindingPass(c) in es + [BindingPass(b)] && n in ManagedSet(c)
        ensures Lookup(AppEnv(d'), n) == Expected(w, n)
      {
        MergeLookup(AppEnv(d), w.Inj(b), n);
        ExpectedIs(w, c, n);
        if c != b { NamesNeverCollide(b, c); }
      }
      forall n | !Bound(w, n) ensures Lookup(AppEnv(d'), n) == Lookup(AppEnv(d), n) {
        MergeLookup(AppEnv(d), w.Inj(b), n);
      }
      if SettledObj(w, d) { InjectKeepsSettledObj(w, d, b); }
    } else {
      InjectAside(w, d, b);
    }
  }

  lemma {:induction false} ProgressAlways(w: World, d0: DeploymentObj, es: seq<Event>)
    requires w.Valid() && Schedule(w, es) && NoDeletes(es) && ManagedByWorld(w, d0)
    requires AppFirst(d0) || FirstCarriesAll(w, d0)
    ensures Progress(w, d0, Run(w, d0, es), es)
  {
    if es != [] {
      var before, e := es[..|es| - 1], es[|es| - 1];
      assert e in es && es == before + [e];
      ProgressAlways(w, d0, before);
      forall b | BindingPass(b) in before ensures b in w.values { assert w.Allows(BindingPass(b)); }
      var d := Run(w, d0, before);
      match e {
        case WorkloadPass => ProgressWorkload(w, d0, d, before);
        case BindingPass(b) => ProgressBinding(w, d0, d, before, b);
      }
    }
  }

  lemma CompleteReaches(w: World, d0: DeploymentObj, es: seq<Event>)
    requires w.Valid() && Schedule(w, es) && NoDeletes(es) && ManagedByWorld(w, d0) && Complete(w, es)
    requires AppFirst(d0) || FirstCarriesAll(w, d0)
    ensures Reaches(w, Run(w, d0, es)) && SettledObj(w, Run(w, d0, es)) && AppFirst(Run(w, d0, es))
  {
    ProgressAlways(w, d0, es);
    var d := Run(w, d0, es);
    forall n ensures Lookup(AppEnv(d), n) == Expected(w, n) {
      if Bound(w, n) {
        var b :| b in w.values && n in ManagedSet(b);
        assert BindingPass(b) in es;
      }
    }
  }

  /** Every binding once, then the Workload: the schedule that exposes a bad start. */
  lemma {:induction false} InjectAllFirst(w: World, d0: DeploymentObj, todo: set<string>) returns (es: seq<Event>)
    requires w.Valid() && todo <= w.values.Keys && !AppFirst(d0)
    ensures Schedule(w, es) && NoDeletes(es)
    ensures forall b :: b in todo ==> BindingPass(b) in es
    ensures var d := Run(w, d0, es);
      && !AppFirst(d) && FirstEnv(d) == FirstEnv(d0)
      && forall b, n :: b in todo && n in ManagedSet(b) ==> n in Managed(d.annotations)
    decreases |todo|
  {
    if todo == {} {
      es := [];
    } else {
      var b :| b in todo;
      var before := InjectAllFirst(w, d0, todo - {b});
      es := before + [BindingPass(b)];
      assert es[..|es| - 1] == before;
      InjectAside(w, Run(w, d0, before), b);
    }
  }

  /** Every complete schedule, in any order and with any repetition, reaches `Expected`. */
  ghost predicate Confluent(w: World, d0: DeploymentObj) {
    forall es :: Schedule(w, es) && NoDeletes(es) && Complete(w, es) ==> Reaches(w, Run(w, d0, es))
  }

  lemma MissedInjection(w: World, d0: DeploymentObj, d: DeploymentObj, n: string)
    requires FirstEnv(d) == FirstEnv(d0) && n in Managed(d.annotations) && Kept(w, d0, n) != Expected(w, n)
    ensures !Reaches(w, Apply(w, d, WorkloadPass))
  {
    LookupRebuilt(d, w.spec, n);
    assert AppEnv(Apply(w, d, WorkloadPass)) == RebuiltEnv(d, w.spec);
    assert Lookup(AppEnv(Apply(w, d, WorkloadPass)), n) != Expected(w, n);
  }

  lemma BadStartDiverges(w: World, d0: DeploymentObj) returns (es: seq<Event>)
    requires w.Valid() && !AppFirst(d0) && !FirstCarriesAll(w, d0)
    ensures Schedule(w, es) && NoDeletes(es) && Complete(w, es) && !Reaches(w, Run(w, d0, es))
  {
    var before := InjectAllFirst(w, d0, w.values.Keys);
    es := before + [WorkloadPass];
    assert es[..|es| - 1] == before;
    var n :| Bound(w, n) && Kept(w, d0, n) != Expected(w, n);
    MissedInjection(w, d0, Run(w, d0, before), n);
  }

  /** Confluence, with its exact condition. Bindings inject into the container called "app", the
      Workload pass preserves from the first container. All complete schedules end in spec.env
      overridden by every binding if and only if the two are the same container at the start, or
      the first container needs no injection. */
  lemma Confluence(w: World, d0: DeploymentObj)
    requires w.Valid() && ManagedByWorld(w, d0)
    ensures Confluent(w, d0) <==> AppFirst(d0) || FirstCarriesAll(w, d0)
  {
    if AppFirst(d0) || FirstCarriesAll(w, d0) {
      forall es | Schedule(w, es) && NoDeletes(es) && Complete(w, es) ensures Reaches(w, Run(w, d0, es)) {
        CompleteReaches(w, d0, es);
      }
    } else {
      var es := BadStartDiverges(w, d0);
    }
  }

  /** A binding whose values are in effect and recorded has nothing to write. */
  lemma InjectNoop(d: DeploymentObj, b: string, v: BindingValues)
    requires AppFirst(d) && DnsName(b) && ManagedSet(b) <= Managed(d.annotations)
    requires forall n :: Has(Injection(b, v), n) ==> Lookup(AppEnv(d), n) == Lookup(Injection(b, v), n)
    requires MANAGED_KEY in d.annotations && Managed(d.annotations) != {}
    requires d.annotations[MANAGED_KEY] == Encode(Managed(d.annotations))
    ensures Inject(d, b, v) == d
  {
    InjectAt(d, b, v);
    MergeNoop(AppEnv(d), Injection(b, v));
    assert Managed(d.annotations) - {} + ManagedSet(b) == Managed(d.annotations);
  }

  /** Quiescence: after a complete schedule no further pass of either reconciler writes anything. */
  lemma Quiescence(w: World, d0: DeploymentObj, es: seq<Event>, e: Event)
    requires w.Valid() && Schedule(w, es) && NoDeletes(es) && ManagedByWorld(w, d0) && Complete(w, es)
    requires AppFirst(d0) || FirstCarriesAll(w, d0)
    requires w.Allows(e) && !e.BindingDelete?
    ensures Apply(w, Run(w, d0, es), e) == Run(w, d0, es)
  {
    CompleteReaches(w, d0, es);
    if e.BindingPass? {
      var b, d := e.binding, Run(w, d0, es);
      ProgressAlways(w, d0, es);
      InjectionNames(b, w.values[b]);
      forall n | Has(w.Inj(b), n) ensures Lookup(AppEnv(d), n) == Lookup(w.Inj(b), n) { ExpectedIs(w, b, n); }
      AnnotationCanonical(w, d0, es, b);
      InjectNoop(d, b, w.values[b]);
    }
  }

  /** Merging values a list already has in effect leaves it alone. */
  lemma MergeNoop(env: seq<EnvVar>, inj: seq<EnvVar>)
    requires forall n :: Has(inj, n) ==> Lookup(env, n) == Lookup(inj, n)
    ensures Merge(env, inj) == env
  {
    forall i | 0 <= i < |env| ensures OverwrittenAt(env, inj, i) == env[i] {
      if Has(inj, env[i].name) { assert Lookup(env, env[i].name) == Lookup(inj, env[i].name); }
    }
    forall n | n in NamesOf(inj) ensures n in NamesOf(env) {
      HasIsMember(inj, n);
      HasIsMember(env, n);
    }
    KeepNone(inj, NamesOf(env), false);
  }

  /** After any binding pass the annotation is in canonical form. */
  lemma {:induction false} AnnotationCanonical(w: World, d0: DeploymentObj, es: seq<Event>, b: string)
    requires w.Valid() && Schedule(w, es) && NoDeletes(es) && BindingPass(b) in es
    ensures var a := Run(w, d0, es).annotations;
      MANAGED_KEY in a && Managed(a) != {} && a[MANAGED_KEY] == Encode(Managed(a))
  {
    var before, e := es[..|es| - 1], es[|es| - 1];
    assert e in es && es == before + [e];
    match e {
      case WorkloadPass => AnnotationCanonical(w, d0, before, b);
      case BindingPass(c) =>
        ManagedSetValid(c);
        ManagedSetIs(c);
        UpdateDecodes(Run(w, d0, before).annotations, ManagedSet(c), {});
        assert UrlName(c) in ManagedSet(c);
    }
  }

  /** Names must differ, not just objects: two bindings called alike in different namespaces undo each
      other, and the order of their passes shows in the environment exactly when they inject
      different values. */
  lemma SameNameBindingsRace(d: DeploymentObj, b: string, v1: BindingValues, v2: BindingValues)
    requires AppIndex(d.containers) >= 0 && DnsName(b)
    ensures (forall n :: Lookup(AppEnv(Inject(Inject(d, b, v1), b, v2)), n)
                      == Lookup(AppEnv(Inject(Inject(d, b, v2), b, v1)), n)) <==> v1 == v2
  {
    InjectedEnvironment(d, b, v1);
    InjectedEnvironment(d, b, v2);
    var last2, last1 := Inject(Inject(d, b, v1), b, v2), Inject(Inject(d, b, v2), b, v1);
    InjectedEnvironment(Inject(d, b, v1), b, v2);
    InjectedEnvironment(Inject(d, b, v2), b, v1);
    if v1 != v2 {
      assert Lookup(AppEnv(last2), UrlName(b)) != Lookup(AppEnv(last1), UrlName(b))
          || Lookup(AppEnv(last2), ModeName(b)) != Lookup(AppEnv(last1), ModeName(b));
    }
  }

  /** What one binding pass means for the app container: the URL comes by reference to the connection
      Secret, the mode as declared, DATABASE_URL for the binding called primary only; every other
      variable keeps its value. */
  lemma InjectedEnvironment(d: DeploymentObj, b: string, v: BindingValues)
    requires DnsName(b) && AppIndex(d.containers) >= 0
    ensures var d' := Inject(d, b, v);
      && Lookup(AppEnv(d'), UrlName(b)) == Some(SecretKeyRef(v.secret, v.secretKey))
      && Lookup(AppEnv(d'), ModeName(b)) == Some(Literal(v.mode))
      && (b == PRIMARY ==> Lookup(AppEnv(d'), DATABASE_URL) == Some(SecretKeyRef(v.secret, v.secretKey)))
      && (forall n :: n !in ManagedSet(b) ==> Lookup(AppEnv(d'), n) == Lookup(AppEnv(d), n))
      && AppIndex(d'.containers) == AppIndex(d.containers)
  {
    var inj := Injection(b, v);
    var d' := Inject(d, b, v);
    SetAppEnvTwice(d.containers, Merge(AppEnv(d), inj));
    assert AppEnv(d') == Merge(AppEnv(d), inj);
    FormsNeverMeet(b, b);
    LastIndexIs(inj, UrlName(b), 0);
    LastIndexIs(inj, ModeName(b), 1);
    if b == PRIMARY { LastIndexIs(inj, DATABASE_URL, 2); }
    MergeLookup(AppEnv(d), inj, UrlName(b));
    MergeLookup(AppEnv(d), inj, ModeName(b));
    MergeLookup(AppEnv(d), inj, DATABASE_URL);
    InjectionNames(b, v);
    forall n | n !in ManagedSet(b) ensures Lookup(AppEnv(d'), n) == Lookup(AppEnv(d), n) {
      MergeLookup(AppEnv(d), inj, n);
    }
  }

  // ---------------------------------------------------- a deleted binding leaves no trace

  /** The schedule as it would have been had binding b never existed. */
  function Drop(es: seq<Event>, b: string): seq<Event> {
    if es == [] then []
    else
      var last := es[|es| - 1];
      if !last.WorkloadPass? && last.binding == b then Drop(es[..|es| - 1], b)
      else Drop(es[..|es| - 1], b) + [last]
  }

  /** The two containers differ at most in the variables that binding b manages. */
  ghost predicate SameContainer(b: string, c: Container, c': Container) {
    c.(env := []) == c'.(env := []) && Without(c.env, ManagedSet(b)) == Without(c'.env, ManagedSet(b))
  }

  /** The two Deployments differ at most in what binding b manages. */
  ghost predicate SameBut(b: string, d: DeploymentObj, e: DeploymentObj) {
    && d.(containers := [], annotations := map[]) == e.(containers := [], annotations := map[])
    && |d.containers| == |e.containers|
    && (forall i :: 0 <= i < |d.containers| ==> SameContainer(b, d.containers[i], e.containers[i]))
    && d.annotations - {MANAGED_KEY} == e.annotations - {MANAGED_KEY}
    && Managed(d.annotations) - ManagedSet(b) == Managed(e.annotations)
  }

  lemma SameApp(b: string, d: DeploymentObj, e: DeploymentObj)
    requires SameBut(b, d, e)
    ensures AppIndex(d.containers) == AppIndex(e.containers)
    ensures Without(AppEnv(d), ManagedSet(b)) == Without(AppEnv(e), ManagedSet(b))
    ensures Without(FirstEnv(d), ManagedSet(b)) == Without(FirstEnv(e), ManagedSet(b))
  {
    var i := AppIndex(d.containers);
    assert forall j :: 0 <= j < |d.containers| ==> SameContainer(b, d.containers[j], e.containers[j])
                                                   && d.containers[j].name == e.containers[j].name;
    if i >= 0 { assert e.containers[i].name == APP; }
  }

  lemma NoTraceRebuild(w: World, b: string, d: DeploymentObj, e: DeploymentObj)
    requires SameBut(b, d, e)
    ensures SameBut(b, Apply(w, d, WorkloadPass), Apply(w, e, WorkloadPass))
  {
    var s, names := w.SpecEnv(), ManagedSet(b);
    var md, me := Managed(d.annotations), Managed(e.annotations);
    var ed, ee := FirstEnv(d), FirstEnv(e);
    SameApp(b, d, e);
    RebuiltByMerge(w, d);
    RebuiltByMerge(w, e);
    WithoutMerge(s, Only(ed, md), names);
    WithoutMerge(s, Only(ee, me), names);
    KeepCommute(ed, md, true, names, false);
    KeepCommute(ee, me, true, names, false);
    KeepNames(ed, names, false);
    KeepCongruent(Without(ed, names), md, true, me, true);
  }

  lemma RebuiltByMerge(w: World, d: DeploymentObj)
    ensures RebuiltEnv(d, w.spec) == Merge(w.SpecEnv(), Only(FirstEnv(d), Managed(d.annotations)))
  {
    if d.containers == [] {
      MergeEmpty(w.SpecEnv());
    } else {
      PreserveByMerge(w.SpecEnv(), FirstEnv(d), Managed(d.annotations));
    }
  }

  lemma PreserveByMerge(s: seq<EnvVar>, env: seq<EnvVar>, managed: set<string>)
    ensures Preserve(s, env, managed) == Merge(s, Only(env, managed))
  {
    if managed == {} {
      KeepNone(env, managed, true);
      MergeEmpty(s);
    }
  }

  /** Replacing the app container's env keeps the containers apart from b's variables the same. */
  lemma NoTraceEnv(b: string, d: DeploymentObj, e: DeploymentObj, envD: seq<EnvVar>, envE: seq<EnvVar>)
    requires SameBut(b, d, e) && Without(envD, ManagedSet(b)) == Without(envE, ManagedSet(b))
    ensures var cs, cs' := WithAppEnv(d.containers, envD), WithAppEnv(e.containers, envE);
      |cs| == |cs'| && forall i :: 0 <= i < |cs| ==> SameContainer(b, cs[i], cs'[i])
  {
    SameApp(b, d, e);
    var cs, cs' := WithAppEnv(d.containers, envD), WithAppEnv(e.containers, envE);
    forall i | 0 <= i < |cs| ensures SameContainer(b, cs[i], cs'[i]) {
      assert SameContainer(b, d.containers[i], e.containers[i]);
    }
  }

  /** An Env list the app container has already. */
  lemma WithSameEnv(cs: seq<Container>, d: DeploymentObj)
    requires d.containers == cs
    ensures WithAppEnv(cs, AppEnv(d)) == cs
  {
  }

  lemma NoTraceOwn(w: World, b: string, d: DeploymentObj, e: DeploymentObj, ev: Event)
    requires w.Valid() && SameBut(b, d, e) && w.Allows(ev) && !ev.WorkloadPass? && ev.binding == b
    ensures SameBut(b, Apply(w, d, ev), e)
  {
    var names, env := ManagedSet(b), AppEnv(d);
    SameApp(b, d, e);
    WithSameEnv(e.containers, e);
    match ev {
      case BindingPass(_) =>
        ManagedSetValid(b);
        UpdateDecodes(d.annotations, names, {});
        InjectionNames(b, w.values[b]);
        WithoutMerge(env, w.Inj(b), names);
        KeepNone(w.Inj(b), names, false);
        MergeEmpty(Without(env, names));
        NoTraceEnv(b, d, e, Merge(env, w.Inj(b)), AppEnv(e));
      case BindingDelete(_) =>
        UpdateDecodes(d.annotations, {}, names);
        KeepNames(env, names, false);
        KeepAll(Without(env, names), names, false);
        NoTraceEnv(b, d, e, Without(env, names), AppEnv(e));
    }
  }

  lemma NoTraceOther(w: World, b: string, d: DeploymentObj, e: DeploymentObj, ev: Event)
    requires w.Valid() && b in w.values && SameBut(b, d, e) && w.Allows(ev) && !ev.WorkloadPass? && ev.binding != b
    ensures SameBut(b, Apply(w, d, ev), Apply(w, e, ev))
  {
    var c, names := ev.binding, ManagedSet(b);
    var ed, ee := AppEnv(d), AppEnv(e);
    SameApp(b, d, e);
    NamesNeverCollide(b, c);
    ManagedSetValid(c);
    match ev {
      case BindingPass(_) =>
        var inj := w.Inj(c);
        UpdateDecodes(d.annotations, ManagedSet(c), {});
        UpdateDecodes(e.annotations, ManagedSet(c), {});
        WithoutMerge(ed, inj, names);
        WithoutMerge(ee, inj, names);
        NoTraceEnv(b, d, e, Merge(ed, inj), Merge(ee, inj));
      case BindingDelete(_) =>
        UpdateDecodes(d.annotations, {}, ManagedSet(c));
        UpdateDecodes(e.annotations, {}, ManagedSet(c));
        KeepCommute(ed, ManagedSet(c), false, names, false);
        KeepCommute(ee, ManagedSet(c), false, names, false);
        NoTraceEnv(b, d, e, Without(ed, ManagedSet(c)), Without(ee, ManagedSet(c)));
    }
  }

  lemma {:induction false} NoTraceAlways(w: World, b: string, d0: DeploymentObj, es: seq<Event>)
    requires w.Valid() && b in w.values && Schedule(w, es) && Managed(d0.annotations) !! ManagedSet(b)
    ensures Schedule(w, Drop(es, b))
    ensures SameBut(b, Run(w, d0, es), Run(w, d0, Drop(es, b)))
  {
    if es == [] {
      assert Managed(d0.annotations) - ManagedSet(b) == Managed(d0.annotations);
    } else {
      var before, ev := es[..|es| - 1], es[|es| - 1];
      assert ev in es;
      NoTraceAlways(w, b, d0, before);
      var d, e := Run(w, d0, before), Run(w, d0, Drop(before, b));
      if ev.WorkloadPass? {
        NoTraceRebuild(w, b, d, e);
      } else if ev.binding == b {
        NoTraceOwn(w, b, d, e, ev);
      } else {
        NoTraceOther(w, b, d, e, ev);
      }
      var dropped := Drop(es, b);
      if ev.WorkloadPass? || ev.binding != b {
        assert dropped == Drop(before, b) + [ev];
        assert dropped[..|dropped| - 1] == Drop(before, b);
      }
    }
  }

  /** Once nothing of b's is managed any more, a Workload pass forgets the difference. */
  lemma RebuildForgets(w: World, b: string, d: DeploymentObj, e: DeploymentObj)
    requires SameBut(b, d, e) && Managed(d.annotations) == Managed(e.annotations)
    ensures Apply(w, d, WorkloadPass).(annotations := map[]) == Apply(w, e, WorkloadPass).(annotations := map[])
  {
    var names, me := ManagedSet(b), Managed(e.annotations);
    var ed, ee := FirstEnv(d), FirstEnv(e);
    SameApp(b, d, e);
    RebuiltByMerge(w, d);
    RebuiltByMerge(w, e);
    // The managed entries of the two lists agree, because none of them is b's.
    assert me !! names;
    KeepCommute(ed, names, false, me, true);
    KeepCommute(ee, names, false, me, true);
    KeepNames(ed, me, true);
    KeepNames(ee, me, true);
    KeepAll(Only(ed, me), names, false);
    KeepAll(Only(ee, me), names, false);
  }

  /** A deleted binding leaves no trace. Take any schedule at all in which binding b takes part, from
      any Deployment on which nothing of b's is managed, then delete b and let the Workload pass run:
      the result is the Deployment the same schedule gives without b, env list and managed set
      included. spec.env may use b's names, and may repeat names. */
  lemma DeletedBindingLeavesNoTrace(w: World, b: string, d0: DeploymentObj, es: seq<Event>)
    requires w.Valid() && b in w.values && Schedule(w, es) && Managed(d0.annotations) !! ManagedSet(b)
    ensures Schedule(w, Drop(es, b))
    ensures
      var gone := Apply(w, Apply(w, Run(w, d0, es), BindingDelete(b)), WorkloadPass);
      var never := Apply(w, Run(w, d0, Drop(es, b)), WorkloadPass);
      && gone.(annotations := map[]) == never.(annotations := map[])
      && Managed(gone.annotations) == Managed(never.annotations)
      && gone.annotations - {MANAGED_KEY} == never.annotations - {MANAGED_KEY}
  {
    NoTraceAlways(w, b, d0, es);
    var d, e := Run(w, d0, es), Run(w, d0, Drop(es, b));
    NoTraceOwn(w, b, d, e, BindingDelete(b));
    UpdateDecodes(d.annotations, {}, ManagedSet(b));
    RebuildForgets(w, b, Apply(w, d, BindingDelete(b)), e);
  }

  /** Exact undo, the simplest instance: inject and delete b on a settled Deployment, run a
      Workload pass, and the identical env list and managed set are back. */
  lemma ExactUndo(w: World, b: string, d: DeploymentObj)
    requires w.Valid() && b in w.values && SettledObj(w, d) && Managed(d.annotations) !! ManagedSet(b)
    ensures var d' := Apply(w, Apply(w, Apply(w, d, BindingPass(b)), BindingDelete(b)), WorkloadPass);
      && d'.(annotations := map[]) == d.(annotations := map[])
      && Managed(d'.annotations) == Managed(d.annotations)
      && d'.annotations - {MANAGED_KEY} == d.annotations - {MANAGED_KEY}
  {
    assert d.containers == Rebuild(d, w.owner, w.name, w.spec).containers;
    var es := [BindingPass(b)];
    assert es[..0] == [];
    assert Run(w, d, es) == Apply(w, d, BindingPass(b));
    assert Drop(es, b) == [];
    DeletedBindingLeavesNoTrace(w, b, d, es);
  }
}
