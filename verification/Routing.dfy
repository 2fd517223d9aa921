/** Active/passive routing over many clusters. The clusters never talk to each other: each receives
    versions of the ServiceEndpoint at its own pace and runs its own passes. */
module Routing {
  import opened Types
  import opened Api
  import opened Placement
  import opened Finalizers
  import opened Cluster
  import opened ClusterSafety
  import opened Ownership
  import SR = ServiceRouting

  // --------------------------------------------------------------------- within one cluster

  /** The step is a successful annotation of the Service at t. */
  predicate AppliesTo(s: State, step: Step, t: Key) {
    step.AnnotateService? && CanAnnotate(s, step.k) && Target(step.k, s.endpoints.passes[step.k].obj) == t
  }

  /** The endpoint version last applied to the Service at t. */
  ghost function LastApplied(s: State, steps: seq<Step>, t: Key): Option<EndpointSpec> {
    if steps == [] then None
    else
      var before, last := steps[..|steps| - 1], steps[|steps| - 1];
      if AppliesTo(Run(s, before), last, t) then Some(Run(s, before).endpoints.passes[last.k].obj.spec)
      else LastApplied(s, before, t)
  }

  /** A version names a cluster when it wants that cluster's backends shared. */
  predicate Names(v: EndpointSpec, self: string) {
    v.routingMode.ActiveActive? || v.primaryMemberRef == self
  }

  /** What stands in the shared annotation is what the last applied version asks for. */
  ghost predicate Follows(s: State, t: Key, v: Option<EndpointSpec>) {
    OwnsService(s, t) && SR.SHARED in s.objects.services[t].annotations ==>
      && v.Some?
      && s.objects.services[t].annotations[SR.SHARED] == if Names(v.value, s.world.self) then "true" else "false"
  }

  lemma OwnedBefore(s: State, step: Step, t: Key)
    requires Numbered(s) && OwnsService(Next(s, step), t)
    requires At(Next(s, step).objects.services, t) == At(s.objects.services, t)
    ensures OwnsService(s, t)
  {
    WorkloadsAfter(s, step, t);
  }

  lemma PutServiceFollows(s: State, k: Key, svc: ServiceObj, t: Key, v: Option<EndpointSpec>)
    requires Numbered(s) && Follows(s, t, v)
    ensures Follows(PutServiceAt(s, k, svc), t, v)
  {
  }

  lemma ApplyServiceFollows(s: State, k: Key, t: Key, v: Option<EndpointSpec>)
    requires Numbered(s) && Follows(s, t, v)
    ensures Follows(AppliedService(s, k), t, v)
  {
  }

  lemma FollowsStep(s: State, step: Step, t: Key, v: Option<EndpointSpec>)
    requires Numbered(s) && Follows(s, t, v) && !AppliesTo(s, step, t)
    ensures Follows(Next(s, step), t, v)
  {
    if step.PutService? {
      PutServiceFollows(s, step.k, step.svc, t, v);
    } else if step.ApplyService? {
      ApplyServiceFollows(s, step.k, t, v);
    } else if step.AnnotateService? && At(Annotated(s, step.k).objects.services, t) != At(s.objects.services, t) {
      AnnotatedOwns(s, step.k, t);
    } else if step.CleanService? && At(Cleaned(s, step.k).objects.services, t) != At(s.objects.services, t) {
      CleanedOwns(s, step.k, t);
    } else {
      UntouchedFollows(s, step, t, v);
    }
  }

  lemma UntouchedFollows(s: State, step: Step, t: Key, v: Option<EndpointSpec>)
    requires Numbered(s) && Follows(s, t, v)
    requires step.DropService? || At(Next(s, step).objects.services, t) == At(s.objects.services, t)
    ensures Follows(Next(s, step), t, v)
  {
    SelfStays(s, step);
    if OwnsService(Next(s, step), t) { OwnedBefore(s, step, t); }
  }

  lemma SelfStays(s: State, step: Step)
    ensures Next(s, step).world.self == s.world.self
  {
  }

  lemma FollowsNext(s: State, step: Step, t: Key, v: Option<EndpointSpec>)
    requires Numbered(s) && Follows(s, t, v)
    ensures Follows(Next(s, step), t, if AppliesTo(s, step, t) then Some(s.endpoints.passes[step.k].obj.spec) else v)
    ensures Next(s, step).world.self == s.world.self
  {
    SelfStays(s, step);
    if !AppliesTo(s, step, t) { FollowsStep(s, step, t, v); }
  }

  lemma {:induction false} FollowsAlways(s: State, steps: seq<Step>, t: Key)
    requires Initial(s)
    ensures Follows(Run(s, steps), t, LastApplied(s, steps, t)) && Run(s, steps).world.self == s.world.self
  {
    if steps != [] {
      var before, last := steps[..|steps| - 1], steps[|steps| - 1];
      FollowsAlways(s, before, t);
      NumberedEver(s, before);
      FollowsNext(Run(s, before), last, t, LastApplied(s, before, t));
    }
  }

  // -------------------------------------------------------------------------- reports

  /** The version of endpoint e whose pass completed last, unless it has since been reported
      degraded or deleted. */
  ghost function LastCompleted(s: State, steps: seq<Step>, e: Key): Option<EndpointSpec> {
    if steps == [] then None
    else
      var before, last := steps[..|steps| - 1], steps[|steps| - 1];
      var mid := Run(s, before);
      if last == ReportEndpoint(e) && Reporting(mid.endpoints, e) && Fresh(mid.endpoints, e) then
        Some(mid.endpoints.passes[e].obj.spec)
      else if last == AnnotateService(e) && Applying(mid.endpoints, e) && Fresh(mid.endpoints, e)
        && !CanAnnotate(mid, e) then None
      else if last.OnEndpoint? && (e !in mid.endpoints.stored || e !in Run(s, steps).endpoints.stored) then None
      else LastCompleted(s, before, e)
  }

  /** The reported active member is that of the last completed version, and empty otherwise. */
  ghost predicate ReportFollows(s: State, e: Key, v: Option<EndpointSpec>) {
    match v
    case Some(spec) => e in s.reported && s.reported[e] == SR.ActiveMember(spec)
    case None => e in s.reported ==> s.reported[e] == ""
  }

  lemma OtherStepsLeaveReports(s: State, step: Step, e: Key)
    requires step != ReportEndpoint(e) && step != AnnotateService(e) && !step.OnEndpoint?
    ensures At(Next(s, step).reported, e) == At(s.reported, e)
  {
  }

  lemma {:induction false} ReportAlways(s: State, steps: seq<Step>, e: Key)
    requires Initial(s)
    ensures ReportFollows(Run(s, steps), e, LastCompleted(s, steps, e))
  {
    if steps != [] {
      var before, last := steps[..|steps| - 1], steps[|steps| - 1];
      ReportAlways(s, before, e);
      var mid := Run(s, before);
      if last != ReportEndpoint(e) && last != AnnotateService(e) && !last.OnEndpoint? {
        OtherStepsLeaveReports(mid, last, e);
      }
    }
  }

  // ---------------------------------------------------------------------------- the fleet

  /** One member cluster's history. */
  datatype History = History(start: State, steps: seq<Step>) {
    ghost function End(): State { Run(start, steps) }
  }

  /** The clusters by member name; a map, so names are distinct. */
  type Fleet = map<string, History>

  ghost predicate Valid(f: Fleet) {
    forall m :: m in f ==> m != "" && Initial(f[m].start) && f[m].start.world.self == m
  }

  ghost predicate SharedOn(f: Fleet, m: string, t: Key)
    requires m in f
  {
    OwnsService(f[m].End(), t) && SR.Shared(f[m].End().objects.services[t].annotations)
  }

  ghost function AppliedOn(f: Fleet, m: string, t: Key): Option<EndpointSpec>
    requires m in f
  {
    LastApplied(f[m].start, f[m].steps, t)
  }

  /** A cluster shares its backends only if the version it last applied names it. */
  lemma SharedOnlyIfNamed(f: Fleet, m: string, t: Key)
    requires Valid(f) && m in f && SharedOn(f, m, t)
    ensures AppliedOn(f, m, t).Some? && Names(AppliedOn(f, m, t).value, m)
  {
    FollowsAlways(f[m].start, f[m].steps, t);
  }

  // --------------------------------------------------------------------- while switching

  predicate PrimaryIn(v: EndpointSpec, ps: set<string>) {
    v.routingMode.ActivePassive? && v.primaryMemberRef in ps
  }

  /** The step delivers a version of an endpoint that points at t. */
  predicate DeliversTo(l: Ledger<EndpointSpec>, op: LedgerOp<EndpointSpec>, t: Key) {
    op.PutObject? && Resolve(op.k, if op.k in l.stored then l.stored[op.k].workloadRef else op.ref) == t
  }

  ghost predicate DeliveryAmong(s: State, step: Step, t: Key, ps: set<string>) {
    step.OnEndpoint? && DeliversTo(s.endpoints, step.eop, t) ==> PrimaryIn(step.eop.spec, ps)
  }

  /** Every version this cluster received for t from step `from` on was ActivePassive, with a primary
      among ps. */
  ghost predicate PrimariesAmong(h: History, from: nat, t: Key, ps: set<string>) {
    && from <= |h.steps|
    && forall i :: from <= i < |h.steps| ==> DeliveryAmong(Run(h.start, h.steps[..i]), h.steps[i], t, ps)
  }

  ghost predicate LedgerAmong(l: Ledger<EndpointSpec>, t: Key, ps: set<string>) {
    && (forall k :: k in l.stored && Target(k, l.stored[k]) == t ==> PrimaryIn(l.stored[k].spec, ps))
    && (forall k :: k in l.passes && Target(k, l.passes[k].obj) == t ==> PrimaryIn(l.passes[k].obj.spec, ps))
  }

  lemma PerformAmong(l: Ledger<EndpointSpec>, op: LedgerOp<EndpointSpec>, next: nat, t: Key, ps: set<string>)
    requires LedgerAmong(l, t, ps) && (DeliversTo(l, op, t) ==> PrimaryIn(op.spec, ps))
    ensures LedgerAmong(Perform(l, op, next), t, ps)
  {
  }

  lemma AmongStep(s: State, step: Step, t: Key, ps: set<string>)
    requires LedgerAmong(s.endpoints, t, ps)
    requires DeliveryAmong(s, step, t, ps)
    ensures LedgerAmong(Next(s, step).endpoints, t, ps)
  {
    if step.OnEndpoint? {
      PerformAmong(s.endpoints, step.eop, s.next, t, ps);
    } else {
      var l := Next(s, step).endpoints;
      OtherStepsLeaveStored(s, step);
      forall k | k in l.passes && Target(k, l.passes[k].obj) == t ensures PrimaryIn(l.passes[k].obj.spec, ps) {
        OtherStepsLeavePasses(s, step, k);
      }
    }
  }

  lemma OtherStepsLeaveStored(s: State, step: Step)
    requires !step.OnEndpoint?
    ensures Next(s, step).endpoints.stored == s.endpoints.stored
  {
  }

  lemma OtherStepsLeavePasses(s: State, step: Step, k: Key)
    requires !step.OnEndpoint? && k in Next(s, step).endpoints.passes
    ensures k in s.endpoints.passes && Next(s, step).endpoints.passes[k].obj == s.endpoints.passes[k].obj
  {
  }

  /** After n steps the versions in play for t name primaries among ps: those stored, those being
      worked on, and the one applied last. */
  ghost predicate InPlayAmong(h: History, n: nat, t: Key, ps: set<string>) {
    && n <= |h.steps|
    && LedgerAmong(Run(h.start, h.steps[..n]).endpoints, t, ps)
    && var v := LastApplied(h.start, h.steps[..n], t); v.Some? ==> PrimaryIn(v.value, ps)
  }

  lemma InPlayStep(h: History, from: nat, n: nat, t: Key, ps: set<string>)
    requires InPlayAmong(h, n, t, ps) && PrimariesAmong(h, from, t, ps) && from <= n < |h.steps|
    ensures InPlayAmong(h, n + 1, t, ps)
  {
    assert h.steps[..n + 1][..n] == h.steps[..n];
    assert DeliveryAmong(Run(h.start, h.steps[..n]), h.steps[n], t, ps);
    AmongStep(Run(h.start, h.steps[..n]), h.steps[n], t, ps);
  }

  lemma {:induction false} InPlayAlways(h: History, from: nat, n: nat, t: Key, ps: set<string>)
    requires InPlayAmong(h, from, t, ps) && PrimariesAmong(h, from, t, ps) && from <= n <= |h.steps|
    ensures InPlayAmong(h, n, t, ps)
    decreases n
  {
    if from < n {
      InPlayAlways(h, from, n - 1, t, ps);
      InPlayStep(h, from, n - 1, t, ps);
    } else {
      assert from == n;
    }
  }

  /** During a switch the sharing clusters are among the primaries in play, whatever the delivery
      lag: once the versions in play name only p and q, and as long as new ones do, no third cluster
      shares. The switch may begin at any point of the history; at its start nothing is in play. */
  lemma OnlyPrimariesShare(f: Fleet, m: string, from: nat, t: Key, ps: set<string>)
    requires Valid(f) && m in f && InPlayAmong(f[m], from, t, ps) && PrimariesAmong(f[m], from, t, ps)
    ensures SharedOn(f, m, t) ==> m in ps
  {
    var h := f[m];
    InPlayAlways(h, from, |h.steps|, t, ps);
    assert h.steps[..|h.steps|] == h.steps;
    if SharedOn(f, m, t) { SharedOnlyIfNamed(f, m, t); }
  }

  lemma NothingInPlayAtFirst(h: History, t: Key, ps: set<string>)
    requires Initial(h.start)
    ensures InPlayAmong(h, 0, t, ps)
  {
  }

  // ------------------------------------------------------------------------- convergence

  /** Cluster m's last completed pass for endpoint e, and its last change to the Service at t, were
      for version v, and nobody has taken the Service or its annotation away since. */
  ghost predicate SettledOn(f: Fleet, m: string, e: Key, t: Key, v: EndpointSpec)
    requires m in f
  {
    var h := f[m];
    && LastCompleted(h.start, h.steps, e) == Some(v) && LastApplied(h.start, h.steps, t) == Some(v)
    && OwnsService(h.End(), t) && SR.SHARED in h.End().objects.services[t].annotations
  }

  /** A pass that gets through leaves its cluster settled. */
  lemma CompletedPassSettles(h: History, e: Key)
    requires Initial(h.start) && CanAnnotate(h.End(), e) && Fresh(h.End().endpoints, e)
    ensures
      var o := h.End().endpoints.passes[e].obj;
      var all := h.steps + [AnnotateService(e), ReportEndpoint(e)];
      var s := Run(h.start, all);
      && LastCompleted(h.start, all, e) == Some(o.spec) && LastApplied(h.start, all, Target(e, o)) == Some(o.spec)
      && OwnsService(s, Target(e, o)) && SR.SHARED in s.objects.services[Target(e, o)].annotations
  {
    var one := h.steps + [AnnotateService(e)];
    var all := h.steps + [AnnotateService(e), ReportEndpoint(e)];
    assert one[..|h.steps|] == h.steps;
    assert all[..|one|] == one;
    assert Run(h.start, one) == Annotated(h.End(), e);
    assert Run(h.start, all) == Reported(Annotated(h.End(), e), e);
  }

  /** Once every cluster has settled on one ActivePassive version, the sharing clusters are exactly
      the primary, if it is among them, and every cluster reports it as the active member. */
  lemma SettledFleetAgrees(f: Fleet, e: Key, t: Key, v: EndpointSpec)
    requires Valid(f) && v.routingMode.ActivePassive?
    requires forall m :: m in f ==> SettledOn(f, m, e, t, v)
    ensures (set m | m in f && SharedOn(f, m, t)) == (if v.primaryMemberRef in f then {v.primaryMemberRef} else {})
    ensures forall m :: m in f ==> At(f[m].End().reported, e) == Some(v.primaryMemberRef)
  {
    forall m | m in f
      ensures SharedOn(f, m, t) <==> m == v.primaryMemberRef
      ensures At(f[m].End().reported, e) == Some(v.primaryMemberRef)
    {
      FollowsAlways(f[m].start, f[m].steps, t);
      ReportAlways(f[m].start, f[m].steps, e);
    }
  }
}
