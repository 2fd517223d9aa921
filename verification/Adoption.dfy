/** What the atomicity assumption hides. Passes check ownership on one read and write later. In the
    window between the two the object may be replaced by another one of the same name. Exactly when
    a write then lands on an object that the Workload does not control is proved here. */
module Adoption {
  import opened Types
  import opened EnvNames
  import opened ManagedAnnotation
  import opened Deployments
  import opened Placement
  import opened Cluster
  import opened ClusterSafety
  import opened Ownership
  import SR = ServiceRouting

  // ------------------------------------------------------------------------- what appears

  /** There is an object, and its controller satisfies p. */
  predicate Controlled(s: State, kind: Kind, k: Key, p: Option<Owner> -> bool) {
    ControllerOf(s, kind, k).Some? && p(ControllerOf(s, kind, k).value)
  }

  /** Step i, among the first n, creates such an object where there was none, and it is there from then
      on. */
  ghost predicate AppearsAt(s: State, steps: seq<Step>, n: nat, kind: Kind, k: Key, p: Option<Owner> -> bool, i: nat) {
    && i < n <= |steps|
    && ControllerOf(Run(s, steps[..i]), kind, k).None? && Controlled(Next(Run(s, steps[..i]), steps[i]), kind, k, p)
    && forall j :: i < j <= n ==> ControllerOf(Run(s, steps[..j]), kind, k).Some?
  }

  ghost predicate Appears(s: State, steps: seq<Step>, n: nat, kind: Kind, k: Key, p: Option<Owner> -> bool) {
    exists i: nat :: AppearsAt(s, steps, n, kind, k, p, i)
  }

  lemma AppearsLater(s: State, steps: seq<Step>, n: nat, kind: Kind, k: Key, p: Option<Owner> -> bool, i: nat)
    requires n < |steps|
    ensures AppearsAt(s, steps, n + 1, kind, k, p, i)
       <==> && ControllerOf(Run(s, steps[..n + 1]), kind, k).Some?
            && if i < n then AppearsAt(s, steps, n, kind, k, p, i)
               else i == n && ControllerOf(Run(s, steps[..n]), kind, k).None?
                    && Controlled(Next(Run(s, steps[..n]), steps[n]), kind, k, p)
  {
  }

  lemma AppearsStep(s: State, steps: seq<Step>, n: nat, kind: Kind, k: Key, p: Option<Owner> -> bool)
    requires n < |steps|
    ensures Appears(s, steps, n + 1, kind, k, p)
       <==> && ControllerOf(Run(s, steps[..n + 1]), kind, k).Some?
            && (|| Appears(s, steps, n, kind, k, p)
                || (ControllerOf(Run(s, steps[..n]), kind, k).None?
                    && Controlled(Next(Run(s, steps[..n]), steps[n]), kind, k, p)))
  {
    if Appears(s, steps, n + 1, kind, k, p) {
      var i: nat :| AppearsAt(s, steps, n + 1, kind, k, p, i);
      AppearsLater(s, steps, n, kind, k, p, i);
    }
    if Appears(s, steps, n, kind, k, p) {
      var i: nat :| AppearsAt(s, steps, n, kind, k, p, i);
      AppearsLater(s, steps, n, kind, k, p, i);
    }
    AppearsLater(s, steps, n, kind, k, p, n);
  }

  lemma {:induction false} OwnersMatchEver(s: State, steps: seq<Step>, kind: Kind, k: Key)
    requires Numbered(s) && OwnersMatch(s, kind, k)
    ensures OwnersMatch(Run(s, steps), kind, k)
  {
    if steps != [] {
      var before := steps[..|steps| - 1];
      OwnersMatchEver(s, before, kind, k);
      NumberedEver(s, before);
      ControllersPersist(Run(s, before), steps[|steps| - 1], kind, k);
    }
  }

  /** An object with such a controller is there at the end if and only if it appeared on the way. */
  lemma {:induction false} ControlledIffAppeared(
    s: State, steps: seq<Step>, n: nat, kind: Kind, k: Key, p: Option<Owner> -> bool)
    requires Numbered(s) && OwnersMatch(s, kind, k) && !Controlled(s, kind, k, p) && n <= |steps|
    ensures Controlled(Run(s, steps[..n]), kind, k, p) <==> Appears(s, steps, n, kind, k, p)
  {
    if n > 0 {
      assert steps[..n][..n - 1] == steps[..n - 1];
      ControlledIffAppeared(s, steps, n - 1, kind, k, p);
      NumberedEver(s, steps[..n - 1]);
      OwnersMatchEver(s, steps[..n - 1], kind, k);
      ControllersPersist(Run(s, steps[..n - 1]), steps[n - 1], kind, k);
      AppearsStep(s, steps, n - 1, kind, k, p);
    }
  }

  // --------------------------------------------------------------------- the Workload's writes

  /** SetControllerReference compares group, kind and name of an existing controller, not its UID, and
      refuses objects of another owner. */
  predicate Claimable(c: Option<Owner>, w: Workload) {
    c.Some? ==> c.value.kind == WorkloadOwner && c.value.name == w.key.name
  }

  /** The create-or-update of the Deployment on its own. */
  function ClaimedDeployment(o: Objects, w: Workload): Option<Objects> {
    if w.key in o.deployments && !Claimable(o.deployments[w.key].controller, w) then None
    else Some(WriteDeployment(o, w))
  }

  /** The Service's; without ports the pass deletes, and that has a check of its own. */
  function ClaimedService(o: Objects, w: Workload): Option<Objects> {
    if w.spec.ports != [] && w.key in o.services && !Claimable(o.services[w.key].controller, w) then None
    else Some(WriteService(o, w))
  }

  /** The write goes through although the Workload does not control what it overwrites. */
  predicate AdoptsDeployment(o: Objects, w: Workload) {
    ClaimedDeployment(o, w).Some? && DeploymentConflict(o, w)
  }

  predicate AdoptsService(o: Objects, w: Workload) {
    ClaimedService(o, w).Some? && ServiceConflict(o, w)
  }

  /** No controller, or one called like the Workload with another UID. */
  function Adoptable(w: Workload): Option<Owner> -> bool {
    c => Claimable(c, w) && !Controls(w.uid, c)
  }

  /** The ownership check passed in state s, other steps ran, and then the write comes: it adopts an
      object if and only if one appeared in between without a controller, or with a controller that
      names a Workload of this name with another UID, and is still there. */
  lemma AdoptedExactlyInWindow(s: State, steps: seq<Step>, w: Workload)
    requires Numbered(s) && OwnershipVerdict(s.objects, w) == Proceed
    requires OwnersMatch(s, DeploymentKind, w.key) && OwnersMatch(s, ServiceKind, w.key)
    ensures AdoptsDeployment(Run(s, steps).objects, w)
       <==> Appears(s, steps, |steps|, DeploymentKind, w.key, Adoptable(w))
    ensures AdoptsService(Run(s, steps).objects, w)
       <==> w.spec.ports != [] && Appears(s, steps, |steps|, ServiceKind, w.key, Adoptable(w))
  {
    assert steps[..|steps|] == steps;
    ControlledIffAppeared(s, steps, |steps|, DeploymentKind, w.key, Adoptable(w));
    if w.spec.ports != [] { ControlledIffAppeared(s, steps, |steps|, ServiceKind, w.key, Adoptable(w)); }
  }

  /** With the check next to the write, as the cluster model has it, nothing is adopted, and the two
      writes are the same. */
  lemma NoWindowNoAdoption(s: State, w: Workload)
    requires OwnershipVerdict(s.objects, w) == Proceed
    requires OwnersMatch(s, DeploymentKind, w.key) && OwnersMatch(s, ServiceKind, w.key)
    requires w.key in s.workloadPass && s.workloadPass[w.key].w == w
    ensures ClaimedDeployment(s.objects, w) == Some(WriteDeployment(s.objects, w)) && !AdoptsDeployment(s.objects, w)
    ensures ClaimedService(s.objects, w) == Some(WriteService(s.objects, w)) && !AdoptsService(s.objects, w)
  {
  }

  // --------------------------------------------------------------- the bindings' and endpoints'

  function Lost(uid: Uid): Option<Owner> -> bool {
    c => !Controls(uid, c)
  }

  /** What a binding's create-or-update writes, whatever it finds at t now. If it finds nothing it does
      nothing either: the object it holds carries the version it read, and the API server creates
      no object with a version. */
  ghost function InjectedAt(o: Objects, t: Key, b: string, v: BindingValues): Objects {
    if t in o.deployments then SetDeployment(o, t, Inject(o.deployments[t], b, v)) else o
  }

  /** The binding's check passed in state s. Its injection lands on a Deployment that the Workload it
      checked does not control if and only if such a one appeared in the window and is still there;
      and it records the binding's names on whatever it finds. */
  lemma InjectionLandsElsewhere(s: State, steps: seq<Step>, t: Key, b: string, v: BindingValues)
    requires Numbered(s) && OwnsDeployment(s, t) && OwnersMatch(s, DeploymentKind, t) && DnsName(b)
    ensures var o := Run(s, steps).objects;
      && (t in o.deployments && !Controls(s.workloads[t].uid, o.deployments[t].controller)
          <==> Appears(s, steps, |steps|, DeploymentKind, t, Lost(s.workloads[t].uid)))
      && (t in o.deployments ==> ManagedSet(b) <= Managed(InjectedAt(o, t, b, v).deployments[t].annotations))
  {
    assert steps[..|steps|] == steps;
    ControlledIffAppeared(s, steps, |steps|, DeploymentKind, t, Lost(s.workloads[t].uid));
    ManagedSetValid(b);
    var o := Run(s, steps).objects;
    if t in o.deployments { UpdateDecodes(o.deployments[t].annotations, ManagedSet(b), {}); }
  }

  /** The merge patch from `read` to `wanted` sets annotation a. */
  predicate Sends(read: SR.Annotations, wanted: SR.Annotations, a: string) {
    a in wanted && (a !in read || read[a] != wanted[a])
  }

  predicate Deletes(read: SR.Annotations, wanted: SR.Annotations, a: string) { a in read && a !in wanted }

  /** The patch, applied to the annotations found now. */
  function Patched(found: SR.Annotations, read: SR.Annotations, wanted: SR.Annotations): SR.Annotations {
    map a | a in found.Keys + wanted.Keys
            && (Sends(read, wanted, a) || (a in found && !Deletes(read, wanted, a)))
      :: if Sends(read, wanted, a) then wanted[a] else found[a]
  }

  /** `found` lacks annotation a as the patch sets it, or has it though the patch deletes it. */
  predicate Disagrees(found: SR.Annotations, read: SR.Annotations, wanted: SR.Annotations, a: string) {
    || (Sends(read, wanted, a) && (a !in found || found[a] != wanted[a]))
    || (Deletes(read, wanted, a) && a in found)
  }

  /** Without a window the patch gives what was computed. In general it changes the annotations it
      finds exactly when they disagree with it. */
  lemma PatchedIs(found: SR.Annotations, read: SR.Annotations, wanted: SR.Annotations)
    ensures Patched(read, read, wanted) == wanted
    ensures Patched(found, read, wanted) != found <==> exists a :: Disagrees(found, read, wanted, a)
  {
    var out := Patched(found, read, wanted);
    if exists a :: Disagrees(found, read, wanted, a) {
      var a :| Disagrees(found, read, wanted, a);
      assert if a in found then a !in out || out[a] != found[a] else a in out;
    } else {
      forall a ensures a in out <==> a in found { assert !Disagrees(found, read, wanted, a); }
      forall a | a in out ensures out[a] == found[a] { assert !Disagrees(found, read, wanted, a); }
      assert out == found;
    }
  }

  /** The endpoint's check passed in state s, and it computed the annotations it wants from those it read.
      Its patch changes a Service that the Workload it checked does not control if and only if such
      a one appeared in the window, is still there, and disagrees with the patch. */
  lemma PatchLandsElsewhere(s: State, steps: seq<Step>, t: Key, wanted: SR.Annotations)
    requires Numbered(s) && OwnsService(s, t) && OwnersMatch(s, ServiceKind, t)
    ensures var services, read := Run(s, steps).objects.services, s.objects.services[t].annotations;
      (&& t in services && !Controls(s.workloads[t].uid, services[t].controller)
       && Patched(services[t].annotations, read, wanted) != services[t].annotations)
      <==> && Appears(s, steps, |steps|, ServiceKind, t, Lost(s.workloads[t].uid))
           && t in services && exists a :: Disagrees(services[t].annotations, read, wanted, a)
  {
    assert steps[..|steps|] == steps;
    ControlledIffAppeared(s, steps, |steps|, ServiceKind, t, Lost(s.workloads[t].uid));
    var services := Run(s, steps).objects.services;
    if t in services { PatchedIs(services[t].annotations, s.objects.services[t].annotations, wanted); }
  }
}
