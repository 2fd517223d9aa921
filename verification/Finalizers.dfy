/** The finalizer protocol that DatastoreBindings and ServiceEndpoints share: the object's finalizer
    is written before its Workload's objects are touched, and removed after they are cleaned up. A
    pass works on the object it read; writes to that object carry its version and fail when it has
    changed since. */
module Finalizers {
  import opened Types

  /** A stored object that references a Workload. The version changes at every write. */
  datatype Stored<S> = Stored(version: nat, workloadRef: Key, spec: S, finalizer: bool, deleting: bool)

  /** What a pass does next, for the object it has read. */
  datatype Phase<S> =
    | ToFinalizer(obj: Stored<S>)
    | ToApply(obj: Stored<S>)
    | ToReport(obj: Stored<S>)
    | ToCleanUp(obj: Stored<S>)
    | ToRelease(obj: Stored<S>)

  /** The stored objects of one kind, and the passes under way. */
  datatype Ledger<S> = Ledger(stored: map<Key, Stored<S>>, passes: map<Key, Phase<S>>)

  /** A reference without a namespace means the referrer's own. */
  function Resolve(from: Key, ref: Key): Key {
    if ref.ns == "" then Key(from.ns, ref.name) else ref
  }

  function Target<S>(k: Key, o: Stored<S>): Key { Resolve(k, o.workloadRef) }

  // ------------------------------------------------------------------------ the pass's steps

  /** Reconcile's first branches. */
  function Begin<S>(o: Stored<S>): Option<Phase<S>> {
    if o.deleting then
      if o.finalizer then Some(ToCleanUp(o)) else None
    else if o.finalizer then Some(ToApply(o)) else Some(ToFinalizer(o))
  }

  function Start<S>(l: Ledger<S>, k: Key): Ledger<S> {
    if k !in l.passes && k in l.stored && Begin(l.stored[k]).Some?
    then l.(passes := l.passes[k := Begin(l.stored[k]).value]) else l
  }

  /** Completion, an API error anywhere, or a restart. */
  function End<S>(l: Ledger<S>, k: Key): Ledger<S> { l.(passes := l.passes - {k}) }

  predicate Fresh<S>(l: Ledger<S>, k: Key) {
    k in l.passes && k in l.stored && l.stored[k].version == l.passes[k].obj.version
  }

  function AddFinalizer<S>(l: Ledger<S>, k: Key, next: nat): Ledger<S> {
    if k in l.passes && l.passes[k].ToFinalizer? then
      if Fresh(l, k) then
        var o := l.passes[k].obj.(finalizer := true, version := next);
        Ledger(l.stored[k := o], l.passes[k := ToApply(o)])
      else End(l, k)
    else l
  }

  predicate Applying<S>(l: Ledger<S>, k: Key) { k in l.passes && l.passes[k].ToApply? }

  predicate Reporting<S>(l: Ledger<S>, k: Key) { k in l.passes && l.passes[k].ToReport? }

  predicate CleaningUp<S>(l: Ledger<S>, k: Key) { k in l.passes && l.passes[k].ToCleanUp? }

  predicate Releasing<S>(l: Ledger<S>, k: Key) { k in l.passes && l.passes[k].ToRelease? }

  /** The Workload's object has been written; the status comes next. */
  function Applied<S>(l: Ledger<S>, k: Key): Ledger<S> {
    if Applying(l, k) then l.(passes := l.passes[k := ToReport(l.passes[k].obj)]) else l
  }

  function CleanedUp<S>(l: Ledger<S>, k: Key): Ledger<S> {
    if CleaningUp(l, k) then l.(passes := l.passes[k := ToRelease(l.passes[k].obj)]) else l
  }

  /** Removing our finalizer lets the object go, unless somebody else's still holds it. */
  function Release<S>(l: Ledger<S>, k: Key, othersHold: bool, next: nat): Ledger<S> {
    if Releasing(l, k) then
      if !Fresh(l, k) then End(l, k)
      else if othersHold then
        Ledger(l.stored[k := l.passes[k].obj.(finalizer := false, version := next)], l.passes - {k})
      else Ledger(l.stored - {k}, l.passes - {k})
    else l
  }

  // ------------------------------------------------------------------------------- user steps

  /** Create or edit. The reference may not be changed after creation. */
  function Put<S>(l: Ledger<S>, k: Key, ref: Key, spec: S, next: nat): Ledger<S> {
    if k !in l.stored then l.(stored := l.stored[k := Stored(next, ref, spec, false, false)])
    else l.(stored := l.stored[k := l.stored[k].(spec := spec, version := next)])
  }

  /** Deletion waits for finalizers, ours and other people's. An object that is being deleted goes
      when the last of them lets it. */
  function Drop<S>(l: Ledger<S>, k: Key, othersHold: bool, next: nat): Ledger<S> {
    if k !in l.stored then l
    else if l.stored[k].finalizer || othersHold then
      l.(stored := l.stored[k := l.stored[k].(deleting := true, version := next)])
    else l.(stored := l.stored - {k})
  }

  /** Somebody removes our finalizer by force. */
  function Strip<S>(l: Ledger<S>, k: Key, othersHold: bool, next: nat): Ledger<S> {
    if k !in l.stored || !l.stored[k].finalizer then l
    else if l.stored[k].deleting && !othersHold then l.(stored := l.stored - {k})
    else l.(stored := l.stored[k := l.stored[k].(finalizer := false, version := next)])
  }

  // ------------------------------------------------------------------- all of them together

  /** The steps that concern the referring object alone. */
  datatype LedgerOp<S> =
    | StartPass(k: Key) | EndPass(k: Key)
    | WriteFinalizer(k: Key) | ReleaseFinalizer(k: Key, othersHold: bool)
    | PutObject(k: Key, ref: Key, spec: S) | DropObject(k: Key, othersHold: bool)
    | StripFinalizer(k: Key, othersHold: bool)

  function Perform<S>(l: Ledger<S>, op: LedgerOp<S>, next: nat): Ledger<S> {
    match op
    case StartPass(k) => Start(l, k)
    case EndPass(k) => End(l, k)
    case WriteFinalizer(k) => AddFinalizer(l, k, next)
    case ReleaseFinalizer(k, othersHold) => Release(l, k, othersHold, next)
    case PutObject(k, ref, spec) => Put(l, k, ref, spec, next)
    case DropObject(k, othersHold) => Drop(l, k, othersHold, next)
    case StripFinalizer(k, othersHold) => Strip(l, k, othersHold, next)
  }

  // -------------------------------------------------------------------------------- safety

  predicate Held<S>(l: Ledger<S>, k: Key) { k in l.stored && l.stored[k].finalizer }

  /** Versions in use have been handed out, and name one state of an object; while the finalizer is
      there, the object still points at the Workload that a pass is about to write for, or to clean
      up. All of this survives forced removals. */
  ghost predicate Holds<S>(l: Ledger<S>, next: nat) {
    && (forall k :: k in l.stored ==> l.stored[k].version < next)
    && (forall k :: k in l.passes ==> PassHolds(l, k, next))
  }

  ghost predicate PassHolds<S>(l: Ledger<S>, k: Key, next: nat)
    requires k in l.passes
  {
    && l.passes[k].obj.version < next
    && (Fresh(l, k) ==> l.stored[k] == l.passes[k].obj)
    && (l.passes[k].ToApply? || l.passes[k].ToCleanUp? ==>
          Held(l, k) ==> Target(k, l.stored[k]) == Target(k, l.passes[k].obj))
  }

  /** Object k answers for what has been written to the Workload's objects at t: it exists, holds
      the finalizer, references t, and its own clean-up is not behind it. */
  ghost predicate Answers<S>(l: Ledger<S>, k: Key, t: Key) {
    k in l.stored && l.stored[k].finalizer && Target(k, l.stored[k]) == t && !Releasing(l, k)
  }

  /** Passes about to write work for objects that the finalizer holds. A forced removal breaks this. */
  ghost predicate Backed<S>(l: Ledger<S>) {
    forall k :: Applying(l, k) ==> Held(l, k)
  }

  /** Every object that answered still does. */
  ghost predicate Keeps<S>(l: Ledger<S>, l': Ledger<S>) {
    forall k, t :: Answers(l, k, t) ==> Answers(l', k, t)
  }

  lemma LaterHolds<S>(l: Ledger<S>, next: nat, next': nat)
    requires Holds(l, next) && next <= next'
    ensures Holds(l, next')
  {
    forall k | k in l.passes ensures PassHolds(l, k, next') { assert PassHolds(l, k, next); }
  }

  lemma StartKeeps<S>(l: Ledger<S>, k: Key, next: nat)
    requires Holds(l, next)
    ensures Holds(Start(l, k), next) && Keeps(l, Start(l, k))
  {
    var l' := Start(l, k);
    forall j | j in l'.passes ensures PassHolds(l', j, next) {
      if j in l.passes { assert PassHolds(l, j, next); }
    }
  }

  lemma EndKeeps<S>(l: Ledger<S>, k: Key, next: nat)
    requires Holds(l, next)
    ensures Holds(End(l, k), next) && Keeps(l, End(l, k))
  {
    var l' := End(l, k);
    forall j | j in l'.passes ensures PassHolds(l', j, next) { assert PassHolds(l, j, next); }
  }

  lemma AppliedKeeps<S>(l: Ledger<S>, k: Key, next: nat)
    requires Holds(l, next)
    ensures Holds(Applied(l, k), next) && Keeps(l, Applied(l, k))
  {
    var l' := Applied(l, k);
    forall j | j in l'.passes ensures PassHolds(l', j, next) { assert PassHolds(l, j, next); }
  }

  lemma AddFinalizerKeeps<S>(l: Ledger<S>, k: Key, next: nat)
    requires Holds(l, next)
    ensures Holds(AddFinalizer(l, k, next), next + 1) && Keeps(l, AddFinalizer(l, k, next))
  {
    var l' := AddFinalizer(l, k, next);
    forall j | j in l'.passes ensures PassHolds(l', j, next + 1) { assert PassHolds(l, j, next); }
    if k in l.passes { assert PassHolds(l, k, next); }
  }

  /** Cleaning up silences one object only. */
  lemma CleanedUpKeeps<S>(l: Ledger<S>, k: Key, next: nat)
    requires Holds(l, next)
    ensures Holds(CleanedUp(l, k), next)
    ensures forall j, t :: j != k && Answers(l, j, t) ==> Answers(CleanedUp(l, k), j, t)
  {
    var l' := CleanedUp(l, k);
    forall j | j in l'.passes ensures PassHolds(l', j, next) { assert PassHolds(l, j, next); }
  }

  lemma ReleaseKeeps<S>(l: Ledger<S>, k: Key, othersHold: bool, next: nat)
    requires Holds(l, next)
    ensures Holds(Release(l, k, othersHold, next), next + 1) && Keeps(l, Release(l, k, othersHold, next))
  {
    var l' := Release(l, k, othersHold, next);
    forall j | j in l'.passes ensures PassHolds(l', j, next + 1) { assert PassHolds(l, j, next); }
  }

  lemma PutKeeps<S>(l: Ledger<S>, k: Key, ref: Key, spec: S, next: nat)
    requires Holds(l, next)
    ensures Holds(Put(l, k, ref, spec, next), next + 1) && Keeps(l, Put(l, k, ref, spec, next))
  {
    var l' := Put(l, k, ref, spec, next);
    forall j | j in l'.passes ensures PassHolds(l', j, next + 1) { assert PassHolds(l, j, next); }
  }

  lemma DropKeeps<S>(l: Ledger<S>, k: Key, othersHold: bool, next: nat)
    requires Holds(l, next)
    ensures Holds(Drop(l, k, othersHold, next), next + 1) && Keeps(l, Drop(l, k, othersHold, next))
  {
    var l' := Drop(l, k, othersHold, next);
    forall j | j in l'.passes ensures PassHolds(l', j, next + 1) { assert PassHolds(l, j, next); }
  }

  /** A forced removal silences its object and no other. */
  lemma StripSilences<S>(l: Ledger<S>, k: Key, othersHold: bool, next: nat)
    requires Holds(l, next)
    ensures Holds(Strip(l, k, othersHold, next), next + 1)
    ensures Held(l, k) ==>
              forall j, t :: Answers(Strip(l, k, othersHold, next), j, t) <==> j != k && Answers(l, j, t)
    ensures !Held(l, k) ==> Strip(l, k, othersHold, next) == l
  {
    var l' := Strip(l, k, othersHold, next);
    forall j | j in l'.passes ensures PassHolds(l', j, next + 1) { assert PassHolds(l, j, next); }
  }

  /** Apart from forced removals, none of these steps loses an object that answers. All of them keep
      the protocol's invariant. */
  lemma PerformKeeps<S>(l: Ledger<S>, op: LedgerOp<S>, next: nat)
    requires Holds(l, next)
    ensures Holds(Perform(l, op, next), next + 1)
    ensures !op.StripFinalizer? ==> Keeps(l, Perform(l, op, next))
    ensures forall k :: k in Perform(l, op, next).stored ==> k in l.stored || (op.PutObject? && k == op.k)
    ensures forall k :: k in Perform(l, op, next).passes ==> k in l.passes || k in l.stored
  {
    match op {
      case StartPass(k) => StartKeeps(l, k, next); LaterHolds(Start(l, k), next, next + 1);
      case EndPass(k) => EndKeeps(l, k, next); LaterHolds(End(l, k), next, next + 1);
      case WriteFinalizer(k) => AddFinalizerKeeps(l, k, next);
      case ReleaseFinalizer(k, othersHold) => ReleaseKeeps(l, k, othersHold, next);
      case PutObject(k, ref, spec) => PutKeeps(l, k, ref, spec, next);
      case DropObject(k, othersHold) => DropKeeps(l, k, othersHold, next);
      case StripFinalizer(k, othersHold) => StripSilences(l, k, othersHold, next);
    }
  }

  /** Without forced removals passes stay backed. */
  lemma PerformBacked<S>(l: Ledger<S>, op: LedgerOp<S>, next: nat)
    requires Backed(l) && !op.StripFinalizer?
    ensures Backed(Perform(l, op, next))
  {
    var l' := Perform(l, op, next);
    forall k | Applying(l', k) ensures Held(l', k) {
      if Applying(l, k) { assert Held(l, k); }
    }
  }

  /** A backed pass about to write has an object that answers for what it writes. */
  lemma ApplyingAnswers<S>(l: Ledger<S>, k: Key, next: nat)
    requires Holds(l, next) && Backed(l) && Applying(l, k)
    ensures Answers(l, k, Target(k, l.passes[k].obj))
  {
    assert PassHolds(l, k, next);
  }

  // ------------------------------------------------------------------ what the steps bring about

  /** Nothing changes about any other object. */
  ghost predicate OthersStay<S>(l: Ledger<S>, l': Ledger<S>, k: Key) {
    l'.stored - {k} == l.stored - {k} && l'.passes - {k} == l.passes - {k}
  }

  /** The object at k, if it is still there, differs by no more than its version and finalizer. */
  ghost predicate SameObject<S>(l: Ledger<S>, l': Ledger<S>, k: Key) {
    && k in l.stored && k in l'.stored
    && l'.stored[k].workloadRef == l.stored[k].workloadRef && l'.stored[k].spec == l.stored[k].spec
    && l'.stored[k].deleting == l.stored[k].deleting
  }

  /** A pass begins on the object as it is stored: with the clean-up if it is being deleted and we hold it,
      with the writes for its Workload if we hold it already, and else with the finalizer. */
  lemma PassBegins<S>(l: Ledger<S>, k: Key, next: nat)
    requires k in l.stored && k !in l.passes
    ensures var l', o := Perform(l, StartPass(k), next), l.stored[k];
      && l'.stored == l.stored && OthersStay(l, l', k)
      && (k in l'.passes <==> !(o.deleting && !o.finalizer))
      && (k in l'.passes ==> l'.passes[k].obj == o && Fresh(l', k))
      && (CleaningUp(l', k) <==> o.deleting && o.finalizer)
      && (Applying(l', k) <==> !o.deleting && o.finalizer)
      && ((k in l'.passes && l'.passes[k].ToFinalizer?) <==> !o.deleting && !o.finalizer)
  {
  }

  /** Writing the finalizer succeeds exactly on the version that was read; then the pass goes on. */
  lemma FinalizerWritten<S>(l: Ledger<S>, k: Key, next: nat)
    requires k in l.passes && l.passes[k].ToFinalizer?
    requires Fresh(l, k) ==> l.stored[k] == l.passes[k].obj
    ensures var l' := Perform(l, WriteFinalizer(k), next);
      && OthersStay(l, l', k)
      && (Fresh(l, k) ==>
            && SameObject(l, l', k) && Held(l', k) && l'.stored[k].version == next
            && Applying(l', k) && l'.passes[k].obj == l'.stored[k])
      && (!Fresh(l, k) ==> l'.stored == l.stored && k !in l'.passes)
  {
  }

  /** Releasing ends the pass. On the version that was read the finalizer goes, and the object with it
      when nobody else holds it; on any other version nothing is written. */
  lemma FinalizerReleased<S>(l: Ledger<S>, k: Key, othersHold: bool, next: nat)
    requires Releasing(l, k)
    requires Fresh(l, k) ==> l.stored[k] == l.passes[k].obj
    ensures var l' := Perform(l, ReleaseFinalizer(k, othersHold), next);
      && OthersStay(l, l', k) && k !in l'.passes
      && (Fresh(l, k) ==>
            && !Held(l', k) && (k in l'.stored <==> othersHold)
            && (othersHold ==> SameObject(l, l', k) && l'.stored[k].version == next))
      && (!Fresh(l, k) ==> l'.stored == l.stored)
  {
  }

  /** What users bring about: an edit reaches the store and leaves reference, finalizer and deletion alone;
      a deletion removes the object at once or waits for finalizers. No pass notices before it writes. */
  lemma UserStepsReachStore<S>(l: Ledger<S>, k: Key, ref: Key, spec: S, othersHold: bool, next: nat)
    ensures var l' := Perform(l, PutObject(k, ref, spec), next);
      && l'.passes == l.passes && OthersStay(l, l', k)
      && k in l'.stored && l'.stored[k].spec == spec && l'.stored[k].version == next
      && (k in l.stored ==> l'.stored[k] == l.stored[k].(spec := spec, version := next))
      && (k !in l.stored ==>
            l'.stored[k].workloadRef == ref && !l'.stored[k].finalizer && !l'.stored[k].deleting)
    ensures var l' := Perform(l, DropObject(k, othersHold), next);
      && l'.passes == l.passes && OthersStay(l, l', k)
      && (k in l'.stored <==> k in l.stored && (l.stored[k].finalizer || othersHold))
      && (k in l'.stored ==> l'.stored[k] == l.stored[k].(deleting := true, version := next))
    ensures var l' := Perform(l, StripFinalizer(k, othersHold), next);
      && l'.passes == l.passes && OthersStay(l, l', k) && !Held(l', k)
      && (k in l'.stored <==> k in l.stored && !(Held(l, k) && l.stored[k].deleting && !othersHold))
      && (k in l'.stored ==> SameObject(l, l', k))
    ensures var l' := Perform(l, EndPass(k), next);
      l'.stored == l.stored && OthersStay(l, l', k) && k !in l'.passes
  {
  }
}
