/** The Workload's three status writers, the shapes they leave behind, and the transition time
    of the cluster's own target over a whole history. */
module WorkloadStatus {
  import opened Types
  import opened Conditions
  import opened Streaks

  datatype TargetState = TargetPending | TargetReconciling | TargetAvailable | TargetDegraded | TargetFailed

  datatype Target = Target(
    member: string, state: TargetState, runtimeRef: string, lastTransition: Option<int>, message: Message)

  datatype Status = Status(
    conditions: seq<Condition>, observedGeneration: int, targets: seq<Target>, activeImage: string)

  /** What a pass found, which decides the writer. */
  datatype Outcome =
    | IsDegraded(reason: Reason, message: Message)
    | IsPending(reason: Reason, message: Message)
    | IsApplied(image: string, deployment: string, available: bool)

  /** One completed pass: the Workload's generation and unenforced fields, and the clock. */
  datatype Pass = Pass(outcome: Outcome, generation: int, fields: seq<Field>, now: int)

  // ------------------------------------------------------------------ what the writers compute

  predicate Continues(t: Target, member: string, state: TargetState) {
    t.member == member && t.state == state && t.lastTransition.Some?
  }

  ghost predicate FirstContinuing(targets: seq<Target>, member: string, state: TargetState, i: nat)
    requires i < |targets|
  {
    Continues(targets[i], member, state) && forall j :: 0 <= j < i ==> !Continues(targets[j], member, state)
  }

  /** The recorded time of the first target of this member already in that state, else now. */
  function Since(targets: seq<Target>, member: string, state: TargetState, now: int): int {
    if targets == [] then now
    else if Continues(targets[0], member, state) then targets[0].lastTransition.value
    else Since(targets[1..], member, state, now)
  }

  function StateOf(o: Outcome): TargetState {
    match o
    case IsDegraded(_, _) => TargetDegraded
    case IsPending(_, _) => TargetPending
    case IsApplied(_, _, available) => if available then TargetAvailable else TargetReconciling
  }

  function TargetMessage(o: Outcome): Message {
    match o
    case IsDegraded(_, message) => message
    case IsPending(_, message) => message
    case IsApplied(_, _, available) =>
      if available then TargetAvailableText else TargetReconcilingText
  }

  function NewTarget(targets: seq<Target>, member: string, p: Pass): Target {
    var state := StateOf(p.outcome);
    Target(member, state, if p.outcome.IsApplied? then p.outcome.deployment else "",
           Some(Since(targets, member, state, p.now)), TargetMessage(p.outcome))
  }

  function AppliedWanted(generation: int): Wanted {
    Wanted(APPLIED, StatusTrue, generation, ApplySucceeded, About(ApplySucceeded, []))
  }

  function AvailableWanted(generation: int, available: bool): Wanted {
    if available
    then Wanted(AVAILABLE, StatusTrue, generation, DeploymentAvailable, About(DeploymentAvailable, []))
    else Wanted(AVAILABLE, StatusFalse, generation, DeploymentReconciling, About(DeploymentReconciling, []))
  }

  /** All but the informational condition. */
  function MainConditions(cs: seq<Condition>, p: Pass): seq<Condition> {
    match p.outcome
    case IsDegraded(reason, message) =>
      Set(Remove(Remove(Remove(cs, PENDING), APPLIED), AVAILABLE),
          Wanted(DEGRADED, StatusTrue, p.generation, reason, message), p.now)
    case IsPending(reason, message) =>
      Set(Remove(Remove(Remove(cs, DEGRADED), APPLIED), AVAILABLE),
          Wanted(PENDING, StatusTrue, p.generation, reason, message), p.now)
    case IsApplied(_, _, available) =>
      Set(Set(Remove(Remove(cs, DEGRADED), PENDING), AppliedWanted(p.generation), p.now),
          AvailableWanted(p.generation, available), p.now)
  }

  function ConditionsAfter(cs: seq<Condition>, p: Pass): seq<Condition> {
    SetFields(MainConditions(cs, p), p.generation, p.fields, p.now)
  }

  /** The status a completed pass computes. */
  function After(st: Status, member: string, p: Pass): Status {
    Status(ConditionsAfter(st.conditions, p), p.generation, [NewTarget(st.targets, member, p)],
           if p.outcome.IsApplied? then p.outcome.image else st.activeImage)
  }

  // --------------------------------------------------------------------------- the writers

  /** A Workload's status in memory, decoded from the store. */
  class StatusInMemory {
    var conditions: Slice
    var observedGeneration: int
    var targets: seq<Target>
    var activeImage: string

    ghost predicate Valid()
      reads this
    {
      conditions.Valid()
    }

    ghost function View(): Status
      requires Valid()
      reads this, conditions.buf
    {
      Status(conditions.View(), observedGeneration, targets, activeImage)
    }

    constructor (conditions: Slice, observedGeneration: int, targets: seq<Target>, activeImage: string)
      requires conditions.Valid()
      ensures Valid() && View() == Status(conditions.View(), observedGeneration, targets, activeImage)
    {
      this.conditions := conditions;
      this.observedGeneration := observedGeneration;
      this.targets := targets;
      this.activeImage := activeImage;
    }

    method SinceOrNow(member: string, state: TargetState, clock: int) returns (now: int)
      requires Valid()
      ensures now == Since(targets, member, state, clock)
      ensures (forall i :: 0 <= i < |targets| ==> !Continues(targets[i], member, state)) ==> now == clock
      ensures forall i :: 0 <= i < |targets| && FirstContinuing(targets, member, state, i) ==>
                now == targets[i].lastTransition.value
    {
      now := clock;
      var i := 0;
      while i < |targets|
        invariant 0 <= i <= |targets|
        invariant forall j :: 0 <= j < i ==> !Continues(targets[j], member, state)
        invariant now == clock && Since(targets, member, state, clock) == Since(targets[i..], member, state, clock)
      {
        if Continues(targets[i], member, state) {
          return targets[i].lastTransition.value;
        }
        i := i + 1;
      }
    }

    /** reconcileDegradedStatus. The copied window is replaced by a fresh array before anything is
        edited, so the final comparison sees the stored status untouched. */
    method ReconcileDegradedStatus(member: string, p: Pass) returns (update: Option<Status>)
      requires Valid() && p.outcome.IsDegraded?
      modifies conditions.buf
      ensures Valid() && View() == old(View())
      ensures update == if After(View(), member, p) == View() then None else Some(After(View(), member, p))
    {
      var next := conditions;
      var since := SinceOrNow(member, TargetDegraded, p.now);
      var nextTargets := [Target(member, TargetDegraded, "", Some(since), p.outcome.message)];
      next := RemoveStatusCondition(next, PENDING);
      next := RemoveStatusCondition(next, APPLIED);
      next := RemoveStatusCondition(next, AVAILABLE);
      next := SetStatusCondition(next,
        Wanted(DEGRADED, StatusTrue, p.generation, p.outcome.reason, p.outcome.message), p.now);
      next := SetFieldsNotEnforcedCondition(next, p.generation, p.fields, p.now);
      update := WriteIfChanged(next, p.generation, nextTargets, activeImage);
    }

    /** reconcilePendingStatus. */
    method ReconcilePendingStatus(member: string, p: Pass) returns (update: Option<Status>)
      requires Valid() && p.outcome.IsPending?
      modifies conditions.buf
      ensures Valid() && View() == old(View())
      ensures update == if After(View(), member, p) == View() then None else Some(After(View(), member, p))
    {
      var next := conditions;
      var since := SinceOrNow(member, TargetPending, p.now);
      var nextTargets := [Target(member, TargetPending, "", Some(since), p.outcome.message)];
      next := RemoveStatusCondition(next, DEGRADED);
      next := RemoveStatusCondition(next, APPLIED);
      next := RemoveStatusCondition(next, AVAILABLE);
      next := SetStatusCondition(next,
        Wanted(PENDING, StatusTrue, p.generation, p.outcome.reason, p.outcome.message), p.now);
      next := SetFieldsNotEnforcedCondition(next, p.generation, p.fields, p.now);
      update := WriteIfChanged(next, p.generation, nextTargets, activeImage);
    }

    /** reconcileStatus, after the Deployment has been read. */
    method ReconcileStatus(member: string, p: Pass) returns (update: Option<Status>)
      requires Valid() && p.outcome.IsApplied?
      modifies conditions.buf
      ensures Valid() && View() == old(View())
      ensures update == if After(View(), member, p) == View() then None else Some(After(View(), member, p))
    {
      var next := conditions;
      var state := StateOf(p.outcome);
      var since := SinceOrNow(member, state, p.now);
      var nextTargets := [Target(member, state, p.outcome.deployment, Some(since), TargetMessage(p.outcome))];
      next := EditApplied(next, p);
      update := WriteIfChanged(next, p.generation, nextTargets, p.outcome.image);
    }

    static method EditApplied(current: Slice, p: Pass) returns (next: Slice)
      requires current.Valid() && p.outcome.IsApplied?
      modifies current.buf
      ensures next.Valid() && next.View() == ConditionsAfter(old(current.View()), p)
      ensures current.View() == old(current.View())
    {
      next := RemoveStatusCondition(current, DEGRADED);
      next := RemoveStatusCondition(next, PENDING);
      next := SetStatusCondition(next, AppliedWanted(p.generation), p.now);
      next := SetStatusCondition(next, AvailableWanted(p.generation, p.outcome.available), p.now);
      next := SetFieldsNotEnforcedCondition(next, p.generation, p.fields, p.now);
    }

    /** The closing "skip the write if DeepEqual" test. */
    method WriteIfChanged(next: Slice, generation: int, nextTargets: seq<Target>, image: string)
      returns (update: Option<Status>)
      requires Valid() && next.Valid()
      ensures var computed := Status(next.View(), generation, nextTargets, image);
        update == if computed == View() then None else Some(computed)
    {
      if conditions.View() == next.View() && observedGeneration == generation
         && targets == nextTargets && activeImage == image {
        update := None;
      } else {
        update := Some(Status(next.View(), generation, nextTargets, image));
      }
    }
  }

  // ------------------------------------------------------------------------- status machine

  ghost predicate Exactly(cs: seq<Condition>, present: ConditionType) {
    forall t :: t in {DEGRADED, PENDING, APPLIED} ==> (HasType(cs, t) <==> t == present)
  }

  function KindOf(o: Outcome): ConditionType {
    match o
    case IsDegraded(_, _) => DEGRADED
    case IsPending(_, _) => PENDING
    case IsApplied(_, _, _) => APPLIED
  }

  /** The condition that tells the outcome. */
  function Telling(p: Pass): Wanted {
    match p.outcome
    case IsDegraded(reason, message) => Wanted(DEGRADED, StatusTrue, p.generation, reason, message)
    case IsPending(reason, message) => Wanted(PENDING, StatusTrue, p.generation, reason, message)
    case IsApplied(_, _, _) => AppliedWanted(p.generation)
  }

  predicate Ours(t: ConditionType) {
    t in {DEGRADED, PENDING, APPLIED, AVAILABLE, FIELDS_NOT_ENFORCED}
  }

  lemma AfterShows(cs: seq<Condition>, p: Pass, t: ConditionType)
    ensures !Ours(t) ==> Find(ConditionsAfter(cs, p), t) == Find(cs, t)
    ensures t in {DEGRADED, PENDING, APPLIED} ==> (HasType(ConditionsAfter(cs, p), t) <==> t == KindOf(p.outcome))
    ensures Shows(ConditionsAfter(cs, p), Telling(p))
    ensures HasType(ConditionsAfter(cs, p), AVAILABLE) <==> p.outcome.IsApplied?
    ensures p.outcome.IsApplied? ==> Shows(ConditionsAfter(cs, p), AvailableWanted(p.generation, p.outcome.available))
    ensures HasType(ConditionsAfter(cs, p), FIELDS_NOT_ENFORCED) <==> p.fields != []
  {
    match p.outcome {
      case IsDegraded(reason, message) =>
        var w := Wanted(DEGRADED, StatusTrue, p.generation, reason, message);
        ThreeRemoves(cs, PENDING, APPLIED, AVAILABLE, w, p, t);
        ThreeRemoves(cs, PENDING, APPLIED, AVAILABLE, w, p, AVAILABLE);
      case IsPending(reason, message) =>
        var w := Wanted(PENDING, StatusTrue, p.generation, reason, message);
        ThreeRemoves(cs, DEGRADED, APPLIED, AVAILABLE, w, p, t);
        ThreeRemoves(cs, DEGRADED, APPLIED, AVAILABLE, w, p, AVAILABLE);
      case IsApplied(_, _, available) =>
        AppliedFinds(cs, p, t);
        AppliedFinds(cs, p, AVAILABLE);
    }
  }

  lemma ThreeRemoves(cs: seq<Condition>, a: ConditionType, b: ConditionType, c: ConditionType,
                     w: Wanted, p: Pass, t: ConditionType)
    requires w.ctype !in {a, b, c, FIELDS_NOT_ENFORCED}
    ensures var out := SetFields(Set(Remove(Remove(Remove(cs, a), b), c), w, p.now), p.generation, p.fields, p.now);
      && (t !in {a, b, c, w.ctype, FIELDS_NOT_ENFORCED} ==> Find(out, t) == Find(cs, t))
      && (t in {a, b, c} && t != FIELDS_NOT_ENFORCED ==> !HasType(out, t))
      && HasType(out, w.ctype) && Shows(out, w)
      && (HasType(out, FIELDS_NOT_ENFORCED) <==> p.fields != [])
  {
    var c1 := Remove(cs, a);
    var c2 := Remove(c1, b);
    var c3 := Remove(c2, c);
    var c4 := Set(c3, w, p.now);
    RemoveFind(cs, a, t);
    RemoveFind(c1, b, t);
    RemoveFind(c2, c, t);
    SetFind(c3, w, p.now, t);
    SetFieldsFind(c4, p.generation, p.fields, p.now, t);
    SetFind(c3, w, p.now, w.ctype);
    SetFieldsFind(c4, p.generation, p.fields, p.now, w.ctype);
  }

  lemma AppliedFinds(cs: seq<Condition>, p: Pass, t: ConditionType)
    requires p.outcome.IsApplied?
    ensures var out := ConditionsAfter(cs, p);
      && (!Ours(t) ==> Find(out, t) == Find(cs, t))
      && (t in {DEGRADED, PENDING} ==> !HasType(out, t))
      && Shows(out, AppliedWanted(p.generation)) && Shows(out, AvailableWanted(p.generation, p.outcome.available))
      && (HasType(out, FIELDS_NOT_ENFORCED) <==> p.fields != [])
  {
    var c1 := Remove(cs, DEGRADED);
    var c2 := Remove(c1, PENDING);
    var c3 := Set(c2, AppliedWanted(p.generation), p.now);
    var w := AvailableWanted(p.generation, p.outcome.available);
    var c4 := Set(c3, w, p.now);
    RemoveFind(cs, DEGRADED, t);
    RemoveFind(c1, PENDING, t);
    SetFind(c2, AppliedWanted(p.generation), p.now, t);
    SetFind(c3, w, p.now, t);
    SetFieldsFind(c4, p.generation, p.fields, p.now, t);
    SetFind(c2, AppliedWanted(p.generation), p.now, APPLIED);
    SetFind(c3, w, p.now, APPLIED);
    SetFieldsFind(c4, p.generation, p.fields, p.now, APPLIED);
    SetFieldsFind(c4, p.generation, p.fields, p.now, AVAILABLE);
  }

  /** The status machine: from any prior status, every completed pass leaves one target, ours, in
      the state of its outcome; exactly one of Degraded, Pending and RuntimeObjectsApplied,
      with the reason, message and generation of this pass; Available with RuntimeObjectsApplied
      only, and True just when the target is Available; types stay unique; conditions of other
      types survive unchanged. */
  lemma StatusMachine(st: Status, member: string, p: Pass)
    ensures var st' := After(st, member, p);
      && |st'.targets| == 1 && st'.targets[0].member == member && st'.targets[0].state == StateOf(p.outcome)
      && Exactly(st'.conditions, KindOf(p.outcome)) && Shows(st'.conditions, Telling(p))
      && (HasType(st'.conditions, AVAILABLE) <==> HasType(st'.conditions, APPLIED))
      && (HasType(st'.conditions, AVAILABLE) ==>
            (Find(st'.conditions, AVAILABLE).value.status == StatusTrue <==> st'.targets[0].state == TargetAvailable))
      && (UniqueTypes(st.conditions) ==> UniqueTypes(st'.conditions))
      && (forall t :: !Ours(t) ==> Find(st'.conditions, t) == Find(st.conditions, t))
  {
    forall t
      ensures !Ours(t) ==> Find(ConditionsAfter(st.conditions, p), t) == Find(st.conditions, t)
      ensures t in {DEGRADED, PENDING, APPLIED} ==>
                (HasType(ConditionsAfter(st.conditions, p), t) <==> t == KindOf(p.outcome))
    {
      AfterShows(st.conditions, p, t);
    }
    AfterShows(st.conditions, p, AVAILABLE);
    if UniqueTypes(st.conditions) { AfterUnique(st.conditions, p); }
  }

  /** What the conditions say after a pass: one story, in the words of its outcome. */
  ghost predicate TellsOutcome(cs: seq<Condition>, p: Pass) {
    && ListsFields(cs, p.generation, p.fields)
    && match p.outcome
       case IsDegraded(reason, message) =>
         && Says(cs, DEGRADED, StatusTrue, p.generation, reason, message)
         && Absent(cs, PENDING) && Absent(cs, APPLIED) && Absent(cs, AVAILABLE)
       case IsPending(reason, message) =>
         && Says(cs, PENDING, StatusTrue, p.generation, reason, message)
         && Absent(cs, DEGRADED) && Absent(cs, APPLIED) && Absent(cs, AVAILABLE)
       case IsApplied(_, _, available) =>
         && Says(cs, APPLIED, StatusTrue, p.generation, ApplySucceeded, About(ApplySucceeded, []))
         && (available ==>
               Says(cs, AVAILABLE, StatusTrue, p.generation, DeploymentAvailable, About(DeploymentAvailable, [])))
         && (!available ==>
               Says(cs, AVAILABLE, StatusFalse, p.generation, DeploymentReconciling, About(DeploymentReconciling, [])))
         && Absent(cs, DEGRADED) && Absent(cs, PENDING)
  }

  /** The target, its time aside. */
  ghost predicate TargetTells(t: Target, member: string, o: Outcome) {
    && t.member == member && t.lastTransition.Some?
    && match o
       case IsDegraded(_, message) => t.state == TargetDegraded && t.runtimeRef == "" && t.message == message
       case IsPending(_, message) => t.state == TargetPending && t.runtimeRef == "" && t.message == message
       case IsApplied(_, deployment, available) =>
         && t.runtimeRef == deployment
         && (available ==> t.state == TargetAvailable && t.message == TargetAvailableText)
         && (!available ==> t.state == TargetReconciling && t.message == TargetReconcilingText)
  }

  /** The whole status a pass computes, from any prior status; only a pass that applied the objects
      changes the active image. */
  lemma StatusTells(st: Status, member: string, p: Pass)
    ensures var st' := After(st, member, p);
      && TellsOutcome(st'.conditions, p)
      && |st'.targets| == 1 && TargetTells(st'.targets[0], member, p.outcome)
      && st'.observedGeneration == p.generation
      && st'.activeImage == if p.outcome.IsApplied? then p.outcome.image else st.activeImage
  {
    var cs := ConditionsAfter(st.conditions, p);
    AfterShows(st.conditions, p, DEGRADED);
    AfterShows(st.conditions, p, PENDING);
    AfterShows(st.conditions, p, APPLIED);
    SetFieldsNoop(MainConditions(st.conditions, p), p.generation, p.fields, p.now);
    FieldsShownLists(cs, p.generation, p.fields);
    forall t { AbsentIs(cs, t); }
    ShowsSays(cs, Telling(p));
    if p.outcome.IsApplied? { ShowsSays(cs, AvailableWanted(p.generation, p.outcome.available)); }
  }

  lemma AfterUnique(cs: seq<Condition>, p: Pass)
    requires UniqueTypes(cs)
    ensures UniqueTypes(ConditionsAfter(cs, p))
  {
    match p.outcome {
      case IsDegraded(reason, message) =>
        RemoveUnique(cs, PENDING);
        RemoveUnique(Remove(cs, PENDING), APPLIED);
        var kept := Remove(Remove(Remove(cs, PENDING), APPLIED), AVAILABLE);
        RemoveUnique(Remove(Remove(cs, PENDING), APPLIED), AVAILABLE);
        SetThenFieldsUnique(kept, Wanted(DEGRADED, StatusTrue, p.generation, reason, message), p);
      case IsPending(reason, message) =>
        RemoveUnique(cs, DEGRADED);
        RemoveUnique(Remove(cs, DEGRADED), APPLIED);
        var kept := Remove(Remove(Remove(cs, DEGRADED), APPLIED), AVAILABLE);
        RemoveUnique(Remove(Remove(cs, DEGRADED), APPLIED), AVAILABLE);
        SetThenFieldsUnique(kept, Wanted(PENDING, StatusTrue, p.generation, reason, message), p);
      case IsApplied(_, _, available) =>
        RemoveUnique(cs, DEGRADED);
        RemoveUnique(Remove(cs, DEGRADED), PENDING);
        var kept := Remove(Remove(cs, DEGRADED), PENDING);
        SetUnique(kept, AppliedWanted(p.generation), p.now);
        SetThenFieldsUnique(Set(kept, AppliedWanted(p.generation), p.now), AvailableWanted(p.generation, available), p);
    }
  }

  lemma SetThenFieldsUnique(cs: seq<Condition>, w: Wanted, p: Pass)
    requires UniqueTypes(cs)
    ensures UniqueTypes(SetFields(Set(cs, w, p.now), p.generation, p.fields, p.now))
  {
    SetUnique(cs, w, p.now);
    SetFieldsUnique(Set(cs, w, p.now), p.generation, p.fields, p.now);
  }

  // ----------------------------------------------------------------------- transition times

  /** The stored status after a history of completed passes. Each writer stores what it computes. */
  function Stored(st: Status, member: string, history: seq<Pass>): Status {
    if history == [] then st
    else After(Stored(st, member, history[..|history| - 1]), member, history[|history| - 1])
  }

  lemma StoredLast(st: Status, member: string, history: seq<Pass>)
    requires history != []
    ensures Stored(st, member, history)
         == After(Stored(st, member, history[..|history| - 1]), member, history[|history| - 1])
  {
  }

  function States(history: seq<Pass>): seq<TargetState> {
    seq(|history|, i requires 0 <= i < |history| => StateOf(history[i].outcome))
  }

  /** The list holds one target, ours, in `state` since `time`. */
  ghost predicate HeldSince(targets: seq<Target>, member: string, state: TargetState, time: int) {
    && |targets| == 1
    && targets[0].member == member && targets[0].state == state && targets[0].lastTransition == Some(time)
  }

  lemma SinceHeld(targets: seq<Target>, member: string, state: TargetState, time: int, next: TargetState, now: int)
    requires HeldSince(targets, member, state, time)
    ensures Since(targets, member, next, now) == if next == state then time else now
  {
    assert Since(targets[1..], member, next, now) == now;
  }

  /** What holds of one history: the target is in the last outcome's state since the pass at i. */
  ghost predicate StateSince(st: Status, member: string, history: seq<Pass>, i: nat)
    requires i < |history|
  {
    HeldSince(Stored(st, member, history).targets, member, StateOf(history[|history| - 1].outcome), history[i].now)
  }

  lemma TargetAfter(st: Status, member: string, p: Pass)
    ensures HeldSince(After(st, member, p).targets, member, StateOf(p.outcome),
                      Since(st.targets, member, StateOf(p.outcome), p.now))
  {
  }

  lemma StateSinceFirst(st: Status, member: string, p: Pass)
    requires forall t :: t in st.targets ==> t.member != member
    ensures StateSince(st, member, [p], 0)
  {
    StoredLast(st, member, [p]);
    SinceFresh(st.targets, member, StateOf(p.outcome), p.now);
    TargetAfter(st, member, p);
  }

  lemma StateSinceNext(st: Status, member: string, history: seq<Pass>, j: nat, i: nat)
    requires |history| > 1 && i < |history| && j < |history| - 1
    requires StateSince(st, member, history[..|history| - 1], j)
    requires var n := |history| - 1;
      history[i].now == if StateOf(history[n].outcome) == StateOf(history[n - 1].outcome) then history[j].now
                        else history[n].now
    ensures StateSince(st, member, history, i)
  {
    var n := |history| - 1;
    var before := Stored(st, member, history[..n]);
    StoredLast(st, member, history);
    TargetAfter(before, member, history[n]);
    SinceHeld(before.targets, member, StateOf(history[n - 1].outcome), history[j].now,
              StateOf(history[n].outcome), history[n].now);
  }

  lemma StateStreakStep(history: seq<Pass>, i: nat) returns (j: nat)
    requires |history| > 1 && StreakBegins(States(history), i)
    ensures var n := |history|;
      var before := history[..n - 1];
      && StreakBegins(States(before), j)
      && var same := StateOf(history[n - 1].outcome) == StateOf(before[n - 2].outcome);
         history[i].now == if same then before[j].now else history[n - 1].now
  {
    assert States(history[..|history| - 1]) == States(history)[..|history| - 1];
    j := StreakBefore(States(history), i);
  }

  /** Over any history, the target's transition time is the clock reading of the pass that began
      the current unbroken streak of its state. Reasons and messages do not restart it. */
  lemma {:induction false} TransitionTimeIsStreakStart(st: Status, member: string, history: seq<Pass>, i: nat)
    requires forall t :: t in st.targets ==> t.member != member
    requires StreakBegins(States(history), i)
    ensures StateSince(st, member, history, i)
    decreases |history|
  {
    if |history| == 1 {
      StateSinceFirst(st, member, history[0]);
      assert history == [history[0]];
    } else {
      var j := StateStreakStep(history, i);
      TransitionTimeIsStreakStart(st, member, history[..|history| - 1], j);
      StateSinceNext(st, member, history, j, i);
    }
  }

  lemma {:induction false} SinceFresh(targets: seq<Target>, member: string, state: TargetState, now: int)
    requires forall t :: t in targets ==> t.member != member
    ensures Since(targets, member, state, now) == now
  {
    if targets != [] {
      assert targets[0] in targets;
      SinceFresh(targets[1..], member, state, now);
    }
  }

  // ------------------------------------------------------------ transition times of conditions

  function Kinds(history: seq<Pass>): seq<ConditionType> {
    seq(|history|, i requires 0 <= i < |history| => KindOf(history[i].outcome))
  }

  /** One of the three exclusive conditions is True since `time`, and the others are absent. */
  ghost predicate TrueSince(cs: seq<Condition>, kind: ConditionType, time: int) {
    && Exactly(cs, kind) && HasType(cs, kind) && Find(cs, kind).value.status == StatusTrue
    && Find(cs, kind).value.lastTransition == time
  }

  /** Dropping other conditions changes nothing about one; setting it keeps its time while it is True. */
  lemma TellingTime(cs: seq<Condition>, p: Pass)
    ensures var was, out := Find(cs, KindOf(p.outcome)), Find(ConditionsAfter(cs, p), KindOf(p.outcome));
      out.Some? && out.value.lastTransition
               == if was.Some? && was.value.status == StatusTrue then was.value.lastTransition else p.now
  {
    var kind, w := KindOf(p.outcome), Telling(p);
    match p.outcome {
      case IsDegraded(_, _) =>
        RemovedThree(cs, PENDING, APPLIED, AVAILABLE, kind);
        var kept := Remove(Remove(Remove(cs, PENDING), APPLIED), AVAILABLE);
        SetFind(kept, w, p.now, kind);
        SetFieldsFind(Set(kept, w, p.now), p.generation, p.fields, p.now, kind);
      case IsPending(_, _) =>
        RemovedThree(cs, DEGRADED, APPLIED, AVAILABLE, kind);
        var kept := Remove(Remove(Remove(cs, DEGRADED), APPLIED), AVAILABLE);
        SetFind(kept, w, p.now, kind);
        SetFieldsFind(Set(kept, w, p.now), p.generation, p.fields, p.now, kind);
      case IsApplied(_, _, available) =>
        RemoveFind(cs, DEGRADED, kind);
        RemoveFind(Remove(cs, DEGRADED), PENDING, kind);
        var kept := Remove(Remove(cs, DEGRADED), PENDING);
        var both := Set(Set(kept, w, p.now), AvailableWanted(p.generation, available), p.now);
        SetFind(kept, w, p.now, kind);
        SetFind(Set(kept, w, p.now), AvailableWanted(p.generation, available), p.now, kind);
        SetFieldsFind(both, p.generation, p.fields, p.now, kind);
    }
  }

  lemma RemovedThree(cs: seq<Condition>, a: ConditionType, b: ConditionType, c: ConditionType, t: ConditionType)
    requires t !in {a, b, c}
    ensures Find(Remove(Remove(Remove(cs, a), b), c), t) == Find(cs, t)
  {
    RemoveFind(cs, a, t);
    RemoveFind(Remove(cs, a), b, t);
    RemoveFind(Remove(Remove(cs, a), b), c, t);
  }

  lemma KindContinues(cs: seq<Condition>, kind: ConditionType, time: int, p: Pass)
    requires TrueSince(cs, kind, time) && kind in {DEGRADED, PENDING, APPLIED}
    ensures TrueSince(ConditionsAfter(cs, p), KindOf(p.outcome), if KindOf(p.outcome) == kind then time else p.now)
  {
    TellingTime(cs, p);
    AfterKinds(cs, p);
  }

  lemma AfterKinds(cs: seq<Condition>, p: Pass)
    ensures Exactly(ConditionsAfter(cs, p), KindOf(p.outcome))
    ensures Shows(ConditionsAfter(cs, p), Telling(p))
  {
    AfterShows(cs, p, DEGRADED);
    AfterShows(cs, p, PENDING);
    AfterShows(cs, p, APPLIED);
  }

  lemma KindBegins(cs: seq<Condition>, p: Pass)
    requires forall t :: t in {DEGRADED, PENDING, APPLIED} ==> !HasType(cs, t)
    ensures TrueSince(ConditionsAfter(cs, p), KindOf(p.outcome), p.now)
  {
    TellingTime(cs, p);
    AfterKinds(cs, p);
  }

  lemma KindStreakStep(history: seq<Pass>, i: nat) returns (j: nat)
    requires |history| > 1 && StreakBegins(Kinds(history), i)
    ensures var n := |history|;
      var before := history[..n - 1];
      && StreakBegins(Kinds(before), j)
      && var same := KindOf(history[n - 1].outcome) == KindOf(before[n - 2].outcome);
         history[i].now == if same then before[j].now else history[n - 1].now
  {
    assert Kinds(history[..|history| - 1]) == Kinds(history)[..|history| - 1];
    j := StreakBefore(Kinds(history), i);
  }

  /** What holds of one history: the last outcome's condition is True since the pass at i. */
  ghost predicate KindSince(st: Status, member: string, history: seq<Pass>, i: nat)
    requires i < |history|
  {
    TrueSince(Stored(st, member, history).conditions, KindOf(history[|history| - 1].outcome), history[i].now)
  }

  lemma KindSinceFirst(st: Status, member: string, p: Pass)
    requires forall t :: t in {DEGRADED, PENDING, APPLIED} ==> !HasType(st.conditions, t)
    ensures KindSince(st, member, [p], 0)
  {
    StoredLast(st, member, [p]);
    KindBegins(st.conditions, p);
  }

  lemma KindSinceNext(st: Status, member: string, history: seq<Pass>, j: nat, i: nat)
    requires |history| > 1 && i < |history| && j < |history| - 1
    requires KindSince(st, member, history[..|history| - 1], j)
    requires var n := |history| - 1;
      history[i].now == if KindOf(history[n].outcome) == KindOf(history[n - 1].outcome) then history[j].now
                        else history[n].now
    ensures KindSince(st, member, history, i)
  {
    var n := |history| - 1;
    StoredLast(st, member, history);
    var before := Stored(st, member, history[..n]).conditions;
    KindContinues(before, KindOf(history[n - 1].outcome), history[j].now, history[n]);
  }

  /** Over any history, the condition that tells the outcome carries the clock reading of the pass that
      began the current streak of its type: changes of reason, message, generation or availability
      do not restart it, and a condition that went away and came back starts anew. */
  lemma {:induction false} ConditionTimeIsStreakStart(st: Status, member: string, history: seq<Pass>, i: nat)
    requires forall t :: t in {DEGRADED, PENDING, APPLIED} ==> !HasType(st.conditions, t)
    requires StreakBegins(Kinds(history), i)
    ensures KindSince(st, member, history, i)
    decreases |history|
  {
    if |history| == 1 {
      KindSinceFirst(st, member, history[0]);
      assert history == [history[0]];
    } else {
      var j := KindStreakStep(history, i);
      ConditionTimeIsStreakStart(st, member, history[..|history| - 1], j);
      KindSinceNext(st, member, history, j, i);
    }
  }
}
