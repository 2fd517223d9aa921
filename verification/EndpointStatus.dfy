/** The ServiceEndpoint's two status writers. reconcileDegraded compares after editing the shared
    array and has no separate message field, so it can lose an update; exactly when is proved
    below. The transition time is a property of the whole history and survives that. */
module EndpointStatus {
  import opened Types
  import opened Api
  import opened Conditions
  import opened Streaks
  import SR = ServiceRouting

  datatype Status = Status(
    conditions: seq<Condition>, activeMemberRef: string, resolvedHostnames: seq<string>,
    lastTransition: Option<int>, observedGeneration: int)

  function DegradedTrue(generation: int, reason: Reason, m: Message): Wanted {
    Wanted(DEGRADED, StatusTrue, generation, reason, m)
  }

  function ReadyFalse(generation: int, reason: Reason, m: Message): Wanted {
    Wanted(READY, StatusFalse, generation, reason, m)
  }

  function ReadyTrue(generation: int): Wanted {
    Wanted(READY, StatusTrue, generation, Reconciled, About(Reconciled, []))
  }

  /** Ready is there with this status and reason, and a time is stored. */
  ghost predicate KeepsStreak(st: Status, status: ConditionStatus, reason: Reason) {
    && st.lastTransition.Some?
    && exists i :: 0 <= i < |st.conditions| && FirstOf(st.conditions, READY, i)
         && st.conditions[i].status == status && st.conditions[i].reason == reason
  }

  /** serviceEndpointTransitionTime. */
  function TransitionTime(st: Status, status: ConditionStatus, reason: Reason, now: int): Option<int> {
    var ready := Find(st.conditions, READY);
    if ready.Some? && ready.value.status == status && ready.value.reason == reason && st.lastTransition.Some?
    then st.lastTransition else Some(now)
  }

  /** Said directly: the stored time is kept exactly while Ready stays as it is. */
  lemma TransitionTimeIs(st: Status, status: ConditionStatus, reason: Reason, now: int)
    ensures TransitionTime(st, status, reason, now)
         == if KeepsStreak(st, status, reason) then st.lastTransition else Some(now)
  {
    if HasType(st.conditions, READY) { assert FirstOf(st.conditions, READY, Index(st.conditions, READY)); }
  }

  /** The status reconcileDegraded computes. */
  function AfterDegraded(st: Status, generation: int, reason: Reason, m: Message, fields: seq<Field>, now: int)
    : Status
  {
    Status(SetBoth(st.conditions, DegradedTrue(generation, reason, m), ReadyFalse(generation, reason, m), fields, now),
           "", [], TransitionTime(st, StatusFalse, reason, now), generation)
  }

  /** The status reconcileStatus computes; `active` is the primary, or empty for ActiveActive. */
  function AfterReady(st: Status, generation: int, active: string, hostnames: seq<string>, fields: seq<Field>, now: int)
    : Status
  {
    Status(SetFields(Set(Remove(st.conditions, DEGRADED), ReadyTrue(generation), now), generation, fields, now),
           active, hostnames, TransitionTime(st, StatusTrue, Reconciled, now), generation)
  }

  /** What the comparison in reconcileDegraded can see. */
  predicate DegradedWrites(st: Status, generation: int, reason: Reason, m: Message, fields: seq<Field>, now: int) {
    EditsDetected(st.conditions, DegradedTrue(generation, reason, m), ReadyFalse(generation, reason, m), fields)
    || st.activeMemberRef != "" || st.resolvedHostnames != []
    || st.lastTransition != TransitionTime(st, StatusFalse, reason, now)
    || st.observedGeneration != generation
  }

  function StoredAfterDegraded(st: Status, generation: int, reason: Reason, m: Message, fields: seq<Field>, now: int)
    : Status
  {
    if DegradedWrites(st, generation, reason, m, fields, now)
    then AfterDegraded(st, generation, reason, m, fields, now) else st
  }

  class StatusInMemory {
    var conditions: Slice
    var activeMemberRef: string
    var resolvedHostnames: seq<string>
    var lastTransition: Option<int>
    var observedGeneration: int

    ghost predicate Valid()
      reads this
    {
      conditions.Valid()
    }

    ghost function View(): Status
      requires Valid()
      reads this, conditions.buf
    {
      Status(conditions.View(), activeMemberRef, resolvedHostnames, lastTransition, observedGeneration)
    }

    constructor (conditions: Slice, st: Status)
      requires conditions.Valid() && conditions.View() == st.conditions
      ensures Valid() && View() == st
    {
      this.conditions := conditions;
      activeMemberRef, resolvedHostnames := st.activeMemberRef, st.resolvedHostnames;
      lastTransition, observedGeneration := st.lastTransition, st.observedGeneration;
    }

    method ServiceEndpointTransitionTime(status: ConditionStatus, reason: Reason, now: int) returns (time: Option<int>)
      requires Valid()
      ensures time == TransitionTime(View(), status, reason, now)
      ensures time == if KeepsStreak(View(), status, reason) then View().lastTransition else Some(now)
    {
      TransitionTimeIs(View(), status, reason, now);
      var i := FindIndex(conditions, READY);
      if i < conditions.len && conditions.buf[i].status == status && conditions.buf[i].reason == reason
         && lastTransition.Some? {
        return lastTransition;
      }
      return Some(now);
    }

    method ReconcileDegraded(generation: int, reason: Reason, m: Message, fields: seq<Field>, now: int)
      returns (update: Option<Status>)
      requires Valid()
      modifies conditions.buf
      ensures update == if DegradedWrites(old(View()), generation, reason, m, fields, now)
                        then Some(AfterDegraded(old(View()), generation, reason, m, fields, now)) else None
      ensures var stored := if update.Some? then update.value else old(View());
        stored.activeMemberRef == "" && stored.resolvedHostnames == [] && stored.observedGeneration == generation
    {
      var time := ServiceEndpointTransitionTime(StatusFalse, reason, now);
      var next, same := SetBothAndCompare(
        conditions, DegradedTrue(generation, reason, m), ReadyFalse(generation, reason, m), fields, now);
      if same && activeMemberRef == "" && resolvedHostnames == [] && lastTransition == time
         && observedGeneration == generation {
        update := None;
      } else {
        update := Some(Status(next.View(), "", [], time, generation));
      }
    }

    static method EditReady(current: Slice, generation: int, fields: seq<Field>, now: int) returns (next: Slice)
      requires current.Valid()
      modifies current.buf
      ensures next.Valid() && current.View() == old(current.View())
      ensures next.View()
           == SetFields(Set(Remove(old(current.View()), DEGRADED), ReadyTrue(generation), now), generation, fields, now)
    {
      next := RemoveStatusCondition(current, DEGRADED);
      next := SetStatusCondition(next, ReadyTrue(generation), now);
      next := SetFieldsNotEnforcedCondition(next, generation, fields, now);
    }

    method ReconcileStatus(generation: int, spec: EndpointSpec, fields: seq<Field>, now: int)
      returns (update: Option<Status>)
      requires Valid()
      modifies conditions.buf
      ensures Valid() && View() == old(View())
      ensures var computed := AfterReady(View(), generation, SR.ActiveMember(spec), spec.hostnames, fields, now);
        update == if computed == View() then None else Some(computed)
      ensures var stored := if update.Some? then update.value else View();
        && (spec.routingMode.ActivePassive? ==> stored.activeMemberRef == spec.primaryMemberRef)
        && (spec.routingMode.ActiveActive? ==> stored.activeMemberRef == "")
        && stored.resolvedHostnames == spec.hostnames && stored.observedGeneration == generation
    {
      var active, hostnames := "", spec.hostnames;
      if spec.routingMode.ActivePassive? {
        active := spec.primaryMemberRef;
      }
      var time := ServiceEndpointTransitionTime(StatusTrue, Reconciled, now);
      var next := EditReady(conditions, generation, fields, now);
      if conditions.View() == next.View() && activeMemberRef == active && resolvedHostnames == hostnames
         && lastTransition == time && observedGeneration == generation {
        update := None;
      } else {
        update := Some(Status(next.View(), active, hostnames, time, generation));
      }
    }
  }

  // -------------------------------------------------------------------- when updates are lost

  /** Exactness, from any status at all: a completed degraded pass leaves the computed status stored
      if and only if the comparison sees something, or every condition already shows. */
  lemma DegradedWriteExactIff(st: Status, generation: int, reason: Reason, m: Message, fields: seq<Field>, now: int)
    ensures StoredAfterDegraded(st, generation, reason, m, fields, now)
              == AfterDegraded(st, generation, reason, m, fields, now)
       <==> DegradedWrites(st, generation, reason, m, fields, now)
            || (&& Shows(st.conditions, DegradedTrue(generation, reason, m))
                && Shows(st.conditions, ReadyFalse(generation, reason, m))
                && FieldsShown(st.conditions, generation, fields))
  {
    SetBothNoop(st.conditions, DegradedTrue(generation, reason, m), ReadyFalse(generation, reason, m), fields, now);
  }

  /** A status this operator wrote: degraded with one reason and message in both conditions, or
      without a Degraded condition. */
  ghost predicate OperatorWritten(st: Status, fieldsAt: int -> seq<Field>) {
    HasType(st.conditions, DEGRADED) ==>
      var c := Find(st.conditions, DEGRADED).value;
      && Shows(st.conditions, DegradedTrue(st.observedGeneration, c.reason, c.message))
      && Shows(st.conditions, ReadyFalse(st.observedGeneration, c.reason, c.message))
      && FieldsShown(st.conditions, st.observedGeneration, fieldsAt(st.observedGeneration))
      && st.activeMemberRef == "" && st.resolvedHostnames == [] && st.lastTransition.Some?
  }

  /** On operator-written statuses, with a clock that has moved on, the update is lost exactly when
      the endpoint is already degraded for the same reason at the same generation and only the
      message differs. The caller can check that before the pass. */
  lemma LostExactlyOnMessageChange(
    st: Status, generation: int, reason: Reason, m: Message, fieldsAt: int -> seq<Field>, now: int)
    requires OperatorWritten(st, fieldsAt) && st.lastTransition != Some(now)
    ensures var fields := fieldsAt(generation);
      StoredAfterDegraded(st, generation, reason, m, fields, now)
        != AfterDegraded(st, generation, reason, m, fields, now)
      <==> && HasType(st.conditions, DEGRADED) && st.observedGeneration == generation
           && Find(st.conditions, DEGRADED).value.reason == reason
           && Find(st.conditions, DEGRADED).value.message != m
  {
    DegradedWriteExactIff(st, generation, reason, m, fieldsAt(generation), now);
  }

  lemma StaysOperatorWritten(st: Status, generation: int, reason: Reason, m: Message, active: string,
                             hostnames: seq<string>, fieldsAt: int -> seq<Field>, now: int)
    requires OperatorWritten(st, fieldsAt)
    ensures OperatorWritten(StoredAfterDegraded(st, generation, reason, m, fieldsAt(generation), now), fieldsAt)
    ensures OperatorWritten(AfterReady(st, generation, active, hostnames, fieldsAt(generation), now), fieldsAt)
  {
    var fields := fieldsAt(generation);
    var d, r := DegradedTrue(generation, reason, m), ReadyFalse(generation, reason, m);
    SetBothTypes(st.conditions, d, r, fields, now);
    SetBothNoop(st.conditions, d, r, fields, now);
    ReadyShows(st.conditions, generation, fields, now);
  }

  lemma ReadyShows(cs: seq<Condition>, generation: int, fields: seq<Field>, now: int)
    ensures var out := SetFields(Set(Remove(cs, DEGRADED), ReadyTrue(generation), now), generation, fields, now);
      !HasType(out, DEGRADED) && Shows(out, ReadyTrue(generation))
  {
    var kept := Remove(cs, DEGRADED);
    RemoveFind(cs, DEGRADED, DEGRADED);
    SetFind(kept, ReadyTrue(generation), now, DEGRADED);
    SetFieldsFind(Set(kept, ReadyTrue(generation), now), generation, fields, now, DEGRADED);
    SetFieldsFind(Set(kept, ReadyTrue(generation), now), generation, fields, now, READY);
  }

  /** The two messages of PrimaryMemberNotInFederation: the Workload has no Federation, or the
      member is not in it. Only the first ever reaches the store, however often the pass is
      repeated with the second. */
  lemma {:induction false} StaleMessageSticks(
    workload: string, member: string, federation: string, generation: int, clock: int, laters: seq<int>)
    ensures
      var first := About(PrimaryMemberNotInFederation, [workload, member]);
      var second := About(PrimaryMemberNotInFederation, [member, federation, workload]);
      var empty := Status([], "", [], None, 0);
      var st := StoredAfterDegraded(empty, generation, PrimaryMemberNotInFederation, first, [], clock);
      && Retried(st, generation, PrimaryMemberNotInFederation, second, laters) == st
      && Find(st.conditions, DEGRADED).Some? && Find(st.conditions, DEGRADED).value.message == first != second
  {
    var first := About(PrimaryMemberNotInFederation, [workload, member]);
    var second := About(PrimaryMemberNotInFederation, [member, federation, workload]);
    var empty := Status([], "", [], None, 0);
    var none := (g: int) => [];
    StaysOperatorWritten(empty, generation, PrimaryMemberNotInFederation, first, "", [], none, clock);
    var st := StoredAfterDegraded(empty, generation, PrimaryMemberNotInFederation, first, [], clock);
    SetBothTypes([], DegradedTrue(generation, PrimaryMemberNotInFederation, first),
                 ReadyFalse(generation, PrimaryMemberNotInFederation, first), [], clock);
    assert |first.names| == 2 && |second.names| == 3;
    if laters != [] {
      StaleMessageSticks(workload, member, federation, generation, clock, laters[..|laters| - 1]);
    }
  }

  function Retried(st: Status, generation: int, reason: Reason, m: Message, nows: seq<int>): Status {
    if nows == [] then st
    else
      var before := Retried(st, generation, reason, m, nows[..|nows| - 1]);
      StoredAfterDegraded(before, generation, reason, m, [], nows[|nows| - 1])
  }

  // ----------------------------------------------------------------------- transition times

  datatype Outcome = IsDegraded(reason: Reason, message: Message) | IsReady(active: string, hostnames: seq<string>)

  datatype Pass = Pass(outcome: Outcome, generation: int, fields: seq<Field>, now: int)

  function StatusOf(o: Outcome): ConditionStatus { if o.IsReady? then StatusTrue else StatusFalse }

  function ReasonOf(o: Outcome): Reason { if o.IsReady? then Reconciled else o.reason }

  /** What an outcome counts as: the status and reason of Ready. */
  function Label(o: Outcome): (ConditionStatus, Reason) { (StatusOf(o), ReasonOf(o)) }

  function Labels(history: seq<Pass>): seq<(ConditionStatus, Reason)> {
    seq(|history|, i requires 0 <= i < |history| => Label(history[i].outcome))
  }

  /** The stored status after one completed pass, lost updates included. */
  function StoredAfter(st: Status, p: Pass): Status {
    match p.outcome
    case IsDegraded(reason, m) => StoredAfterDegraded(st, p.generation, reason, m, p.fields, p.now)
    case IsReady(active, hostnames) => AfterReady(st, p.generation, active, hostnames, p.fields, p.now)
  }

  /** What an endpoint's status says after a pass that wrote what it computed. */
  ghost predicate Tells(st: Status, p: Pass) {
    && st.observedGeneration == p.generation && ListsFields(st.conditions, p.generation, p.fields)
    && match p.outcome
       case IsDegraded(reason, m) =>
         && st.activeMemberRef == "" && st.resolvedHostnames == []
         && Says(st.conditions, DEGRADED, StatusTrue, p.generation, reason, m)
         && Says(st.conditions, READY, StatusFalse, p.generation, reason, m)
       case IsReady(active, hostnames) =>
         && st.activeMemberRef == active && st.resolvedHostnames == hostnames
         && Absent(st.conditions, DEGRADED)
         && Says(st.conditions, READY, StatusTrue, p.generation, Reconciled, About(Reconciled, []))
  }

  lemma ReadyTells(st: Status, p: Pass)
    requires p.outcome.IsReady?
    ensures Tells(StoredAfter(st, p), p)
  {
    var g, cs := p.generation, StoredAfter(st, p).conditions;
    ReadyShows(st.conditions, g, p.fields, p.now);
    SetFieldsNoop(Set(Remove(st.conditions, DEGRADED), ReadyTrue(g), p.now), g, p.fields, p.now);
    FieldsShownLists(cs, g, p.fields);
    ShowsSays(cs, ReadyTrue(g));
    AbsentIs(cs, DEGRADED);
  }

  lemma DegradedTells(st: Status, p: Pass)
    requires p.outcome.IsDegraded?
    ensures Tells(AfterDegraded(st, p.generation, p.outcome.reason, p.outcome.message, p.fields, p.now), p)
  {
    var g, reason, m := p.generation, p.outcome.reason, p.outcome.message;
    var d, r := DegradedTrue(g, reason, m), ReadyFalse(g, reason, m);
    var cs := SetBoth(st.conditions, d, r, p.fields, p.now);
    SetBothTypes(st.conditions, d, r, p.fields, p.now);
    SetBothNoop(st.conditions, d, r, p.fields, p.now);
    FieldsShownLists(cs, g, p.fields);
    ShowsSays(cs, d);
    ShowsSays(cs, r);
  }

  /** A completed pass leaves a status that tells its outcome, unless it is a degraded pass on an
      endpoint that is degraded already for the same reason at the same generation: then only the
      message may be stale. */
  lemma StatusTells(st: Status, p: Pass, fieldsAt: int -> seq<Field>)
    requires OperatorWritten(st, fieldsAt) && st.lastTransition != Some(p.now) && p.fields == fieldsAt(p.generation)
    ensures var st' := StoredAfter(st, p);
      || Tells(st', p)
      || (&& p.outcome.IsDegraded? && st' == st
          && exists stale :: Tells(st', p.(outcome := IsDegraded(p.outcome.reason, stale))))
  {
    match p.outcome {
      case IsReady(_, _) => ReadyTells(st, p);
      case IsDegraded(reason, m) =>
        DegradedTells(st, p);
        LostExactlyOnMessageChange(st, p.generation, reason, m, fieldsAt, p.now);
        if StoredAfter(st, p) != AfterDegraded(st, p.generation, reason, m, p.fields, p.now) {
          var stale := Find(st.conditions, DEGRADED).value.message;
          ShowsSays(st.conditions, DegradedTrue(p.generation, reason, stale));
          ShowsSays(st.conditions, ReadyFalse(p.generation, reason, stale));
          FieldsShownLists(st.conditions, p.generation, p.fields);
          assert Tells(st, p.(outcome := IsDegraded(reason, stale)));
        }
    }
  }

  function Stored(st: Status, history: seq<Pass>): Status {
    if history == [] then st
    else StoredAfter(Stored(st, history[..|history| - 1]), history[|history| - 1])
  }

  ghost predicate ClockAdvances(history: seq<Pass>) {
    forall i, j :: 0 <= i < j < |history| ==> history[i].now < history[j].now
  }

  /** The stored Ready condition tells the streak `o` belongs to, and the time is its start. */
  ghost predicate HeldSince(st: Status, o: Outcome, time: int) {
    && Find(st.conditions, READY).Some?
    && Find(st.conditions, READY).value.status == StatusOf(o)
    && Find(st.conditions, READY).value.reason == ReasonOf(o)
    && st.lastTransition == Some(time)
  }

  lemma PassHolds(st: Status, p: Pass)
    requires st.lastTransition != Some(p.now)
    ensures HeldSince(StoredAfter(st, p), p.outcome,
                      TransitionTime(st, StatusOf(p.outcome), ReasonOf(p.outcome), p.now).value)
  {
    match p.outcome {
      case IsDegraded(reason, m) =>
        var d, r := DegradedTrue(p.generation, reason, m), ReadyFalse(p.generation, reason, m);
        SetBothTypes(st.conditions, d, r, p.fields, p.now);
      case IsReady(active, hostnames) =>
        ReadyShows(st.conditions, p.generation, p.fields, p.now);
    }
  }

  lemma StreakContinues(st: Status, prev: Outcome, time: int, p: Pass)
    requires HeldSince(st, prev, time) && time < p.now
    ensures HeldSince(StoredAfter(st, p), p.outcome, if Label(prev) == Label(p.outcome) then time else p.now)
  {
    PassHolds(st, p);
  }

  lemma StoredLast(st: Status, history: seq<Pass>)
    requires history != []
    ensures Stored(st, history) == StoredAfter(Stored(st, history[..|history| - 1]), history[|history| - 1])
  {
  }

  lemma FirstPassHolds(st: Status, p: Pass)
    requires !HasType(st.conditions, READY) && st.lastTransition.None?
    ensures HeldSince(Stored(st, [p]), p.outcome, p.now)
  {
    PassHolds(st, p);
    assert [p][..0] == [];
  }

  /** Over any history with an advancing clock, lost updates included, the stored transition time
      is the clock reading of the pass that began the current streak of (Ready status, reason). */
  lemma {:induction false} TransitionTimeIsStreakStart(st: Status, history: seq<Pass>, i: nat)
    requires !HasType(st.conditions, READY) && st.lastTransition.None?
    requires ClockAdvances(history) && StreakBegins(Labels(history), i)
    ensures HeldSince(Stored(st, history), history[|history| - 1].outcome, history[i].now)
    decreases |history|
  {
    var n := |history|;
    var before, last := history[..n - 1], history[n - 1];
    if n == 1 {
      FirstPassHolds(st, last);
      assert history == [last];
    } else {
      var j := StreakStep(history, i);
      TransitionTimeIsStreakStart(st, before, j);
      StreakContinues(Stored(st, before), before[n - 2].outcome, before[j].now, last);
      StoredLast(st, history);
    }
  }

  lemma StreakStep(history: seq<Pass>, i: nat) returns (j: nat)
    requires |history| > 1 && ClockAdvances(history) && StreakBegins(Labels(history), i)
    ensures var n := |history|;
      var before := history[..n - 1];
      && ClockAdvances(before) && StreakBegins(Labels(before), j)
      && before[j].now < history[n - 1].now
      && var same := Label(before[n - 2].outcome) == Label(history[n - 1].outcome);
         history[i].now == if same then before[j].now else history[n - 1].now
  {
    assert Labels(history[..|history| - 1]) == Labels(history)[..|history| - 1];
    j := StreakBefore(Labels(history), i);
  }
}
