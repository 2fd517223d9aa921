/** The DatastoreBinding's two status writers. Degraded passes edit the stored conditions through
    a shared array; what saves them is that Message is compared on its own. */
module BindingStatus {
  import opened Types
  import opened Conditions

  datatype Status = Status(conditions: seq<Condition>, observedGeneration: int, message: Message)

  function DegradedTrue(generation: int, m: Message): Wanted
    requires m.About?
  {
    Wanted(DEGRADED, StatusTrue, generation, m.reason, m)
  }

  function ReadyFalse(generation: int, m: Message): Wanted
    requires m.About?
  {
    Wanted(READY, StatusFalse, generation, m.reason, m)
  }

  function ReadyTrue(generation: int): Wanted {
    Wanted(READY, StatusTrue, generation, Reconciled, About(Reconciled, []))
  }

  /** The status setDegradedStatus computes. */
  function AfterDegraded(st: Status, generation: int, m: Message, fields: seq<Field>, now: int): Status
    requires m.About?
  {
    Status(SetBoth(st.conditions, DegradedTrue(generation, m), ReadyFalse(generation, m), fields, now), generation, m)
  }

  /** The status setReadyStatus computes. */
  function AfterReady(st: Status, generation: int, fields: seq<Field>, now: int): Status {
    Status(SetFields(Set(Remove(st.conditions, DEGRADED), ReadyTrue(generation), now), generation, fields, now),
           generation, BindingReadyText)
  }

  /** When setDegradedStatus writes: the comparison sees the scalar fields, and entries that were
      added or removed, but not entries edited in place. */
  predicate DegradedWrites(st: Status, generation: int, m: Message, fields: seq<Field>)
    requires m.About?
  {
    EditsDetected(st.conditions, DegradedTrue(generation, m), ReadyFalse(generation, m), fields)
    || st.observedGeneration != generation || st.message != m
  }

  /** What is stored after setDegradedStatus has returned without an API error. */
  function StoredAfterDegraded(st: Status, generation: int, m: Message, fields: seq<Field>, now: int): Status
    requires m.About?
  {
    if DegradedWrites(st, generation, m, fields) then AfterDegraded(st, generation, m, fields, now) else st
  }

  /** One completed pass: the text of the problem it found, if any. */
  datatype Pass = Pass(problem: Option<Message>, generation: int, fields: seq<Field>, now: int) {
    predicate Valid() { problem.Some? ==> problem.value.About? }
  }

  /** What is stored after it. */
  function StoredAfter(st: Status, p: Pass): Status
    requires p.Valid()
  {
    match p.problem
    case Some(m) => StoredAfterDegraded(st, p.generation, m, p.fields, p.now)
    case None => AfterReady(st, p.generation, p.fields, p.now)
  }

  function Stored(st: Status, history: seq<Pass>): Status
    requires forall i :: 0 <= i < |history| ==> history[i].Valid()
  {
    if history == [] then st
    else StoredAfter(Stored(st, history[..|history| - 1]), history[|history| - 1])
  }

  class StatusInMemory {
    var conditions: Slice
    var observedGeneration: int
    var message: Message

    ghost predicate Valid()
      reads this
    {
      conditions.Valid()
    }

    ghost function View(): Status
      requires Valid()
      reads this, conditions.buf
    {
      Status(conditions.View(), observedGeneration, message)
    }

    constructor (conditions: Slice, observedGeneration: int, message: Message)
      requires conditions.Valid()
      ensures Valid() && View() == Status(conditions.View(), observedGeneration, message)
    {
      this.conditions := conditions;
      this.observedGeneration := observedGeneration;
      this.message := message;
    }

    method SetDegradedStatus(generation: int, m: Message, fields: seq<Field>, now: int)
      returns (update: Option<Status>)
      requires Valid() && m.About?
      modifies conditions.buf
      ensures update == if DegradedWrites(old(View()), generation, m, fields)
                        then Some(AfterDegraded(old(View()), generation, m, fields, now)) else None
    {
      var next, same := SetBothAndCompare(
        conditions, DegradedTrue(generation, m), ReadyFalse(generation, m), fields, now);
      if same && observedGeneration == generation && message == m {
        update := None;
      } else {
        update := Some(Status(next.View(), generation, m));
      }
    }

    /** Removing Degraded first copies the list, so this writer never loses an update. */
    method SetReadyStatus(generation: int, fields: seq<Field>, now: int) returns (update: Option<Status>)
      requires Valid()
      modifies conditions.buf
      ensures Valid() && View() == old(View())
      ensures update == if AfterReady(View(), generation, fields, now) == View() then None
                        else Some(AfterReady(View(), generation, fields, now))
    {
      var next := RemoveStatusCondition(conditions, DEGRADED);
      next := SetStatusCondition(next, ReadyTrue(generation), now);
      next := SetFieldsNotEnforcedCondition(next, generation, fields, now);
      if conditions.View() == next.View() && observedGeneration == generation && message == BindingReadyText {
        update := None;
      } else {
        update := Some(Status(next.View(), generation, BindingReadyText));
      }
    }
  }

  /** A status this operator wrote: with both conditions present they tell one story, and it is
      the one in Message. `fieldsAt` maps a generation to its unenforced fields. */
  ghost predicate OperatorWritten(st: Status, fieldsAt: int -> seq<Field>) {
    HasType(st.conditions, DEGRADED) && HasType(st.conditions, READY) ==>
      && st.message.About?
      && Shows(st.conditions, DegradedTrue(st.observedGeneration, st.message))
      && Shows(st.conditions, ReadyFalse(st.observedGeneration, st.message))
      && FieldsShown(st.conditions, st.observedGeneration, fieldsAt(st.observedGeneration))
  }

  /** The write test is exact for bindings: from every operator-written status, a completed
      degraded pass leaves exactly the computed status stored, and that is operator-written. */
  lemma DegradedWriteExact(st: Status, generation: int, m: Message, fieldsAt: int -> seq<Field>, now: int)
    requires OperatorWritten(st, fieldsAt) && m.About?
    ensures var st' := StoredAfterDegraded(st, generation, m, fieldsAt(generation), now);
      st' == AfterDegraded(st, generation, m, fieldsAt(generation), now) && OperatorWritten(st', fieldsAt)
  {
    var d, r, fields := DegradedTrue(generation, m), ReadyFalse(generation, m), fieldsAt(generation);
    SetBothTypes(st.conditions, d, r, fields, now);
    SetBothNoop(st.conditions, d, r, fields, now);
  }

  lemma ReadyStaysOperatorWritten(
    st: Status, generation: int, fields: seq<Field>, fieldsAt: int -> seq<Field>, now: int)
    ensures OperatorWritten(AfterReady(st, generation, fields, now), fieldsAt)
    ensures !HasType(AfterReady(st, generation, fields, now).conditions, DEGRADED)
    ensures Shows(AfterReady(st, generation, fields, now).conditions, ReadyTrue(generation))
  {
    var kept := Remove(st.conditions, DEGRADED);
    RemoveFind(st.conditions, DEGRADED, DEGRADED);
    SetFind(kept, ReadyTrue(generation), now, DEGRADED);
    SetFieldsFind(Set(kept, ReadyTrue(generation), now), generation, fields, now, DEGRADED);
    SetFieldsFind(Set(kept, ReadyTrue(generation), now), generation, fields, now, READY);
  }

  /** What a binding's status says after a pass: the problem in Message and in both conditions, or that
      the binding is ready. */
  ghost predicate Tells(st: Status, p: Pass) {
    && st.observedGeneration == p.generation && ListsFields(st.conditions, p.generation, p.fields)
    && match p.problem
       case Some(m) =>
         && st.message == m && m.About?
         && Says(st.conditions, DEGRADED, StatusTrue, p.generation, m.reason, m)
         && Says(st.conditions, READY, StatusFalse, p.generation, m.reason, m)
       case None =>
         && st.message == BindingReadyText && Absent(st.conditions, DEGRADED)
         && Says(st.conditions, READY, StatusTrue, p.generation, Reconciled, About(Reconciled, []))
  }

  /** From every status this operator wrote, a completed pass leaves a status that tells its outcome. */
  lemma StatusTells(st: Status, p: Pass, fieldsAt: int -> seq<Field>)
    requires p.Valid() && OperatorWritten(st, fieldsAt) && p.fields == fieldsAt(p.generation)
    ensures Tells(StoredAfter(st, p), p)
  {
    var g, cs := p.generation, StoredAfter(st, p).conditions;
    FieldsShownLists(cs, g, p.fields);
    match p.problem {
      case Some(m) =>
        DegradedWriteExact(st, g, m, fieldsAt, p.now);
        SetBothTypes(st.conditions, DegradedTrue(g, m), ReadyFalse(g, m), p.fields, p.now);
        SetBothNoop(st.conditions, DegradedTrue(g, m), ReadyFalse(g, m), p.fields, p.now);
        ShowsSays(cs, DegradedTrue(g, m));
        ShowsSays(cs, ReadyFalse(g, m));
      case None =>
        ReadyStaysOperatorWritten(st, g, p.fields, fieldsAt, p.now);
        SetFieldsNoop(Set(Remove(st.conditions, DEGRADED), ReadyTrue(g), p.now), g, p.fields, p.now);
        ShowsSays(cs, ReadyTrue(g));
        AbsentIs(cs, DEGRADED);
    }
  }

  // ---------------------------------------------------------------------- rendered messages

  predicate Unquoted(s: string) { '\"' !in s }

  function Quote(s: string): string { ['\"'] + s + ['\"'] }

  /** The opening words of the five degraded messages, up to the point where no two can agree. */
  function Opening(r: Reason, name: string): string
    requires BindingReason(r)
  {
    match r
    case UnsupportedEngine => "Engine " + name
    case WorkloadNotFound => "Workload " + name
    case ConnectionSecretNotFound => "Secret " + name
    case DeploymentNotFound => "Deployment " + Quote(name) + " was"
    case DeploymentOwnershipConflict => "Deployment " + Quote(name) + " in"
  }

  predicate BindingReason(r: Reason) {
    r.UnsupportedEngine? || r.WorkloadNotFound? || r.ConnectionSecretNotFound? || r.DeploymentNotFound?
    || r.DeploymentOwnershipConflict?
  }

  /** The rendered text determines the reason, so comparing Message strings is as good as comparing
      reasons, whatever follows the openings. Deployment names are DNS names and hold no
      quotation mark; engine names may. */
  lemma TextDeterminesReason(r: Reason, name: string, rest: string, r': Reason, name': string, rest': string)
    requires BindingReason(r) && BindingReason(r')
    requires r.DeploymentNotFound? || r.DeploymentOwnershipConflict? ==> Unquoted(name)
    requires r'.DeploymentNotFound? || r'.DeploymentOwnershipConflict? ==> Unquoted(name')
    requires Opening(r, name) + rest == Opening(r', name') + rest'
    ensures r == r'
  {
    var x, y := Opening(r, name) + rest, Opening(r', name') + rest';
    assert x[0] == FirstLetter(r) && y[0] == FirstLetter(r');
    if r.DeploymentNotFound? && r'.DeploymentOwnershipConflict? {
      OpeningsPart(name, rest, name', rest');
    }
    if r'.DeploymentNotFound? && r.DeploymentOwnershipConflict? {
      OpeningsPart(name', rest', name, rest);
    }
  }

  lemma OpeningsPart(a: string, restA: string, b: string, restB: string)
    requires Unquoted(a) && Unquoted(b)
    ensures Opening(DeploymentNotFound, a) + restA != Opening(DeploymentOwnershipConflict, b) + restB
  {
    var x, y := Opening(DeploymentNotFound, a) + restA, Opening(DeploymentOwnershipConflict, b) + restB;
    assert x == "Deployment " + Quote(a) + (" was" + restA);
    assert y == "Deployment " + Quote(b) + (" in" + restB);
    var wasA, inB := " was" + restA, " in" + restB;
    assert wasA[1] == 'w' && inB[1] == 'i';
    if x == y {
      QuotedNamesAgree("Deployment ", a, wasA, b, inB);
    }
  }

  function FirstLetter(r: Reason): char {
    match r
    case UnsupportedEngine => 'E'
    case WorkloadNotFound => 'W'
    case ConnectionSecretNotFound => 'S'
    case _ => 'D'
  }

  lemma QuotedNamesAgree(prefix: string, a: string, restA: string, b: string, restB: string)
    requires Unquoted(a) && Unquoted(b)
    requires prefix + Quote(a) + restA == prefix + Quote(b) + restB
    ensures a == b && restA == restB
  {
    var x, y, p := prefix + Quote(a) + restA, prefix + Quote(b) + restB, |prefix| + 1;
    assert forall i :: 0 <= i < |a| ==> x[p + i] == a[i];
    assert forall i :: 0 <= i < |b| ==> y[p + i] == b[i];
    assert x[p + |a|] == '\"' && y[p + |b|] == '\"';
    assert |a| == |b|;
    assert a == x[p..p + |a|] && b == y[p..p + |b|];
    assert restA == x[p + |a| + 1..] && restB == y[p + |b| + 1..];
  }
}
