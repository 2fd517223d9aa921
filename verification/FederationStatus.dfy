/** The Federation's status writer: counting ready members in 32 bits, and three branches of
    conditions edited through a shared array. */
module FederationStatus {
  import opened Types
  import opened Api
  import opened Conditions

  datatype MemberStatus = MemberStatus(name: string, ready: bool)

  datatype Status = Status(
    conditions: seq<Condition>, observedGeneration: int, readyMembers: int, members: seq<MemberStatus>)

  const TWO31 := 0x8000_0000
  const TWO32 := 0x1_0000_0000

  /** Conversion to int32, and int32 overflow. */
  function Int32(x: int): int { (x + TWO31) % TWO32 - TWO31 }

  function MemberStatuses(members: seq<ClusterMember>): seq<MemberStatus> {
    seq(|members|, i requires 0 <= i < |members| => MemberStatus(members[i].name, members[i].ready))
  }

  /** How many entries are ready. */
  function ReadyIn(members: seq<MemberStatus>): nat {
    if members == [] then 0 else ReadyIn(members[..|members| - 1]) + if members[|members| - 1].ready then 1 else 0
  }

  function Ready(members: seq<ClusterMember>): nat { ReadyIn(MemberStatuses(members)) }

  lemma ReadyLast(members: seq<ClusterMember>)
    requires members != []
    ensures var n := |members| - 1; Ready(members) == Ready(members[..n]) + if members[n].ready then 1 else 0
  {
    var n := |members| - 1;
    assert MemberStatuses(members)[..n] == MemberStatuses(members[..n]);
  }

  /** Counting is counting: the count is the number of positions whose member is ready. */
  lemma {:induction false} ReadyCounts(members: seq<ClusterMember>)
    ensures Ready(members) == |set i | 0 <= i < |members| && members[i].ready|
  {
    if members != [] {
      var n := |members| - 1;
      ReadyCounts(members[..n]);
      ReadyLast(members);
      var before, all := set i | 0 <= i < n && members[..n][i].ready, set i | 0 <= i < |members| && members[i].ready;
      assert all == if members[n].ready then before + {n} else before;
    }
  }

  /** The test the code makes. */
  predicate AllReady(members: seq<ClusterMember>) {
    |members| > 0 && Int32(Ready(members)) == Int32(|members|)
  }

  function ReadyTrue(generation: int): Wanted {
    Wanted(READY, StatusTrue, generation, AllMembersReady, About(AllMembersReady, []))
  }

  function ReadyNone(generation: int): Wanted {
    Wanted(READY, StatusFalse, generation, NoMembers, About(NoMembers, []))
  }

  function ReadySome(generation: int): Wanted {
    Wanted(READY, StatusFalse, generation, MembersNotReady, About(MembersNotReady, []))
  }

  function DegradedSome(generation: int): Wanted {
    Wanted(DEGRADED, StatusTrue, generation, MembersNotReady, About(MembersNotReady, []))
  }

  function ConditionsAfter(
    cs: seq<Condition>, generation: int, members: seq<ClusterMember>, fields: seq<Field>, now: int)
    : seq<Condition>
  {
    if AllReady(members) then SetThenRemove(cs, ReadyTrue(generation), DEGRADED, fields, now)
    else if members == [] then SetThenRemove(cs, ReadyNone(generation), DEGRADED, fields, now)
    else SetBoth(cs, ReadySome(generation), DegradedSome(generation), fields, now)
  }

  /** The status reconcileStatus computes. */
  function After(st: Status, generation: int, members: seq<ClusterMember>, fields: seq<Field>, now: int): Status {
    Status(ConditionsAfter(st.conditions, generation, members, fields, now), generation,
           Int32(Ready(members)), MemberStatuses(members))
  }

  /** Whether the comparison on conditions reports a difference, given the shared array. */
  predicate ConditionsSame(
    cs: seq<Condition>, generation: int, members: seq<ClusterMember>, fields: seq<Field>, now: int)
  {
    if AllReady(members) then
      HasType(cs, READY) && ConditionsAfter(cs, generation, members, fields, now) == Set(cs, ReadyTrue(generation), now)
    else if members == [] then
      HasType(cs, READY) && ConditionsAfter(cs, generation, members, fields, now) == Set(cs, ReadyNone(generation), now)
    else
      !EditsDetected(cs, ReadySome(generation), DegradedSome(generation), fields)
  }

  predicate Writes(st: Status, generation: int, members: seq<ClusterMember>, fields: seq<Field>, now: int) {
    || !ConditionsSame(st.conditions, generation, members, fields, now)
    || st.observedGeneration != generation
    || st.readyMembers != Int32(Ready(members)) || st.members != MemberStatuses(members)
  }

  function Stored(st: Status, generation: int, members: seq<ClusterMember>, fields: seq<Field>, now: int): Status {
    if Writes(st, generation, members, fields, now) then After(st, generation, members, fields, now) else st
  }

  class StatusInMemory {
    var conditions: Slice
    var observedGeneration: int
    var readyMembers: int
    var members: seq<MemberStatus>

    ghost predicate Valid()
      reads this
    {
      conditions.Valid()
    }

    ghost function View(): Status
      requires Valid()
      reads this, conditions.buf
    {
      Status(conditions.View(), observedGeneration, readyMembers, members)
    }

    constructor (conditions: Slice, st: Status)
      requires conditions.Valid() && conditions.View() == st.conditions
      ensures Valid() && View() == st
    {
      this.conditions := conditions;
      observedGeneration, readyMembers, members := st.observedGeneration, st.readyMembers, st.members;
    }

    method ReconcileStatus(generation: int, resolved: seq<ClusterMember>, fields: seq<Field>, now: int)
      returns (update: Option<Status>)
      requires Valid()
      modifies conditions.buf
      ensures update == if Writes(old(View()), generation, resolved, fields, now)
                        then Some(After(old(View()), generation, resolved, fields, now)) else None
    {
      var statuses, readyCount := Count(resolved);
      var allReady := |resolved| > 0 && readyCount == Int32(|resolved|);
      var next, same;
      if allReady {
        next, same := SetThenRemoveAndCompare(conditions, ReadyTrue(generation), DEGRADED, fields, now);
      } else if |resolved| == 0 {
        next, same := SetThenRemoveAndCompare(conditions, ReadyNone(generation), DEGRADED, fields, now);
      } else {
        next, same := SetBothAndCompare(conditions, ReadySome(generation), DegradedSome(generation), fields, now);
      }
      if same && observedGeneration == generation && readyMembers == readyCount && members == statuses {
        update := None;
      } else {
        update := Some(Status(next.View(), generation, readyCount, statuses));
      }
    }

    /** The counting loop; the counter is an int32. */
    static method Count(resolved: seq<ClusterMember>) returns (statuses: seq<MemberStatus>, readyCount: int)
      ensures statuses == MemberStatuses(resolved)
      ensures readyCount == Int32(Ready(resolved))
    {
      statuses, readyCount := [], 0;
      for i := 0 to |resolved|
        invariant statuses == MemberStatuses(resolved[..i])
        invariant readyCount == Int32(Ready(resolved[..i]))
      {
        assert resolved[..i + 1][..i] == resolved[..i];
        ReadyLast(resolved[..i + 1]);
        if resolved[i].ready {
          readyCount := Int32(readyCount + 1);
        }
        statuses := statuses + [MemberStatus(resolved[i].name, resolved[i].ready)];
      }
      assert resolved[..|resolved|] == resolved;
    }
  }

  // ------------------------------------------------------------------------------- counting

  lemma {:induction false} ReadyBounds(members: seq<ClusterMember>)
    ensures Ready(members) <= |members|
    ensures Ready(members) == |members| <==> forall m :: m in members ==> m.ready
  {
    if members != [] {
      var before, last := members[..|members| - 1], members[|members| - 1];
      ReadyBounds(before);
      ReadyLast(members);
      assert last in members;
      assert forall m :: m in members <==> m in before || m == last;
    }
  }

  lemma Int32Congruent(a: nat, b: nat)
    ensures Int32(a) == Int32(b) <==> (a - b) % TWO32 == 0
  {
    var x, y := a + TWO31, b + TWO31;
    assert x == TWO32 * (x / TWO32) + x % TWO32 && y == TWO32 * (y / TWO32) + y % TWO32;
    if x % TWO32 == y % TWO32 {
      assert a - b == TWO32 * (x / TWO32 - y / TWO32);
      MultipleMod(x / TWO32 - y / TWO32);
    }
    if (a - b) % TWO32 == 0 {
      var q := (a - b) / TWO32;
      assert x == TWO32 * (q + y / TWO32) + y % TWO32;
    }
  }

  lemma MultipleMod(q: int)
    ensures (TWO32 * q) % TWO32 == 0
  {
  }

  /** Exactness of the readiness test for any number of members: it is right unless the number of
      unready members is a positive multiple of 2^32. */
  lemma AllReadyExact(members: seq<ClusterMember>)
    ensures (AllReady(members) <==> Good(members))
       <==> !(Ready(members) < |members| && (|members| - Ready(members)) % TWO32 == 0)
  {
    ReadyBounds(members);
    Int32Congruent(|members|, Ready(members));
  }

  predicate Good(members: seq<ClusterMember>) {
    members != [] && forall m :: m in members ==> m.ready
  }

  lemma SmallCounts(members: seq<ClusterMember>)
    requires |members| < TWO31
    ensures Int32(Ready(members)) == Ready(members)
    ensures AllReady(members) <==> Good(members)
  {
    ReadyBounds(members);
    Int32Small(Ready(members));
    Int32Small(|members|);
  }

  lemma Int32Small(x: nat)
    requires x < TWO31
    ensures Int32(x) == x
  {
    assert (x + TWO31) % TWO32 == x + TWO31;
  }

  /** What a Federation's status says of its members. */
  ghost predicate Tells(st: Status, generation: int, members: seq<ClusterMember>, fields: seq<Field>) {
    && st.observedGeneration == generation && ListsFields(st.conditions, generation, fields)
    && |st.members| == |members|
    && (forall i :: 0 <= i < |members| ==> st.members[i] == MemberStatus(members[i].name, members[i].ready))
    && (Good(members) ==>
          && Says(st.conditions, READY, StatusTrue, generation, AllMembersReady, About(AllMembersReady, []))
          && Absent(st.conditions, DEGRADED))
    && (members == [] ==>
          && Says(st.conditions, READY, StatusFalse, generation, NoMembers, About(NoMembers, []))
          && Absent(st.conditions, DEGRADED))
    && (members != [] && !Good(members) ==>
          && Says(st.conditions, READY, StatusFalse, generation, MembersNotReady, About(MembersNotReady, []))
          && Says(st.conditions, DEGRADED, StatusTrue, generation, MembersNotReady, About(MembersNotReady, [])))
  }

  /** Below 2^31 members the stored count is the number of ready entries, Ready is True exactly when
      the list is non-empty and all are ready, and Degraded is present exactly when it is non-empty
      and some are not; for any prior status. */
  lemma FederationReadiness(st: Status, generation: int, members: seq<ClusterMember>, fields: seq<Field>, now: int)
    requires |members| < TWO31
    ensures var st' := After(st, generation, members, fields, now);
      && st'.readyMembers == Ready(members)
      && Find(st'.conditions, READY).Some?
      && (Find(st'.conditions, READY).value.status == StatusTrue <==> Good(members))
      && (HasType(st'.conditions, DEGRADED) <==> members != [] && !Good(members))
    ensures Tells(After(st, generation, members, fields, now), generation, members, fields)
  {
    SmallCounts(members);
    var cs, out := st.conditions, ConditionsAfter(st.conditions, generation, members, fields, now);
    FieldsShownLists(out, generation, fields);
    AbsentIs(out, DEGRADED);
    ShowsSays(out, ReadyTrue(generation));
    ShowsSays(out, ReadyNone(generation));
    ShowsSays(out, ReadySome(generation));
    ShowsSays(out, DegradedSome(generation));
    if AllReady(members) {
      SetThenRemoveShows(cs, ReadyTrue(generation), fields, now);
    } else if members == [] {
      SetThenRemoveShows(cs, ReadyNone(generation), fields, now);
    } else {
      SetBothTypes(cs, ReadySome(generation), DegradedSome(generation), fields, now);
      SetBothNoop(cs, ReadySome(generation), DegradedSome(generation), fields, now);
    }
  }

  lemma SetThenRemoveShows(cs: seq<Condition>, w: Wanted, fields: seq<Field>, now: int)
    requires w.ctype == READY
    ensures var out := SetThenRemove(cs, w, DEGRADED, fields, now);
      Shows(out, w) && !HasType(out, DEGRADED) && FieldsShown(out, w.generation, fields)
  {
    var one := Set(cs, w, now);
    var two := Remove(one, DEGRADED);
    SetFind(cs, w, now, READY);
    RemoveFind(one, DEGRADED, READY);
    RemoveFind(one, DEGRADED, DEGRADED);
    SetFieldsFind(two, w.generation, fields, now, READY);
    SetFieldsFind(two, w.generation, fields, now, DEGRADED);
    SetFieldsNoop(two, w.generation, fields, now);
  }

  // ------------------------------------------------------------- the write test under aliasing

  /** A status this operator wrote: its conditions are those its own member list calls for. */
  ghost predicate OperatorWritten(st: Status, fieldsAt: int -> seq<Field>) {
    HasType(st.conditions, READY) ==>
      var g, n := st.observedGeneration, |st.members|;
      && FieldsShown(st.conditions, g, fieldsAt(g))
      && (if n > 0 && Int32(ReadyIn(st.members)) == Int32(n) then
            Shows(st.conditions, ReadyTrue(g)) && !HasType(st.conditions, DEGRADED)
          else if n == 0 then
            Shows(st.conditions, ReadyNone(g)) && !HasType(st.conditions, DEGRADED)
          else
            Shows(st.conditions, ReadySome(g)) && Shows(st.conditions, DegradedSome(g)))
  }

  /** Conditions follow from Members and generation, both of which are compared, so editing them
      through the shared array never hides an update: from every operator-written status a completed
      pass stores exactly the computed status, and that is operator-written again. */
  lemma WriteExact(st: Status, generation: int, members: seq<ClusterMember>, fieldsAt: int -> seq<Field>, now: int)
    requires OperatorWritten(st, fieldsAt)
    ensures Stored(st, generation, members, fieldsAt(generation), now)
         == After(st, generation, members, fieldsAt(generation), now)
    ensures OperatorWritten(After(st, generation, members, fieldsAt(generation), now), fieldsAt)
  {
    var fields, cs := fieldsAt(generation), st.conditions;
    var w := if AllReady(members) then ReadyTrue(generation) else ReadyNone(generation);
    if AllReady(members) || members == [] {
      SetThenRemoveShows(cs, w, fields, now);
      SetNoop(cs, w, now);
    } else {
      SetBothTypes(cs, ReadySome(generation), DegradedSome(generation), fields, now);
      SetBothNoop(cs, ReadySome(generation), DegradedSome(generation), fields, now);
    }
  }
}
