/** Status conditions, their library edit functions, and the slices that hold them. A Go slice
    is a window onto a backing array: copying a status struct copies the window, not the array,
    so an edit in place through the copy is visible through the original. */
module Conditions {
  import opened Types

  /** Condition type names, numbered. The first six are the ones this operator writes; every
      other number stands for somebody else's condition. */
  type ConditionType = nat

  const READY: ConditionType := 0
  const DEGRADED: ConditionType := 1
  const PENDING: ConditionType := 2
  const APPLIED: ConditionType := 3
  const AVAILABLE: ConditionType := 4
  const FIELDS_NOT_ENFORCED: ConditionType := 5

  datatype ConditionStatus = StatusTrue | StatusFalse | StatusUnknown

  /** The reasons the controllers report. */
  datatype Reason =
    | ApplySucceeded | DeploymentAvailable | DeploymentReconciling | AcceptedNotEnforced | Reconciled
    | AllMembersReady | NoMembers | MembersNotReady
    | NotAFederationMember | ExcludedByTargetPolicy | InvalidTargetPolicy | SecretNotFound | ConfigMapNotFound
    | ClusterMemberNotFound | FederationNotFound | InvalidFederationSelector
    | DeploymentOwnershipConflict | ServiceOwnershipConflict
    | WorkloadNotFound | ServiceNotFound | PrimaryMemberNotFound | PrimaryMemberNotInFederation
    | UnsupportedEngine | ConnectionSecretNotFound | DeploymentNotFound

  /** Spec fields that are accepted but not acted on. */
  datatype Field =
    | TargetPolicyStrategy | RolloutRef | FailoverPolicy | GatewayRef | ConflictPolicy | DefaultTargetPolicy

  /** Message texts, by what determines them: the text that goes with a reason and names the given
      objects, a fixed text of a target, or the list of unenforced fields. */
  datatype Message =
    | About(reason: Reason, names: seq<string>)
    | TargetAvailableText | TargetReconcilingText | BindingReadyText
    | FieldsText(fields: seq<Field>)
    | NoText

  datatype Condition = Condition(
    ctype: ConditionType, status: ConditionStatus, generation: int, lastTransition: int,
    reason: Reason, message: Message)

  /** What a reconciler asks for; the library supplies the transition time. */
  datatype Wanted = Wanted(
    ctype: ConditionType, status: ConditionStatus, generation: int, reason: Reason, message: Message)

  // ---------------------------------------------------------------- condition lists as values

  /** The first condition of a type, or -1. */
  function Index(cs: seq<Condition>, t: ConditionType): (r: int)
    ensures -1 <= r < |cs|
    ensures r >= 0 ==> cs[r].ctype == t && forall i :: 0 <= i < r ==> cs[i].ctype != t
    ensures r < 0 ==> forall i :: 0 <= i < |cs| ==> cs[i].ctype != t
  {
    if cs == [] then -1
    else if cs[0].ctype == t then 0
    else
      var r := Index(cs[1..], t);
      if r < 0 then -1 else r + 1
  }

  predicate HasType(cs: seq<Condition>, t: ConditionType) { Index(cs, t) >= 0 }

  /** FindStatusCondition. */
  function Find(cs: seq<Condition>, t: ConditionType): Option<Condition> {
    if HasType(cs, t) then Some(cs[Index(cs, t)]) else None
  }

  function Edited(old_: Condition, c: Wanted, now: int): Condition {
    Condition(old_.ctype, c.status, c.generation,
              if old_.status != c.status then now else old_.lastTransition, c.reason, c.message)
  }

  /** SetStatusCondition. */
  function Set(cs: seq<Condition>, c: Wanted, now: int): seq<Condition> {
    var i := Index(cs, c.ctype);
    if i >= 0 then cs[i := Edited(cs[i], c, now)]
    else cs + [Condition(c.ctype, c.status, c.generation, now, c.reason, c.message)]
  }

  /** RemoveStatusCondition. */
  function Remove(cs: seq<Condition>, t: ConditionType): seq<Condition> {
    if cs == [] then []
    else if cs[0].ctype == t then Remove(cs[1..], t)
    else [cs[0]] + Remove(cs[1..], t)
  }

  function FieldsWanted(generation: int, fields: seq<Field>): Wanted {
    Wanted(FIELDS_NOT_ENFORCED, StatusTrue, generation, AcceptedNotEnforced, FieldsText(fields))
  }

  /** setFieldsNotEnforcedCondition. */
  function SetFields(cs: seq<Condition>, generation: int, fields: seq<Field>, now: int): seq<Condition> {
    if fields == [] then Remove(cs, FIELDS_NOT_ENFORCED) else Set(cs, FieldsWanted(generation, fields), now)
  }

  ghost predicate UniqueTypes(cs: seq<Condition>) {
    forall i, j :: 0 <= i < j < |cs| ==> cs[i].ctype != cs[j].ctype
  }

  /** The condition, transition time aside, is the wanted one. */
  predicate MatchesWanted(c: Condition, w: Wanted) {
    c.ctype == w.ctype && c.status == w.status && c.generation == w.generation
    && c.reason == w.reason && c.message == w.message
  }

  predicate Shows(cs: seq<Condition>, w: Wanted) {
    HasType(cs, w.ctype) && MatchesWanted(cs[Index(cs, w.ctype)], w)
  }

  /** The informational condition says what `fields` requires it to say. */
  predicate FieldsShown(cs: seq<Condition>, generation: int, fields: seq<Field>) {
    if fields == [] then !HasType(cs, FIELDS_NOT_ENFORCED) else Shows(cs, FieldsWanted(generation, fields))
  }

  /** The first condition of type t, as a reader of the list finds it. */
  ghost predicate Says(cs: seq<Condition>, t: ConditionType, status: ConditionStatus, generation: int,
                       reason: Reason, message: Message)
  {
    exists i :: 0 <= i < |cs| && FirstOf(cs, t, i)
      && cs[i].status == status && cs[i].generation == generation && cs[i].reason == reason && cs[i].message == message
  }

  ghost predicate FirstOf(cs: seq<Condition>, t: ConditionType, i: nat)
    requires i < |cs|
  {
    cs[i].ctype == t && forall j :: 0 <= j < i ==> cs[j].ctype != t
  }

  ghost predicate Absent(cs: seq<Condition>, t: ConditionType) { forall c :: c in cs ==> c.ctype != t }

  /** The informational condition lists the unenforced fields, and is there only if there are some. */
  ghost predicate ListsFields(cs: seq<Condition>, generation: int, fields: seq<Field>) {
    if fields == [] then Absent(cs, FIELDS_NOT_ENFORCED)
    else Says(cs, FIELDS_NOT_ENFORCED, StatusTrue, generation, AcceptedNotEnforced, FieldsText(fields))
  }

  lemma ShowsSays(cs: seq<Condition>, w: Wanted)
    ensures Shows(cs, w) <==> Says(cs, w.ctype, w.status, w.generation, w.reason, w.message)
  {
    if HasType(cs, w.ctype) {
      assert FirstOf(cs, w.ctype, Index(cs, w.ctype));
    }
  }

  lemma AbsentIs(cs: seq<Condition>, t: ConditionType)
    ensures HasType(cs, t) <==> !Absent(cs, t)
  {
    if HasType(cs, t) { assert cs[Index(cs, t)] in cs; }
  }

  lemma FieldsShownLists(cs: seq<Condition>, generation: int, fields: seq<Field>)
    ensures FieldsShown(cs, generation, fields) <==> ListsFields(cs, generation, fields)
  {
    AbsentIs(cs, FIELDS_NOT_ENFORCED);
    ShowsSays(cs, FieldsWanted(generation, fields));
  }

  // ------------------------------------------------------------------------ laws of the edits

  lemma IndexIs(cs: seq<Condition>, t: ConditionType, r: int)
    requires 0 <= r < |cs| && cs[r].ctype == t
    requires forall i :: 0 <= i < r ==> cs[i].ctype != t
    ensures Index(cs, t) == r
  {
  }

  lemma SetFind(cs: seq<Condition>, c: Wanted, now: int, t: ConditionType)
    ensures t != c.ctype ==> Find(Set(cs, c, now), t) == Find(cs, t)
    ensures HasType(Set(cs, c, now), t) <==> t == c.ctype || HasType(cs, t)
    ensures Shows(Set(cs, c, now), c)
    ensures var was, out := Find(cs, c.ctype), Find(Set(cs, c, now), c.ctype);
      out.Some? && out.value.lastTransition
               == if was.Some? && was.value.status == c.status then was.value.lastTransition else now
  {
    var out := Set(cs, c, now);
    assert forall i :: 0 <= i < |cs| ==> out[i].ctype == cs[i].ctype;
    if HasType(cs, t) { IndexIs(out, t, Index(cs, t)); }
    if HasType(cs, c.ctype) {
      IndexIs(out, c.ctype, Index(cs, c.ctype));
    } else {
      IndexIs(out, c.ctype, |cs|);
    }
  }

  lemma {:induction false} RemoveFind(cs: seq<Condition>, gone: ConditionType, t: ConditionType)
    ensures Find(Remove(cs, gone), t) == if t == gone then None else Find(cs, t)
    ensures HasType(Remove(cs, gone), t) <==> t != gone && HasType(cs, t)
    ensures !HasType(cs, gone) ==> Remove(cs, gone) == cs
    ensures HasType(cs, gone) ==> Remove(cs, gone) != cs
  {
    if cs != [] {
      RemoveFind(cs[1..], gone, t);
      RemoveShrinks(cs, gone);
      var out := Remove(cs, gone);
      if cs[0].ctype != gone {
        assert out[1..] == Remove(cs[1..], gone);
      }
    }
  }

  lemma {:induction false} RemoveShrinks(cs: seq<Condition>, gone: ConditionType)
    ensures |Remove(cs, gone)| <= |cs|
    ensures HasType(cs, gone) ==> |Remove(cs, gone)| < |cs|
  {
    if cs != [] { RemoveShrinks(cs[1..], gone); }
  }

  lemma SetFieldsFind(cs: seq<Condition>, generation: int, fields: seq<Field>, now: int, t: ConditionType)
    ensures t != FIELDS_NOT_ENFORCED ==> Find(SetFields(cs, generation, fields, now), t) == Find(cs, t)
    ensures t != FIELDS_NOT_ENFORCED ==> (HasType(SetFields(cs, generation, fields, now), t) <==> HasType(cs, t))
    ensures HasType(SetFields(cs, generation, fields, now), FIELDS_NOT_ENFORCED) <==> fields != []
    ensures fields != [] ==> Shows(SetFields(cs, generation, fields, now), FieldsWanted(generation, fields))
  {
    RemoveFind(cs, FIELDS_NOT_ENFORCED, t);
    RemoveFind(cs, FIELDS_NOT_ENFORCED, FIELDS_NOT_ENFORCED);
    SetFind(cs, FieldsWanted(generation, fields), now, t);
    SetFind(cs, FieldsWanted(generation, fields), now, FIELDS_NOT_ENFORCED);
  }

  lemma {:induction false} RemoveMember(cs: seq<Condition>, gone: ConditionType, c: Condition)
    ensures c in Remove(cs, gone) <==> c in cs && c.ctype != gone
  {
    if cs != [] {
      RemoveMember(cs[1..], gone, c);
      assert cs == [cs[0]] + cs[1..];
    }
  }

  lemma {:induction false} RemoveUnique(cs: seq<Condition>, gone: ConditionType)
    requires UniqueTypes(cs)
    ensures UniqueTypes(Remove(cs, gone))
  {
    if cs != [] {
      assert UniqueTypes(cs[1..]);
      RemoveUnique(cs[1..], gone);
      var rest := Remove(cs[1..], gone);
      forall j | 0 <= j < |rest| ensures rest[j].ctype != cs[0].ctype {
        RemoveMember(cs[1..], gone, rest[j]);
      }
    }
  }

  lemma SetUnique(cs: seq<Condition>, c: Wanted, now: int)
    requires UniqueTypes(cs)
    ensures UniqueTypes(Set(cs, c, now))
  {
    assert forall i :: 0 <= i < |cs| ==> Set(cs, c, now)[i].ctype == cs[i].ctype;
  }

  lemma SetFieldsUnique(cs: seq<Condition>, generation: int, fields: seq<Field>, now: int)
    requires UniqueTypes(cs)
    ensures UniqueTypes(SetFields(cs, generation, fields, now))
  {
    RemoveUnique(cs, FIELDS_NOT_ENFORCED);
    SetUnique(cs, FieldsWanted(generation, fields), now);
  }

  /** Asking for what is already shown changes nothing; asking for anything else does. */
  lemma SetNoop(cs: seq<Condition>, c: Wanted, now: int)
    ensures Set(cs, c, now) == cs <==> Shows(cs, c)
  {
    SetFind(cs, c, now, c.ctype);
    if Shows(cs, c) {
      assert Edited(cs[Index(cs, c.ctype)], c, now) == cs[Index(cs, c.ctype)];
    }
  }

  lemma SetFieldsNoop(cs: seq<Condition>, generation: int, fields: seq<Field>, now: int)
    ensures SetFields(cs, generation, fields, now) == cs <==> FieldsShown(cs, generation, fields)
    ensures FieldsShown(SetFields(cs, generation, fields, now), generation, fields)
  {
    RemoveFind(cs, FIELDS_NOT_ENFORCED, FIELDS_NOT_ENFORCED);
    SetNoop(cs, FieldsWanted(generation, fields), now);
    SetFieldsFind(cs, generation, fields, now, FIELDS_NOT_ENFORCED);
  }

  // -------------------------------------------------------------------------------- slices

  datatype Slice = Slice(buf: array<Condition>, len: nat) {
    ghost predicate Valid()
    {
      len <= buf.Length
    }

    function View(): seq<Condition>
      requires Valid()
      reads buf
    {
      buf[..len]
    }
  }

  method FindIndex(s: Slice, t: ConditionType) returns (i: nat)
    requires s.Valid()
    ensures i == if HasType(s.View(), t) then Index(s.View(), t) else s.len
  {
    i := 0;
    while i < s.len && s.buf[i].ctype != t
      invariant i <= s.len && forall k :: 0 <= k < i ==> s.buf[k].ctype != t
    {
      i := i + 1;
    }
    if i < s.len { IndexIs(s.View(), t, i); }
  }

  /** SetStatusCondition: a matching entry is edited where it stands, in the shared array;
      otherwise Go's append uses spare capacity or moves to a larger array. */
  method SetStatusCondition(s: Slice, c: Wanted, now: int) returns (r: Slice)
    requires s.Valid()
    modifies s.buf
    ensures r.Valid() && r.View() == Set(old(s.View()), c, now)
    ensures HasType(old(s.View()), c.ctype) ==> r == s
    ensures !HasType(old(s.View()), c.ctype) ==> s.View() == old(s.View()) && r.len == s.len + 1
    ensures r.buf == s.buf || fresh(r.buf)
    ensures forall k :: 0 <= k < s.len ==> s.buf[k].ctype == old(s.buf[k].ctype)
  {
    var i := FindIndex(s, c.ctype);
    var fresh_ := Condition(c.ctype, c.status, c.generation, now, c.reason, c.message);
    ghost var was := s.View();
    if i < s.len {
      s.buf[i] := Edited(s.buf[i], c, now);
      assert s.View() == was[i := Edited(was[i], c, now)];
      return s;
    }
    if s.len < s.buf.Length {
      s.buf[s.len] := fresh_;
      r := Slice(s.buf, s.len + 1);
    } else {
      var grown := new Condition[2 * s.len + 1];
      forall k | 0 <= k < s.len { grown[k] := s.buf[k]; }
      grown[s.len] := fresh_;
      r := Slice(grown, s.len + 1);
    }
    assert r.View() == was + [fresh_];
  }

  /** RemoveStatusCondition: a non-empty list is copied to a new array even if nothing is removed. */
  method RemoveStatusCondition(s: Slice, t: ConditionType) returns (r: Slice)
    requires s.Valid()
    ensures r.Valid() && r.View() == Remove(s.View(), t)
    ensures if s.len == 0 then r == s else fresh(r.buf)
  {
    if s.len == 0 {
      return s;
    }
    var out := new Condition[s.len];
    var kept := 0;
    for i := 0 to s.len
      invariant kept <= i
      invariant out[..kept] == Remove(s.buf[..i], t)
    {
      RemoveSnoc(s.buf[..i], s.buf[i], t);
      assert s.buf[..i + 1] == s.buf[..i] + [s.buf[i]];
      if s.buf[i].ctype != t {
        out[kept] := s.buf[i];
        assert out[..kept + 1] == out[..kept] + [s.buf[i]];
        kept := kept + 1;
      }
    }
    r := Slice(out, kept);
  }

  lemma {:induction false} RemoveSnoc(cs: seq<Condition>, c: Condition, t: ConditionType)
    ensures Remove(cs + [c], t) == Remove(cs, t) + if c.ctype == t then [] else [c]
  {
    if cs == [] {
      assert cs + [c] == [c];
    } else {
      assert (cs + [c])[1..] == cs[1..] + [c];
      RemoveSnoc(cs[1..], c, t);
    }
  }

  method SetFieldsNotEnforcedCondition(s: Slice, generation: int, fields: seq<Field>, now: int) returns (r: Slice)
    requires s.Valid()
    modifies s.buf
    ensures r.Valid() && r.View() == SetFields(old(s.View()), generation, fields, now)
    ensures fields == [] ==> s.View() == old(s.View())
    ensures fields != [] && HasType(old(s.View()), FIELDS_NOT_ENFORCED) ==> r == s
    ensures fields != [] && !HasType(old(s.View()), FIELDS_NOT_ENFORCED) ==> s.View() == old(s.View())
    ensures forall k :: 0 <= k < s.len ==> s.buf[k].ctype == old(s.buf[k].ctype)
    ensures r.buf == s.buf || fresh(r.buf)
  {
    if fields == [] {
      r := RemoveStatusCondition(s, FIELDS_NOT_ENFORCED);
    } else {
      r := SetStatusCondition(s, FieldsWanted(generation, fields), now);
    }
  }

  // ------------------------------------------------- the two edit patterns without a fresh copy

  /** The comparison after two edits through a copied window can tell a difference exactly when
      some entry was added or removed: edited entries show through both windows. */
  predicate EditsDetected(cs: seq<Condition>, c1: Wanted, c2: Wanted, fields: seq<Field>) {
    !HasType(cs, c1.ctype) || !HasType(cs, c2.ctype) || (fields == [] <==> HasType(cs, FIELDS_NOT_ENFORCED))
  }

  function SetBoth(cs: seq<Condition>, c1: Wanted, c2: Wanted, fields: seq<Field>, now: int): seq<Condition> {
    SetFields(Set(Set(cs, c1, now), c2, now), c1.generation, fields, now)
  }

  /** Set two conditions and the informational one through a copy of `current`'s window, then
      compare. Used by setDegradedStatus, by ServiceEndpoint's reconcileDegraded and by one
      branch of Federation's reconcileStatus. */
  method SetBothAndCompare(current: Slice, c1: Wanted, c2: Wanted, fields: seq<Field>, now: int)
    returns (next: Slice, same: bool)
    requires current.Valid()
    requires c1.ctype != c2.ctype && c1.ctype != FIELDS_NOT_ENFORCED && c2.ctype != FIELDS_NOT_ENFORCED
    modifies current.buf
    ensures next.Valid() && next.View() == SetBoth(old(current.View()), c1, c2, fields, now)
    ensures same <==> current.View() == next.View()
    ensures same <==> !EditsDetected(old(current.View()), c1, c2, fields)
  {
    ghost var was := current.View();
    next := EditBoth(current, c1, c2, fields, now);
    SharedEditsShow(was, current.View(), c1, c2, fields, now);
    same := current.View() == next.View();
  }

  method EditBoth(current: Slice, c1: Wanted, c2: Wanted, fields: seq<Field>, now: int) returns (next: Slice)
    requires current.Valid()
    requires c1.ctype != c2.ctype && c1.ctype != FIELDS_NOT_ENFORCED && c2.ctype != FIELDS_NOT_ENFORCED
    modifies current.buf
    ensures next.Valid() && next.View() == SetBoth(old(current.View()), c1, c2, fields, now)
    ensures SameTypes(old(current.View()), current.View())
    ensures HasType(old(current.View()), c1.ctype) && HasType(old(current.View()), c2.ctype) && fields == [] ==>
              current.View() == Set(Set(old(current.View()), c1, now), c2, now)
    ensures HasType(old(current.View()), c1.ctype) && HasType(old(current.View()), c2.ctype) && fields != []
            && HasType(old(current.View()), FIELDS_NOT_ENFORCED) ==>
              current.View() == next.View()
  {
    next := SetTwo(current, c1, c2, now);
    SetBothTypes(old(current.View()), c1, c2, fields, now);
    ghost var shared := current.View();
    next := SetFieldsNotEnforcedCondition(next, c1.generation, fields, now);
    assert SameTypes(shared, current.View());
  }

  /** `shown` is what the original window shows after the edits. */
  lemma SharedEditsShow(
    was: seq<Condition>, shown: seq<Condition>, c1: Wanted, c2: Wanted, fields: seq<Field>, now: int)
    requires c1.ctype != c2.ctype && c1.ctype != FIELDS_NOT_ENFORCED && c2.ctype != FIELDS_NOT_ENFORCED
    requires SameTypes(was, shown)
    requires HasType(was, c1.ctype) && HasType(was, c2.ctype) && fields == [] ==>
               shown == Set(Set(was, c1, now), c2, now)
    requires HasType(was, c1.ctype) && HasType(was, c2.ctype) && fields != [] && HasType(was, FIELDS_NOT_ENFORCED) ==>
               shown == SetBoth(was, c1, c2, fields, now)
    ensures shown == SetBoth(was, c1, c2, fields, now) <==> !EditsDetected(was, c1, c2, fields)
  {
    var out := SetBoth(was, c1, c2, fields, now);
    SetBothTypes(was, c1, c2, fields, now);
    if !HasType(was, c1.ctype) {
      TypesDiffer(was, shown, out, c1.ctype);
    } else if !HasType(was, c2.ctype) {
      TypesDiffer(was, shown, out, c2.ctype);
    } else if fields == [] {
      RemoveFind(shown, FIELDS_NOT_ENFORCED, FIELDS_NOT_ENFORCED);
    } else if !HasType(was, FIELDS_NOT_ENFORCED) {
      TypesDiffer(was, shown, out, FIELDS_NOT_ENFORCED);
    }
  }

  lemma TypesDiffer(was: seq<Condition>, shown: seq<Condition>, out: seq<Condition>, t: ConditionType)
    requires SameTypes(was, shown) && !HasType(was, t) && HasType(out, t)
    ensures shown != out
  {
    SameTypesHas(was, shown, t);
  }

  method SetTwo(current: Slice, c1: Wanted, c2: Wanted, now: int) returns (next: Slice)
    requires current.Valid() && c1.ctype != c2.ctype
    modifies current.buf
    ensures next.Valid() && next.View() == Set(Set(old(current.View()), c1, now), c2, now)
    ensures SameTypes(old(current.View()), current.View())
    ensures HasType(old(current.View()), c1.ctype) && HasType(old(current.View()), c2.ctype) ==> next == current
    ensures next.buf == current.buf || fresh(next.buf)
    ensures current.len <= next.len
  {
    ghost var was := current.View();
    next := SetStatusCondition(current, c1, now);
    SetFind(was, c1, now, c2.ctype);
    assert SameTypes(was, current.View());
    next := SetStatusCondition(next, c2, now);
  }

  /** Setting both and the fields changes nothing exactly when all three already show. */
  lemma SetBothNoop(cs: seq<Condition>, c1: Wanted, c2: Wanted, fields: seq<Field>, now: int)
    requires c1.ctype != c2.ctype && c1.ctype != FIELDS_NOT_ENFORCED && c2.ctype != FIELDS_NOT_ENFORCED
    ensures SetBoth(cs, c1, c2, fields, now) == cs
       <==> Shows(cs, c1) && Shows(cs, c2) && FieldsShown(cs, c1.generation, fields)
    ensures FieldsShown(SetBoth(cs, c1, c2, fields, now), c1.generation, fields)
  {
    SetNoop(cs, c1, now);
    SetNoop(cs, c2, now);
    SetFieldsNoop(cs, c1.generation, fields, now);
    SetBothTypes(cs, c1, c2, fields, now);
    SetFieldsNoop(Set(Set(cs, c1, now), c2, now), c1.generation, fields, now);
  }

  lemma SetBothTypes(cs: seq<Condition>, c1: Wanted, c2: Wanted, fields: seq<Field>, now: int)
    requires c1.ctype != c2.ctype && c1.ctype != FIELDS_NOT_ENFORCED && c2.ctype != FIELDS_NOT_ENFORCED
    ensures var one := Set(cs, c1, now);
      && (HasType(one, c2.ctype) <==> HasType(cs, c2.ctype))
      && (HasType(Set(one, c2, now), FIELDS_NOT_ENFORCED) <==> HasType(cs, FIELDS_NOT_ENFORCED))
    ensures var out := SetBoth(cs, c1, c2, fields, now);
      && HasType(out, c1.ctype) && HasType(out, c2.ctype)
      && (HasType(out, FIELDS_NOT_ENFORCED) <==> fields != [])
      && Shows(out, c1) && Shows(out, c2)
  {
    var one := Set(cs, c1, now);
    var two := Set(one, c2, now);
    SetFind(cs, c1, now, c2.ctype);
    SetFind(cs, c1, now, FIELDS_NOT_ENFORCED);
    SetFind(one, c2, now, c1.ctype);
    SetFind(one, c2, now, FIELDS_NOT_ENFORCED);
    SetFieldsFind(two, c1.generation, fields, now, c1.ctype);
    SetFieldsFind(two, c1.generation, fields, now, c2.ctype);
  }

  ghost predicate SameTypes(a: seq<Condition>, b: seq<Condition>) {
    |a| == |b| && forall i :: 0 <= i < |a| ==> a[i].ctype == b[i].ctype
  }

  lemma SameTypesHas(a: seq<Condition>, b: seq<Condition>, t: ConditionType)
    requires SameTypes(a, b)
    ensures HasType(a, t) <==> HasType(b, t)
  {
    if HasType(a, t) { assert b[Index(a, t)].ctype == t; }
    if HasType(b, t) { assert a[Index(b, t)].ctype == t; }
  }

  function SetThenRemove(cs: seq<Condition>, c: Wanted, gone: ConditionType, fields: seq<Field>, now: int)
    : seq<Condition>
  {
    SetFields(Remove(Set(cs, c, now), gone), c.generation, fields, now)
  }

  /** Set one condition in the shared array, then remove another, which copies. Used by the other
      two branches of Federation's reconcileStatus. */
  method SetThenRemoveAndCompare(current: Slice, c: Wanted, gone: ConditionType, fields: seq<Field>, now: int)
    returns (next: Slice, same: bool)
    requires current.Valid()
    requires c.ctype != gone && c.ctype != FIELDS_NOT_ENFORCED && gone != FIELDS_NOT_ENFORCED
    modifies current.buf
    ensures next.Valid() && next.View() == SetThenRemove(old(current.View()), c, gone, fields, now)
    ensures same <==> HasType(old(current.View()), c.ctype)
                      && next.View() == Set(old(current.View()), c, now)
  {
    ghost var was := current.View();
    next := SetStatusCondition(current, c, now);
    ghost var one := next.View();
    assert SameTypes(was, current.View());
    next := RemoveStatusCondition(next, gone);
    ghost var two := next.View();
    ghost var shown := current.View();
    next := SetFieldsNotEnforcedCondition(next, c.generation, fields, now);
    assert current.View() == shown;
    same := current.View() == next.View();
    SetFind(was, c, now, c.ctype);
    RemoveFind(one, gone, c.ctype);
    SetFieldsFind(two, c.generation, fields, now, c.ctype);
    SameTypesHas(was, shown, c.ctype);
  }
}
