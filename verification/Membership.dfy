/** Federation membership, decided in three places: the Federation controller resolves a list, the
    Workload controller asks about its own member, the ServiceEndpoint controller about the
    primary. Objects are those of one cluster's store; API read errors are left out. */
module Membership {
  import opened Types
  import opened Api

  datatype Op = In | NotIn | Exists | DoesNotExist

  datatype Parsed = Parsed(key: string, op: Op, values: seq<string>)

  datatype Selector = Selector(matchLabels: map<string, string>, requirements: seq<Parsed>)

  type Store = map<string, ClusterMember>

  /** Members are keyed by their own names. */
  ghost predicate WellKeyed(store: Store) {
    forall n :: n in store ==> store[n].name == n
  }

  // ------------------------------------------------------------------------- label selectors

  function ParseOp(op: string): Option<Op> {
    if op == "In" then Some(In)
    else if op == "NotIn" then Some(NotIn)
    else if op == "Exists" then Some(Exists)
    else if op == "DoesNotExist" then Some(DoesNotExist)
    else None
  }

  predicate Lower(c: char) { 'a' <= c <= 'z' || '0' <= c <= '9' }

  predicate AlphaNum(c: char) { Lower(c) || 'A' <= c <= 'Z' }

  /** Up to 63 letters, digits, '-', '_' and '.', with a letter or digit at both ends. */
  predicate LabelText(s: string) {
    && 0 < |s| <= 63 && AlphaNum(s[0]) && AlphaNum(s[|s| - 1])
    && forall i :: 0 <= i < |s| ==> AlphaNum(s[i]) || s[i] == '-' || s[i] == '_' || s[i] == '.'
  }

  predicate ValidValue(v: string) { v == "" || LabelText(v) }

  /** A DNS subdomain. */
  predicate ValidPrefix(p: string) {
    && 0 < |p| <= 253 && Lower(p[0]) && Lower(p[|p| - 1])
    && (forall i :: 0 <= i < |p| ==> Lower(p[i]) || p[i] == '-' || p[i] == '.')
    && (forall i :: 0 < i < |p| - 1 && p[i] == '.' ==> Lower(p[i - 1]) && Lower(p[i + 1]))
  }

  /** A label name, with or without a prefix. */
  predicate ValidKey(k: string) {
    || LabelText(k)
    || exists i :: 0 <= i < |k| && k[i] == '/' && ValidPrefix(k[..i]) && LabelText(k[i + 1..])
  }

  /** A requirement is rejected for an unknown operator, a malformed key or value, for In and NotIn
      without values, and for the other two with values. */
  function Parse(r: Requirement): Option<Parsed> {
    var op := ParseOp(r.op);
    if op.None? then None
    else if !ValidKey(r.key) then None
    else if (op.value.In? || op.value.NotIn?) != (r.values != []) then None
    else if exists v :: v in r.values && !ValidValue(v) then None
    else Some(Parsed(r.key, op.value, r.values))
  }

  function ParseAll(rs: seq<Requirement>): Option<seq<Parsed>> {
    if rs == [] then Some([])
    else
      var first, rest := Parse(rs[0]), ParseAll(rs[1..]);
      if first.None? || rest.None? then None else Some([first.value] + rest.value)
  }

  predicate ValidLabels(labels: map<string, string>) {
    forall k :: k in labels ==> ValidKey(k) && ValidValue(labels[k])
  }

  /** LabelSelectorAsSelector. */
  function AsSelector(s: LabelSelector): Option<Selector> {
    var rs := ParseAll(s.matchExpressions);
    if rs.None? || !ValidLabels(s.matchLabels) then None else Some(Selector(s.matchLabels, rs.value))
  }

  predicate MatchesOne(r: Parsed, labels: map<string, string>) {
    match r.op
    case In => r.key in labels && labels[r.key] in r.values
    case NotIn => r.key in labels ==> labels[r.key] !in r.values
    case Exists => r.key in labels
    case DoesNotExist => r.key !in labels
  }

  predicate MatchAll(ps: seq<Parsed>, labels: map<string, string>) {
    forall i :: 0 <= i < |ps| ==> MatchesOne(ps[i], labels)
  }

  predicate Matches(s: Selector, labels: map<string, string>) {
    && (forall k :: k in s.matchLabels ==> k in labels && labels[k] == s.matchLabels[k])
    && MatchAll(s.requirements, labels)
  }

  // ----------------------------------------------------------- selectors, said on the labels

  /** The requirement as the API reads it. */
  predicate Meets(r: Requirement, labels: map<string, string>) {
    && (r.op == "In" ==> r.key in labels && labels[r.key] in r.values)
    && (r.op == "NotIn" ==> !(r.key in labels && labels[r.key] in r.values))
    && (r.op == "Exists" ==> r.key in labels)
    && (r.op == "DoesNotExist" ==> r.key !in labels)
  }

  /** Known operator; values with In and NotIn only; well-formed key and values. */
  predicate WellFormed(r: Requirement) {
    && ValidKey(r.key) && (forall v :: v in r.values ==> ValidValue(v))
    && ((r.op in {"In", "NotIn"} && r.values != []) || (r.op in {"Exists", "DoesNotExist"} && r.values == []))
  }

  lemma ParseIs(r: Requirement, labels: map<string, string>)
    ensures Parse(r).Some? <==> WellFormed(r)
    ensures Parse(r).Some? ==> (MatchesOne(Parse(r).value, labels) <==> Meets(r, labels))
  {
  }

  lemma MatchAllCons(p: Parsed, ps: seq<Parsed>, labels: map<string, string>)
    ensures MatchAll([p] + ps, labels) <==> MatchesOne(p, labels) && MatchAll(ps, labels)
  {
    assert forall i :: 0 <= i < |ps| ==> ([p] + ps)[i + 1] == ps[i];
    assert ([p] + ps)[0] == p;
  }

  lemma {:induction false} ParseAllIs(rs: seq<Requirement>, labels: map<string, string>)
    ensures ParseAll(rs).Some? <==> forall r :: r in rs ==> WellFormed(r)
    ensures ParseAll(rs).Some? ==> var ps := ParseAll(rs).value;
      MatchAll(ps, labels) <==> forall r :: r in rs ==> Meets(r, labels)
  {
    if rs != [] {
      ParseIs(rs[0], labels);
      ParseAllIs(rs[1..], labels);
      assert rs == [rs[0]] + rs[1..];
      if ParseAll(rs).Some? {
        var first, rest := Parse(rs[0]).value, ParseAll(rs[1..]).value;
        MatchAllCons(first, rest, labels);
      }
    }
  }

  /** A selector is accepted iff all its parts are well formed, and then picks exactly the labels that
      carry every pair of matchLabels and meet every expression. */
  lemma SelectorIs(s: LabelSelector, labels: map<string, string>)
    ensures AsSelector(s).Some?
       <==> ValidLabels(s.matchLabels) && forall r :: r in s.matchExpressions ==> WellFormed(r)
    ensures AsSelector(s).Some? ==>
      (Matches(AsSelector(s).value, labels)
       <==> && (forall k :: k in s.matchLabels ==> k in labels && labels[k] == s.matchLabels[k])
            && (forall r :: r in s.matchExpressions ==> Meets(r, labels)))
  {
    ParseAllIs(s.matchExpressions, labels);
  }

  // ------------------------------------------------------------------- what membership means

  /** Present selector that does not parse. */
  predicate InvalidSelector(f: FederationSpec) {
    f.memberSelector.Some? && AsSelector(f.memberSelector.value).None?
  }

  predicate Selected(f: FederationSpec, m: ClusterMember) {
    f.memberSelector.Some? && AsSelector(f.memberSelector.value).Some?
    && Matches(AsSelector(f.memberSelector.value).value, m.labels)
  }

  predicate Listed(f: FederationSpec, name: string) { name in f.members }

  // --------------------------------------------------------------------- the three deciders

  function Names(ms: seq<ClusterMember>): seq<string> {
    seq(|ms|, i requires 0 <= i < |ms| => ms[i].name)
  }

  ghost predicate Distinct(ms: seq<ClusterMember>) {
    forall i, j :: 0 <= i < j < |ms| ==> ms[i].name != ms[j].name
  }

  /** The resolved list: no name twice, only stored objects, and exactly the selector matches plus
      the explicit references that exist. */
  ghost predicate Resolves(f: FederationSpec, store: Store, ms: seq<ClusterMember>) {
    && Distinct(ms)
    && (forall m :: m in ms ==> m.name in store && store[m.name] == m)
    && (forall n :: n in store ==> (store[n] in ms <==> Selected(f, store[n]) || Listed(f, n)))
  }

  /** The API server's List call: the stored members a selector matches, in any order. */
  method List(store: Store, s: Selector) returns (items: seq<ClusterMember>)
    requires WellKeyed(store)
    ensures Distinct(items)
    ensures forall m :: m in items <==> m.name in store && store[m.name] == m && Matches(s, m.labels)
  {
    items := [];
    var rest := store.Keys;
    while rest != {}
      invariant rest <= store.Keys && Distinct(items)
      invariant forall m :: m in items <==>
                  m.name in store && m.name !in rest && store[m.name] == m && Matches(s, m.labels)
      decreases |rest|
    {
      var n :| n in rest;
      rest := rest - {n};
      if Matches(s, store[n].labels) {
        items := items + [store[n]];
      }
    }
  }

  ghost predicate Seen(ms: seq<ClusterMember>, n: string) {
    exists k :: 0 <= k < |ms| && ms[k].name == n
  }

  /** `ms`, and after it the referenced members that exist and are not there yet, in order. */
  ghost function WithExplicit(ms: seq<ClusterMember>, refs: seq<string>, store: Store): seq<ClusterMember> {
    if refs == [] then ms
    else
      var before, ref := WithExplicit(ms, refs[..|refs| - 1], store), refs[|refs| - 1];
      if Seen(before, ref) || ref !in store then before else before + [store[ref]]
  }

  /** What resolveMembers returns when List answers `items`. */
  ghost function Resolution(f: FederationSpec, store: Store, items: seq<ClusterMember>): Option<seq<ClusterMember>> {
    if InvalidSelector(f) then None
    else Some(WithExplicit(if f.memberSelector.Some? then items else [], f.members, store))
  }

  /** `items` are the stored members the selector matches, in some order. */
  ghost predicate Answered(f: FederationSpec, store: Store, items: seq<ClusterMember>) {
    f.memberSelector.Some? && !InvalidSelector(f) ==>
      && Distinct(items)
      && forall m :: m in items <==> m.name in store && store[m.name] == m && Selected(f, m)
  }

  /** resolveMembers: selector matches first, then explicit references, skipping names seen. */
  method ResolveMembers(f: FederationSpec, store: Store) returns (result: Option<seq<ClusterMember>>)
    requires WellKeyed(store)
    ensures result.None? <==> InvalidSelector(f)
    ensures result.Some? ==> Resolves(f, store, result.value)
    ensures exists items :: Answered(f, store, items) && result == Resolution(f, store, items)
  {
    var seen: set<string> := {};
    var members: seq<ClusterMember> := [];
    ghost var listed: seq<ClusterMember> := [];
    if f.memberSelector.Some? {
      var selector := AsSelector(f.memberSelector.value);
      if selector.None? {
        assert Answered(f, store, []);
        return None;
      }
      var items := List(store, selector.value);
      for i := 0 to |items|
        invariant members == items[..i]
        invariant forall n :: n in seen <==> Seen(items[..i], n)
      {
        assert items[..i + 1] == items[..i] + [items[i]];
        SeenSnoc(items[..i], items[i]);
        if items[i].name !in seen {
          seen := seen + {items[i].name};
          members := members + [items[i]];
        }
      }
      assert items[..|items|] == items;
      listed := items;
    }
    assert Answered(f, store, listed);
    members := AppendExplicit(f, store, listed, members, seen);
    result := Some(members);
  }

  /** The appended list holds each name once: what was there, and the references that exist. */
  lemma {:induction false} WithExplicitHolds(ms: seq<ClusterMember>, refs: seq<string>, store: Store)
    requires WellKeyed(store) && Distinct(ms) && forall m :: m in ms ==> m.name in store && store[m.name] == m
    ensures var out := WithExplicit(ms, refs, store);
      && Distinct(out)
      && forall m :: m in out <==> m in ms || (m.name in store && store[m.name] == m && m.name in refs)
  {
    if refs != [] {
      var n := |refs| - 1;
      var before, ref := WithExplicit(ms, refs[..n], store), refs[n];
      WithExplicitHolds(ms, refs[..n], store);
      assert refs == refs[..n] + [ref];
      if ref in store {
        SeenSnoc(before, store[ref]);
        assert Seen(before, ref) ==> store[ref] in before;
      }
    }
  }

  /** refs holds name a before name b. */
  ghost predicate Before(refs: seq<string>, a: string, b: string) {
    exists i, j :: 0 <= i < j < |refs| && refs[i] == a && refs[j] == b
  }

  /** What was there stays in front, and what is appended follows the order of the references. */
  lemma {:induction false} WithExplicitOrder(ms: seq<ClusterMember>, refs: seq<string>, store: Store)
    requires WellKeyed(store)
    ensures var out := WithExplicit(ms, refs, store);
      && ms <= out
      && (forall a :: |ms| <= a < |out| ==> out[a].name in refs)
      && (forall a, b :: |ms| <= a < b < |out| ==> Before(refs, out[a].name, out[b].name))
  {
    if refs != [] {
      var n := |refs| - 1;
      var before, out := WithExplicit(ms, refs[..n], store), WithExplicit(ms, refs, store);
      WithExplicitOrder(ms, refs[..n], store);
      forall a, b | |ms| <= a < b < |out| ensures Before(refs, out[a].name, out[b].name) {
        if b < |before| {
          assert Before(refs[..n], before[a].name, before[b].name);
        } else {
          assert out[b].name == refs[n];
          var i :| 0 <= i < n && refs[..n][i] == out[a].name;
          assert refs[i] == out[a].name;
        }
      }
    }
  }

  /** The second loop. */
  method AppendExplicit(f: FederationSpec, store: Store, ghost listed: seq<ClusterMember>,
                        members0: seq<ClusterMember>, seen0: set<string>)
    returns (members: seq<ClusterMember>)
    requires WellKeyed(store) && !InvalidSelector(f) && Answered(f, store, listed)
    requires members0 == if f.memberSelector.Some? then listed else []
    requires forall n :: n in seen0 <==> Seen(members0, n)
    ensures Resolves(f, store, members) && Some(members) == Resolution(f, store, listed)
  {
    members := members0;
    var seen := seen0;
    for i := 0 to |f.members|
      invariant members == WithExplicit(members0, f.members[..i], store)
      invariant forall n :: n in seen <==> Seen(members, n)
    {
      assert f.members[..i + 1][..i] == f.members[..i];
      var ref := f.members[i];
      if ref in seen {
        continue;
      }
      if ref !in store {
        continue;
      }
      var member := store[ref];
      SeenSnoc(members, member);
      seen := seen + {member.name};
      members := members + [member];
    }
    assert f.members[..|f.members|] == f.members;
    ExplicitResolves(f, store, listed);
  }

  lemma ExplicitResolves(f: FederationSpec, store: Store, items: seq<ClusterMember>)
    requires WellKeyed(store) && !InvalidSelector(f) && Answered(f, store, items)
    ensures Resolves(f, store, WithExplicit(if f.memberSelector.Some? then items else [], f.members, store))
  {
    WithExplicitHolds(if f.memberSelector.Some? then items else [], f.members, store);
  }

  lemma SeenSnoc(ms: seq<ClusterMember>, m: ClusterMember)
    ensures forall n :: Seen(ms + [m], n) <==> n == m.name || Seen(ms, n)
  {
    var all := ms + [m];
    assert all[|ms|] == m;
    forall n | Seen(ms, n) ensures Seen(all, n) {
      var k :| 0 <= k < |ms| && ms[k].name == n;
      assert all[k].name == n;
    }
  }

  datatype Decision = Yes | No | MemberMissing | BadSelector | FederationMissing

  /** isFederationMember, asked by the operator of cluster `self`. */
  method IsFederationMember(federation: Option<FederationSpec>, hasRef: bool, self: string, store: Store)
    returns (d: Decision)
    ensures d == OwnDecision(federation, hasRef, self, store)
    ensures d == Yes <==> !hasRef || (federation.Some? && (Listed(federation.value, self)
                                        || (self in store && Selected(federation.value, store[self]))))
    ensures d == FederationMissing <==> hasRef && federation.None?
    ensures d == MemberMissing <==> hasRef && federation.Some? && !Listed(federation.value, self)
                                    && federation.value.memberSelector.Some? && self !in store
    ensures d == BadSelector <==> hasRef && federation.Some? && !Listed(federation.value, self)
                                  && InvalidSelector(federation.value) && self in store
  {
    if !hasRef {
      return Yes;
    }
    if federation.None? {
      return FederationMissing;
    }
    var f := federation.value;
    var i := 0;
    while i < |f.members|
      invariant 0 <= i <= |f.members| && self !in f.members[..i]
    {
      if f.members[i] == self {
        return Yes;
      }
      assert f.members[..i + 1] == f.members[..i] + [f.members[i]];
      i := i + 1;
    }
    assert f.members[..i] == f.members;
    if f.memberSelector.Some? {
      if self !in store {
        return MemberMissing;
      }
      var selector := AsSelector(f.memberSelector.value);
      if selector.None? {
        return BadSelector;
      }
      if Matches(selector.value, store[self].labels) {
        return Yes;
      }
    }
    return No;
  }

  function OwnDecision(federation: Option<FederationSpec>, hasRef: bool, self: string, store: Store): Decision {
    if !hasRef then Yes
    else if federation.None? then FederationMissing
    else if Listed(federation.value, self) then Yes
    else if federation.value.memberSelector.None? then No
    else if self !in store then MemberMissing
    else if InvalidSelector(federation.value) then BadSelector
    else if Selected(federation.value, store[self]) then Yes else No
  }

  /** validatePrimaryMember, asked about the endpoint's primary. */
  method ValidatePrimaryMember(federation: Option<FederationSpec>, hasRef: bool, primary: string, store: Store)
    returns (d: Decision)
    ensures d == PrimaryDecision(federation, hasRef, primary, store)
    ensures d == Yes <==> primary in store && hasRef && federation.Some?
                          && (Listed(federation.value, primary) || Selected(federation.value, store[primary]))
    ensures d == MemberMissing <==> primary !in store
    ensures d == FederationMissing <==> primary in store && hasRef && federation.None?
    ensures d == BadSelector <==> primary in store && hasRef && federation.Some?
                                  && !Listed(federation.value, primary) && InvalidSelector(federation.value)
    ensures d == No <==> primary in store
                         && (!hasRef || (&& federation.Some? && !InvalidSelector(federation.value)
                                         && !Listed(federation.value, primary)
                                         && !Selected(federation.value, store[primary])))
  {
    if primary !in store {
      return MemberMissing;
    }
    if !hasRef {
      return No;
    }
    if federation.None? {
      return FederationMissing;
    }
    var f := federation.value;
    var i := 0;
    while i < |f.members|
      invariant 0 <= i <= |f.members| && primary !in f.members[..i]
    {
      if f.members[i] == primary {
        return Yes;
      }
      assert f.members[..i + 1] == f.members[..i] + [f.members[i]];
      i := i + 1;
    }
    assert f.members[..i] == f.members;
    if f.memberSelector.Some? {
      var selector := AsSelector(f.memberSelector.value);
      if selector.None? {
        return BadSelector;
      }
      if Matches(selector.value, store[primary].labels) {
        return Yes;
      }
    }
    return No;
  }

  function PrimaryDecision(federation: Option<FederationSpec>, hasRef: bool, primary: string, store: Store): Decision {
    if primary !in store then MemberMissing
    else if !hasRef then No
    else if federation.None? then FederationMissing
    else if Listed(federation.value, primary) then Yes
    else if InvalidSelector(federation.value) then BadSelector
    else if Selected(federation.value, store[primary]) then Yes else No
  }

  // ------------------------------------------------------------------------------ agreement

  ghost predicate ResolvedName(result: Option<seq<ClusterMember>>, name: string) {
    result.Some? && name in Names(result.value)
  }

  lemma ResolvedNameIs(f: FederationSpec, store: Store, ms: seq<ClusterMember>, name: string)
    requires WellKeyed(store) && Resolves(f, store, ms)
    ensures name in Names(ms) <==> name in store && (Selected(f, store[name]) || Listed(f, name))
  {
    if name in Names(ms) {
      var i :| 0 <= i < |ms| && Names(ms)[i] == name;
      assert ms[i] in ms && store[name] == ms[i];
    }
    if name in store && store[name] in ms {
      var i :| 0 <= i < |ms| && ms[i] == store[name];
      assert Names(ms)[i] == name;
    }
  }

  /** The outcome of resolveMembers, for lemmas, which cannot call it. */
  ghost predicate Outcome(f: FederationSpec, store: Store, result: Option<seq<ClusterMember>>) {
    (result.None? <==> InvalidSelector(f)) && (result.Some? ==> Resolves(f, store, result.value))
  }

  /** The three deciders, compared on every name. The two point deciders agree on every existing
      member, whatever the selector. The list and the Workload check disagree exactly on names that
      are listed explicitly although the selector is broken or no such ClusterMember exists: an
      explicit name short-circuits both tests there. The two point deciders disagree only on
      listed names without a ClusterMember. */
  lemma DecidersAgree(f: FederationSpec, store: Store, name: string, result: Option<seq<ClusterMember>>)
    requires WellKeyed(store) && Outcome(f, store, result)
    ensures name in store ==> OwnDecision(Some(f), true, name, store) == PrimaryDecision(Some(f), true, name, store)
    ensures (ResolvedName(result, name) <==> OwnDecision(Some(f), true, name, store) == Yes)
       <==> !(Listed(f, name) && (InvalidSelector(f) || name !in store))
    ensures (PrimaryDecision(Some(f), true, name, store) == Yes <==> OwnDecision(Some(f), true, name, store) == Yes)
       <==> !(Listed(f, name) && name !in store)
  {
    if result.Some? { ResolvedNameIs(f, store, result.value, name); }
  }
}
