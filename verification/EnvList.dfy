/** Container environment lists and the two list algorithms that the Workload and
    DatastoreBinding reconcilers share. Kubernetes lets a list repeat a name; the last
    occurrence is the one a process sees. */
module EnvList {
  import opened Types

  // Injected values are opaque here: either a literal or a reference into a Secret.
  datatype EnvValue = Literal(text: string) | SecretKeyRef(secret: string, key: string)
  datatype EnvVar = EnvVar(name: string, value: EnvValue)

  /** The last position holding `name`, or -1. */
  function LastIndex(env: seq<EnvVar>, name: string): (r: int)
    ensures -1 <= r < |env|
    ensures r >= 0 ==> env[r].name == name
    ensures forall i :: r < i < |env| ==> env[i].name != name
  {
    if env == [] then -1
    else
      var r := LastIndex(env[1..], name);
      if r >= 0 then r + 1 else if env[0].name == name then 0 else -1
  }

  predicate Has(env: seq<EnvVar>, name: string) {
    LastIndex(env, name) >= 0
  }

  /** What the container's process sees for `name`. */
  function Lookup(env: seq<EnvVar>, name: string): Option<EnvValue> {
    var r := LastIndex(env, name);
    if r < 0 then None else Some(env[r].value)
  }

  function NamesOf(env: seq<EnvVar>): set<string> {
    set v | v in env :: v.name
  }

  /** The entries whose membership in `names` equals `inside`, in order. */
  function Keep(env: seq<EnvVar>, names: set<string>, inside: bool): seq<EnvVar> {
    if env == [] then []
    else if (env[0].name in names) == inside then [env[0]] + Keep(env[1..], names, inside)
    else Keep(env[1..], names, inside)
  }

  function Only(env: seq<EnvVar>, names: set<string>): seq<EnvVar> { Keep(env, names, true) }

  function Without(env: seq<EnvVar>, names: set<string>): seq<EnvVar> { Keep(env, names, false) }

  /** The entry at position i after a merge: the last occurrence of a name in `env` takes the
      last injected entry of that name, every other position stays. */
  function OverwrittenAt(env: seq<EnvVar>, inject: seq<EnvVar>, i: nat): EnvVar
    requires i < |env|
  {
    var n := env[i].name;
    if LastIndex(env, n) == i && Has(inject, n) then inject[LastIndex(inject, n)] else env[i]
  }

  /** Merge in closed form: `env` overwritten position by position, followed by the injected
      entries whose names are new, duplicates included and in order. */
  function Merge(env: seq<EnvVar>, inject: seq<EnvVar>): seq<EnvVar> {
    Overwritten(env, inject) + Without(inject, NamesOf(env))
  }

  function Overwritten(env: seq<EnvVar>, inject: seq<EnvVar>): seq<EnvVar> {
    seq(|env|, i requires 0 <= i < |env| => OverwrittenAt(env, inject, i))
  }

  /** What a Workload pass writes: the desired list merged with the managed part of the old one. */
  function Preserve(desired: seq<EnvVar>, existing: seq<EnvVar>, managed: set<string>): seq<EnvVar> {
    if managed == {} then desired else Merge(desired, Only(existing, managed))
  }

  // ---------------------------------------------------------------- positions and filters

  lemma HasIsMember(env: seq<EnvVar>, name: string)
    ensures Has(env, name) <==> name in NamesOf(env)
  {
    if Has(env, name) {
      assert env[LastIndex(env, name)] in env;
    }
    forall v | v in env ensures Has(env, v.name) {}
  }

  lemma LastIndexIs(env: seq<EnvVar>, name: string, r: int)
    requires 0 <= r < |env| && env[r].name == name
    requires forall i :: r < i < |env| ==> env[i].name != name
    ensures LastIndex(env, name) == r
  {
    var s := LastIndex(env, name);
    assert env[r].name == name;
  }

  lemma LastIndexAppend(a: seq<EnvVar>, b: seq<EnvVar>, name: string)
    ensures LastIndex(a + b, name)
         == if Has(b, name) then |a| + LastIndex(b, name) else LastIndex(a, name)
  {
    var c := a + b;
    var r := if Has(b, name) then |a| + LastIndex(b, name) else LastIndex(a, name);
    if r >= 0 {
      LastIndexIs(c, name, r);
    } else {
      assert forall i :: 0 <= i < |c| ==> c[i].name != name;
    }
  }

  lemma LastIndexSnoc(a: seq<EnvVar>, v: EnvVar)
    ensures forall n :: LastIndex(a + [v], n) == if n == v.name then |a| else LastIndex(a, n)
  {
    forall n ensures LastIndex(a + [v], n) == if n == v.name then |a| else LastIndex(a, n) {
      LastIndexAppend(a, [v], n);
    }
  }

  lemma {:induction false} KeepAppend(a: seq<EnvVar>, b: seq<EnvVar>, names: set<string>, inside: bool)
    ensures Keep(a + b, names, inside) == Keep(a, names, inside) + Keep(b, names, inside)
  {
    if a == [] {
      assert a + b == b;
    } else {
      assert (a + b)[1..] == a[1..] + b;
      KeepAppend(a[1..], b, names, inside);
    }
  }

  /** A filter decides by name alone, so it keeps exactly the effective values of kept names. */
  lemma {:induction false} KeepLookup(env: seq<EnvVar>, names: set<string>, inside: bool, n: string)
    ensures Lookup(Keep(env, names, inside), n) == if (n in names) == inside then Lookup(env, n) else None
    ensures Has(Keep(env, names, inside), n) <==> ((n in names) == inside && Has(env, n))
  {
    if env != [] {
      KeepLookup(env[1..], names, inside, n);
      var kept := Keep(env, names, inside);
      if (env[0].name in names) == inside {
        assert kept[1..] == Keep(env[1..], names, inside);
      }
    }
  }

  lemma KeepNames(env: seq<EnvVar>, names: set<string>, inside: bool)
    ensures forall n :: n in NamesOf(Keep(env, names, inside)) <==> (n in NamesOf(env) && (n in names) == inside)
  {
    forall n ensures n in NamesOf(Keep(env, names, inside)) <==> (n in NamesOf(env) && (n in names) == inside) {
      HasIsMember(env, n);
      HasIsMember(Keep(env, names, inside), n);
      KeepLookup(env, names, inside, n);
    }
  }

  /** Two filters that agree on every name occurring in the list give the same list. */
  lemma {:induction false} KeepCongruent(env: seq<EnvVar>, n1: set<string>, in1: bool, n2: set<string>, in2: bool)
    requires forall n :: n in NamesOf(env) ==> ((n in n1) == in1 <==> (n in n2) == in2)
    ensures Keep(env, n1, in1) == Keep(env, n2, in2)
  {
    if env != [] {
      assert env[0] in env;
      forall n | n in NamesOf(env[1..]) ensures n in NamesOf(env) {}
      KeepCongruent(env[1..], n1, in1, n2, in2);
    }
  }

  lemma {:induction false} KeepCommute(env: seq<EnvVar>, n1: set<string>, in1: bool, n2: set<string>, in2: bool)
    ensures Keep(Keep(env, n1, in1), n2, in2) == Keep(Keep(env, n2, in2), n1, in1)
  {
    if env != [] {
      KeepCommute(env[1..], n1, in1, n2, in2);
      var a, b := Keep(env, n1, in1), Keep(env, n2, in2);
      if (env[0].name in n1) == in1 { assert a[1..] == Keep(env[1..], n1, in1); }
      if (env[0].name in n2) == in2 { assert b[1..] == Keep(env[1..], n2, in2); }
    }
  }

  lemma {:induction false} KeepAll(env: seq<EnvVar>, names: set<string>, inside: bool)
    requires forall n :: n in NamesOf(env) ==> (n in names) == inside
    ensures Keep(env, names, inside) == env
  {
    if env != [] {
      assert env[0] in env;
      forall n | n in NamesOf(env[1..]) ensures n in NamesOf(env) {}
      KeepAll(env[1..], names, inside);
    }
  }

  lemma {:induction false} KeepNone(env: seq<EnvVar>, names: set<string>, inside: bool)
    requires forall n :: n in NamesOf(env) ==> (n in names) != inside
    ensures Keep(env, names, inside) == []
  {
    if env != [] {
      assert env[0] in env;
      forall n | n in NamesOf(env[1..]) ensures n in NamesOf(env) {}
      KeepNone(env[1..], names, inside);
    }
  }

  // ------------------------------------------------------------------------------- merging

  /** Merge refines map override: the effective environment of the result is that of `env`
      overridden by that of `inject`, whatever duplicates either side holds. */
  lemma MergeLookup(env: seq<EnvVar>, inject: seq<EnvVar>, n: string)
    ensures Lookup(Merge(env, inject), n) == if Has(inject, n) then Lookup(inject, n) else Lookup(env, n)
    ensures Has(Merge(env, inject), n) <==> Has(env, n) || Has(inject, n)
  {
    var head := Merge(env, inject)[..|env|];
    var tail := Without(inject, NamesOf(env));
    assert Merge(env, inject) == head + tail;
    forall i | 0 <= i < |env| ensures head[i].name == env[i].name {}
    if Has(env, n) {
      LastIndexIs(head, n, LastIndex(env, n));
    } else {
      assert forall i :: 0 <= i < |head| ==> head[i].name != n;
    }
    LastIndexAppend(head, tail, n);
    KeepLookup(inject, NamesOf(env), false, n);
    HasIsMember(env, n);
    HasIsMember(tail, n);
  }

  /** No existing position moves or is renamed, and the list grows by exactly the injected
      entries that carry new names. */
  lemma MergeKeepsPositions(env: seq<EnvVar>, inject: seq<EnvVar>)
    ensures |Merge(env, inject)| == |env| + |Without(inject, NamesOf(env))|
    ensures forall i :: 0 <= i < |env| ==> Merge(env, inject)[i].name == env[i].name
    ensures forall i :: 0 <= i < |env| && !Has(inject, env[i].name) ==> Merge(env, inject)[i] == env[i]
    ensures NamesOf(Merge(env, inject)) == NamesOf(env) + NamesOf(inject)
  {
    var m := Merge(env, inject);
    forall n ensures n in NamesOf(m) <==> n in NamesOf(env) + NamesOf(inject) {
      MergeLookup(env, inject, n);
      HasIsMember(m, n);
      HasIsMember(env, n);
      HasIsMember(inject, n);
    }
  }

  /** Merging the same list twice equals merging it once. */
  lemma MergeIdempotent(env: seq<EnvVar>, inject: seq<EnvVar>)
    ensures Merge(Merge(env, inject), inject) == Merge(env, inject)
  {
    var m := Merge(env, inject);
    MergeKeepsPositions(env, inject);
    KeepNone(inject, NamesOf(m), false);
    forall i | 0 <= i < |m| ensures OverwrittenAt(m, inject, i) == m[i] {
      var n := m[i].name;
      if LastIndex(m, n) == i && Has(inject, n) {
        MergeLookup(env, inject, n);
        assert Lookup(m, n) == Lookup(inject, n);
      }
    }
  }

  /** The loop step of mergeEnvVars: one more injected entry either overwrites the last
      occurrence of its name in `env` or goes at the end. */
  lemma MergeSnoc(env: seq<EnvVar>, inject: seq<EnvVar>, v: EnvVar)
    ensures Has(env, v.name) ==> Merge(env, inject + [v]) == Merge(env, inject)[LastIndex(env, v.name) := v]
    ensures !Has(env, v.name) ==> Merge(env, inject + [v]) == Merge(env, inject) + [v]
  {
    var more := inject + [v];
    var before, after := Overwritten(env, inject), Overwritten(env, more);
    forall i | 0 <= i < |env| ensures after[i] == if i == LastIndex(env, v.name) then v else before[i] {
      LastIndexAppend(inject, [v], env[i].name);
    }
    HasIsMember(env, v.name);
    KeepAppend(inject, [v], NamesOf(env), false);
    if Has(env, v.name) {
      assert after == before[LastIndex(env, v.name) := v];
      assert Without(more, NamesOf(env)) == Without(inject, NamesOf(env));
    } else {
      assert after == before;
      assert Without(more, NamesOf(env)) == Without(inject, NamesOf(env)) + [v];
    }
  }

  /** Front recursion for Merge, the shape the distribution law below needs. */
  lemma MergeCons(x: EnvVar, env: seq<EnvVar>, inject: seq<EnvVar>)
    ensures Has(env, x.name) ==> Merge([x] + env, inject) == [x] + Merge(env, inject)
    ensures !Has(env, x.name) ==>
              Merge([x] + env, inject) == [Replaced(x, inject)] + Merge(env, Without(inject, {x.name}))
  {
    OverwrittenCons(x, env, inject);
    NamesOfCons(x, env);
    HasIsMember(env, x.name);
    if Has(env, x.name) {
      assert NamesOf([x] + env) == NamesOf(env);
    } else {
      WithoutUnion(inject, {x.name}, NamesOf(env));
    }
  }

  lemma OverwrittenCons(x: EnvVar, env: seq<EnvVar>, inject: seq<EnvVar>)
    ensures Overwritten([x] + env, inject)
         == [if Has(env, x.name) then x else Replaced(x, inject)]
            + Overwritten(env, if Has(env, x.name) then inject else Without(inject, {x.name}))
  {
    var all := [x] + env;
    var rest := if Has(env, x.name) then inject else Without(inject, {x.name});
    LastIndexAppend([x], env, x.name);
    forall i | 0 <= i < |env| ensures OverwrittenAt(all, inject, i + 1) == OverwrittenAt(env, rest, i) {
      var n := env[i].name;
      assert all[i + 1] == env[i];
      LastIndexAppend([x], env, n);
      if !Has(env, x.name) {
        KeepEntry(inject, {x.name}, n);
      }
    }
    assert OverwrittenAt(all, inject, 0) == if Has(env, x.name) then x else Replaced(x, inject);
  }

  function Replaced(x: EnvVar, inject: seq<EnvVar>): EnvVar {
    if Has(inject, x.name) then inject[LastIndex(inject, x.name)] else x
  }

  lemma NamesOfCons(x: EnvVar, env: seq<EnvVar>)
    ensures NamesOf([x] + env) == {x.name} + NamesOf(env)
  {
    assert ([x] + env)[0] == x;
    forall v | v in env ensures v in [x] + env {}
  }

  lemma {:induction false} WithoutUnion(env: seq<EnvVar>, a: set<string>, b: set<string>)
    ensures Without(env, a + b) == Without(Without(env, a), b)
  {
    if env != [] {
      WithoutUnion(env[1..], a, b);
      if env[0].name !in a {
        assert Without(env, a)[1..] == Without(env[1..], a);
      }
    }
  }

  lemma {:induction false} KeepEntry(env: seq<EnvVar>, names: set<string>, n: string)
    requires n !in names
    ensures Has(Without(env, names), n) <==> Has(env, n)
    ensures Has(env, n) ==> Without(env, names)[LastIndex(Without(env, names), n)] == env[LastIndex(env, n)]
  {
    KeepLookup(env, names, false, n);
  }

  lemma MergeEmpty(env: seq<EnvVar>)
    ensures Merge(env, []) == env
  {
    assert Overwritten(env, []) == env;
  }

  lemma MergeNothing(inject: seq<EnvVar>)
    ensures Merge([], inject) == inject
  {
    assert NamesOf([]) == {};
    KeepAll(inject, NamesOf([]), false);
  }

  /** Removal distributes over merging. This is what makes one binding's variables separable
      from everybody else's. */
  lemma {:induction false} WithoutMerge(env: seq<EnvVar>, inject: seq<EnvVar>, names: set<string>)
    ensures Without(Merge(env, inject), names) == Merge(Without(env, names), Without(inject, names))
    decreases |env|
  {
    if env == [] {
      MergeNothing(inject);
      MergeNothing(Without(inject, names));
    } else {
      var x, rest := env[0], env[1..];
      assert env == [x] + rest;
      MergeCons(x, rest, inject);
      var inj := if Has(rest, x.name) then inject else Without(inject, {x.name});
      var y := if Has(rest, x.name) then x else Replaced(x, inject);
      assert Merge(env, inject) == [y] + Merge(rest, inj);
      KeepAppend([y], Merge(rest, inj), names, false);
      WithoutMerge(rest, inj, names);
      KeepLookup(rest, names, false, x.name);
      KeepCommute(inject, {x.name}, false, names, false);
      if x.name in names {
        if !Has(rest, x.name) {
          WithoutUnion(inject, {x.name}, names);
          assert {x.name} + names == names;
        }
      } else {
        assert Without(env, names) == [x] + Without(rest, names);
        MergeCons(x, Without(rest, names), Without(inject, names));
        KeepEntry(inject, names, x.name);
      }
    }
  }

  // ------------------------------------------------------------------ the loops themselves

  /** mergeEnvVars: index the existing names, then overwrite or append entry by entry. */
  method MergeEnvVars(existing: seq<EnvVar>, toInject: seq<EnvVar>) returns (result: seq<EnvVar>)
    ensures result == Merge(existing, toInject)
  {
    var index: map<string, nat> := map[];
    for i := 0 to |existing|
      invariant forall n :: n in index <==> Has(existing[..i], n)
      invariant forall n :: n in index ==> index[n] == LastIndex(existing[..i], n)
    {
      assert existing[..i + 1] == existing[..i] + [existing[i]];
      LastIndexSnoc(existing[..i], existing[i]);
      index := index[existing[i].name := i];
    }
    assert existing[..|existing|] == existing;
    result := existing;
    MergeEmpty(existing);
    assert toInject[..0] == [];
    for j := 0 to |toInject|
      invariant result == Merge(existing, toInject[..j])
    {
      var v := toInject[j];
      MergeSnoc(existing, toInject[..j], v);
      assert toInject[..j + 1] == toInject[..j] + [v];
      if v.name in index {
        result := result[index[v.name] := v];
      } else {
        result := result + [v];
      }
    }
    assert toInject[..|toInject|] == toInject;
  }

  /** removeEnvVars: compaction inside the slice's own backing array. The result is the prefix
      buf[..kept]; cells past it keep their old contents. */
  method RemoveEnvVars(buf: array<EnvVar>, len: nat, keys: set<string>) returns (kept: nat)
    requires len <= buf.Length
    modifies buf
    ensures kept <= len
    ensures buf[..kept] == Without(old(buf[..len]), keys)
    ensures buf[kept..] == old(buf[kept..])
  {
    kept := 0;
    ghost var was := buf[..];
    for i := 0 to len
      invariant kept <= i
      invariant buf[..kept] == Without(was[..i], keys)
      invariant forall k :: kept <= k < buf.Length ==> buf[k] == was[k]
    {
      assert was[..i + 1] == was[..i] + [was[i]];
      KeepAppend(was[..i], [was[i]], keys, false);
      var e := buf[i];
      if e.name !in keys {
        buf[kept] := e;
        assert buf[..kept + 1] == buf[..kept] + [e];
        kept := kept + 1;
      }
    }
    assert was[..len] == old(buf[..len]);
  }

  /** preserveDatastoreManagedEnvVars: collect the managed entries, then merge them in. */
  method PreserveDatastoreManagedEnvVars(desired: seq<EnvVar>, existing: seq<EnvVar>, managed: set<string>)
    returns (result: seq<EnvVar>)
    ensures result == Preserve(desired, existing, managed)
  {
    if managed == {} {
      return desired;
    }
    var preserved: seq<EnvVar> := [];
    for i := 0 to |existing|
      invariant preserved == Only(existing[..i], managed)
    {
      assert existing[..i + 1] == existing[..i] + [existing[i]];
      KeepAppend(existing[..i], [existing[i]], managed, true);
      if existing[i].name in managed {
        preserved := preserved + [existing[i]];
      }
    }
    assert existing[..|existing|] == existing;
    result := MergeEnvVars(desired, preserved);
  }
}
