/** The data.polykube.dev/managed-env-vars annotation: a set of variable names stored as a
    sorted, comma-joined string. It is the only channel between the two reconcilers. */
module ManagedAnnotation {

  const MANAGED_KEY := "data.polykube.dev/managed-env-vars"

  type Annotations = map<string, string>

  // ------------------------------------------------------------------------ split and join

  /** strings.Split(s, ","): always at least one field. */
  function Split(s: string): (fields: seq<string>)
    ensures fields != []
  {
    if s == "" then [""]
    else
      var rest := Split(s[1..]);
      if s[0] == ',' then [""] + rest else [[s[0]] + rest[0]] + rest[1..]
  }

  function Join(names: seq<string>): string {
    if names == [] then ""
    else if |names| == 1 then names[0]
    else names[0] + "," + Join(names[1..])
  }

  /** unicode.IsSpace. */
  predicate IsSpace(c: char) {
    var k := c as int;
    9 <= k <= 13 || k == 0x20 || k == 0x85 || k == 0xA0 || k == 0x1680 || 0x2000 <= k <= 0x200A
    || k == 0x2028 || k == 0x2029 || k == 0x202F || k == 0x205F || k == 0x3000
  }

  function TrimLeft(s: string): string {
    if s != "" && IsSpace(s[0]) then TrimLeft(s[1..]) else s
  }

  function TrimRight(s: string): string {
    if s != "" && IsSpace(s[|s| - 1]) then TrimRight(s[..|s| - 1]) else s
  }

  function TrimSpace(s: string): string { TrimRight(TrimLeft(s)) }

  /** Names that survive a round trip through the annotation. */
  predicate ValidName(n: string) {
    n != "" && ',' !in n && TrimSpace(n) == n
  }

  /** The set an annotation value stands for. */
  function Decode(value: string): set<string> {
    set f | f in Split(value) && TrimSpace(f) != "" :: TrimSpace(f)
  }

  function Managed(annotations: Annotations): set<string> {
    if MANAGED_KEY in annotations then Decode(annotations[MANAGED_KEY]) else {}
  }

  // -------------------------------------------------------------------------- sorted names

  /** The byte order of sort.Strings, which on UTF-8 is the order of code points. */
  predicate LexLess(a: string, b: string) {
    b != "" && (a == "" || a[0] < b[0] || (a[0] == b[0] && LexLess(a[1..], b[1..])))
  }

  ghost predicate Ascending(names: seq<string>) {
    forall i, j :: 0 <= i < j < |names| ==> LexLess(names[i], names[j])
  }

  ghost predicate Enumerates(names: seq<string>, all: set<string>) {
    Ascending(names) && forall n :: n in names <==> n in all
  }

  /** The one ascending enumeration of a set of names. */
  ghost function Sorted(all: set<string>): (names: seq<string>)
    ensures Enumerates(names, all)
  {
    EnumerationExists(all);
    var names :| Enumerates(names, all);
    names
  }

  ghost function Encode(all: set<string>): string { Join(Sorted(all)) }

  /** updateDatastoreManagedEnvVars on an annotation map: removals first, then additions, and
      the key disappears with the last name. */
  ghost function Update(annotations: Annotations, add: set<string>, remove: set<string>): Annotations {
    var managed := (Managed(annotations) - remove) + add;
    if managed == {} then annotations - {MANAGED_KEY} else annotations[MANAGED_KEY := Encode(managed)]
  }

  // ---------------------------------------------------------------------- lemmas on strings

  lemma {:induction false} LexTotal(a: string, b: string)
    ensures a == b || LexLess(a, b) || LexLess(b, a)
    ensures !(LexLess(a, b) && LexLess(b, a))
    ensures !LexLess(a, a)
  {
    if a != "" {
      LexTotal(a[1..], a[1..]);
      if b != "" {
        LexTotal(a[1..], b[1..]);
        assert a == [a[0]] + a[1..] && b == [b[0]] + b[1..];
      }
    }
  }

  lemma {:induction false} LexTransitive(a: string, b: string, c: string)
    requires LexLess(a, b) && LexLess(b, c)
    ensures LexLess(a, c)
  {
    if a != "" && a[0] == b[0] && b[0] == c[0] {
      LexTransitive(a[1..], b[1..], c[1..]);
    }
  }

  lemma {:induction false} SplitCommaFree(s: string)
    requires ',' !in s
    ensures Split(s) == [s]
  {
    if s != "" {
      SplitCommaFree(s[1..]);
      assert s == [s[0]] + s[1..];
    }
  }

  lemma {:induction false} SplitField(name: string, rest: string)
    requires ',' !in name
    ensures Split(name + "," + rest) == [name] + Split(rest)
  {
    var s := name + "," + rest;
    if name == "" {
      assert s[1..] == rest;
    } else {
      assert s[1..] == name[1..] + "," + rest;
      SplitField(name[1..], rest);
      assert [s[0]] + name[1..] == name;
    }
  }

  /** Joining comma-free names and splitting again gives the names back. */
  lemma {:induction false} SplitJoin(names: seq<string>)
    requires names != [] && forall i :: 0 <= i < |names| ==> ',' !in names[i]
    ensures Split(Join(names)) == names
  {
    if |names| == 1 {
      SplitCommaFree(names[0]);
    } else {
      SplitField(names[0], Join(names[1..]));
      SplitJoin(names[1..]);
    }
  }

  lemma {:induction false} SplitFieldsCommaFree(s: string)
    ensures forall f :: f in Split(s) ==> ',' !in f
  {
    if s != "" {
      SplitFieldsCommaFree(s[1..]);
      var rest := Split(s[1..]);
      assert rest[0] in rest;
      forall f | f in Split(s) ensures ',' !in f {
        if s[0] != ',' {
          assert f == [s[0]] + rest[0] || f in rest[1..];
        }
      }
    }
  }

  lemma {:induction false} TrimLeftFacts(s: string)
    ensures TrimLeft(s) == "" || !IsSpace(TrimLeft(s)[0])
    ensures forall c :: c in TrimLeft(s) ==> c in s
  {
    if s != "" && IsSpace(s[0]) { TrimLeftFacts(s[1..]); }
  }

  lemma {:induction false} TrimRightFacts(s: string)
    ensures TrimRight(s) <= s
    ensures TrimRight(s) == "" || !IsSpace(TrimRight(s)[|TrimRight(s)| - 1])
  {
    if s != "" && IsSpace(s[|s| - 1]) { TrimRightFacts(s[..|s| - 1]); }
  }

  /** Whatever string the annotation holds, every name decoded from it is a valid name. */
  lemma DecodeValid(value: string, n: string)
    requires n in Decode(value)
    ensures ValidName(n)
  {
    var f :| f in Split(value) && TrimSpace(f) == n;
    SplitFieldsCommaFree(value);
    TrimLeftFacts(f);
    TrimRightFacts(TrimLeft(f));
    assert forall c :: c in n ==> c in TrimLeft(f);
    assert n[0] == TrimLeft(f)[0];
  }

  // ------------------------------------------------------------ said without recursion

  /** value[i..j] is one of the comma-separated fields. */
  ghost predicate FieldAt(value: string, i: int, j: int) {
    && 0 <= i <= j <= |value| && (i == 0 || value[i - 1] == ',') && (j == |value| || value[j] == ',')
    && forall k :: i <= k < j ==> value[k] != ','
  }

  ghost predicate LaterField(value: string, f: string) {
    exists i, j :: i > 0 && FieldAt(value, i, j) && value[i..j] == f
  }

  ghost predicate FirstField(value: string, f: string) {
    exists j :: FieldAt(value, 0, j) && value[0..j] == f
  }

  lemma Shift(value: string, i: int, j: int)
    requires value != "" && 1 <= i
    ensures i > 1 || value[0] == ',' ==> (FieldAt(value, i, j) <==> FieldAt(value[1..], i - 1, j - 1))
    ensures i <= j <= |value| ==> value[i..j] == value[1..][i - 1..j - 1]
  {
    assert value == [value[0]] + value[1..];
  }

  lemma LaterOfTail(value: string, f: string)
    requires value != ""
    ensures value[0] == ',' ==> (LaterField(value, f) <==> FirstField(value[1..], f) || LaterField(value[1..], f))
    ensures value[0] != ',' ==> (LaterField(value, f) <==> LaterField(value[1..], f))
  {
    var tail := value[1..];
    if LaterField(value, f) {
      var i, j :| i > 0 && FieldAt(value, i, j) && value[i..j] == f;
      Shift(value, i, j);
      assert FieldAt(tail, i - 1, j - 1) && tail[i - 1..j - 1] == f;
    }
    if value[0] == ',' && FirstField(tail, f) {
      var j :| FieldAt(tail, 0, j) && tail[0..j] == f;
      Shift(value, 1, j + 1);
      assert FieldAt(value, 1, j + 1) && value[1..j + 1] == f;
    }
    if LaterField(tail, f) {
      var i, j :| i > 0 && FieldAt(tail, i, j) && tail[i..j] == f;
      Shift(value, i + 1, j + 1);
      assert FieldAt(value, i + 1, j + 1) && value[i + 1..j + 1] == f;
    }
  }

  lemma FirstUnique(value: string, f: string, g: string)
    requires FirstField(value, f) && FirstField(value, g)
    ensures f == g
  {
    var j :| FieldAt(value, 0, j) && value[0..j] == f;
    var k :| FieldAt(value, 0, k) && value[0..k] == g;
  }

  lemma FirstOfTail(value: string, f: string)
    requires value != "" && value[0] != ',' && FirstField(value[1..], f)
    ensures FirstField(value, [value[0]] + f)
  {
    var j :| FieldAt(value[1..], 0, j) && value[1..][0..j] == f;
    assert value[0..j + 1] == [value[0]] + f;
    assert FieldAt(value, 0, j + 1);
  }

  /** Split gives exactly the comma-separated fields: the first one in front, the others after it. */
  lemma {:induction false} SplitIs(value: string)
    ensures FirstField(value, Split(value)[0])
    ensures forall f :: f in Split(value)[1..] <==> LaterField(value, f)
  {
    if value == "" {
      assert FieldAt(value, 0, 0) && value[0..0] == "";
    } else {
      var tail := value[1..];
      var rest := Split(tail);
      SplitIs(tail);
      if value[0] == ',' {
        assert FieldAt(value, 0, 0) && value[0..0] == "";
        assert Split(value)[1..] == rest;
        assert rest == [rest[0]] + rest[1..];
        forall f ensures f in rest <==> LaterField(value, f) {
          LaterOfTail(value, f);
          if FirstField(tail, f) { FirstUnique(tail, f, rest[0]); }
        }
      } else {
        FirstOfTail(value, rest[0]);
        assert Split(value)[1..] == rest[1..];
        forall f ensures f in rest[1..] <==> LaterField(value, f) { LaterOfTail(value, f); }
      }
    }
  }

  /** f[i..j] is f without the white space around it. */
  ghost predicate TrimmedAt(f: string, i: int, j: int) {
    && 0 <= i <= j <= |f| && (i < j ==> !IsSpace(f[i]) && !IsSpace(f[j - 1]))
    && forall k :: 0 <= k < i || j <= k < |f| ==> IsSpace(f[k])
  }

  ghost predicate Trims(f: string, n: string) {
    exists i, j :: TrimmedAt(f, i, j) && f[i..j] == n
  }

  lemma {:induction false} TrimLeftIs(s: string) returns (i: nat)
    ensures i <= |s| && TrimLeft(s) == s[i..] && forall k :: 0 <= k < i ==> IsSpace(s[k])
  {
    i := 0;
    if s != "" && IsSpace(s[0]) {
      i := TrimLeftIs(s[1..]);
      i := i + 1;
      assert forall k :: 0 < k < i ==> s[k] == s[1..][k - 1];
    }
  }

  lemma {:induction false} TrimRightIs(s: string) returns (j: nat)
    ensures j <= |s| && TrimRight(s) == s[..j] && forall k :: j <= k < |s| ==> IsSpace(s[k])
  {
    j := |s|;
    if s != "" && IsSpace(s[|s| - 1]) { j := TrimRightIs(s[..|s| - 1]); }
  }

  lemma TrimSpaceIs(f: string)
    ensures Trims(f, TrimSpace(f))
  {
    var i := TrimLeftIs(f);
    var n := TrimRightIs(f[i..]);
    TrimLeftFacts(f);
    TrimRightFacts(f[i..]);
    assert f[i..i + n] == f[i..][..n] == TrimSpace(f);
    assert forall k :: i <= k < |f| ==> f[k] == f[i..][k - i];
    assert TrimmedAt(f, i, i + n);
  }

  lemma TrimsUnique(f: string, a: string, b: string)
    requires Trims(f, a) && Trims(f, b)
    ensures a == b
  {
  }

  ghost predicate IsField(value: string, f: string) {
    exists i, j :: FieldAt(value, i, j) && value[i..j] == f
  }

  /** The names an annotation value stands for are its comma-separated fields without the white space
      around them, empty ones left out. */
  lemma DecodeIs(value: string, n: string)
    ensures n in Decode(value) <==> n != "" && exists f :: IsField(value, f) && Trims(f, n)
  {
    var fields := Split(value);
    SplitIs(value);
    assert fields == [fields[0]] + fields[1..];
    forall f ensures f in fields <==> IsField(value, f) {
      if FirstField(value, f) { FirstUnique(value, f, fields[0]); }
    }
    if n in Decode(value) {
      var f :| f in fields && TrimSpace(f) == n;
      TrimSpaceIs(f);
    }
    if n != "" && exists f :: IsField(value, f) && Trims(f, n) {
      var f :| IsField(value, f) && Trims(f, n);
      TrimSpaceIs(f);
      TrimsUnique(f, n, TrimSpace(f));
    }
  }

  /** a is a proper beginning of b, or at the first difference a has the smaller character. */
  ghost predicate Precedes(a: string, b: string) {
    || a < b
    || exists i :: 0 <= i < |a| && i < |b| && a[..i] == b[..i] && a[i] < b[i]
  }

  lemma PrecedesTails(a: string, b: string)
    requires a != "" && b != "" && a[0] == b[0]
    ensures Precedes(a, b) <==> Precedes(a[1..], b[1..])
  {
    var x, y := a[1..], b[1..];
    assert a == [a[0]] + x && b == [b[0]] + y;
    assert a < b <==> x < y;
    forall i | 0 <= i < |x| && i < |y|
      ensures (x[..i] == y[..i] && x[i] < y[i]) <==> (a[..i + 1] == b[..i + 1] && a[i + 1] < b[i + 1])
    {
      assert a[..i + 1] == [a[0]] + x[..i] && b[..i + 1] == [b[0]] + y[..i];
      assert x[..i] == a[..i + 1][1..] && y[..i] == b[..i + 1][1..];
    }
    forall i | 0 < i < |a| && i < |b| && a[..i] == b[..i] && a[i] < b[i] ensures Precedes(x, y) {
      assert x[..i - 1] == y[..i - 1] && x[i - 1] < y[i - 1];
    }
  }

  /** LexLess is the byte order. */
  lemma {:induction false} LexLessIs(a: string, b: string)
    ensures LexLess(a, b) <==> Precedes(a, b)
  {
    if a != "" && b != "" {
      if a[0] == b[0] {
        LexLessIs(a[1..], b[1..]);
        PrecedesTails(a, b);
      } else {
        assert a[..0] == b[..0];
        forall i | 0 < i < |a| && i < |b| ensures a[..i] != b[..i] { assert a[..i][0] == a[0] && b[..i][0] == b[0]; }
      }
    }
  }

  // ----------------------------------------------------------------------- enumerations

  lemma {:induction false} EnumerationExists(all: set<string>)
    ensures exists names :: Enumerates(names, all)
    decreases |all|
  {
    if all == {} {
      assert Enumerates([], all);
    } else {
      var m := Least(all);
      EnumerationExists(all - {m});
      var rest :| Enumerates(rest, all - {m});
      var names := [m] + rest;
      forall i | 0 <= i < |rest| ensures LexLess(m, rest[i]) {
        assert rest[i] in rest;
      }
      assert Enumerates(names, all);
    }
  }

  lemma {:induction false} Least(all: set<string>) returns (m: string)
    requires all != {}
    ensures m in all && forall n :: n in all && n != m ==> LexLess(m, n)
    decreases |all|
  {
    m :| m in all;
    if all != {m} {
      var k := Least(all - {m});
      LexTotal(m, k);
      if LexLess(k, m) {
        m := k;
      } else {
        forall n | n in all && n != m && n != k ensures LexLess(m, n) { LexTransitive(m, k, n); }
      }
    }
  }

  /** Enumerations are unique, so the stored string does not depend on map iteration order. */
  lemma {:induction false} EnumerationUnique(a: seq<string>, b: seq<string>, all: set<string>)
    requires Enumerates(a, all) && Enumerates(b, all)
    ensures a == b
    decreases |a|
  {
    assert b != [] ==> b[0] in b;
    assert a != [] ==> a[0] in a;
    if a != [] {
      HeadIsLeast(a, b[0]);
      HeadIsLeast(b, a[0]);
      LexTotal(a[0], b[0]);
      var m := a[0];
      TailEnumerates(a, all);
      TailEnumerates(b, all);
      EnumerationUnique(a[1..], b[1..], all - {m});
      assert a == [m] + a[1..] && b == [m] + b[1..];
    }
  }

  lemma HeadIsLeast(a: seq<string>, n: string)
    requires a != [] && Ascending(a) && n in a
    ensures n == a[0] || LexLess(a[0], n)
  {
  }

  lemma TailEnumerates(a: seq<string>, all: set<string>)
    requires a != [] && Enumerates(a, all)
    ensures Enumerates(a[1..], all - {a[0]})
  {
    forall n ensures n in a[1..] <==> n in all - {a[0]} {
      LexTotal(a[0], a[0]);
      if n in a[1..] {
        var i :| 0 <= i < |a| - 1 && a[1..][i] == n;
        assert LexLess(a[0], a[i + 1]);
        assert a[i + 1] in a;
      }
      if n in all - {a[0]} {
        assert n in a;
        var i :| 0 <= i < |a| && a[i] == n;
        assert a[1..][i - 1] == n;
      }
    }
  }

  // -------------------------------------------------------------------------------- codec

  /** Encoding and decoding are inverse on valid names. */
  lemma CodecRoundTrip(all: set<string>)
    requires all != {} && forall n :: n in all ==> ValidName(n)
    ensures Decode(Encode(all)) == all
  {
    var names := Sorted(all);
    assert names != [] by { var n :| n in all; assert n in names; }
    assert forall i :: 0 <= i < |names| ==> names[i] in all;
    SplitJoin(names);
  }

  /** Decoding after an update gives exactly the old set minus the removed names plus the added
      ones; the key is present exactly when that set is non-empty; every other annotation keeps
      its value. The old value may be any string at all. */
  lemma UpdateDecodes(annotations: Annotations, add: set<string>, remove: set<string>)
    requires forall n :: n in add ==> ValidName(n)
    ensures Managed(Update(annotations, add, remove)) == (Managed(annotations) - remove) + add
    ensures MANAGED_KEY in Update(annotations, add, remove) <==> (Managed(annotations) - remove) + add != {}
    ensures Update(annotations, add, remove) - {MANAGED_KEY} == annotations - {MANAGED_KEY}
  {
    var managed := (Managed(annotations) - remove) + add;
    if managed != {} {
      forall n | n in managed ensures ValidName(n) {
        if n !in add { DecodeValid(annotations[MANAGED_KEY], n); }
      }
      CodecRoundTrip(managed);
    }
  }

  /** datastoreManagedEnvVars: split, trim, drop empty fields. */
  method DecodeManaged(annotations: Annotations) returns (managed: set<string>)
    ensures managed == Managed(annotations)
  {
    managed := {};
    // A missing key reads as the empty string.
    var value := if MANAGED_KEY in annotations then annotations[MANAGED_KEY] else "";
    var fields := Split(value);
    for i := 0 to |fields|
      invariant managed == set f | f in fields[..i] && TrimSpace(f) != "" :: TrimSpace(f)
    {
      assert fields[..i + 1] == fields[..i] + [fields[i]];
      var name := TrimSpace(fields[i]);
      if name != "" {
        managed := managed + {name};
      }
    }
    assert fields[..|fields|] == fields;
  }

  /** The encoding half of updateDatastoreManagedEnvVars: collect the map's keys in whatever
      order iteration yields them, sort, join. The result is Encode whatever that order was. */
  method EncodeManaged(managed: set<string>) returns (value: string)
    ensures value == Encode(managed)
  {
    var names: seq<string> := [];
    var rest := managed;
    while rest != {}
      invariant rest <= managed && forall n :: n in names <==> n in managed - rest
      invariant forall i, j :: 0 <= i < j < |names| ==> names[i] != names[j]
      decreases |rest|
    {
      var name :| name in rest;
      assert name !in names;
      names := names + [name];
      rest := rest - {name};
    }
    var sorted := SortStrings(names);
    EnumerationUnique(sorted, Sorted(managed), managed);
    value := Join(sorted);
  }

  /** sort.Strings, as far as this code relies on it: an insertion sort of distinct strings. */
  method SortStrings(names: seq<string>) returns (sorted: seq<string>)
    requires forall i, j :: 0 <= i < j < |names| ==> names[i] != names[j]
    ensures Ascending(sorted)
    ensures forall n :: n in sorted <==> n in names
  {
    sorted := [];
    for i := 0 to |names|
      invariant Ascending(sorted)
      invariant forall n :: n in sorted <==> n in names[..i]
    {
      assert names[..i + 1] == names[..i] + [names[i]];
      assert names[i] !in names[..i];
      var k := |sorted|;
      while k > 0 && LexLess(names[i], sorted[k - 1])
        invariant 0 <= k <= |sorted|
        invariant forall j :: k <= j < |sorted| ==> LexLess(names[i], sorted[j])
      {
        k := k - 1;
      }
      forall j | 0 <= j < k ensures LexLess(sorted[j], names[i]) {
        LexTotal(sorted[k - 1], names[i]);
        assert sorted[k - 1] in sorted;
        if j < k - 1 { LexTransitive(sorted[j], sorted[k - 1], names[i]); }
      }
      ghost var was := sorted;
      sorted := sorted[..k] + [names[i]] + sorted[k..];
      assert forall n :: n in was <==> n in was[..k] || n in was[k..] by { assert was == was[..k] + was[k..]; }
    }
    assert names[..|names|] == names;
  }
}
