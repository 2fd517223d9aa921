/** The environment variable names a DatastoreBinding generates from its own name. */
module EnvNames {
  import opened Types

  const PRIMARY := "primary"
  const DATABASE_URL := "DATABASE_URL"
  const PREFIX := "DATASTORE_"
  const URL := "_URL"
  const REPLICATION_MODE := "_REPLICATION_MODE"

  /** Binding names are DNS subdomains: lower-case letters, digits, '-' and '.'
      (host name syntax, section 2.1 of RFC 1123). */
  predicate DnsChar(c: char) {
    'a' <= c <= 'z' || '0' <= c <= '9' || c == '-' || c == '.'
  }

  predicate DnsName(s: string) {
    s != "" && forall i :: 0 <= i < |s| ==> DnsChar(s[i])
  }

  function UpperChar(c: char): char {
    if 'a' <= c <= 'z' then ((c as int) - 32) as char else c
  }

  /** ReplaceAll "-" by "_", then ToUpper. Exact on the DNS alphabet. */
  function EnvChar(c: char): char {
    UpperChar(if c == '-' then '_' else c)
  }

  function Upper(s: string): string {
    seq(|s|, i requires 0 <= i < |s| => EnvChar(s[i]))
  }

  function UrlName(binding: string): string { PREFIX + Upper(binding) + URL }

  function ModeName(binding: string): string { PREFIX + Upper(binding) + REPLICATION_MODE }

  function ManagedNames(binding: string): seq<string> {
    [UrlName(binding), ModeName(binding)] + if binding == PRIMARY then [DATABASE_URL] else []
  }

  function ManagedSet(binding: string): set<string> {
    ToSet(ManagedNames(binding))
  }

  // The characters a generated name is made of.
  predicate EnvNameChar(c: char) {
    'A' <= c <= 'Z' || '0' <= c <= '9' || c == '_' || c == '.'
  }

  lemma ManagedSetIs(binding: string)
    ensures ManagedSet(binding)
         == {UrlName(binding), ModeName(binding)} + if binding == PRIMARY then {DATABASE_URL} else {}
  {
    var ns := ManagedNames(binding);
    assert ns[0] == UrlName(binding) && ns[1] == ModeName(binding);
    assert binding == PRIMARY ==> ns[2] == DATABASE_URL;
    assert forall n :: n in ns ==> n == UrlName(binding) || n == ModeName(binding)
                                   || (binding == PRIMARY && n == DATABASE_URL);
  }

  /** Upper-casing with '-' to '_' loses nothing on the DNS alphabet. */
  lemma UpperInjective(a: string, b: string)
    requires DnsName(a) && DnsName(b) && Upper(a) == Upper(b)
    ensures a == b
  {
    assert |Upper(a)| == |a| && |Upper(b)| == |b|;
    forall i | 0 <= i < |a| ensures a[i] == b[i] {
      assert DnsChar(a[i]) && DnsChar(b[i]);
      assert EnvChar(a[i]) == Upper(a)[i] == Upper(b)[i] == EnvChar(b[i]);
    }
  }

  lemma AffixInjective(prefix: string, a: string, b: string, suffix: string)
    requires prefix + a + suffix == prefix + b + suffix
    ensures a == b
  {
    var p, q := prefix + a + suffix, prefix + b + suffix;
    assert |p| == |q|;
    assert a == p[|prefix|..|prefix| + |a|] == q[|prefix|..|prefix| + |b|] == b;
  }

  /** Two different bindings never manage the same variable. */
  lemma NamesNeverCollide(a: string, b: string)
    requires DnsName(a) && DnsName(b) && a != b
    ensures ManagedSet(a) !! ManagedSet(b)
  {
    ManagedSetIs(a);
    ManagedSetIs(b);
    if UrlName(a) == UrlName(b) {
      AffixInjective(PREFIX, Upper(a), Upper(b), URL);
      UpperInjective(a, b);
    }
    if ModeName(a) == ModeName(b) {
      AffixInjective(PREFIX, Upper(a), Upper(b), REPLICATION_MODE);
      UpperInjective(a, b);
    }
    FormsNeverMeet(a, b);
    FormsNeverMeet(b, a);
  }

  /** The two generated forms end in different letters, and DATABASE_URL differs from both at
      its fifth letter. */
  lemma FormsNeverMeet(a: string, b: string)
    ensures UrlName(a) != ModeName(b)
    ensures UrlName(a) != DATABASE_URL && ModeName(a) != DATABASE_URL
  {
    var u, m, am := UrlName(a), ModeName(b), ModeName(a);
    assert u[|u| - 1] == 'L' && m[|m| - 1] == 'E';
    assert u[4] == PREFIX[4] && am[4] == PREFIX[4];
    assert PREFIX[4] == 'S' && DATABASE_URL[4] == 'B';
  }

  /** Every generated name is non-empty and free of commas and white space. */
  lemma GeneratedNamesClean(b: string, n: string)
    requires DnsName(b) && n in ManagedSet(b)
    ensures n != "" && forall i :: 0 <= i < |n| ==> EnvNameChar(n[i])
  {
    ManagedSetIs(b);
    var u := Upper(b);
    forall i | 0 <= i < |u| ensures EnvNameChar(u[i]) {
      assert DnsChar(b[i]);
    }
    CleanConcat(PREFIX, u);
    CleanConcat(PREFIX + u, URL);
    CleanConcat(PREFIX + u, REPLICATION_MODE);
  }

  lemma CleanConcat(a: string, b: string)
    requires forall i :: 0 <= i < |a| ==> EnvNameChar(a[i])
    requires forall i :: 0 <= i < |b| ==> EnvNameChar(b[i])
    ensures forall i :: 0 <= i < |a + b| ==> EnvNameChar((a + b)[i])
  {
  }

  /** Character by character: letters in upper case, '-' as '_', digits and '.' as they are. */
  lemma UpperIs(binding: string, i: nat)
    requires DnsName(binding) && i < |binding|
    ensures |Upper(binding)| == |binding|
    ensures var c, u := binding[i], Upper(binding)[i];
      && ('a' <= c <= 'z' ==> 'A' <= u <= 'Z' && u as int - 'A' as int == c as int - 'a' as int)
      && (c == '-' ==> u == '_') && ('0' <= c <= '9' || c == '.' ==> u == c)
    ensures UrlName(binding) == "DATASTORE_" + Upper(binding) + "_URL"
    ensures ModeName(binding) == "DATASTORE_" + Upper(binding) + "_REPLICATION_MODE"
  {
    assert DnsChar(binding[i]);
  }
}
