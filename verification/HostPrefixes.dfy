/** Reducing a host set to the prefix matches that accept the same authorities. */
module HostPrefixes {
  import opened Strings

  function LocalSuffix(domain: string): string {
    ".svc." + domain
  }

  /** The authority prefix that stands for a host; a cluster-local host is cut to its short form. */
  function HostPrefix(domain: string, host: string): string {
    TrimSuffix(host, LocalSuffix(domain))
  }

  function Trimmed(domain: string, hosts: seq<string>): (t: seq<string>)
    ensures |t| == |hosts|
    ensures forall i :: 0 <= i < |t| ==> t[i] == HostPrefix(domain, hosts[i])
  {
    seq(|hosts|, i requires 0 <= i < |hosts| => HostPrefix(domain, hosts[i]))
  }

  predicate CoveredBy(h: string, kept: set<string>) {
    exists e :: e in kept && HasPrefix(h, e)
  }

  /** Scan left to right, keeping a string unless a kept one is already a prefix of it. */
  function Reduce(ts: seq<string>): set<string> {
    if ts == [] then {} else
      var kept := Reduce(ts[..|ts| - 1]);
      var h := ts[|ts| - 1];
      if CoveredBy(h, kept) then kept else kept + {h}
  }

  function DistinctPrefixes(domain: string, hosts: set<string>): set<string> {
    Reduce(Trimmed(domain, SortedList(hosts)))
  }

  method GetDistinctHostPrefixes(domain: string, hosts: set<string>) returns (ns: set<string>)
    ensures ns == DistinctPrefixes(domain, hosts)
    ensures forall a :: CoveredBy(a, ns) <==> exists h :: h in hosts && HasPrefix(a, HostPrefix(domain, h))
  {
    var all := SortedList(hosts);
    ns := {};
    var i := 0;
    while i < |all|
      invariant 0 <= i <= |all|
      invariant ns == Reduce(Trimmed(domain, all)[..i])
    {
      var h := HostPrefix(domain, all[i]);
      var prefixExists := false;
      var rest := ns;
      while rest != {} && !prefixExists
        invariant rest <= ns
        invariant prefixExists ==> CoveredBy(h, ns)
        invariant forall e :: e in ns - rest && HasPrefix(h, e) ==> prefixExists
        decreases rest
      {
        var e :| e in rest;
        prefixExists := HasPrefix(h, e);
        rest := rest - {e};
      }
      assert Trimmed(domain, all)[..i + 1][..i] == Trimmed(domain, all)[..i];
      if !prefixExists {
        ns := ns + {h};
      }
      i := i + 1;
    }
    assert Trimmed(domain, all)[..i] == Trimmed(domain, all);
    forall a ensures CoveredBy(a, ns) <==> exists h :: h in hosts && HasPrefix(a, HostPrefix(domain, h)) {
      PrefixReductionPreservesMeaning(domain, hosts, a);
    }
  }

  lemma {:induction false} ReduceAccepts(ts: seq<string>, a: string)
    ensures CoveredBy(a, Reduce(ts)) <==> exists t :: t in ts && HasPrefix(a, t)
  {
    if ts != [] {
      var init, h := ts[..|ts| - 1], ts[|ts| - 1];
      assert ts == init + [h];
      ReduceAccepts(init, a);
      var kept := Reduce(init);
      if HasPrefix(a, h) && CoveredBy(h, kept) {
        var e :| e in kept && HasPrefix(h, e);
        PrefixTransitive(e, h, a);
        assert CoveredBy(a, kept);
      }
      if HasPrefix(a, h) && !CoveredBy(h, kept) {
        assert h in Reduce(ts);
      }
      if CoveredBy(a, Reduce(ts)) {
        var e :| e in Reduce(ts) && HasPrefix(a, e);
        if e in kept { assert CoveredBy(a, kept); } else { assert e == h && h in ts; }
      }
    }
  }

  /** The kept prefixes accept exactly the authorities that some host's own prefix accepts. */
  lemma PrefixReductionPreservesMeaning(domain: string, hosts: set<string>, authority: string)
    ensures CoveredBy(authority, DistinctPrefixes(domain, hosts))
       <==> exists h :: h in hosts && HasPrefix(authority, HostPrefix(domain, h))
  {
    var all := SortedList(hosts);
    var ts := Trimmed(domain, all);
    ReduceAccepts(ts, authority);
    if t :| t in ts && HasPrefix(authority, t) {
      var i :| 0 <= i < |ts| && ts[i] == t;
      assert all[i] in hosts && HasPrefix(authority, HostPrefix(domain, all[i]));
    }
    if h :| h in hosts && HasPrefix(authority, HostPrefix(domain, h)) {
      assert h in all;
      var i :| 0 <= i < |all| && all[i] == h;
      assert ts[i] in ts;
    }
  }

  ghost predicate PrefixFree(s: set<string>) {
    forall p, q :: p in s && q in s && HasPrefix(q, p) ==> p == q
  }

  /** Some string is a proper prefix of an earlier one and is not itself covered by what precedes it. */
  ghost predicate LateShorter(ts: seq<string>) {
    exists i, j :: 0 <= i < j < |ts| && ts[j] < ts[i] && FirstOfItsPrefixes(ts, j)
  }

  ghost predicate FirstOfItsPrefixes(ts: seq<string>, j: nat)
    requires j < |ts|
  {
    forall k :: 0 <= k < j ==> !HasPrefix(ts[j], ts[k])
  }

  lemma {:induction false} ReduceKeeps(ts: seq<string>, s: string)
    ensures s in Reduce(ts) <==> exists j :: 0 <= j < |ts| && ts[j] == s && FirstOfItsPrefixes(ts, j)
  {
    if ts != [] {
      var n := |ts| - 1;
      var init := ts[..n];
      ReduceKeeps(init, s);
      ReduceAccepts(init, ts[n]);
      assert forall j :: 0 <= j < n ==> init[j] == ts[j];
      assert forall j :: 0 <= j < n ==> (FirstOfItsPrefixes(init, j) <==> FirstOfItsPrefixes(ts, j));
      if s == ts[n] && s !in Reduce(init) {
        assert CoveredBy(ts[n], Reduce(init)) <==> !FirstOfItsPrefixes(ts, n) by {
          if !FirstOfItsPrefixes(ts, n) {
            var k :| 0 <= k < n && HasPrefix(ts[n], ts[k]);
            assert init[k] in init;
          }
        }
      }
    }
  }

  lemma LateShorterIsKept(ts: seq<string>, i: nat, j: nat)
    requires i < j < |ts| && ts[j] < ts[i] && FirstOfItsPrefixes(ts, j)
    ensures !PrefixFree(Reduce(ts))
  {
    ReduceKeeps(ts, ts[j]);
    var k := FirstPrefix(ts, i);
    ReduceKeeps(ts, ts[k]);
    PrefixesComparable(ts[k], ts[j], ts[i]);
    assert !HasPrefix(ts[j], ts[k]);
  }

  /** The first string that is a prefix of ts[i] has no prefix before it. */
  lemma FirstPrefix(ts: seq<string>, i: nat) returns (k: nat)
    requires i < |ts|
    ensures k <= i && HasPrefix(ts[i], ts[k]) && FirstOfItsPrefixes(ts, k)
  {
    k := 0;
    while !HasPrefix(ts[i], ts[k])
      invariant k <= i
      invariant forall m :: 0 <= m < k ==> !HasPrefix(ts[i], ts[m])
      decreases i - k
    {
      k := k + 1;
    }
    forall m | 0 <= m < k ensures !HasPrefix(ts[k], ts[m]) {
      PrefixTransitive(ts[m], ts[k], ts[i]);
    }
  }

  /** The exact condition for a prefix-free result. Sorting happens before trimming, so it can fail. */
  lemma KeptPrefixFreeExactly(ts: seq<string>)
    ensures PrefixFree(Reduce(ts)) <==> !LateShorter(ts)
  {
    if LateShorter(ts) {
      var i, j :| 0 <= i < j < |ts| && ts[j] < ts[i] && FirstOfItsPrefixes(ts, j);
      LateShorterIsKept(ts, i, j);
    }
    if !PrefixFree(Reduce(ts)) {
      var p, q :| p in Reduce(ts) && q in Reduce(ts) && HasPrefix(q, p) && p != q;
      ReduceKeeps(ts, p);
      ReduceKeeps(ts, q);
      var j :| 0 <= j < |ts| && ts[j] == p && FirstOfItsPrefixes(ts, j);
      var i :| 0 <= i < |ts| && ts[i] == q && FirstOfItsPrefixes(ts, i);
      assert i < j && ts[j] < ts[i];
    }
  }

  /** When trimming leaves the sorted order sorted, no kept prefix is a prefix of another. */
  lemma SortedTrimIsPrefixFree(domain: string, hosts: set<string>)
    requires Ascending(Trimmed(domain, SortedList(hosts)))
    ensures PrefixFree(DistinctPrefixes(domain, hosts))
  {
    var ts := Trimmed(domain, SortedList(hosts));
    KeptPrefixFreeExactly(ts);
    if LateShorter(ts) {
      var i, j :| 0 <= i < j < |ts| && ts[j] < ts[i] && FirstOfItsPrefixes(ts, j);
      PrefixIsLexLe(ts[j], ts[i]);
      LexAntisymmetric(ts[i], ts[j]);
    }
  }

  lemma NoLocalHostIsPrefixFree(domain: string, hosts: set<string>)
    requires forall h :: h in hosts ==> !HasSuffix(h, LocalSuffix(domain))
    ensures PrefixFree(DistinctPrefixes(domain, hosts))
  {
    var all := SortedList(hosts);
    SortedListIsSorted(hosts);
    assert forall i :: 0 <= i < |all| ==> all[i] in hosts;
    assert Trimmed(domain, all) == all;
    SortedTrimIsPrefixFree(domain, hosts);
  }

  /** A cluster-local host that sorts after a longer outside host: both prefixes are kept. */
  lemma TrimAfterSortCanKeepBoth()
    ensures !PrefixFree(DistinctPrefixes("l", {"a.b" + ".c", "a.b" + ".svc.l"}))
  {
    var a, b := "a.b" + ".c", "a.b" + ".svc.l";
    assert LexLe(a, b) by {
      assert ".c"[1..] == "c" && ".svc.l"[1..] == "svc.l";
      assert LexLe("c", "svc.l");
      assert LexLe(".c", ".svc.l");
      LexCommonPrefix("a.b", ".c", ".svc.l");
    }
    SortedPair(a, b);
    assert LocalSuffix("l") == ".svc.l";
    var ts := Trimmed("l", [a, b]);
    assert ts[0] == a by { assert a[|a| - 1] == 'c' && LocalSuffix("l")[5] == 'l'; }
    assert ts[1] == "a.b" by { assert b[|b| - 6..] == ".svc.l" && b[..3] == "a.b"; }
    assert ts[1] < ts[0];
    assert FirstOfItsPrefixes(ts, 1);
    KeptPrefixFreeExactly(ts);
  }

  // ---------------------------------------------------------------- short names of cluster DNS hosts

  /** The last label is not too long and not all digits. */
  predicate ValidTopLevelDomain(host: string) {
    var parts := Split(host, '.');
    var tld := parts[|parts| - 1];
    |tld| <= 63 && exists i :: 0 <= i < |tld| && (tld[i] == '-' || tld[i] > '9')
  }

  /** The host, and what is left of it without the cluster domain, and without that and "svc". */
  function ShortForms(domain: string, host: string): set<string> {
    {host, TrimSuffix(host, "." + domain), TrimSuffix(host, LocalSuffix(domain))}
  }

  function ExpandedHosts(domain: string, hosts: set<string>): set<string> {
    set h, e | h in hosts && e in ShortForms(domain, h) && ValidTopLevelDomain(e) :: e
  }

  method ExpandHosts(domain: string, hosts: set<string>) returns (expanded: set<string>)
    ensures expanded == ExpandedHosts(domain, hosts)
  {
    var all := SortedList(hosts);
    expanded := {};
    for i := 0 to |all|
      invariant expanded == ExpandedHosts(domain, Members(all[..i]))
    {
      var short := ShorterForms(domain, all[i]);
      expanded := expanded + short;
      assert all[..i + 1] == all[..i] + [all[i]];
      ExpandedStep(domain, Members(all[..i]), all[i]);
    }
    assert all[..|all|] == all;
    assert Members(all) == hosts;
  }

  lemma ExpandedStep(domain: string, hosts: set<string>, h: string)
    ensures ExpandedHosts(domain, hosts + {h}) == ExpandedHosts(domain, hosts) + ExpandedHosts(domain, {h})
  {
  }

  predicate Tried(allowed: seq<string>, h: string, e: string) {
    exists k :: 0 <= k < |allowed| && e == TrimSuffix(h, allowed[k])
  }

  lemma TriedSnoc(allowed: seq<string>, suffix: string, h: string, e: string)
    ensures Tried(allowed + [suffix], h, e) <==> Tried(allowed, h, e) || e == TrimSuffix(h, suffix)
  {
    var all := allowed + [suffix];
    assert all[|allowed|] == suffix;
    if k :| 0 <= k < |allowed| && e == TrimSuffix(h, allowed[k]) { assert all[k] == allowed[k]; }
  }

  lemma TriedAll(domain: string, h: string, e: string)
    ensures Tried(["", "." + domain, LocalSuffix(domain)], h, e) <==> e in ShortForms(domain, h)
  {
    var all := ["", "." + domain, LocalSuffix(domain)];
    assert TrimSuffix(h, "") == h;
    assert all[0] == "" && all[1] == "." + domain && all[2] == LocalSuffix(domain);
  }

  /** Each allowed suffix is tried; one that does not fit leaves the host as it is, and that is not counted again. */
  method ShorterForms(domain: string, h: string) returns (expanded: set<string>)
    ensures expanded == ExpandedHosts(domain, {h})
  {
    var allowed := ["", "." + domain, LocalSuffix(domain)];
    expanded := {};
    var j := 0;
    while j < 3
      invariant 0 <= j <= 3
      invariant j > 0 && ValidTopLevelDomain(h) ==> h in expanded
      invariant forall e :: e in expanded <==> Tried(allowed[..j], h, e) && ValidTopLevelDomain(e)
    {
      var th := TrimSuffix(h, allowed[j]);
      forall e ensures Tried(allowed[..j + 1], h, e) <==> Tried(allowed[..j], h, e) || e == th {
        assert allowed[..j + 1] == allowed[..j] + [allowed[j]];
        TriedSnoc(allowed[..j], allowed[j], h, e);
      }
      if (allowed[j] == "" || |th| < |h|) && ValidTopLevelDomain(th) {
        expanded := expanded + {th};
      }
      j := j + 1;
    }
    assert allowed[..j] == allowed;
    forall e ensures Tried(allowed, h, e) <==> e in ShortForms(domain, h) {
      TriedAll(domain, h, e);
    }
  }

  /** Which expanded hosts have the prefix that stands for the host they come from: those of hosts in the cluster's
      "svc" domain, and the hosts themselves. */
  lemma ShortFormAcceptedExactly(domain: string, host: string, e: string)
    requires e in ShortForms(domain, host)
    ensures HasPrefix(e, HostPrefix(domain, host)) <==> e == host || HasSuffix(host, LocalSuffix(domain))
  {
  }
}
