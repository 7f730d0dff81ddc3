/** The hash probe inserted into every rule before compiling, and what it does to routing. */
module Probes {
  import opened Types
  import opened VirtualServices

  const HASH_KEY := "K-Network-Hash"
  const HASH_OVERRIDE := "override"

  /** The copy of a path that answers probing requests and tags them with the hash. */
  function ProbePath(p: IngressPath, hash: string): IngressPath {
    p.(headers := p.headers[HASH_KEY := HASH_OVERRIDE], appendHeaders := p.appendHeaders[HASH_KEY := hash])
  }

  function ProbePaths(paths: seq<IngressPath>, hash: string): (r: seq<IngressPath>)
    ensures |r| == |paths|
    ensures forall i :: 0 <= i < |paths| ==> r[i] == ProbePath(paths[i], hash)
  {
    seq(|paths|, i requires 0 <= i < |paths| => ProbePath(paths[i], hash))
  }

  function ProbedRule(rule: IngressRule, hash: string): IngressRule {
    rule.(http := Some(ProbePaths(rule.Paths(), hash) + rule.Paths()))
  }

  function ProbedRules(rules: seq<IngressRule>, hash: string): (r: seq<IngressRule>)
    ensures |r| == |rules|
    ensures forall i :: 0 <= i < |rules| ==> r[i] == ProbedRule(rules[i], hash)
  {
    seq(|rules|, i requires 0 <= i < |rules| => ProbedRule(rules[i], hash))
  }

  /** A rule without an HTTP block is an error. */
  function InsertProbe(ing: Ingress, hash: string): Option<Ingress> {
    if exists rule :: rule in ing.rules && rule.http.None? then None
    else Some(ing.(rules := ProbedRules(ing.rules, hash)))
  }

  predicate IsProbe(r: Request) {
    HASH_KEY in r.headers && r.headers[HASH_KEY] == HASH_OVERRIDE
  }

  // ---------------------------------------------------------------- the rules as a request meets them

  /** A path without what it may itself ask of the header that the probe reserves. */
  function Unmarked(p: IngressPath): IngressPath {
    p.(headers := p.headers - {HASH_KEY})
  }

  function UnmarkedPaths(paths: seq<IngressPath>): (r: seq<IngressPath>)
    ensures |r| == |paths| && forall i :: 0 <= i < |paths| ==> r[i] == Unmarked(paths[i])
  {
    seq(|paths|, i requires 0 <= i < |paths| => Unmarked(paths[i]))
  }

  function UnmarkedRule(rule: IngressRule): (r: IngressRule)
    ensures r.hosts == rule.hosts && r.visibility == rule.visibility && r.Paths() == UnmarkedPaths(rule.Paths())
  {
    if rule.http.None? then rule else rule.(http := Some(UnmarkedPaths(rule.http.value)))
  }

  function UnmarkedRules(rules: seq<IngressRule>): (r: seq<IngressRule>)
    ensures |r| == |rules| && forall i :: 0 <= i < |rules| ==> r[i] == UnmarkedRule(rules[i])
  {
    seq(|rules|, i requires 0 <= i < |rules| => UnmarkedRule(rules[i]))
  }

  /** An ordinary request meets the rules as they are; to a probe nothing else is asked of the reserved header. */
  function Asked(rules: seq<IngressRule>, r: Request): seq<IngressRule> {
    if IsProbe(r) then UnmarkedRules(rules) else rules
  }

  /** No path matches on the header the probe reserves. */
  predicate LeavesProbeHeader(rules: seq<IngressRule>) {
    forall rule, p :: rule in rules && p in rule.Paths() ==> HASH_KEY !in p.headers
  }

  /** Every request meets the rules as they are exactly when none of them matches on the reserved header. */
  lemma AskedAsIsExactly(rules: seq<IngressRule>)
    ensures UnmarkedRules(rules) == rules <==> LeavesProbeHeader(rules)
  {
    if LeavesProbeHeader(rules) {
      forall i | 0 <= i < |rules| ensures UnmarkedRule(rules[i]) == rules[i] {
        UnmarkedRuleSame(rules[i]);
        assert rules[i] in rules;
      }
    }
    if UnmarkedRules(rules) == rules {
      forall rule, p | rule in rules && p in rule.Paths() ensures HASH_KEY !in p.headers {
        var i :| 0 <= i < |rules| && rules[i] == rule;
        var j :| 0 <= j < |rule.Paths()| && rule.Paths()[j] == p;
        assert rule.Paths() == UnmarkedPaths(rule.Paths());
        assert p == Unmarked(p);
      }
    }
  }

  lemma UnmarkedRuleSame(rule: IngressRule)
    ensures (forall p :: p in rule.Paths() ==> HASH_KEY !in p.headers) ==> UnmarkedRule(rule) == rule
  {
    if forall p :: p in rule.Paths() ==> HASH_KEY !in p.headers {
      var paths := rule.Paths();
      forall i | 0 <= i < |paths| ensures Unmarked(paths[i]) == paths[i] {
        assert paths[i] in paths && paths[i].headers - {HASH_KEY} == paths[i].headers;
      }
      assert UnmarkedPaths(paths) == paths;
    }
  }

  // ---------------------------------------------------------------- routing with probes

  /** A probe is answered by the tagged copy. */
  function Tagged(src: Option<Source>, hash: string, probing: bool): Option<Source> {
    match src
    case None => None
    case Some(s) => Some(Source(s.rule, if probing then ProbePath(s.path, hash) else s.path))
  }

  /** The same path, in rules of the same hosts and visibility: these give the same route. */
  predicate SameTarget(a: Option<Source>, b: Option<Source>) {
    match (a, b)
    case (None, None) => true
    case (Some(s), Some(t)) => s.path == t.path && s.rule.hosts == t.rule.hosts
                               && s.rule.visibility == t.rule.visibility
    case _ => false
  }

  lemma {:induction false} FirstPathConcat(domain: string, reach: string -> set<string>, hosts: set<string>,
                                           rule: IngressRule, a: seq<IngressPath>, b: seq<IngressPath>, r: Request)
    ensures FirstPath(domain, reach, hosts, rule, a + b, r) ==
            var first := FirstPath(domain, reach, hosts, rule, a, r);
            if first.Some? then first else FirstPath(domain, reach, hosts, rule, b, r)
  {
    if a == [] {
      assert a + b == b;
    } else {
      assert (a + b)[1..] == a[1..] + b;
      FirstPathConcat(domain, reach, hosts, rule, a[1..], b, r);
    }
  }

  lemma ProbeHeaders(p: IngressPath, hash: string, r: Request)
    ensures HeadersAccept(ProbePath(p, hash).headers, r.headers) <==>
            HeadersAccept(Unmarked(p).headers, r.headers) && IsProbe(r)
    ensures IsProbe(r) && HeadersAccept(p.headers, r.headers) ==> HeadersAccept(Unmarked(p).headers, r.headers)
  {
    var probe, plain := ProbePath(p, hash).headers, Unmarked(p).headers;
    assert probe[HASH_KEY] == HASH_OVERRIDE;
    assert forall k :: k in plain ==> probe[k] == plain[k];
    if HeadersAccept(probe, r.headers) {
      assert forall k :: k in plain ==> k in probe;
    }
    if HeadersAccept(plain, r.headers) && IsProbe(r) {
      assert forall k :: k in probe ==> k == HASH_KEY || (k in plain && plain[k] == probe[k]);
    }
  }

  /** The copies answer probes, and those just as the paths answer without the reserved header. */
  lemma {:induction false} ProbeCopies(domain: string, reach: string -> set<string>, hosts: set<string>,
                                       rule: IngressRule, paths: seq<IngressPath>, hash: string, r: Request)
    ensures SameTarget(FirstPath(domain, reach, hosts, ProbedRule(rule, hash), ProbePaths(paths, hash), r),
                       if IsProbe(r) then Tagged(FirstPath(domain, reach, hosts, UnmarkedRule(rule),
                                                           UnmarkedPaths(paths), r), hash, true)
                       else None)
  {
    if paths != [] {
      ProbeCopies(domain, reach, hosts, rule, paths[1..], hash, r);
      assert ProbePaths(paths, hash)[1..] == ProbePaths(paths[1..], hash);
      assert UnmarkedPaths(paths)[1..] == UnmarkedPaths(paths[1..]);
      ProbeHeaders(paths[0], hash, r);
      var p := paths[0];
      assert ProbePath(Unmarked(p), hash) == ProbePath(p, hash) by {
        assert (p.headers - {HASH_KEY})[HASH_KEY := HASH_OVERRIDE] == p.headers[HASH_KEY := HASH_OVERRIDE];
      }
    }
  }

  /** The paths themselves answer as before, and a probe that one of them takes was taken by a copy already. */
  lemma {:induction false} PlainPaths(domain: string, reach: string -> set<string>, hosts: set<string>,
                                      rule: IngressRule, paths: seq<IngressPath>, hash: string, r: Request)
    ensures SameTarget(FirstPath(domain, reach, hosts, ProbedRule(rule, hash), paths, r),
                       FirstPath(domain, reach, hosts, rule, paths, r))
    ensures IsProbe(r) && FirstPath(domain, reach, hosts, rule, paths, r).Some? ==>
              FirstPath(domain, reach, hosts, UnmarkedRule(rule), UnmarkedPaths(paths), r).Some?
  {
    if paths != [] {
      PlainPaths(domain, reach, hosts, rule, paths[1..], hash, r);
      assert UnmarkedPaths(paths)[1..] == UnmarkedPaths(paths[1..]);
      ProbeHeaders(paths[0], hash, r);
    }
  }

  lemma ProbedRulePaths(domain: string, reach: string -> set<string>, hosts: set<string>, rule: IngressRule,
                        hash: string, r: Request)
    ensures var probed, asked := ProbedRule(rule, hash), if IsProbe(r) then UnmarkedRule(rule) else rule;
            SameTarget(FirstPath(domain, reach, hosts, probed, probed.Paths(), r),
                       Tagged(FirstPath(domain, reach, hosts, asked, asked.Paths(), r), hash, IsProbe(r)))
  {
    var probed, paths := ProbedRule(rule, hash), rule.Paths();
    ProbeCopies(domain, reach, hosts, rule, paths, hash, r);
    PlainPaths(domain, reach, hosts, rule, paths, hash, r);
    FirstPathConcat(domain, reach, hosts, probed, ProbePaths(paths, hash), paths, r);
  }

  /** For all rules: an ordinary request is routed as before; a probe goes to the tagged copy of the path it would go
      to if nothing were asked of the reserved header. */
  lemma {:induction false} ProbeKeepsRouting(domain: string, reach: string -> set<string>, hosts: set<string>,
                                             rules: seq<IngressRule>, hash: string, r: Request)
    ensures SameTarget(FirstSource(domain, reach, hosts, ProbedRules(rules, hash), r),
                       Tagged(FirstSource(domain, reach, hosts, Asked(rules, r), r), hash, IsProbe(r)))
  {
    if rules != [] {
      ProbeKeepsRouting(domain, reach, hosts, rules[1..], hash, r);
      assert ProbedRules(rules, hash)[1..] == ProbedRules(rules[1..], hash);
      assert UnmarkedRules(rules)[1..] == UnmarkedRules(rules[1..]);
      ProbedRulePaths(domain, reach, hosts, rules[0], hash, r);
    }
  }

  lemma SameTargetSameDecision(domain: string, gateways: GatewayNames, hosts: set<string>, route: Option<HTTPRoute>,
                               a: Option<Source>, b: Option<Source>)
    requires SameTarget(a, b) && SameDecision(domain, gateways, hosts, route, a)
    ensures SameDecision(domain, gateways, hosts, route, b)
  {
  }

  lemma ProbedServedGateways(rules: seq<IngressRule>, gateways: GatewayNames, hosts: set<string>, hash: string)
    ensures EveryServedRuleHasGateways(ProbedRules(rules, hash), gateways, hosts) <==>
            EveryServedRuleHasGateways(rules, gateways, hosts)
    ensures EveryServedRuleHasGateways(UnmarkedRules(rules), gateways, hosts) <==>
            EveryServedRuleHasGateways(rules, gateways, hosts)
  {
    SameServed(rules, ProbedRules(rules, hash), gateways, hosts);
    SameServed(ProbedRules(rules, hash), rules, gateways, hosts);
    SameServed(rules, UnmarkedRules(rules), gateways, hosts);
    SameServed(UnmarkedRules(rules), rules, gateways, hosts);
  }

  lemma SameServed(a: seq<IngressRule>, b: seq<IngressRule>, gateways: GatewayNames, hosts: set<string>)
    requires |a| == |b|
    requires forall i :: 0 <= i < |a| ==>
               a[i].hosts == b[i].hosts && a[i].visibility == b[i].visibility
               && (a[i].Paths() == [] <==> b[i].Paths() == [])
    ensures EveryServedRuleHasGateways(a, gateways, hosts) ==> EveryServedRuleHasGateways(b, gateways, hosts)
  {
    if EveryServedRuleHasGateways(a, gateways, hosts) {
      forall rule | rule in b && Served(rule, hosts) && rule.Paths() != []
        ensures NamesFor(gateways, rule.visibility) != {}
      {
        var i :| 0 <= i < |b| && b[i] == rule;
        assert a[i] in a;
      }
    }
  }

  /** What tagging changes of a route: the matches of a probe, and the hash among the headers that are set. */
  lemma TaggedRoute(domain: string, gateways: GatewayNames, hosts: set<string>, s: Source, hash: string, probing: bool)
    ensures var a := SourceRoute(domain, gateways, hosts, s);
            var b := SourceRoute(domain, gateways, hosts, Tagged(Some(s), hash, probing).value);
            && b.route == a.route && b.rewrite == a.rewrite
            && (if probing then b.headers.Some? && Get(b.headers.value, HASH_KEY) == hash else b.headers == a.headers)
  {
    if probing {
      var headers := ProbePath(s.path, hash).appendHeaders;
      assert HASH_KEY in headers;
      assert |headers| > 0;
    }
  }

  /** The probed service decides as the rules do, with probes tagged. */
  lemma ProbedServiceDecides(domain: string, rules: seq<IngressRule>, gateways: GatewayNames, hosts: set<string>,
                             hash: string, r: Request)
    requires EveryServedRuleHasGateways(rules, gateways, hosts)
    ensures var spec := SpecOf(domain, ProbedRules(rules, hash), gateways, hosts);
            SameDecision(domain, gateways, hosts, FirstMatch(spec.gateways, spec.http, r),
                         Tagged(FirstSource(domain, Configured(gateways), hosts, Asked(rules, r), r), hash, IsProbe(r)))
  {
    var probed := ProbedRules(rules, hash);
    var spec, reach := SpecOf(domain, probed, gateways, hosts), Configured(gateways);
    ProbedServedGateways(rules, gateways, hosts, hash);
    TranslationPreservesMeaning(domain, probed, gateways, hosts, r);
    ProbeKeepsRouting(domain, reach, hosts, rules, hash, r);
    SameTargetSameDecision(domain, gateways, hosts, FirstMatch(spec.gateways, spec.http, r),
                           FirstSource(domain, reach, hosts, probed, r),
                           Tagged(FirstSource(domain, reach, hosts, Asked(rules, r), r), hash, IsProbe(r)));
  }

  /** In the compiled service a probe reaches the destinations its request would, and carries the hash along. */
  lemma ProbeReachesSameDestinations(domain: string, rules: seq<IngressRule>, gateways: GatewayNames,
                                     hosts: set<string>, hash: string, r: Request)
    requires EveryServedRuleHasGateways(rules, gateways, hosts)
    ensures var plain := SpecOf(domain, Asked(rules, r), gateways, hosts);
            var spec := SpecOf(domain, ProbedRules(rules, hash), gateways, hosts);
            match (FirstMatch(plain.gateways, plain.http, r), FirstMatch(spec.gateways, spec.http, r))
            case (None, None) => true
            case (Some(a), Some(b)) =>
              && b.route == a.route && b.rewrite == a.rewrite
              && (if IsProbe(r) then b.headers.Some? && Get(b.headers.value, HASH_KEY) == hash
                  else b.headers == a.headers)
            case _ => false
  {
    ProbedServedGateways(rules, gateways, hosts, hash);
    TranslationPreservesMeaning(domain, Asked(rules, r), gateways, hosts, r);
    ProbedServiceDecides(domain, rules, gateways, hosts, hash, r);
    var found := FirstSource(domain, Configured(gateways), hosts, Asked(rules, r), r);
    if found.Some? {
      TaggedRoute(domain, gateways, hosts, found.value, hash, IsProbe(r));
    }
  }
}
