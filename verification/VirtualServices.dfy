/** The compiler from Ingress rules to an Istio VirtualService, and what its output means. */
module VirtualServices {
  import opened HostPrefixes
  import opened Strings
  import opened Types

  // ---------------------------------------------------------------- the compiler

  type GatewayNames = map<string, set<string>>

  /** The gateways configured for a visibility; a visibility that is not a key has none. */
  function NamesFor(gateways: GatewayNames, visibility: string): set<string> {
    if visibility in gateways then gateways[visibility] else {}
  }

  /** A Go conversion to uint32. */
  function ToUint32(n: int): int {
    n % 0x1_0000_0000
  }

  /** A Go conversion to int32. */
  function ToInt32(n: int): int {
    (n + 0x8000_0000) % 0x1_0000_0000 - 0x8000_0000
  }

  function ServiceHostname(domain: string, name: string, namespace: string): string {
    name + "." + namespace + ".svc." + domain
  }

  /** A header operation is only written when there is a header to set. */
  function HeaderOperation(appendHeaders: Labels): Option<Labels> {
    if |appendHeaders| > 0 then Some(appendHeaders) else None
  }

  function WeightedOf(domain: string, split: BackendSplit): Weighted {
    Weighted(ServiceHostname(domain, split.serviceName, split.serviceNamespace),
             ToUint32(split.servicePort), ToInt32(split.percent), HeaderOperation(split.appendHeaders))
  }

  function MakeMatch(host: string, path: string, headers: Labels, gateways: set<string>): HTTPMatch {
    HTTPMatch(SortedList(gateways), host, if path != "" then Some(path) else None, headers)
  }

  /** The route for one path: a match per kept host prefix and a destination per split. */
  function RouteOf(domain: string, hosts: set<string>, path: IngressPath, gateways: set<string>): HTTPRoute {
    var prefixes := SortedList(DistinctPrefixes(domain, hosts));
    HTTPRoute(
      seq(|prefixes|, i requires 0 <= i < |prefixes| => MakeMatch(prefixes[i], path.path, path.headers, gateways)),
      seq(|path.splits|, i requires 0 <= i < |path.splits| => WeightedOf(domain, path.splits[i])),
      if path.rewriteHost != "" then Some(path.rewriteHost) else None,
      HeaderOperation(path.appendHeaders))
  }

  method MakeVirtualServiceRoute(domain: string, hosts: set<string>, path: IngressPath, gateways: GatewayNames,
                                 visibility: string)
    returns (route: HTTPRoute)
    ensures route == RouteOf(domain, hosts, path, NamesFor(gateways, visibility))
  {
    var matches := [];
    var distinctHosts := GetDistinctHostPrefixes(domain, hosts);
    var prefixes := SortedList(distinctHosts);
    ghost var whole := RouteOf(domain, hosts, path, NamesFor(gateways, visibility));
    var i := 0;
    while i < |prefixes|
      invariant 0 <= i <= |prefixes|
      invariant matches == whole.matches[..i]
    {
      matches := matches + [MakeMatch(prefixes[i], path.path, path.headers, NamesFor(gateways, visibility))];
      i := i + 1;
    }
    var weights := [];
    i := 0;
    while i < |path.splits|
      invariant 0 <= i <= |path.splits|
      invariant weights == whole.route[..i]
    {
      weights := weights + [WeightedOf(domain, path.splits[i])];
      i := i + 1;
    }
    var rewrite := if path.rewriteHost != "" then Some(path.rewriteHost) else None;
    route := HTTPRoute(matches, weights, rewrite, HeaderOperation(path.appendHeaders));
  }

  /** A path together with the rule it stands in. */
  datatype Source = Source(rule: IngressRule, path: IngressPath)

  predicate Served(rule: IngressRule, hosts: set<string>) {
    hosts * Members(rule.hosts) != {}
  }

  function RuleSources(rule: IngressRule, paths: seq<IngressPath>, hosts: set<string>): (srcs: seq<Source>)
    ensures |srcs| == if Served(rule, hosts) then |paths| else 0
    ensures forall i :: 0 <= i < |srcs| ==> srcs[i] == Source(rule, paths[i])
  {
    if Served(rule, hosts) then seq(|paths|, i requires 0 <= i < |paths| => Source(rule, paths[i])) else []
  }

  /** The (rule, path) pairs that get a route, in source order. */
  function Sources(rules: seq<IngressRule>, hosts: set<string>): seq<Source> {
    if rules == [] then []
    else Sources(rules[..|rules| - 1], hosts)
         + RuleSources(rules[|rules| - 1], rules[|rules| - 1].Paths(), hosts)
  }

  function SourceRoute(domain: string, gateways: GatewayNames, hosts: set<string>, src: Source): HTTPRoute {
    RouteOf(domain, hosts * Members(src.rule.hosts), src.path, NamesFor(gateways, src.rule.visibility))
  }

  function Compile(domain: string, gateways: GatewayNames, hosts: set<string>,
                   srcs: seq<Source>): (http: seq<HTTPRoute>)
    ensures |http| == |srcs|
    ensures forall k :: 0 <= k < |srcs| ==> http[k] == SourceRoute(domain, gateways, hosts, srcs[k])
  {
    seq(|srcs|, k requires 0 <= k < |srcs| => SourceRoute(domain, gateways, hosts, srcs[k]))
  }

  function MatchGateways(matches: seq<HTTPMatch>): set<string> {
    set m, g | m in matches && g in m.gateways :: g
  }

  function RouteGateways(http: seq<HTTPRoute>): set<string> {
    set route, m, g | route in http && m in route.matches && g in m.gateways :: g
  }

  function SpecOf(domain: string, rules: seq<IngressRule>, gateways: GatewayNames,
                  hosts: set<string>): VirtualServiceSpec
  {
    var http := Compile(domain, gateways, hosts, Sources(rules, hosts));
    VirtualServiceSpec(SortedList(hosts), SortedList(RouteGateways(http)), http)
  }

  lemma CompileConcat(domain: string, gateways: GatewayNames, hosts: set<string>, a: seq<Source>, b: seq<Source>)
    ensures Compile(domain, gateways, hosts, a + b) ==
            Compile(domain, gateways, hosts, a) + Compile(domain, gateways, hosts, b)
  {
  }

  lemma RouteAppended(domain: string, gateways: GatewayNames, hosts: set<string>, done: seq<Source>, src: Source)
    ensures var http, route := Compile(domain, gateways, hosts, done), SourceRoute(domain, gateways, hosts, src);
            && Compile(domain, gateways, hosts, done + [src]) == http + [route]
            && RouteGateways(http + [route]) == RouteGateways(http) + MatchGateways(route.matches)
  {
    CompileConcat(domain, gateways, hosts, done, [src]);
  }

  lemma RuleSourcesSnoc(rule: IngressRule, paths: seq<IngressPath>, j: nat, hosts: set<string>)
    requires j < |paths|
    ensures RuleSources(rule, paths[..j + 1], hosts)
         == RuleSources(rule, paths[..j], hosts) + if Served(rule, hosts) then [Source(rule, paths[j])] else []
  {
  }

  method MakeVirtualServiceSpec(domain: string, rules: seq<IngressRule>, gateways: GatewayNames, hosts: set<string>)
    returns (spec: VirtualServiceSpec)
    requires forall rule :: rule in rules ==> rule.http.Some?
    ensures spec == SpecOf(domain, rules, gateways, hosts)
  {
    var gw: set<string> := {};
    var http: seq<HTTPRoute> := [];
    ghost var done: seq<Source> := [];
    var i := 0;
    while i < |rules|
      invariant 0 <= i <= |rules|
      invariant done == Sources(rules[..i], hosts)
      invariant http == Compile(domain, gateways, hosts, done)
      invariant gw == RouteGateways(http)
    {
      var rule := rules[i];
      var paths := rule.http.value;
      var j := 0;
      ghost var before := done;
      while j < |paths|
        invariant 0 <= j <= |paths|
        invariant done == before + RuleSources(rule, paths[..j], hosts)
        invariant http == Compile(domain, gateways, hosts, done)
        invariant gw == RouteGateways(http)
      {
        var p := paths[j];
        var both := hosts * Members(rule.hosts);
        RuleSourcesSnoc(rule, paths, j, hosts);
        if both != {} {
          var route := MakeVirtualServiceRoute(domain, both, p, gateways, rule.visibility);
          RouteAppended(domain, gateways, hosts, done, Source(rule, p));
          gw := gw + MatchGateways(route.matches);
          http := http + [route];
          done := done + [Source(rule, p)];
        }
        j := j + 1;
      }
      assert paths[..j] == paths;
      assert rules[..i + 1][..i] == rules[..i];
      i := i + 1;
    }
    assert rules[..i] == rules;
    spec := VirtualServiceSpec(SortedList(hosts), SortedList(gw), http);
  }

  // ---------------------------------------------------------------- what a VirtualService means

  const MESH := "mesh"

  datatype Request = Request(gateway: string, authority: string, path: string, headers: Labels)

  predicate HeadersAccept(required: Labels, actual: Labels) {
    forall k :: k in required ==> k in actual && actual[k] == required[k]
  }

  /** Gateways named in a match override the list of the VirtualService; with neither, the mesh is meant. */
  function Applicable(top: seq<string>, m: HTTPMatch): set<string> {
    if m.gateways != [] then Members(m.gateways) else if top != [] then Members(top) else {MESH}
  }

  predicate MatchAccepts(top: seq<string>, m: HTTPMatch, r: Request) {
    && r.gateway in Applicable(top, m)
    && HasPrefix(r.authority, m.authority)
    && (m.uri.Some? ==> HasPrefix(r.path, m.uri.value))
    && HeadersAccept(m.headers, r.headers)
  }

  /** The matches of a route are alternatives; a route without any accepts every request. */
  predicate RouteAccepts(top: seq<string>, route: HTTPRoute, r: Request) {
    route.matches == [] || exists m :: m in route.matches && MatchAccepts(top, m, r)
  }

  function FirstMatch(top: seq<string>, http: seq<HTTPRoute>, r: Request): Option<HTTPRoute> {
    if http == [] then None
    else if RouteAccepts(top, http[0], r) then Some(http[0])
    else FirstMatch(top, http[1..], r)
  }

  // ---------------------------------------------------------------- what the rules mean

  /** Whether a path of a rule takes a request, said of the rule itself: `reach` gives the gateways of a visibility. */
  predicate SourceAccepts(domain: string, reach: string -> set<string>, hosts: set<string>, rule: IngressRule,
                          path: IngressPath, r: Request)
  {
    && r.gateway in reach(rule.visibility)
    && (exists h :: h in rule.hosts && h in hosts && HasPrefix(r.authority, HostPrefix(domain, h)))
    && HasPrefix(r.path, path.path)
    && HeadersAccept(path.headers, r.headers)
  }

  function FirstPath(domain: string, reach: string -> set<string>, hosts: set<string>, rule: IngressRule,
                     paths: seq<IngressPath>, r: Request): Option<Source>
  {
    if paths == [] then None
    else if SourceAccepts(domain, reach, hosts, rule, paths[0], r) then Some(Source(rule, paths[0]))
    else FirstPath(domain, reach, hosts, rule, paths[1..], r)
  }

  /** The first (rule, path) in source order that takes the request. */
  function FirstSource(domain: string, reach: string -> set<string>, hosts: set<string>, rules: seq<IngressRule>,
                       r: Request): Option<Source>
  {
    if rules == [] then None
    else
      var here := FirstPath(domain, reach, hosts, rules[0], rules[0].Paths(), r);
      if here.Some? then here else FirstSource(domain, reach, hosts, rules[1..], r)
  }

  /** The gateways that a configured set reaches once compiled: none configured means all in use. */
  function ReachOf(top: seq<string>, gws: set<string>): set<string> {
    if gws != {} then gws else if top != [] then Members(top) else {MESH}
  }

  function Reach(top: seq<string>, gateways: GatewayNames): string -> set<string> {
    visibility => ReachOf(top, NamesFor(gateways, visibility))
  }

  function Configured(gateways: GatewayNames): string -> set<string> {
    visibility => NamesFor(gateways, visibility)
  }

  ghost predicate SameDecision(domain: string, gateways: GatewayNames, hosts: set<string>,
                               route: Option<HTTPRoute>, src: Option<Source>)
  {
    match (route, src)
    case (None, None) => true
    case (Some(t), Some(s)) => t == SourceRoute(domain, gateways, hosts, s)
    case _ => false
  }

  // ---------------------------------------------------------------- meaning is preserved

  lemma MatchMeaning(top: seq<string>, host: string, path: string, headers: Labels, gws: set<string>, r: Request)
    ensures MatchAccepts(top, MakeMatch(host, path, headers, gws), r) <==>
            && r.gateway in ReachOf(top, gws) && HasPrefix(r.authority, host)
            && HasPrefix(r.path, path) && HeadersAccept(headers, r.headers)
  {
    var l := SortedList(gws);
    assert l == [] <==> gws == {} by {
      if gws != {} { var g :| g in gws; assert g in l; }
      if l != [] { assert l[0] in gws; }
    }
    assert Members(l) == gws;
  }

  lemma RouteMeaning(domain: string, gateways: GatewayNames, hosts: set<string>, top: seq<string>, src: Source,
                     r: Request)
    requires Served(src.rule, hosts)
    ensures RouteAccepts(top, SourceRoute(domain, gateways, hosts, src), r)
       <==> SourceAccepts(domain, Reach(top, gateways), hosts, src.rule, src.path, r)
  {
    var both := hosts * Members(src.rule.hosts);
    var gws := NamesFor(gateways, src.rule.visibility);
    RouteOfMeaning(domain, both, src.path, gws, top, r);
    assert forall h :: h in both <==> h in src.rule.hosts && h in hosts;
  }

  lemma RouteOfMeaning(domain: string, hosts: set<string>, path: IngressPath, gws: set<string>, top: seq<string>,
                       r: Request)
    requires hosts != {}
    ensures RouteAccepts(top, RouteOf(domain, hosts, path, gws), r) <==>
            && r.gateway in ReachOf(top, gws)
            && (exists h :: h in hosts && HasPrefix(r.authority, HostPrefix(domain, h)))
            && HasPrefix(r.path, path.path) && HeadersAccept(path.headers, r.headers)
  {
    var kept := DistinctPrefixes(domain, hosts);
    var prefixes := SortedList(kept);
    var matches := RouteOf(domain, hosts, path, gws).matches;
    NoPrefixLost(domain, hosts);
    PrefixReductionPreservesMeaning(domain, hosts, r.authority);
    assert CoveredBy(r.authority, kept) <==> exists i :: 0 <= i < |prefixes| && HasPrefix(r.authority, prefixes[i]) by {
      if e :| e in kept && HasPrefix(r.authority, e) { assert e in prefixes; }
      if i :| 0 <= i < |prefixes| && HasPrefix(r.authority, prefixes[i]) { assert prefixes[i] in kept; }
    }
    forall i | 0 <= i < |prefixes|
      ensures matches[i] == MakeMatch(prefixes[i], path.path, path.headers, gws)
      ensures MatchAccepts(top, matches[i], r) <==>
              && r.gateway in ReachOf(top, gws) && HasPrefix(r.authority, prefixes[i])
              && HasPrefix(r.path, path.path) && HeadersAccept(path.headers, r.headers)
    {
      MatchMeaning(top, prefixes[i], path.path, path.headers, gws, r);
    }
    if i :| 0 <= i < |prefixes| && MatchAccepts(top, matches[i], r) {
      assert matches[i] in matches;
    }
  }

  lemma NoPrefixLost(domain: string, hosts: set<string>)
    requires hosts != {}
    ensures SortedList(DistinctPrefixes(domain, hosts)) != []
  {
    var h :| h in hosts;
    PrefixReductionPreservesMeaning(domain, hosts, HostPrefix(domain, h));
    var e :| e in DistinctPrefixes(domain, hosts);
    assert e in SortedList(DistinctPrefixes(domain, hosts));
  }

  lemma {:induction false} FirstMatchConcat(top: seq<string>, a: seq<HTTPRoute>, b: seq<HTTPRoute>, r: Request)
    ensures FirstMatch(top, a + b, r) ==
            if FirstMatch(top, a, r).Some? then FirstMatch(top, a, r) else FirstMatch(top, b, r)
  {
    if a == [] {
      assert a + b == b;
    } else {
      assert (a + b)[1..] == a[1..] + b;
      FirstMatchConcat(top, a[1..], b, r);
    }
  }

  lemma {:induction false} UnservedRuleTakesNothing(domain: string, reach: string -> set<string>, hosts: set<string>,
                                                rule: IngressRule, paths: seq<IngressPath>, r: Request)
    requires !Served(rule, hosts)
    ensures FirstPath(domain, reach, hosts, rule, paths, r) == None
  {
    if paths != [] {
      assert forall h :: h in rule.hosts && h in hosts ==> h in hosts * Members(rule.hosts);
      UnservedRuleTakesNothing(domain, reach, hosts, rule, paths[1..], r);
    }
  }

  lemma RuleSourcesCons(rule: IngressRule, paths: seq<IngressPath>, hosts: set<string>)
    requires Served(rule, hosts) && paths != []
    ensures RuleSources(rule, paths, hosts) == [Source(rule, paths[0])] + RuleSources(rule, paths[1..], hosts)
  {
  }

  lemma {:induction false} ServedRuleMeaning(domain: string, gateways: GatewayNames, hosts: set<string>,
                                             top: seq<string>, rule: IngressRule, paths: seq<IngressPath>, r: Request)
    requires Served(rule, hosts)
    ensures SameDecision(domain, gateways, hosts,
                         FirstMatch(top, Compile(domain, gateways, hosts, RuleSources(rule, paths, hosts)), r),
                         FirstPath(domain, Reach(top, gateways), hosts, rule, paths, r))
  {
    if paths != [] {
      ServedRuleMeaning(domain, gateways, hosts, top, rule, paths[1..], r);
      var first, rest := Source(rule, paths[0]), RuleSources(rule, paths[1..], hosts);
      RuleSourcesCons(rule, paths, hosts);
      CompileConcat(domain, gateways, hosts, [first], rest);
      var http, tail := Compile(domain, gateways, hosts, [first]), Compile(domain, gateways, hosts, rest);
      assert (http + tail)[1..] == tail;
      RouteMeaning(domain, gateways, hosts, top, first, r);
    }
  }

  lemma PathsMeaning(domain: string, gateways: GatewayNames, hosts: set<string>, top: seq<string>,
                     rule: IngressRule, paths: seq<IngressPath>, r: Request)
    ensures SameDecision(domain, gateways, hosts,
                         FirstMatch(top, Compile(domain, gateways, hosts, RuleSources(rule, paths, hosts)), r),
                         FirstPath(domain, Reach(top, gateways), hosts, rule, paths, r))
  {
    if Served(rule, hosts) {
      ServedRuleMeaning(domain, gateways, hosts, top, rule, paths, r);
    } else {
      UnservedRuleTakesNothing(domain, Reach(top, gateways), hosts, rule, paths, r);
    }
  }

  lemma {:induction false} FirstSourceSnoc(domain: string, reach: string -> set<string>, hosts: set<string>,
                                           rules: seq<IngressRule>, last: IngressRule, r: Request)
    ensures FirstSource(domain, reach, hosts, rules + [last], r) ==
            var a := FirstSource(domain, reach, hosts, rules, r);
            if a.Some? then a else FirstPath(domain, reach, hosts, last, last.Paths(), r)
  {
    if rules == [] {
      assert rules + [last] == [last];
    } else {
      assert (rules + [last])[1..] == rules[1..] + [last];
      FirstSourceSnoc(domain, reach, hosts, rules[1..], last, r);
    }
  }

  lemma {:induction false} RulesMeaning(domain: string, gateways: GatewayNames, hosts: set<string>, top: seq<string>,
                                        rules: seq<IngressRule>, r: Request)
    ensures SameDecision(domain, gateways, hosts,
                         FirstMatch(top, Compile(domain, gateways, hosts, Sources(rules, hosts)), r),
                         FirstSource(domain, Reach(top, gateways), hosts, rules, r))
  {
    if rules != [] {
      var init, last := rules[..|rules| - 1], rules[|rules| - 1];
      assert rules == init + [last];
      RulesMeaning(domain, gateways, hosts, top, init, r);
      PathsMeaning(domain, gateways, hosts, top, last, last.Paths(), r);
      FirstSourceSnoc(domain, Reach(top, gateways), hosts, init, last, r);
      var a, b := Sources(init, hosts), RuleSources(last, last.Paths(), hosts);
      FirstMatchConcat(top, Compile(domain, gateways, hosts, a), Compile(domain, gateways, hosts, b), r);
      CompileConcat(domain, gateways, hosts, a, b);
    }
  }

  /** For every input: the first matching route is the one of the first (rule, path) that takes the request. */
  lemma TranslationMeaning(domain: string, rules: seq<IngressRule>, gateways: GatewayNames, hosts: set<string>,
                           r: Request)
    ensures var spec := SpecOf(domain, rules, gateways, hosts);
            SameDecision(domain, gateways, hosts, FirstMatch(spec.gateways, spec.http, r),
                         FirstSource(domain, Reach(spec.gateways, gateways), hosts, rules, r))
  {
    var spec := SpecOf(domain, rules, gateways, hosts);
    RulesMeaning(domain, gateways, hosts, spec.gateways, rules, r);
  }

  ghost predicate EveryServedRuleHasGateways(rules: seq<IngressRule>, gateways: GatewayNames, hosts: set<string>) {
    forall rule :: rule in rules && Served(rule, hosts) && rule.Paths() != [] ==>
      NamesFor(gateways, rule.visibility) != {}
  }

  lemma {:induction false} SameReach(domain: string, reach: string -> set<string>, reach': string -> set<string>,
                                     hosts: set<string>, rules: seq<IngressRule>, r: Request)
    requires forall rule :: rule in rules && Served(rule, hosts) && rule.Paths() != [] ==>
               reach(rule.visibility) == reach'(rule.visibility)
    ensures FirstSource(domain, reach, hosts, rules, r) == FirstSource(domain, reach', hosts, rules, r)
  {
    if rules != [] {
      SameReach(domain, reach, reach', hosts, rules[1..], r);
      SamePathReach(domain, reach, reach', hosts, rules[0], rules[0].Paths(), r);
    }
  }

  lemma {:induction false} SamePathReach(domain: string, reach: string -> set<string>, reach': string -> set<string>,
                                         hosts: set<string>, rule: IngressRule, paths: seq<IngressPath>, r: Request)
    requires Served(rule, hosts) && paths != [] ==> reach(rule.visibility) == reach'(rule.visibility)
    ensures FirstPath(domain, reach, hosts, rule, paths, r) == FirstPath(domain, reach', hosts, rule, paths, r)
  {
    if paths != [] {
      SamePathReach(domain, reach, reach', hosts, rule, paths[1..], r);
      assert forall h :: h in rule.hosts && h in hosts ==> h in hosts * Members(rule.hosts);
    }
  }

  /** With a gateway for every visibility in use, the compiled routes decide exactly as the rules do. */
  lemma TranslationPreservesMeaning(domain: string, rules: seq<IngressRule>, gateways: GatewayNames, hosts: set<string>,
                                    r: Request)
    requires EveryServedRuleHasGateways(rules, gateways, hosts)
    ensures var spec := SpecOf(domain, rules, gateways, hosts);
            SameDecision(domain, gateways, hosts, FirstMatch(spec.gateways, spec.http, r),
                         FirstSource(domain, Configured(gateways), hosts, rules, r))
  {
    var spec := SpecOf(domain, rules, gateways, hosts);
    TranslationMeaning(domain, rules, gateways, hosts, r);
    SameReach(domain, Configured(gateways), Reach(spec.gateways, gateways), hosts, rules, r);
  }

  /** Two host sets that both hold all hosts of the rules make no difference: not to which (rule, path) is first, nor
      to the route it gets. */
  lemma {:induction false} HostsBeyondRules(domain: string, reach: string -> set<string>, a: set<string>,
                                            b: set<string>, rules: seq<IngressRule>, r: Request)
    requires forall rule, h :: rule in rules && h in rule.hosts ==> h in a && h in b
    ensures var src := FirstSource(domain, reach, a, rules, r);
            && src == FirstSource(domain, reach, b, rules, r)
            && (src.Some? ==> a * Members(src.value.rule.hosts) == b * Members(src.value.rule.hosts))
  {
    if rules != [] {
      assert rules[0] in rules;
      HostsBeyondRules(domain, reach, a, b, rules[1..], r);
      HostsBeyondRule(domain, reach, a, b, rules[0], rules[0].Paths(), r);
    }
  }

  lemma {:induction false} HostsBeyondRule(domain: string, reach: string -> set<string>, a: set<string>, b: set<string>,
                                           rule: IngressRule, paths: seq<IngressPath>, r: Request)
    requires forall h :: h in rule.hosts ==> h in a && h in b
    ensures FirstPath(domain, reach, a, rule, paths, r) == FirstPath(domain, reach, b, rule, paths, r)
    ensures FirstPath(domain, reach, a, rule, paths, r).Some? ==>
              FirstPath(domain, reach, a, rule, paths, r).value.rule == rule
    ensures a * Members(rule.hosts) == b * Members(rule.hosts)
  {
    if paths != [] {
      HostsBeyondRule(domain, reach, a, b, rule, paths[1..], r);
    }
  }

  /** Every route answers only on the gateways configured for its rule's visibility. */
  ghost predicate RoutesStayOnTheirGateways(domain: string, rules: seq<IngressRule>, gateways: GatewayNames,
                                            hosts: set<string>)
  {
    var spec := SpecOf(domain, rules, gateways, hosts);
    var srcs := Sources(rules, hosts);
    forall k, r :: 0 <= k < |srcs| && RouteAccepts(spec.gateways, spec.http[k], r)
                   ==> r.gateway in NamesFor(gateways, srcs[k].rule.visibility)
  }

  lemma {:induction false} SourcesExactly(rules: seq<IngressRule>, hosts: set<string>, s: Source)
    ensures s in Sources(rules, hosts) <==> s.rule in rules && Served(s.rule, hosts) && s.path in s.rule.Paths()
  {
    if rules != [] {
      var init, last := rules[..|rules| - 1], rules[|rules| - 1];
      assert rules == init + [last];
      SourcesExactly(init, hosts, s);
      var here := RuleSources(last, last.Paths(), hosts);
      if s in here {
        var i :| 0 <= i < |here| && here[i] == s;
        assert s.path == last.Paths()[i];
      }
      if s.rule == last && Served(last, hosts) && s.path in last.Paths() {
        var i :| 0 <= i < |last.Paths()| && last.Paths()[i] == s.path;
        assert here[i] == s;
      }
    }
  }

  lemma GatewaylessSourceAccepts(domain: string, gateways: GatewayNames, hosts: set<string>, top: seq<string>,
                                 s: Source)
    returns (r: Request)
    requires Served(s.rule, hosts) && NamesFor(gateways, s.rule.visibility) == {}
    ensures RouteAccepts(top, SourceRoute(domain, gateways, hosts, s), r)
  {
    var h :| h in hosts * Members(s.rule.hosts);
    r := Request(if top != [] then top[0] else MESH, HostPrefix(domain, h), s.path.path, s.path.headers);
    assert h in s.rule.hosts && h in hosts && HasPrefix(r.authority, HostPrefix(domain, h));
    RouteMeaning(domain, gateways, hosts, top, s, r);
  }

  lemma GatewaylessRuleLeaks(domain: string, rules: seq<IngressRule>, gateways: GatewayNames, hosts: set<string>,
                             rule: IngressRule)
    requires rule in rules && Served(rule, hosts) && rule.Paths() != [] && NamesFor(gateways, rule.visibility) == {}
    ensures !RoutesStayOnTheirGateways(domain, rules, gateways, hosts)
  {
    var top := SpecOf(domain, rules, gateways, hosts).gateways;
    var srcs := Sources(rules, hosts);
    var s := Source(rule, rule.Paths()[0]);
    SourcesExactly(rules, hosts, s);
    var k :| 0 <= k < |srcs| && srcs[k] == s;
    var r := GatewaylessSourceAccepts(domain, gateways, hosts, top, s);
    var http := Compile(domain, gateways, hosts, srcs);
    assert RouteAccepts(top, http[k], r);
  }

  /** A rule whose visibility has no gateway leaks onto other gateways, and only such a rule does. */
  lemma GatewayScopeExactly(domain: string, rules: seq<IngressRule>, gateways: GatewayNames, hosts: set<string>)
    ensures RoutesStayOnTheirGateways(domain, rules, gateways, hosts) <==>
            EveryServedRuleHasGateways(rules, gateways, hosts)
  {
    if EveryServedRuleHasGateways(rules, gateways, hosts) {
      var spec := SpecOf(domain, rules, gateways, hosts);
      var srcs := Sources(rules, hosts);
      forall k, r | 0 <= k < |srcs| && RouteAccepts(spec.gateways, spec.http[k], r)
        ensures r.gateway in NamesFor(gateways, srcs[k].rule.visibility)
      {
        SourcesExactly(rules, hosts, srcs[k]);
        RouteMeaning(domain, gateways, hosts, spec.gateways, srcs[k], r);
      }
    } else {
      var rule :| rule in rules && Served(rule, hosts) && rule.Paths() != []
                  && NamesFor(gateways, rule.visibility) == {};
      GatewaylessRuleLeaks(domain, rules, gateways, hosts, rule);
    }
  }
}
