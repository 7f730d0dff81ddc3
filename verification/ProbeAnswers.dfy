/** What the stored services answer to the probes that are listed for an Ingress. */
module ProbeAnswers {
  import opened Config
  import opened EndToEnd
  import opened Fixpoint
  import opened Gateways
  import opened HostPrefixes
  import opened IngressPass
  import opened Probes
  import opened ProbeTargets
  import opened RoutedGateways
  import opened Secrets
  import opened ServiceObjects
  import opened Store
  import opened Strings
  import opened Types
  import opened VirtualServices

  // ---------------------------------------------------------------- whether a probe is answered

  /** The service takes the request and sends the hash of the Ingress along. */
  predicate AnswersWithHash(lib: Library, spec: VirtualServiceSpec, ing: Ingress, r: Request) {
    match FirstMatch(spec.gateways, spec.http, r)
    case None => false
    case Some(route) => route.headers.Some? && Get(route.headers.value, HASH_KEY) == lib.probeHash(ing)
  }

  /** Some path of some rule takes the probe, when nothing is asked of the header it reserves. */
  ghost predicate Taken(domain: string, reach: string -> set<string>, hosts: set<string>, rules: seq<IngressRule>,
                        r: Request)
  {
    exists rule :: rule in rules && TakenBy(domain, reach, hosts, rule, rule.Paths(), r)
  }

  /** Some path of the rule takes it. */
  predicate TakenBy(domain: string, reach: string -> set<string>, hosts: set<string>, rule: IngressRule,
                    paths: seq<IngressPath>, r: Request)
  {
    exists p :: p in paths && SourceAccepts(domain, reach, hosts, rule, Unmarked(p), r)
  }

  lemma TakenByCons(domain: string, reach: string -> set<string>, hosts: set<string>, rule: IngressRule,
                    paths: seq<IngressPath>, r: Request)
    requires paths != []
    ensures TakenBy(domain, reach, hosts, rule, paths, r) <==>
            SourceAccepts(domain, reach, hosts, rule, Unmarked(paths[0]), r)
            || TakenBy(domain, reach, hosts, rule, paths[1..], r)
  {
    assert paths == [paths[0]] + paths[1..];
    assert paths[0] in paths;
  }

  lemma {:induction false} PathTaken(domain: string, reach: string -> set<string>, hosts: set<string>,
                                     rule: IngressRule, paths: seq<IngressPath>, r: Request)
    ensures FirstPath(domain, reach, hosts, UnmarkedRule(rule), UnmarkedPaths(paths), r).Some? <==>
            TakenBy(domain, reach, hosts, rule, paths, r)
  {
    if paths != [] {
      assert UnmarkedPaths(paths)[1..] == UnmarkedPaths(paths[1..]);
      PathTaken(domain, reach, hosts, rule, paths[1..], r);
      TakenByCons(domain, reach, hosts, rule, paths, r);
    }
  }

  lemma TakenCons(domain: string, reach: string -> set<string>, hosts: set<string>, rules: seq<IngressRule>,
                  r: Request)
    requires rules != []
    ensures Taken(domain, reach, hosts, rules, r) <==>
            || TakenBy(domain, reach, hosts, rules[0], rules[0].Paths(), r)
            || Taken(domain, reach, hosts, rules[1..], r)
  {
    assert rules == [rules[0]] + rules[1..];
    assert rules[0] in rules;
  }

  lemma {:induction false} SourceTaken(domain: string, reach: string -> set<string>, hosts: set<string>,
                                       rules: seq<IngressRule>, r: Request)
    ensures FirstSource(domain, reach, hosts, UnmarkedRules(rules), r).Some? <==>
            Taken(domain, reach, hosts, rules, r)
  {
    if rules != [] {
      assert UnmarkedRules(rules)[1..] == UnmarkedRules(rules[1..]);
      SourceTaken(domain, reach, hosts, rules[1..], r);
      PathTaken(domain, reach, hosts, rules[0], rules[0].Paths(), r);
      TakenCons(domain, reach, hosts, rules, r);
    }
  }

  lemma DecidedAnswer(lib: Library, spec: VirtualServiceSpec, ing: Ingress, gateways: GatewayNames, hosts: set<string>,
                      reach: string -> set<string>, r: Request)
    requires IsProbe(r) && Decides(lib, spec, ing, gateways, hosts, reach, r)
    ensures AnswersWithHash(lib, spec, ing, r) <==> Taken(lib.domain, reach, hosts, ing.rules, r)
  {
    SourceTaken(lib.domain, reach, hosts, ing.rules, r);
    var found := FirstSource(lib.domain, reach, hosts, UnmarkedRules(ing.rules), r);
    if found.Some? {
      TaggedRoute(lib.domain, gateways, hosts, found.value, lib.probeHash(ing), true);
    }
  }

  /** After a successful pass a probe is answered with the hash exactly when a path of a rule takes it. */
  lemma ProbeAnsweredExactly(env: Env, f: Faults, w: World, ing: Ingress, o: Orders, r: Request)
    returns (spec: VirtualServiceSpec)
    requires Fair(o) && GatewayPass(env, f, w, ing, o).outcome == Done && IsProbe(r)
    requires Get(ing.annotations, CLASS_ANNOTATION) == ISTIO_CLASS
    requires RequiredGatewayCount(ing, RoutedOn(env, f, w, ing, o)) > 0
    ensures StoredAs(env.lib, GatewayPass(env, f, w, ing, o).world.objects, ing, IngressName(env.lib, ing), spec)
    ensures AnswersWithHash(env.lib, spec, ing, r) <==>
            Taken(env.lib.domain, Reach(spec.gateways, RoutedOn(env, f, w, ing, o)),
                  GatewayHosts(env.lib, ing), ing.rules, r)
  {
    var gateways, hosts := RoutedOn(env, f, w, ing, o), GatewayHosts(env.lib, ing);
    spec := CompiledFor(env.lib, ing, gateways, hosts);
    ServicesStored(env, f, w, ing, o);
    CompiledDecidesInEffect(env.lib, ing, gateways, hosts, r);
    DecidedAnswer(env.lib, spec, ing, gateways, hosts, Reach(spec.gateways, gateways), r);
  }

  // ---------------------------------------------------------------- a probe under a host and a port

  /** The rule answers on the gateway, has a host that takes `e`, and has a path that takes the probe. */
  predicate AnswersUnder(domain: string, reach: string -> set<string>, rule: IngressRule, e: string, r: Request) {
    && r.gateway in reach(rule.visibility)
    && (exists h :: h in rule.hosts && ValidTopLevelDomain(h) && HasPrefix(e, HostPrefix(domain, h)))
    && (exists p :: p in rule.Paths() && HasPrefix(r.path, p.path) && HeadersAccept(Unmarked(p).headers, r.headers))
  }

  lemma PortAside(e: string, port: string, prefix: string)
    requires ':' !in prefix
    ensures HasPrefix(e + ":" + port, prefix) <==> HasPrefix(e, prefix)
  {
    var all := e + ":" + port;
    assert all[|e|] == ':' && (|prefix| > |e| ==> prefix[|e|] != ':');
    assert |prefix| <= |e| ==> all[..|prefix|] == e[..|prefix|];
  }

  lemma HostServed(lib: Library, ing: Ingress, rule: IngressRule, h: string)
    requires rule in ing.rules && h in rule.hosts
    ensures h in GatewayHosts(lib, ing) <==> ValidTopLevelDomain(h)
  {
    assert h in RuleHosts(ing) && h in ShortForms(lib.domain, h);
  }

  lemma TakenUnder(lib: Library, ing: Ingress, reach: string -> set<string>, rule: IngressRule, e: string, port: string,
                   r: Request)
    requires rule in ing.rules && r.authority == e + ":" + port && forall h :: h in rule.hosts ==> ':' !in h
    ensures TakenBy(lib.domain, reach, GatewayHosts(lib, ing), rule, rule.Paths(), r) <==>
            AnswersUnder(lib.domain, reach, rule, e, r)
  {
    forall h | h in rule.hosts
      ensures h in GatewayHosts(lib, ing) <==> ValidTopLevelDomain(h)
      ensures HasPrefix(r.authority, HostPrefix(lib.domain, h)) <==> HasPrefix(e, HostPrefix(lib.domain, h))
    {
      HostServed(lib, ing, rule, h);
      PortAside(e, port, HostPrefix(lib.domain, h));
    }
    if AnswersUnder(lib.domain, reach, rule, e, r) {
      var p :| p in rule.Paths() && HasPrefix(r.path, p.path) && HeadersAccept(Unmarked(p).headers, r.headers);
      assert SourceAccepts(lib.domain, reach, GatewayHosts(lib, ing), rule, Unmarked(p), r);
    }
  }

  /** A probe to a port under a host, as they are listed, is answered with the hash exactly when a rule of its gateway
      has a host whose prefix the host has, and a path that takes the probe. */
  lemma ProbeUnderHostExactly(env: Env, f: Faults, w: World, ing: Ingress, o: Orders, e: string, port: string,
                              r: Request) returns (spec: VirtualServiceSpec)
    requires Fair(o) && GatewayPass(env, f, w, ing, o).outcome == Done && IsProbe(r)
    requires Get(ing.annotations, CLASS_ANNOTATION) == ISTIO_CLASS
    requires RequiredGatewayCount(ing, RoutedOn(env, f, w, ing, o)) > 0
    requires forall rule, h :: rule in ing.rules && h in rule.hosts ==> ':' !in h
    requires r.authority == e + ":" + port
    ensures StoredAs(env.lib, GatewayPass(env, f, w, ing, o).world.objects, ing, IngressName(env.lib, ing), spec)
    ensures AnswersWithHash(env.lib, spec, ing, r) <==>
            exists rule :: rule in ing.rules
              && AnswersUnder(env.lib.domain, Reach(spec.gateways, RoutedOn(env, f, w, ing, o)), rule, e, r)
  {
    spec := ProbeAnsweredExactly(env, f, w, ing, o, r);
    RulesTakeUnder(env.lib, ing, Reach(spec.gateways, RoutedOn(env, f, w, ing, o)), e, port, r);
  }

  lemma RulesTakeUnder(lib: Library, ing: Ingress, reach: string -> set<string>, e: string, port: string, r: Request)
    requires forall rule, h :: rule in ing.rules && h in rule.hosts ==> ':' !in h
    requires r.authority == e + ":" + port
    ensures Taken(lib.domain, reach, GatewayHosts(lib, ing), ing.rules, r) <==>
            exists rule :: rule in ing.rules && AnswersUnder(lib.domain, reach, rule, e, r)
  {
    forall rule | rule in ing.rules
      ensures TakenBy(lib.domain, reach, GatewayHosts(lib, ing), rule, rule.Paths(), r) <==>
              AnswersUnder(lib.domain, reach, rule, e, r)
    {
      TakenUnder(lib, ing, reach, rule, e, port, r);
    }
  }

  // ---------------------------------------------------------------- the probes that are listed

  /** Every host can be resolved and, if it lies in the cluster's domain, lies in its "svc" part. */
  predicate HostsInService(domain: string, rules: seq<IngressRule>) {
    forall rule, h :: rule in rules && h in rule.hosts ==>
      ValidTopLevelDomain(h) && (HasSuffix(h, "." + domain) ==> HasSuffix(h, LocalSuffix(domain)))
  }

  /** Every rule has a path that takes the request, as far as paths and headers go. */
  predicate OpenRules(rules: seq<IngressRule>, r: Request) {
    forall rule :: rule in rules ==>
      exists p :: p in rule.Paths() && HasPrefix(r.path, p.path) && HeadersAccept(Unmarked(p).headers, r.headers)
  }

  /** The rule answers on the gateway, and has a host whose prefix the authority has. */
  predicate HostReached(domain: string, reach: string -> set<string>, hosts: set<string>, rule: IngressRule, h: string,
                        r: Request)
  {
    r.gateway in reach(rule.visibility) && h in rule.hosts && h in hosts
    && HasPrefix(r.authority, HostPrefix(domain, h))
  }

  /** With a path for it in every rule, a probe is taken exactly when its host is reached through some rule. */
  lemma OpenTakenExactly(domain: string, reach: string -> set<string>, hosts: set<string>, rules: seq<IngressRule>,
                         r: Request)
    requires OpenRules(rules, r)
    ensures Taken(domain, reach, hosts, rules, r) <==>
            exists rule, h :: rule in rules && HostReached(domain, reach, hosts, rule, h, r)
  {
    if rule, h :| rule in rules && HostReached(domain, reach, hosts, rule, h, r) {
      var p :| p in rule.Paths() && HasPrefix(r.path, p.path) && HeadersAccept(Unmarked(p).headers, r.headers);
      assert SourceAccepts(domain, reach, hosts, rule, Unmarked(p), r);
      assert TakenBy(domain, reach, hosts, rule, rule.Paths(), r);
    }
    if Taken(domain, reach, hosts, rules, r) {
      var rule :| rule in rules && TakenBy(domain, reach, hosts, rule, rule.Paths(), r);
      var p :| p in rule.Paths() && SourceAccepts(domain, reach, hosts, rule, Unmarked(p), r);
      var h :| h in rule.hosts && h in hosts && HasPrefix(r.authority, HostPrefix(domain, h));
      assert HostReached(domain, reach, hosts, rule, h, r);
    }
  }

  lemma ProbedHostAccepted(domain: string, rules: seq<IngressRule>, rule: IngressRule, e: string, authority: string)
    requires HostsInService(domain, rules) && rule in rules && e in ExpandedHosts(domain, Members(rule.hosts))
    requires HasPrefix(authority, e)
    ensures exists h :: h in rule.hosts && ValidTopLevelDomain(h) && HasPrefix(authority, HostPrefix(domain, h))
  {
    var h :| h in Members(rule.hosts) && e in ShortForms(domain, h) && ValidTopLevelDomain(e);
    SvcIsInDomain(domain, h);
    ShortFormAcceptedExactly(domain, h, e);
    PrefixTransitive(HostPrefix(domain, h), e, authority);
  }

  /** What is in the "svc" part of the domain is in the domain. */
  lemma SvcIsInDomain(domain: string, h: string)
    requires HasSuffix(h, "." + domain) ==> HasSuffix(h, LocalSuffix(domain))
    ensures forall e :: e in ShortForms(domain, h) ==> e == h || HasSuffix(h, LocalSuffix(domain))
  {
  }

  lemma RuleTakesProbe(lib: Library, ing: Ingress, reach: string -> set<string>, rule: IngressRule, e: string,
                       r: Request)
    requires HostsInService(lib.domain, ing.rules) && OpenRules(ing.rules, r) && rule in ing.rules
    requires e in ExpandedHosts(lib.domain, Members(rule.hosts)) && HasPrefix(r.authority, e)
    requires r.gateway in reach(rule.visibility)
    ensures Taken(lib.domain, reach, GatewayHosts(lib, ing), ing.rules, r)
  {
    ProbedHostAccepted(lib.domain, ing.rules, rule, e, r.authority);
    var h :| h in rule.hosts && ValidTopLevelDomain(h) && HasPrefix(r.authority, HostPrefix(lib.domain, h));
    assert h in RuleHosts(ing) && h in ShortForms(lib.domain, h);
    assert HostReached(lib.domain, reach, GatewayHosts(lib, ing), rule, h, r);
    OpenTakenExactly(lib.domain, reach, GatewayHosts(lib, ing), ing.rules, r);
  }

  /** The gateway that takes the place of a configured one where public rules have an HTTP server of their own: the
      one that is made for the same gateway service. */
  predicate StandsIn(env: Env, ing: Ingress, sel: Selection, g: string, at: string) {
    && Keys(env, ing).Some? && |Keys(env, ing).value| == |sel.external|
    && exists i :: 0 <= i < |sel.external| && sel.external[i].QualifiedName() == g
                   && at == ing.namespace + "/" + GatewayName(ing.name, EXTERNAL_IP, Keys(env, ing).value[i])
  }

  /** Where a request to a configured gateway is routed: on that gateway, or on the one in its place. */
  predicate ArrivesAt(env: Env, ing: Ingress, sel: Selection, visibility: string, g: string, at: string) {
    if visibility == EXTERNAL_IP && OwnHTTPServer(ing) then StandsIn(env, ing, sel, g, at) else at == g
  }

  lemma ConfiguredIsRouted(env: Env, f: Faults, w: World, ing: Ingress, o: Orders, sel: Selection, visibility: string,
                           g: string) returns (at: string)
    requires Fair(o) && GatewayPass(env, f, w, ing, o).outcome == Done
    requires GatewaysFromContext(env.lib, env.config, ing.labels) == Some(sel)
    requires g in NamesFor(ConfiguredGatewayNames(sel), visibility)
    ensures visibility == EXTERNAL_IP || visibility == CLUSTER_LOCAL
    ensures ArrivesAt(env, ing, sel, visibility, g, at) && at in NamesFor(RoutedOn(env, f, w, ing, o), visibility)
  {
    RoutedOnPlanned(env, f, w, ing, o);
    at := PlannedRoute(env, w.objects, ing, o, sel, visibility, g);
  }

  lemma PlannedRoute(env: Env, objects: Objects, ing: Ingress, o: Orders, sel: Selection, visibility: string,
                     g: string) returns (at: string)
    requires Fair(o) && PlanPass(env, objects, ing, o).Some?
    requires GatewaysFromContext(env.lib, env.config, ing.labels) == Some(sel)
    requires g in NamesFor(ConfiguredGatewayNames(sel), visibility)
    ensures visibility == EXTERNAL_IP || visibility == CLUSTER_LOCAL
    ensures ArrivesAt(env, ing, sel, visibility, g, at)
    ensures at in NamesFor(PlanPass(env, objects, ing, o).value.names, visibility)
  {
    PlanNames(env, objects, ing, o);
    at := g;
    if visibility == EXTERNAL_IP && OwnHTTPServer(ing) {
      var i :| 0 <= i < |sel.external| && sel.external[i].QualifiedName() == g;
      var own := OwnGatewayFor(env, objects, ing, o, sel, i);
      at := own.ref.namespace + "/" + own.ref.name;
    }
  }

  /** The Gateway for a service, with its key and selector. */
  predicate IsFor(ing: Ingress, service: GatewayService, g: Want) {
    && g.ref.namespace == ing.namespace && g.ref.name == GatewayName(ing.name, EXTERNAL_IP, service.key)
    && g.obj.body.GatewayBody? && g.obj.body.gw.selector == service.selector
  }

  lemma TLSGatewayOf(env: Env, ing: Ingress, tls: seq<IngressTLS>, origins: Origins, service: GatewayService)
    returns (g: Want)
    requires tls != [] && IngressTLSGateways(env, ing, EXTERNAL_IP, tls, origins).Some?
    requires Services(env, ing).Some? && service in Services(env, ing).value
    ensures g in IngressTLSGateways(env, ing, EXTERNAL_IP, tls, origins).value && IsFor(ing, service, g)
  {
    TLSGatewaysEach(env.lib, ing, EXTERNAL_IP, tls, origins, Services(env, ing).value);
    g := TLSGatewayFor(env.lib, ing, EXTERNAL_IP, tls, origins, service).value;
  }

  /** With the HTTP server added to the Gateways with TLS servers, or in Gateways with that alone. */
  lemma HTTPGatewayOf(env: Env, ing: Ingress, tls: seq<IngressTLS>, origins: Origins, external: seq<Want>,
                      service: GatewayService) returns (g: Want)
    requires OwnHTTPServer(ing) && IngressTLSGateways(env, ing, EXTERNAL_IP, tls, origins).Some?
    requires FinalGateways(env, ing, IngressTLSGateways(env, ing, EXTERNAL_IP, tls, origins).value) == Some(external)
    requires Services(env, ing).Some? && service in Services(env, ing).value
    ensures g in external && IsFor(ing, service, g)
    ensures HTTPServer(ing.httpOption, SortedList(PublicHosts(ing))) in g.obj.body.gw.servers
  {
    var gateways, services := IngressTLSGateways(env, ing, EXTERNAL_IP, tls, origins).value, Services(env, ing).value;
    TLSGatewayCount(env, ing, EXTERNAL_IP, tls, origins);
    if gateways != [] {
      var plain := TLSGatewayOf(env, ing, tls, origins, service);
      var i :| 0 <= i < |gateways| && gateways[i] == plain;
      g := external[i];
    } else {
      var i :| 0 <= i < |services| && services[i] == service;
      assert |tls| == 0;
      g := external[i];
    }
  }

  lemma ServicesOfKeys(env: Env, ing: Ingress, sel: Selection)
    requires GatewaysFromContext(env.lib, env.config, ing.labels) == Some(sel) && Services(env, ing).Some?
    ensures Keys(env, ing).Some? && |Keys(env, ing).value| == |Services(env, ing).value| == |sel.external|
    ensures forall i :: 0 <= i < |sel.external| ==>
              var key := Keys(env, ing).value[i];
              key in env.services && Services(env, ing).value[i] == GatewayService(key, env.services[key])
  {
    ServicesOfSelection(env, ing, sel);
  }

  /** The external Gateways of a plan start from those with TLS servers. */
  lemma PlannedFrom(env: Env, objects: Objects, ing: Ingress, o: Orders)
    returns (tls: seq<IngressTLS>, origins: Origins)
    requires Fair(o) && PlanPass(env, objects, ing, o).Some?
    ensures var plan := PlanPass(env, objects, ing, o).value;
            && IngressTLSGateways(env, ing, EXTERNAL_IP, tls, origins) == Some(plan.external.gateways)
            && FinalGateways(env, ing, plan.external.gateways) == Some(plan.gateways)
  {
    tls, origins := [], map[];
    if ExternalTLS(ing) {
      var c := ExternalSecrets(env, objects, ing).value;
      tls, origins := PlainTLS(IngressTLSFor(ing, EXTERNAL_IP), c.plain), c.plain;
    }
  }

  lemma HTTPNeedsServices(env: Env, ing: Ingress, tls: seq<IngressTLS>, origins: Origins)
    requires OwnHTTPServer(ing) && IngressTLSGateways(env, ing, EXTERNAL_IP, tls, origins).Some?
    requires FinalGateways(env, ing, IngressTLSGateways(env, ing, EXTERNAL_IP, tls, origins).value).Some?
    ensures Services(env, ing).Some?
  {
    TLSGatewayCount(env, ing, EXTERNAL_IP, tls, origins);
  }

  /** With an HTTP server of its own, an Ingress has a Gateway for each gateway service, which has that server. */
  lemma OwnGatewayFor(env: Env, objects: Objects, ing: Ingress, o: Orders, sel: Selection, i: nat) returns (own: Want)
    requires Fair(o) && PlanPass(env, objects, ing, o).Some? && OwnHTTPServer(ing) && i < |sel.external|
    requires GatewaysFromContext(env.lib, env.config, ing.labels) == Some(sel)
    ensures own in PlanPass(env, objects, ing, o).value.gateways
    ensures Keys(env, ing).Some? && |Keys(env, ing).value| == |sel.external| && Keys(env, ing).value[i] in env.services
    ensures IsFor(ing, GatewayService(Keys(env, ing).value[i], env.services[Keys(env, ing).value[i]]), own)
    ensures HTTPServer(ing.httpOption, SortedList(PublicHosts(ing))) in own.obj.body.gw.servers
  {
    var tls, origins := PlannedFrom(env, objects, ing, o);
    HTTPNeedsServices(env, ing, tls, origins);
    ServicesOfKeys(env, ing, sel);
    own := HTTPGatewayOf(env, ing, tls, origins, PlanPass(env, objects, ing, o).value.gateways,
                         Services(env, ing).value[i]);
  }

  /** The rule through which a gateway is listed under its least host. */
  lemma ListedThrough(lib: Library, rules: seq<IngressRule>, names: GatewayNames, hosts: map<string, set<string>>,
                      g: string)
    returns (rule: IngressRule)
    requires HostTable(lib, rules, names, hosts) && g in hosts
    ensures hosts[g] != {} && rule in rules && g in NamesFor(names, rule.visibility)
    ensures Least(hosts[g]) in ExpandedHosts(lib.domain, Members(rule.hosts))
  {
    assert Placed(hosts, g, Least(hosts[g]));
    rule :| rule in rules && g in NamesFor(names, rule.visibility)
            && Least(hosts[g]) in ExpandedHosts(lib.domain, Members(rule.hosts));
  }

  lemma ProbeOfRuleAnswered(env: Env, f: Faults, w: World, ing: Ingress, o: Orders, rule: IngressRule, e: string,
                            r: Request)
    returns (spec: VirtualServiceSpec)
    requires Fair(o) && GatewayPass(env, f, w, ing, o).outcome == Done
    requires Get(ing.annotations, CLASS_ANNOTATION) == ISTIO_CLASS
    requires IsProbe(r) && HostsInService(env.lib.domain, ing.rules) && OpenRules(ing.rules, r)
    requires rule in ing.rules && e in ExpandedHosts(env.lib.domain, Members(rule.hosts)) && HasPrefix(r.authority, e)
    requires rule.visibility == EXTERNAL_IP || rule.visibility == CLUSTER_LOCAL
    requires r.gateway in NamesFor(RoutedOn(env, f, w, ing, o), rule.visibility)
    ensures StoredAs(env.lib, GatewayPass(env, f, w, ing, o).world.objects, ing, IngressName(env.lib, ing), spec)
    ensures AnswersWithHash(env.lib, spec, ing, r)
  {
    var gateways := RoutedOn(env, f, w, ing, o);
    RoutedRuleCounts(ing, gateways, rule, r.gateway);
    spec := ProbeAnsweredExactly(env, f, w, ing, o, r);
    RuleTakesProbe(env.lib, ing, Reach(spec.gateways, gateways), rule, e, r);
  }

  /** So every listed probe is answered with the hash, on the configured gateway or the one in its place: the request
      goes to a configured gateway, under a host that is listed for it, with rules whose hosts lie in the "svc" part
      of the cluster's domain or outside of it, and that have a path for it. */
  lemma ListedProbesAnswered(env: Env, f: Faults, w: World, ing: Ingress, o: Orders, sel: Selection,
                             hosts: map<string, set<string>>, r: Request)
    returns (spec: VirtualServiceSpec, visibility: string, at: string)
    requires Fair(o) && GatewayPass(env, f, w, ing, o).outcome == Done
    requires Get(ing.annotations, CLASS_ANNOTATION) == ISTIO_CLASS
    requires GatewaysFromContext(env.lib, env.config, ing.labels) == Some(sel)
    requires HostTable(env.lib, ing.rules, ConfiguredGatewayNames(sel), hosts) && r.gateway in hosts
    requires IsProbe(r) && HasPrefix(r.authority, Least(hosts[r.gateway]))
    requires HostsInService(env.lib.domain, ing.rules) && OpenRules(ing.rules, r)
    ensures StoredAs(env.lib, GatewayPass(env, f, w, ing, o).world.objects, ing, IngressName(env.lib, ing), spec)
    ensures r.gateway in NamesFor(ConfiguredGatewayNames(sel), visibility)
    ensures ArrivesAt(env, ing, sel, visibility, r.gateway, at)
    ensures AnswersWithHash(env.lib, spec, ing, r.(gateway := at))
  {
    var rule := ListedThrough(env.lib, ing.rules, ConfiguredGatewayNames(sel), hosts, r.gateway);
    visibility := rule.visibility;
    at := ConfiguredIsRouted(env, f, w, ing, o, sel, visibility, r.gateway);
    spec := ProbeOfRuleAnswered(env, f, w, ing, o, rule, Least(hosts[r.gateway]), r.(gateway := at));
  }

  /** And the Gateway in the place of a configured one is stored, selects the pods of that one's service, and has the
      HTTP server for the public hosts. */
  lemma StandInListens(env: Env, f: Faults, w: World, ing: Ingress, o: Orders, sel: Selection, i: nat)
    returns (own: Ref)
    requires Fair(o) && NoCollisions(env, w.objects, ing, o) && GatewayPass(env, f, w, ing, o).outcome == Done
    requires GatewaysFromContext(env.lib, env.config, ing.labels) == Some(sel)
    requires OwnHTTPServer(ing) && i < |sel.external|
    ensures StandsIn(env, ing, sel, sel.external[i].QualifiedName(), own.namespace + "/" + own.name)
    ensures var after, key := GatewayPass(env, f, w, ing, o).world.objects, Keys(env, ing).value[i];
            && own in after && after[own].body.GatewayBody? && key in env.services
            && after[own].body.gw.selector == env.services[key]
            && HTTPServer(ing.httpOption, SortedList(PublicHosts(ing))) in after[own].body.gw.servers
  {
    GatewayPassSettles(env, f, w, ing, o);
    var g := OwnGatewayFor(env, w.objects, ing, o, sel, i);
    PlannedGatewayMember(env, w.objects, ing, o, g);
    own := g.ref;
    assert GatewayPass(env, f, w, ing, o).world.objects[own].body == g.obj.body;
  }

  lemma RoutedRuleCounts(ing: Ingress, gateways: GatewayNames, rule: IngressRule, g: string)
    requires rule in ing.rules && g in NamesFor(gateways, rule.visibility)
    requires rule.visibility == EXTERNAL_IP || rule.visibility == CLUSTER_LOCAL
    ensures RequiredGatewayCount(ing, gateways) > 0
  {
  }
}
