/** Inputs that the code accepts and for which it falls short of what one might expect. */
module Witnesses {
  import opened Cleanup
  import opened Config
  import opened Contention
  import opened Defaults
  import opened EndToEnd
  import opened Finalize
  import opened Fixpoint
  import opened Gateways
  import opened HostPrefixes
  import opened IngressPass
  import opened Probes
  import opened ProbeAnswers
  import opened RoutedGateways
  import opened Secrets
  import opened ServiceObjects
  import opened Servers
  import opened Store
  import opened Strings
  import opened Success
  import opened Types
  import opened VirtualServices

  // ---------------------------------------------------------------- the built-in gateways

  /** An installation with the usual cluster domain and namespace. */
  predicate UsualCluster(lib: Library) {
    lib.domain == "cluster.local" && lib.systemNamespace == "knative-serving"
  }

  lemma BuiltinURL(lib: Library, name: string, service: string)
    requires UsualCluster(lib)
    ensures BuiltinGateway(lib, name, service).serviceURL ==
            service + ['.'] + ("istio-system" + ['.'] + ("svc" + ['.'] + ("cluster" + ['.'] + "local")))
  {
  }

  lemma UsualDomainLabels()
    ensures AllLabels(Split("svc" + ['.'] + ("cluster" + ['.'] + "local"), '.'))
  {
    UsualDomainTail();
    OneMoreLabel("svc", "cluster" + ['.'] + "local");
  }

  lemma UsualDomainTail()
    ensures AllLabels(Split("cluster" + ['.'] + "local", '.'))
  {
    OneLabel("local");
    OneMoreLabel("cluster", "local");
  }

  lemma BuiltinLabels(service: string, rest: string)
    requires IsLowerLabel(service) && AllLabels(Split(rest, '.'))
    ensures AllLabels(Split(service + ['.'] + ("istio-system" + ['.'] + rest), '.'))
  {
    OneMoreLabel("istio-system", rest);
    OneMoreLabel(service, "istio-system" + ['.'] + rest);
  }

  /** A built-in gateway passes validation. */
  lemma BuiltinIsValid(lib: Library, name: string, service: string)
    requires UsualCluster(lib) && name != "" && IsLowerLabel(service) && |service| <= 200
    ensures ValidGateway(lib, BuiltinGateway(lib, name, service))
  {
    var g := BuiltinGateway(lib, name, service);
    BuiltinURL(lib, name, service);
    UsualDomainLabels();
    BuiltinLabels(service, "svc" + ['.'] + ("cluster" + ['.'] + "local"));
    assert g.serviceURL[|g.serviceURL| - 1] == 'l';
    assert TrimSuffix(g.serviceURL, ".") == g.serviceURL;
  }

  /** And its service can be named. */
  lemma BuiltinService(lib: Library, name: string, service: string)
    requires UsualCluster(lib) && '.' !in service
    ensures ParseServiceURL(BuiltinGateway(lib, name, service).serviceURL) == Some(ServiceKey("istio-system", service))
  {
    BuiltinURL(lib, name, service);
    assert '.' !in "istio-system";
    NamedService(service, "istio-system", "svc" + ['.'] + ("cluster" + ['.'] + "local"));
  }

  lemma NamedService(service: string, namespace: string, rest: string)
    requires '.' !in service && '.' !in namespace
    ensures ParseServiceURL(service + ['.'] + (namespace + ['.'] + rest)) == Some(ServiceKey(namespace, service))
  {
    var tail := namespace + ['.'] + rest;
    FirstSeparator(namespace, rest, '.');
    FirstSeparator(service, tail, '.');
    assert SplitN(tail, '.', 2) == [namespace, rest];
    assert SplitN(service + ['.'] + tail, '.', 3) == [service, namespace, rest];
  }

  lemma LocalBuiltinIsValid(lib: Library)
    requires UsualCluster(lib)
    ensures ValidGateway(lib, DefaultLocalGateways(lib)[0])
  {
    BuiltinIsValid(lib, "knative-local-gateway", "knative-local-gateway");
  }

  lemma ExternalBuiltinIsValid(lib: Library)
    requires UsualCluster(lib)
    ensures ValidGateway(lib, DefaultIngressGateways(lib)[0])
  {
    BuiltinIsValid(lib, "knative-ingress-gateway", "istio-ingressgateway");
  }

  /** Without any entry, the built-in gateways are used. */
  lemma EmptyConfigAccepted(lib: Library)
    requires UsualCluster(lib)
    ensures NewIstioFromConfigMap(lib, map[]) ==
            Some(IstioConfig(DefaultIngressGateways(lib), DefaultLocalGateways(lib)))
  {
    LocalBuiltinIsValid(lib);
    ExternalBuiltinIsValid(lib);
  }

  // ---------------------------------------------------------------- an empty external list: routes leak

  /** External gateways explicitly none, and nothing said of cluster-local ones. */
  function OnlyLocal(): Labels {
    map[EXTERNAL_GATEWAYS_KEY := "[]"]
  }

  /** A public and a cluster-local rule, as every public service has, and no TLS. */
  function TwoRules(): Ingress {
    Ingress("n", "i", "u", map[], map[CLASS_ANNOTATION := ISTIO_CLASS], [],
            [IngressRule(["h"], EXTERNAL_IP, OnePath()), IngressRule(["l"], CLUSTER_LOCAL, OnePath())], "Enabled")
  }

  function OnePath(): Option<seq<IngressPath>> {
    Some([IngressPath("", "", map[], [BackendSplit("s", "n", 80, 100, map[])], map[])])
  }

  lemma OnlyLocalIsAccepted(lib: Library)
    requires UsualCluster(lib) && lib.parseGateways("[]") == Some([])
    ensures NewIstioFromConfigMap(lib, OnlyLocal()) == Some(IstioConfig([], DefaultLocalGateways(lib)))
  {
    DifferAt(EXTERNAL_GATEWAYS_KEY, GATEWAY_PREFIX, 0);
    DifferAt(EXTERNAL_GATEWAYS_KEY, LOCAL_GATEWAY_PREFIX, 0);
    assert EXTERNAL_GATEWAYS_KEY[0] != LOCAL_GATEWAYS_KEY[0];
    assert !IsBlank("[]") by { assert "[]"[0] == '['; }
    LocalBuiltinIsValid(lib);
    OnlyLocalParsed(lib, OnlyLocal());
  }

  lemma OnlyLocalParsed(lib: Library, data: Labels)
    requires EXTERNAL_GATEWAYS_KEY in data && LOCAL_GATEWAYS_KEY !in data && !OldFormatDefined(data)
    requires !IsBlank(data[EXTERNAL_GATEWAYS_KEY]) && lib.parseGateways(data[EXTERNAL_GATEWAYS_KEY]) == Some([])
    requires ValidGateway(lib, DefaultLocalGateways(lib)[0])
    ensures NewIstioFromConfigMap(lib, data) == Some(IstioConfig([], DefaultLocalGateways(lib)))
  {
    assert IsBlank("");
    WithoutSelectors(lib, DefaultLocalGateways(lib), map[]);
  }

  lemma NoTLSAtAll(ing: Ingress, visibility: string)
    requires ing.tls == []
    ensures IngressTLSFor(ing, visibility) == []
  {
    SomeMember(IngressTLSFor(ing, visibility));
  }

  /** Without TLS and redirection, and with gateways to select from, nothing else is needed. */
  lemma PlainSucceeds(env: Env, data: Labels, f: Faults, w: World, ing: Ingress, o: Orders)
    requires NoFaults(f) && Fair(o) && NewIstioFromConfigMap(env.lib, data) == Some(env.config)
    requires ing.tls == [] && ing.httpOption != HTTP_REDIRECTED && forall rule :: rule in ing.rules ==> rule.http.Some?
    requires forall r :: r in w.objects ==> r.kind != VirtualServiceKind
    ensures GatewayPass(env, f, w, ing, o).outcome == Done
  {
    SelectionIsTotal(env.lib, data, ing.labels);
    NoTLSAtAll(ing, EXTERNAL_IP);
    NoTLSAtAll(ing, CLUSTER_LOCAL);
    FewInputs(env, w.objects, ing, o);
    NoServicesNoneForeign(env, w.objects, ing, o);
    ReconciliationSucceedsExactly(env, f, w, ing, o);
  }

  lemma TwoRulesSucceed(env: Env, data: Labels, f: Faults, w: World, o: Orders)
    requires NoFaults(f) && Fair(o) && NewIstioFromConfigMap(env.lib, data) == Some(env.config)
    requires forall r :: r in w.objects ==> r.kind != VirtualServiceKind
    ensures GatewayPass(env, f, w, TwoRules(), o).outcome == Done
  {
    assert TwoRules().httpOption[0] != HTTP_REDIRECTED[0];
    PlainSucceeds(env, data, f, w, TwoRules(), o);
  }

  lemma NoServicesNoneForeign(env: Env, objects: Objects, ing: Ingress, o: Orders)
    requires Fair(o) && forall r :: r in objects ==> r.kind != VirtualServiceKind
    ensures NamesFree(env, objects, ing, o)
  {
    if PlanPass(env, objects, ing, o).Some? {
      var names := PlanPass(env, objects, ing, o).value.names;
      if MakeVirtualServices(env.lib, ing, names).Some? {
        MadeVirtualServices(env.lib, ing, names);
      }
    }
  }

  lemma SingleLabelIsValid(h: string)
    requires |h| == 1 && 'a' <= h[0] <= 'z'
    ensures ValidTopLevelDomain(h)
  {
    assert Split(h, '.') == [h];
    assert h[0] > '9';
  }

  lemma TwoRulesHosts(lib: Library)
    ensures "h" in GatewayHosts(lib, TwoRules()) && "l" in GatewayHosts(lib, TwoRules())
  {
    var ing := TwoRules();
    var public, local := ing.rules[0], ing.rules[1];
    assert public in ing.rules && local in ing.rules && "h" in public.hosts && "l" in local.hosts;
    SingleLabelIsValid("h");
    SingleLabelIsValid("l");
    assert "h" in ShortForms(lib.domain, "h") && "l" in ShortForms(lib.domain, "l");
    assert "h" in RuleHosts(ing) && "l" in RuleHosts(ing);
  }

  lemma LeakingRule(env: Env)
    requires env.config.ingressGateways == [] && env.config.localGateways != []
    ensures KnownVisibilities(TwoRules()) && !GatewaysSuffice(env, TwoRules())
    ensures exists rule :: rule in TwoRules().rules && HasGatewayFor(env, TwoRules(), rule.visibility)
  {
    var ing := TwoRules();
    var public, local := ing.rules[0], ing.rules[1];
    assert public in ing.rules && local in ing.rules;
    TwoRulesHosts(env.lib);
    assert "h" in GatewayHosts(env.lib, ing) * Members(public.hosts);
    assert EXTERNAL_IP[0] != CLUSTER_LOCAL[0];
    assert HasGatewayFor(env, ing, local.visibility) && !HasGatewayFor(env, ing, public.visibility);
  }

  /** It can be reached: accepted, a pass over an empty table that succeeds, and a gateway service whose routes leak. */
  lemma EmptyExternalListLeaks(env: Env, f: Faults, o: Orders)
    requires NoFaults(f) && Fair(o) && UsualCluster(env.lib) && env.lib.parseGateways("[]") == Some([])
    requires NewIstioFromConfigMap(env.lib, OnlyLocal()) == Some(env.config)
    ensures var w := World(map[], 0, []);
            && GatewayPass(env, f, w, TwoRules(), o).outcome == Done
            && RequiredGatewayCount(TwoRules(), RoutedOn(env, f, w, TwoRules(), o)) > 0
            && !RoutesStayOnTheirGateways(env.lib.domain, ProbedRules(TwoRules().rules, env.lib.probeHash(TwoRules())),
                                          RoutedOn(env, f, w, TwoRules(), o), GatewayHosts(env.lib, TwoRules()))
  {
    var w, ing := World(map[], 0, []), TwoRules();
    OnlyLocalIsAccepted(env.lib);
    TwoRulesSucceed(env, OnlyLocal(), f, w, o);
    LeakingRule(env);
    GatewayServiceMadeExactly(env, OnlyLocal(), f, w, ing, o);
    RoutesStayExactly(env, OnlyLocal(), f, w, ing, o);
  }

  // ---------------------------------------------------------------- copies that an Ingress leaves behind

  /** A TLS entry for the public rule, as the Ingress had one before, and its secret. */
  function OneEntry(): IngressTLS {
    IngressTLS(["h"], "s", "n")
  }

  function OneSecret(data: Labels): StoredSecret {
    StoredSecret("n", "s", "uid-0001", map[], data, "kubernetes.io/tls")
  }

  function WithSecret(data: Labels): Objects {
    map[Ref(SecretKind, "n", "s") := Object(map[], map[], [], SecretBody(data, "kubernetes.io/tls", "uid-0001"))]
  }

  /** The copy made of it for an Ingress with the name. */
  function CopyFor(name: string, data: Labels): Want {
    CopyOf(OneSecret(data), TargetSecretName(name, OneSecret(data)), "istio-system")
  }

  function CopyAlone(name: string, data: Labels): World {
    World(map[CopyFor(name, data).ref := CopyFor(name, data).obj], 0, [])
  }

  function OneMaking(name: string, data: Labels): Making {
    Making(WithSecret(data), EXTERNAL_IP, map["n/s" := OneSecret(data)], ["n/s"], PlainNaming(name))
  }

  /** Two rules and the TLS entry, under the name. */
  function Secured(name: string): Ingress {
    TwoRules().(name := name, tls := [OneEntry()])
  }

  lemma OneEntryUsed(name: string)
    ensures IngressTLSFor(Secured(name), EXTERNAL_IP) == [OneEntry()] && AnyTLS(Secured(name))
  {
    var ing := Secured(name);
    assert EXTERNAL_IP[0] != CLUSTER_LOCAL[0];
    assert Covering([OneEntry()], ["h"]) == [OneEntry()];
    assert ing.rules == [ing.rules[0]] + [ing.rules[1]];
    assert TLSForRules(ing.tls, [ing.rules[1]], EXTERNAL_IP) == [];
    assert ing.rules[1..] == [ing.rules[1]];
    assert ing.rules[0] in ing.rules && IsPublic(ing);
  }

  lemma OneEntryFound(data: Labels)
    ensures GetSecrets(WithSecret(data), [OneEntry()]) == Some(map["n/s" := OneSecret(data)])
  {
    assert SecretKey(OneEntry()) == "n/s";
    assert GetSecrets(WithSecret(data), [OneEntry()][..0]) == Some(map[]);
  }

  lemma OneService(g: GatewayConfig, key: ServiceKey)
    requires ParseServiceURL(g.serviceURL) == Some(key)
    ensures ParseServices([g]) == Some([key])
  {
    var one := [g];
    assert one[..|one| - 1] == [];
    assert ParseServices([]) == Some([]);
    assert [] + [key] == [key];
  }

  lemma KeysOfOne(lib: Library, external: seq<GatewayConfig>, local: seq<GatewayConfig>, labels: Labels,
                  keys: seq<ServiceKey>)
    requires (forall g :: g in external ==> g.selector.None?) && forall g :: g in local ==> g.selector.None?
    requires ParseServices(external) == Some(keys)
    ensures GatewayServiceKeys(lib, IstioConfig(external, local), labels) == Some(keys)
  {
    WithoutSelectors(lib, external, labels);
    WithoutSelectors(lib, local, labels);
  }

  lemma BuiltinKeys(env: Env, ing: Ingress)
    requires UsualCluster(env.lib) && NewIstioFromConfigMap(env.lib, map[]) == Some(env.config)
    ensures Keys(env, ing) == Some([BuiltinKey()])
  {
    EmptyConfigAccepted(env.lib);
    BuiltinService(env.lib, "knative-ingress-gateway", "istio-ingressgateway");
    OneService(DefaultIngressGateways(env.lib)[0], BuiltinKey());
    KeysOfOne(env.lib, DefaultIngressGateways(env.lib), DefaultLocalGateways(env.lib), ing.labels, [BuiltinKey()]);
  }

  function BuiltinKey(): ServiceKey {
    ServiceKey("istio-system", "istio-ingressgateway")
  }

  lemma MadeFrom(env: Env, ing: Ingress, m: Making, k: string, key: ServiceKey, copy: Want)
    requires m.visibility == EXTERNAL_IP && GetSecrets(m.objects, IngressTLSFor(ing, EXTERNAL_IP)) == Some(m.origins)
    requires Enumerates(m.order, m.origins.Keys) && k in m.order && Keys(env, ing) == Some([key])
    requires key.namespace != m.origins[k].namespace
    requires copy == CopyOf(m.origins[k], m.naming(m.origins[k]), key.namespace)
    ensures MadeIn(env, ing, m, copy)
  {
    assert key in [key];
  }

  /** It is the copy that a pass of that Ingress makes. */
  lemma CopyIsMade(env: Env, name: string, data: Labels)
    requires UsualCluster(env.lib) && NewIstioFromConfigMap(env.lib, map[]) == Some(env.config)
    ensures MadeIn(env, Secured(name), OneMaking(name, data), CopyFor(name, data))
  {
    OneEntryUsed(name);
    OneEntryFound(data);
    BuiltinKeys(env, Secured(name));
    MadeFrom(env, Secured(name), OneMaking(name, data), "n/s", BuiltinKey(), CopyFor(name, data));
  }

  lemma NoMeshHosts(lib: Library)
    ensures LocalHosts(lib, RuleHosts(TwoRules())) == {}
  {
    assert |LocalSuffix(lib.domain)| >= 5;
  }

  /** Over a table with nothing but secrets, both passes succeed. */
  lemma BothModesSucceed(env: Env, f: Faults, w: World, o: Orders, o': Orders, l: Listing)
    requires NoFaults(f) && Fair(o) && FairListing(l) && NewIstioFromConfigMap(env.lib, map[]) == Some(env.config)
    requires forall r :: r in w.objects ==> r.kind != VirtualServiceKind
    ensures var mid := GatewayPass(env, f, w, TwoRules(), o);
            mid.outcome == Done && MeshOnlyPass(env, f, mid.world, TwoRules(), o', l).outcome == Done
  {
    TwoRulesSucceed(env, map[], f, w, o);
    NoMeshHosts(env.lib);
    MeshOnlySucceedsByInputs(env, f, GatewayPass(env, f, w, TwoRules(), o).world, TwoRules(), o', l);
  }

  lemma LeftCopyStays(env: Env, f: Faults, o: Orders, o': Orders, l: Listing, data: Labels)
    requires NoFaults(f) && Fair(o) && FairListing(l) && NewIstioFromConfigMap(env.lib, map[]) == Some(env.config)
    ensures var mid := GatewayPass(env, f, CopyAlone("i", data), TwoRules(), o);
            var end := MeshOnlyPass(env, f, mid.world, TwoRules(), o', l);
            mid.outcome == Done && end.outcome == Done && CopyFor("i", data).ref in end.world.objects
  {
    var w, r := CopyAlone("i", data), CopyFor("i", data).ref;
    BothModesSucceed(env, f, w, o, o', l);
    NoTLSAtAll(TwoRules(), EXTERNAL_IP);
    NoTLSAtAll(TwoRules(), CLUSTER_LOCAL);
    assert HoldsCopy(w.objects, r, OneSecret(data));
    CopyReclaimedExactly(env, f, w, TwoRules(), o, o', l, r, OneSecret(data));
  }

  /** The TLS entries of an Ingress are taken away. A pass with gateways succeeds, and so does one after the switch
      to mesh-only, and the copy that was made for it before is still there. */
  lemma EmptiedIngressLeavesCopy(env: Env, f: Faults, o: Orders, o': Orders, l: Listing, data: Labels)
    requires NoFaults(f) && Fair(o) && FairListing(l)
    requires UsualCluster(env.lib) && NewIstioFromConfigMap(env.lib, map[]) == Some(env.config)
    ensures MadeIn(env, Secured("i"), OneMaking("i", data), CopyFor("i", data))
    ensures TwoRules() == Secured("i").(tls := [])
    ensures var mid := GatewayPass(env, f, CopyAlone("i", data), TwoRules(), o);
            var end := MeshOnlyPass(env, f, mid.world, TwoRules(), o', l);
            mid.outcome == Done && end.outcome == Done && CopyFor("i", data).ref in end.world.objects
  {
    CopyIsMade(env, "i", data);
    LeftCopyStays(env, f, o, o', l, data);
  }

  // ---------------------------------------------------------------- two Ingresses that name one secret

  lemma NoGatewaysToFinalize(f: Faults, w: World, ing: Ingress, gws: seq<GatewayConfig>)
    requires NoFaults(f) && forall r :: r in w.objects ==> r.kind.SecretKind?
    ensures FinalizeGateways(f, w, ing, gws).outcome == Done
    ensures FinalizeGateways(f, w, ing, gws).world.objects == w.objects
  {
    var after := FinalizeGateways(f, w, ing, gws).world.objects;
    forall r ensures SameAt(w.objects, after, r) {
      FinalizeGatewaysEffect(f, w, ing, gws, r);
    }
    FinalizeGatewaysEffect(f, w, ing, gws, Ref(SecretKind, "", ""));
  }

  lemma CleanupTakesShared(env: Env, f: Faults, w: World, l: Listing, data: Labels)
    requires NoFaults(f) && FairListing(l) && Keys(env, Secured("a")) == Some([BuiltinKey()])
    requires w.objects == CopyAlone("b", data).objects && AnyTLS(Secured("a"))
    ensures CopyFor("b", data).ref !in CleanupCertificateSecrets(env, f, w, Secured("a"), l).world.objects
  {
    var ing, copy := Secured("a"), CopyFor("b", data);
    GatewaySweepExactly(f, w, ing.tls, Keys(env, ing), l);
    assert HoldsCopy(w.objects, copy.ref, OneSecret(data));
    GatewayCleanupSparesExactly(env, f, w, ing, l, copy.ref, OneSecret(data));
    assert OneEntry() in ing.tls && SameOriginLabels(OneEntry(), OneSecret(data)) && BuiltinKey() in [BuiltinKey()];
  }

  lemma FinalizingTakesShared(env: Env, f: Faults, l: Listing, data: Labels)
    requires NoFaults(f) && FairListing(l) && GatewaysEnabled(env.config)
    requires Keys(env, Secured("a")) == Some([BuiltinKey()])
    ensures CopyFor("b", data).ref !in FinalizeKind(env, f, CopyAlone("b", data), Secured("a"), l).world.objects
  {
    var w, ing := CopyAlone("b", data), Secured("a");
    OneEntryUsed("a");
    NoGatewaysToFinalize(f, w, ing, AllConfigured(env.config));
    CleanupTakesShared(env, f, FinalizeGateways(f, w, ing, AllConfigured(env.config)).world, l, data);
  }

  /** Two Ingresses that differ in their names use one secret. Finalizing the one takes the copy of the other away. */
  lemma SharedSecretLosesCopy(env: Env, f: Faults, l: Listing, data: Labels)
    requires NoFaults(f) && FairListing(l)
    requires UsualCluster(env.lib) && NewIstioFromConfigMap(env.lib, map[]) == Some(env.config)
    ensures MadeIn(env, Secured("b"), OneMaking("b", data), CopyFor("b", data))
    ensures CopyFor("b", data).ref !in FinalizeKind(env, f, CopyAlone("b", data), Secured("a"), l).world.objects
  {
    CopyIsMade(env, "b", data);
    EmptyConfigAccepted(env.lib);
    BuiltinKeys(env, Secured("a"));
    FinalizingTakesShared(env, f, l, data);
  }

  // ---------------------------------------------------------------- a path that matches on the probe's header

  /** A public rule whose only path asks for another value of the header. */
  function AskingRules(): seq<IngressRule> {
    [IngressRule(["h"], EXTERNAL_IP, Some([IngressPath("", "", map[HASH_KEY := "x"], [], map[])]))]
  }

  function AskingProbe(): Request {
    Request("g", "h", "/healthz", map[HASH_KEY := HASH_OVERRIDE])
  }

  function OneGateway(): GatewayNames {
    map[EXTERNAL_IP := {"g"}]
  }

  /** By the rules nothing takes the probe; the service compiled from the probed rules answers it, with the hash. */
  lemma AskedHeaderIsIgnored(domain: string, hash: string)
    ensures !LeavesProbeHeader(AskingRules())
    ensures FirstSource(domain, Configured(OneGateway()), {"h"}, AskingRules(), AskingProbe()) == None
    ensures var spec := SpecOf(domain, ProbedRules(AskingRules(), hash), OneGateway(), {"h"});
            var found := FirstMatch(spec.gateways, spec.http, AskingProbe());
            found.Some? && found.value.headers.Some? && Get(found.value.headers.value, HASH_KEY) == hash
  {
    var rules, r, reach := AskingRules(), AskingProbe(), Configured(OneGateway());
    AskingRuleRefuses(domain);
    AskingRuleTaken(domain);
    assert EveryServedRuleHasGateways(rules, OneGateway(), {"h"});
    ProbedServiceDecides(domain, rules, OneGateway(), {"h"}, hash, r);
    var found := FirstSource(domain, reach, {"h"}, UnmarkedRules(rules), r);
    TaggedRoute(domain, OneGateway(), {"h"}, found.value, hash, true);
  }

  lemma AskingRuleRefuses(domain: string)
    ensures !LeavesProbeHeader(AskingRules())
    ensures FirstSource(domain, Configured(OneGateway()), {"h"}, AskingRules(), AskingProbe()) == None
  {
    var rules, r := AskingRules(), AskingProbe();
    var rule := rules[0];
    var p := rule.Paths()[0];
    assert rule in rules && p in rule.Paths();
    assert HASH_KEY in p.headers && p.headers[HASH_KEY] == "x" && r.headers[HASH_KEY] == HASH_OVERRIDE;
    assert "x"[0] != HASH_OVERRIDE[0];
    assert !HeadersAccept(p.headers, r.headers);
    OnePathRefuses(domain, Configured(OneGateway()), {"h"}, rule, r);
  }

  lemma OnePathRefuses(domain: string, reach: string -> set<string>, hosts: set<string>, rule: IngressRule, r: Request)
    requires |rule.Paths()| == 1 && !HeadersAccept(rule.Paths()[0].headers, r.headers)
    ensures FirstSource(domain, reach, hosts, [rule], r) == None
  {
    assert rule.Paths()[1..] == [];
    assert FirstPath(domain, reach, hosts, rule, rule.Paths(), r) == None;
    assert [rule][1..] == [];
  }

  lemma AskingRuleTaken(domain: string)
    ensures FirstSource(domain, Configured(OneGateway()), {"h"}, UnmarkedRules(AskingRules()), AskingProbe()).Some?
  {
    var rules, r := AskingRules(), AskingProbe();
    var rule := rules[0];
    var p := rule.Paths()[0];
    assert rule in rules && p in rule.Paths();
    assert Unmarked(p).headers == map[];
    assert "h" in rule.hosts && "h" in {"h"} && HasPrefix("h", HostPrefix(domain, "h"));
    assert SourceAccepts(domain, Configured(OneGateway()), {"h"}, rule, Unmarked(p), r);
    SourceTaken(domain, Configured(OneGateway()), {"h"}, rules, r);
  }

  // ---------------------------------------------------------------- reconciled, and never finalized

  /** One cluster-local rule with TLS. */
  function LocalOnly(): Ingress {
    Ingress("n", "i", "u", map[], map[CLASS_ANNOTATION := ISTIO_CLASS], [IngressTLS(["l"], "s", "n")],
            [IngressRule(["l"], CLUSTER_LOCAL, OnePath())], "Enabled")
  }

  lemma LocalOnlyTLS()
    ensures LocalTLS(LocalOnly()) && !OwnHTTPServer(LocalOnly())
  {
    var ing := LocalOnly();
    assert EXTERNAL_IP[0] != CLUSTER_LOCAL[0];
    assert Covering(ing.tls, ["l"]) == [IngressTLS(["l"], "s", "n")];
    assert forall rule :: rule in ing.rules ==> rule == ing.rules[0];
  }

  lemma ShortServicesSelected(env: Env, labels: Labels)
    requires NewIstioFromConfigMap(env.lib, ShortServices()) == Some(env.config)
    ensures GatewaysFromContext(env.lib, env.config, labels).Some?
    ensures GatewayConfig("n", "g", "gw", None) in GatewaysFromContext(env.lib, env.config, labels).value.external
  {
    ShortServicesAccepted(env.lib);
    WithoutSelectors(env.lib, env.config.ingressGateways, labels);
    WithoutSelectors(env.lib, env.config.localGateways, labels);
  }

  lemma ShortServiceSelected(env: Env, labels: Labels)
    requires NewIstioFromConfigMap(env.lib, ShortServices()) == Some(env.config)
    ensures GatewaysFromContext(env.lib, env.config, labels).Some?
    ensures exists g :: g in GatewaysFromContext(env.lib, env.config, labels).value.external && !TwoDots(g.serviceURL)
  {
    ShortServicesSelected(env, labels);
    ShortServiceIsValid(env.lib, GatewayConfig("n", "g", "gw", None));
  }

  /** With gateway services named without their namespace, where cluster-local TLS is not acted on: a pass over an
      empty table succeeds, and finalizing fails whatever the table is by then. */
  lemma ShortServicesNeverFinalize(env: Env, f: Faults, later: World, o: Orders, l: Listing)
    requires NoFaults(f) && Fair(o) && FairListing(l) && !env.localTLS
    requires NewIstioFromConfigMap(env.lib, ShortServices()) == Some(env.config)
    ensures GatewayPass(env, f, World(map[], 0, []), LocalOnly(), o).outcome == Done
    ensures FinalizeKind(env, f, later, LocalOnly(), l).outcome != Done
  {
    var ing, w := LocalOnly(), World(map[], 0, []);
    ShortServiceSelected(env, ing.labels);
    LocalOnlyTLS();
    NoServicesNoneForeign(env, w.objects, ing, o);
    ReconciledNeverFinalizedExactly(env, ShortServices(), f, w, later, ing, o, l);
  }

  // ---------------------------------------------------------------- two gateway services with one checksum

  /** Two external gateways and a cluster-local one, in the old format. */
  function TwoExternal(): Labels {
    map["gateway.n.a" := ServiceURL("aca"), "gateway.n.b" := ServiceURL("bab"), "local-gateway.n.l" := ServiceURL("l")]
  }

  function ServiceURL(service: string): string {
    service + ['.'] + ("n" + ['.'] + "svc")
  }

  function ExternalA(): GatewayConfig {
    GatewayConfig("n", "a", ServiceURL("aca"), None)
  }

  function ExternalB(): GatewayConfig {
    GatewayConfig("n", "b", ServiceURL("bab"), None)
  }

  function LocalL(): GatewayConfig {
    GatewayConfig("n", "l", ServiceURL("l"), None)
  }

  /** A name after a prefix is what a key that starts with it goes on with. */
  lemma AfterPrefix(prefix: string, n: string, key: string, rest: string)
    requires key == prefix + rest
    ensures prefix + n == key <==> n == rest
  {
    assert (prefix + n)[|prefix|..] == n && key[|prefix|..] == rest;
  }

  lemma ExternalNames()
    ensures NamesAfter(TwoExternal().Keys, GATEWAY_PREFIX) == {"n.a", "n.b"}
  {
    forall n ensures n in NamesAfter(TwoExternal().Keys, GATEWAY_PREFIX) <==> n in {"n.a", "n.b"} {
      NamesAfterExactly(TwoExternal().Keys, GATEWAY_PREFIX, n);
      AfterPrefix(GATEWAY_PREFIX, n, "gateway.n.a", "n.a");
      AfterPrefix(GATEWAY_PREFIX, n, "gateway.n.b", "n.b");
      assert (GATEWAY_PREFIX + n)[0] == 'g' && "local-gateway.n.l"[0] == 'l';
    }
  }

  lemma ExternalParsed(lib: Library)
    ensures OldGateways(lib, TwoExternal(), GATEWAY_PREFIX) == [ExternalA(), ExternalB()]
  {
    var urls := OldUrls(TwoExternal(), GATEWAY_PREFIX);
    ExternalNames();
    assert "n.a" == "n" + ['.'] + "a" && "n.b" == "n" + ['.'] + "b";
    assert LexLe("n.a", "n.b");
    SortedPair("n.a", "n.b");
    assert GATEWAY_PREFIX + "n.a" == "gateway.n.a" && GATEWAY_PREFIX + "n.b" == "gateway.n.b";
    PairOfGateways(lib, urls);
  }

  lemma PairOfGateways(lib: Library, urls: Labels)
    requires Get(urls, "n" + ['.'] + "a") == ServiceURL("aca") && Get(urls, "n" + ['.'] + "b") == ServiceURL("bab")
    ensures OldList(lib, ["n" + ['.'] + "a", "n" + ['.'] + "b"], urls) == [ExternalA(), ExternalB()]
  {
    OldGatewayNamed(lib, "n", "a", ServiceURL("aca"));
    OldGatewayNamed(lib, "n", "b", ServiceURL("bab"));
  }

  lemma LocalParsed(lib: Library)
    ensures OldGateways(lib, TwoExternal(), LOCAL_GATEWAY_PREFIX) == [LocalL()]
  {
    assert LOCAL_GATEWAY_PREFIX + ("n" + ['.'] + "l") == "local-gateway.n.l";
    DifferAt("gateway.n.a", LOCAL_GATEWAY_PREFIX, 0);
    DifferAt("gateway.n.b", LOCAL_GATEWAY_PREFIX, 0);
    OneOldGateway(lib, TwoExternal(), LOCAL_GATEWAY_PREFIX, "n", "l");
  }

  lemma TwoExternalAccepted(lib: Library)
    ensures NewIstioFromConfigMap(lib, TwoExternal()) == Some(IstioConfig([ExternalA(), ExternalB()], [LocalL()]))
  {
    ExternalParsed(lib);
    LocalParsed(lib);
    TwoExternalValid(lib);
    OnlyOldFormat();
    OldFormatAccepted(lib, TwoExternal(), [ExternalA(), ExternalB()], [LocalL()]);
  }

  lemma ThreeValid(lib: Library, a: GatewayConfig, b: GatewayConfig, l: GatewayConfig)
    requires ValidGateway(lib, a) && ValidGateway(lib, b) && ValidGateway(lib, l)
    ensures ValidConfig(lib, IstioConfig([a, b], [l]))
  {
  }

  lemma ServiceGatewayValid(lib: Library, name: string, service: string)
    requires name != "" && IsLowerLabel(service) && |service| <= 200
    ensures ValidGateway(lib, GatewayConfig("n", name, ServiceURL(service), None))
  {
    ThreeLabels(service, "n", "svc", ServiceURL(service));
  }

  lemma ExternalAValid(lib: Library)
    ensures ValidGateway(lib, ExternalA())
  {
    ServiceGatewayValid(lib, "a", "aca");
  }

  lemma ExternalBValid(lib: Library)
    ensures ValidGateway(lib, ExternalB())
  {
    ServiceGatewayValid(lib, "b", "bab");
  }

  lemma LocalLValid(lib: Library)
    ensures ValidGateway(lib, LocalL())
  {
    ServiceGatewayValid(lib, "l", "l");
  }

  lemma TwoExternalValid(lib: Library)
    ensures ValidConfig(lib, IstioConfig([ExternalA(), ExternalB()], [LocalL()]))
  {
    ExternalAValid(lib);
    ExternalBValid(lib);
    LocalLValid(lib);
    ThreeValid(lib, ExternalA(), ExternalB(), LocalL());
  }

  lemma OnlyOldFormat()
    ensures OldFormatDefined(TwoExternal()) && !NewFormatDefined(TwoExternal())
  {
    assert "gateway.n.a" in TwoExternal() && HasPrefix("gateway.n.a", GATEWAY_PREFIX);
    assert EXTERNAL_GATEWAYS_KEY[0] == 'e' && |LOCAL_GATEWAYS_KEY| == 14 && |"local-gateway.n.l"| == 17;
    assert LOCAL_GATEWAYS_KEY[0] == 'l' && "gateway.n.a"[0] == 'g' && "gateway.n.b"[0] == 'g'
           && "local-gateway.n.l"[0] == 'l';
  }

  function KeyA(): ServiceKey {
    ServiceKey("n", "aca")
  }

  function KeyB(): ServiceKey {
    ServiceKey("n", "bab")
  }

  lemma TwoServices(a: GatewayConfig, b: GatewayConfig, k: ServiceKey, m: ServiceKey)
    requires ParseServiceURL(a.serviceURL) == Some(k) && ParseServiceURL(b.serviceURL) == Some(m)
    ensures ParseServices([a, b]) == Some([k, m])
  {
    var both := [a, b];
    OneService(a, k);
    assert both[..|both| - 1] == [a];
    assert [k] + [m] == [k, m];
  }

  lemma BothKeys()
    ensures ParseServices([ExternalA(), ExternalB()]) == Some([KeyA(), KeyB()])
  {
    NamedService("aca", "n", "svc");
    NamedService("bab", "n", "svc");
    TwoServices(ExternalA(), ExternalB(), KeyA(), KeyB());
  }

  /** The checksums that stand for the two services in the names of Gateways are the same. */
  lemma SameChecksum()
    ensures GatewayServiceChecksum(EXTERNAL_IP, KeyA()) == GatewayServiceChecksum(EXTERNAL_IP, KeyB())
  {
    AdlerOfFive('n', '/', 'a', 'c', 'a', 110, 157, 254, 353, 450);
    AdlerOfFive('n', '/', 'b', 'a', 'b', 110, 157, 255, 352, 450);
    assert "n" + "/" + "aca" == ['n'] + ['/'] + ['a'] + ['c'] + ['a'];
    assert "n" + "/" + "bab" == ['n'] + ['/'] + ['b'] + ['a'] + ['b'];
    assert EXTERNAL_IP[0] != CLUSTER_LOCAL[0];
  }

  /** One public rule that redirects to HTTPS, so that there are Gateways of its own with an HTTP server. */
  function Redirecting(): Ingress {
    Ingress("n", "i", "u", map[], map[CLASS_ANNOTATION := ISTIO_CLASS], [],
            [IngressRule(["h"], EXTERNAL_IP, OnePath())], HTTP_REDIRECTED)
  }

  lemma CollidingServices(env: Env)
    requires NewIstioFromConfigMap(env.lib, TwoExternal()) == Some(env.config)
    requires KeyA() in env.services && KeyB() in env.services
    ensures GatewaysFromContext(env.lib, env.config, Redirecting().labels).Some?
    ensures Services(env, Redirecting()) ==
            Some([GatewayService(KeyA(), env.services[KeyA()]), GatewayService(KeyB(), env.services[KeyB()])])
  {
    TwoExternalAccepted(env.lib);
    BothKeys();
    KeysOfOne(env.lib, [ExternalA(), ExternalB()], [LocalL()], Redirecting().labels, [KeyA(), KeyB()]);
    ResolvePair(env.services, KeyA(), KeyB());
  }

  lemma ResolvePair(services: map<ServiceKey, Labels>, a: ServiceKey, b: ServiceKey)
    requires a in services && b in services
    ensures ResolveServices([a, b], services) == Some([GatewayService(a, services[a]), GatewayService(b, services[b])])
  {
    var both := [a, b];
    assert both[0] == a && both[1] == b;
    assert forall k :: k in both ==> k == a || k == b;
    var found := ResolveServices(both, services).value;
    assert found == [found[0], found[1]];
  }

  lemma RedirectingHasServer()
    ensures OwnHTTPServer(Redirecting()) && !ExternalTLS(Redirecting()) && !LocalTLS(Redirecting())
  {
    var ing := Redirecting();
    assert ing.rules[0] in ing.rules && IsPublic(ing);
    NoTLSAtAll(ing, EXTERNAL_IP);
    NoTLSAtAll(ing, CLUSTER_LOCAL);
  }

  lemma RedirectingSucceeds(env: Env, f: Faults, o: Orders)
    requires NoFaults(f) && Fair(o) && NewIstioFromConfigMap(env.lib, TwoExternal()) == Some(env.config)
    requires KeyA() in env.services && KeyB() in env.services
    ensures GatewayPass(env, f, World(map[], 0, []), Redirecting(), o).outcome == Done
  {
    CollidingServices(env);
    RedirectingHasServer();
    NoServicesNoneForeign(env, map[], Redirecting(), o);
    ReconciliationSucceedsExactly(env, f, World(map[], 0, []), Redirecting(), o);
  }

  /** Two Gateways under one key that ask for different selectors. */
  lemma GatewaysContradict(ing: Ingress, server: Server, a: GatewayService, b: GatewayService, wants: seq<Want>)
    requires GatewayServiceChecksum(EXTERNAL_IP, a.key) == GatewayServiceChecksum(EXTERNAL_IP, b.key)
    requires a.selector != b.selector
    requires forall g :: g in ExternalGateways(ing, [server], [a, b]) ==> g in wants
    ensures !Agreeing(wants)
  {
    var gateways := ExternalGateways(ing, [server], [a, b]);
    assert gateways[0] in wants && gateways[1] in wants;
    assert gateways[0].ref == gateways[1].ref && gateways[0].obj.body != gateways[1].obj.body;
    assert Differs(gateways[0].obj, gateways[1].obj);
  }

  lemma PlanContradicts(env: Env, o: Orders)
    requires Fair(o) && NewIstioFromConfigMap(env.lib, TwoExternal()) == Some(env.config)
    requires KeyA() in env.services && KeyB() in env.services && env.services[KeyA()] != env.services[KeyB()]
    requires PlanPass(env, map[], Redirecting(), o).Some?
    ensures !Agreeing(PlanPass(env, map[], Redirecting(), o).value.Unowned())
  {
    var ing := Redirecting();
    CollidingServices(env);
    RedirectingHasServer();
    SameChecksum();
    PlanMembers(env, map[], ing, o);
    GatewaysContradict(ing, HTTPServer(ing.httpOption, SortedList(PublicHosts(ing))),
                       GatewayService(KeyA(), env.services[KeyA()]), GatewayService(KeyB(), env.services[KeyB()]),
                       PlanPass(env, map[], ing, o).value.Unowned());
  }

  /** The Gateways for the two services have one name and displace each other: after a successful pass the next one,
      which is given the same, is not quiet. */
  lemma CollidingServicesNeverQuiet(env: Env, f: Faults, f': Faults, o: Orders, o': Orders)
    requires NoFaults(f) && Fair(o) && Fair(o') && NewIstioFromConfigMap(env.lib, TwoExternal()) == Some(env.config)
    requires KeyA() in env.services && KeyB() in env.services && env.services[KeyA()] != env.services[KeyB()]
    ensures var one := GatewayPass(env, f, World(map[], 0, []), Redirecting(), o);
            one.outcome == Done && GatewayPass(env, f', one.world, Redirecting(), o') != Step(one.world, Done)
  {
    var w := World(map[], 0, []);
    RedirectingSucceeds(env, f, o);
    assert Redirecting().tls == [];
    SecondPassQuietExactly(env, f, f', w, Redirecting(), o, o');
    PlanContradicts(env, o);
  }

  // --------------------------------------------------------- a host in the cluster's domain, but not in its "svc" part

  function OutsideHost(domain: string): string {
    "a" + ("." + domain)
  }

  /** One public rule for such a host. */
  function OutsideSvc(domain: string): Ingress {
    Ingress("n", "i", "u", map[], map[CLASS_ANNOTATION := ISTIO_CLASS], [],
            [IngressRule([OutsideHost(domain)], EXTERNAL_IP, OnePath())], "Enabled")
  }

  lemma OutsideForms(domain: string)
    ensures ShortForms(domain, OutsideHost(domain)) == {OutsideHost(domain), "a"}
    ensures HostPrefix(domain, OutsideHost(domain)) == OutsideHost(domain)
  {
    var host := OutsideHost(domain);
    assert host[..1] == "a" && host[1..] == "." + domain;
    assert |LocalSuffix(domain)| > |host|;
  }

  /** The gateways of the rule are listed under the short form, and it is the least. */
  lemma OutsideListed(domain: string)
    ensures RuleHosts(OutsideSvc(domain)) == {OutsideHost(domain)}
    ensures "a" in ExpandedHosts(domain, {OutsideHost(domain)})
    ensures Least(ExpandedHosts(domain, {OutsideHost(domain)})) == "a"
  {
    var rules, forms := OutsideSvc(domain).rules, ExpandedHosts(domain, {OutsideHost(domain)});
    assert rules[0] in rules && OutsideHost(domain) in rules[0].hosts;
    assert forall rule :: rule in rules ==> rule == rules[0];
    OutsideForms(domain);
    SingleLabelIsValid("a");
    assert "a" in forms && forall e :: e in forms ==> e == OutsideHost(domain) || e == "a";
    assert HasPrefix(OutsideHost(domain), "a");
    PrefixIsLexLe("a", OutsideHost(domain));
    PrefixIsLexLe("a", "a");
    LeastUnique(Least(forms), "a", forms);
  }

  lemma OutsideUntaken(domain: string, reach: string -> set<string>, hosts: set<string>, r: Request)
    requires r.authority == "a:80"
    ensures !Taken(domain, reach, hosts, OutsideSvc(domain).rules, r)
  {
    OutsideForms(domain);
    var rules, host := OutsideSvc(domain).rules, OutsideHost(domain);
    assert host[1] == '.' && r.authority[1] == ':';
    forall rule, p | rule in rules && p in rule.Paths()
      ensures !SourceAccepts(domain, reach, hosts, rule, Unmarked(p), r)
    {
      assert rule == rules[0];
      assert !HasPrefix(r.authority, host);
    }
  }

  lemma OutsideIsRouted(env: Env, f: Faults, o: Orders)
    requires NoFaults(f) && Fair(o) && UsualCluster(env.lib)
    requires NewIstioFromConfigMap(env.lib, map[]) == Some(env.config)
    ensures GatewayPass(env, f, World(map[], 0, []), OutsideSvc(env.lib.domain), o).outcome == Done
    ensures RequiredGatewayCount(OutsideSvc(env.lib.domain),
                                 RoutedOn(env, f, World(map[], 0, []), OutsideSvc(env.lib.domain), o)) > 0
  {
    var ing, w := OutsideSvc(env.lib.domain), World(map[], 0, []);
    assert ing.httpOption[0] != HTTP_REDIRECTED[0];
    PlainSucceeds(env, map[], f, w, ing, o);
    EmptyConfigAccepted(env.lib);
    assert ing.rules[0] in ing.rules && HasGatewayFor(env, ing, ing.rules[0].visibility);
    GatewayServiceMadeExactly(env, map[], f, w, ing, o);
  }

  /** With the built-in gateways a pass over an empty table succeeds. The gateway is probed under the short form of
      the host, as OutsideListed says, and the stored service does not answer. */
  lemma ShortNameUnanswered(env: Env, f: Faults, o: Orders, r: Request) returns (spec: VirtualServiceSpec)
    requires NoFaults(f) && Fair(o) && UsualCluster(env.lib)
    requires NewIstioFromConfigMap(env.lib, map[]) == Some(env.config)
    requires IsProbe(r) && r.authority == "a:80"
    ensures var ing := OutsideSvc(env.lib.domain);
            var one := GatewayPass(env, f, World(map[], 0, []), ing, o);
            && one.outcome == Done && StoredAs(env.lib, one.world.objects, ing, IngressName(env.lib, ing), spec)
            && !AnswersWithHash(env.lib, spec, ing, r)
  {
    var ing, w := OutsideSvc(env.lib.domain), World(map[], 0, []);
    OutsideIsRouted(env, f, o);
    spec := ProbeAnsweredExactly(env, f, w, ing, o, r);
    OutsideUntaken(env.lib.domain, Reach(spec.gateways, RoutedOn(env, f, w, ing, o)), GatewayHosts(env.lib, ing), r);
  }

  // ---------------------------------------------------------------- two Ingresses with long names

  /** A name of 62 characters, of which only the last is given. */
  function LongName(last: char): string {
    seq(61, i => 'a') + [last]
  }

  /** One public rule for the host, with redirection. */
  function LongNamed(last: char, host: string, uid: string): Ingress {
    Redirecting().(name := LongName(last), uid := uid, rules := [IngressRule([host], EXTERNAL_IP, OnePath())])
  }

  lemma LongNamesMeet(last: char, last': char, s: ServiceKey)
    requires 'a' <= last <= 'z' && 'a' <= last' <= 'z'
    ensures IsDns1123Label(LongName(last)) && IsDns1123Label(LongName(last'))
    ensures GatewayName(LongName(last), EXTERNAL_IP, s) == GatewayName(LongName(last'), EXTERNAL_IP, s)
  {
    var a, b := LongName(last), LongName(last');
    assert IsDns1123Label(a) && IsDns1123Label(b);
    LabelNamesMeetExactly(a, EXTERNAL_IP, s, b, EXTERNAL_IP, s);
  }

  lemma LongNamedServer(last: char, host: string, uid: string)
    ensures var ing := LongNamed(last, host, uid);
            && OwnHTTPServer(ing) && !ExternalTLS(ing) && !LocalTLS(ing) && SortedList(PublicHosts(ing)) == [host]
  {
    var ing := LongNamed(last, host, uid);
    assert ing.rules[0] in ing.rules && IsPublic(ing) && host in ing.rules[0].hosts;
    NoTLSAtAll(ing, EXTERNAL_IP);
    NoTLSAtAll(ing, CLUSTER_LOCAL);
    assert forall rule :: rule in ing.rules ==> rule == ing.rules[0];
    assert PublicHosts(ing) == {host};
    var hosts := {host};
    assert Least(hosts) == host && hosts - {host} == {};
  }

  function DefaultService(env: Env): GatewayService
    requires BuiltinKey() in env.services
  {
    GatewayService(BuiltinKey(), env.services[BuiltinKey()])
  }

  /** The one Gateway of such an Ingress. */
  function LongGateway(env: Env, last: char, host: string, uid: string): Want
    requires BuiltinKey() in env.services
  {
    IngressGateway(LongNamed(last, host, uid), EXTERNAL_IP, DefaultService(env), [HTTPServer(HTTP_REDIRECTED, [host])])
  }

  lemma BuiltinServices(env: Env, ing: Ingress)
    requires UsualCluster(env.lib) && NewIstioFromConfigMap(env.lib, map[]) == Some(env.config)
    requires BuiltinKey() in env.services
    ensures Services(env, ing) == Some([DefaultService(env)])
  {
    BuiltinKeys(env, ing);
    var keys := [BuiltinKey()];
    assert keys[0] == BuiltinKey() && forall k :: k in keys ==> k == BuiltinKey();
    var found := ResolveServices(keys, env.services).value;
    assert found == [found[0]];
  }

  lemma LongPlan(env: Env, objects: Objects, last: char, host: string, uid: string, o: Orders)
    requires Fair(o) && UsualCluster(env.lib) && NewIstioFromConfigMap(env.lib, map[]) == Some(env.config)
    requires BuiltinKey() in env.services
    ensures Makeable(env, objects, LongNamed(last, host, uid), o)
    ensures UnownedOf(env, objects, LongNamed(last, host, uid), o) == [LongGateway(env, last, host, uid)]
  {
    var ing := LongNamed(last, host, uid);
    LongNamedServer(last, host, uid);
    SelectionIsTotal(env.lib, map[], ing.labels);
    BuiltinServices(env, ing);
    MakeableWith(env, objects, ing, o);
    LongGateways(env, objects, last, host, uid, o);
  }

  /** All that an Ingress with redirection and without TLS needs. */
  lemma MakeableWith(env: Env, objects: Objects, ing: Ingress, o: Orders)
    requires Fair(o) && GatewaysFromContext(env.lib, env.config, ing.labels).Some? && Services(env, ing).Some?
    requires !ExternalTLS(ing) && !LocalTLS(ing) && forall rule :: rule in ing.rules ==> rule.http.Some?
    ensures Makeable(env, objects, ing, o)
  {
    PlannedExactly(env, objects, ing, o);
    ServicesMadeExactly(env.lib, ing, PlanPass(env, objects, ing, o).value.names);
  }

  lemma LongGateways(env: Env, objects: Objects, last: char, host: string, uid: string, o: Orders)
    requires Fair(o) && BuiltinKey() in env.services && PlanPass(env, objects, LongNamed(last, host, uid), o).Some?
    requires Services(env, LongNamed(last, host, uid)) == Some([DefaultService(env)])
    ensures PlanPass(env, objects, LongNamed(last, host, uid), o).value.Unowned() ==
            [LongGateway(env, last, host, uid)]
  {
    var ing := LongNamed(last, host, uid);
    LongNamedServer(last, host, uid);
    var plan := PlanPass(env, objects, ing, o).value;
    assert plan.gateways == ExternalGateways(ing, [HTTPServer(HTTP_REDIRECTED, [host])], [DefaultService(env)]);
    assert plan.gateways == [plan.gateways[0]];
  }

  lemma LongPassPuts(env: Env, f: Faults, w: World, last: char, host: string, uid: string, o: Orders)
    requires NoFaults(f) && Fair(o) && UsualCluster(env.lib) && BuiltinKey() in env.services
    requires NewIstioFromConfigMap(env.lib, map[]) == Some(env.config)
    ensures var g := LongGateway(env, last, host, uid);
            var after := GatewayPass(env, f, w, LongNamed(last, host, uid), o).world.objects;
            g.ref in after && after[g.ref] == Put(w.objects, g)
  {
    LongPlan(env, w.objects, last, host, uid, o);
    OnlyOnePut(env, f, w, LongNamed(last, host, uid), o, LongGateway(env, last, host, uid));
  }

  /** The second Gateway takes the place of the first, and keeps its owner. */
  lemma GatewayReplaced(objects: Objects, a: Ingress, b: Ingress, s: GatewayService, mine: seq<Server>,
                        others: seq<Server>)
    requires a.namespace == b.namespace
    requires GatewayName(a.name, EXTERNAL_IP, s.key) == GatewayName(b.name, EXTERNAL_IP, s.key)
    requires var u := IngressGateway(a, EXTERNAL_IP, s, mine); u.ref in objects && objects[u.ref] == u.obj
    ensures var u, v := IngressGateway(a, EXTERNAL_IP, s, mine), IngressGateway(b, EXTERNAL_IP, s, others);
            && u.ref == v.ref && ControlledBy(Put(objects, v), a.uid)
            && Put(objects, v).body == GatewayBody(GatewaySpec(s.selector, others))
  {
  }

  /** Two Ingresses of one namespace, with valid names and the built-in gateways. The pass of the first puts a Gateway
      in place that serves its host. The pass of the second then has it serve the host of the second alone, though
      it goes on belonging to the first. */
  lemma LongNamesOverwrite(env: Env, f: Faults, w: World, o: Orders, o': Orders)
    requires NoFaults(f) && Fair(o) && Fair(o') && UsualCluster(env.lib) && BuiltinKey() in env.services
    requires NewIstioFromConfigMap(env.lib, map[]) == Some(env.config) && w == World(map[], 0, [])
    ensures var one := GatewayPass(env, f, w, LongNamed('b', "h", "u"), o).world;
            var two := GatewayPass(env, f, one, LongNamed('c', "k", "v"), o').world.objects;
            var g := LongGateway(env, 'b', "h", "u");
            && IsDns1123Label(LongName('b')) && IsDns1123Label(LongName('c'))
            && g.ref in one.objects && one.objects[g.ref] == g.obj
            && g.ref in two && ControlledBy(two[g.ref], "u")
            && two[g.ref].body == GatewayBody(GatewaySpec(DefaultService(env).selector,
                                                          [HTTPServer(HTTP_REDIRECTED, ["k"])]))
  {
    var one := GatewayPass(env, f, w, LongNamed('b', "h", "u"), o).world;
    LongPassPuts(env, f, w, 'b', "h", "u", o);
    LongPassPuts(env, f, one, 'c', "k", "v", o');
    LongNamesMeet('b', 'c', BuiltinKey());
    GatewayReplaced(one.objects, LongNamed('b', "h", "u"), LongNamed('c', "k", "v"), DefaultService(env),
                    [HTTPServer(HTTP_REDIRECTED, ["h"])], [HTTPServer(HTTP_REDIRECTED, ["k"])]);
  }

  // ---------------------------------------------------------------- an Ingress that is stored without its defaults

  /** The public rule does not say so. */
  function Unstated(name: string): Ingress {
    Secured(name).(rules := [TwoRules().rules[0].(visibility := ""), TwoRules().rules[1]])
  }

  lemma UnstatedDefaults(name: string)
    ensures SetDefaults(Unstated(name)) == Some(Secured(name))
  {
    var rules, path := Unstated(name).rules, OnePath().value[0];
    assert DefaultedPaths(OnePath().value) == OnePath().value by {
      assert DefaultedSplits(path.splits) == path.splits;
    }
    assert DefaultedRule(rules[0]) == TwoRules().rules[0] && DefaultedRule(rules[1]) == TwoRules().rules[1];
    assert DefaultedRules(rules) == TwoRules().rules;
  }

  lemma UnstatedHasNoTLS(name: string)
    ensures !AnyTLS(Unstated(name))
  {
    var rules := Unstated(name).rules;
    assert EXTERNAL_IP != "" && CLUSTER_LOCAL[0] != EXTERNAL_IP[0];
    assert "l" in rules[1].hosts && "l"[0] != "h"[0];
    AnyTLSExactly(Unstated(name));
  }

  /** A pass makes the copy, for with its defaults the rule is public. Finalizing succeeds and leaves it behind. */
  lemma UnstatedKeepsCopy(env: Env, f: Faults, l: Listing, data: Labels)
    requires NoFaults(f) && FairListing(l)
    requires UsualCluster(env.lib) && NewIstioFromConfigMap(env.lib, map[]) == Some(env.config)
    ensures SetDefaults(Unstated("i")) == Some(Secured("i"))
    ensures MadeIn(env, Secured("i"), OneMaking("i", data), CopyFor("i", data))
    ensures var end := FinalizeKind(env, f, CopyAlone("i", data), Unstated("i"), l);
            end.outcome == Done && CopyFor("i", data).ref in end.world.objects
  {
    var w := CopyAlone("i", data);
    UnstatedDefaults("i");
    UnstatedHasNoTLS("i");
    CopyIsMade(env, "i", data);
    EmptyConfigAccepted(env.lib);
    FinalizeSucceedsExactly(env, f, w, Unstated("i"), l);
    FinalizeCoversDefaultsExactly(env, f, w, Unstated("i"), l, OneMaking("i", data), CopyFor("i", data));
  }
}
