/** From a configuration and an Ingress to what the stored VirtualServices do with a request. */
module EndToEnd {
  import opened Config
  import opened Fixpoint
  import opened Gateways
  import opened HostPrefixes
  import opened IngressPass
  import opened Probes
  import opened RoutedGateways
  import opened Secrets
  import opened ServiceObjects
  import opened Store
  import opened Success
  import opened Types
  import opened VirtualServicePass
  import opened VirtualServices

  // ---------------------------------------------------------------- when a visibility has a gateway, by configuration

  /** A visibility has a gateway to be routed on: a configured one of its kind or, for cluster-local rules, one of
      the Ingress's own, which are put beside the external gateways. */
  predicate HasGatewayFor(env: Env, ing: Ingress, visibility: string) {
    || (visibility == EXTERNAL_IP && env.config.ingressGateways != [])
    || (visibility == CLUSTER_LOCAL &&
          (env.config.localGateways != [] || (env.localTLS && LocalTLS(ing) && env.config.ingressGateways != [])))
  }

  lemma ServicesOfSelection(env: Env, ing: Ingress, sel: Selection)
    requires GatewaysFromContext(env.lib, env.config, ing.labels) == Some(sel)
    ensures Services(env, ing).Some? ==> |Services(env, ing).value| == |sel.external|
    ensures sel.external == [] ==> Services(env, ing) == Some([])
  {
    ServicesParseExactly(sel.external);
  }

  lemma NonEmptyNames(gateways: seq<GatewayConfig>)
    ensures ConfiguredNames(gateways) != {} <==> gateways != []
  {
    if gateways != [] {
      assert gateways[0].QualifiedName() in ConfiguredNames(gateways);
    }
  }

  lemma NonEmptyQualified(gateways: seq<Want>)
    ensures QualifiedNames(gateways) != {} <==> gateways != []
  {
    if gateways != [] {
      assert gateways[0].ref.namespace + "/" + gateways[0].ref.name in QualifiedNames(gateways);
    }
  }

  /** How many Gateways with TLS servers there are: none, or one per gateway service. */
  lemma TLSGatewayCount(env: Env, ing: Ingress, visibility: string, tls: seq<IngressTLS>, origins: Origins)
    requires IngressTLSGateways(env, ing, visibility, tls, origins).Some?
    ensures var r := IngressTLSGateways(env, ing, visibility, tls, origins).value;
            if tls == [] then r == [] else Services(env, ing).Some? && |r| == |Services(env, ing).value|
  {
    if |tls| != 0 {
      TLSGatewaysEach(env.lib, ing, visibility, tls, origins, Services(env, ing).value);
    }
  }

  /** The external Gateways of a plan: none without external gateways, and some where there is an HTTP server of its
      own. */
  lemma ExternalGatewaysExactly(env: Env, ing: Ingress, sel: Selection, gateways: seq<Want>, external: seq<Want>)
    requires GatewaysFromContext(env.lib, env.config, ing.labels) == Some(sel)
    requires (forall g :: g in gateways ==> g.obj.body.GatewayBody?) && WithHTTP(env, ing, gateways) == Some(external)
    requires sel.external == [] ==> gateways == []
    ensures sel.external == [] ==> external == []
    ensures sel.external != [] && OwnHTTPServer(ing) ==> external != []
  {
    ServicesOfSelection(env, ing, sel);
  }

  lemma PlannedExternalEmpty(env: Env, objects: Objects, ing: Ingress, o: Orders, sel: Selection)
    requires Fair(o) && PlanExternal(env, objects, ing, o).Some?
    requires GatewaysFromContext(env.lib, env.config, ing.labels) == Some(sel) && sel.external == []
    ensures PlanExternal(env, objects, ing, o).value.gateways == [] ==
            PlanExternal(env, objects, ing, o).value.wildcards
  {
    ServicesOfSelection(env, ing, sel);
    if ExternalTLS(ing) {
      var c := ExternalSecrets(env, objects, ing).value;
      TLSGatewayCount(env, ing, EXTERNAL_IP, PlainTLS(IngressTLSFor(ing, EXTERNAL_IP), c.plain), c.plain);
    }
  }

  lemma PlannedLocalExactly(env: Env, objects: Objects, ing: Ingress, o: Orders, sel: Selection)
    requires Fair(o) && PlanLocal(env, objects, ing, o).Some?
    requires GatewaysFromContext(env.lib, env.config, ing.labels) == Some(sel)
    ensures PlanLocal(env, objects, ing, o).value.gateways != [] <==>
            env.localTLS && LocalTLS(ing) && sel.external != []
  {
    ServicesOfSelection(env, ing, sel);
    if env.localTLS && LocalTLS(ing) {
      var tls := IngressTLSFor(ing, CLUSTER_LOCAL);
      TLSGatewayCount(env, ing, CLUSTER_LOCAL, tls, GetSecrets(objects, tls).value);
    }
  }

  lemma RoutingNamesExactly(env: Env, ing: Ingress, sel: Selection, plan: PassPlan)
    requires plan.names == RoutingGateways(ing, sel, plan.external.wildcards, plan.gateways, plan.local.gateways)
    requires sel.external == [] ==> plan.external.wildcards == [] && plan.gateways == []
    requires sel.external != [] && OwnHTTPServer(ing) ==> plan.gateways != []
    requires plan.local.gateways != [] <==> env.localTLS && LocalTLS(ing) && sel.external != []
    requires (sel.external == [] <==> env.config.ingressGateways == [])
    requires (sel.local == [] <==> env.config.localGateways == [])
    ensures NamesFor(plan.names, EXTERNAL_IP) != {} <==> HasGatewayFor(env, ing, EXTERNAL_IP)
    ensures NamesFor(plan.names, CLUSTER_LOCAL) != {} <==> HasGatewayFor(env, ing, CLUSTER_LOCAL)
  {
    NonEmptyNames(sel.external);
    NonEmptyNames(sel.local);
    NonEmptyQualified(plan.external.wildcards);
    NonEmptyQualified(plan.gateways);
    NonEmptyQualified(plan.local.gateways);
  }

  /** With an accepted configuration the names that a visibility would be routed on are none exactly when the
      configuration has no gateway for it. */
  lemma PlannedNamesExactly(env: Env, data: Labels, objects: Objects, ing: Ingress, o: Orders)
    requires NewIstioFromConfigMap(env.lib, data) == Some(env.config)
    requires Fair(o) && PlanPass(env, objects, ing, o).Some?
    ensures var names := PlanPass(env, objects, ing, o).value.names;
            && (NamesFor(names, EXTERNAL_IP) != {} <==> HasGatewayFor(env, ing, EXTERNAL_IP))
            && (NamesFor(names, CLUSTER_LOCAL) != {} <==> HasGatewayFor(env, ing, CLUSTER_LOCAL))
  {
    SelectionIsTotal(env.lib, data, ing.labels);
    var sel := GatewaysFromContext(env.lib, env.config, ing.labels).value;
    var plan := PlanPass(env, objects, ing, o).value;
    PlannedLocalExactly(env, PutAll(objects, plan.external.copies), ing, o, sel);
    if sel.external == [] {
      PlannedExternalEmpty(env, objects, ing, o, sel);
    }
    ExternalGatewaysExactly(env, ing, sel, plan.external.gateways, plan.gateways);
    RoutingNamesExactly(env, ing, sel, plan);
  }

  /** The same of a successful pass. */
  lemma RoutedSomewhereExactly(env: Env, data: Labels, f: Faults, w: World, ing: Ingress, o: Orders)
    requires NewIstioFromConfigMap(env.lib, data) == Some(env.config)
    requires Fair(o) && GatewayPass(env, f, w, ing, o).outcome == Done
    ensures NamesFor(RoutedOn(env, f, w, ing, o), EXTERNAL_IP) != {} <==> HasGatewayFor(env, ing, EXTERNAL_IP)
    ensures NamesFor(RoutedOn(env, f, w, ing, o), CLUSTER_LOCAL) != {} <==> HasGatewayFor(env, ing, CLUSTER_LOCAL)
  {
    SuccessfulPassParts(env, f, w, ing, o);
    PlannedNamesExactly(env, data, w.objects, ing, o);
  }

  // ---------------------------------------------------------------- the stored services

  /** What a service made for the Ingress looks like in the table: it is there, the Ingress's own, and compiled as
      said. */
  predicate StoredAs(lib: Library, objects: Objects, ing: Ingress, name: string, spec: VirtualServiceSpec) {
    var ref := Ref(VirtualServiceKind, ServiceNamespace(lib, ing), name);
    ref in objects && ControlledBy(objects[ref], ing.uid) && objects[ref].body == VirtualServiceBody(spec)
  }

  lemma MadeIsStored(env: Env, f: Faults, w: World, ing: Ingress, gateways: GatewayNames, routeFirst: bool,
                     name: string, spec: VirtualServiceSpec)
    requires MakeVirtualServices(env.lib, ing, gateways).Some? && Get(ing.annotations, CLASS_ANNOTATION) == ISTIO_CLASS
    requires Pass(f, w, Live, ing, MakeVirtualServices(env.lib, ing, gateways).value, routeFirst).outcome == Done
    requires ServiceObject(env.lib, ing, name, spec) in MakeVirtualServices(env.lib, ing, gateways).value
    ensures StoredAs(env.lib,
                     Pass(f, w, Live, ing, MakeVirtualServices(env.lib, ing, gateways).value, routeFirst).world.objects,
                     ing, name, spec)
  {
    IstioWantsFit(env.lib, ing, gateways);
    LivePassResult(f, w, ing, MakeVirtualServices(env.lib, ing, gateways).value, routeFirst);
    assert IsIstioClass(ServiceObject(env.lib, ing, name, spec));
  }

  /** A successful pass ends with its routing stage. */
  lemma PassEndsInServices(env: Env, f: Faults, w: World, ing: Ingress, o: Orders) returns (mid: World)
    requires Fair(o) && GatewayPass(env, f, w, ing, o).outcome == Done
    ensures var vses := MakeVirtualServices(env.lib, ing, RoutedOn(env, f, w, ing, o));
            vses.Some? && GatewayPass(env, f, w, ing, o) == Pass(f, mid, Live, ing, vses.value, o.routeFirst)
  {
    SuccessfulPassParts(env, f, w, ing, o);
    mid := ReconcileAll(f, w, Live, None, Planned(env, f, w, ing, o).Unowned()).world;
  }

  /** After a successful pass of the Istio class the gateway service is stored, if any rule has a gateway, and the mesh
      service, if any host is for the mesh. */
  lemma ServicesStored(env: Env, f: Faults, w: World, ing: Ingress, o: Orders)
    requires Fair(o) && GatewayPass(env, f, w, ing, o).outcome == Done
    requires Get(ing.annotations, CLASS_ANNOTATION) == ISTIO_CLASS
    ensures var after, gateways := GatewayPass(env, f, w, ing, o).world.objects, RoutedOn(env, f, w, ing, o);
            && (RequiredGatewayCount(ing, gateways) > 0 ==>
                  StoredAs(env.lib, after, ing, IngressName(env.lib, ing),
                           CompiledFor(env.lib, ing, gateways, GatewayHosts(env.lib, ing))))
            && (MeshHosts(env.lib, ing, gateways) != {} ==>
                  StoredAs(env.lib, after, ing, MeshName(env.lib, ing),
                           CompiledFor(env.lib, ing, MeshGateways(), MeshHosts(env.lib, ing, gateways))))
  {
    var gateways := RoutedOn(env, f, w, ing, o);
    var mid := PassEndsInServices(env, f, w, ing, o);
    ServicesMade(env.lib, ing, gateways);
    if RequiredGatewayCount(ing, gateways) > 0 {
      MadeIsStored(env, f, mid, ing, gateways, o.routeFirst, IngressName(env.lib, ing),
                   CompiledFor(env.lib, ing, gateways, GatewayHosts(env.lib, ing)));
    }
    if MeshHosts(env.lib, ing, gateways) != {} {
      MadeIsStored(env, f, mid, ing, gateways, o.routeFirst, MeshName(env.lib, ing),
                   CompiledFor(env.lib, ing, MeshGateways(), MeshHosts(env.lib, ing, gateways)));
    }
  }

  // ---------------------------------------------------------------- the stored services decide as the rules do

  /** A compiled service decides on a request as the rules do, with what `reach` gives as the gateways of a
      visibility: the route is that of the first (rule, path) that takes the request and, for a probe, of its tagged
      copy. */
  ghost predicate Decides(lib: Library, spec: VirtualServiceSpec, ing: Ingress, gateways: GatewayNames,
                          hosts: set<string>, reach: string -> set<string>, r: Request)
  {
    SameDecision(lib.domain, gateways, hosts, FirstMatch(spec.gateways, spec.http, r),
                 Tagged(FirstSource(lib.domain, reach, hosts, Asked(ing.rules, r), r), lib.probeHash(ing), IsProbe(r)))
  }

  /** Always so with the gateways in effect. */
  lemma CompiledDecidesInEffect(lib: Library, ing: Ingress, gateways: GatewayNames, hosts: set<string>, r: Request)
    ensures var spec := CompiledFor(lib, ing, gateways, hosts);
            Decides(lib, spec, ing, gateways, hosts, Reach(spec.gateways, gateways), r)
  {
    var hash := lib.probeHash(ing);
    var probed, spec := ProbedRules(ing.rules, hash), CompiledFor(lib, ing, gateways, hosts);
    var reach := Reach(spec.gateways, gateways);
    TranslationMeaning(lib.domain, probed, gateways, hosts, r);
    ProbeKeepsRouting(lib.domain, reach, hosts, ing.rules, hash, r);
    SameTargetSameDecision(lib.domain, gateways, hosts, FirstMatch(spec.gateways, spec.http, r),
                           FirstSource(lib.domain, reach, hosts, probed, r),
                           Tagged(FirstSource(lib.domain, reach, hosts, Asked(ing.rules, r), r), hash, IsProbe(r)));
  }

  /** And with those of each rule's visibility, if every rule in use has one. */
  lemma CompiledDecides(lib: Library, ing: Ingress, gateways: GatewayNames, hosts: set<string>, r: Request)
    requires EveryServedRuleHasGateways(ing.rules, gateways, hosts)
    ensures Decides(lib, CompiledFor(lib, ing, gateways, hosts), ing, gateways, hosts, Configured(gateways), r)
  {
    ProbedServiceDecides(lib.domain, ing.rules, gateways, hosts, lib.probeHash(ing), r);
  }

  /** After a successful pass, the gateway service that is stored if any rule has a gateway decides on every request
      as the rules say: always with the gateways in effect, and with those of each rule's own visibility if every
      rule in use has one. */
  lemma ReconciledIngressRoutes(env: Env, f: Faults, w: World, ing: Ingress, o: Orders, r: Request)
    requires Fair(o) && GatewayPass(env, f, w, ing, o).outcome == Done
    requires Get(ing.annotations, CLASS_ANNOTATION) == ISTIO_CLASS
    requires RequiredGatewayCount(ing, RoutedOn(env, f, w, ing, o)) > 0
    ensures var after, gateways := GatewayPass(env, f, w, ing, o).world.objects, RoutedOn(env, f, w, ing, o);
            var hosts := GatewayHosts(env.lib, ing);
            exists spec ::
              && StoredAs(env.lib, after, ing, IngressName(env.lib, ing), spec)
              && Decides(env.lib, spec, ing, gateways, hosts, Reach(spec.gateways, gateways), r)
              && (EveryServedRuleHasGateways(ing.rules, gateways, hosts) ==>
                    Decides(env.lib, spec, ing, gateways, hosts, Configured(gateways), r))
  {
    var gateways, hosts := RoutedOn(env, f, w, ing, o), GatewayHosts(env.lib, ing);
    ServicesStored(env, f, w, ing, o);
    CompiledDecidesInEffect(env.lib, ing, gateways, hosts, r);
    if EveryServedRuleHasGateways(ing.rules, gateways, hosts) {
      CompiledDecides(env.lib, ing, gateways, hosts, r);
    }
  }

  lemma MeshServesAll(ing: Ingress, hosts: set<string>)
    requires KnownVisibilities(ing)
    ensures EveryServedRuleHasGateways(ing.rules, MeshGateways(), hosts)
  {
    assert NamesFor(MeshGateways(), EXTERNAL_IP) == {MESH} && NamesFor(MeshGateways(), CLUSTER_LOCAL) == {MESH};
  }

  /** The mesh service likewise: every rule of a known visibility is reached from the mesh. */
  lemma ReconciledMeshRoutes(env: Env, f: Faults, w: World, ing: Ingress, o: Orders, r: Request)
    requires Fair(o) && GatewayPass(env, f, w, ing, o).outcome == Done
    requires Get(ing.annotations, CLASS_ANNOTATION) == ISTIO_CLASS && KnownVisibilities(ing)
    requires MeshHosts(env.lib, ing, RoutedOn(env, f, w, ing, o)) != {}
    ensures var after := GatewayPass(env, f, w, ing, o).world.objects;
            var hosts := MeshHosts(env.lib, ing, RoutedOn(env, f, w, ing, o));
            exists spec ::
              && StoredAs(env.lib, after, ing, MeshName(env.lib, ing), spec)
              && Decides(env.lib, spec, ing, MeshGateways(), hosts, Configured(MeshGateways()), r)
  {
    var hosts := MeshHosts(env.lib, ing, RoutedOn(env, f, w, ing, o));
    ServicesStored(env, f, w, ing, o);
    MeshServesAll(ing, hosts);
    CompiledDecides(env.lib, ing, MeshGateways(), hosts, r);
  }

  // ---------------------------------------------------------------- in terms of the configuration

  ghost predicate KnownVisibilities(ing: Ingress) {
    forall rule :: rule in ing.rules ==> rule.visibility == EXTERNAL_IP || rule.visibility == CLUSTER_LOCAL
  }

  /** Every rule that has a host and a path has a gateway for its visibility. */
  predicate GatewaysSuffice(env: Env, ing: Ingress) {
    forall rule :: rule in ing.rules && Served(rule, GatewayHosts(env.lib, ing)) && rule.Paths() != [] ==>
      HasGatewayFor(env, ing, rule.visibility)
  }

  lemma GatewayCountExactly(ing: Ingress, gateways: GatewayNames)
    requires KnownVisibilities(ing)
    ensures RequiredGatewayCount(ing, gateways) > 0 <==>
            exists rule :: rule in ing.rules && NamesFor(gateways, rule.visibility) != {}
  {
  }

  /** The gateway service is made exactly when some rule has a gateway by configuration. */
  lemma GatewayServiceMadeExactly(env: Env, data: Labels, f: Faults, w: World, ing: Ingress, o: Orders)
    requires NewIstioFromConfigMap(env.lib, data) == Some(env.config) && KnownVisibilities(ing)
    requires Fair(o) && GatewayPass(env, f, w, ing, o).outcome == Done
    ensures RequiredGatewayCount(ing, RoutedOn(env, f, w, ing, o)) > 0 <==>
            exists rule :: rule in ing.rules && HasGatewayFor(env, ing, rule.visibility)
  {
    RoutedSomewhereExactly(env, data, f, w, ing, o);
    GatewayCountExactly(ing, RoutedOn(env, f, w, ing, o));
  }

  /** The routes of the gateway service stay on the gateways of their rules' visibilities exactly when the
      configuration has one for each rule in use. With one of the lists empty it can lack one, and then a public rule
      answers on cluster-local gateways or the other way round. */
  lemma RoutesStayExactly(env: Env, data: Labels, f: Faults, w: World, ing: Ingress, o: Orders)
    requires NewIstioFromConfigMap(env.lib, data) == Some(env.config) && KnownVisibilities(ing)
    requires Fair(o) && GatewayPass(env, f, w, ing, o).outcome == Done
    ensures RoutesStayOnTheirGateways(env.lib.domain, ProbedRules(ing.rules, env.lib.probeHash(ing)),
                                      RoutedOn(env, f, w, ing, o), GatewayHosts(env.lib, ing))
       <==> GatewaysSuffice(env, ing)
  {
    var gateways, hosts := RoutedOn(env, f, w, ing, o), GatewayHosts(env.lib, ing);
    SufficeForServed(env, data, f, w, ing, o);
    GatewayScopeExactly(env.lib.domain, ProbedRules(ing.rules, env.lib.probeHash(ing)), gateways, hosts);
    ProbedServedGateways(ing.rules, gateways, hosts, env.lib.probeHash(ing));
  }

  lemma SufficeForServed(env: Env, data: Labels, f: Faults, w: World, ing: Ingress, o: Orders)
    requires NewIstioFromConfigMap(env.lib, data) == Some(env.config) && KnownVisibilities(ing)
    requires Fair(o) && GatewayPass(env, f, w, ing, o).outcome == Done
    ensures GatewaysSuffice(env, ing) <==>
            EveryServedRuleHasGateways(ing.rules, RoutedOn(env, f, w, ing, o), GatewayHosts(env.lib, ing))
  {
    RoutedSomewhereExactly(env, data, f, w, ing, o);
  }

  /** In sum: with a gateway by configuration for each rule in use, and at least one such rule, the service that a
      successful pass stores decides on every request as the rules say. */
  lemma AcceptedIngressRoutes(env: Env, data: Labels, f: Faults, w: World, ing: Ingress, o: Orders, r: Request)
    requires NewIstioFromConfigMap(env.lib, data) == Some(env.config) && KnownVisibilities(ing)
    requires Fair(o) && GatewayPass(env, f, w, ing, o).outcome == Done
    requires Get(ing.annotations, CLASS_ANNOTATION) == ISTIO_CLASS
    requires GatewaysSuffice(env, ing) && exists rule :: rule in ing.rules && HasGatewayFor(env, ing, rule.visibility)
    ensures var after, gateways := GatewayPass(env, f, w, ing, o).world.objects, RoutedOn(env, f, w, ing, o);
            exists spec ::
              && StoredAs(env.lib, after, ing, IngressName(env.lib, ing), spec)
              && Decides(env.lib, spec, ing, gateways, GatewayHosts(env.lib, ing), Configured(gateways), r)
  {
    GatewayServiceMadeExactly(env, data, f, w, ing, o);
    SufficeForServed(env, data, f, w, ing, o);
    ReconciledIngressRoutes(env, f, w, ing, o, r);
  }

  /** With every host of a rule among those of the service, which expansion gives for hosts with a valid top-level
      domain, the decision is about the hosts of the rules alone. */
  lemma DecidesByRuleHosts(lib: Library, spec: VirtualServiceSpec, ing: Ingress, gateways: GatewayNames,
                           hosts: set<string>, reach: string -> set<string>, r: Request)
    requires RuleHosts(ing) <= hosts
    ensures Decides(lib, spec, ing, gateways, hosts, reach, r) <==>
            Decides(lib, spec, ing, gateways, RuleHosts(ing), reach, r)
  {
    var asked := Asked(ing.rules, r);
    forall rule, h | rule in asked && h in rule.hosts ensures h in RuleHosts(ing) {
      var i :| 0 <= i < |asked| && asked[i] == rule;
      assert ing.rules[i] in ing.rules && h in ing.rules[i].hosts;
    }
    HostsBeyondRules(lib.domain, reach, hosts, RuleHosts(ing), asked, r);
  }

  // ---------------------------------------------------------------- success in terms of the inputs alone

  /** The hosts of the mesh service: cluster-local ones, expanded where cluster-local rules have a gateway. */
  function MeshHostsOf(env: Env, ing: Ingress): set<string> {
    var hosts := LocalHosts(env.lib, RuleHosts(ing));
    if HasGatewayFor(env, ing, CLUSTER_LOCAL) then ExpandedHosts(env.lib.domain, hosts) else hosts
  }

  /** The keys of the services that the configuration makes necessary are free. */
  predicate NamesAvailable(env: Env, objects: Objects, ing: Ingress) {
    ServiceKeysFree(env.lib, objects, ing, MeshHostsOf(env, ing) != {},
                    exists rule :: rule in ing.rules && HasGatewayFor(env, ing, rule.visibility))
  }

  lemma ServicesByConfiguration(env: Env, ing: Ingress, names: GatewayNames)
    requires KnownVisibilities(ing)
    requires NamesFor(names, EXTERNAL_IP) != {} <==> HasGatewayFor(env, ing, EXTERNAL_IP)
    requires NamesFor(names, CLUSTER_LOCAL) != {} <==> HasGatewayFor(env, ing, CLUSTER_LOCAL)
    ensures MeshHosts(env.lib, ing, names) == MeshHostsOf(env, ing)
    ensures RequiredGatewayCount(ing, names) > 0 <==>
            exists rule :: rule in ing.rules && HasGatewayFor(env, ing, rule.visibility)
  {
    GatewayCountExactly(ing, names);
    assert |NamesFor(names, CLUSTER_LOCAL)| != 0 <==> HasGatewayFor(env, ing, CLUSTER_LOCAL);
  }

  lemma NamesFreeExactly(env: Env, data: Labels, objects: Objects, ing: Ingress, o: Orders)
    requires NewIstioFromConfigMap(env.lib, data) == Some(env.config) && KnownVisibilities(ing)
    requires Fair(o) && InputsComplete(env, objects, ing, o)
    ensures NamesFree(env, objects, ing, o) <==> NamesAvailable(env, objects, ing)
  {
    PlannedExactly(env, objects, ing, o);
    var names := PlanPass(env, objects, ing, o).value.names;
    ServicesMadeExactly(env.lib, ing, names);
    PlannedNamesExactly(env, data, objects, ing, o);
    ForeignByConfiguration(env, objects, ing, names);
  }

  lemma ForeignByConfiguration(env: Env, objects: Objects, ing: Ingress, names: GatewayNames)
    requires KnownVisibilities(ing) && MakeVirtualServices(env.lib, ing, names).Some?
    requires NamesFor(names, EXTERNAL_IP) != {} <==> HasGatewayFor(env, ing, EXTERNAL_IP)
    requires NamesFor(names, CLUSTER_LOCAL) != {} <==> HasGatewayFor(env, ing, CLUSTER_LOCAL)
    ensures NoneForeign(objects, ing, MakeVirtualServices(env.lib, ing, names).value) <==>
            NamesAvailable(env, objects, ing)
  {
    ServicesByConfiguration(env, ing, names);
    NoneForeignExactly(env.lib, objects, ing, names);
  }

  /** Without refusals, and with an accepted configuration, a pass with gateways succeeds exactly when its inputs are
      complete and the keys of its services are free: all of it said of configuration, Ingress and table. */
  lemma AcceptedSucceedsExactly(env: Env, data: Labels, f: Faults, w: World, ing: Ingress, o: Orders)
    requires NewIstioFromConfigMap(env.lib, data) == Some(env.config) && KnownVisibilities(ing)
    requires NoFaults(f) && Fair(o)
    ensures GatewayPass(env, f, w, ing, o).outcome == Done <==>
            InputsComplete(env, w.objects, ing, o) && NamesAvailable(env, w.objects, ing)
  {
    ReconciliationSucceedsExactly(env, f, w, ing, o);
    if InputsComplete(env, w.objects, ing, o) {
      NamesFreeExactly(env, data, w.objects, ing, o);
    }
  }
}
