/** The gateways that a successful pass routes on: they are there, and each visibility keeps to its own. */
module RoutedGateways {
  import opened Config
  import opened Credentials
  import opened Fixpoint
  import opened Gateways
  import opened IngressPass
  import opened Secrets
  import opened Servers
  import opened Store
  import opened Strings
  import opened Types
  import opened VirtualServices

  /** The plan that a successful pass goes by. */
  function Planned(env: Env, f: Faults, w: World, ing: Ingress, o: Orders): PassPlan
    requires Fair(o) && GatewayPass(env, f, w, ing, o).outcome == Done
  {
    SuccessfulPassParts(env, f, w, ing, o);
    PlanPass(env, w.objects, ing, o).value
  }

  /** The gateways each visibility is routed on by a successful pass. */
  function RoutedOn(env: Env, f: Faults, w: World, ing: Ingress, o: Orders): GatewayNames
    requires Fair(o) && GatewayPass(env, f, w, ing, o).outcome == Done
  {
    Planned(env, f, w, ing, o).names
  }

  lemma RoutedOnPlanned(env: Env, f: Faults, w: World, ing: Ingress, o: Orders)
    requires Fair(o) && GatewayPass(env, f, w, ing, o).outcome == Done
    ensures PlanPass(env, w.objects, ing, o).Some?
    ensures RoutedOn(env, f, w, ing, o) == PlanPass(env, w.objects, ing, o).value.names
  {
    SuccessfulPassParts(env, f, w, ing, o);
  }

  // ---------------------------------------------------------------- gateways referred to are there

  lemma {:induction false} PutAllKeys(objects: Objects, wants: seq<Want>)
    ensures objects.Keys <= PutAll(objects, wants).Keys && forall w :: w in wants ==> w.ref in PutAll(objects, wants)
    decreases |wants|
  {
    if wants != [] {
      PutAllKeys(objects[wants[0].ref := Put(objects, wants[0])], wants[1..]);
      assert wants == [wants[0]] + wants[1..];
    }
  }

  ghost predicate GatewayExists(objects: Objects, name: string) {
    exists r: Ref :: r in objects && r.kind.GatewayKind? && r.namespace + "/" + r.name == name
  }

  lemma PlannedGatewayMember(env: Env, objects: Objects, ing: Ingress, o: Orders, g: Want)
    requires Fair(o) && PlanPass(env, objects, ing, o).Some?
    requires var plan := PlanPass(env, objects, ing, o).value;
             g in plan.external.wildcards || g in plan.gateways || g in plan.local.gateways
    ensures g in PlanPass(env, objects, ing, o).value.Unowned() && g.ref.kind.GatewayKind?
  {
    PlanMembers(env, objects, ing, o);
  }

  lemma PlannedGatewayIsThere(env: Env, f: Faults, w: World, ing: Ingress, o: Orders, g: Want)
    requires Fair(o) && GatewayPass(env, f, w, ing, o).outcome == Done
    requires g in Planned(env, f, w, ing, o).Unowned() && g.ref.kind.GatewayKind?
    ensures GatewayExists(GatewayPass(env, f, w, ing, o).world.objects, g.ref.namespace + "/" + g.ref.name)
  {
    SuccessfulPassParts(env, f, w, ing, o);
    var plan := Planned(env, f, w, ing, o);
    var mid := ReconcileAll(f, w, Live, None, plan.Unowned()).world;
    PutAllKeys(w.objects, plan.Unowned());
    ServicePassSettles(f, mid, ing, env.lib, plan.names, o.routeFirst);
    assert SameAt(mid.objects, GatewayPass(env, f, w, ing, o).world.objects, g.ref);
  }

  /** Where the name of a gateway that is routed on comes from: a Gateway of the plan, or the configuration. */
  lemma RoutedNameFrom(ing: Ingress, sel: Selection, wildcards: seq<Want>, external: seq<Want>, local: seq<Want>,
                       visibility: string, name: string) returns (made: Option<Want>)
    requires name in NamesFor(RoutingGateways(ing, sel, wildcards, external, local), visibility)
    ensures made.Some? ==>
              && name == made.value.ref.namespace + "/" + made.value.ref.name
              && (if visibility == EXTERNAL_IP then made.value in wildcards || made.value in external
                  else visibility == CLUSTER_LOCAL && made.value in local)
    ensures made.None? ==>
              || (visibility == CLUSTER_LOCAL && name in ConfiguredNames(sel.local))
              || (visibility == EXTERNAL_IP && !OwnHTTPServer(ing) && name in ConfiguredNames(sel.external))
  {
    if visibility == EXTERNAL_IP && (name in QualifiedNames(wildcards) || name in QualifiedNames(external)) {
      var g :| (g in wildcards || g in external) && g.ref.namespace + "/" + g.ref.name == name;
      made := Some(g);
    } else if visibility == CLUSTER_LOCAL && name in QualifiedNames(local) {
      var g :| g in local && g.ref.namespace + "/" + g.ref.name == name;
      made := Some(g);
    } else {
      made := None;
    }
  }

  lemma RoutedNameIn(env: Env, objects: Objects, ing: Ingress, o: Orders, visibility: string, name: string)
    returns (made: Option<Want>)
    requires Fair(o) && PlanPass(env, objects, ing, o).Some?
    requires name in NamesFor(PlanPass(env, objects, ing, o).value.names, visibility)
    ensures var plan := PlanPass(env, objects, ing, o).value;
            made.Some? ==>
              && name == made.value.ref.namespace + "/" + made.value.ref.name
              && (if visibility == EXTERNAL_IP then made.value in plan.external.wildcards || made.value in plan.gateways
                  else visibility == CLUSTER_LOCAL && made.value in plan.local.gateways)
    ensures GatewaysFromContext(env.lib, env.config, ing.labels).Some?
    ensures var sel := GatewaysFromContext(env.lib, env.config, ing.labels).value;
            made.None? ==>
              || (visibility == CLUSTER_LOCAL && name in ConfiguredNames(sel.local))
              || (visibility == EXTERNAL_IP && !OwnHTTPServer(ing) && name in ConfiguredNames(sel.external))
  {
    PlanNames(env, objects, ing, o);
    var plan, sel := PlanPass(env, objects, ing, o).value, GatewaysFromContext(env.lib, env.config, ing.labels).value;
    made := RoutedNameFrom(ing, sel, plan.external.wildcards, plan.gateways, plan.local.gateways, visibility, name);
  }

  /** Every gateway that a successful pass routes on is a configured one or a Gateway that is in the table. */
  lemma RoutedGatewaysExist(env: Env, f: Faults, w: World, ing: Ingress, o: Orders, visibility: string, name: string)
    requires Fair(o) && GatewayPass(env, f, w, ing, o).outcome == Done
    requires name in NamesFor(RoutedOn(env, f, w, ing, o), visibility)
    ensures var sel := GatewaysFromContext(env.lib, env.config, ing.labels).value;
            || name in ConfiguredNames(sel.external) || name in ConfiguredNames(sel.local)
            || GatewayExists(GatewayPass(env, f, w, ing, o).world.objects, name)
  {
    RoutedOnPlanned(env, f, w, ing, o);
    var g := RoutedNameIn(env, w.objects, ing, o, visibility, name);
    if g.Some? {
      PlannedGatewayMember(env, w.objects, ing, o, g.value);
      PlannedGatewayIsThere(env, f, w, ing, o, g.value);
    }
  }

  // ---------------------------------------------------------------- each visibility keeps to its own ports

  /** Which ports a visibility's own Gateways listen on. A nil server listens on none. */
  predicate OwnPort(visibility: string, s: Server) {
    || s.NilServer?
    || (visibility == EXTERNAL_IP && (s.portNumber == EXTERNAL_HTTPS_PORT || s.portNumber == HTTP_PORT))
    || (visibility == CLUSTER_LOCAL && s.portNumber == LOCAL_HTTPS_PORT)
  }

  predicate ServesOnly(visibility: string, o: Object) {
    o.body.GatewayBody? && forall s :: s in o.body.gw.servers ==> OwnPort(visibility, s)
  }

  predicate AllServeOnly(visibility: string, gateways: seq<Want>) {
    forall g :: g in gateways ==> ServesOnly(visibility, g.obj)
  }

  lemma TLSServerPorts(lib: Library, ing: Ingress, visibility: string, tls: seq<IngressTLS>, namespace: string,
                       origins: Origins)
    requires visibility == EXTERNAL_IP || visibility == CLUSTER_LOCAL
    requires TLSServers(lib, ing, visibility, tls, namespace, origins).Some?
    ensures forall s :: s in TLSServers(lib, ing, visibility, tls, namespace, origins).value ==> OwnPort(visibility, s)
  {
    var raw := ServersFor(lib, ing, HttpsPort(visibility).value, tls, namespace, origins).value;
    SortConserves(raw);
    forall s | s in raw ensures OwnPort(visibility, s) {
      var i :| 0 <= i < |raw| && raw[i] == s;
    }
  }

  lemma TLSGatewayPorts(env: Env, ing: Ingress, visibility: string, tls: seq<IngressTLS>, origins: Origins)
    requires visibility == EXTERNAL_IP || visibility == CLUSTER_LOCAL
    requires IngressTLSGateways(env, ing, visibility, tls, origins).Some?
    ensures AllServeOnly(visibility, IngressTLSGateways(env, ing, visibility, tls, origins).value)
  {
    if |tls| != 0 {
      var services := Services(env, ing).value;
      TLSGatewaysEach(env.lib, ing, visibility, tls, origins, services);
      forall g | g in IngressTLSGateways(env, ing, visibility, tls, origins).value
        ensures ServesOnly(visibility, g.obj)
      {
        var s :| s in services && TLSGatewayFor(env.lib, ing, visibility, tls, origins, s) == Some(g);
        TLSServerPorts(env.lib, ing, visibility, tls, s.key.namespace, origins);
      }
    }
  }

  lemma WithHTTPPorts(env: Env, ing: Ingress, gateways: seq<Want>)
    requires AllServeOnly(EXTERNAL_IP, gateways) && WithHTTP(env, ing, gateways).Some?
    ensures AllServeOnly(EXTERNAL_IP, WithHTTP(env, ing, gateways).value)
  {
    var r := WithHTTP(env, ing, gateways).value;
    assert OwnPort(EXTERNAL_IP, HTTPServer(ing.httpOption, SortedList(PublicHosts(ing))));
    forall g | g in r ensures ServesOnly(EXTERNAL_IP, g.obj) {
      var i :| 0 <= i < |r| && r[i] == g;
      if OwnHTTPServer(ing) && |gateways| != 0 { assert gateways[i] in gateways; }
    }
  }

  lemma WildcardPorts(env: Env, ing: Ingress, o: Orders, origins: Origins)
    requires Fair(o) && WildcardTLSGateways(env, ing, o, origins).Some?
    ensures AllServeOnly(EXTERNAL_IP, WildcardTLSGateways(env, ing, o, origins).value)
  {
    if |origins| != 0 {
      forall g | g in WildcardTLSGateways(env, ing, o, origins).value ensures ServesOnly(EXTERNAL_IP, g.obj) {
        WildcardsComeFrom(env.lib, o, origins, Services(env, ing).value, g);
      }
    }
  }

  lemma ExternalPorts(env: Env, objects: Objects, ing: Ingress, o: Orders)
    requires Fair(o) && PlanExternal(env, objects, ing, o).Some?
    ensures AllServeOnly(EXTERNAL_IP, PlanExternal(env, objects, ing, o).value.gateways)
    ensures AllServeOnly(EXTERNAL_IP, PlanExternal(env, objects, ing, o).value.wildcards)
  {
    if ExternalTLS(ing) {
      var c := ExternalSecrets(env, objects, ing).value;
      TLSGatewayPorts(env, ing, EXTERNAL_IP, PlainTLS(IngressTLSFor(ing, EXTERNAL_IP), c.plain), c.plain);
      WildcardPorts(env, ing, o, c.wildcard);
    }
  }

  lemma LocalPorts(env: Env, objects: Objects, ing: Ingress, o: Orders)
    requires Fair(o) && PlanLocal(env, objects, ing, o).Some?
    ensures AllServeOnly(CLUSTER_LOCAL, PlanLocal(env, objects, ing, o).value.gateways)
  {
    if env.localTLS && LocalTLS(ing) {
      var tls := IngressTLSFor(ing, CLUSTER_LOCAL);
      TLSGatewayPorts(env, ing, CLUSTER_LOCAL, tls, GetSecrets(objects, tls).value);
    }
  }

  lemma PlanPorts(env: Env, objects: Objects, ing: Ingress, o: Orders)
    requires Fair(o) && PlanPass(env, objects, ing, o).Some?
    ensures var plan := PlanPass(env, objects, ing, o).value;
            && AllServeOnly(EXTERNAL_IP, plan.external.wildcards) && AllServeOnly(EXTERNAL_IP, plan.gateways)
            && AllServeOnly(CLUSTER_LOCAL, plan.local.gateways)
  {
    var plan := PlanPass(env, objects, ing, o).value;
    ExternalPorts(env, objects, ing, o);
    LocalPorts(env, PutAll(objects, plan.external.copies), ing, o);
    WithHTTPPorts(env, ing, plan.external.gateways);
  }

  ghost predicate GatewayServesOnly(objects: Objects, name: string, visibility: string) {
    exists r: Ref :: r in objects && r.kind.GatewayKind? && r.namespace + "/" + r.name == name
                     && ServesOnly(visibility, objects[r])
  }

  lemma SatisfiedServes(objects: Objects, wants: seq<Want>, g: Want, visibility: string)
    requires Satisfied(objects, None, wants) && g in wants
    requires g.ref.kind.GatewayKind? && ServesOnly(visibility, g.obj)
    ensures GatewayServesOnly(objects, g.ref.namespace + "/" + g.ref.name, visibility)
  {
    assert objects[g.ref].body == g.obj.body;
  }

  lemma StoredGatewayServes(env: Env, f: Faults, w: World, ing: Ingress, o: Orders, g: Want, visibility: string)
    requires Fair(o) && NoCollisions(env, w.objects, ing, o)
    requires GatewayPass(env, f, w, ing, o).outcome == Done
    requires var plan := Planned(env, f, w, ing, o);
             if visibility == EXTERNAL_IP then g in plan.external.wildcards || g in plan.gateways
             else visibility == CLUSTER_LOCAL && g in plan.local.gateways
    ensures GatewayServesOnly(GatewayPass(env, f, w, ing, o).world.objects,
                              g.ref.namespace + "/" + g.ref.name, visibility)
  {
    GatewayPassSettles(env, f, w, ing, o);
    PlannedGatewayMember(env, w.objects, ing, o, g);
    PlanPorts(env, w.objects, ing, o);
    SatisfiedServes(GatewayPass(env, f, w, ing, o).world.objects, Planned(env, f, w, ing, o).Unowned(), g, visibility);
  }

  /** Each visibility is routed on its own gateways: a configured one of its kind, or a stored Gateway that listens
      on no port but those of the visibility. Public rules use no configured gateway once there is an HTTP server of
      their own. */
  lemma RoutedOnOwnPorts(env: Env, f: Faults, w: World, ing: Ingress, o: Orders, visibility: string, name: string)
    requires Fair(o) && NoCollisions(env, w.objects, ing, o)
    requires GatewayPass(env, f, w, ing, o).outcome == Done
    requires name in NamesFor(RoutedOn(env, f, w, ing, o), visibility)
    ensures var sel := GatewaysFromContext(env.lib, env.config, ing.labels).value;
            || (visibility == CLUSTER_LOCAL && name in ConfiguredNames(sel.local))
            || (visibility == EXTERNAL_IP && !OwnHTTPServer(ing) && name in ConfiguredNames(sel.external))
            || GatewayServesOnly(GatewayPass(env, f, w, ing, o).world.objects, name, visibility)
  {
    RoutedOnPlanned(env, f, w, ing, o);
    var g := RoutedNameIn(env, w.objects, ing, o, visibility, name);
    if g.Some? {
      StoredGatewayServes(env, f, w, ing, o, g.value, visibility);
    }
  }
}
