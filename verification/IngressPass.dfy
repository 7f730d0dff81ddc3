/** A whole reconciliation of an Ingress with gateways: copy secrets, put Gateways in place, then the
    VirtualServices. */
module IngressPass {
  import opened Config
  import opened Gateways
  import opened Secrets
  import opened ServiceObjects
  import opened Store
  import opened Strings
  import opened Types
  import opened VirtualServicePass
  import opened VirtualServices

  /** What a pass is given besides the table: libraries, configuration, the gateway services, and the network
      setting. */
  datatype Env = Env(lib: Library, config: IstioConfig, services: map<ServiceKey, Labels>, localTLS: bool)

  /** The orders in which this pass happens to iterate maps: string-keyed ones by place, and the two selectors. */
  datatype Orders = Orders(enumerate: (nat, set<string>) -> seq<string>, routeFirst: bool)

  ghost predicate Fair(o: Orders) {
    forall place, s :: Enumerates(o.enumerate(place, s), s)
  }

  // ---------------------------------------------------------------- what an Ingress asks for

  predicate IsPublic(ing: Ingress) {
    exists rule :: rule in ing.rules && rule.visibility == EXTERNAL_IP
  }

  predicate ExternalTLS(ing: Ingress) {
    IsPublic(ing) && |IngressTLSFor(ing, EXTERNAL_IP)| > 0
  }

  predicate LocalTLS(ing: Ingress) {
    |IngressTLSFor(ing, CLUSTER_LOCAL)| > 0
  }

  predicate OwnHTTPServer(ing: Ingress) {
    IsPublic(ing) && (ing.httpOption == HTTP_REDIRECTED || |IngressTLSFor(ing, EXTERNAL_IP)| > 0)
  }

  function PublicHosts(ing: Ingress): set<string> {
    set rule, h | rule in ing.rules && rule.visibility == EXTERNAL_IP && h in rule.hosts :: h
  }

  /** The TLS entries whose secret is not a wildcard certificate. */
  function PlainTLS(tls: seq<IngressTLS>, plain: Origins): (r: seq<IngressTLS>)
    ensures forall t :: t in r <==> t in tls && SecretKey(t) in plain
  {
    if tls == [] then [] else
      (if SecretKey(tls[0]) in plain then [tls[0]] else []) + PlainTLS(tls[1..], plain)
  }

  function Keys(env: Env, ing: Ingress): Option<seq<ServiceKey>> {
    GatewayServiceKeys(env.lib, env.config, ing.labels)
  }

  function Services(env: Env, ing: Ingress): Option<seq<GatewayService>> {
    match Keys(env, ing)
    case None => None
    case Some(keys) => ResolveServices(keys, env.services)
  }

  // ---------------------------------------------------------------- desired objects, from the origins

  /** The external secrets by kind; None if one is missing or has a bad certificate. */
  function ExternalSecrets(env: Env, objects: Objects, ing: Ingress): Option<Categories> {
    match GetSecrets(objects, IngressTLSFor(ing, EXTERNAL_IP))
    case None => None
    case Some(origins) => CategorizeSecrets(env.lib, origins)
  }

  function MissingOrBad(objects: Objects, ing: Ingress, visibility: string): Failure {
    if GetSecrets(objects, IngressTLSFor(ing, visibility)).None? then NotFound else Invalid
  }

  /** Copies of plain and of wildcard certificates for the external gateways. */
  function ExternalCopies(env: Env, ing: Ingress, o: Orders, c: Categories): Option<seq<Want>>
    requires Fair(o)
  {
    match Keys(env, ing)
    case None => None
    case Some(keys) =>
      Some(Copies(o.enumerate(0, c.plain.Keys), c.plain, keys, PlainNaming(ing.name))
           + Copies(o.enumerate(1, c.wildcard.Keys), c.wildcard, keys, WildcardNaming()))
  }

  function LocalCopies(env: Env, ing: Ingress, o: Orders, origins: Origins): Option<seq<Want>>
    requires Fair(o)
  {
    match Keys(env, ing)
    case None => None
    case Some(keys) => Some(Copies(o.enumerate(2, origins.Keys), origins, keys, PlainNaming(ing.name)))
  }

  /** Gateways with only TLS servers, one per service; none without TLS entries. */
  function IngressTLSGateways(env: Env, ing: Ingress, visibility: string, tls: seq<IngressTLS>,
                              origins: Origins): Option<seq<Want>>
  {
    if |tls| == 0 then Some([])
    else match Services(env, ing)
      case None => None
      case Some(services) => TLSGateways(env.lib, ing, visibility, tls, origins, services)
  }

  function PlainGateways(env: Env, ing: Ingress, c: Categories): Option<seq<Want>> {
    IngressTLSGateways(env, ing, EXTERNAL_IP, PlainTLS(IngressTLSFor(ing, EXTERNAL_IP), c.plain), c.plain)
  }

  function AllWildcardGateways(lib: Library, o: Orders, origins: Origins,
                               services: seq<GatewayService>): Option<seq<Want>>
    requires Fair(o)
  {
    if services == [] then Some([]) else
      var n := |services| - 1;
      var init := AllWildcardGateways(lib, o, origins, services[..n]);
      var last := WildcardGatewaysFor(lib, o.enumerate(10 + n, origins.Keys), origins, services[n]);
      if init.Some? && last.Some? then Some(init.value + last.value) else None
  }

  /** One Gateway per service and wildcard secret; none without wildcard secrets. */
  function WildcardTLSGateways(env: Env, ing: Ingress, o: Orders, origins: Origins): Option<seq<Want>>
    requires Fair(o)
  {
    if |origins| == 0 then Some([])
    else match Services(env, ing)
      case None => None
      case Some(services) => AllWildcardGateways(env.lib, o, origins, services)
  }

  /** The external Gateways with the HTTP server added, or with only that one. */
  function WithHTTP(env: Env, ing: Ingress, gateways: seq<Want>): Option<seq<Want>>
    requires forall g :: g in gateways ==> g.obj.body.GatewayBody?
  {
    if !OwnHTTPServer(ing) then Some(gateways) else
      var server := HTTPServer(ing.httpOption, SortedList(PublicHosts(ing)));
      if |gateways| != 0 then Some(WithServer(gateways, server))
      else match Services(env, ing)
        case None => None
        case Some(services) => Some(ExternalGateways(ing, [server], services))
  }

  function QualifiedNames(gateways: seq<Want>): set<string> {
    set g | g in gateways :: g.ref.namespace + "/" + g.ref.name
  }

  function ConfiguredNames(gateways: seq<GatewayConfig>): set<string> {
    set g | g in gateways :: g.QualifiedName()
  }

  /** The gateways each visibility is routed on. */
  function RoutingGateways(ing: Ingress, sel: Selection, wildcards: seq<Want>, external: seq<Want>,
                           local: seq<Want>): GatewayNames
  {
    map[EXTERNAL_IP := QualifiedNames(wildcards) + QualifiedNames(external)
                       + (if OwnHTTPServer(ing) then {} else ConfiguredNames(sel.external)),
        CLUSTER_LOCAL := ConfiguredNames(sel.local) + QualifiedNames(local)]
  }

  // ---------------------------------------------------------------- the pass

  /** A stage writes and hands on the Gateways still to be put in place; `wildcards` are in place already. */
  datatype Stage = Stage(step: Step, gateways: seq<Want>, wildcards: seq<Want>)

  function FailedStage(w: World, why: Failure): Stage {
    Stage(Step(w, Failed(why)), [], [])
  }

  function ExternalStage(env: Env, f: Faults, w: World, ing: Ingress, o: Orders): Stage
    requires Fair(o)
  {
    if !ExternalTLS(ing) then Stage(Step(w, Done), [], []) else
      match ExternalSecrets(env, w.objects, ing)
      case None => FailedStage(w, MissingOrBad(w.objects, ing, EXTERNAL_IP))
      case Some(c) =>
        match ExternalCopies(env, ing, o, c)
        case None => FailedStage(w, Invalid)
        case Some(copies) =>
          var s := ReconcileAll(f, w, Live, None, copies);
          if s.outcome.Failed? then Stage(s, [], []) else
            var gateways, wildcards := PlainGateways(env, ing, c), WildcardTLSGateways(env, ing, o, c.wildcard);
            if gateways.Some? && wildcards.Some?
            then Stage(ReconcileAll(f, s.world, Live, None, wildcards.value), gateways.value, wildcards.value)
            else FailedStage(s.world, Invalid)
  }

  function LocalStage(env: Env, f: Faults, w: World, ing: Ingress, o: Orders): Stage
    requires Fair(o)
  {
    if !(env.localTLS && LocalTLS(ing)) then Stage(Step(w, Done), [], []) else
      match GetSecrets(w.objects, IngressTLSFor(ing, CLUSTER_LOCAL))
      case None => FailedStage(w, NotFound)
      case Some(origins) =>
        match LocalCopies(env, ing, o, origins)
        case None => FailedStage(w, Invalid)
        case Some(copies) =>
          var s := ReconcileAll(f, w, Live, None, copies);
          if s.outcome.Failed? then Stage(s, [], []) else
            match IngressTLSGateways(env, ing, CLUSTER_LOCAL, IngressTLSFor(ing, CLUSTER_LOCAL), origins)
            case None => FailedStage(s.world, Invalid)
            case Some(gateways) => Stage(s, gateways, [])
  }

  /** The last part: Gateways of both kinds, then the VirtualServices that route on them, as far as `cache` shows
      those. */
  function RoutingStageSeeing(env: Env, f: Faults, w: World, ing: Ingress, o: Orders, sel: Selection,
                              wildcards: seq<Want>, external: seq<Want>, local: seq<Want>, cache: Lister): Step
  {
    var a := ReconcileAll(f, w, Live, None, external);
    if a.outcome.Failed? then a else
      var b := ReconcileAll(f, a.world, Live, None, local);
      if b.outcome.Failed? then b else
        match MakeVirtualServices(env.lib, ing, RoutingGateways(ing, sel, wildcards, external, local))
        case None => Step(b.world, Failed(Invalid))
        case Some(vses) => Pass(f, b.world, cache, ing, vses, o.routeFirst)
  }

  lemma {:induction false} GatewaysAreGateways(env: Env, ing: Ingress, visibility: string, tls: seq<IngressTLS>,
                                               origins: Origins)
    ensures var r := IngressTLSGateways(env, ing, visibility, tls, origins);
            r.Some? ==> forall g :: g in r.value ==> g.ref.kind.GatewayKind? && g.obj.body.GatewayBody?
  {
    if |tls| != 0 && Services(env, ing).Some? {
      TLSGatewaysEach(env.lib, ing, visibility, tls, origins, Services(env, ing).value);
    }
  }

  lemma ExternalStageGateways(env: Env, f: Faults, w: World, ing: Ingress, o: Orders)
    requires Fair(o)
    ensures forall g :: g in ExternalStage(env, f, w, ing, o).gateways ==>
              g.ref.kind.GatewayKind? && g.obj.body.GatewayBody?
  {
    if ExternalSecrets(env, w.objects, ing).Some? {
      var c := ExternalSecrets(env, w.objects, ing).value;
      GatewaysAreGateways(env, ing, EXTERNAL_IP, PlainTLS(IngressTLSFor(ing, EXTERNAL_IP), c.plain), c.plain);
      var stage := ExternalStage(env, f, w, ing, o);
      assert stage.gateways == [] || Some(stage.gateways) == PlainGateways(env, ing, c);
    }
  }

  /** A pass whose VirtualService lister shows `cache`; the other listers are up to date. */
  function GatewayPassSeeing(env: Env, f: Faults, w: World, ing: Ingress, o: Orders, cache: Lister): Step
    requires Fair(o)
  {
    match GatewaysFromContext(env.lib, env.config, ing.labels)
    case None => Step(w, Failed(Invalid))
    case Some(sel) =>
      ExternalStageGateways(env, f, w, ing, o);
      var ext := ExternalStage(env, f, w, ing, o);
      if ext.step.outcome.Failed? then ext.step else
        var loc := LocalStage(env, f, ext.step.world, ing, o);
        if loc.step.outcome.Failed? then loc.step else
          match WithHTTP(env, ing, ext.gateways)
          case None => Step(loc.step.world, Failed(Invalid))
          case Some(external) =>
            RoutingStageSeeing(env, f, loc.step.world, ing, o, sel, ext.wildcards, external, loc.gateways, cache)
  }

  function GatewayPass(env: Env, f: Faults, w: World, ing: Ingress, o: Orders): Step
    requires Fair(o)
  {
    GatewayPassSeeing(env, f, w, ing, o, Live)
  }
}
