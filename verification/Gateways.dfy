/** The Gateways made for one Ingress: their names, their TLS servers, and the credentials those refer to. */
module Gateways {
  import opened Config
  import opened Secrets
  import opened Servers
  import opened Strings
  import opened Types

  const HTTP_PORT := 80
  const EXTERNAL_HTTPS_PORT := 443
  const LOCAL_HTTPS_PORT := 8444
  const HTTP_SERVER_NAME := "http-server"
  const LOCAL_POSTFIX := "-local"

  // ---------------------------------------------------------------- names

  function GatewayServiceChecksum(visibility: string, service: ServiceKey): string {
    var key := service.namespace + "/" + service.name;
    AdlerDecimal(if visibility == CLUSTER_LOCAL then key + LOCAL_POSTFIX else key)
  }

  function CutPrefix(name: string, room: nat): string {
    if |name| > room then name[..room] else name
  }

  function GatewayName(ingressName: string, visibility: string, service: ServiceKey): string {
    var checksum := GatewayServiceChecksum(visibility, service);
    ChecksumFits(visibility, service);
    CutPrefix(LabelOrChecksum(ingressName), LABEL_MAX - |checksum| - 1) + "-" + checksum
  }

  /** The cut is always in range: a checksum leaves room for at least 52 characters. */
  lemma ChecksumFits(visibility: string, service: ServiceKey)
    ensures 52 <= LABEL_MAX - |GatewayServiceChecksum(visibility, service)| - 1 <= 61
  {
    var key := service.namespace + "/" + service.name;
    AdlerDecimalLength(if visibility == CLUSTER_LOCAL then key + LOCAL_POSTFIX else key);
  }

  /** Whatever the Ingress is called, the Gateway gets a name Istio accepts. */
  lemma GatewayNameIsLabel(ingressName: string, visibility: string, service: ServiceKey)
    ensures IsDns1123Label(GatewayName(ingressName, visibility, service))
  {
    var checksum := GatewayServiceChecksum(visibility, service);
    ChecksumFits(visibility, service);
    ChecksumIsLabel(ingressName);
    var prefix := LabelOrChecksum(ingressName);
    assert IsDns1123Label(prefix);
    var cut := CutPrefix(prefix, LABEL_MAX - |checksum| - 1);
    assert cut != [] && cut[0] == prefix[0] && forall i :: 0 <= i < |cut| ==> cut[i] == prefix[i];
    var name := GatewayName(ingressName, visibility, service);
    assert name == cut + "-" + checksum;
    assert name[0] == cut[0] && name[|name| - 1] == checksum[|checksum| - 1];
    forall i | 0 <= i < |name| ensures name[i] == '-' || IsAlphanumeric(name[i]) {
      if i < |cut| { assert name[i] == prefix[i]; }
      if i > |cut| { assert name[i] == checksum[i - |cut| - 1]; }
    }
  }

  /** What stands of an Ingress name before the checksum. */
  function NameCut(ingressName: string, checksum: string): string
    requires |checksum| < LABEL_MAX
  {
    CutPrefix(LabelOrChecksum(ingressName), LABEL_MAX - |checksum| - 1)
  }

  /** The last dash separates. */
  lemma LastSeparator(p: string, q: string, p': string, q': string)
    requires '-' !in q && '-' !in q' && p + "-" + q == p' + "-" + q'
    ensures p == p' && q == q'
  {
    var s := p + "-" + q;
    assert s[|p|] == '-' && s[|p'|] == '-';
    assert (forall i :: |p| < i < |s| ==> s[i] != '-') && forall i :: |p'| < i < |s| ==> s[i] != '-';
    assert s[..|p|] == p && s[..|p'|] == p' && s[|p| + 1..] == q && s[|p'| + 1..] == q';
  }

  lemma ChecksumHasNoDash(visibility: string, service: ServiceKey)
    ensures '-' !in GatewayServiceChecksum(visibility, service)
  {
    var key := service.namespace + "/" + service.name;
    AdlerDecimalLength(if visibility == CLUSTER_LOCAL then key + LOCAL_POSTFIX else key);
  }

  /** Two Gateways have one name exactly when their services have one checksum and their Ingress names one cut. */
  lemma GatewayNamesMeetExactly(a: string, visibility: string, s: ServiceKey, b: string, visibility': string,
                                t: ServiceKey)
    ensures |GatewayServiceChecksum(visibility, s)| < LABEL_MAX
    ensures GatewayName(a, visibility, s) == GatewayName(b, visibility', t) <==>
            && GatewayServiceChecksum(visibility, s) == GatewayServiceChecksum(visibility', t)
            && NameCut(a, GatewayServiceChecksum(visibility, s)) == NameCut(b, GatewayServiceChecksum(visibility, s))
  {
    var c, d := GatewayServiceChecksum(visibility, s), GatewayServiceChecksum(visibility', t);
    ChecksumFits(visibility, s);
    ChecksumFits(visibility', t);
    ChecksumHasNoDash(visibility, s);
    ChecksumHasNoDash(visibility', t);
    if GatewayName(a, visibility, s) == GatewayName(b, visibility', t) {
      LastSeparator(NameCut(a, c), c, NameCut(b, d), d);
    }
  }

  /** For names that are labels: the services have one checksum, and the names are the same, or long and the same up to
      where they are cut, which is at 52 to 61 characters. The rest of a long name is dropped, not hashed. */
  lemma LabelNamesMeetExactly(a: string, visibility: string, s: ServiceKey, b: string, visibility': string,
                              t: ServiceKey)
    requires IsDns1123Label(a) && IsDns1123Label(b)
    ensures var room := LABEL_MAX - |GatewayServiceChecksum(visibility, s)| - 1;
            && 52 <= room <= 61
            && (GatewayName(a, visibility, s) == GatewayName(b, visibility', t) <==>
                && GatewayServiceChecksum(visibility, s) == GatewayServiceChecksum(visibility', t)
                && (a == b || (|a| >= room && |b| >= room && a[..room] == b[..room])))
  {
    ChecksumFits(visibility, s);
    GatewayNamesMeetExactly(a, visibility, s, b, visibility', t);
  }

  function HexDigit(d: nat): char
    requires d < 16
  {
    if d < 10 then Digit(d) else ('a' as int + d - 10) as char
  }

  function Hex(n: nat): string {
    if n < 16 then [HexDigit(n)] else Hex(n / 16) + [HexDigit(n % 16)]
  }

  function WildcardGatewayName(secretName: string, service: ServiceKey): string {
    "wildcard-" + Hex(Adler32(secretName + "-" + service.namespace + "-" + service.name))
  }

  // ---------------------------------------------------------------- TLS servers

  function PortNameOf(lib: Library, namespace: string, name: string, i: nat): string {
    lib.sprintf(PortNamePrefix(namespace, name) + ":%d", i)
  }

  /** fmt.Sprintf puts the number in place of the verb when the rest of the format is free of "%". */
  ghost predicate FormatsPlainly(lib: Library) {
    forall p, i :: '%' !in p ==> lib.sprintf(p + ":%d", i) == p + ":" + Decimal(i)
  }

  function HttpsPort(visibility: string): Option<nat> {
    if visibility == EXTERNAL_IP then Some(EXTERNAL_HTTPS_PORT)
    else if visibility == CLUSTER_LOCAL then Some(LOCAL_HTTPS_PORT)
    else None
  }

  /** The secret a server refers to in the namespace of its gateway service: the origin itself, or its copy. */
  function CredentialName(ingressName: string, tls: IngressTLS, gatewayNamespace: string,
                          origins: Origins): Option<string>
  {
    if tls.secretNamespace == gatewayNamespace then Some(tls.secretName)
    else if SecretKey(tls) in origins then Some(TargetSecretName(ingressName, origins[SecretKey(tls)]))
    else None
  }

  function TLSServer(lib: Library, ing: Ingress, port: nat, i: nat, tls: IngressTLS, credential: string): Server {
    Server(tls.hosts, PortNameOf(lib, ing.namespace, ing.name, i), port, "HTTPS",
           Some(ServerTLS(Simple, credential, false)))
  }

  /** One server per TLS entry, before sorting; None if an origin is missing. */
  function ServersFor(lib: Library, ing: Ingress, port: nat, tls: seq<IngressTLS>, gatewayNamespace: string,
                      origins: Origins)
    : (r: Option<seq<Server>>)
    ensures r.Some? ==> |r.value| == |tls|
    ensures r.Some? ==> forall i :: 0 <= i < |tls| ==>
              && CredentialName(ing.name, tls[i], gatewayNamespace, origins).Some?
              && r.value[i] ==
                 TLSServer(lib, ing, port, i, tls[i], CredentialName(ing.name, tls[i], gatewayNamespace, origins).value)
  {
    if tls == [] then Some([]) else
      var n := |tls| - 1;
      match (ServersFor(lib, ing, port, tls[..n], gatewayNamespace, origins),
             CredentialName(ing.name, tls[n], gatewayNamespace, origins))
      case (Some(init), Some(credential)) => Some(init + [TLSServer(lib, ing, port, n, tls[n], credential)])
      case _ => None
  }

  function TLSServers(lib: Library, ing: Ingress, visibility: string, tls: seq<IngressTLS>, gatewayNamespace: string,
                      origins: Origins): Option<seq<Server>>
  {
    match HttpsPort(visibility)
    case None => None
    case Some(port) =>
      match ServersFor(lib, ing, port, tls, gatewayNamespace, origins)
      case None => None
      case Some(servers) => Some(SortByName(servers))
  }

  lemma ServersForStep(lib: Library, ing: Ingress, port: nat, tls: seq<IngressTLS>, i: nat, gatewayNamespace: string,
                       origins: Origins)
    requires i < |tls|
    ensures var before := ServersFor(lib, ing, port, tls[..i], gatewayNamespace, origins);
            var credential := CredentialName(ing.name, tls[i], gatewayNamespace, origins);
            ServersFor(lib, ing, port, tls[..i + 1], gatewayNamespace, origins) ==
            if before.Some? && credential.Some?
            then Some(before.value + [TLSServer(lib, ing, port, i, tls[i], credential.value)])
            else None
  {
    assert tls[..i + 1][..i] == tls[..i];
  }

  method MakeTLSServers(lib: Library, ing: Ingress, visibility: string, tls: seq<IngressTLS>, gatewayNamespace: string,
                        origins: Origins) returns (result: Option<seq<Server>>)
    ensures result == TLSServers(lib, ing, visibility, tls, gatewayNamespace, origins)
  {
    var port := HttpsPort(visibility);
    if port.None? {
      return None;
    }
    var servers: seq<Server> := [];
    var i := 0;
    while i < |tls|
      invariant 0 <= i <= |tls|
      invariant ServersFor(lib, ing, port.value, tls[..i], gatewayNamespace, origins) == Some(servers)
    {
      var credential := CredentialName(ing.name, tls[i], gatewayNamespace, origins);
      ServersForStep(lib, ing, port.value, tls, i, gatewayNamespace, origins);
      if credential.None? {
        MissingOriginFails(lib, ing, port.value, tls, i, gatewayNamespace, origins);
        return None;
      }
      servers := servers + [TLSServer(lib, ing, port.value, i, tls[i], credential.value)];
      i := i + 1;
    }
    assert tls[..i] == tls;
    var sorted := Sorted(servers);
    return Some(sorted);
  }

  lemma {:induction false} MissingOriginFails(lib: Library, ing: Ingress, port: nat, tls: seq<IngressTLS>, i: nat,
                                              gatewayNamespace: string, origins: Origins)
    requires i < |tls| && CredentialName(ing.name, tls[i], gatewayNamespace, origins).None?
    ensures ServersFor(lib, ing, port, tls, gatewayNamespace, origins) == None
  {
    if i < |tls| - 1 {
      MissingOriginFails(lib, ing, port, tls[..|tls| - 1], i, gatewayNamespace, origins);
    }
  }

  /** The servers can be made exactly when every entry whose secret lies elsewhere has its origin at hand. */
  lemma {:induction false} ServersForExactly(lib: Library, ing: Ingress, port: nat, tls: seq<IngressTLS>,
                                             gatewayNamespace: string, origins: Origins)
    ensures ServersFor(lib, ing, port, tls, gatewayNamespace, origins).Some? <==>
            forall t :: t in tls && t.secretNamespace != gatewayNamespace ==> SecretKey(t) in origins
  {
    if tls != [] {
      assert tls == tls[..|tls| - 1] + [tls[|tls| - 1]];
      ServersForExactly(lib, ing, port, tls[..|tls| - 1], gatewayNamespace, origins);
    }
  }

  // ---------------------------------------------------------------- port names identify servers

  lemma PortNameShape(lib: Library, namespace: string, name: string, i: nat)
    requires FormatsPlainly(lib) && ':' !in namespace && '%' !in namespace
    ensures PortNameOf(lib, namespace, name, i) == PortNamePrefix(namespace, name) + ":" + Decimal(i)
    ensures Split(PortNameOf(lib, namespace, name, i), ':') == [PortNamePrefix(namespace, name), Decimal(i)]
  {
    if IsDns1123Label(name) { LabelExcludes(name, '%'); }
    assert '%' !in PortNamePrefix(namespace, name);
    PrefixHasNoColon(namespace, name);
    SplitPair(PortNamePrefix(namespace, name), Decimal(i), ':');
  }

  lemma PortNamesDiffer(lib: Library, namespace: string, name: string, i: nat, j: nat)
    requires FormatsPlainly(lib) && ':' !in namespace && '%' !in namespace
    requires PortNameOf(lib, namespace, name, i) == PortNameOf(lib, namespace, name, j)
    ensures i == j
  {
    PortNameShape(lib, namespace, name, i);
    PortNameShape(lib, namespace, name, j);
    var a, b := [PortNamePrefix(namespace, name), Decimal(i)], [PortNamePrefix(namespace, name), Decimal(j)];
    assert a == b && a[1] == b[1];
    DecimalInjective(i, j);
  }

  /** TLS servers have pairwise distinct port names, all owned by their Ingress. */
  lemma TLSServersOwned(lib: Library, ing: Ingress, port: nat, tls: seq<IngressTLS>, gatewayNamespace: string,
                        origins: Origins)
    requires FormatsPlainly(lib) && ':' !in ing.namespace && '%' !in ing.namespace
    requires ServersFor(lib, ing, port, tls, gatewayNamespace, origins).Some?
    ensures var servers := ServersFor(lib, ing, port, tls, gatewayNamespace, origins).value;
            && (forall i, j :: 0 <= i < j < |servers| ==> servers[i].PortName() != servers[j].PortName())
            && (forall s :: s in servers ==> Belongs(s, ing.namespace, ing.name))
  {
    var servers := ServersFor(lib, ing, port, tls, gatewayNamespace, origins).value;
    forall i, j | 0 <= i < j < |servers| ensures servers[i].PortName() != servers[j].PortName() {
      if servers[i].PortName() == servers[j].PortName() {
        PortNamesDiffer(lib, ing.namespace, ing.name, i, j);
      }
    }
    forall s | s in servers ensures Belongs(s, ing.namespace, ing.name) {
      var i :| 0 <= i < |servers| && servers[i] == s;
      PortNameShape(lib, ing.namespace, ing.name, i);
    }
  }

  function HTTPServer(httpOption: string, hosts: seq<string>): Server {
    if httpOption == "" then NilServer
    else Server(hosts, HTTP_SERVER_NAME, HTTP_PORT, "HTTP",
                if httpOption == HTTP_REDIRECTED then Some(ServerTLS(Passthrough, "", true)) else None)
  }

  lemma HTTPServerBelongsToNone(httpOption: string, hosts: seq<string>, namespace: string, name: string)
    ensures !Belongs(HTTPServer(httpOption, hosts), namespace, name)
  {
    assert ':' !in HTTP_SERVER_NAME;
    assert Split(HTTP_SERVER_NAME, ':') == [HTTP_SERVER_NAME] && Split("", ':') == [""];
  }

  /** Sorting a sorted list changes nothing. */
  lemma {:induction false} SortIdempotent(l: seq<Server>)
    requires ByName(l)
    ensures SortByName(l) == l
  {
    if l != [] {
      var init, last := l[..|l| - 1], l[|l| - 1];
      assert l == init + [last];
      SortIdempotent(init);
      assert init == [] || init[|init| - 1] == l[|l| - 2];
    }
  }

  lemma {:induction false} AllOwned(servers: seq<Server>, namespace: string, name: string)
    requires forall s :: s in servers ==> Belongs(s, namespace, name)
    ensures Owned(servers, namespace, name) == servers
  {
    if servers != [] {
      assert servers == servers[..|servers| - 1] + [servers[|servers| - 1]];
      AllOwned(servers[..|servers| - 1], namespace, name);
    }
  }

  lemma {:induction false} OwnedConcat(a: seq<Server>, b: seq<Server>, namespace: string, name: string)
    ensures Owned(a + b, namespace, name) == Owned(a, namespace, name) + Owned(b, namespace, name)
  {
    if b == [] {
      assert a + b == a;
    } else {
      assert (a + b)[..|a + b| - 1] == a + b[..|b| - 1];
      OwnedConcat(a, b[..|b| - 1], namespace, name);
    }
  }

  lemma {:induction false} NoneOwned(servers: seq<Server>, namespace: string, name: string)
    requires forall s :: s in servers ==> !Belongs(s, namespace, name)
    ensures Owned(servers, namespace, name) == []
  {
    if servers != [] {
      assert servers == servers[..|servers| - 1] + [servers[|servers| - 1]];
      NoneOwned(servers[..|servers| - 1], namespace, name);
    }
  }

  /** The TLS servers come back, in their order, from any list that also holds servers of others, such as the HTTP
      server. */
  lemma TLSServersRoundTrip(lib: Library, ing: Ingress, visibility: string, tls: seq<IngressTLS>,
                            gatewayNamespace: string, origins: Origins, before: seq<Server>, after: seq<Server>)
    requires FormatsPlainly(lib) && ':' !in ing.namespace && '%' !in ing.namespace
    requires TLSServers(lib, ing, visibility, tls, gatewayNamespace, origins).Some?
    requires forall s :: s in before || s in after ==> !Belongs(s, ing.namespace, ing.name)
    ensures var mine := TLSServers(lib, ing, visibility, tls, gatewayNamespace, origins).value;
            GetServers(before + mine + after, ing.namespace, ing.name) == mine
  {
    var port := HttpsPort(visibility).value;
    var raw := ServersFor(lib, ing, port, tls, gatewayNamespace, origins).value;
    var mine := SortByName(raw);
    TLSServersOwned(lib, ing, port, tls, gatewayNamespace, origins);
    SortConserves(raw);
    SortOrders(raw);
    AllOwned(mine, ing.namespace, ing.name);
    NoneOwned(before, ing.namespace, ing.name);
    NoneOwned(after, ing.namespace, ing.name);
    OwnedConcat(before + mine, after, ing.namespace, ing.name);
    OwnedConcat(before, mine, ing.namespace, ing.name);
    assert [] + mine + [] == mine;
    SortIdempotent(mine);
  }

  // ---------------------------------------------------------------- Gateways

  datatype GatewayService = GatewayService(key: ServiceKey, selector: Labels)

  /** The services behind the gateways; None if one does not exist. */
  function ResolveServices(keys: seq<ServiceKey>, services: map<ServiceKey, Labels>): (r: Option<seq<GatewayService>>)
    ensures r.Some? ==> |r.value| == |keys| && forall i :: 0 <= i < |keys| ==> r.value[i].key == keys[i]
  {
    if exists k :: k in keys && k !in services then None
    else Some(seq(|keys|, i requires 0 <= i < |keys| => GatewayService(keys[i], services[keys[i]])))
  }

  function IngressGateway(ing: Ingress, visibility: string, service: GatewayService, servers: seq<Server>): Want {
    Want(Ref(GatewayKind, ing.namespace, GatewayName(ing.name, visibility, service.key)),
         Object(map[INGRESS_LABEL := ing.name], map[], ControllerRef(ing.uid),
                GatewayBody(GatewaySpec(service.selector, servers))))
  }

  function TLSGatewayFor(lib: Library, ing: Ingress, visibility: string, tls: seq<IngressTLS>, origins: Origins,
                         service: GatewayService): Option<Want>
  {
    match TLSServers(lib, ing, visibility, tls, service.key.namespace, origins)
    case None => None
    case Some(servers) => Some(IngressGateway(ing, visibility, service, servers))
  }

  /** A Gateway per service with the TLS servers; None if an origin is missing. */
  function TLSGateways(lib: Library, ing: Ingress, visibility: string, tls: seq<IngressTLS>, origins: Origins,
                       services: seq<GatewayService>): Option<seq<Want>>
  {
    if services == [] then Some([]) else
      var init := TLSGateways(lib, ing, visibility, tls, origins, services[..|services| - 1]);
      var last := TLSGatewayFor(lib, ing, visibility, tls, origins, services[|services| - 1]);
      if init.Some? && last.Some? then Some(init.value + [last.value]) else None
  }

  lemma {:induction false} TLSGatewaysEach(lib: Library, ing: Ingress, visibility: string, tls: seq<IngressTLS>,
                                           origins: Origins, services: seq<GatewayService>)
    ensures var r := TLSGateways(lib, ing, visibility, tls, origins, services);
            && (r.Some? <==> forall s :: s in services ==> TLSGatewayFor(lib, ing, visibility, tls, origins, s).Some?)
            && (r.Some? ==> forall w :: w in r.value <==>
                  exists s :: s in services && TLSGatewayFor(lib, ing, visibility, tls, origins, s) == Some(w))
            && (r.Some? ==> |r.value| == |services|)
  {
    if services != [] {
      var init, last := services[..|services| - 1], services[|services| - 1];
      assert services == init + [last];
      TLSGatewaysEach(lib, ing, visibility, tls, origins, init);
    }
  }

  lemma TLSGatewaysStep(lib: Library, ing: Ingress, visibility: string, tls: seq<IngressTLS>, origins: Origins,
                        services: seq<GatewayService>, i: nat)
    requires i < |services|
    ensures var before := TLSGateways(lib, ing, visibility, tls, origins, services[..i]);
            var here := TLSGatewayFor(lib, ing, visibility, tls, origins, services[i]);
            TLSGateways(lib, ing, visibility, tls, origins, services[..i + 1]) ==
            if before.Some? && here.Some? then Some(before.value + [here.value]) else None
  {
    assert services[..i + 1][..i] == services[..i];
  }

  lemma {:induction false} TLSGatewaysFail(lib: Library, ing: Ingress, visibility: string, tls: seq<IngressTLS>,
                                           origins: Origins, services: seq<GatewayService>, i: nat)
    requires i < |services| && TLSGatewayFor(lib, ing, visibility, tls, origins, services[i]).None?
    ensures TLSGateways(lib, ing, visibility, tls, origins, services) == None
  {
    if i < |services| - 1 {
      TLSGatewaysFail(lib, ing, visibility, tls, origins, services[..|services| - 1], i);
    }
  }

  method MakeTLSGateways(lib: Library, ing: Ingress, visibility: string, tls: seq<IngressTLS>, origins: Origins,
                         services: seq<GatewayService>) returns (result: Option<seq<Want>>)
    ensures result == TLSGateways(lib, ing, visibility, tls, origins, services)
  {
    var gateways: seq<Want> := [];
    var i := 0;
    while i < |services|
      invariant 0 <= i <= |services|
      invariant TLSGateways(lib, ing, visibility, tls, origins, services[..i]) == Some(gateways)
    {
      TLSGatewaysStep(lib, ing, visibility, tls, origins, services, i);
      var servers := MakeTLSServers(lib, ing, visibility, tls, services[i].key.namespace, origins);
      if servers.None? {
        TLSGatewaysFail(lib, ing, visibility, tls, origins, services, i);
        return None;
      }
      assert TLSGatewayFor(lib, ing, visibility, tls, origins, services[i]) ==
             Some(IngressGateway(ing, visibility, services[i], servers.value));
      gateways := gateways + [IngressGateway(ing, visibility, services[i], servers.value)];
      i := i + 1;
    }
    assert services[..i] == services;
    return Some(gateways);
  }

  function ExternalGateways(ing: Ingress, servers: seq<Server>, services: seq<GatewayService>): (r: seq<Want>)
    ensures |r| == |services|
    ensures forall i :: 0 <= i < |services| ==> r[i] == IngressGateway(ing, EXTERNAL_IP, services[i], servers)
  {
    seq(|services|, i requires 0 <= i < |services| => IngressGateway(ing, EXTERNAL_IP, services[i], servers))
  }

  /** The HTTP server goes behind the TLS servers of each Gateway. */
  function WithServer(gateways: seq<Want>, server: Server): (r: seq<Want>)
    requires forall g :: g in gateways ==> g.obj.body.GatewayBody?
    ensures |r| == |gateways|
    ensures forall i :: 0 <= i < |gateways| ==>
              r[i] == Want(gateways[i].ref, gateways[i].obj.(body := GatewayBody(
                        gateways[i].obj.body.gw.(servers := gateways[i].obj.body.gw.servers + [server]))))
  {
    seq(|gateways|, i requires 0 <= i < |gateways| =>
      Want(gateways[i].ref, gateways[i].obj.(body := GatewayBody(
        gateways[i].obj.body.gw.(servers := gateways[i].obj.body.gw.servers + [server])))))
  }

  function WildcardCredential(origin: StoredSecret, service: ServiceKey): string {
    if origin.namespace == service.namespace then origin.name
    else TargetWildcardSecretName(origin.name, origin.namespace)
  }

  function WildcardGateway(origin: StoredSecret, hosts: seq<string>, service: GatewayService): Want {
    Want(Ref(GatewayKind, origin.namespace, WildcardGatewayName(origin.name, service.key)),
         Object(map[], map[], ControllerRef(origin.uid),
                GatewayBody(GatewaySpec(service.selector,
                  [Server(hosts, "https", EXTERNAL_HTTPS_PORT, "HTTPS",
                          Some(ServerTLS(Simple, WildcardCredential(origin, service.key), false)))]))))
  }

  /** One Gateway per wildcard secret for one service, in the order the map was iterated; None for a bad certificate. */
  function WildcardGatewaysFor(lib: Library, order: seq<string>, origins: Origins,
                               service: GatewayService): (r: Option<seq<Want>>)
    requires forall k :: k in order ==> k in origins
    ensures r.Some? <==> forall k :: k in order ==> lib.certHosts(origins[k].data).Some?
    ensures r.Some? ==> forall w :: w in r.value <==>
              exists k :: k in order && lib.certHosts(origins[k].data).Some?
                          && w == WildcardGateway(origins[k], lib.certHosts(origins[k].data).value, service)
  {
    if order == [] then Some([]) else
      var k := order[|order| - 1];
      assert order == order[..|order| - 1] + [k];
      match (WildcardGatewaysFor(lib, order[..|order| - 1], origins, service), lib.certHosts(origins[k].data))
      case (Some(init), Some(hosts)) => Some(init + [WildcardGateway(origins[k], hosts, service)])
      case _ => None
  }

  lemma WildcardGatewaysStep(lib: Library, order: seq<string>, origins: Origins, service: GatewayService, i: nat)
    requires i < |order| && forall k :: k in order ==> k in origins
    ensures var before, origin := WildcardGatewaysFor(lib, order[..i], origins, service), origins[order[i]];
            var hosts := lib.certHosts(origin.data);
            WildcardGatewaysFor(lib, order[..i + 1], origins, service) ==
            if before.Some? && hosts.Some?
            then Some(before.value + [WildcardGateway(origin, hosts.value, service)]) else None
  {
    assert order[..i + 1][..i] == order[..i];
  }

  method MakeWildcardGateways(lib: Library, order: seq<string>, origins: Origins, service: GatewayService)
    returns (result: Option<seq<Want>>)
    requires forall k :: k in order ==> k in origins
    ensures result == WildcardGatewaysFor(lib, order, origins, service)
  {
    var gateways: seq<Want> := [];
    var i := 0;
    while i < |order|
      invariant 0 <= i <= |order|
      invariant WildcardGatewaysFor(lib, order[..i], origins, service) == Some(gateways)
    {
      var secret := origins[order[i]];
      WildcardGatewaysStep(lib, order, origins, service, i);
      var hosts := lib.certHosts(secret.data);
      if hosts.None? {
        assert order[i] in order;
        return None;
      }
      gateways := gateways + [WildcardGateway(secret, hosts.value, service)];
      i := i + 1;
    }
    assert order[..i] == order;
    return Some(gateways);
  }
}
