/** The Knative, Istio and Kubernetes resources the reconciler reads and writes, with the fields it uses. */
module Types {

  datatype Option<+T> = None | Some(value: T)

  datatype Failure = NotFound | AlreadyExists | Refused | NotOwned(name: string) | Invalid

  datatype Outcome = Done | Failed(why: Failure)

  // ---------------------------------------------------------------- Knative Ingress

  const EXTERNAL_IP := "ExternalIP"
  const CLUSTER_LOCAL := "ClusterLocal"
  const HTTP_REDIRECTED := "Redirected"

  const INGRESS_LABEL := "networking.internal.knative.dev/ingress"
  const ROUTE_LABEL := "serving.knative.dev/route"
  const ROUTE_NAMESPACE_LABEL := "serving.knative.dev/routeNamespace"
  const CLASS_ANNOTATION := "networking.knative.dev/ingress.class"
  const ISTIO_CLASS := "istio.ingress.networking.knative.dev"

  type Labels = map<string, string>

  /** Reading a missing key of a Go map gives the zero value. */
  function Get(m: Labels, k: string): string {
    if k in m then m[k] else ""
  }

  datatype IngressTLS = IngressTLS(hosts: seq<string>, secretName: string, secretNamespace: string)

  datatype BackendSplit = BackendSplit(serviceName: string, serviceNamespace: string, servicePort: int,
                                       percent: int, appendHeaders: Labels)

  datatype IngressPath = IngressPath(path: string, rewriteHost: string, headers: Labels,
                                     splits: seq<BackendSplit>, appendHeaders: Labels)

  /** `http` is None for a nil HTTP block. */
  datatype IngressRule = IngressRule(hosts: seq<string>, visibility: string, http: Option<seq<IngressPath>>) {
    function Paths(): seq<IngressPath> {
      if http.Some? then http.value else []
    }
  }

  datatype Ingress = Ingress(namespace: string, name: string, uid: string, labels: Labels, annotations: Labels,
                             tls: seq<IngressTLS>, rules: seq<IngressRule>, httpOption: string)

  // ---------------------------------------------------------------- Istio VirtualService

  datatype Weighted = Weighted(host: string, port: int, weight: int, headers: Option<Labels>)

  /** Gateways, authority prefix, optional URI prefix and exact header values, all of which must hold. */
  datatype HTTPMatch = HTTPMatch(gateways: seq<string>, authority: string, uri: Option<string>, headers: Labels)

  datatype HTTPRoute = HTTPRoute(matches: seq<HTTPMatch>, route: seq<Weighted>, rewrite: Option<string>,
                                 headers: Option<Labels>)

  datatype VirtualServiceSpec = VirtualServiceSpec(hosts: seq<string>, gateways: seq<string>, http: seq<HTTPRoute>)

  // ---------------------------------------------------------------- Istio Gateway

  datatype TLSMode = Passthrough | Simple | Mutual

  datatype ServerTLS = ServerTLS(mode: TLSMode, credentialName: string, httpsRedirect: bool)

  /** A server list may hold nil pointers; protobuf getters on nil give zero values. */
  datatype Server = NilServer | Server(hosts: seq<string>, portName: string, portNumber: nat, protocol: string,
                                       tls: Option<ServerTLS>) {
    function PortName(): string { if NilServer? then "" else portName }
    function PortNumber(): nat { if NilServer? then 0 else portNumber }
    function Protocol(): string { if NilServer? then "" else protocol }
    function TLS(): Option<ServerTLS> { if NilServer? then None else tls }
  }

  datatype GatewaySpec = GatewaySpec(selector: Labels, servers: seq<Server>)

  // ---------------------------------------------------------------- configured gateways

  datatype SelectorRequirement = SelectorRequirement(key: string, operator: string, values: seq<string>)

  datatype LabelSelector = LabelSelector(matchLabels: Labels, matchExpressions: seq<SelectorRequirement>)

  datatype GatewayConfig = GatewayConfig(namespace: string, name: string, serviceURL: string,
                                         selector: Option<LabelSelector>) {
    function QualifiedName(): string { namespace + "/" + name }
  }

  datatype IstioConfig = IstioConfig(ingressGateways: seq<GatewayConfig>, localGateways: seq<GatewayConfig>)

  /** The functions of other packages that the reconciler calls, and two settings of its process. They are pure. */
  datatype Library = Library(
    domain: string,                                        // the cluster domain name
    systemNamespace: string,
    sprintf: (string, nat) -> string,                      // fmt.Sprintf of a format with one number
    md5Hex: string -> string,
    probeHash: Ingress -> string,
    certHosts: Labels -> Option<seq<string>>,              // DNS names of the certificate in a secret's data
    parseGateways: string -> Option<seq<GatewayConfig>>,   // the YAML parser
    selectorValid: LabelSelector -> bool,
    selectorMatches: (LabelSelector, Labels) -> bool)

  // ---------------------------------------------------------------- stored objects

  datatype Kind = VirtualServiceKind | GatewayKind | SecretKind

  datatype Ref = Ref(kind: Kind, namespace: string, name: string)

  datatype OwnerRef = OwnerRef(uid: string, controller: bool)

  datatype Body =
    | VirtualServiceBody(vs: VirtualServiceSpec)
    | GatewayBody(gw: GatewaySpec)
    | SecretBody(data: Labels, typ: string, uid: string)

  datatype Object = Object(labels: Labels, annotations: Labels, owners: seq<OwnerRef>, body: Body)

  /** The first owner reference marked as controller decides (metav1.IsControlledBy). */
  predicate OwnersControlledBy(owners: seq<OwnerRef>, uid: string) {
    owners != [] && if owners[0].controller then owners[0].uid == uid else OwnersControlledBy(owners[1..], uid)
  }

  predicate ControlledBy(o: Object, uid: string) {
    OwnersControlledBy(o.owners, uid)
  }

  lemma {:induction false} OneController(owners: seq<OwnerRef>, a: string, b: string)
    requires OwnersControlledBy(owners, a) && OwnersControlledBy(owners, b)
    ensures a == b
  {
    if !owners[0].controller {
      OneController(owners[1..], a, b);
    }
  }

  /** The table that the API server keeps. */
  type Objects = map<Ref, Object>

  /** An object to create or update, under the key it goes to. */
  datatype Want = Want(ref: Ref, obj: Object)

  function ControllerRef(uid: string): seq<OwnerRef> {
    [OwnerRef(uid, true)]
  }
}
