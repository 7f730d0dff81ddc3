/** What to probe: the pods and ports behind each gateway, one target for each protocol, port and endpoint subset. */
module ProbeTargets {
  import opened Config
  import opened HostPrefixes
  import opened IngressPass
  import opened Secrets
  import opened Strings
  import opened Types
  import opened VirtualServices

  datatype Port = Port(name: string, number: int)

  datatype Service = Service(key: ServiceKey, labels: Labels, ports: seq<Port>)

  datatype Subset = Subset(addresses: seq<string>, ports: seq<Port>)

  datatype URL = URL(scheme: string, host: string)

  datatype ProbeTarget = ProbeTarget(podIPs: set<string>, podPort: string, port: string, url: URL)

  /** What the listers show; services come in the order the lister happens to give. */
  datatype Listers = Listers(objects: Objects, services: seq<Service>, endpoints: map<ServiceKey, seq<Subset>>)

  // ---------------------------------------------------------------- ports

  /** The name of the first service port with a number. */
  function NameForPortNumber(ports: seq<Port>, number: int): Option<string> {
    if ports == [] then None
    else if ports[0].number == number then Some(ports[0].name) else NameForPortNumber(ports[1..], number)
  }

  /** The number of the first endpoint port with a name. */
  function PortNumberForName(ports: seq<Port>, name: string): Option<int> {
    if ports == [] then None
    else if ports[0].name == name then Some(ports[0].number) else PortNumberForName(ports[1..], name)
  }

  /** strconv.Itoa. */
  function Itoa(n: int): string {
    if n < 0 then "-" + Decimal(-n) else Decimal(n)
  }

  /** The service's name for a server port; the conversion to int32 wraps around. */
  function ServicePortName(service: Service, number: nat): Option<string> {
    NameForPortNumber(service.ports, ToInt32(number))
  }

  /** The pod port that a server port leads to in one subset. */
  function PodPort(service: Service, number: nat, subset: Subset): Option<int> {
    match ServicePortName(service, number)
    case None => None
    case Some(name) => PortNumberForName(subset.ports, name)
  }

  // ---------------------------------------------------------------- what is to be probed, without deduplication

  /** Servers that redirect to HTTPS or ask for client certificates are skipped, as are other protocols. */
  predicate Eligible(s: Server) {
    if s.Protocol() == "HTTP" || s.Protocol() == "HTTP2" then !(s.TLS().Some? && s.TLS().value.httpsRedirect)
    else s.Protocol() == "HTTPS" && !(s.TLS().Some? && s.TLS().value.mode.Mutual?)
  }

  function Scheme(protocol: string): string {
    if protocol == "HTTPS" then "https" else "http"
  }

  predicate Offers(service: Service, s: Server) {
    Eligible(s) && ServicePortName(service, s.PortNumber()).Some?
  }

  /** Which target: a protocol and port of a server, and a subset of the endpoints by place. */
  datatype Tag = Tag(protocol: string, number: nat, subset: nat)

  predicate OfferedBy(servers: seq<Server>, service: Service, protocol: string, number: nat) {
    exists s :: s in servers && Offers(service, s) && s.Protocol() == protocol && s.PortNumber() == number
  }

  /** Some eligible server has the protocol and port, and the port resolves on the service and in the subset. */
  predicate Due(servers: seq<Server>, service: Service, subsets: seq<Subset>, t: Tag) {
    && t.subset < |subsets| && OfferedBy(servers, service, t.protocol, t.number)
    && PodPort(service, t.number, subsets[t.subset]).Some?
  }

  function TargetOf(service: Service, subsets: seq<Subset>, t: Tag): ProbeTarget
    requires t.subset < |subsets| && PodPort(service, t.number, subsets[t.subset]).Some?
  {
    var subset := subsets[t.subset];
    ProbeTarget(Members(subset.addresses), Itoa(PodPort(service, t.number, subset).value), Itoa(t.number),
                URL(Scheme(t.protocol), ""))
  }

  // ---------------------------------------------------------------- the order of the targets

  /** The subsets, up to the n-th, in which the port resolves. */
  function SubsetTags(service: Service, subsets: seq<Subset>, protocol: string, number: nat, n: nat): (tags: seq<Tag>)
    requires n <= |subsets|
    ensures forall t :: t in tags <==> t.protocol == protocol && t.number == number && t.subset < n
                                       && PodPort(service, number, subsets[t.subset]).Some?
  {
    if n == 0 then [] else
      var init := SubsetTags(service, subsets, protocol, number, n - 1);
      if PodPort(service, number, subsets[n - 1]).Some? then init + [Tag(protocol, number, n - 1)] else init
  }

  /** Only the first server of its protocol and port counts, and only among those that are offered. */
  function Tags(servers: seq<Server>, service: Service, subsets: seq<Subset>): seq<Tag> {
    if servers == [] then [] else
      var init, s := servers[..|servers| - 1], servers[|servers| - 1];
      if Offers(service, s) && !OfferedBy(init, service, s.Protocol(), s.PortNumber())
      then Tags(init, service, subsets) + SubsetTags(service, subsets, s.Protocol(), s.PortNumber(), |subsets|)
      else Tags(init, service, subsets)
  }

  lemma {:induction false} SubsetTagsDistinct(service: Service, subsets: seq<Subset>, protocol: string, number: nat,
                                              n: nat)
    requires n <= |subsets|
    ensures Distinct(SubsetTags(service, subsets, protocol, number, n))
  {
    if n > 0 {
      SubsetTagsDistinct(service, subsets, protocol, number, n - 1);
      var init := SubsetTags(service, subsets, protocol, number, n - 1);
      assert forall i :: 0 <= i < |init| ==> init[i] in init;
    }
  }

  lemma DistinctConcat<T>(a: seq<T>, b: seq<T>)
    requires Distinct(a) && Distinct(b) && forall x :: x in a ==> x !in b
    ensures Distinct(a + b)
  {
    forall i, j | 0 <= i < j < |a + b| ensures (a + b)[i] != (a + b)[j] {
      if i < |a| <= j {
        assert a[i] in a && b[j - |a|] in b;
      }
    }
  }

  lemma OfferedSnoc(init: seq<Server>, s: Server, service: Service, protocol: string, number: nat)
    ensures OfferedBy(init + [s], service, protocol, number) <==>
            OfferedBy(init, service, protocol, number)
            || (Offers(service, s) && s.Protocol() == protocol && s.PortNumber() == number)
  {
    if Offers(service, s) && s.Protocol() == protocol && s.PortNumber() == number {
      assert s in init + [s];
    }
    if t :| t in init && Offers(service, t) && t.Protocol() == protocol && t.PortNumber() == number {
      assert t in init + [s];
    }
  }

  /** Every due target is made exactly once, and no other. */
  lemma {:induction false} TagsExactly(servers: seq<Server>, service: Service, subsets: seq<Subset>)
    ensures Distinct(Tags(servers, service, subsets))
    ensures forall t :: t in Tags(servers, service, subsets) <==> Due(servers, service, subsets, t)
  {
    if servers != [] {
      var init, s := servers[..|servers| - 1], servers[|servers| - 1];
      assert servers == init + [s];
      TagsExactly(init, service, subsets);
      forall t: Tag
        ensures Due(servers, service, subsets, t) <==> Due(init, service, subsets, t) || DueFor(service, subsets, s, t)
      {
        OfferedSnoc(init, s, service, t.protocol, t.number);
      }
      if Offers(service, s) && !OfferedBy(init, service, s.Protocol(), s.PortNumber()) {
        SubsetTagsDistinct(service, subsets, s.Protocol(), s.PortNumber(), |subsets|);
        DistinctConcat(Tags(init, service, subsets),
                       SubsetTags(service, subsets, s.Protocol(), s.PortNumber(), |subsets|));
      }
    }
  }

  /** Due because of one server. */
  predicate DueFor(service: Service, subsets: seq<Subset>, s: Server, t: Tag) {
    && Offers(service, s) && t.protocol == s.Protocol() && t.number == s.PortNumber()
    && t.subset < |subsets| && PodPort(service, t.number, subsets[t.subset]).Some?
  }

  /** The servers that are not skipped. */
  function EligibleOnly(servers: seq<Server>): seq<Server> {
    if servers == [] then [] else
      var init, s := EligibleOnly(servers[..|servers| - 1]), servers[|servers| - 1];
      if Eligible(s) then init + [s] else init
  }

  /** A skipped server, wherever it stands, suppresses nothing. */
  lemma {:induction false} SkippedSuppressNothing(servers: seq<Server>, service: Service, subsets: seq<Subset>)
    ensures Tags(servers, service, subsets) == Tags(EligibleOnly(servers), service, subsets)
    ensures forall p, n :: OfferedBy(servers, service, p, n) <==> OfferedBy(EligibleOnly(servers), service, p, n)
  {
    if servers != [] {
      var init, s := servers[..|servers| - 1], servers[|servers| - 1];
      assert servers == init + [s];
      SkippedSuppressNothing(init, service, subsets);
      forall p, n ensures OfferedBy(servers, service, p, n) <==> OfferedBy(EligibleOnly(servers), service, p, n) {
        OfferedSnoc(init, s, service, p, n);
        OfferedSnoc(EligibleOnly(init), s, service, p, n);
      }
    }
  }

  function TargetsOf(service: Service, subsets: seq<Subset>, tags: seq<Tag>): (targets: seq<ProbeTarget>)
    requires forall t :: t in tags ==> t.subset < |subsets| && PodPort(service, t.number, subsets[t.subset]).Some?
    ensures |targets| == |tags| && forall i :: 0 <= i < |tags| ==> targets[i] == TargetOf(service, subsets, tags[i])
  {
    seq(|tags|, i requires 0 <= i < |tags| => TargetOf(service, subsets, tags[i]))
  }

  /** The targets of a server list, in order. */
  function AllTargets(servers: seq<Server>, service: Service, subsets: seq<Subset>): seq<ProbeTarget> {
    TagsExactly(servers, service, subsets);
    TargetsOf(service, subsets, Tags(servers, service, subsets))
  }

  // ---------------------------------------------------------------- deduplication by key

  function SeenKey(protocol: string, number: nat): string {
    protocol + ['/'] + Itoa(number)
  }

  /** The key of an eligible server says its protocol and port. */
  lemma SeenKeyInjective(a: Server, b: Server)
    requires Eligible(a) && Eligible(b)
    requires SeenKey(a.Protocol(), a.PortNumber()) == SeenKey(b.Protocol(), b.PortNumber())
    ensures a.Protocol() == b.Protocol() && a.PortNumber() == b.PortNumber()
  {
    JoinInjective(a.Protocol(), Itoa(a.PortNumber()), b.Protocol(), Itoa(b.PortNumber()), '/');
    DecimalInjective(a.PortNumber(), b.PortNumber());
  }

  function SeenKeys(servers: seq<Server>, service: Service): (seen: set<string>)
    ensures forall s :: s in servers && Offers(service, s) ==> SeenKey(s.Protocol(), s.PortNumber()) in seen
    ensures forall k :: k in seen ==>
              exists s :: s in servers && Offers(service, s) && SeenKey(s.Protocol(), s.PortNumber()) == k
  {
    set s | s in servers && Offers(service, s) :: SeenKey(s.Protocol(), s.PortNumber())
  }

  lemma SeenExactly(servers: seq<Server>, service: Service, s: Server)
    requires Eligible(s)
    ensures SeenKey(s.Protocol(), s.PortNumber()) in SeenKeys(servers, service) <==>
            OfferedBy(servers, service, s.Protocol(), s.PortNumber())
  {
    var key := SeenKey(s.Protocol(), s.PortNumber());
    if key in SeenKeys(servers, service) {
      var t :| t in servers && Offers(service, t) && SeenKey(t.Protocol(), t.PortNumber()) == key;
      SeenKeyInjective(s, t);
    }
  }

  method PodIPs(addresses: seq<string>) returns (podIPs: set<string>)
    ensures podIPs == Members(addresses)
  {
    podIPs := {};
    for j := 0 to |addresses|
      invariant podIPs == Members(addresses[..j])
    {
      podIPs := podIPs + {addresses[j]};
      assert addresses[..j + 1] == addresses[..j] + [addresses[j]];
    }
    assert addresses[..|addresses|] == addresses;
  }

  method SubsetTargets(service: Service, subsets: seq<Subset>, server: Server, name: string)
    returns (targets: seq<ProbeTarget>)
    requires ServicePortName(service, server.PortNumber()) == Some(name)
    ensures targets == TargetsOf(service, subsets,
                                 SubsetTags(service, subsets, server.Protocol(), server.PortNumber(), |subsets|))
  {
    targets := [];
    var i := 0;
    while i < |subsets|
      invariant 0 <= i <= |subsets|
      invariant targets == TargetsOf(service, subsets,
                                     SubsetTags(service, subsets, server.Protocol(), server.PortNumber(), i))
    {
      var portNumber := PortNumberForName(subsets[i].ports, name);
      if portNumber.Some? {
        var podIPs := PodIPs(subsets[i].addresses);
        targets := targets + [ProbeTarget(podIPs, Itoa(portNumber.value), Itoa(server.PortNumber()),
                                          URL(Scheme(server.Protocol()), ""))];
      }
      i := i + 1;
    }
  }

  function MatchingServices(services: seq<Service>, selector: Labels): seq<Service> {
    if services == [] then [] else
      (if Selects(selector, services[0].labels) then [services[0]] else []) + MatchingServices(services[1..], selector)
  }

  /** The targets of a Gateway: none without a service, and an error without its endpoints. */
  function GatewayTargets(ls: Listers, gw: GatewaySpec): Option<seq<ProbeTarget>> {
    var services := MatchingServices(ls.services, gw.selector);
    if |services| == 0 then Some([])
    else if services[0].key !in ls.endpoints then None
    else
      Some(AllTargets(gw.servers, services[0], ls.endpoints[services[0].key]))
  }

  /** For a Gateway with a service and endpoints: one target for each protocol, port and subset that is due, and no
      other. */
  lemma TargetsComplete(ls: Listers, gw: GatewaySpec)
    requires var services := MatchingServices(ls.services, gw.selector);
             services != [] && services[0].key in ls.endpoints
    ensures var service := MatchingServices(ls.services, gw.selector)[0];
            var subsets := ls.endpoints[service.key];
            exists tags: seq<Tag> ::
              && Distinct(tags) && (forall t :: t in tags <==> Due(gw.servers, service, subsets, t))
              && GatewayTargets(ls, gw).Some? && |GatewayTargets(ls, gw).value| == |tags|
              && forall i :: 0 <= i < |tags| ==>
                   Due(gw.servers, service, subsets, tags[i])
                   && GatewayTargets(ls, gw).value[i] == TargetOf(service, subsets, tags[i])
  {
    var service := MatchingServices(ls.services, gw.selector)[0];
    var subsets := ls.endpoints[service.key];
    var tags := Tags(gw.servers, service, subsets);
    TagsExactly(gw.servers, service, subsets);
    assert forall i :: 0 <= i < |tags| ==> tags[i] in tags;
    assert GatewayTargets(ls, gw).value == TargetsOf(service, subsets, tags);
  }

  method ListGatewayTargets(ls: Listers, gw: GatewaySpec) returns (r: Option<seq<ProbeTarget>>)
    ensures r == GatewayTargets(ls, gw)
  {
    var services := MatchingServices(ls.services, gw.selector);
    if |services| == 0 {
      return Some([]);
    }
    var service := services[0];
    if service.key !in ls.endpoints {
      return None;
    }
    var targets := TargetsOfServers(gw.servers, service, ls.endpoints[service.key]);
    return Some(targets);
  }

  /** One more server: its targets if it is the first of its protocol and port to be offered, and its key in any
      case. */
  lemma AllTargetsSnoc(servers: seq<Server>, i: nat, service: Service, subsets: seq<Subset>)
    requires i < |servers|
    ensures var s := servers[i];
            AllTargets(servers[..i + 1], service, subsets) ==
            if Offers(service, s) && !OfferedBy(servers[..i], service, s.Protocol(), s.PortNumber())
            then AllTargets(servers[..i], service, subsets) +
                 TargetsOf(service, subsets, SubsetTags(service, subsets, s.Protocol(), s.PortNumber(), |subsets|))
            else AllTargets(servers[..i], service, subsets)
  {
    var s := servers[i];
    assert servers[..i + 1] == servers[..i] + [s] && servers[..i + 1][..i] == servers[..i];
    TagsExactly(servers[..i], service, subsets);
    TagsExactly(servers[..i + 1], service, subsets);
  }

  lemma SeenKeysSnoc(servers: seq<Server>, i: nat, service: Service)
    requires i < |servers|
    ensures var s := servers[i];
            SeenKeys(servers[..i + 1], service) ==
            SeenKeys(servers[..i], service) + if Offers(service, s) then {SeenKey(s.Protocol(), s.PortNumber())} else {}
  {
    assert servers[..i + 1] == servers[..i] + [servers[i]];
  }

  method TargetsOfServers(servers: seq<Server>, service: Service, subsets: seq<Subset>)
    returns (targets: seq<ProbeTarget>)
    ensures targets == AllTargets(servers, service, subsets)
  {
    var seen: set<string> := {};
    targets := [];
    var i := 0;
    while i < |servers|
      invariant 0 <= i <= |servers|
      invariant seen == SeenKeys(servers[..i], service)
      invariant targets == AllTargets(servers[..i], service, subsets)
    {
      var server := servers[i];
      AllTargetsSnoc(servers, i, service, subsets);
      SeenKeysSnoc(servers, i, service);
      ghost var before := servers[..i];
      i := i + 1;
      if !Eligible(server) {
        continue;
      }
      var portName := ServicePortName(service, server.PortNumber());
      if portName.None? {
        continue;
      }
      var key := SeenKey(server.Protocol(), server.PortNumber());
      SeenExactly(before, service, server);
      if key in seen {
        continue;
      }
      seen := seen + {key};
      var more := SubsetTargets(service, subsets, server, portName.value);
      targets := targets + more;
    }
    assert servers[..i] == servers;
  }

  // ---------------------------------------------------------------- hosts by gateway

  /** A rule puts a host under a gateway of its visibility. */
  predicate Under(lib: Library, rules: seq<IngressRule>, names: GatewayNames, gateway: string, host: string) {
    exists rule :: rule in rules && gateway in NamesFor(names, rule.visibility)
                   && host in ExpandedHosts(lib.domain, Members(rule.hosts))
  }

  predicate Placed(output: map<string, set<string>>, gateway: string, host: string) {
    gateway in output && host in output[gateway]
  }

  lemma UnderSnoc(lib: Library, rules: seq<IngressRule>, rule: IngressRule, names: GatewayNames, gateway: string,
                  host: string)
    ensures Under(lib, rules + [rule], names, gateway, host) <==>
            Under(lib, rules, names, gateway, host)
            || (gateway in NamesFor(names, rule.visibility) && host in ExpandedHosts(lib.domain, Members(rule.hosts)))
  {
    if gateway in NamesFor(names, rule.visibility) && host in ExpandedHosts(lib.domain, Members(rule.hosts)) {
      assert rule in rules + [rule];
    }
    if r :| r in rules && gateway in NamesFor(names, r.visibility)
            && host in ExpandedHosts(lib.domain, Members(r.hosts)) {
      assert r in rules + [rule];
    }
  }

  /** A gateway is listed only together with a host, so there is always one to pick. */
  method HostsPerVisibility(lib: Library, rules: seq<IngressRule>, names: GatewayNames)
    returns (output: map<string, set<string>>)
    ensures forall g, h :: Placed(output, g, h) <==> Under(lib, rules, names, g, h)
    ensures forall g :: g in output ==> output[g] != {}
  {
    output := map[];
    var i := 0;
    while i < |rules|
      invariant 0 <= i <= |rules|
      invariant forall g, h :: Placed(output, g, h) <==> Under(lib, rules[..i], names, g, h)
      invariant forall g :: g in output ==> output[g] != {}
    {
      var rule := rules[i];
      var hosts := ExpandHosts(lib.domain, Members(rule.hosts));
      output := PlaceHosts(output, hosts, NamesFor(names, rule.visibility));
      forall g, h ensures Placed(output, g, h) <==> Under(lib, rules[..i + 1], names, g, h) {
        assert rules[..i + 1] == rules[..i] + [rule];
        UnderSnoc(lib, rules[..i], rule, names, g, h);
      }
      i := i + 1;
    }
    assert rules[..i] == rules;
  }

  method PlaceHosts(before: map<string, set<string>>, hosts: set<string>, gateways: set<string>)
    returns (output: map<string, set<string>>)
    requires forall g :: g in before ==> before[g] != {}
    ensures forall g, h :: Placed(output, g, h) <==> Placed(before, g, h) || (g in gateways && h in hosts)
    ensures forall g :: g in output ==> output[g] != {}
  {
    output := before;
    var left := hosts;
    while left != {}
      invariant left <= hosts
      invariant forall g, h :: Placed(output, g, h) <==> Placed(before, g, h) || (g in gateways && h in hosts - left)
      invariant forall g :: g in output ==> output[g] != {}
      decreases |left|
    {
      var host :| host in left;
      var keys := gateways;
      ghost var start := output;
      while keys != {}
        invariant keys <= gateways
        invariant forall g, h :: Placed(output, g, h) <==> Placed(start, g, h) || (g in gateways - keys && h == host)
        invariant forall g :: g in output ==> output[g] != {}
        decreases |keys|
      {
        var key :| key in keys;
        if key !in output {
          output := output[key := {}];
        }
        output := output[key := output[key] + {host}];
        keys := keys - {key};
      }
      left := left - {host};
    }
  }

  // ---------------------------------------------------------------- the probe targets of an Ingress

  /** `namespace/name`; anything else is an error. */
  function GatewayAt(objects: Objects, qualified: string): Option<GatewaySpec> {
    var parts := Split(qualified, '/');
    if |parts| != 2 || parts[0] == "" then None else
      var ref := Ref(GatewayKind, parts[0], parts[1]);
      if ref in objects && objects[ref].body.GatewayBody? then Some(objects[ref].body.gw) else None
  }

  function WithHost(t: ProbeTarget, host: string): ProbeTarget {
    t.(url := t.url.(host := host + ":" + t.port))
  }

  function WithHosts(targets: seq<ProbeTarget>, host: string): (r: seq<ProbeTarget>)
    ensures |r| == |targets| && forall i :: 0 <= i < |r| ==> r[i] == WithHost(targets[i], host)
  {
    seq(|targets|, i requires 0 <= i < |targets| => WithHost(targets[i], host))
  }

  /** The targets of some gateways, each probed under the least of its hosts. */
  function TargetsOfGateways(ls: Listers, hosts: map<string, set<string>>, names: seq<string>): Option<seq<ProbeTarget>>
    requires forall g :: g in names ==> g in hosts && hosts[g] != {}
  {
    if names == [] then Some([]) else
      var init, name := names[..|names| - 1], names[|names| - 1];
      match TargetsOfGateways(ls, hosts, init)
      case None => None
      case Some(before) =>
        match GatewayAt(ls.objects, name)
        case None => None
        case Some(gw) =>
          match GatewayTargets(ls, gw)
          case None => None
          case Some(targets) => Some(before + WithHosts(targets, Least(hosts[name])))
  }

  // ---------------------------------------------------------------- which targets those are

  /** A target of an Ingress: one of the gateway with that name, for a protocol, port and subset. */
  datatype Place = Place(gateway: string, tag: Tag)

  /** The gateway is there and has a service with endpoints, on which the target is due. */
  predicate DueAt(ls: Listers, p: Place) {
    var gw := GatewayAt(ls.objects, p.gateway);
    && gw.Some?
    && var services := MatchingServices(ls.services, gw.value.selector);
       && services != [] && services[0].key in ls.endpoints
       && Due(gw.value.servers, services[0], ls.endpoints[services[0].key], p.tag)
  }

  function TargetAt(ls: Listers, hosts: map<string, set<string>>, p: Place): ProbeTarget
    requires DueAt(ls, p) && p.gateway in hosts && hosts[p.gateway] != {}
  {
    var service := MatchingServices(ls.services, GatewayAt(ls.objects, p.gateway).value.selector)[0];
    WithHost(TargetOf(service, ls.endpoints[service.key], p.tag), Least(hosts[p.gateway]))
  }

  /** The targets of a gateway can be listed: it is there, and has no service or one with endpoints. */
  predicate Listable(ls: Listers, gateway: string) {
    var gw := GatewayAt(ls.objects, gateway);
    && gw.Some?
    && var services := MatchingServices(ls.services, gw.value.selector);
       services == [] || services[0].key in ls.endpoints
  }

  /** One target for each place that is due at one of the gateways, and no other. */
  ghost predicate ListsAt(ls: Listers, hosts: map<string, set<string>>, names: seq<string>, places: seq<Place>,
                          targets: seq<ProbeTarget>)
    requires forall g :: g in names ==> g in hosts && hosts[g] != {}
  {
    && Distinct(places) && (forall p :: p in places <==> p.gateway in names && DueAt(ls, p))
    && |targets| == |places|
    && forall i :: 0 <= i < |places| ==> places[i] in places && targets[i] == TargetAt(ls, hosts, places[i])
  }

  function PlacesOf(gateway: string, tags: seq<Tag>): (places: seq<Place>)
    ensures |places| == |tags| && forall i :: 0 <= i < |tags| ==> places[i] == Place(gateway, tags[i])
  {
    seq(|tags|, i requires 0 <= i < |tags| => Place(gateway, tags[i]))
  }

  lemma PlacesDistinct(gateway: string, tags: seq<Tag>)
    requires Distinct(tags)
    ensures Distinct(PlacesOf(gateway, tags))
    ensures forall p :: p in PlacesOf(gateway, tags) <==> p.gateway == gateway && p.tag in tags
  {
    var places := PlacesOf(gateway, tags);
    forall p ensures p in places <==> p.gateway == gateway && p.tag in tags {
      if p.gateway == gateway && p.tag in tags {
        var i :| 0 <= i < |tags| && tags[i] == p.tag;
        assert places[i] == p;
      }
      if p in places {
        var i :| 0 <= i < |places| && places[i] == p;
        assert tags[i] in tags;
      }
    }
  }

  /** The targets of one gateway, each under its least host. */
  lemma GatewayListed(ls: Listers, hosts: map<string, set<string>>, g: string) returns (places: seq<Place>)
    requires g in hosts && hosts[g] != {} && Listable(ls, g)
    ensures GatewayTargets(ls, GatewayAt(ls.objects, g).value).Some?
    ensures ListsAt(ls, hosts, [g], places,
                    WithHosts(GatewayTargets(ls, GatewayAt(ls.objects, g).value).value, Least(hosts[g])))
  {
    var gw := GatewayAt(ls.objects, g).value;
    var services := MatchingServices(ls.services, gw.selector);
    if services == [] {
      places := [];
    } else {
      var subsets := ls.endpoints[services[0].key];
      var tags := Tags(gw.servers, services[0], subsets);
      TagsExactly(gw.servers, services[0], subsets);
      places := PlacesOf(g, tags);
      PlacesDistinct(g, tags);
      assert forall i :: 0 <= i < |tags| ==> tags[i] in tags && places[i] in places;
    }
  }

  lemma PlacesConcat(ls: Listers, init: seq<string>, name: string, places: seq<Place>, more: seq<Place>)
    requires name !in init && Distinct(places) && Distinct(more)
    requires forall p :: p in places <==> p.gateway in init && DueAt(ls, p)
    requires forall p :: p in more <==> p.gateway == name && DueAt(ls, p)
    ensures Distinct(places + more)
    ensures forall p :: p in places + more <==> p.gateway in init + [name] && DueAt(ls, p)
  {
    DistinctConcat(places, more);
  }

  lemma ListsConcat(ls: Listers, hosts: map<string, set<string>>, init: seq<string>, name: string, places: seq<Place>,
                    more: seq<Place>, targets: seq<ProbeTarget>, rest: seq<ProbeTarget>)
    requires name !in init && name in hosts && hosts[name] != {}
    requires forall g :: g in init ==> g in hosts && hosts[g] != {}
    requires ListsAt(ls, hosts, init, places, targets) && ListsAt(ls, hosts, [name], more, rest)
    ensures ListsAt(ls, hosts, init + [name], places + more, targets + rest)
  {
    var all := places + more;
    PlacesConcat(ls, init, name, places, more);
    forall i | 0 <= i < |all| ensures all[i] in all && (targets + rest)[i] == TargetAt(ls, hosts, all[i]) {
      if i < |places| {
        assert all[i] == places[i] && (targets + rest)[i] == targets[i];
      } else {
        assert all[i] == more[i - |places|] && (targets + rest)[i] == rest[i - |places|];
      }
    }
  }

  /** The listing succeeds exactly when every gateway can be listed, and then has one target for each gateway and tag
      that is due. */
  lemma {:induction false} TargetsListed(ls: Listers, hosts: map<string, set<string>>, names: seq<string>)
    requires Distinct(names) && forall g :: g in names ==> g in hosts && hosts[g] != {}
    ensures TargetsOfGateways(ls, hosts, names).Some? <==> forall g :: g in names ==> Listable(ls, g)
    ensures TargetsOfGateways(ls, hosts, names).Some? ==>
              exists places :: ListsAt(ls, hosts, names, places, TargetsOfGateways(ls, hosts, names).value)
  {
    if names == [] {
      assert ListsAt(ls, hosts, names, [], []);
    } else {
      var init, name := names[..|names| - 1], names[|names| - 1];
      assert names == init + [name] && name in names;
      TargetsListed(ls, hosts, init);
      if TargetsOfGateways(ls, hosts, init).Some? && Listable(ls, name) {
        var targets := TargetsOfGateways(ls, hosts, init).value;
        var places :| ListsAt(ls, hosts, init, places, targets);
        var more := GatewayListed(ls, hosts, name);
        var rest := WithHosts(GatewayTargets(ls, GatewayAt(ls.objects, name).value).value, Least(hosts[name]));
        ListsConcat(ls, hosts, init, name, places, more, targets, rest);
      }
    }
  }

  function ConfiguredGatewayNames(sel: Selection): GatewayNames {
    map[CLUSTER_LOCAL := ConfiguredNames(sel.local), EXTERNAL_IP := ConfiguredNames(sel.external)]
  }

  lemma SortedListHead(s: set<string>)
    requires s != {}
    ensures |SortedList(s)| > 0 && SortedList(s)[0] == Least(s)
  {
  }

  /** The hosts by gateway that the rules give; there is just one such table. */
  ghost predicate HostTable(lib: Library, rules: seq<IngressRule>, names: GatewayNames,
                            hosts: map<string, set<string>>)
  {
    && (forall g, h :: Placed(hosts, g, h) <==> Under(lib, rules, names, g, h))
    && (forall g :: g in hosts ==> hosts[g] != {})
  }

  lemma HostTableUnique(lib: Library, rules: seq<IngressRule>, names: GatewayNames, a: map<string, set<string>>,
                        b: map<string, set<string>>)
    requires HostTable(lib, rules, names, a) && HostTable(lib, rules, names, b)
    ensures a == b
  {
    forall g ensures (g in a <==> g in b) && (g in a ==> a[g] == b[g]) {
      if g in a { var h :| h in a[g]; assert Placed(a, g, h); assert Placed(b, g, h); }
      if g in b { var h :| h in b[g]; assert Placed(b, g, h); assert Placed(a, g, h); }
      if g in a && g in b {
        forall h ensures h in a[g] <==> h in b[g] {
          assert Placed(a, g, h) <==> Placed(b, g, h);
        }
      }
    }
  }

  /** Nothing without gateways; otherwise, for every gateway that a host of the Ingress is on, one target for each
      protocol, port and subset that is due there, probed under the least of those hosts. */
  method ListProbeTargets(env: Env, ls: Listers, ing: Ingress) returns (r: Option<seq<ProbeTarget>>)
    ensures !GatewaysEnabled(env.config) ==> r == Some([])
    ensures GatewaysEnabled(env.config) ==>
              match GatewaysFromContext(env.lib, env.config, ing.labels)
              case None => r == None
              case Some(sel) => exists hosts :: HostTable(env.lib, ing.rules, ConfiguredGatewayNames(sel), hosts)
                                  && r == TargetsOfGateways(ls, hosts, SortedList(hosts.Keys))
                                  && (r.Some? <==> forall g :: g in hosts ==> Listable(ls, g))
                                  && (r.Some? ==> exists places :: ListsAt(ls, hosts, SortedList(hosts.Keys),
                                                                           places, r.value))
  {
    if !GatewaysEnabled(env.config) {
      return Some([]);
    }
    var selection := SelectGateways(env.lib, env.config, ing.labels);
    if selection.None? {
      return None;
    }
    var names := ConfiguredGatewayNames(selection.value);
    var hosts := HostsPerVisibility(env.lib, ing.rules, names);
    r := TargetsByName(ls, hosts);
    SortedListIsSorted(hosts.Keys);
    TargetsListed(ls, hosts, SortedList(hosts.Keys));
    assert HostTable(env.lib, ing.rules, names, hosts);
  }

  method TargetsByName(ls: Listers, hosts: map<string, set<string>>) returns (r: Option<seq<ProbeTarget>>)
    requires forall g :: g in hosts ==> hosts[g] != {}
    ensures r == TargetsOfGateways(ls, hosts, SortedList(hosts.Keys))
  {
    var names := SortedList(hosts.Keys);
    var results: seq<ProbeTarget> := [];
    var i := 0;
    while i < |names|
      invariant 0 <= i <= |names|
      invariant TargetsOfGateways(ls, hosts, names[..i]) == Some(results)
    {
      var name := names[i];
      assert names[..i + 1][..i] == names[..i];
      var gateway := GatewayAt(ls.objects, name);
      if gateway.None? {
        FailsEarly(ls, hosts, names, i + 1);
        return None;
      }
      var targets := ListGatewayTargets(ls, gateway.value);
      if targets.None? {
        FailsEarly(ls, hosts, names, i + 1);
        return None;
      }
      SortedListHead(hosts[name]);
      var host := SortedList(hosts[name])[0];
      results := AppendWithHost(results, targets.value, host);
      i := i + 1;
    }
    assert names[..i] == names;
    return Some(results);
  }

  method AppendWithHost(before: seq<ProbeTarget>, targets: seq<ProbeTarget>, host: string)
    returns (results: seq<ProbeTarget>)
    ensures results == before + WithHosts(targets, host)
  {
    results := before;
    for j := 0 to |targets|
      invariant results == before + WithHosts(targets, host)[..j]
    {
      results := results + [WithHost(targets[j], host)];
    }
  }

  /** Once some gateway fails the whole listing does. */
  lemma {:induction false} FailsEarly(ls: Listers, hosts: map<string, set<string>>, names: seq<string>, n: nat)
    requires forall g :: g in names ==> g in hosts && hosts[g] != {}
    requires n <= |names| && TargetsOfGateways(ls, hosts, names[..n]) == None
    ensures TargetsOfGateways(ls, hosts, names) == None
  {
    if n < |names| {
      assert names[..|names| - 1][..n] == names[..n];
      FailsEarly(ls, hosts, names[..|names| - 1], n);
    } else {
      assert names[..n] == names;
    }
  }
}
