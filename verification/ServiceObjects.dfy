/** The VirtualService objects made for an Ingress: one for the mesh, one for the gateways. */
module ServiceObjects {
  import opened HostPrefixes
  import opened Probes
  import opened Store
  import opened Strings
  import opened Types
  import opened VirtualServicePass
  import opened VirtualServices

  const LONGEST_NAME := 63
  const HASHED_HEAD := 31   // the longest name less the 32 digits of an MD5 sum

  /** parent + suffix, with the parent cut and hashed when that is too long. */
  function ChildName(lib: Library, parent: string, suffix: string): string
    requires |suffix| < HASHED_HEAD
  {
    if |parent| > LONGEST_NAME - |suffix| then parent[..HASHED_HEAD - |suffix|] + lib.md5Hex(parent) + suffix
    else parent + suffix
  }

  function MeshName(lib: Library, ing: Ingress): string {
    ChildName(lib, ing.name, "-mesh")
  }

  function IngressName(lib: Library, ing: Ingress): string {
    ChildName(lib, ing.name, "-ingress")
  }

  lemma ServiceNamesDiffer(lib: Library, ing: Ingress)
    ensures MeshName(lib, ing) != IngressName(lib, ing)
  {
    var m, i := MeshName(lib, ing), IngressName(lib, ing);
    assert m[|m| - 1] == 'h' && i[|i| - 1] == 's';
  }

  function ServiceNamespace(lib: Library, ing: Ingress): string {
    if |ing.namespace| == 0 then lib.systemNamespace else ing.namespace
  }

  /** The route labels of the Ingress, and the label that says which Ingress it is. */
  function ServiceLabels(ing: Ingress): Labels {
    var kept := map k | k in ing.labels && (k == ROUTE_LABEL || k == ROUTE_NAMESPACE_LABEL) :: ing.labels[k];
    kept[INGRESS_LABEL := ing.name]
  }

  function ServiceObject(lib: Library, ing: Ingress, name: string, spec: VirtualServiceSpec): Want {
    Want(Ref(VirtualServiceKind, ServiceNamespace(lib, ing), name),
         Object(ServiceLabels(ing), ing.annotations, ControllerRef(ing.uid), VirtualServiceBody(spec)))
  }

  function RuleHosts(ing: Ingress): set<string> {
    set rule, h | rule in ing.rules && h in rule.hosts :: h
  }

  method GetHosts(ing: Ingress) returns (hosts: set<string>)
    ensures hosts == RuleHosts(ing)
  {
    hosts := {};
    var i := 0;
    while i < |ing.rules|
      invariant 0 <= i <= |ing.rules|
      invariant hosts == set rule, h | rule in ing.rules[..i] && h in rule.hosts :: h
    {
      hosts := hosts + Members(ing.rules[i].hosts);
      assert ing.rules[..i + 1] == ing.rules[..i] + [ing.rules[i]];
      i := i + 1;
    }
    assert ing.rules[..i] == ing.rules;
  }

  function LocalHosts(lib: Library, hosts: set<string>): set<string> {
    set h | h in hosts && HasSuffix(h, LocalSuffix(lib.domain))
  }

  method KeepLocalHostnames(lib: Library, hosts: set<string>) returns (retained: set<string>)
    ensures retained == LocalHosts(lib, hosts)
  {
    var all := SortedList(hosts);
    retained := {};
    for i := 0 to |all|
      invariant retained == set h | h in all[..i] && HasSuffix(h, LocalSuffix(lib.domain))
    {
      if HasSuffix(all[i], LocalSuffix(lib.domain)) {
        retained := retained + {all[i]};
      }
      assert all[..i + 1] == all[..i] + [all[i]];
    }
    assert all[..|all|] == all;
  }

  function MeshHosts(lib: Library, ing: Ingress, gateways: GatewayNames): set<string> {
    var hosts := LocalHosts(lib, RuleHosts(ing));
    if |NamesFor(gateways, CLUSTER_LOCAL)| != 0 then ExpandedHosts(lib.domain, hosts) else hosts
  }

  function MeshGateways(): GatewayNames {
    map[EXTERNAL_IP := {MESH}, CLUSTER_LOCAL := {MESH}]
  }

  function MeshService(lib: Library, ing: Ingress, gateways: GatewayNames): Option<Want> {
    var hosts := MeshHosts(lib, ing, gateways);
    if |hosts| == 0 then None
    else Some(ServiceObject(lib, ing, MeshName(lib, ing), SpecOf(lib.domain, ing.rules, MeshGateways(), hosts)))
  }

  function GatewayVirtualService(lib: Library, ing: Ingress, gateways: GatewayNames): Want {
    ServiceObject(lib, ing, IngressName(lib, ing),
                  SpecOf(lib.domain, ing.rules, gateways, ExpandedHosts(lib.domain, RuleHosts(ing))))
  }

  predicate HasPublicRule(ing: Ingress) {
    exists rule :: rule in ing.rules && (rule.visibility == EXTERNAL_IP || rule.visibility == "")
  }

  predicate HasLocalRule(ing: Ingress) {
    exists rule :: rule in ing.rules && rule.visibility == CLUSTER_LOCAL
  }

  function RequiredGatewayCount(ing: Ingress, gateways: GatewayNames): nat {
    (if HasPublicRule(ing) then |NamesFor(gateways, EXTERNAL_IP)| else 0)
    + (if HasLocalRule(ing) then |NamesFor(gateways, CLUSTER_LOCAL)| else 0)
  }

  /** The mesh service if a host is local, and the gateway service if a gateway is needed. */
  function ServicesFor(lib: Library, ing: Ingress, gateways: GatewayNames): seq<Want> {
    OneOrTwo(MeshService(lib, ing, gateways), RequiredGatewayCount(ing, gateways),
             GatewayVirtualService(lib, ing, gateways))
  }

  function OneOrTwo(mesh: Option<Want>, count: nat, gateway: Want): seq<Want> {
    (if mesh.Some? then [mesh.value] else []) + (if count > 0 then [gateway] else [])
  }

  /** The services for the Ingress with probes inserted; None for a rule without HTTP block. */
  function MakeVirtualServices(lib: Library, original: Ingress, gateways: GatewayNames): Option<seq<Want>> {
    match InsertProbe(original, lib.probeHash(original))
    case None => None
    case Some(ing) => Some(ServicesFor(lib, ing, gateways))
  }

  method MakeMeshService(lib: Library, ing: Ingress, gateways: GatewayNames) returns (mesh: Option<Want>)
    requires forall rule :: rule in ing.rules ==> rule.http.Some?
    ensures mesh == MeshService(lib, ing, gateways)
  {
    var all := GetHosts(ing);
    var hosts := KeepLocalHostnames(lib, all);
    if |NamesFor(gateways, CLUSTER_LOCAL)| != 0 {
      hosts := ExpandHosts(lib.domain, hosts);
    }
    if |hosts| == 0 {
      return None;
    }
    var spec := MakeVirtualServiceSpec(lib.domain, ing.rules, MeshGateways(), hosts);
    return Some(ServiceObject(lib, ing, MeshName(lib, ing), spec));
  }

  method MakeGatewayService(lib: Library, ing: Ingress, gateways: GatewayNames) returns (service: Want)
    requires forall rule :: rule in ing.rules ==> rule.http.Some?
    ensures service == GatewayVirtualService(lib, ing, gateways)
  {
    var hosts := GetHosts(ing);
    var expanded := ExpandHosts(lib.domain, hosts);
    var spec := MakeVirtualServiceSpec(lib.domain, ing.rules, gateways, expanded);
    return ServiceObject(lib, ing, IngressName(lib, ing), spec);
  }

  /** One after the other into a list. */
  lemma OneOrTwoParts(mesh: Option<Want>, count: nat, gateway: Want)
    ensures var head := if mesh.Some? then [mesh.value] else [];
            OneOrTwo(mesh, count, gateway) == if count > 0 then head + [gateway] else head
  {
    var head := if mesh.Some? then [mesh.value] else [];
    assert head + [] == head;
  }

  method MakeServicesFor(lib: Library, ing: Ingress, gateways: GatewayNames) returns (vses: seq<Want>)
    requires forall rule :: rule in ing.rules ==> rule.http.Some?
    ensures vses == ServicesFor(lib, ing, gateways)
  {
    var mesh := MakeMeshService(lib, ing, gateways);
    vses := if mesh.Some? then [mesh.value] else [];
    OneOrTwoParts(mesh, RequiredGatewayCount(ing, gateways), GatewayVirtualService(lib, ing, gateways));
    if RequiredGatewayCount(ing, gateways) > 0 {
      var service := MakeGatewayService(lib, ing, gateways);
      vses := vses + [service];
    }
  }

  method MakeServices(lib: Library, original: Ingress, gateways: GatewayNames) returns (vses: Option<seq<Want>>)
    ensures vses == MakeVirtualServices(lib, original, gateways)
  {
    var probed := InsertProbe(original, lib.probeHash(original));
    if probed.None? {
      return None;
    }
    ProbedRulesHaveBlocks(original, lib.probeHash(original));
    var made := MakeServicesFor(lib, probed.value, gateways);
    return Some(made);
  }

  lemma ProbedRulesHaveBlocks(ing: Ingress, hash: string)
    requires InsertProbe(ing, hash).Some?
    ensures forall rule :: rule in InsertProbe(ing, hash).value.rules ==> rule.http.Some?
  {
  }

  /** Made for the Ingress, labelled for it, and with its annotations. */
  ghost predicate ServiceOf(lib: Library, ing: Ingress, v: Want) {
    && v.ref.kind.VirtualServiceKind? && v.ref.namespace == ServiceNamespace(lib, ing)
    && v.obj.body.VirtualServiceBody? && ControlledBy(v.obj, ing.uid) && v.obj.annotations == ing.annotations
    && v.obj.labels == ServiceLabels(ing)
  }

  lemma ServiceObjectIsOf(lib: Library, ing: Ingress, name: string, spec: VirtualServiceSpec)
    ensures ServiceOf(lib, ing, ServiceObject(lib, ing, name, spec))
  {
    assert OwnersControlledBy(ControllerRef(ing.uid), ing.uid);
  }

  lemma MeshServiceIsOf(lib: Library, ing: Ingress, gateways: GatewayNames)
    ensures var mesh := MeshService(lib, ing, gateways);
            mesh.Some? ==> ServiceOf(lib, ing, mesh.value) && mesh.value.ref.name == MeshName(lib, ing)
  {
    ServiceObjectIsOf(lib, ing, MeshName(lib, ing),
                      SpecOf(lib.domain, ing.rules, MeshGateways(), MeshHosts(lib, ing, gateways)));
  }

  lemma GatewayServiceIsOf(lib: Library, ing: Ingress, gateways: GatewayNames)
    ensures var service := GatewayVirtualService(lib, ing, gateways);
            ServiceOf(lib, ing, service) && service.ref.name == IngressName(lib, ing)
  {
    ServiceObjectIsOf(lib, ing, IngressName(lib, ing),
                      SpecOf(lib.domain, ing.rules, gateways, ExpandedHosts(lib.domain, RuleHosts(ing))));
  }

  lemma OneOrTwoFit(lib: Library, ing: Ingress, mesh: Option<Want>, count: nat, gateway: Want)
    requires ServiceOf(lib, ing, gateway) && (mesh.Some? ==> ServiceOf(lib, ing, mesh.value))
    requires mesh.Some? ==> mesh.value.ref.name != gateway.ref.name
    ensures var vses := OneOrTwo(mesh, count, gateway);
            && (forall v :: v in vses ==> ServiceOf(lib, ing, v))
            && (forall i, j :: 0 <= i < j < |vses| ==> vses[i].ref != vses[j].ref)
  {
  }

  lemma SameServiceOf(lib: Library, ing: Ingress, rules: seq<IngressRule>, v: Want)
    ensures ServiceOf(lib, ing.(rules := rules), v) <==> ServiceOf(lib, ing, v)
  {
  }

  /** At most two services, with distinct keys. */
  lemma MadeVirtualServices(lib: Library, ing: Ingress, gateways: GatewayNames)
    requires MakeVirtualServices(lib, ing, gateways).Some?
    ensures var vses := MakeVirtualServices(lib, ing, gateways).value;
            && (forall v :: v in vses ==> ServiceOf(lib, ing, v))
            && (forall i, j :: 0 <= i < j < |vses| ==> vses[i].ref != vses[j].ref)
  {
    var probed := InsertProbe(ing, lib.probeHash(ing)).value;
    ServicesForFit(lib, probed, gateways);
    forall v | v in ServicesFor(lib, probed, gateways) ensures ServiceOf(lib, ing, v) {
      SameServiceOf(lib, ing, probed.rules, v);
    }
  }

  lemma ServicesForFit(lib: Library, ing: Ingress, gateways: GatewayNames)
    ensures var vses := ServicesFor(lib, ing, gateways);
            && (forall v :: v in vses ==> ServiceOf(lib, ing, v))
            && (forall i, j :: 0 <= i < j < |vses| ==> vses[i].ref != vses[j].ref)
  {
    MeshServiceIsOf(lib, ing, gateways);
    GatewayServiceIsOf(lib, ing, gateways);
    ServiceNamesDiffer(lib, ing);
    OneOrTwoFit(lib, ing, MeshService(lib, ing, gateways), RequiredGatewayCount(ing, gateways),
                GatewayVirtualService(lib, ing, gateways));
  }

  lemma DistinctRefsFit(lib: Library, ing: Ingress, vses: seq<Want>)
    requires forall v :: v in vses ==> ServiceOf(lib, ing, v)
    requires forall i, j :: 0 <= i < j < |vses| ==> vses[i].ref != vses[j].ref
    ensures MadeFor(ing, vses) && Consistent(vses)
  {
  }

  /** All of the services have the class of the Ingress. */
  lemma {:induction false} AllOrNoneIstio(ing: Ingress, vses: seq<Want>)
    requires forall v :: v in vses ==> v.obj.annotations == ing.annotations
    ensures IstioWants(vses) == if Get(ing.annotations, CLASS_ANNOTATION) == ISTIO_CLASS then vses else []
  {
    if vses != [] {
      assert vses == [vses[0]] + vses[1..];
      AllOrNoneIstio(ing, vses[1..]);
    }
  }

  // ---------------------------------------------------------------- the services, said of the Ingress itself

  function GatewayHosts(lib: Library, ing: Ingress): set<string> {
    ExpandedHosts(lib.domain, RuleHosts(ing))
  }

  lemma ProbedMembers(rules: seq<IngressRule>, hash: string)
    ensures forall rule :: rule in rules ==> ProbedRule(rule, hash) in ProbedRules(rules, hash)
    ensures forall rule :: rule in ProbedRules(rules, hash) ==> exists q :: q in rules && rule == ProbedRule(q, hash)
  {
    var b := ProbedRules(rules, hash);
    forall rule | rule in rules ensures ProbedRule(rule, hash) in b {
      var i :| 0 <= i < |rules| && rules[i] == rule;
      assert b[i] in b;
    }
    forall rule | rule in b ensures exists q :: q in rules && rule == ProbedRule(q, hash) {
      var i :| 0 <= i < |b| && b[i] == rule;
      assert rules[i] in rules;
    }
  }

  lemma ProbingKeepsHosts(ing: Ingress, hash: string)
    requires InsertProbe(ing, hash).Some?
    ensures RuleHosts(InsertProbe(ing, hash).value) == RuleHosts(ing)
  {
    var probed := InsertProbe(ing, hash).value;
    ProbedMembers(ing.rules, hash);
    forall h ensures h in RuleHosts(probed) <==> h in RuleHosts(ing) {
      if rule :| rule in ing.rules && h in rule.hosts {
        assert ProbedRule(rule, hash) in probed.rules && h in ProbedRule(rule, hash).hosts;
      }
      if rule :| rule in probed.rules && h in rule.hosts {
        var q :| q in ing.rules && rule == ProbedRule(q, hash);
        assert h in q.hosts;
      }
    }
  }

  lemma ProbingKeepsVisibilities(ing: Ingress, hash: string)
    requires InsertProbe(ing, hash).Some?
    ensures HasPublicRule(InsertProbe(ing, hash).value) == HasPublicRule(ing)
    ensures HasLocalRule(InsertProbe(ing, hash).value) == HasLocalRule(ing)
  {
    ProbedMembers(ing.rules, hash);
    assert forall rule :: ProbedRule(rule, hash).visibility == rule.visibility;
  }

  function CompiledFor(lib: Library, ing: Ingress, gateways: GatewayNames, hosts: set<string>): VirtualServiceSpec {
    SpecOf(lib.domain, ProbedRules(ing.rules, lib.probeHash(ing)), gateways, hosts)
  }

  /** The services made, said of the Ingress itself: the mesh service exactly when there is a host for it, the
      gateway service exactly when a rule has a gateway, both compiled from the probed rules. */
  lemma ServicesMade(lib: Library, ing: Ingress, gateways: GatewayNames)
    requires MakeVirtualServices(lib, ing, gateways).Some?
    ensures MakeVirtualServices(lib, ing, gateways).value ==
            OneOrTwo(if MeshHosts(lib, ing, gateways) == {} then None
                     else Some(ServiceObject(lib, ing, MeshName(lib, ing),
                                             CompiledFor(lib, ing, MeshGateways(), MeshHosts(lib, ing, gateways)))),
                     RequiredGatewayCount(ing, gateways),
                     ServiceObject(lib, ing, IngressName(lib, ing),
                                   CompiledFor(lib, ing, gateways, GatewayHosts(lib, ing))))
  {
    var hash := lib.probeHash(ing);
    ProbingKeepsHosts(ing, hash);
    ProbingKeepsVisibilities(ing, hash);
  }
}
