/** Parsing the Istio configuration and selecting the gateways of an Ingress from it. */
module Config {
  import opened Strings
  import opened Types

  const GATEWAY_PREFIX := "gateway."
  const LOCAL_GATEWAY_PREFIX := "local-gateway."
  const EXTERNAL_GATEWAYS_KEY := "external-gateways"
  const LOCAL_GATEWAYS_KEY := "local-gateways"
  const ISTIO_NAMESPACE := "istio-system"

  // ---------------------------------------------------------------- validation

  predicate IsLowerLabel(s: string) {
    && s != [] && s[0] != '-' && s[|s| - 1] != '-'
    && forall i :: 0 <= i < |s| ==> s[i] == '-' || 'a' <= s[i] <= 'z' || '0' <= s[i] <= '9'
  }

  /** Dot-separated lower-case labels, at most 253 characters in all. */
  predicate IsDns1123Subdomain(s: string) {
    |s| <= 253 && forall part :: part in Split(s, '.') ==> IsLowerLabel(part)
  }

  predicate ValidGateway(lib: Library, g: GatewayConfig) {
    && g.namespace != "" && g.name != "" && g.serviceURL != ""
    && IsDns1123Subdomain(TrimSuffix(g.serviceURL, "."))
    && (g.selector.Some? ==> lib.selectorValid(g.selector.value))
  }

  predicate ValidConfig(lib: Library, c: IstioConfig) {
    && (forall g :: g in c.ingressGateways ==> ValidGateway(lib, g))
    && (forall g :: g in c.localGateways ==> ValidGateway(lib, g))
  }

  /** The gateways without a selector, in order. */
  function DefaultGateways(gtws: seq<GatewayConfig>): seq<GatewayConfig> {
    if gtws == [] then [] else
      var init, g := DefaultGateways(gtws[..|gtws| - 1]), gtws[|gtws| - 1];
      if g.selector.None? then init + [g] else init
  }

  predicate GatewaysEnabled(c: IstioConfig) {
    |c.ingressGateways| > 0 || |c.localGateways| > 0
  }

  // ---------------------------------------------------------------- parsing

  function BuiltinGateway(lib: Library, name: string, service: string): GatewayConfig {
    GatewayConfig(lib.systemNamespace, name, service + "." + ISTIO_NAMESPACE + ".svc." + lib.domain, None)
  }

  function DefaultIngressGateways(lib: Library): seq<GatewayConfig> {
    [BuiltinGateway(lib, "knative-ingress-gateway", "istio-ingressgateway")]
  }

  function DefaultLocalGateways(lib: Library): seq<GatewayConfig> {
    [BuiltinGateway(lib, "knative-local-gateway", "knative-local-gateway")]
  }

  function DefaultValues(lib: Library, c: IstioConfig): IstioConfig {
    IstioConfig(if |c.ingressGateways| == 0 then DefaultIngressGateways(lib) else c.ingressGateways,
                if |c.localGateways| == 0 then DefaultLocalGateways(lib) else c.localGateways)
  }

  predicate IsSpace(c: char) {
    c == ' ' || 9 <= c as int <= 13
  }

  predicate IsBlank(s: string) {
    forall i :: 0 <= i < |s| ==> IsSpace(s[i])
  }

  /** A blank entry stands for the built-in gateway, anything else is parsed. */
  function ParseList(lib: Library, text: string, builtin: seq<GatewayConfig>): Option<seq<GatewayConfig>> {
    if IsBlank(text) then Some(builtin) else lib.parseGateways(text)
  }

  predicate OneDefaultIfAny(gtws: seq<GatewayConfig>) {
    gtws == [] || |DefaultGateways(gtws)| == 1
  }

  function ParseNewFormat(lib: Library, data: Labels): Option<IstioConfig> {
    match (ParseList(lib, Get(data, EXTERNAL_GATEWAYS_KEY), DefaultIngressGateways(lib)),
           ParseList(lib, Get(data, LOCAL_GATEWAYS_KEY), DefaultLocalGateways(lib)))
    case (Some(ext), Some(local)) =>
      if OneDefaultIfAny(ext) && OneDefaultIfAny(local) then Some(IstioConfig(ext, local)) else None
    case _ => None
  }

  /** What follows the prefix in those keys that carry it. */
  function NamesAfter(keys: set<string>, prefix: string): set<string> {
    set k | k in keys && HasPrefix(k, prefix) && k != prefix :: k[|prefix|..]
  }

  lemma NamesAfterExactly(keys: set<string>, prefix: string, n: string)
    ensures n in NamesAfter(keys, prefix) <==> n != [] && prefix + n in keys
  {
    if n in NamesAfter(keys, prefix) {
      var k :| k in keys && HasPrefix(k, prefix) && k != prefix && k[|prefix|..] == n;
      assert prefix + n == k;
    }
    if n != [] && prefix + n in keys {
      assert HasPrefix(prefix + n, prefix) && (prefix + n)[|prefix|..] == n && |prefix + n| != |prefix|;
    }
  }

  lemma NamesAfterStep(keys: set<string>, prefix: string, k: string)
    ensures NamesAfter(keys + {k}, prefix) ==
            NamesAfter(keys, prefix) + if HasPrefix(k, prefix) && k != prefix then {k[|prefix|..]} else {}
  {
  }

  function OldGateway(lib: Library, name: string, url: string): GatewayConfig {
    var parts := SplitN(name, '.', 2);
    if |parts| == 1 then GatewayConfig(lib.systemNamespace, parts[0], url, None)
    else GatewayConfig(parts[0], parts[1], url, None)
  }

  function OldList(lib: Library, names: seq<string>, urls: Labels): (gtws: seq<GatewayConfig>)
    ensures forall g :: g in gtws ==> g.selector.None?
  {
    seq(|names|, i requires 0 <= i < |names| => OldGateway(lib, names[i], Get(urls, names[i])))
  }

  function OldUrls(data: Labels, prefix: string): Labels {
    map n | n in NamesAfter(data.Keys, prefix) :: Get(data, prefix + n)
  }

  /** One gateway per key with the prefix, by name. */
  function OldGateways(lib: Library, data: Labels, prefix: string): seq<GatewayConfig> {
    OldList(lib, SortedList(NamesAfter(data.Keys, prefix)), OldUrls(data, prefix))
  }

  /** The keys of the map come in any order; the result does not depend on it. */
  method ParseOldFormatGateways(lib: Library, data: Labels, prefix: string) returns (gateways: seq<GatewayConfig>)
    ensures gateways == OldGateways(lib, data, prefix)
  {
    var urls: Labels := map[];   // no key occurs twice, so neither does a name
    var todo := data.Keys;
    while todo != {}
      invariant todo <= data.Keys
      invariant urls.Keys == NamesAfter(data.Keys - todo, prefix)
      invariant forall n :: n in urls ==> urls[n] == Get(data, prefix + n)
      decreases todo
    {
      var k :| k in todo;
      NamesAfterStep(data.Keys - todo, prefix, k);
      assert data.Keys - (todo - {k}) == (data.Keys - todo) + {k};
      todo := todo - {k};
      if HasPrefix(k, prefix) && k != prefix {
        assert prefix + k[|prefix|..] == k;
        urls := urls[k[|prefix|..] := data[k]];
      }
    }
    assert data.Keys - todo == data.Keys;
    assert urls == OldUrls(data, prefix);
    gateways := MakeOldGateways(lib, SortedList(urls.Keys), urls);
  }

  method MakeOldGateways(lib: Library, sorted: seq<string>, urls: Labels) returns (gateways: seq<GatewayConfig>)
    ensures gateways == OldList(lib, sorted, urls)
  {
    gateways := [];
    var i := 0;
    while i < |sorted|
      invariant 0 <= i <= |sorted|
      invariant gateways == OldList(lib, sorted, urls)[..i]
    {
      gateways := gateways + [OldGateway(lib, sorted[i], Get(urls, sorted[i]))];
      i := i + 1;
    }
  }

  predicate OldFormatDefined(data: Labels) {
    exists k :: k in data && (HasPrefix(k, GATEWAY_PREFIX) || HasPrefix(k, LOCAL_GATEWAY_PREFIX))
  }

  predicate NewFormatDefined(data: Labels) {
    EXTERNAL_GATEWAYS_KEY in data || LOCAL_GATEWAYS_KEY in data
  }

  /** None for a configuration that is refused. */
  function NewIstioFromConfigMap(lib: Library, data: Labels): Option<IstioConfig> {
    var parsed :=
      if NewFormatDefined(data) && OldFormatDefined(data) then None
      else if NewFormatDefined(data) then ParseNewFormat(lib, data)
      else if OldFormatDefined(data) then
        Some(DefaultValues(lib, IstioConfig(OldGateways(lib, data, GATEWAY_PREFIX),
                                            OldGateways(lib, data, LOCAL_GATEWAY_PREFIX))))
      else Some(DefaultValues(lib, IstioConfig([], [])));
    if parsed.Some? && ValidConfig(lib, parsed.value) then parsed else None
  }

  method ParseOldFormat(lib: Library, data: Labels) returns (c: IstioConfig)
    ensures c == DefaultValues(lib, IstioConfig(OldGateways(lib, data, GATEWAY_PREFIX),
                                                OldGateways(lib, data, LOCAL_GATEWAY_PREFIX)))
  {
    var ext := ParseOldFormatGateways(lib, data, GATEWAY_PREFIX);
    var local := ParseOldFormatGateways(lib, data, LOCAL_GATEWAY_PREFIX);
    return DefaultValues(lib, IstioConfig(ext, local));
  }

  method ParseConfigMap(lib: Library, data: Labels) returns (c: Option<IstioConfig>)
    ensures c == NewIstioFromConfigMap(lib, data)
  {
    if NewFormatDefined(data) && OldFormatDefined(data) {
      return None;
    }
    if NewFormatDefined(data) {
      c := ParseNewFormat(lib, data);
    } else if OldFormatDefined(data) {
      var parsed := ParseOldFormat(lib, data);
      c := Some(parsed);
    } else {
      c := Some(DefaultValues(lib, IstioConfig([], [])));
    }
    if c.Some? && !ValidConfig(lib, c.value) {
      return None;
    }
  }

  // ---------------------------------------------------------------- selection

  /** The gateways whose selector matches; None if a selector does not compile. */
  function FilterGateways(lib: Library, gtws: seq<GatewayConfig>, labels: Labels): Option<seq<GatewayConfig>> {
    if gtws == [] then Some([])
    else match FilterGateways(lib, gtws[..|gtws| - 1], labels)
      case None => None
      case Some(init) =>
        var g := gtws[|gtws| - 1];
        if g.selector.None? then Some(init)
        else if !lib.selectorValid(g.selector.value) then None
        else if lib.selectorMatches(g.selector.value, labels) then Some(init + [g]) else Some(init)
  }

  method FilterGateway(lib: Library, gtws: seq<GatewayConfig>, labels: Labels) returns (ret: Option<seq<GatewayConfig>>)
    ensures ret == FilterGateways(lib, gtws, labels)
  {
    var found: seq<GatewayConfig> := [];
    var i := 0;
    while i < |gtws|
      invariant 0 <= i <= |gtws|
      invariant FilterGateways(lib, gtws[..i], labels) == Some(found)
    {
      var g := gtws[i];
      assert gtws[..i + 1][..i] == gtws[..i];
      if g.selector.Some? {
        if !lib.selectorValid(g.selector.value) {
          FilterFailureStays(lib, gtws, i + 1, labels);
          return None;
        }
        if lib.selectorMatches(g.selector.value, labels) {
          found := found + [g];
        }
      }
      i := i + 1;
    }
    assert gtws[..i] == gtws;
    return Some(found);
  }

  lemma {:induction false} FilterFailureStays(lib: Library, gtws: seq<GatewayConfig>, i: nat, labels: Labels)
    requires i <= |gtws| && FilterGateways(lib, gtws[..i], labels) == None
    ensures FilterGateways(lib, gtws, labels) == None
    decreases |gtws| - i
  {
    if i == |gtws| {
      assert gtws[..i] == gtws;
    } else {
      assert gtws[..i + 1][..i] == gtws[..i];
      FilterFailureStays(lib, gtws, i + 1, labels);
    }
  }

  function Select(lib: Library, gtws: seq<GatewayConfig>, labels: Labels): Option<seq<GatewayConfig>> {
    match FilterGateways(lib, gtws, labels)
    case None => None
    case Some(matching) => Some(if |matching| == 0 then DefaultGateways(gtws) else matching)
  }

  datatype Selection = Selection(external: seq<GatewayConfig>, local: seq<GatewayConfig>)

  function GatewaysFromContext(lib: Library, c: IstioConfig, labels: Labels): Option<Selection> {
    match (Select(lib, c.ingressGateways, labels), Select(lib, c.localGateways, labels))
    case (Some(ext), Some(local)) => Some(Selection(ext, local))
    case _ => None
  }

  method FindDefaults(gtws: seq<GatewayConfig>) returns (ret: seq<GatewayConfig>)
    ensures ret == DefaultGateways(gtws)
  {
    ret := [];
    var i := 0;
    while i < |gtws|
      invariant 0 <= i <= |gtws|
      invariant ret == DefaultGateways(gtws[..i])
    {
      assert gtws[..i + 1][..i] == gtws[..i];
      if gtws[i].selector.None? {
        ret := ret + [gtws[i]];
      }
      i := i + 1;
    }
    assert gtws[..i] == gtws;
  }

  method SelectFrom(lib: Library, gtws: seq<GatewayConfig>, labels: Labels) returns (picked: Option<seq<GatewayConfig>>)
    ensures picked == Select(lib, gtws, labels)
  {
    picked := FilterGateway(lib, gtws, labels);
    if picked.Some? && |picked.value| == 0 {
      var defaults := FindDefaults(gtws);
      picked := Some(defaults);
    }
  }

  method SelectGateways(lib: Library, c: IstioConfig, labels: Labels) returns (selection: Option<Selection>)
    ensures selection == GatewaysFromContext(lib, c, labels)
  {
    var external := SelectFrom(lib, c.ingressGateways, labels);
    if external.None? {
      return None;
    }
    var local := SelectFrom(lib, c.localGateways, labels);
    return if local.None? then None else Some(Selection(external.value, local.value));
  }

  // ---------------------------------------------------------------- accepted configurations make selection total

  /** `picked` is `gtws` at the ascending positions `at`, which are the ones where `wanted` holds. */
  ghost predicate SublistAt(at: seq<int>, picked: seq<GatewayConfig>, gtws: seq<GatewayConfig>,
                            wanted: GatewayConfig -> bool)
  {
    && |at| == |picked|
    && (forall i :: 0 <= i < |at| ==> 0 <= at[i] < |gtws| && picked[i] == gtws[at[i]])
    && (forall i, j :: 0 <= i < j < |at| ==> at[i] < at[j])
    && (forall k :: 0 <= k < |gtws| ==> (k in at <==> wanted(gtws[k])))
  }

  ghost predicate IsSublist(picked: seq<GatewayConfig>, gtws: seq<GatewayConfig>, wanted: GatewayConfig -> bool) {
    exists at :: SublistAt(at, picked, gtws, wanted)
  }

  lemma SublistAtTake(at: seq<int>, picked: seq<GatewayConfig>, gtws: seq<GatewayConfig>, g: GatewayConfig,
                      wanted: GatewayConfig -> bool)
    requires SublistAt(at, picked, gtws, wanted) && wanted(g)
    ensures SublistAt(at + [|gtws|], picked + [g], gtws + [g], wanted)
  {
    var at', picked', gtws' := at + [|gtws|], picked + [g], gtws + [g];
    assert |at'| == |picked'|;
    forall i | 0 <= i < |at'| ensures 0 <= at'[i] < |gtws'| && picked'[i] == gtws'[at'[i]] {
      if i < |at| { assert at'[i] == at[i]; }
    }
    forall i, j | 0 <= i < j < |at'| ensures at'[i] < at'[j] {
      if j < |at| { assert at'[i] == at[i] && at'[j] == at[j]; } else { assert at'[i] == at[i]; }
    }
    forall k | 0 <= k < |gtws'| ensures k in at' <==> wanted(gtws'[k]) {
      assert k in at' <==> k in at || k == |gtws|;
      if k < |gtws| { assert gtws'[k] == gtws[k]; } else { assert at'[|at|] == k; }
    }
  }

  lemma SublistTake(picked: seq<GatewayConfig>, gtws: seq<GatewayConfig>, g: GatewayConfig,
                    wanted: GatewayConfig -> bool)
    requires IsSublist(picked, gtws, wanted) && wanted(g)
    ensures IsSublist(picked + [g], gtws + [g], wanted)
  {
    var at :| SublistAt(at, picked, gtws, wanted);
    SublistAtTake(at, picked, gtws, g, wanted);
  }

  lemma SublistSkip(picked: seq<GatewayConfig>, gtws: seq<GatewayConfig>, g: GatewayConfig,
                    wanted: GatewayConfig -> bool)
    requires IsSublist(picked, gtws, wanted) && !wanted(g)
    ensures IsSublist(picked, gtws + [g], wanted)
  {
    var at :| SublistAt(at, picked, gtws, wanted);
    assert SublistAt(at, picked, gtws + [g], wanted);
  }

  predicate SelectorMatches(lib: Library, labels: Labels, g: GatewayConfig) {
    g.selector.Some? && lib.selectorMatches(g.selector.value, labels)
  }

  function Matcher(lib: Library, labels: Labels): GatewayConfig -> bool {
    g => SelectorMatches(lib, labels, g)
  }

  function Unselective(): GatewayConfig -> bool {
    (g: GatewayConfig) => g.selector.None?
  }

  lemma {:induction false} FilterIsSublist(lib: Library, gtws: seq<GatewayConfig>, labels: Labels)
    requires forall g :: g in gtws ==> ValidGateway(lib, g)
    ensures FilterGateways(lib, gtws, labels).Some?
    ensures IsSublist(FilterGateways(lib, gtws, labels).value, gtws, Matcher(lib, labels))
  {
    if gtws == [] {
      assert SublistAt([], [], gtws, Matcher(lib, labels));
    } else {
      var init, g := gtws[..|gtws| - 1], gtws[|gtws| - 1];
      assert gtws == init + [g] && ValidGateway(lib, g);
      FilterIsSublist(lib, init, labels);
      var picked := FilterGateways(lib, init, labels).value;
      if SelectorMatches(lib, labels, g) {
        SublistTake(picked, init, g, Matcher(lib, labels));
      } else {
        SublistSkip(picked, init, g, Matcher(lib, labels));
      }
    }
  }

  lemma {:induction false} DefaultsAreSublist(gtws: seq<GatewayConfig>)
    ensures IsSublist(DefaultGateways(gtws), gtws, Unselective())
  {
    if gtws == [] {
      assert SublistAt([], [], gtws, Unselective());
    } else {
      var init, g := gtws[..|gtws| - 1], gtws[|gtws| - 1];
      assert gtws == init + [g];
      DefaultsAreSublist(init);
      if g.selector.None? {
        SublistTake(DefaultGateways(init), init, g, Unselective());
      } else {
        SublistSkip(DefaultGateways(init), init, g, Unselective());
      }
    }
  }

  lemma {:induction false} AllWithoutSelector(gtws: seq<GatewayConfig>)
    requires forall g :: g in gtws ==> g.selector.None?
    ensures DefaultGateways(gtws) == gtws
  {
    if gtws != [] {
      assert gtws == gtws[..|gtws| - 1] + [gtws[|gtws| - 1]];
      AllWithoutSelector(gtws[..|gtws| - 1]);
    }
  }

  /** An accepted configuration has a default gateway in each list that is not empty. */
  lemma AcceptedHasDefaults(lib: Library, data: Labels)
    requires NewIstioFromConfigMap(lib, data).Some?
    ensures var c := NewIstioFromConfigMap(lib, data).value;
            && (c.ingressGateways != [] ==> DefaultGateways(c.ingressGateways) != [])
            && (c.localGateways != [] ==> DefaultGateways(c.localGateways) != [])
            && (NewFormatDefined(data) ==> OneDefaultIfAny(c.ingressGateways) && OneDefaultIfAny(c.localGateways))
            && (!NewFormatDefined(data) ==> c.ingressGateways != [] && c.localGateways != [])
  {
    var c := NewIstioFromConfigMap(lib, data).value;
    if !NewFormatDefined(data) {
      AllWithoutSelector(c.ingressGateways);
      AllWithoutSelector(c.localGateways);
    }
  }

  /** Selection never fails on an accepted configuration, is empty only where the configuration is, and otherwise
      gives the matching gateways in order or, without any, all gateways that have no selector. */
  lemma SelectionIsTotal(lib: Library, data: Labels, labels: Labels)
    requires NewIstioFromConfigMap(lib, data).Some?
    ensures var c := NewIstioFromConfigMap(lib, data).value;
            && GatewaysFromContext(lib, c, labels).Some?
            && var s := GatewaysFromContext(lib, c, labels).value;
               && SelectedFrom(lib, c.ingressGateways, labels, s.external)
               && SelectedFrom(lib, c.localGateways, labels, s.local)
  {
    var c := NewIstioFromConfigMap(lib, data).value;
    AcceptedHasDefaults(lib, data);
    ListSelection(lib, c.ingressGateways, labels);
    ListSelection(lib, c.localGateways, labels);
  }

  ghost predicate SelectedFrom(lib: Library, gtws: seq<GatewayConfig>, labels: Labels, picked: seq<GatewayConfig>) {
    && (picked == [] <==> gtws == [])
    && (if exists g :: g in gtws && SelectorMatches(lib, labels, g)
        then IsSublist(picked, gtws, Matcher(lib, labels))
        else IsSublist(picked, gtws, Unselective()))
  }

  lemma ListSelection(lib: Library, gtws: seq<GatewayConfig>, labels: Labels)
    requires forall g :: g in gtws ==> ValidGateway(lib, g)
    requires gtws != [] ==> DefaultGateways(gtws) != []
    ensures Select(lib, gtws, labels).Some?
    ensures SelectedFrom(lib, gtws, labels, Select(lib, gtws, labels).value)
  {
    FilterIsSublist(lib, gtws, labels);
    DefaultsAreSublist(gtws);
    SublistEmpty(FilterGateways(lib, gtws, labels).value, gtws, Matcher(lib, labels));
  }

  lemma SublistEmpty(picked: seq<GatewayConfig>, gtws: seq<GatewayConfig>, wanted: GatewayConfig -> bool)
    requires IsSublist(picked, gtws, wanted)
    ensures picked != [] <==> exists g :: g in gtws && wanted(g)
  {
    var at :| SublistAt(at, picked, gtws, wanted);
    if picked != [] {
      assert at[0] in at;
      assert gtws[at[0]] in gtws;
    }
    if g :| g in gtws && wanted(g) {
      var k :| 0 <= k < |gtws| && gtws[k] == g;
      assert k in at;
    }
  }

  /** A list is empty after parsing only if the new format says so explicitly. */
  lemma EmptyOnlyIfSaid(lib: Library, data: Labels)
    requires NewIstioFromConfigMap(lib, data).Some?
    ensures var c := NewIstioFromConfigMap(lib, data).value;
            && (c.ingressGateways == [] <==> NewFormatDefined(data) && !IsBlank(Get(data, EXTERNAL_GATEWAYS_KEY))
                                             && lib.parseGateways(data[EXTERNAL_GATEWAYS_KEY]) == Some([]))
            && (c.localGateways == [] <==> NewFormatDefined(data) && !IsBlank(Get(data, LOCAL_GATEWAYS_KEY))
                                           && lib.parseGateways(data[LOCAL_GATEWAYS_KEY]) == Some([]))
  {
    assert IsBlank("");
    AcceptedHasDefaults(lib, data);
  }

  // ---------------------------------------------------------------- the services behind the gateways

  datatype ServiceKey = ServiceKey(namespace: string, name: string)

  /** `name.namespace.rest`, or None. */
  function ParseServiceURL(url: string): Option<ServiceKey> {
    var parts := SplitN(url, '.', 3);
    if |parts| != 3 then None else Some(ServiceKey(parts[1], parts[0]))
  }

  function ParseServices(gtws: seq<GatewayConfig>): Option<seq<ServiceKey>> {
    if gtws == [] then Some([])
    else match (ParseServices(gtws[..|gtws| - 1]), ParseServiceURL(gtws[|gtws| - 1].serviceURL))
      case (Some(init), Some(key)) => Some(init + [key])
      case _ => None
  }

  /** The gateway services an Ingress is exposed on: always those of the external gateways. */
  function GatewayServiceKeys(lib: Library, c: IstioConfig, labels: Labels): Option<seq<ServiceKey>> {
    match GatewaysFromContext(lib, c, labels)
    case None => None
    case Some(s) => ParseServices(s.external)
  }

  predicate TwoDots(url: string) {
    exists i, j :: 0 <= i < j < |url| && url[i] == '.' && url[j] == '.'
  }

  lemma ServiceURLExactly(url: string)
    ensures ParseServiceURL(url).Some? <==> TwoDots(url)
  {
    if '.' in url {
      var i := IndexOf(url, '.');
      var rest := url[i + 1..];
      assert |SplitN(rest, '.', 2)| == if '.' in rest then 2 else 1;
      assert '.' in rest ==> url[i + 1 + IndexOf(rest, '.')] == '.';
      if a, b :| 0 <= a < b < |url| && url[a] == '.' && url[b] == '.' {
        assert rest[b - i - 1] == '.';
      }
    }
  }

  /** Validation does not look for the two dots, so this is where an accepted configuration can still fail. */
  lemma {:induction false} ServicesParseExactly(gtws: seq<GatewayConfig>)
    ensures ParseServices(gtws).Some? <==> forall g :: g in gtws ==> TwoDots(g.serviceURL)
    ensures ParseServices(gtws).Some? ==> |ParseServices(gtws).value| == |gtws|
  {
    if gtws != [] {
      var init, g := gtws[..|gtws| - 1], gtws[|gtws| - 1];
      assert gtws == init + [g];
      ServicesParseExactly(init);
      ServiceURLExactly(g.serviceURL);
    }
  }

  /** With an accepted configuration the gateway services of an Ingress can be named exactly when the URLs of the
      external gateways selected for it have two dots. */
  lemma AcceptedServicesExactly(lib: Library, data: Labels, labels: Labels)
    requires NewIstioFromConfigMap(lib, data).Some?
    ensures var c := NewIstioFromConfigMap(lib, data).value;
            && GatewaysFromContext(lib, c, labels).Some?
            && (GatewayServiceKeys(lib, c, labels).Some? <==>
                  forall g :: g in GatewaysFromContext(lib, c, labels).value.external ==> TwoDots(g.serviceURL))
  {
    SelectionIsTotal(lib, data, labels);
    ServicesParseExactly(GatewaysFromContext(lib, NewIstioFromConfigMap(lib, data).value, labels).value.external);
  }

  /** Two gateways in the old format, whose services are named without their namespace. */
  function ShortServices(): Labels {
    map["gateway.n.g" := "gw", "local-gateway.n.l" := "gw"]
  }

  lemma SingleName(prefix: string, name: string, keys: set<string>)
    requires name != [] && prefix + name in keys
    requires forall k :: k in keys && HasPrefix(k, prefix) ==> k == prefix + name
    ensures SortedList(NamesAfter(keys, prefix)) == [name]
  {
    forall n ensures n in NamesAfter(keys, prefix) <==> n == name {
      NamesAfterExactly(keys, prefix, n);
      if n in NamesAfter(keys, prefix) {
        assert HasPrefix(prefix + n, prefix);
        assert (prefix + n)[|prefix|..] == n && (prefix + name)[|prefix|..] == name;
      }
    }
    LexTotal(name, name);
    SortedListUnique([name], NamesAfter(keys, prefix));
  }

  lemma OldGatewayNamed(lib: Library, namespace: string, name: string, url: string)
    requires '.' !in namespace
    ensures OldGateway(lib, namespace + ['.'] + name, url) == GatewayConfig(namespace, name, url, None)
  {
    FirstSeparator(namespace, name, '.');
    assert SplitN(name, '.', 1) == [name];
  }

  /** A prefix that only one key has gives one gateway. */
  lemma OneOldGateway(lib: Library, data: Labels, prefix: string, namespace: string, name: string)
    requires '.' !in namespace && prefix + (namespace + ['.'] + name) in data
    requires forall k :: k in data && HasPrefix(k, prefix) ==> k == prefix + (namespace + ['.'] + name)
    ensures var url := data[prefix + (namespace + ['.'] + name)];
            OldGateways(lib, data, prefix) == [GatewayConfig(namespace, name, url, None)]
  {
    var full := namespace + ['.'] + name;
    SingleName(prefix, full, data.Keys);
    OldGatewayNamed(lib, namespace, name, data[prefix + full]);
    assert full in NamesAfter(data.Keys, prefix) by { NamesAfterExactly(data.Keys, prefix, full); }
    assert OldUrls(data, prefix)[full] == data[prefix + full];
    assert OldList(lib, [full], OldUrls(data, prefix)) == [GatewayConfig(namespace, name, data[prefix + full], None)];
  }

  lemma ShortExternal(lib: Library)
    ensures OldGateways(lib, ShortServices(), GATEWAY_PREFIX) == [GatewayConfig("n", "g", "gw", None)]
  {
    assert GATEWAY_PREFIX + ("n" + ['.'] + "g") == "gateway.n.g";
    DifferAt("local-gateway.n.l", GATEWAY_PREFIX, 0);
    OneOldGateway(lib, ShortServices(), GATEWAY_PREFIX, "n", "g");
  }

  lemma ShortLocal(lib: Library)
    ensures OldGateways(lib, ShortServices(), LOCAL_GATEWAY_PREFIX) == [GatewayConfig("n", "l", "gw", None)]
  {
    assert LOCAL_GATEWAY_PREFIX + ("n" + ['.'] + "l") == "local-gateway.n.l";
    DifferAt("gateway.n.g", LOCAL_GATEWAY_PREFIX, 0);
    OneOldGateway(lib, ShortServices(), LOCAL_GATEWAY_PREFIX, "n", "l");
  }

  lemma ShortServicesAccepted(lib: Library)
    ensures NewIstioFromConfigMap(lib, ShortServices()) ==
            Some(IstioConfig([GatewayConfig("n", "g", "gw", None)], [GatewayConfig("n", "l", "gw", None)]))
  {
    var g, l := GatewayConfig("n", "g", "gw", None), GatewayConfig("n", "l", "gw", None);
    ShortExternal(lib);
    ShortLocal(lib);
    OnlyOldKeys();
    ShortServiceIsValid(lib, g);
    ShortServiceIsValid(lib, l);
    OldFormatAccepted(lib, ShortServices(), [g], [l]);
  }

  lemma OldFormatAccepted(lib: Library, data: Labels, external: seq<GatewayConfig>, local: seq<GatewayConfig>)
    requires OldFormatDefined(data) && !NewFormatDefined(data) && external != [] && local != []
    requires OldGateways(lib, data, GATEWAY_PREFIX) == external && OldGateways(lib, data, LOCAL_GATEWAY_PREFIX) == local
    requires ValidConfig(lib, IstioConfig(external, local))
    ensures NewIstioFromConfigMap(lib, data) == Some(IstioConfig(external, local))
  {
  }

  lemma OnlyOldKeys()
    ensures OldFormatDefined(ShortServices()) && !NewFormatDefined(ShortServices())
  {
    assert "gateway.n.g" in ShortServices() && HasPrefix("gateway.n.g", GATEWAY_PREFIX);
    assert EXTERNAL_GATEWAYS_KEY[0] == 'e' && |LOCAL_GATEWAYS_KEY| == 14 && |"local-gateway.n.l"| == 17;
    assert "gateway.n.g"[0] == 'g' && LOCAL_GATEWAYS_KEY[0] == 'l' && "local-gateway.n.l"[0] == 'l';
  }

  /** Accepted, and yet the gateway services of no Ingress can be named. */
  lemma AcceptedWithoutServices(lib: Library, labels: Labels)
    ensures NewIstioFromConfigMap(lib, ShortServices()).Some?
    ensures GatewayServiceKeys(lib, NewIstioFromConfigMap(lib, ShortServices()).value, labels) == None
  {
    var g, l := GatewayConfig("n", "g", "gw", None), GatewayConfig("n", "l", "gw", None);
    ShortServicesAccepted(lib);
    ShortServiceIsValid(lib, g);
    WithoutSelectors(lib, [g], labels);
    WithoutSelectors(lib, [l], labels);
    ServicesParseExactly([g]);
    assert g in [g];
  }

  lemma ShortServiceIsValid(lib: Library, g: GatewayConfig)
    requires g.namespace != "" && g.name != "" && g.serviceURL == "gw" && g.selector.None?
    ensures ValidGateway(lib, g) && !TwoDots(g.serviceURL)
  {
    assert TrimSuffix("gw", ".") == "gw" by { assert "gw"[1..] == "w"; }
    assert Split("gw", '.') == ["gw"];
  }

  /** Where no gateway has a selector, all are selected for every Ingress. */
  lemma {:induction false} WithoutSelectors(lib: Library, gtws: seq<GatewayConfig>, labels: Labels)
    requires forall g :: g in gtws ==> g.selector.None?
    ensures FilterGateways(lib, gtws, labels) == Some([])
    ensures Select(lib, gtws, labels) == Some(gtws) && DefaultGateways(gtws) == gtws
  {
    AllWithoutSelector(gtws);
    if gtws != [] {
      assert gtws == gtws[..|gtws| - 1] + [gtws[|gtws| - 1]];
      WithoutSelectors(lib, gtws[..|gtws| - 1], labels);
    }
  }

  predicate AllLabels(parts: seq<string>) {
    forall part :: part in parts ==> IsLowerLabel(part)
  }

  lemma OneLabel(r: string)
    requires IsLowerLabel(r)
    ensures AllLabels(Split(r, '.'))
  {
    assert Split(r, '.') == [r];
  }

  lemma OneMoreLabel(p: string, rest: string)
    requires IsLowerLabel(p) && AllLabels(Split(rest, '.'))
    ensures AllLabels(Split(p + ['.'] + rest, '.'))
  {
    SplitFirst(p, rest, '.');
    assert forall part :: part in [p] + Split(rest, '.') ==> part == p || part in Split(rest, '.');
  }

  /** A URL of three labels is a valid one. */
  lemma ThreeLabels(p: string, q: string, r: string, url: string)
    requires IsLowerLabel(p) && IsLowerLabel(q) && IsLowerLabel(r) && |p| + |q| + |r| <= 251
    requires url == p + ['.'] + (q + ['.'] + r)
    ensures IsDns1123Subdomain(url) && TrimSuffix(url, ".") == url
  {
    OneLabel(r);
    OneMoreLabel(q, r);
    OneMoreLabel(p, q + ['.'] + r);
    assert url[|url| - 1] == r[|r| - 1];
  }
}
