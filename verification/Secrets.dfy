/** Copies of TLS secrets: how they are named, labelled, found again, and which ones an Ingress needs. */
module Secrets {
  import opened Config
  import opened Strings
  import opened Types

  const ORIGIN_NAMESPACE_LABEL := "networking.internal.knative.dev/originSecretNamespace"
  const ORIGIN_NAME_LABEL := "networking.internal.knative.dev/originSecretName"
  const CERTIFICATE_UID_LABEL := "networking.internal.knative.dev/certificate-uid"

  lemma LabelKeysDiffer()
    ensures ORIGIN_NAMESPACE_LABEL != ORIGIN_NAME_LABEL
    ensures ORIGIN_NAMESPACE_LABEL != CERTIFICATE_UID_LABEL
    ensures ORIGIN_NAME_LABEL != CERTIFICATE_UID_LABEL
  {
    assert |ORIGIN_NAMESPACE_LABEL| == 53 && |ORIGIN_NAME_LABEL| == 48 && |CERTIFICATE_UID_LABEL| == 47;
  }

  // ---------------------------------------------------------------- labels and annotations of a copy

  /** The value of the name label: the name, or a cut and hashed form of exactly 63 characters. */
  function NameLabel(originName: string): string {
    if |originName| <= LABEL_MAX then originName else
      var suffix := AdlerDecimal(originName);
      AdlerDecimalLength(originName);
      originName[..LABEL_MAX - |suffix| - 1] + "-" + suffix
  }

  function TargetSecretLabels(originName: string, originNamespace: string): Labels {
    map[ORIGIN_NAMESPACE_LABEL := originNamespace, ORIGIN_NAME_LABEL := NameLabel(originName)]
  }

  function TargetSecretAnnotations(originName: string): Labels {
    if |originName| > LABEL_MAX then map[ORIGIN_NAME_LABEL := originName] else map[]
  }

  datatype StoredSecret = StoredSecret(namespace: string, name: string, uid: string, labels: Labels,
                                       data: Labels, typ: string)

  function MakeSecret(origin: StoredSecret, name: string, namespace: string, labels: Labels,
                      annotations: Labels): Want
  {
    Want(Ref(SecretKind, namespace, name),
         Object(labels[CERTIFICATE_UID_LABEL := Get(origin.labels, CERTIFICATE_UID_LABEL)], annotations, [],
                SecretBody(origin.data, origin.typ, "")))
  }

  function CopyOf(origin: StoredSecret, name: string, namespace: string): Want {
    MakeSecret(origin, name, namespace, TargetSecretLabels(origin.name, origin.namespace),
               TargetSecretAnnotations(origin.name))
  }

  /** The namespace and name of the origin, read back from a copy. */
  function ExtractOriginSecretRef(copy: Object): Ref {
    var annotated := Get(copy.annotations, ORIGIN_NAME_LABEL);
    Ref(SecretKind, Get(copy.labels, ORIGIN_NAMESPACE_LABEL),
        if annotated != "" then annotated else Get(copy.labels, ORIGIN_NAME_LABEL))
  }

  /** A copy leads back to its origin, however long the name, and its name label always fits. */
  lemma OriginRoundTrip(origin: StoredSecret, name: string, namespace: string)
    ensures ExtractOriginSecretRef(CopyOf(origin, name, namespace).obj) ==
            Ref(SecretKind, origin.namespace, origin.name)
    ensures |NameLabel(origin.name)| <= LABEL_MAX
    ensures |origin.name| > LABEL_MAX ==> |NameLabel(origin.name)| == LABEL_MAX
  {
    LabelKeysDiffer();
    AdlerDecimalLength(origin.name);
  }

  /** All entries of a selector set must be present (labels.SelectorFromSet). */
  predicate Selects(selector: Labels, labels: Labels) {
    forall k :: k in selector ==> k in labels && labels[k] == selector[k]
  }

  lemma CopyIsSelected(origin: StoredSecret, name: string, namespace: string)
    ensures Selects(TargetSecretLabels(origin.name, origin.namespace), CopyOf(origin, name, namespace).obj.labels)
  {
    LabelKeysDiffer();
  }

  /** The labels of two origins cannot be told apart: same namespace, and names that are equal or hash to the same
      label. */
  predicate SameOriginLabels(t: IngressTLS, origin: StoredSecret) {
    t.secretNamespace == origin.namespace && NameLabel(t.secretName) == NameLabel(origin.name)
  }

  /** The labels of a TLS entry's secret select exactly the copies of origins with those labels, whoever made them. */
  lemma SelectedExactly(t: IngressTLS, origin: StoredSecret, name: string, namespace: string)
    ensures Selects(TargetSecretLabels(t.secretName, t.secretNamespace),
                    CopyOf(origin, name, namespace).obj.labels) <==>
            SameOriginLabels(t, origin)
  {
    LabelKeysDiffer();
    var selector := TargetSecretLabels(t.secretName, t.secretNamespace);
    var labels := CopyOf(origin, name, namespace).obj.labels;
    assert ORIGIN_NAMESPACE_LABEL in selector && ORIGIN_NAME_LABEL in selector;
    assert labels[ORIGIN_NAMESPACE_LABEL] == origin.namespace && labels[ORIGIN_NAME_LABEL] == NameLabel(origin.name);
  }

  // ---------------------------------------------------------------- names of copies

  function TargetSecretName(ingressName: string, origin: StoredSecret): string {
    ingressName + "-" + origin.uid
  }

  function TargetWildcardSecretName(name: string, namespace: string): string {
    namespace + "--" + name + "-wildcard"
  }

  predicate NoDoubleDash(s: string) {
    forall i :: 0 <= i < |s| - 1 ==> !(s[i] == '-' && s[i + 1] == '-')
  }

  /** One namespace is the other with a dash moved over from the name. */
  predicate DashMoved(name: string, namespace: string, name': string, namespace': string) {
    namespace' == namespace + "-" && name == "-" + name'
  }

  /** One namespace is the other, a double dash, and `x` taken over from the name. */
  predicate MovedOver(x: string, name: string, namespace: string, name': string, namespace': string) {
    namespace' == namespace + "--" + x && name == x + "--" + name'
  }

  ghost predicate BorderMoved(name: string, namespace: string, name': string, namespace': string) {
    exists x :: MovedOver(x, name, namespace, name', namespace')
  }

  /** A wildcard name without its constant end. */
  lemma WildcardStem(name: string, namespace: string, name': string, namespace': string)
    ensures TargetWildcardSecretName(name, namespace) == TargetWildcardSecretName(name', namespace') <==>
            namespace + "--" + name == namespace' + "--" + name'
  {
    var v, w := TargetWildcardSecretName(name, namespace), TargetWildcardSecretName(name', namespace');
    assert v[..|v| - 9] == namespace + "--" + name && w[..|w| - 9] == namespace' + "--" + name';
  }

  lemma WildcardNamesAlign(name: string, namespace: string, name': string, namespace': string)
    requires namespace + "--" + name == namespace' + "--" + name'
    requires |namespace| <= |namespace'|
    ensures || (namespace == namespace' && name == name') || DashMoved(name, namespace, name', namespace')
            || BorderMoved(name, namespace, name', namespace')
  {
    var w, a, b := namespace + "--" + name, |namespace|, |namespace'|;
    var over := w[a..b];
    assert w[..a] == namespace && w[..b] == namespace' && w[a..] == "--" + name && w[b..] == "--" + name';
    assert namespace' == namespace + over && "--" + name == over + ("--" + name');
    assert name == ("--" + name)[2..] && name' == ("--" + name')[2..];
    if b == a + 1 {
      assert over == "-" && name[0] == '-' && name[1..] == name';
    } else if b > a + 1 {
      var x := over[2..];
      assert over == "--" + x && name == x + "--" + name';
      assert MovedOver(x, name, namespace, name', namespace');
    }
  }

  lemma MovedNamesCollide(x: string, name: string, namespace: string, name': string, namespace': string)
    requires DashMoved(name, namespace, name', namespace') || MovedOver(x, name, namespace, name', namespace')
    ensures namespace + "--" + name == namespace' + "--" + name'
  {
  }

  /** When two wildcard copies share a name, for any namespaces and names whatever: the origins are the same, or a
      dash or a stretch between two double dashes has moved across the border. */
  lemma WildcardNamesExactly(name: string, namespace: string, name': string, namespace': string)
    ensures TargetWildcardSecretName(name, namespace) == TargetWildcardSecretName(name', namespace') <==>
            || (namespace == namespace' && name == name')
            || DashMoved(name, namespace, name', namespace') || DashMoved(name', namespace', name, namespace)
            || BorderMoved(name, namespace, name', namespace') || BorderMoved(name', namespace', name, namespace)
  {
    WildcardStem(name, namespace, name', namespace');
    if namespace + "--" + name == namespace' + "--" + name' {
      if |namespace| <= |namespace'| {
        WildcardNamesAlign(name, namespace, name', namespace');
      } else {
        WildcardNamesAlign(name', namespace', name, namespace);
      }
    }
    if DashMoved(name, namespace, name', namespace') { MovedNamesCollide("", name, namespace, name', namespace'); }
    if DashMoved(name', namespace', name, namespace) { MovedNamesCollide("", name', namespace', name, namespace); }
    if x :| MovedOver(x, name, namespace, name', namespace') {
      MovedNamesCollide(x, name, namespace, name', namespace');
    }
    if x :| MovedOver(x, name', namespace', name, namespace) {
      MovedNamesCollide(x, name', namespace', name, namespace);
    }
  }

  /** Namespaces are DNS labels, which do not end in a dash: for them only a stretch between double dashes can move. */
  lemma WildcardNamesOfLabels(name: string, namespace: string, name': string, namespace': string)
    requires IsDns1123Label(namespace) && IsDns1123Label(namespace')
    ensures TargetWildcardSecretName(name, namespace) == TargetWildcardSecretName(name', namespace') <==>
            || (namespace == namespace' && name == name')
            || BorderMoved(name, namespace, name', namespace') || BorderMoved(name', namespace', name, namespace)
  {
    WildcardNamesExactly(name, namespace, name', namespace');
    assert namespace[|namespace| - 1] != '-' && namespace'[|namespace'| - 1] != '-';
  }

  /** Two secrets with valid names, in namespaces with valid names, whose wildcard copies share one. */
  lemma WildcardNamesCollide()
    ensures IsDns1123Label("a") && IsDns1123Label("a--b") && IsDns1123Label("b--c") && IsDns1123Label("c")
    ensures TargetWildcardSecretName("b--c", "a") == TargetWildcardSecretName("c", "a--b")
  {
    assert "a--b" == "a" + "--" + "b" && "b--c" == "b" + "--" + "c";
    assert MovedOver("b", "b--c", "a", "c", "a--b");
    WildcardNamesExactly("b--c", "a", "c", "a--b");
  }

  /** Without a double dash in them, such namespaces name wildcard copies injectively. */
  lemma WildcardNamesInjective(name: string, namespace: string, name': string, namespace': string)
    requires NoDoubleDash(namespace) && NoDoubleDash(namespace')
    requires IsDns1123Label(namespace) && IsDns1123Label(namespace')
    requires TargetWildcardSecretName(name, namespace) == TargetWildcardSecretName(name', namespace')
    ensures namespace == namespace' && name == name'
  {
    WildcardNamesOfLabels(name, namespace, name', namespace');
    BorderNeedsDoubleDash(name, namespace, name', namespace');
    BorderNeedsDoubleDash(name', namespace', name, namespace);
  }

  lemma BorderNeedsDoubleDash(name: string, namespace: string, name': string, namespace': string)
    ensures BorderMoved(name, namespace, name', namespace') ==> !NoDoubleDash(namespace')
  {
    if x :| MovedOver(x, name, namespace, name', namespace') {
      assert namespace'[|namespace|] == '-' && namespace'[|namespace| + 1] == '-';
    }
  }

  // ---------------------------------------------------------------- the secrets an Ingress refers to

  predicate CoversHosts(tls: IngressTLS, hosts: seq<string>) {
    forall h :: h in hosts ==> h in tls.hosts
  }

  function Covering(tls: seq<IngressTLS>, hosts: seq<string>): (r: seq<IngressTLS>)
    ensures forall t :: t in r <==> t in tls && CoversHosts(t, hosts)
  {
    if tls == [] then []
    else (if CoversHosts(tls[0], hosts) then [tls[0]] else []) + Covering(tls[1..], hosts)
  }

  /** The TLS entries that cover a rule of the visibility, rule by rule; a rule without hosts ends the list. */
  function TLSForRules(tls: seq<IngressTLS>, rules: seq<IngressRule>, visibility: string): (r: seq<IngressTLS>)
    ensures forall t :: t in r ==> t in tls
    ensures r != [] ==> exists rule :: rule in rules && rule.visibility == visibility
  {
    if rules == [] then []
    else if rules[0].visibility != visibility then TLSForRules(tls, rules[1..], visibility)
    else if rules[0].hosts == [] then []
    else Covering(tls, rules[0].hosts) + TLSForRules(tls, rules[1..], visibility)
  }

  function IngressTLSFor(ing: Ingress, visibility: string): seq<IngressTLS> {
    TLSForRules(ing.tls, ing.rules, visibility)
  }

  function SecretKey(tls: IngressTLS): string {
    tls.secretNamespace + "/" + tls.secretName
  }

  function SecretAt(objects: Objects, namespace: string, name: string): Option<StoredSecret> {
    var ref := Ref(SecretKind, namespace, name);
    if ref in objects && objects[ref].body.SecretBody? then
      var o := objects[ref];
      Some(StoredSecret(namespace, name, o.body.uid, o.labels, o.body.data, o.body.typ))
    else None
  }

  type Origins = map<string, StoredSecret>

  /** The secrets the TLS entries name, by key; None if one does not exist. */
  function GetSecrets(objects: Objects, tls: seq<IngressTLS>): (r: Option<Origins>)
    ensures r.Some? ==> forall k :: k in r.value <==> exists t :: t in tls && SecretKey(t) == k
    ensures r.Some? ==> forall k :: k in r.value ==>
              exists t :: t in tls && SecretKey(t) == k
                          && SecretAt(objects, t.secretNamespace, t.secretName) == Some(r.value[k])
  {
    if tls == [] then Some(map[]) else
      var t := tls[|tls| - 1];
      assert tls == tls[..|tls| - 1] + [t];
      match GetSecrets(objects, tls[..|tls| - 1])
      case None => None
      case Some(found) =>
        if SecretKey(t) in found then Some(found) else
          match SecretAt(objects, t.secretNamespace, t.secretName)
          case None => None
          case Some(s) => Some(found[SecretKey(t) := s])
  }

  lemma {:induction false} GetSecretsFailureStays(objects: Objects, tls: seq<IngressTLS>, i: nat)
    requires i <= |tls| && GetSecrets(objects, tls[..i]) == None
    ensures GetSecrets(objects, tls) == None
    decreases |tls| - i
  {
    if i == |tls| {
      assert tls[..i] == tls;
    } else {
      assert tls[..i + 1][..i] == tls[..i];
      GetSecretsFailureStays(objects, tls, i + 1);
    }
  }

  lemma GetSecretsStep(objects: Objects, tls: seq<IngressTLS>, i: nat)
    requires i < |tls|
    ensures var t, before := tls[i], GetSecrets(objects, tls[..i]);
            var here := SecretAt(objects, t.secretNamespace, t.secretName);
            GetSecrets(objects, tls[..i + 1]) ==
            if before.None? || SecretKey(t) in before.value then before
            else if here.None? then None else Some(before.value[SecretKey(t) := here.value])
  {
    assert tls[..i + 1][..i] == tls[..i];
  }

  method CollectSecrets(objects: Objects, tls: seq<IngressTLS>) returns (secrets: Option<Origins>)
    ensures secrets == GetSecrets(objects, tls)
  {
    var found: Origins := map[];
    var i := 0;
    while i < |tls|
      invariant 0 <= i <= |tls|
      invariant GetSecrets(objects, tls[..i]) == Some(found)
    {
      var t := tls[i];
      GetSecretsStep(objects, tls, i);
      i := i + 1;
      if SecretKey(t) in found {
        continue;
      }
      var secret := SecretAt(objects, t.secretNamespace, t.secretName);
      if secret.None? {
        GetSecretsFailureStays(objects, tls, i);
        return None;
      }
      found := found[SecretKey(t) := secret.value];
    }
    assert tls[..i] == tls;
    return Some(found);
  }

  /** Only the named secrets matter. */
  lemma {:induction false} GetSecretsDependsOn(objects: Objects, objects': Objects, tls: seq<IngressTLS>)
    requires forall t :: t in tls ==>
               SecretAt(objects, t.secretNamespace, t.secretName) == SecretAt(objects', t.secretNamespace, t.secretName)
    ensures GetSecrets(objects, tls) == GetSecrets(objects', tls)
  {
    if tls != [] {
      var n := |tls| - 1;
      assert tls[n] in tls && tls[..n + 1] == tls;
      assert forall t :: t in tls[..n] ==> t in tls;
      GetSecretsDependsOn(objects, objects', tls[..n]);
      GetSecretsStep(objects, tls, n);
      GetSecretsStep(objects', tls, n);
    }
  }

  /** With namespaces free of "/", the secret found for an entry is the one it names. */
  lemma OriginOf(objects: Objects, tls: seq<IngressTLS>, t: IngressTLS)
    requires GetSecrets(objects, tls).Some? && t in tls
    requires forall u :: u in tls ==> '/' !in u.secretNamespace
    ensures SecretKey(t) in GetSecrets(objects, tls).value
    ensures SecretAt(objects, t.secretNamespace, t.secretName) == Some(GetSecrets(objects, tls).value[SecretKey(t)])
  {
    var u :| u in tls && SecretKey(u) == SecretKey(t)
             && SecretAt(objects, u.secretNamespace, u.secretName) ==
                Some(GetSecrets(objects, tls).value[SecretKey(t)]);
    JoinInjective(u.secretNamespace, u.secretName, t.secretNamespace, t.secretName, '/');
  }

  // ---------------------------------------------------------------- wildcard certificates

  /** Whether the first label is "*"; None for a name without a dot. */
  function IsWildcardHost(domain: string): Option<bool> {
    var splits := Split(domain, '.');
    if |splits| <= 1 then None else Some(splits[0] == "*")
  }

  function AnyWildcard(hosts: seq<string>): Option<bool> {
    if hosts == [] then Some(false)
    else match IsWildcardHost(hosts[0])
      case None => None
      case Some(true) => Some(true)
      case Some(false) => AnyWildcard(hosts[1..])
  }

  function IsWildcardSecret(lib: Library, s: StoredSecret): Option<bool> {
    match lib.certHosts(s.data)
    case None => None
    case Some(hosts) => AnyWildcard(hosts)
  }

  datatype Categories = Categories(plain: Origins, wildcard: Origins)

  function OfKind(lib: Library, secrets: Origins, wildcard: bool): Origins {
    map k | k in secrets && IsWildcardSecret(lib, secrets[k]) == Some(wildcard) :: secrets[k]
  }

  function CategorizeSecrets(lib: Library, secrets: Origins): Option<Categories> {
    if exists k :: k in secrets && IsWildcardSecret(lib, secrets[k]) == None then None
    else Some(Categories(OfKind(lib, secrets, false), OfKind(lib, secrets, true)))
  }

  lemma OfKindStep(lib: Library, secrets: Origins, wildcard: bool, todo: set<string>, k: string)
    requires k in todo && k in secrets
    ensures OfKind(lib, secrets, wildcard) - (todo - {k}) ==
            if IsWildcardSecret(lib, secrets[k]) == Some(wildcard)
            then (OfKind(lib, secrets, wildcard) - todo)[k := secrets[k]]
            else OfKind(lib, secrets, wildcard) - todo
  {
  }

  method Categorize(lib: Library, secrets: Origins) returns (result: Option<Categories>)
    ensures result == CategorizeSecrets(lib, secrets)
  {
    var plain: Origins, wildcard: Origins := map[], map[];
    var todo := secrets.Keys;
    while todo != {}
      invariant todo <= secrets.Keys
      invariant forall k :: k in secrets && k !in todo ==> IsWildcardSecret(lib, secrets[k]) != None
      invariant plain == OfKind(lib, secrets, false) - todo
      invariant wildcard == OfKind(lib, secrets, true) - todo
      decreases todo
    {
      var k :| k in todo;
      var kind := IsWildcardSecret(lib, secrets[k]);
      if kind == None {
        return None;
      }
      OfKindStep(lib, secrets, true, todo, k);
      OfKindStep(lib, secrets, false, todo, k);
      todo := todo - {k};
      if kind.value {
        wildcard := wildcard[k := secrets[k]];
      } else {
        plain := plain[k := secrets[k]];
      }
    }
    assert plain == OfKind(lib, secrets, false) && wildcard == OfKind(lib, secrets, true);
    return Some(Categories(plain, wildcard));
  }

  // ---------------------------------------------------------------- making the copies

  type Naming = StoredSecret -> string

  function PlainNaming(ingressName: string): Naming {
    (origin: StoredSecret) => TargetSecretName(ingressName, origin)
  }

  function WildcardNaming(): Naming {
    (origin: StoredSecret) => TargetWildcardSecretName(origin.name, origin.namespace)
  }

  /** A copy per gateway service whose namespace differs from the origin's. */
  function CopiesFor(origin: StoredSecret, services: seq<ServiceKey>, naming: Naming): (r: seq<Want>)
    ensures forall w :: w in r <==> exists s :: s in services && s.namespace != origin.namespace
                                         && w == CopyOf(origin, naming(origin), s.namespace)
  {
    if services == [] then [] else
      var s := services[|services| - 1];
      assert services == services[..|services| - 1] + [s];
      var init := CopiesFor(origin, services[..|services| - 1], naming);
      if s.namespace == origin.namespace then init
      else init + [CopyOf(origin, naming(origin), s.namespace)]
  }

  /** The copies of all origins; `order` is the order in which the map of origins was iterated. */
  function Copies(order: seq<string>, origins: Origins, services: seq<ServiceKey>, naming: Naming): (r: seq<Want>)
    requires forall k :: k in order ==> k in origins
    ensures forall w :: w in r <==> exists k, s :: k in order && s in services && s.namespace != origins[k].namespace
                                            && w == CopyOf(origins[k], naming(origins[k]), s.namespace)
  {
    if order == [] then [] else
      var k := order[|order| - 1];
      assert order == order[..|order| - 1] + [k];
      Copies(order[..|order| - 1], origins, services, naming) + CopiesFor(origins[k], services, naming)
  }

  method CopyToServices(origin: StoredSecret, services: seq<ServiceKey>, naming: Naming) returns (copies: seq<Want>)
    ensures copies == CopiesFor(origin, services, naming)
  {
    copies := [];
    var j := 0;
    while j < |services|
      invariant 0 <= j <= |services|
      invariant copies == CopiesFor(origin, services[..j], naming)
    {
      assert services[..j + 1][..j] == services[..j];
      if services[j].namespace != origin.namespace {
        copies := copies + [CopyOf(origin, naming(origin), services[j].namespace)];
      }
      j := j + 1;
    }
    assert services[..j] == services;
  }

  method MakeSecrets(order: seq<string>, origins: Origins, services: seq<ServiceKey>, naming: Naming)
    returns (secrets: seq<Want>)
    requires forall k :: k in order ==> k in origins
    ensures secrets == Copies(order, origins, services, naming)
  {
    secrets := [];
    var i := 0;
    while i < |order|
      invariant 0 <= i <= |order|
      invariant secrets == Copies(order[..i], origins, services, naming)
    {
      var copies := CopyToServices(origins[order[i]], services, naming);
      assert order[..i + 1][..i] == order[..i];
      secrets := secrets + copies;
      i := i + 1;
    }
    assert order[..i] == order;
  }
}
