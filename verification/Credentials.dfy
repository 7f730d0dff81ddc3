/** Every TLS server that a pass puts in place names a secret that is there, with the certificate it was made for. */
module Credentials {
  import opened Config
  import opened Fixpoint
  import opened Gateways
  import opened IngressPass
  import opened Secrets
  import opened Servers
  import opened Store
  import opened Strings
  import opened Types

  // ---------------------------------------------------------------- the missing-origin error cannot occur

  /** No service and no TLS entry of the lists a pass uses lacks its origin, once the secrets have been read. */
  lemma MissingOriginUnreachable(env: Env, objects: Objects, ing: Ingress, services: seq<GatewayService>)
    ensures ExternalSecrets(env, objects, ing).Some? ==>
              var c := ExternalSecrets(env, objects, ing).value;
              TLSGateways(env.lib, ing, EXTERNAL_IP, PlainTLS(IngressTLSFor(ing, EXTERNAL_IP), c.plain), c.plain,
                          services).Some?
    ensures GetSecrets(objects, IngressTLSFor(ing, CLUSTER_LOCAL)).Some? ==>
              var origins := GetSecrets(objects, IngressTLSFor(ing, CLUSTER_LOCAL)).value;
              TLSGateways(env.lib, ing, CLUSTER_LOCAL, IngressTLSFor(ing, CLUSTER_LOCAL), origins, services).Some?
  {
    if ExternalSecrets(env, objects, ing).Some? {
      var c := ExternalSecrets(env, objects, ing).value;
      OriginsAtHand(env.lib, ing, EXTERNAL_IP, PlainTLS(IngressTLSFor(ing, EXTERNAL_IP), c.plain), c.plain, services);
    }
    if GetSecrets(objects, IngressTLSFor(ing, CLUSTER_LOCAL)).Some? {
      var origins := GetSecrets(objects, IngressTLSFor(ing, CLUSTER_LOCAL)).value;
      OriginsAtHand(env.lib, ing, CLUSTER_LOCAL, IngressTLSFor(ing, CLUSTER_LOCAL), origins, services);
    }
  }

  lemma OriginsAtHand(lib: Library, ing: Ingress, visibility: string, tls: seq<IngressTLS>, origins: Origins,
                      services: seq<GatewayService>)
    requires visibility == EXTERNAL_IP || visibility == CLUSTER_LOCAL
    requires forall t :: t in tls ==> SecretKey(t) in origins
    ensures TLSGateways(lib, ing, visibility, tls, origins, services).Some?
  {
    TLSGatewaysEach(lib, ing, visibility, tls, origins, services);
    forall s | s in services ensures TLSGatewayFor(lib, ing, visibility, tls, origins, s).Some? {
      ServersForExactly(lib, ing, HttpsPort(visibility).value, tls, s.key.namespace, origins);
    }
  }

  // ---------------------------------------------------------------- credentials resolve

  /** In `namespace` there is a secret of that name whose data is what the TLS entry's secret held. */
  ghost predicate Resolves(before: Objects, after: Objects, namespace: string, name: string, t: IngressTLS) {
    var ref := Ref(SecretKind, namespace, name);
    var origin := SecretAt(before, t.secretNamespace, t.secretName);
    origin.Some? && ref in after && after[ref].body.SecretBody? && after[ref].body.data == origin.value.data
  }

  /** Every server is for some entry, whose certificate it finds in the namespace of the gateway service. */
  ghost predicate AllResolve(before: Objects, after: Objects, namespace: string, servers: seq<Server>,
                             tls: seq<IngressTLS>)
  {
    forall s :: s in servers ==>
      exists t :: t in tls && s.Server? && s.hosts == t.hosts && s.tls.Some?
                  && Resolves(before, after, namespace, s.tls.value.credentialName, t)
  }

  /** The origins map holds, for every entry, the secret the entry names. */
  ghost predicate OriginsFor(before: Objects, tls: seq<IngressTLS>, origins: Origins) {
    forall t :: t in tls ==>
      SecretKey(t) in origins && SecretAt(before, t.secretNamespace, t.secretName) == Some(origins[SecretKey(t)])
  }

  lemma CopyResolves(before: Objects, after: Objects, ing: Ingress, t: IngressTLS, origins: Origins, order: seq<string>,
                     keys: seq<ServiceKey>, key: ServiceKey)
    requires Enumerates(order, origins.Keys)
    requires SecretKey(t) in origins && SecretAt(before, t.secretNamespace, t.secretName) == Some(origins[SecretKey(t)])
    requires Satisfied(after, None, Copies(order, origins, keys, PlainNaming(ing.name)))
    requires SecretAt(before, t.secretNamespace, t.secretName) == SecretAt(after, t.secretNamespace, t.secretName)
    requires key in keys
    ensures CredentialName(ing.name, t, key.namespace, origins).Some?
    ensures Resolves(before, after, key.namespace, CredentialName(ing.name, t, key.namespace, origins).value, t)
  {
    var origin := origins[SecretKey(t)];
    if t.secretNamespace != key.namespace {
      var copy := CopyOf(origin, PlainNaming(ing.name)(origin), key.namespace);
      assert SecretKey(t) in order;
      assert copy in Copies(order, origins, keys, PlainNaming(ing.name));
    }
  }

  lemma ServersResolve(env: Env, before: Objects, after: Objects, ing: Ingress, visibility: string,
                       tls: seq<IngressTLS>, origins: Origins, order: seq<string>, keys: seq<ServiceKey>,
                       key: ServiceKey)
    requires Enumerates(order, origins.Keys)
    requires OriginsFor(before, tls, origins)
    requires Satisfied(after, None, Copies(order, origins, keys, PlainNaming(ing.name)))
    requires SameOrigins(before, after, ing) && forall t :: t in tls ==> t in ing.tls
    requires key in keys && TLSServers(env.lib, ing, visibility, tls, key.namespace, origins).Some?
    ensures AllResolve(before, after, key.namespace,
                       TLSServers(env.lib, ing, visibility, tls, key.namespace, origins).value, tls)
  {
    var raw := ServersFor(env.lib, ing, HttpsPort(visibility).value, tls, key.namespace, origins).value;
    SortConserves(raw);
    forall s | s in SortByName(raw)
      ensures exists t :: t in tls && s.Server? && s.hosts == t.hosts && s.tls.Some?
                          && Resolves(before, after, key.namespace, s.tls.value.credentialName, t)
    {
      var i :| 0 <= i < |raw| && raw[i] == s;
      assert tls[i] in tls;
      CopyResolves(before, after, ing, tls[i], origins, order, keys, key);
    }
  }

  /** The Gateways of one visibility: each is for a service that is configured, and its servers resolve there. */
  ghost predicate GatewaysResolve(env: Env, before: Objects, after: Objects, ing: Ingress, gateways: seq<Want>,
                                  tls: seq<IngressTLS>)
  {
    forall g :: g in gateways ==>
      && g.obj.body.GatewayBody?
      && exists s :: Services(env, ing).Some? && s in Services(env, ing).value && g.obj.body.gw.selector == s.selector
                     && AllResolve(before, after, s.key.namespace, g.obj.body.gw.servers, tls)
  }

  lemma ServiceIsConfigured(env: Env, ing: Ingress, s: GatewayService)
    requires Services(env, ing).Some? && s in Services(env, ing).value
    ensures s.key in Keys(env, ing).value
  {
    var i :| 0 <= i < |Services(env, ing).value| && Services(env, ing).value[i] == s;
    assert Keys(env, ing).value[i] == s.key;
  }

  lemma TLSGatewaysResolve(env: Env, before: Objects, after: Objects, ing: Ingress, visibility: string,
                           tls: seq<IngressTLS>, origins: Origins, order: seq<string>)
    requires Enumerates(order, origins.Keys) && OriginsFor(before, tls, origins)
    requires Keys(env, ing).Some?
    requires Satisfied(after, None, Copies(order, origins, Keys(env, ing).value, PlainNaming(ing.name)))
    requires SameOrigins(before, after, ing) && forall t :: t in tls ==> t in ing.tls
    requires IngressTLSGateways(env, ing, visibility, tls, origins).Some?
    ensures GatewaysResolve(env, before, after, ing, IngressTLSGateways(env, ing, visibility, tls, origins).value, tls)
  {
    if |tls| != 0 {
      var keys, services := Keys(env, ing).value, Services(env, ing).value;
      var gateways := IngressTLSGateways(env, ing, visibility, tls, origins).value;
      TLSGatewaysEach(env.lib, ing, visibility, tls, origins, services);
      forall g | g in gateways
        ensures g.obj.body.GatewayBody?
        ensures exists s :: s in services && g.obj.body.gw.selector == s.selector
                            && AllResolve(before, after, s.key.namespace, g.obj.body.gw.servers, tls)
      {
        var s :| s in services && TLSGatewayFor(env.lib, ing, visibility, tls, origins, s) == Some(g);
        ServiceIsConfigured(env, ing, s);
        ServersResolve(env, before, after, ing, visibility, tls, origins, order, keys, s.key);
      }
    }
  }

  /** The Gateway for one origin and one service: its only server has the hosts of the origin's certificate. */
  predicate IsWildcardGatewayOf(lib: Library, origins: Origins, k: string, service: GatewayService, g: Want) {
    k in origins && lib.certHosts(origins[k].data).Some?
    && g == WildcardGateway(origins[k], lib.certHosts(origins[k].data).value, service)
  }

  /** A wildcard Gateway is for one origin and one service, and its server finds that origin's data there. */
  ghost predicate WildcardResolves(env: Env, after: Objects, ing: Ingress, origins: Origins, g: Want) {
    exists k, s ::
      && IsWildcardGatewayOf(env.lib, origins, k, s, g) && Services(env, ing).Some? && s in Services(env, ing).value
      && var ref := Ref(SecretKind, s.key.namespace, WildcardCredential(origins[k], s.key));
         ref in after && after[ref].body.SecretBody? && after[ref].body.data == origins[k].data
  }

  lemma {:induction false} WildcardsComeFrom(lib: Library, o: Orders, origins: Origins, services: seq<GatewayService>,
                                             g: Want)
    requires Fair(o) && AllWildcardGateways(lib, o, origins, services).Some?
    requires g in AllWildcardGateways(lib, o, origins, services).value
    ensures exists k, s :: IsWildcardGatewayOf(lib, origins, k, s, g) && s in services
    decreases |services|
  {
    if services != [] {
      var n := |services| - 1;
      var init := AllWildcardGateways(lib, o, origins, services[..n]).value;
      if g in init {
        WildcardsComeFrom(lib, o, origins, services[..n], g);
        var k, s :| IsWildcardGatewayOf(lib, origins, k, s, g) && s in services[..n];
        assert s in services;
      } else {
        var order := o.enumerate(10 + n, origins.Keys);
        var k :| k in order && lib.certHosts(origins[k].data).Some?
                 && g == WildcardGateway(origins[k], lib.certHosts(origins[k].data).value, services[n]);
        assert IsWildcardGatewayOf(lib, origins, k, services[n], g);
      }
    }
  }

  /** Where a wildcard origin came from, it still is. */
  ghost predicate OriginsStand(after: Objects, origins: Origins) {
    forall k :: k in origins ==> SecretAt(after, origins[k].namespace, origins[k].name) == Some(origins[k])
  }

  lemma WildcardGatewaysResolve(env: Env, after: Objects, ing: Ingress, o: Orders, origins: Origins, order: seq<string>)
    requires Fair(o) && Enumerates(order, origins.Keys) && OriginsStand(after, origins)
    requires Keys(env, ing).Some? && WildcardTLSGateways(env, ing, o, origins).Some?
    requires Satisfied(after, None, Copies(order, origins, Keys(env, ing).value, WildcardNaming()))
    ensures forall g :: g in WildcardTLSGateways(env, ing, o, origins).value ==>
              WildcardResolves(env, after, ing, origins, g)
  {
    if |origins| != 0 {
      var keys, services := Keys(env, ing).value, Services(env, ing).value;
      forall g | g in WildcardTLSGateways(env, ing, o, origins).value
        ensures WildcardResolves(env, after, ing, origins, g)
      {
        WildcardsComeFrom(env.lib, o, origins, services, g);
        var k, s :| IsWildcardGatewayOf(env.lib, origins, k, s, g) && s in services;
        ServiceIsConfigured(env, ing, s);
        WildcardCopyThere(after, origins, k, order, keys, s.key);
      }
    }
  }

  lemma WildcardCopyThere(after: Objects, origins: Origins, k: string, order: seq<string>, keys: seq<ServiceKey>,
                          key: ServiceKey)
    requires Enumerates(order, origins.Keys) && OriginsStand(after, origins) && k in origins && key in keys
    requires Satisfied(after, None, Copies(order, origins, keys, WildcardNaming()))
    ensures var ref := Ref(SecretKind, key.namespace, WildcardCredential(origins[k], key));
            ref in after && after[ref].body.SecretBody? && after[ref].body.data == origins[k].data
  {
    if origins[k].namespace != key.namespace {
      assert k in order;
      assert CopyOf(origins[k], WildcardNaming()(origins[k]), key.namespace) in Copies(order, origins, keys,
                                                                                       WildcardNaming());
    }
  }

  // ---------------------------------------------------------------- in a settled table

  lemma SecretsFound(env: Env, objects: Objects, ing: Ingress)
    requires forall t :: t in ing.tls ==> '/' !in t.secretNamespace
    ensures forall v :: GetSecrets(objects, IngressTLSFor(ing, v)).Some? ==>
              OriginsFor(objects, IngressTLSFor(ing, v), GetSecrets(objects, IngressTLSFor(ing, v)).value)
  {
    forall v, t | GetSecrets(objects, IngressTLSFor(ing, v)).Some? && t in IngressTLSFor(ing, v)
      ensures SecretKey(t) in GetSecrets(objects, IngressTLSFor(ing, v)).value
      ensures SecretAt(objects, t.secretNamespace, t.secretName) ==
              Some(GetSecrets(objects, IngressTLSFor(ing, v)).value[SecretKey(t)])
    {
      OriginOf(objects, IngressTLSFor(ing, v), t);
    }
  }

  lemma OriginsStillStand(before: Objects, after: Objects, ing: Ingress, tls: seq<IngressTLS>, origins: Origins)
    requires GetSecrets(before, tls).Some? && (forall t :: t in tls ==> t in ing.tls) && SameOrigins(before, after, ing)
    requires forall k :: k in origins ==>
               k in GetSecrets(before, tls).value && origins[k] == GetSecrets(before, tls).value[k]
    ensures OriginsStand(after, origins)
  {
    forall k | k in origins ensures SecretAt(after, origins[k].namespace, origins[k].name) == Some(origins[k]) {
      var t :| t in tls && SecretKey(t) == k
               && SecretAt(before, t.secretNamespace, t.secretName) == Some(GetSecrets(before, tls).value[k]);
    }
  }

  /** What the external plan is made of. */
  lemma ExternalPlanParts(env: Env, before: Objects, ing: Ingress, o: Orders)
    requires Fair(o) && ExternalTLS(ing) && PlanExternal(env, before, ing, o).Some?
    ensures var p := PlanExternal(env, before, ing, o).value;
            var found := GetSecrets(before, IngressTLSFor(ing, EXTERNAL_IP));
            && Keys(env, ing).Some? && found.Some? && CategorizeSecrets(env.lib, found.value) == Some(p.c)
            && p.copies == Copies(o.enumerate(0, p.c.plain.Keys), p.c.plain, Keys(env, ing).value,
                                  PlainNaming(ing.name))
                           + Copies(o.enumerate(1, p.c.wildcard.Keys), p.c.wildcard, Keys(env, ing).value,
                                    WildcardNaming())
            && PlainGateways(env, ing, p.c) == Some(p.gateways)
            && WildcardTLSGateways(env, ing, o, p.c.wildcard) == Some(p.wildcards)
  {
  }

  lemma ExternalPlainResolve(env: Env, before: Objects, after: Objects, ing: Ingress, o: Orders)
    requires Fair(o) && PlanExternal(env, before, ing, o).Some? && SameOrigins(before, after, ing)
    requires Satisfied(after, None, PlanExternal(env, before, ing, o).value.copies)
    requires forall t :: t in ing.tls ==> '/' !in t.secretNamespace
    ensures GatewaysResolve(env, before, after, ing, PlanExternal(env, before, ing, o).value.gateways, ing.tls)
  {
    if ExternalTLS(ing) {
      ExternalPlanParts(env, before, ing, o);
      var p := PlanExternal(env, before, ing, o).value;
      var tls, order := PlainTLS(IngressTLSFor(ing, EXTERNAL_IP), p.c.plain), o.enumerate(0, p.c.plain.Keys);
      SecretsFound(env, before, ing);
      SatisfiedSameMembers(after, p.copies, Copies(order, p.c.plain, Keys(env, ing).value, PlainNaming(ing.name)));
      TLSGatewaysResolve(env, before, after, ing, EXTERNAL_IP, tls, p.c.plain, order);
      WiderTLS(env, before, after, ing, p.gateways, tls);
    }
  }

  lemma ExternalWildcardsResolve(env: Env, before: Objects, after: Objects, ing: Ingress, o: Orders)
    requires Fair(o) && PlanExternal(env, before, ing, o).Some? && SameOrigins(before, after, ing)
    requires Satisfied(after, None, PlanExternal(env, before, ing, o).value.copies)
    ensures var p := PlanExternal(env, before, ing, o).value;
            forall g :: g in p.wildcards ==> WildcardResolves(env, after, ing, p.c.wildcard, g)
  {
    if ExternalTLS(ing) {
      ExternalPlanParts(env, before, ing, o);
      var p := PlanExternal(env, before, ing, o).value;
      var order := o.enumerate(1, p.c.wildcard.Keys);
      SatisfiedSameMembers(after, p.copies, Copies(order, p.c.wildcard, Keys(env, ing).value, WildcardNaming()));
      OriginsStillStand(before, after, ing, IngressTLSFor(ing, EXTERNAL_IP), p.c.wildcard);
      WildcardGatewaysResolve(env, after, ing, o, p.c.wildcard, order);
    }
  }

  lemma WiderTLS(env: Env, before: Objects, after: Objects, ing: Ingress, gateways: seq<Want>, tls: seq<IngressTLS>)
    requires GatewaysResolve(env, before, after, ing, gateways, tls) && forall t :: t in tls ==> t in ing.tls
    ensures GatewaysResolve(env, before, after, ing, gateways, ing.tls)
  {
    forall g | g in gateways
      ensures exists s :: Services(env, ing).Some? && s in Services(env, ing).value
                          && g.obj.body.gw.selector == s.selector
                          && AllResolve(before, after, s.key.namespace, g.obj.body.gw.servers, ing.tls)
    {
      var s :| s in Services(env, ing).value && g.obj.body.gw.selector == s.selector
               && AllResolve(before, after, s.key.namespace, g.obj.body.gw.servers, tls);
      assert AllResolve(before, after, s.key.namespace, g.obj.body.gw.servers, ing.tls);
    }
  }

  lemma LocalCredentialsResolve(env: Env, before: Objects, after: Objects, ing: Ingress, o: Orders)
    requires Fair(o) && Settled(env, before, after, ing, o)
    requires forall t :: t in ing.tls ==> '/' !in t.secretNamespace
    ensures GatewaysResolve(env, before, after, ing, PlanPass(env, before, ing, o).value.local.gateways, ing.tls)
  {
    SettledParts(env, before, after, ing, o);
    if env.localTLS && LocalTLS(ing) {
      var q := PlanLocal(env, before, ing, o).value;
      var tls := IngressTLSFor(ing, CLUSTER_LOCAL);
      SecretsFound(env, before, ing);
      TLSGatewaysResolve(env, before, after, ing, CLUSTER_LOCAL, tls, q.origins, o.enumerate(2, q.origins.Keys));
      WiderTLS(env, before, after, ing, q.gateways, tls);
    }
  }

  /** After a successful pass every TLS server it made, plain, wildcard or cluster-local, finds its certificate. */
  lemma CredentialsAlwaysResolve(env: Env, f: Faults, w: World, ing: Ingress, o: Orders)
    requires Fair(o) && NoCollisions(env, w.objects, ing, o)
    requires forall t :: t in ing.tls ==> '/' !in t.secretNamespace
    requires GatewayPass(env, f, w, ing, o).outcome == Done
    ensures PlanPass(env, w.objects, ing, o).Some?
    ensures var after, plan := GatewayPass(env, f, w, ing, o).world.objects, PlanPass(env, w.objects, ing, o).value;
            && GatewaysResolve(env, w.objects, after, ing, plan.external.gateways, ing.tls)
            && GatewaysResolve(env, w.objects, after, ing, plan.local.gateways, ing.tls)
            && (forall g :: g in plan.external.wildcards ==>
                  WildcardResolves(env, after, ing, plan.external.c.wildcard, g))
  {
    var after := GatewayPass(env, f, w, ing, o).world.objects;
    GatewayPassSettles(env, f, w, ing, o);
    SettledParts(env, w.objects, after, ing, o);
    ExternalPlainResolve(env, w.objects, after, ing, o);
    ExternalWildcardsResolve(env, w.objects, after, ing, o);
    LocalCredentialsResolve(env, w.objects, after, ing, o);
  }

  /** A server of a Gateway is for a TLS entry: it has the entry's hosts, and its credential is a secret beside the
      gateway's service with the certificate of that entry. */
  ghost predicate FindsCredential(env: Env, before: Objects, after: Objects, ing: Ingress, gw: GatewaySpec, s: Server) {
    exists service, t ::
      && Services(env, ing).Some? && service in Services(env, ing).value && gw.selector == service.selector
      && t in ing.tls && s.Server? && s.hosts == t.hosts && s.tls.Some?
      && Resolves(before, after, service.key.namespace, s.tls.value.credentialName, t)
  }

  predicate TerminatesTLS(s: Server) {
    s.Server? && s.tls.Some? && s.tls.value.mode.Simple?
  }

  lemma PlannedServerFinds(env: Env, before: Objects, after: Objects, ing: Ingress, gateways: seq<Want>, g: Want,
                           s: Server)
    requires GatewaysResolve(env, before, after, ing, gateways, ing.tls) && g in gateways
    requires s in g.obj.body.gw.servers
    ensures FindsCredential(env, before, after, ing, g.obj.body.gw, s)
  {
    var service :| Services(env, ing).Some? && service in Services(env, ing).value
                   && g.obj.body.gw.selector == service.selector
                   && AllResolve(before, after, service.key.namespace, g.obj.body.gw.servers, ing.tls);
    var t :| t in ing.tls && s.Server? && s.hosts == t.hosts && s.tls.Some?
             && Resolves(before, after, service.key.namespace, s.tls.value.credentialName, t);
  }

  /** The servers that terminate TLS are those planned: the HTTP server that is added does not. */
  lemma TLSServersWerePlanned(env: Env, ing: Ingress, gateways: seq<Want>, g: Want, s: Server) returns (planned: Want)
    requires forall w :: w in gateways ==> w.obj.body.GatewayBody?
    requires WithHTTP(env, ing, gateways).Some? && g in WithHTTP(env, ing, gateways).value && g.obj.body.GatewayBody?
    requires s in g.obj.body.gw.servers && TerminatesTLS(s)
    ensures planned in gateways && s in planned.obj.body.gw.servers
    ensures planned.obj.body.gw.selector == g.obj.body.gw.selector
  {
    var r := WithHTTP(env, ing, gateways).value;
    var i :| 0 <= i < |r| && r[i] == g;
    if !OwnHTTPServer(ing) {
      planned := g;
    } else if |gateways| != 0 {
      planned := gateways[i];
    } else {
      assert false;
    }
  }

  /** After a successful pass, in the table: every server that terminates TLS in a Gateway of the Ingress finds the
      certificate of the TLS entry it is for, and every wildcard Gateway that of the secret it is for. */
  lemma StoredServersFindCredentials(env: Env, f: Faults, w: World, ing: Ingress, o: Orders, g: Want, s: Server)
    requires Fair(o) && NoCollisions(env, w.objects, ing, o)
    requires forall t :: t in ing.tls ==> '/' !in t.secretNamespace
    requires GatewayPass(env, f, w, ing, o).outcome == Done
    ensures PlanPass(env, w.objects, ing, o).Some?
    ensures var after, plan := GatewayPass(env, f, w, ing, o).world.objects, PlanPass(env, w.objects, ing, o).value;
            && (g in plan.gateways || g in plan.local.gateways ==>
                  && g.ref in after && after[g.ref].body.GatewayBody?
                  && (s in after[g.ref].body.gw.servers && TerminatesTLS(s) ==>
                        FindsCredential(env, w.objects, after, ing, after[g.ref].body.gw, s)))
            && (g in plan.external.wildcards ==>
                  && g.ref in after && after[g.ref].body == g.obj.body
                  && WildcardResolves(env, after, ing, plan.external.c.wildcard, g))
  {
    GatewayPassSettles(env, f, w, ing, o);
    CredentialsAlwaysResolve(env, f, w, ing, o);
    var after, plan := GatewayPass(env, f, w, ing, o).world.objects, PlanPass(env, w.objects, ing, o).value;
    SettledParts(env, w.objects, after, ing, o);
    FinalGatewaysOfPlan(env, w.objects, ing, o);
    if g in plan.gateways || g in plan.local.gateways {
      StoredGatewayFinds(env, w.objects, after, ing, plan.external.gateways, plan.gateways, plan.local.gateways,
                         plan.external.wildcards, g, s);
    }
    StoredBody(after, plan.external.wildcards, plan.gateways, plan.local.gateways, g);
  }

  lemma FinalGatewaysOfPlan(env: Env, objects: Objects, ing: Ingress, o: Orders)
    requires Fair(o) && PlanPass(env, objects, ing, o).Some?
    ensures var plan := PlanPass(env, objects, ing, o).value;
            FinalGateways(env, ing, plan.external.gateways) == Some(plan.gateways)
  {
  }

  /** A stored Gateway of the Ingress, in a table that holds what was planned. */
  lemma StoredGatewayFinds(env: Env, before: Objects, after: Objects, ing: Ingress, planned: seq<Want>,
                           external: seq<Want>, local: seq<Want>, wildcards: seq<Want>, g: Want, s: Server)
    requires GatewaysResolve(env, before, after, ing, planned, ing.tls)
    requires GatewaysResolve(env, before, after, ing, local, ing.tls)
    requires FinalGateways(env, ing, planned) == Some(external)
    requires Satisfied(after, None, wildcards + external + local) && (g in external || g in local)
    ensures g.ref in after && after[g.ref].body.GatewayBody?
    ensures s in after[g.ref].body.gw.servers && TerminatesTLS(s) ==>
              FindsCredential(env, before, after, ing, after[g.ref].body.gw, s)
  {
    StoredIsPlanned(env, ing, planned, local, g);
    StoredBody(after, wildcards, external, local, g);
    if s in g.obj.body.gw.servers && TerminatesTLS(s) {
      ServerFinds(env, before, after, ing, planned, local, g, s);
    }
  }

  lemma StoredBody(after: Objects, wildcards: seq<Want>, external: seq<Want>, local: seq<Want>, g: Want)
    requires Satisfied(after, None, wildcards + external + local)
    ensures (g in wildcards || g in external || g in local) && g.obj.body.GatewayBody? ==>
              g.ref in after && after[g.ref].body == g.obj.body
  {
    if g in wildcards || g in external || g in local {
      assert g in wildcards + external + local;
    }
  }

  lemma ServerFinds(env: Env, before: Objects, after: Objects, ing: Ingress, gateways: seq<Want>, local: seq<Want>,
                    g: Want, s: Server)
    requires GatewaysResolve(env, before, after, ing, gateways, ing.tls)
    requires GatewaysResolve(env, before, after, ing, local, ing.tls)
    requires WithHTTP(env, ing, gateways).Some? && (g in WithHTTP(env, ing, gateways).value || g in local)
    requires g.obj.body.GatewayBody? && s in g.obj.body.gw.servers && TerminatesTLS(s)
    ensures FindsCredential(env, before, after, ing, g.obj.body.gw, s)
  {
    if g in local {
      PlannedServerFinds(env, before, after, ing, local, g, s);
    } else {
      var planned := TLSServersWerePlanned(env, ing, gateways, g, s);
      PlannedServerFinds(env, before, after, ing, gateways, planned, s);
    }
  }

  lemma StoredIsPlanned(env: Env, ing: Ingress, gateways: seq<Want>, local: seq<Want>, g: Want)
    requires FinalGateways(env, ing, gateways).Some? && forall w :: w in local ==> w.obj.body.GatewayBody?
    requires g in FinalGateways(env, ing, gateways).value || g in local
    ensures g.obj.body.GatewayBody?
  {
  }
}
