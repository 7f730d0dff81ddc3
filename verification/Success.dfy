/** When a reconciliation succeeds: exactly when nothing it needs is missing, bad or held by someone else. */
module Success {
  import opened Cleanup
  import opened Config
  import opened Credentials
  import opened Finalize
  import opened Fixpoint
  import opened Gateways
  import opened IngressPass
  import opened Secrets
  import opened ServiceObjects
  import opened Store
  import opened Strings
  import opened Types
  import opened VirtualServicePass
  import opened VirtualServices

  /** No desired Istio-class service has the key of an object of someone else. */
  predicate NoneForeign(objects: Objects, ing: Ingress, vses: seq<Want>) {
    forall d :: d in vses && IsIstioClass(d) && d.ref in objects ==> ControlledBy(objects[d.ref], ing.uid)
  }

  /** All that a pass with gateways needs, read off the table it starts from. */
  predicate Feasible(env: Env, objects: Objects, ing: Ingress, o: Orders)
    requires Fair(o)
  {
    var plan := PlanPass(env, objects, ing, o);
    plan.Some? && RoutesFeasibly(env, objects, ing, plan.value.names)
  }

  predicate RoutesFeasibly(env: Env, objects: Objects, ing: Ingress, names: GatewayNames) {
    var vses := MakeVirtualServices(env.lib, ing, names);
    vses.Some? && NoneForeign(objects, ing, vses.value)
  }

  // ---------------------------------------------------------------- a whole pass

  /** Without an owner to respect and without refusals every list is reconciled. */
  lemma {:induction false} UnownedSucceeds(f: Faults, w: World, wants: seq<Want>)
    requires NoFaults(f)
    ensures ReconcileAll(f, w, Live, None, wants).outcome == Done
    decreases |wants|
  {
    if wants != [] {
      UnownedSucceeds(f, Reconcile(f, w, Live, None, wants[0]).world, wants[1..]);
    }
  }

  lemma SameForeign(a: Objects, b: Objects, ing: Ingress, vses: seq<Want>)
    requires SameKind(a, b, VirtualServiceKind) && forall v :: v in vses ==> v.ref.kind == VirtualServiceKind
    ensures NoneForeign(a, ing, vses) <==> NoneForeign(b, ing, vses)
  {
    assert forall v :: v in vses ==> SameAt(a, b, v.ref);
  }

  lemma ServicesSucceedExactly(env: Env, f: Faults, w: World, ing: Ingress, names: GatewayNames, routeFirst: bool)
    requires NoFaults(f) && MakeVirtualServices(env.lib, ing, names).Some?
    ensures Pass(f, w, Live, ing, MakeVirtualServices(env.lib, ing, names).value, routeFirst).outcome == Done <==>
            NoneForeign(w.objects, ing, MakeVirtualServices(env.lib, ing, names).value)
  {
    IstioWantsFit(env.lib, ing, names);
    LivePassSucceedsExactly(f, w, ing, MakeVirtualServices(env.lib, ing, names).value, routeFirst);
  }

  lemma FollowSucceedsExactly(env: Env, f: Faults, w: World, ing: Ingress, plan: PassPlan, routeFirst: bool)
    requires NoFaults(f) && forall v :: v in plan.Unowned() ==> v.ref.kind != VirtualServiceKind
    ensures Follow(env, f, w, ing, plan, Live, routeFirst).outcome == Done <==>
            RoutesFeasibly(env, w.objects, ing, plan.names)
  {
    var mid := ReconcileAll(f, w, Live, None, plan.Unowned()).world;
    UnownedSucceeds(f, w, plan.Unowned());
    if MakeVirtualServices(env.lib, ing, plan.names).Some? {
      OthersUntouched(f, w, plan.Unowned(), VirtualServiceKind);
      ServicesSucceedExactly(env, f, mid, ing, plan.names, routeFirst);
      MadeVirtualServices(env.lib, ing, plan.names);
      SameForeign(w.objects, mid.objects, ing, MakeVirtualServices(env.lib, ing, plan.names).value);
    }
  }

  /** Without refusals a pass with gateways succeeds exactly when all it needs is there and no service name is taken. */
  lemma GatewayPassSucceedsExactly(env: Env, f: Faults, w: World, ing: Ingress, o: Orders)
    requires NoFaults(f) && Fair(o)
    ensures GatewayPass(env, f, w, ing, o).outcome == Done <==> Feasible(env, w.objects, ing, o)
  {
    if PlanPass(env, w.objects, ing, o).None? {
      UnplannedFails(env, f, w, ing, o, Live);
    } else {
      PassFollowsPlan(env, f, w, ing, o, Live);
      UnownedKinds(env, w.objects, ing, o);
      FollowSucceedsExactly(env, f, w, ing, PlanPass(env, w.objects, ing, o).value, o.routeFirst);
    }
  }

  // ---------------------------------------------------------------- a mesh-only pass

  lemma {:induction false} DeletesSucceed(f: Faults, w: World, refs: seq<Ref>)
    requires NoFaults(f)
    ensures DeleteGateways(f, w, refs).outcome == Done && !DeleteEach(f, w, refs, true).failed
    decreases |refs|
  {
    if refs != [] {
      DeletesSucceed(f, Delete(f, w, refs[0]).world, refs[1..]);
    }
  }

  lemma {:induction false} SweepSucceeds(f: Faults, w: World, tls: seq<IngressTLS>, l: Listing)
    requires NoFaults(f)
    ensures !SweepAllCopies(f, w, tls, l).failed
    decreases |tls|
  {
    if tls != [] {
      var refs := l(CopiesListed(w.objects, tls[0], None));
      DeletesSucceed(f, w, refs);
      SweepSucceeds(f, DeleteEach(f, w, refs, true).world, tls[1..], l);
    }
  }

  /** Without refusals a mesh-only pass succeeds exactly when the services can be made and none of their names is
      taken. */
  lemma MeshOnlySucceedsExactly(env: Env, f: Faults, w: World, ing: Ingress, o: Orders, l: Listing)
    requires NoFaults(f)
    ensures MeshOnlyPass(env, f, w, ing, o, l).outcome == Done <==>
            && MakeVirtualServices(env.lib, ing, NoGateways()).Some?
            && NoneForeign(w.objects, ing, MakeVirtualServices(env.lib, ing, NoGateways()).value)
  {
    if MakeVirtualServices(env.lib, ing, NoGateways()).Some? {
      ServicesSucceedExactly(env, f, w, ing, NoGateways(), o.routeFirst);
      var a := Pass(f, w, Live, ing, MakeVirtualServices(env.lib, ing, NoGateways()).value, o.routeFirst).world;
      var b := CleanupIngressGateways(f, a, ing, l).world;
      DeletesSucceed(f, a, l(OwnGateways(a.objects, ing)));
      SweepSucceeds(f, b, ing.tls, l);
    }
  }

  // ---------------------------------------------------------------- finalizing

  lemma {:induction false} PresentDeletesSucceed(f: Faults, w: World, refs: seq<Ref>, tolerant: bool)
    requires NoFaults(f) && Distinct(refs) && forall r :: r in refs ==> r in w.objects
    ensures !DeleteEach(f, w, refs, tolerant).failed
    decreases |refs|
  {
    if refs != [] {
      assert refs[0] in refs && forall i :: 0 <= i < |refs[1..]| ==> refs[1..][i] == refs[i + 1];
      PresentDeletesSucceed(f, Delete(f, w, refs[0]).world, refs[1..], tolerant);
    }
  }

  lemma {:induction false} NamespacesSucceed(f: Faults, w: World, t: IngressTLS, keys: seq<ServiceKey>, l: Listing)
    requires NoFaults(f) && FairListing(l)
    ensures !SweepNamespaces(f, w, t, keys, l).failed
    decreases |keys|
  {
    if keys != [] {
      var listed := CopiesListed(w.objects, t, Some(keys[0].namespace));
      assert Enumerates(l(listed), listed);
      PresentDeletesSucceed(f, w, l(listed), false);
      NamespacesSucceed(f, DeleteEach(f, w, l(listed), false).world, t, keys[1..], l);
    }
  }

  lemma {:induction false} GatewaySweepExactly(f: Faults, w: World, tls: seq<IngressTLS>, keys: Option<seq<ServiceKey>>,
                                               l: Listing)
    requires NoFaults(f) && FairListing(l)
    ensures SweepGatewayCopies(f, w, tls, keys, l).failed <==> tls != [] && keys.None?
    decreases |tls|
  {
    if tls != [] {
      if keys.None? {
        GatewaySweepExactly(f, w, tls[1..], keys, l);
      } else {
        NamespacesSucceed(f, w, tls[0], keys.value, l);
        GatewaySweepExactly(f, SweepNamespaces(f, w, tls[0], keys.value, l).world, tls[1..], keys, l);
      }
    }
  }

  lemma AnyTLSHasEntries(ing: Ingress)
    requires AnyTLS(ing)
    ensures ing.tls != []
  {
    if ExternalTLS(ing) {
      assert IngressTLSFor(ing, EXTERNAL_IP)[0] in ing.tls;
    } else {
      assert IngressTLSFor(ing, CLUSTER_LOCAL)[0] in ing.tls;
    }
  }

  /** Without refusals finalizing succeeds exactly when, for an Ingress with TLS in gateway mode, the gateway
      services can be named. Otherwise it fails each time it is tried. */
  lemma FinalizeSucceedsExactly(env: Env, f: Faults, w: World, ing: Ingress, l: Listing)
    requires NoFaults(f) && FairListing(l)
    ensures FinalizeKind(env, f, w, ing, l).outcome == Done <==>
            (GatewaysEnabled(env.config) && AnyTLS(ing) ==> Keys(env, ing).Some?)
  {
    if GatewaysEnabled(env.config) {
      FinalizeGatewaysEffect(f, w, ing, AllConfigured(env.config), Ref(GatewayKind, "", ""));
      var mid := FinalizeGateways(f, w, ing, AllConfigured(env.config)).world;
      GatewaySweepExactly(f, mid, ing.tls, Keys(env, ing), l);
      if AnyTLS(ing) { AnyTLSHasEntries(ing); }
    }
  }

  /** On an accepted configuration: exactly when the URLs of the external gateways selected for it have two dots. */
  lemma AcceptedFinalizeExactly(env: Env, data: Labels, f: Faults, w: World, ing: Ingress, l: Listing)
    requires NoFaults(f) && FairListing(l) && NewIstioFromConfigMap(env.lib, data) == Some(env.config)
    ensures GatewaysFromContext(env.lib, env.config, ing.labels).Some?
    ensures FinalizeKind(env, f, w, ing, l).outcome == Done <==>
            (GatewaysEnabled(env.config) && AnyTLS(ing) ==>
               forall g :: g in GatewaysFromContext(env.lib, env.config, ing.labels).value.external ==>
                 TwoDots(g.serviceURL))
  {
    AcceptedServicesExactly(env.lib, data, ing.labels);
    FinalizeSucceedsExactly(env, f, w, ing, l);
  }

  // ---------------------------------------------------------------- feasibility in terms of the inputs

  lemma {:induction false} AllWildcardsMade(lib: Library, o: Orders, origins: Origins, services: seq<GatewayService>)
    requires Fair(o) && forall k :: k in origins ==> lib.certHosts(origins[k].data).Some?
    ensures AllWildcardGateways(lib, o, origins, services).Some?
  {
    if services != [] {
      var n := |services| - 1;
      AllWildcardsMade(lib, o, origins, services[..n]);
      var order := o.enumerate(10 + n, origins.Keys);
      assert Enumerates(order, origins.Keys);
      assert WildcardGatewaysFor(lib, order, origins, services[n]).Some?;
    }
  }

  lemma WildcardsHaveHosts(env: Env, objects: Objects, ing: Ingress, k: string)
    requires ExternalSecrets(env, objects, ing).Some? && k in ExternalSecrets(env, objects, ing).value.wildcard
    ensures env.lib.certHosts(ExternalSecrets(env, objects, ing).value.wildcard[k].data).Some?
  {
  }

  lemma EitherKind(lib: Library, origins: Origins, k: string)
    requires CategorizeSecrets(lib, origins).Some? && k in origins
    ensures k in CategorizeSecrets(lib, origins).value.plain || k in CategorizeSecrets(lib, origins).value.wildcard
  {
    var kind := IsWildcardSecret(lib, origins[k]).value;
    assert k in OfKind(lib, origins, kind);
  }

  lemma EntryIsUsed(tls: seq<IngressTLS>, c: Categories, t: IngressTLS)
    requires t in tls && (SecretKey(t) in c.plain || SecretKey(t) in c.wildcard)
    ensures PlainTLS(tls, c.plain) != [] || |c.wildcard| != 0
  {
    if SecretKey(t) in c.plain {
      assert t in PlainTLS(tls, c.plain);
    }
  }

  /** A public Ingress with TLS has a plain certificate or a wildcard one, so its gateway services are needed. */
  lemma SomeCertificate(env: Env, objects: Objects, ing: Ingress)
    requires ExternalTLS(ing) && ExternalSecrets(env, objects, ing).Some?
    ensures var c := ExternalSecrets(env, objects, ing).value;
            PlainTLS(IngressTLSFor(ing, EXTERNAL_IP), c.plain) != [] || |c.wildcard| != 0
  {
    var tls := IngressTLSFor(ing, EXTERNAL_IP);
    var origins := GetSecrets(objects, tls).value;
    assert tls[0] in tls;
    EitherKind(env.lib, origins, SecretKey(tls[0]));
    EntryIsUsed(tls, ExternalSecrets(env, objects, ing).value, tls[0]);
  }

  lemma ExternalPlanExactly(env: Env, objects: Objects, ing: Ingress, o: Orders)
    requires Fair(o)
    ensures PlanExternal(env, objects, ing, o).Some? <==>
            (ExternalTLS(ing) ==> ExternalSecrets(env, objects, ing).Some? && Services(env, ing).Some?)
  {
    if ExternalTLS(ing) && ExternalSecrets(env, objects, ing).Some? {
      var c := ExternalSecrets(env, objects, ing).value;
      SomeCertificate(env, objects, ing);
      if Services(env, ing).Some? {
        MissingOriginUnreachable(env, objects, ing, Services(env, ing).value);
        forall k | k in c.wildcard ensures env.lib.certHosts(c.wildcard[k].data).Some? {
          WildcardsHaveHosts(env, objects, ing, k);
        }
        AllWildcardsMade(env.lib, o, c.wildcard, Services(env, ing).value);
      }
    }
  }

  lemma LocalPlanExactly(env: Env, objects: Objects, ing: Ingress, o: Orders)
    requires Fair(o)
    ensures PlanLocal(env, objects, ing, o).Some? <==>
            (env.localTLS && LocalTLS(ing) ==>
               GetSecrets(objects, IngressTLSFor(ing, CLUSTER_LOCAL)).Some? && Services(env, ing).Some?)
  {
    if Services(env, ing).Some? {
      MissingOriginUnreachable(env, objects, ing, Services(env, ing).value);
    }
  }

  /** The table with the copies of the external stage in place: there the secrets of cluster-local entries are looked
      up. */
  function WithExternalCopies(env: Env, objects: Objects, ing: Ingress, o: Orders): Objects
    requires Fair(o)
  {
    var p := PlanExternal(env, objects, ing, o);
    if p.Some? then PutAll(objects, p.value.copies) else objects
  }

  /** What an Ingress needs, said of the inputs: gateways to select from, an HTTP block in every rule, the secrets it
      names with readable certificates, and the gateway services where it has servers of its own. */
  predicate InputsComplete(env: Env, objects: Objects, ing: Ingress, o: Orders)
    requires Fair(o)
  {
    && GatewaysFromContext(env.lib, env.config, ing.labels).Some?
    && (forall rule :: rule in ing.rules ==> rule.http.Some?)
    && (ExternalTLS(ing) ==> ExternalSecrets(env, objects, ing).Some?)
    && (env.localTLS && LocalTLS(ing) ==>
          GetSecrets(WithExternalCopies(env, objects, ing, o), IngressTLSFor(ing, CLUSTER_LOCAL)).Some?)
    && (OwnHTTPServer(ing) || (env.localTLS && LocalTLS(ing)) ==> Services(env, ing).Some?)
  }

  /** An external copy lies on the key of a cluster-local entry's secret that does not exist. */
  predicate FillsIn(env: Env, objects: Objects, ing: Ingress, o: Orders, t: IngressTLS)
    requires Fair(o)
  {
    var p := PlanExternal(env, objects, ing, o);
    p.Some? && SecretAt(objects, t.secretNamespace, t.secretName).None? && Wanted(p.value.copies, OriginRef(t))
  }

  lemma {:induction false} PutAllSecret(objects: Objects, wants: seq<Want>, t: IngressTLS)
    requires forall w :: w in wants ==> w.obj.body.SecretBody?
    ensures SecretAt(PutAll(objects, wants), t.secretNamespace, t.secretName).Some? <==>
            SecretAt(objects, t.secretNamespace, t.secretName).Some? || Wanted(wants, OriginRef(t))
    decreases |wants|
  {
    if wants != [] {
      assert wants == [wants[0]] + wants[1..] && wants[0] in wants;
      PutAllSecret(objects[wants[0].ref := Put(objects, wants[0])], wants[1..], t);
      assert Wanted(wants, OriginRef(t)) <==> wants[0].ref == OriginRef(t) || Wanted(wants[1..], OriginRef(t));
    }
  }

  /** Whether the secrets are found depends only on which of those named exist. */
  lemma {:induction false} FoundDependsOn(a: Objects, b: Objects, tls: seq<IngressTLS>)
    requires forall t :: t in tls ==> (SecretAt(a, t.secretNamespace, t.secretName).Some? <==>
                                       SecretAt(b, t.secretNamespace, t.secretName).Some?)
    ensures GetSecrets(a, tls).Some? <==> GetSecrets(b, tls).Some?
  {
    if tls != [] {
      var n := |tls| - 1;
      assert tls[n] in tls && tls[..n + 1] == tls;
      FoundDependsOn(a, b, tls[..n]);
      GetSecretsStep(a, tls, n);
      GetSecretsStep(b, tls, n);
    }
  }

  /** Unless a copy fills in for a missing secret, it is the table at the start that decides whether the secrets
      exist. */
  lemma LocalSecretsAtStart(env: Env, objects: Objects, ing: Ingress, o: Orders)
    requires Fair(o) && forall t :: t in IngressTLSFor(ing, CLUSTER_LOCAL) ==> !FillsIn(env, objects, ing, o, t)
    ensures GetSecrets(WithExternalCopies(env, objects, ing, o), IngressTLSFor(ing, CLUSTER_LOCAL)).Some? <==>
            GetSecrets(objects, IngressTLSFor(ing, CLUSTER_LOCAL)).Some?
  {
    if PlanExternal(env, objects, ing, o).Some? {
      var copies := PlanExternal(env, objects, ing, o).value.copies;
      CopiesHaveBodies(env, objects, ing, o);
      forall t | t in IngressTLSFor(ing, CLUSTER_LOCAL)
        ensures SecretAt(PutAll(objects, copies), t.secretNamespace, t.secretName).Some? <==>
                SecretAt(objects, t.secretNamespace, t.secretName).Some?
      {
        assert !FillsIn(env, objects, ing, o, t);
        PutAllSecret(objects, copies, t);
      }
      FoundDependsOn(PutAll(objects, copies), objects, IngressTLSFor(ing, CLUSTER_LOCAL));
    }
  }

  lemma CopiesHaveBodies(env: Env, objects: Objects, ing: Ingress, o: Orders)
    requires Fair(o) && PlanExternal(env, objects, ing, o).Some?
    ensures forall w :: w in PlanExternal(env, objects, ing, o).value.copies ==> w.obj.body.SecretBody?
  {
    if ExternalTLS(ing) {
      ExternalPlanParts(env, objects, ing, o);
    }
  }

  lemma FinalGatewaysExactly(env: Env, objects: Objects, ing: Ingress, o: Orders)
    requires Fair(o) && PlanExternal(env, objects, ing, o).Some?
    ensures FinalGateways(env, ing, PlanExternal(env, objects, ing, o).value.gateways).Some? <==>
            (OwnHTTPServer(ing) ==> Services(env, ing).Some?)
  {
    ExternalPlanExactly(env, objects, ing, o);
    PlanKinds(env, objects, ing, o);
  }

  /** No service that is made, for the gateways the pass would route on, has the key of someone else's object. */
  predicate NamesFree(env: Env, objects: Objects, ing: Ingress, o: Orders)
    requires Fair(o)
  {
    var plan := PlanPass(env, objects, ing, o);
    plan.Some? ==>
      var vses := MakeVirtualServices(env.lib, ing, plan.value.names);
      vses.Some? ==> NoneForeign(objects, ing, vses.value)
  }

  lemma PlannedExactly(env: Env, objects: Objects, ing: Ingress, o: Orders)
    requires Fair(o)
    ensures PlanPass(env, objects, ing, o).Some? <==>
            && GatewaysFromContext(env.lib, env.config, ing.labels).Some?
            && (ExternalTLS(ing) ==> ExternalSecrets(env, objects, ing).Some?)
            && (env.localTLS && LocalTLS(ing) ==>
                  GetSecrets(WithExternalCopies(env, objects, ing, o), IngressTLSFor(ing, CLUSTER_LOCAL)).Some?)
            && (OwnHTTPServer(ing) || (env.localTLS && LocalTLS(ing)) ==> Services(env, ing).Some?)
  {
    ExternalPlanExactly(env, objects, ing, o);
    LocalPlanExactly(env, WithExternalCopies(env, objects, ing, o), ing, o);
    if PlanExternal(env, objects, ing, o).Some? {
      FinalGatewaysExactly(env, objects, ing, o);
    }
  }

  lemma ServicesMadeExactly(lib: Library, ing: Ingress, gateways: GatewayNames)
    ensures MakeVirtualServices(lib, ing, gateways).Some? <==> forall rule :: rule in ing.rules ==> rule.http.Some?
  {
  }

  /** Feasible means complete inputs and free names, nothing more. */
  lemma FeasibleExactly(env: Env, objects: Objects, ing: Ingress, o: Orders)
    requires Fair(o)
    ensures Feasible(env, objects, ing, o) <==> InputsComplete(env, objects, ing, o) && NamesFree(env, objects, ing, o)
  {
    PlannedExactly(env, objects, ing, o);
    if PlanPass(env, objects, ing, o).Some? {
      ServicesMadeExactly(env.lib, ing, PlanPass(env, objects, ing, o).value.names);
    }
  }

  /** Without refusals a pass with gateways succeeds exactly when its inputs are complete and its service names free. */
  lemma ReconciliationSucceedsExactly(env: Env, f: Faults, w: World, ing: Ingress, o: Orders)
    requires NoFaults(f) && Fair(o)
    ensures GatewayPass(env, f, w, ing, o).outcome == Done <==>
            InputsComplete(env, w.objects, ing, o) && NamesFree(env, w.objects, ing, o)
  {
    GatewayPassSucceedsExactly(env, f, w, ing, o);
    FeasibleExactly(env, w.objects, ing, o);
  }

  /** Nothing but gateways to select from and HTTP blocks is needed of an Ingress without servers of its own. */
  lemma FewInputs(env: Env, objects: Objects, ing: Ingress, o: Orders)
    requires Fair(o)
    ensures InputsComplete(env, objects, ing, o) ==>
              (OwnHTTPServer(ing) || (env.localTLS && LocalTLS(ing)) ==> Keys(env, ing).Some?)
    ensures !OwnHTTPServer(ing) && !(env.localTLS && LocalTLS(ing)) ==>
              !ExternalTLS(ing)
              && (InputsComplete(env, objects, ing, o) <==>
                    GatewaysFromContext(env.lib, env.config, ing.labels).Some? && forall rule :: rule in ing.rules ==>
                      rule.http.Some?)
  {
  }

  /** Which Ingresses are reconciled and can yet never be finalized, with an accepted configuration and whatever the
      table is by then: those whose only TLS is cluster-local, where that is not acted on, and that are selected for
      an external gateway whose service cannot be named. Reconciling does not need that service, finalizing does. */
  lemma ReconciledNeverFinalizedExactly(env: Env, data: Labels, f: Faults, w: World, later: World, ing: Ingress,
                                        o: Orders, l: Listing)
    requires NoFaults(f) && Fair(o) && FairListing(l) && NewIstioFromConfigMap(env.lib, data) == Some(env.config)
    ensures GatewaysFromContext(env.lib, env.config, ing.labels).Some?
    ensures GatewayPass(env, f, w, ing, o).outcome == Done && FinalizeKind(env, f, later, ing, l).outcome != Done <==>
            && LocalTLS(ing) && !env.localTLS && !OwnHTTPServer(ing)
            && (exists g :: g in GatewaysFromContext(env.lib, env.config, ing.labels).value.external
                            && !TwoDots(g.serviceURL))
            && (forall rule :: rule in ing.rules ==> rule.http.Some?) && NamesFree(env, w.objects, ing, o)
  {
    SelectionIsTotal(env.lib, data, ing.labels);
    AcceptedServicesExactly(env.lib, data, ing.labels);
    AcceptedFinalizeExactly(env, data, f, later, ing, l);
    ReconciliationSucceedsExactly(env, f, w, ing, o);
    FewInputs(env, w.objects, ing, o);
    var sel := GatewaysFromContext(env.lib, env.config, ing.labels).value;
    if g :| g in sel.external && !TwoDots(g.serviceURL) {
      assert sel.external != [] && env.config.ingressGateways != [];
    }
  }

  // ---------------------------------------------------------------- free names, said of the two services

  /** The key of a service of the Ingress is free or its own. */
  predicate KeyFree(lib: Library, objects: Objects, ing: Ingress, name: string) {
    var ref := Ref(VirtualServiceKind, ServiceNamespace(lib, ing), name);
    ref in objects ==> ControlledBy(objects[ref], ing.uid)
  }

  /** Only an Ingress of the Istio class puts services in place: the mesh service if there are hosts for it, and the
      gateway service if some rule has a gateway. */
  predicate ServiceKeysFree(lib: Library, objects: Objects, ing: Ingress, mesh: bool, gateway: bool) {
    Get(ing.annotations, CLASS_ANNOTATION) == ISTIO_CLASS ==>
      && (mesh ==> KeyFree(lib, objects, ing, MeshName(lib, ing)))
      && (gateway ==> KeyFree(lib, objects, ing, IngressName(lib, ing)))
  }

  lemma OneOrTwoForeign(objects: Objects, ing: Ingress, mesh: Option<Want>, count: nat, gateway: Want)
    requires gateway.obj.annotations == ing.annotations
    requires (mesh.Some? ==> mesh.value.obj.annotations == ing.annotations)
    ensures NoneForeign(objects, ing, OneOrTwo(mesh, count, gateway)) <==>
            (Get(ing.annotations, CLASS_ANNOTATION) == ISTIO_CLASS ==>
               && (mesh.Some? && mesh.value.ref in objects ==> ControlledBy(objects[mesh.value.ref], ing.uid))
               && (count > 0 && gateway.ref in objects ==> ControlledBy(objects[gateway.ref], ing.uid)))
  {
    var vses := OneOrTwo(mesh, count, gateway);
    assert mesh.Some? ==> mesh.value in vses;
    assert count > 0 ==> gateway in vses;
    assert forall v :: v in vses ==> Some(v) == mesh || (v == gateway && count > 0);
  }

  /** For services of the Ingress, whatever is in them. */
  lemma ForeignByKeys(lib: Library, objects: Objects, ing: Ingress, mesh: Option<VirtualServiceSpec>, count: nat,
                      gateway: VirtualServiceSpec)
    ensures var one := if mesh.None? then None else Some(ServiceObject(lib, ing, MeshName(lib, ing), mesh.value));
            NoneForeign(objects, ing,
                        OneOrTwo(one, count, ServiceObject(lib, ing, IngressName(lib, ing), gateway))) <==>
            ServiceKeysFree(lib, objects, ing, mesh.Some?, count > 0)
  {
    var one := if mesh.None? then None else Some(ServiceObject(lib, ing, MeshName(lib, ing), mesh.value));
    OneOrTwoForeign(objects, ing, one, count, ServiceObject(lib, ing, IngressName(lib, ing), gateway));
  }

  /** What free names come down to, for the services made for given gateways. */
  lemma NoneForeignExactly(lib: Library, objects: Objects, ing: Ingress, gateways: GatewayNames)
    requires MakeVirtualServices(lib, ing, gateways).Some?
    ensures NoneForeign(objects, ing, MakeVirtualServices(lib, ing, gateways).value) <==>
            ServiceKeysFree(lib, objects, ing, MeshHosts(lib, ing, gateways) != {},
                            RequiredGatewayCount(ing, gateways) > 0)
  {
    ServicesMade(lib, ing, gateways);
    var hosts := MeshHosts(lib, ing, gateways);
    ForeignByKeys(lib, objects, ing, if hosts == {} then None else Some(CompiledFor(lib, ing, MeshGateways(), hosts)),
                  RequiredGatewayCount(ing, gateways), CompiledFor(lib, ing, gateways, GatewayHosts(lib, ing)));
  }

  /** Without refusals a mesh-only pass succeeds exactly when every rule has an HTTP block and the key of the mesh
      service, if there are cluster-local hosts, is free. */
  lemma MeshOnlySucceedsByInputs(env: Env, f: Faults, w: World, ing: Ingress, o: Orders, l: Listing)
    requires NoFaults(f)
    ensures MeshOnlyPass(env, f, w, ing, o, l).outcome == Done <==>
            && (forall rule :: rule in ing.rules ==> rule.http.Some?)
            && ServiceKeysFree(env.lib, w.objects, ing, LocalHosts(env.lib, RuleHosts(ing)) != {}, false)
  {
    MeshOnlySucceedsExactly(env, f, w, ing, o, l);
    ServicesMadeExactly(env.lib, ing, NoGateways());
    if MakeVirtualServices(env.lib, ing, NoGateways()).Some? {
      NoneForeignExactly(env.lib, w.objects, ing, NoGateways());
      assert RequiredGatewayCount(ing, NoGateways()) == 0;
      assert MeshHosts(env.lib, ing, NoGateways()) == LocalHosts(env.lib, RuleHosts(ing));
    }
  }
}
