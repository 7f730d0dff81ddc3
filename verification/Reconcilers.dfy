/** The reconciler as an object: its methods write to the API server one call at a time, and end where the passes
    say. */
module Reconcilers {
  import opened Cleanup
  import opened Config
  import opened Defaults
  import opened Finalize
  import opened Fixpoint
  import opened Gateways
  import opened IngressPass
  import opened Secrets
  import opened ServiceObjects
  import opened Servers
  import opened Store
  import opened Strings
  import opened Types
  import opened VirtualServicePass

  // ---------------------------------------------------------------- the whole reconciliation

  function Reconciliation(env: Env, f: Faults, w: World, original: Ingress, o: Orders, l: Listing, cache: Lister): Step
    requires Fair(o)
  {
    match SetDefaults(original)
    case None => Step(w, Failed(Invalid))
    case Some(ing) =>
      if GatewaysEnabled(env.config) then GatewayPassSeeing(env, f, w, ing, o, cache)
      else MeshOnlyPassSeeing(env, f, w, ing, o, l, cache)
  }

  lemma NothingListed(l: Listing, s: set<Ref>)
    requires FairListing(l) && s == {}
    ensures l(s) == []
  {
    assert Enumerates(l(s), s);
    SomeMember(l(s));
  }

  lemma {:induction false} NoCopiesNoCalls(f: Faults, w: World, tls: seq<IngressTLS>, l: Listing)
    requires FairListing(l) && forall t, r :: t in tls ==> !IsCopyFor(w.objects, t, None, r)
    ensures SweepAllCopies(f, w, tls, l) == Swept(w, false)
    decreases |tls|
  {
    if tls != [] {
      NothingListed(l, CopiesListed(w.objects, tls[0], None));
      NoCopiesNoCalls(f, w, tls[1..], l);
    }
  }

  /** A successful mesh-only pass followed by another one: the second makes no call. */
  lemma MeshOnlyIsFixpoint(env: Env, f: Faults, w: World, ing: Ingress, o: Orders, o': Orders, l: Listing, l': Listing)
    requires FairListing(l) && FairListing(l') && MeshOnlyPass(env, f, w, ing, o, l).outcome == Done
    ensures var after := MeshOnlyPass(env, f, w, ing, o, l).world;
            MeshOnlyPass(env, f, after, ing, o', l') == Step(after, Done)
  {
    var after := MeshOnlyPass(env, f, w, ing, o, l).world;
    MeshOnlyPassResult(env, f, w, ing, o, l);
    var vses := MakeVirtualServices(env.lib, ing, NoGateways()).value;
    forall r ensures r !in ObsoleteBy(after.objects, ing, NamesOf(IstioWants(vses)), false)
    ensures r !in ObsoleteBy(after.objects, ing, NamesOf(IstioWants(vses)), true)
    {
      assert OwnVirtualService(after.objects, ing, r) ==> r.name in NamesOf(IstioWants(vses));
    }
    SettledServicesAreQuiet(f, after, ing, vses, o'.routeFirst);
    NothingListed(l', OwnGateways(after.objects, ing));
    if AnyTLS(ing) {
      forall t, r | t in ing.tls ensures !IsCopyFor(after.objects, t, None, r) {
        assert !TLSCopy(after.objects, ing, r);
      }
      NoCopiesNoCalls(f, after, ing.tls, l');
    }
  }

  /** Reconciling twice in a row is reconciling once, in either mode: the second time nothing is called. */
  lemma ReconcilingTwiceIsOnce(env: Env, f: Faults, w: World, original: Ingress, o: Orders, o': Orders, l: Listing,
                               l': Listing)
    requires Fair(o) && Fair(o') && FairListing(l) && FairListing(l')
    requires Reconciliation(env, f, w, original, o, l, Live).outcome == Done
    requires GatewaysEnabled(env.config) ==> NoCollisions(env, w.objects, SetDefaults(original).value, o)
    ensures var after := Reconciliation(env, f, w, original, o, l, Live).world;
            Reconciliation(env, f, after, original, o', l', Live) == Step(after, Done)
  {
    var ing := SetDefaults(original).value;
    if GatewaysEnabled(env.config) {
      SuccessfulPassIsFixpoint(env, f, w, ing, o, o');
    } else {
      MeshOnlyIsFixpoint(env, f, w, ing, o, o', l, l');
    }
  }

  // ---------------------------------------------------------------- loops and their recursive form

  lemma IstioWantsStep(desired: seq<Want>, i: nat)
    requires i < |desired|
    ensures IstioWants(desired[i..]) ==
            if IsIstioClass(desired[i]) then [desired[i]] + IstioWants(desired[i + 1..])
            else IstioWants(desired[i + 1..])
  {
    assert desired[i..][1..] == desired[i + 1..];
  }

  lemma NamesStep(first: Want, rest: seq<Want>)
    ensures NamesOf([first] + rest) == {first.ref.name} + NamesOf(rest)
  {
    assert first in [first] + rest;
    assert forall w :: w in [first] + rest <==> w == first || w in rest;
  }

  lemma RemovalStep(f: Faults, w: World, view: Objects, refs: seq<Ref>, i: nat, kept: set<string>, uid: string)
    requires i < |refs| && refs[i] in view
    ensures RemoveObsolete(f, w, view, refs[i..], kept, uid) ==
            if refs[i].name in kept || !ControlledBy(view[refs[i]], uid)
            then RemoveObsolete(f, w, view, refs[i + 1..], kept, uid)
            else
              var s := Delete(f, w, refs[i]);
              if s.outcome.Failed? then s else RemoveObsolete(f, s.world, view, refs[i + 1..], kept, uid)
  {
    assert refs[i..][1..] == refs[i + 1..];
  }

  lemma ExternalCopiesAreSecrets(env: Env, ing: Ingress, o: Orders, c: Categories)
    requires Fair(o) && ExternalCopies(env, ing, o, c).Some?
    ensures forall w :: w in ExternalCopies(env, ing, o, c).value ==> w.obj.body.SecretBody?
  {
    var keys := Keys(env, ing).value;
    var plain := Copies(o.enumerate(0, c.plain.Keys), c.plain, keys, PlainNaming(ing.name));
    var wildcard := Copies(o.enumerate(1, c.wildcard.Keys), c.wildcard, keys, WildcardNaming());
    assert ExternalCopies(env, ing, o, c).value == plain + wildcard;
    assert forall w :: w in plain ==> w.obj.body.SecretBody?;
    assert forall w :: w in wildcard ==> w.obj.body.SecretBody?;
  }

  lemma {:induction false} AllWildcardsHaveBodies(lib: Library, o: Orders, origins: Origins,
                                                  services: seq<GatewayService>)
    requires Fair(o)
    ensures var r := AllWildcardGateways(lib, o, origins, services);
            r.Some? ==> forall g :: g in r.value ==> g.obj.body.GatewayBody?
  {
    if services != [] {
      AllWildcardsHaveBodies(lib, o, origins, services[..|services| - 1]);
    }
  }

  lemma ExternalGatewaysHaveBodies(env: Env, ing: Ingress, o: Orders, c: Categories)
    requires Fair(o)
    ensures PlainGateways(env, ing, c).Some? ==> forall g :: g in PlainGateways(env, ing, c).value ==>
              g.obj.body.GatewayBody?
    ensures var r := WildcardTLSGateways(env, ing, o, c.wildcard);
            r.Some? ==> forall g :: g in r.value ==> g.obj.body.GatewayBody?
  {
    GatewaysAreGateways(env, ing, EXTERNAL_IP, PlainTLS(IngressTLSFor(ing, EXTERNAL_IP), c.plain), c.plain);
    if Services(env, ing).Some? {
      AllWildcardsHaveBodies(env.lib, o, c.wildcard, Services(env, ing).value);
    }
  }

  lemma ExternalGatewayBodies(env: Env, ing: Ingress, gateways: seq<Want>)
    requires forall g :: g in gateways ==> g.obj.body.GatewayBody?
    requires WithHTTP(env, ing, gateways).Some?
    ensures forall g :: g in WithHTTP(env, ing, gateways).value ==> g.obj.body.GatewayBody?
  {
  }

  // ---------------------------------------------------------------- making copies and Gateways

  method MakeExternalCopies(env: Env, ing: Ingress, o: Orders, c: Categories) returns (copies: Option<seq<Want>>)
    requires Fair(o)
    ensures copies == ExternalCopies(env, ing, o, c)
  {
    var keys := Keys(env, ing);
    if keys.None? {
      return None;
    }
    var plain := MakeSecrets(o.enumerate(0, c.plain.Keys), c.plain, keys.value, PlainNaming(ing.name));
    var wildcard := MakeSecrets(o.enumerate(1, c.wildcard.Keys), c.wildcard, keys.value, WildcardNaming());
    return Some(plain + wildcard);
  }

  method MakeLocalCopies(env: Env, ing: Ingress, o: Orders, origins: Origins) returns (copies: Option<seq<Want>>)
    requires Fair(o)
    ensures copies == LocalCopies(env, ing, o, origins)
  {
    var keys := Keys(env, ing);
    if keys.None? {
      return None;
    }
    var made := MakeSecrets(o.enumerate(2, origins.Keys), origins, keys.value, PlainNaming(ing.name));
    return Some(made);
  }

  method MakeIngressTLSGateways(env: Env, ing: Ingress, visibility: string, tls: seq<IngressTLS>, origins: Origins)
    returns (gateways: Option<seq<Want>>)
    ensures gateways == IngressTLSGateways(env, ing, visibility, tls, origins)
  {
    if |tls| == 0 {
      return Some([]);
    }
    var services := Services(env, ing);
    if services.None? {
      return None;
    }
    gateways := MakeTLSGateways(env.lib, ing, visibility, tls, origins, services.value);
  }

  lemma WildcardsStep(lib: Library, o: Orders, origins: Origins, services: seq<GatewayService>, i: nat)
    requires Fair(o) && i < |services|
    ensures var before := AllWildcardGateways(lib, o, origins, services[..i]);
            var here := WildcardGatewaysFor(lib, o.enumerate(10 + i, origins.Keys), origins, services[i]);
            AllWildcardGateways(lib, o, origins, services[..i + 1]) ==
            if before.Some? && here.Some? then Some(before.value + here.value) else None
  {
    assert services[..i + 1][..i] == services[..i];
  }

  lemma {:induction false} WildcardsFail(lib: Library, o: Orders, origins: Origins, services: seq<GatewayService>,
                                         i: nat)
    requires Fair(o) && i <= |services| && AllWildcardGateways(lib, o, origins, services[..i]) == None
    ensures AllWildcardGateways(lib, o, origins, services) == None
    decreases |services| - i
  {
    if i == |services| {
      assert services[..i] == services;
    } else {
      WildcardsStep(lib, o, origins, services, i);
      WildcardsFail(lib, o, origins, services, i + 1);
    }
  }

  method MakeWildcardTLSGateways(env: Env, ing: Ingress, o: Orders, origins: Origins)
    returns (gateways: Option<seq<Want>>)
    requires Fair(o)
    ensures gateways == WildcardTLSGateways(env, ing, o, origins)
  {
    if |origins| == 0 {
      return Some([]);
    }
    var found := Services(env, ing);
    if found.None? {
      return None;
    }
    var services := found.value;
    var made: seq<Want> := [];
    var i := 0;
    while i < |services|
      invariant 0 <= i <= |services|
      invariant AllWildcardGateways(env.lib, o, origins, services[..i]) == Some(made)
    {
      WildcardsStep(env.lib, o, origins, services, i);
      var gws := MakeWildcardGateways(env.lib, o.enumerate(10 + i, origins.Keys), origins, services[i]);
      if gws.None? {
        WildcardsFail(env.lib, o, origins, services, i + 1);
        return None;
      }
      made := made + gws.value;
      i := i + 1;
    }
    assert services[..i] == services;
    return Some(made);
  }

  class Reconciler {
    const env: Env
    const cluster: Cluster
    /** What the VirtualService lister shows; the other listers are up to date. */
    var cache: Lister

    constructor (env: Env, cluster: Cluster, cache: Lister)
      ensures this.env == env && this.cluster == cluster && this.cache == cache
    {
      this.env, this.cluster, this.cache := env, cluster, cache;
    }

    function State(): World
      reads cluster
    {
      cluster.State()
    }

    function Refuses(): Faults {
      cluster.refuses
    }

    // -------------------------------------------------------------- accessors

    method ReconcileVirtualService(ing: Ingress, desired: Want) returns (outcome: Outcome)
      requires desired.obj.body.VirtualServiceBody?
      modifies cluster
      ensures Step(State(), outcome) == Reconcile(Refuses(), old(State()), cache, Some(ing.uid), desired)
    {
      var view := View(cache, cluster.State());
      if desired.ref !in view {
        outcome := cluster.CreateObject(desired);
        return;
      }
      var existing := view[desired.ref];
      if !ControlledBy(existing, ing.uid) {
        return Failed(NotOwned(desired.ref.name));
      }
      if Differs(existing, desired.obj) {
        existing := existing.(body := desired.obj.body);
        existing := existing.(labels := desired.obj.labels);
        existing := existing.(annotations := desired.obj.annotations);
        outcome := cluster.UpdateObject(desired.ref, existing);
        return;
      }
      return Done;
    }

    method ReconcileSecret(owner: Option<string>, desired: Want) returns (outcome: Outcome)
      requires desired.obj.body.SecretBody?
      modifies cluster
      ensures Step(State(), outcome) == Reconcile(Refuses(), old(State()), Live, owner, desired)
    {
      if desired.ref !in cluster.objects {
        outcome := cluster.CreateObject(desired);
        return;
      }
      var secret := cluster.objects[desired.ref];
      if owner.Some? && !ControlledBy(secret, owner.value) {
        return Failed(NotOwned(desired.ref.name));
      }
      if Differs(secret, desired.obj) {
        if secret.body.SecretBody? {
          secret := secret.(body := secret.body.(data := desired.obj.body.data));
        } else {
          secret := secret.(body := desired.obj.body);
        }
        secret := secret.(labels := desired.obj.labels);
        outcome := cluster.UpdateObject(desired.ref, secret);
        return;
      }
      return Done;
    }

    method ReconcileSystemGeneratedGateway(desired: Want) returns (outcome: Outcome)
      requires desired.obj.body.GatewayBody?
      modifies cluster
      ensures Step(State(), outcome) == Reconcile(Refuses(), old(State()), Live, None, desired)
    {
      if desired.ref !in cluster.objects {
        outcome := cluster.CreateObject(desired);
        return;
      }
      var existing := cluster.objects[desired.ref];
      if existing.body != desired.obj.body {
        outcome := cluster.UpdateObject(desired.ref, existing.(body := desired.obj.body));
        return;
      }
      return Done;
    }

    // -------------------------------------------------------------- lists of secrets and Gateways

    method ReconcileCertSecrets(desired: seq<Want>) returns (outcome: Outcome)
      requires forall w :: w in desired ==> w.obj.body.SecretBody?
      modifies cluster
      ensures Step(State(), outcome) == ReconcileAll(Refuses(), old(State()), Live, None, desired)
    {
      var i := 0;
      while i < |desired|
        invariant 0 <= i <= |desired|
        invariant ReconcileAll(Refuses(), State(), Live, None, desired[i..]) ==
                  ReconcileAll(Refuses(), old(State()), Live, None, desired)
      {
        assert desired[i] in desired && desired[i..][1..] == desired[i + 1..];
        outcome := ReconcileSecret(None, desired[i]);
        if outcome.Failed? {
          return;
        }
        i := i + 1;
      }
      return Done;
    }

    method ReconcileGateways(desired: seq<Want>) returns (outcome: Outcome)
      requires forall w :: w in desired ==> w.obj.body.GatewayBody?
      modifies cluster
      ensures Step(State(), outcome) == ReconcileAll(Refuses(), old(State()), Live, None, desired)
    {
      var i := 0;
      while i < |desired|
        invariant 0 <= i <= |desired|
        invariant ReconcileAll(Refuses(), State(), Live, None, desired[i..]) ==
                  ReconcileAll(Refuses(), old(State()), Live, None, desired)
      {
        assert desired[i] in desired && desired[i..][1..] == desired[i + 1..];
        outcome := ReconcileSystemGeneratedGateway(desired[i]);
        if outcome.Failed? {
          return;
        }
        i := i + 1;
      }
      return Done;
    }

    // -------------------------------------------------------------- VirtualServices

    method CreateOrUpdateServices(ing: Ingress, desired: seq<Want>) returns (outcome: Outcome, kept: set<string>)
      requires forall w :: w in desired ==> w.obj.body.VirtualServiceBody?
      modifies cluster
      ensures Step(State(), outcome) == ReconcileAll(Refuses(), old(State()), cache, Some(ing.uid), IstioWants(desired))
      ensures outcome == Done ==> kept == NamesOf(IstioWants(desired))
    {
      kept := {};
      var i := 0;
      while i < |desired|
        invariant 0 <= i <= |desired|
        invariant ReconcileAll(Refuses(), State(), cache, Some(ing.uid), IstioWants(desired[i..])) ==
                  ReconcileAll(Refuses(), old(State()), cache, Some(ing.uid), IstioWants(desired))
        invariant kept + NamesOf(IstioWants(desired[i..])) == NamesOf(IstioWants(desired))
      {
        var d := desired[i];
        IstioWantsStep(desired, i);
        i := i + 1;
        if !IsIstioClass(d) {
          continue;
        }
        NamesStep(d, IstioWants(desired[i..]));
        outcome := ReconcileVirtualService(ing, d);
        if outcome.Failed? {
          return;
        }
        kept := kept + {d.ref.name};
      }
      return Done, kept;
    }

    method RemoveEach(view: Objects, vses: seq<Ref>, kept: set<string>, uid: string) returns (outcome: Outcome)
      requires forall vs :: vs in vses ==> vs in view
      modifies cluster
      ensures Step(State(), outcome) == RemoveObsolete(Refuses(), old(State()), view, vses, kept, uid)
    {
      var i := 0;
      while i < |vses|
        invariant 0 <= i <= |vses|
        invariant RemoveObsolete(Refuses(), State(), view, vses[i..], kept, uid) ==
                  RemoveObsolete(Refuses(), old(State()), view, vses, kept, uid)
      {
        var vs := vses[i];
        assert vs in vses;
        RemovalStep(Refuses(), State(), view, vses, i, kept, uid);
        i := i + 1;
        if vs.name in kept {
          continue;
        }
        if !ControlledBy(view[vs], uid) {
          continue;
        }
        outcome := cluster.DeleteObject(vs);
        if outcome.Failed? {
          return;
        }
      }
      return Done;
    }

    method RemoveSelected(ing: Ingress, kept: set<string>, route: bool) returns (outcome: Outcome)
      modifies cluster
      ensures Step(State(), outcome) == SelectorPass(Refuses(), old(State()), cache, ing, kept, route)
    {
      var view := View(cache, cluster.State());
      outcome := RemoveEach(view, SortedRefs(Listed(view, ing, route)), kept, ing.uid);
    }

    method ReconcileVirtualServices(ing: Ingress, desired: seq<Want>, routeFirst: bool) returns (outcome: Outcome)
      requires forall w :: w in desired ==> w.obj.body.VirtualServiceBody?
      modifies cluster
      ensures Step(State(), outcome) == Pass(Refuses(), old(State()), cache, ing, desired, routeFirst)
    {
      var kept;
      outcome, kept := CreateOrUpdateServices(ing, desired);
      if outcome.Failed? {
        return;
      }
      outcome := RemoveSelected(ing, kept, routeFirst);
      if outcome.Failed? {
        return;
      }
      outcome := RemoveSelected(ing, kept, !routeFirst);
    }

    // -------------------------------------------------------------- removing what is left over

    /** The Gateways are those the lister gives for the label, less the ones the Ingress does not control. */
    method CleanupIngressGateways(ing: Ingress, l: Listing) returns (outcome: Outcome)
      modifies cluster
      ensures Step(State(), outcome) == Cleanup.CleanupIngressGateways(Refuses(), old(State()), ing, l)
    {
      var gateways := l(OwnGateways(cluster.objects, ing));
      var i := 0;
      while i < |gateways|
        invariant 0 <= i <= |gateways|
        invariant DeleteGateways(Refuses(), State(), gateways[i..]) == DeleteGateways(Refuses(), old(State()), gateways)
      {
        assert gateways[i..][1..] == gateways[i + 1..];
        outcome := cluster.DeleteObject(gateways[i]);
        if outcome.Failed? && outcome.why != NotFound {
          return;
        }
        i := i + 1;
      }
      return Done;
    }

    method DeleteListed(refs: seq<Ref>, tolerant: bool) returns (failed: bool)
      modifies cluster
      ensures Swept(State(), failed) == DeleteEach(Refuses(), old(State()), refs, tolerant)
    {
      failed := false;
      var i := 0;
      while i < |refs|
        invariant 0 <= i <= |refs|
        invariant var rest := DeleteEach(Refuses(), State(), refs[i..], tolerant);
                  Swept(rest.world, failed || rest.failed) == DeleteEach(Refuses(), old(State()), refs, tolerant)
      {
        assert refs[i..][1..] == refs[i + 1..];
        var outcome := cluster.DeleteObject(refs[i]);
        if outcome.Failed? && !(tolerant && outcome.why == NotFound) {
          failed := true;
        }
        i := i + 1;
      }
    }

    method CleanupTLSSecrets(ing: Ingress, l: Listing) returns (failed: bool)
      modifies cluster
      ensures Swept(State(), failed) == Cleanup.CleanupTLSSecrets(Refuses(), old(State()), ing, l)
    {
      failed := false;
      if !AnyTLS(ing) {
        return;
      }
      var i := 0;
      while i < |ing.tls|
        invariant 0 <= i <= |ing.tls|
        invariant var rest := SweepAllCopies(Refuses(), State(), ing.tls[i..], l);
                  Swept(rest.world, failed || rest.failed) == SweepAllCopies(Refuses(), old(State()), ing.tls, l)
      {
        assert ing.tls[i..][1..] == ing.tls[i + 1..];
        var bad := DeleteListed(l(CopiesListed(cluster.objects, ing.tls[i], None)), true);
        failed := failed || bad;
        i := i + 1;
      }
    }

    method CleanupInNamespaces(t: IngressTLS, keys: seq<ServiceKey>, l: Listing) returns (failed: bool)
      modifies cluster
      ensures Swept(State(), failed) == SweepNamespaces(Refuses(), old(State()), t, keys, l)
    {
      failed := false;
      var i := 0;
      while i < |keys|
        invariant 0 <= i <= |keys|
        invariant var rest := SweepNamespaces(Refuses(), State(), t, keys[i..], l);
                  Swept(rest.world, failed || rest.failed) == SweepNamespaces(Refuses(), old(State()), t, keys, l)
      {
        assert keys[i..][1..] == keys[i + 1..];
        var bad := DeleteListed(l(CopiesListed(cluster.objects, t, Some(keys[i].namespace))), false);
        failed := failed || bad;
        i := i + 1;
      }
    }

    method CleanupCertificateSecrets(ing: Ingress, l: Listing) returns (failed: bool)
      modifies cluster
      ensures Swept(State(), failed) == Cleanup.CleanupCertificateSecrets(env, Refuses(), old(State()), ing, l)
    {
      failed := false;
      if !AnyTLS(ing) {
        return;
      }
      var keys := Keys(env, ing);
      var i := 0;
      while i < |ing.tls|
        invariant 0 <= i <= |ing.tls|
        invariant var rest := SweepGatewayCopies(Refuses(), State(), ing.tls[i..], keys, l);
                  Swept(rest.world, failed || rest.failed) ==
                  SweepGatewayCopies(Refuses(), old(State()), ing.tls, keys, l)
      {
        assert ing.tls[i..][1..] == ing.tls[i + 1..];
        if keys.None? {
          failed := true;
        } else {
          var bad := CleanupInNamespaces(ing.tls[i], keys.value, l);
          failed := failed || bad;
        }
        i := i + 1;
      }
    }

    // -------------------------------------------------------------- finalizing

    method ReconcileIngressServers(ing: Ingress, gw: GatewayConfig) returns (outcome: Outcome)
      modifies cluster
      ensures Step(State(), outcome) == ReconcileServers(Refuses(), old(State()), ing, GatewayRef(gw))
    {
      var r := GatewayRef(gw);
      if r !in cluster.objects || !cluster.objects[r].body.GatewayBody? {
        return Failed(NotFound);
      }
      var gateway := cluster.objects[r];
      var existing := FindServers(gateway.body.gw.servers, ing.namespace, ing.name);
      if existing == [] {
        return Done;
      }
      var updated := UpdateGateway(gateway.body.gw, [], existing);
      outcome := cluster.UpdateObject(r, gateway.(body := GatewayBody(updated)));
    }

    method CleanupGatewayServers(ing: Ingress, gws: seq<GatewayConfig>) returns (outcome: Outcome)
      modifies cluster
      ensures Step(State(), outcome) == FinalizeGateways(Refuses(), old(State()), ing, gws)
    {
      var i := 0;
      while i < |gws|
        invariant 0 <= i <= |gws|
        invariant FinalizeGateways(Refuses(), State(), ing, gws[i..]) ==
                  FinalizeGateways(Refuses(), old(State()), ing, gws)
      {
        assert gws[i..][1..] == gws[i + 1..];
        outcome := ReconcileIngressServers(ing, gws[i]);
        if outcome.Failed? && outcome.why != NotFound {
          return;
        }
        i := i + 1;
      }
      return Done;
    }

    method FinalizeKind(ing: Ingress, l: Listing) returns (outcome: Outcome)
      modifies cluster
      ensures Step(State(), outcome) == Finalize.FinalizeKind(env, Refuses(), old(State()), ing, l)
    {
      if !GatewaysEnabled(env.config) {
        return Done;
      }
      outcome := CleanupGatewayServers(ing, AllConfigured(env.config));
      if outcome.Failed? {
        return;
      }
      var failed := CleanupCertificateSecrets(ing, l);
      return if failed then Failed(Refused) else Done;
    }

    // -------------------------------------------------------------- reconciling with gateways

    method ReconcileExternalTLS(ing: Ingress, o: Orders)
      returns (outcome: Outcome, gateways: seq<Want>, wildcards: seq<Want>)
      requires Fair(o)
      modifies cluster
      ensures Stage(Step(State(), outcome), gateways, wildcards) == ExternalStage(env, Refuses(), old(State()), ing, o)
      ensures forall g :: g in gateways ==> g.obj.body.GatewayBody?
    {
      if !ExternalTLS(ing) {
        return Done, [], [];
      }
      var originSecrets := CollectSecrets(cluster.objects, IngressTLSFor(ing, EXTERNAL_IP));
      if originSecrets.None? {
        return Failed(NotFound), [], [];
      }
      var c := Categorize(env.lib, originSecrets.value);
      if c.None? {
        return Failed(Invalid), [], [];
      }
      var copies := MakeExternalCopies(env, ing, o, c.value);
      if copies.None? {
        return Failed(Invalid), [], [];
      }
      ExternalCopiesAreSecrets(env, ing, o, c.value);
      outcome := ReconcileCertSecrets(copies.value);
      if outcome.Failed? {
        return outcome, [], [];
      }
      ExternalGatewaysHaveBodies(env, ing, o, c.value);
      var tls := PlainTLS(IngressTLSFor(ing, EXTERNAL_IP), c.value.plain);
      var plain := MakeIngressTLSGateways(env, ing, EXTERNAL_IP, tls, c.value.plain);
      if plain.None? {
        return Failed(Invalid), [], [];
      }
      var wild := MakeWildcardTLSGateways(env, ing, o, c.value.wildcard);
      if wild.None? {
        return Failed(Invalid), [], [];
      }
      outcome := ReconcileGateways(wild.value);
      return outcome, plain.value, wild.value;
    }

    method ReconcileLocalTLS(ing: Ingress, o: Orders) returns (outcome: Outcome, gateways: seq<Want>)
      requires Fair(o)
      modifies cluster
      ensures Stage(Step(State(), outcome), gateways, []) == LocalStage(env, Refuses(), old(State()), ing, o)
      ensures forall g :: g in gateways ==> g.obj.body.GatewayBody?
    {
      if !(env.localTLS && LocalTLS(ing)) {
        return Done, [];
      }
      var tls := IngressTLSFor(ing, CLUSTER_LOCAL);
      var originSecrets := CollectSecrets(cluster.objects, tls);
      if originSecrets.None? {
        return Failed(NotFound), [];
      }
      var copies := MakeLocalCopies(env, ing, o, originSecrets.value);
      if copies.None? {
        return Failed(Invalid), [];
      }
      outcome := ReconcileCertSecrets(copies.value);
      if outcome.Failed? {
        return outcome, [];
      }
      GatewaysAreGateways(env, ing, CLUSTER_LOCAL, tls, originSecrets.value);
      var local := MakeIngressTLSGateways(env, ing, CLUSTER_LOCAL, tls, originSecrets.value);
      if local.None? {
        return Failed(Invalid), [];
      }
      return Done, local.value;
    }

    /** The HTTP server is appended to every Gateway in place. */
    method AppendServer(gateways: array<Want>, server: Server)
      requires forall i :: 0 <= i < gateways.Length ==> gateways[i].obj.body.GatewayBody?
      modifies gateways
      ensures forall g :: g in old(gateways[..]) ==> g.obj.body.GatewayBody?
      ensures gateways[..] == WithServer(old(gateways[..]), server)
    {
      ghost var before := gateways[..];
      var i := 0;
      while i < gateways.Length
        invariant 0 <= i <= gateways.Length
        invariant forall k :: 0 <= k < i ==> gateways[k] == WithServer(before, server)[k]
        invariant gateways[i..] == before[i..]
      {
        var g := gateways[i];
        assert g == gateways[i..][0] == before[i];
        var gw := g.obj.body.gw;
        gateways[i] := g.(obj := g.obj.(body := GatewayBody(gw.(servers := gw.servers + [server]))));
        i := i + 1;
      }
    }

    /** The external Gateways to put in place; None if the gateway services cannot be found. */
    method AddHTTPServer(ing: Ingress, gateways: seq<Want>) returns (external: Option<seq<Want>>)
      requires forall g :: g in gateways ==> g.obj.body.GatewayBody?
      ensures external == WithHTTP(env, ing, gateways)
    {
      if !OwnHTTPServer(ing) {
        return Some(gateways);
      }
      var server := HTTPServer(ing.httpOption, SortedList(PublicHosts(ing)));
      if |gateways| == 0 {
        var services := Services(env, ing);
        return if services.None? then None else Some(ExternalGateways(ing, [server], services.value));
      }
      var a := new Want[|gateways|](i requires 0 <= i < |gateways| => gateways[i]);
      assert a[..] == gateways;
      AppendServer(a, server);
      return Some(a[..]);
    }

    method ReconcileRouting(ing: Ingress, o: Orders, sel: Selection, wildcards: seq<Want>, external: seq<Want>,
                            local: seq<Want>)
      returns (outcome: Outcome)
      requires forall g :: g in external + local ==> g.obj.body.GatewayBody?
      modifies cluster
      ensures Step(State(), outcome) ==
              RoutingStageSeeing(env, Refuses(), old(State()), ing, o, sel, wildcards, external, local, cache)
    {
      assert forall g :: g in external || g in local ==> g in external + local;
      outcome := ReconcileGateways(external);
      if outcome.Failed? {
        return;
      }
      outcome := ReconcileGateways(local);
      if outcome.Failed? {
        return;
      }
      var names := RoutingGateways(ing, sel, wildcards, external, local);
      var vses := MakeServices(env.lib, ing, names);
      if vses.None? {
        return Failed(Invalid);
      }
      MadeVirtualServices(env.lib, ing, names);
      outcome := ReconcileVirtualServices(ing, vses.value, o.routeFirst);
    }

    method ReconcileGatewayIngress(ing: Ingress, o: Orders) returns (outcome: Outcome)
      requires Fair(o)
      modifies cluster
      ensures Step(State(), outcome) == GatewayPassSeeing(env, Refuses(), old(State()), ing, o, cache)
    {
      var selection := SelectGateways(env.lib, env.config, ing.labels);
      if selection.None? {
        return Failed(Invalid);
      }
      var gateways, wildcards, local;
      outcome, gateways, wildcards := ReconcileExternalTLS(ing, o);
      if outcome.Failed? {
        return;
      }
      outcome, local := ReconcileLocalTLS(ing, o);
      if outcome.Failed? {
        return;
      }
      var external := AddHTTPServer(ing, gateways);
      if external.None? {
        return Failed(Invalid);
      }
      ExternalGatewayBodies(env, ing, gateways);
      outcome := ReconcileRouting(ing, o, selection.value, wildcards, external.value, local);
    }

    method ReconcileMeshOnlyIngress(ing: Ingress, o: Orders, l: Listing) returns (outcome: Outcome)
      modifies cluster
      ensures Step(State(), outcome) == MeshOnlyPassSeeing(env, Refuses(), old(State()), ing, o, l, cache)
    {
      var vses := MakeServices(env.lib, ing, NoGateways());
      if vses.None? {
        return Failed(Invalid);
      }
      MadeVirtualServices(env.lib, ing, NoGateways());
      outcome := ReconcileVirtualServices(ing, vses.value, o.routeFirst);
      if outcome.Failed? {
        return;
      }
      outcome := CleanupIngressGateways(ing, l);
      if outcome.Failed? {
        return;
      }
      var failed := CleanupTLSSecrets(ing, l);
      return if failed then Failed(Refused) else Done;
    }

    method ReconcileIngress(original: Ingress, o: Orders, l: Listing) returns (outcome: Outcome)
      requires Fair(o)
      modifies cluster
      ensures Step(State(), outcome) == Reconciliation(env, Refuses(), old(State()), original, o, l, cache)
    {
      var ing := SetDefaults(original);
      if ing.None? {
        return Failed(Invalid);
      }
      if GatewaysEnabled(env.config) {
        outcome := ReconcileGatewayIngress(ing.value, o);
      } else {
        outcome := ReconcileMeshOnlyIngress(ing.value, o, l);
      }
    }
  }
}
