/** Finalizing Ingresses: their servers leave the shared Gateways, in any order with the same result. */
module Finalize {
  import opened Cleanup
  import opened Config
  import opened IngressPass
  import opened Servers
  import opened Store
  import opened Strings
  import opened Types

  // ---------------------------------------------------------------- one Gateway

  function GatewayRef(g: GatewayConfig): Ref {
    Ref(GatewayKind, g.namespace, g.name)
  }

  predicate IsGateway(objects: Objects, r: Ref) {
    r in objects && r.kind.GatewayKind? && objects[r].body.GatewayBody?
  }

  /** Take the servers of an Ingress out of a list; a list without any is not touched. */
  function WithoutServers(servers: seq<Server>, ing: Ingress): seq<Server> {
    var existing := GetServers(servers, ing.namespace, ing.name);
    if existing == [] then servers else UpdateServers(servers, [], existing)
  }

  function WithServers(o: Object, servers: seq<Server>): Object
    requires o.body.GatewayBody?
  {
    o.(body := GatewayBody(o.body.gw.(servers := servers)))
  }

  /** An absent Gateway is reported as not found; an update is only sent when there is something to take out. */
  function ReconcileServers(f: Faults, w: World, ing: Ingress, r: Ref): Step {
    if !IsGateway(w.objects, r) then Step(w, Failed(NotFound))
    else
      var servers := w.objects[r].body.gw.servers;
      if GetServers(servers, ing.namespace, ing.name) == [] then Step(w, Done)
      else Update(f, w, r, WithServers(w.objects[r], WithoutServers(servers, ing)))
  }

  /** Missing Gateways are skipped, any other error ends the work. */
  function FinalizeGateways(f: Faults, w: World, ing: Ingress, gws: seq<GatewayConfig>): Step
    decreases |gws|
  {
    if gws == [] then Step(w, Done) else
      var s := ReconcileServers(f, w, ing, GatewayRef(gws[0]));
      if s.outcome.Failed? && s.outcome.why != NotFound then s else FinalizeGateways(f, s.world, ing, gws[1..])
  }

  function AllConfigured(c: IstioConfig): seq<GatewayConfig> {
    c.ingressGateways + c.localGateways
  }

  function FinalizeKind(env: Env, f: Faults, w: World, ing: Ingress, l: Listing): Step {
    if !GatewaysEnabled(env.config) then Step(w, Done) else
      var s := FinalizeGateways(f, w, ing, AllConfigured(env.config));
      if s.outcome.Failed? then s else
        var c := CleanupCertificateSecrets(env, f, s.world, ing, l);
        Step(c.world, if c.failed then Failed(Refused) else Done)
  }

  /** One Ingress after the other; each is finalized whatever became of the ones before. */
  function FinalizeAll(env: Env, f: Faults, w: World, ings: seq<Ingress>, l: Listing): World
    decreases |ings|
  {
    if ings == [] then w
    else FinalizeAll(env, f, FinalizeKind(env, f, w, ings[0], l).world, ings[1..], l)
  }

  // ---------------------------------------------------------------- what is left in one list

  predicate OwnedByAny(s: Server, ings: seq<Ingress>) {
    exists ing :: ing in ings && Belongs(s, ing.namespace, ing.name)
  }

  predicate Remains(s: Server, ings: seq<Ingress>) {
    !OwnedByAny(s, ings) && s != PLACEHOLDER
  }

  /** The servers after some Ingresses have left: untouched if they had none, and otherwise those of others,
      or the placeholder alone. Only which Ingresses left is mentioned, not in which order. */
  ghost predicate FinalServers(before: seq<Server>, ings: seq<Ingress>, after: seq<Server>) {
    if forall s :: s in before ==> !OwnedByAny(s, ings) then multiset(after) == multiset(before)
    else if forall s :: s in before ==> !Remains(s, ings) then multiset(after) == multiset{PLACEHOLDER}
    else forall s :: multiset(after)[s] == if Remains(s, ings) then multiset(before)[s] else 0
  }

  lemma PlaceholderIsNobodys(namespace: string, name: string)
    ensures !Belongs(PLACEHOLDER, namespace, name)
  {
    assert ':' !in "place-holder";
    assert Split("place-holder", ':') == ["place-holder"];
  }

  lemma GetServersEmpty(servers: seq<Server>, ing: Ingress)
    ensures GetServers(servers, ing.namespace, ing.name) == [] <==>
            forall s :: s in servers ==> !Belongs(s, ing.namespace, ing.name)
  {
    GetServersExactly(servers, ing.namespace, ing.name);
    var found := GetServers(servers, ing.namespace, ing.name);
    assert found != [] ==> found[0] in found;
  }

  /** One removal, counted. */
  lemma WithoutServersCounts(servers: seq<Server>, ing: Ingress, s: Server)
    ensures var after := WithoutServers(servers, ing);
            if forall t :: t in servers ==> !Belongs(t, ing.namespace, ing.name) then after == servers
            else if forall t :: t in servers ==> !Foreign(t, ing.namespace, ing.name)
            then multiset(after) == multiset{PLACEHOLDER}
            else multiset(after)[s] == if Foreign(s, ing.namespace, ing.name) then multiset(servers)[s] else 0
  {
    GetServersEmpty(servers, ing);
    SurgeryConserves(servers, [], ing.namespace, ing.name);
    var others := Others(servers, ing.namespace, ing.name);
    OthersCount(servers, ing.namespace, ing.name, s);
    OthersEmpty(servers, ing.namespace, ing.name);
    assert multiset(others) + multiset([]) == multiset(others) && |multiset(others)| == |others|;
  }

  lemma {:induction false} OthersEmpty(servers: seq<Server>, namespace: string, name: string)
    ensures Others(servers, namespace, name) == [] <==> forall s :: s in servers ==> !Foreign(s, namespace, name)
  {
    if servers != [] {
      var init, last := servers[..|servers| - 1], servers[|servers| - 1];
      assert servers == init + [last];
      OthersEmpty(init, namespace, name);
    }
  }

  lemma NobodyLeft(servers: seq<Server>, ing: Ingress)
    ensures forall s :: s in WithoutServers(servers, ing) ==> !Belongs(s, ing.namespace, ing.name)
  {
    var after := WithoutServers(servers, ing);
    forall s | s in after ensures !Belongs(s, ing.namespace, ing.name) {
      WithoutServersCounts(servers, ing, s);
      PlaceholderIsNobodys(ing.namespace, ing.name);
      assert s in multiset(after);
    }
  }

  /** Taking out twice is taking out once. */
  lemma WithoutServersIdempotent(servers: seq<Server>, ing: Ingress)
    ensures WithoutServers(WithoutServers(servers, ing), ing) == WithoutServers(servers, ing)
  {
    NobodyLeft(servers, ing);
    GetServersEmpty(WithoutServers(servers, ing), ing);
  }

  lemma OwnedSnoc(s: Server, ings: seq<Ingress>, ing: Ingress)
    ensures OwnedByAny(s, ings + [ing]) <==> OwnedByAny(s, ings) || Belongs(s, ing.namespace, ing.name)
  {
    if Belongs(s, ing.namespace, ing.name) { assert ing in ings + [ing]; }
    if i :| i in ings && Belongs(s, i.namespace, i.name) { assert i in ings + [ing]; }
  }

  lemma PlaceholderFree(ings: seq<Ingress>)
    ensures !OwnedByAny(PLACEHOLDER, ings)
  {
    forall ing | ing in ings ensures !Belongs(PLACEHOLDER, ing.namespace, ing.name) {
      PlaceholderIsNobodys(ing.namespace, ing.name);
    }
  }

  lemma RemainsSnoc(s: Server, ings: seq<Ingress>, ing: Ingress)
    ensures Remains(s, ings + [ing]) <==> Remains(s, ings) && Foreign(s, ing.namespace, ing.name)
  {
    OwnedSnoc(s, ings, ing);
  }

  /** One more Ingress leaves. */
  lemma FinalServersStep(before: seq<Server>, ings: seq<Ingress>, mid: seq<Server>, ing: Ingress)
    requires FinalServers(before, ings, mid)
    ensures FinalServers(before, ings + [ing], WithoutServers(mid, ing))
  {
    if forall t :: t in mid ==> !Belongs(t, ing.namespace, ing.name) {
      WithoutServersCounts(mid, ing, PLACEHOLDER);
      StepWithoutOwn(before, ings, mid, ing);
    } else if forall s :: s in before ==> !OwnedByAny(s, ings) {
      FirstToLeave(before, ings, mid, ing);
    } else {
      NextToLeave(before, ings, mid, ing);
    }
  }

  /** The Ingress has nothing in the list. */
  lemma StepWithoutOwn(before: seq<Server>, ings: seq<Ingress>, mid: seq<Server>, ing: Ingress)
    requires FinalServers(before, ings, mid) && forall t :: t in mid ==> !Belongs(t, ing.namespace, ing.name)
    ensures FinalServers(before, ings + [ing], mid)
  {
    forall s ensures OwnedByAny(s, ings + [ing]) <==> OwnedByAny(s, ings) || Belongs(s, ing.namespace, ing.name) {
      OwnedSnoc(s, ings, ing);
    }
    forall s ensures (s in mid <==> multiset(mid)[s] > 0) && (s in before <==> multiset(before)[s] > 0) { }
  }

  /** The Ingress is the first that has something in the list. */
  lemma FirstToLeave(before: seq<Server>, ings: seq<Ingress>, mid: seq<Server>, ing: Ingress)
    requires multiset(mid) == multiset(before)
    requires exists t :: t in mid && Belongs(t, ing.namespace, ing.name)
    requires forall s :: s in before ==> !OwnedByAny(s, ings)
    ensures FinalServers(before, ings + [ing], WithoutServers(mid, ing))
  {
    var all, after := ings + [ing], WithoutServers(mid, ing);
    forall s ensures (s in mid <==> s in before) { SameContents(mid, before, s); }
    var t :| t in mid && Belongs(t, ing.namespace, ing.name);
    OwnedSnoc(t, ings, ing);
    if forall s :: s in mid ==> !Foreign(s, ing.namespace, ing.name) {
      forall s | s in before ensures !Remains(s, all) { RemainsSnoc(s, ings, ing); }
      WithoutServersCounts(mid, ing, t);
    } else {
      var f :| f in mid && Foreign(f, ing.namespace, ing.name);
      RemainsSnoc(f, ings, ing);
      forall s ensures multiset(after)[s] == if Remains(s, all) then multiset(before)[s] else 0 {
        RemainsSnoc(s, ings, ing);
        WithoutServersCounts(mid, ing, s);
        assert multiset(before)[s] > 0 ==> s in before;
      }
    }
  }

  lemma SameContents(a: seq<Server>, b: seq<Server>, s: Server)
    requires multiset(a) == multiset(b)
    ensures s in a <==> s in b
  {
    assert s in a <==> s in multiset(a);
    assert s in b <==> s in multiset(b);
  }

  /** Others have left before. */
  lemma NextToLeave(before: seq<Server>, ings: seq<Ingress>, mid: seq<Server>, ing: Ingress)
    requires FinalServers(before, ings, mid)
    requires exists t :: t in mid && Belongs(t, ing.namespace, ing.name)
    requires exists s :: s in before && OwnedByAny(s, ings)
    ensures FinalServers(before, ings + [ing], WithoutServers(mid, ing))
  {
    var all, after := ings + [ing], WithoutServers(mid, ing);
    var t :| t in mid && Belongs(t, ing.namespace, ing.name);
    assert t in multiset(mid);
    PlaceholderIsNobodys(ing.namespace, ing.name);
    var first :| first in before && OwnedByAny(first, ings);
    OwnedSnoc(first, ings, ing);
    forall s ensures s in mid <==> s in before && Remains(s, ings) {
      assert (s in mid <==> multiset(mid)[s] > 0) && (s in before <==> multiset(before)[s] > 0);
    }
    if forall s :: s in mid ==> !Foreign(s, ing.namespace, ing.name) {
      forall s | s in before ensures !Remains(s, all) { RemainsSnoc(s, ings, ing); }
      WithoutServersCounts(mid, ing, t);
    } else {
      var f :| f in mid && Foreign(f, ing.namespace, ing.name);
      RemainsSnoc(f, ings, ing);
      forall s ensures multiset(after)[s] == if Remains(s, all) then multiset(before)[s] else 0 {
        RemainsSnoc(s, ings, ing);
        WithoutServersCounts(mid, ing, s);
      }
    }
  }

  /** How often a server is left, by which Ingresses left. */
  ghost function FinalCount(before: seq<Server>, ings: seq<Ingress>, s: Server): nat {
    if forall t :: t in before ==> !OwnedByAny(t, ings) then multiset(before)[s]
    else if forall t :: t in before ==> !Remains(t, ings) then multiset{PLACEHOLDER}[s]
    else if Remains(s, ings) then multiset(before)[s] else 0
  }

  lemma FinalServersCount(before: seq<Server>, ings: seq<Ingress>, after: seq<Server>, s: Server)
    requires FinalServers(before, ings, after)
    ensures multiset(after)[s] == FinalCount(before, ings, s)
  {
  }

  lemma SameFinalCount(before: seq<Server>, ings: seq<Ingress>, ings': seq<Ingress>, s: Server)
    requires forall i :: i in ings <==> i in ings'
    ensures FinalCount(before, ings, s) == FinalCount(before, ings', s)
  {
    assert forall t :: OwnedByAny(t, ings) <==> OwnedByAny(t, ings');
  }

  /** The end result depends only on which Ingresses left. */
  lemma FinalServersUnique(before: seq<Server>, ings: seq<Ingress>, ings': seq<Ingress>, a: seq<Server>, b: seq<Server>)
    requires forall i :: i in ings <==> i in ings'
    requires FinalServers(before, ings, a) && FinalServers(before, ings', b)
    ensures multiset(a) == multiset(b)
  {
    forall s ensures multiset(a)[s] == multiset(b)[s] {
      FinalServersCount(before, ings, a, s);
      FinalServersCount(before, ings', b, s);
      SameFinalCount(before, ings, ings', s);
    }
  }

  // ---------------------------------------------------------------- the whole table

  predicate IsConfigured(gws: seq<GatewayConfig>, r: Ref) {
    exists g :: g in gws && GatewayRef(g) == r
  }

  /** At one key: a configured Gateway loses the servers of the Ingress and keeps all else, anything else stays as it
      is. */
  ghost predicate FinalizedAt(before: Objects, ing: Ingress, gws: seq<GatewayConfig>, after: Objects, r: Ref) {
    if IsConfigured(gws, r) && IsGateway(before, r) then
      r in after && after[r] == WithServers(before[r], WithoutServers(before[r].body.gw.servers, ing))
    else
      (r in after <==> r in before) && (r in after ==> after[r] == before[r])
  }

  lemma ReconcileServersEffect(f: Faults, w: World, ing: Ingress, r: Ref)
    requires NoFaults(f)
    ensures var s := ReconcileServers(f, w, ing, r);
            && (s.outcome == Done || s.outcome == Failed(NotFound))
            && s.world.objects == if IsGateway(w.objects, r)
                                  then w.objects[r := WithServers(w.objects[r],
                                                                  WithoutServers(w.objects[r].body.gw.servers, ing))]
                                  else w.objects
  {
    if IsGateway(w.objects, r) {
      var o := w.objects[r];
      assert WithServers(o, o.body.gw.servers) == o;
    }
  }

  lemma {:induction false} FinalizeGatewaysEffect(f: Faults, w: World, ing: Ingress, gws: seq<GatewayConfig>, r: Ref)
    requires NoFaults(f)
    ensures FinalizeGateways(f, w, ing, gws).outcome == Done
    ensures FinalizedAt(w.objects, ing, gws, FinalizeGateways(f, w, ing, gws).world.objects, r)
    decreases |gws|
  {
    if gws != [] {
      var first := GatewayRef(gws[0]);
      var mid := ReconcileServers(f, w, ing, first).world;
      ReconcileServersEffect(f, w, ing, first);
      FinalizeGatewaysEffect(f, mid, ing, gws[1..], r);
      assert gws == [gws[0]] + gws[1..];
      assert IsConfigured(gws, r) <==> r == first || IsConfigured(gws[1..], r);
      if IsGateway(w.objects, first) {
        WithoutServersIdempotent(w.objects[first].body.gw.servers, ing);
      }
    }
  }

  /** Finalizing one Ingress, whether or not its secrets could all be removed. */
  lemma FinalizeKindEffect(env: Env, f: Faults, w: World, ing: Ingress, l: Listing, r: Ref)
    requires NoFaults(f) && FairListing(l) && !r.kind.SecretKind?
    ensures FinalizedAt(w.objects, ing, AllConfigured(env.config), FinalizeKind(env, f, w, ing, l).world.objects, r)
  {
    if GatewaysEnabled(env.config) {
      FinalizeGatewaysEffect(f, w, ing, AllConfigured(env.config), r);
      var mid := FinalizeGateways(f, w, ing, AllConfigured(env.config)).world;
      GatewayCopiesGone(f, mid, ing.tls, Keys(env, ing), l);
      assert OnlySecretsGone(mid.objects, CleanupCertificateSecrets(env, f, mid, ing, l).world.objects);
    } else {
      assert AllConfigured(env.config) == [];
    }
  }

  /** At one key, after any number of Ingresses: as FinalServers says for a configured Gateway, and unchanged
      elsewhere. */
  ghost predicate AllFinalizedAt(before: Objects, ings: seq<Ingress>, gws: seq<GatewayConfig>, after: Objects, r: Ref) {
    if IsConfigured(gws, r) && IsGateway(before, r) then
      && IsGateway(after, r) && after[r] == WithServers(before[r], after[r].body.gw.servers)
      && FinalServers(before[r].body.gw.servers, ings, after[r].body.gw.servers)
    else
      (r in after <==> r in before) && (r in after ==> after[r] == before[r])
  }

  lemma FinalizedNext(start: Objects, done: seq<Ingress>, gws: seq<GatewayConfig>, mid: Objects, ing: Ingress,
                      after: Objects, r: Ref)
    requires AllFinalizedAt(start, done, gws, mid, r) && FinalizedAt(mid, ing, gws, after, r)
    ensures AllFinalizedAt(start, done + [ing], gws, after, r)
  {
    if IsConfigured(gws, r) && IsGateway(start, r) {
      FinalServersStep(start[r].body.gw.servers, done, mid[r].body.gw.servers, ing);
    }
  }

  lemma FinalizeNext(env: Env, f: Faults, start: Objects, done: seq<Ingress>, w: World, ing: Ingress, l: Listing,
                     r: Ref)
    requires NoFaults(f) && FairListing(l) && !r.kind.SecretKind?
    requires AllFinalizedAt(start, done, AllConfigured(env.config), w.objects, r)
    ensures AllFinalizedAt(start, done + [ing], AllConfigured(env.config),
                           FinalizeKind(env, f, w, ing, l).world.objects, r)
  {
    FinalizeKindEffect(env, f, w, ing, l, r);
    FinalizedNext(start, done, AllConfigured(env.config), w.objects, ing,
                  FinalizeKind(env, f, w, ing, l).world.objects, r);
  }

  lemma {:induction false} FinalizeRest(env: Env, f: Faults, start: Objects, done: seq<Ingress>, w: World,
                                        rest: seq<Ingress>, l: Listing, r: Ref)
    requires NoFaults(f) && FairListing(l) && !r.kind.SecretKind?
    requires AllFinalizedAt(start, done, AllConfigured(env.config), w.objects, r)
    ensures AllFinalizedAt(start, done + rest, AllConfigured(env.config), FinalizeAll(env, f, w, rest, l).objects, r)
    decreases |rest|
  {
    if rest == [] {
      assert done + rest == done;
    } else {
      var ing, next := rest[0], FinalizeKind(env, f, w, rest[0], l).world;
      FinalizeNext(env, f, start, done, w, ing, l, r);
      FinalizeRest(env, f, start, done + [ing], next, rest[1..], l, r);
      assert done + [ing] + rest[1..] == done + rest;
    }
  }

  /** Every Gateway after finalizing a list of Ingresses. */
  lemma FinalizeAllEffect(env: Env, f: Faults, w: World, ings: seq<Ingress>, l: Listing, r: Ref)
    requires NoFaults(f) && FairListing(l) && !r.kind.SecretKind?
    ensures AllFinalizedAt(w.objects, ings, AllConfigured(env.config), FinalizeAll(env, f, w, ings, l).objects, r)
  {
    if IsGateway(w.objects, r) {
      assert WithServers(w.objects[r], w.objects[r].body.gw.servers) == w.objects[r];
    }
    FinalizeRest(env, f, w.objects, [], w, ings, l, r);
    assert [] + ings == ings;
  }

  /** The same Ingresses finalized in two orders: each Gateway ends with the same servers and is otherwise as it was. */
  lemma FinalizationOrderIndependent(env: Env, f: Faults, w: World, ings: seq<Ingress>, ings': seq<Ingress>, l: Listing,
                                     l': Listing, r: Ref)
    requires NoFaults(f) && FairListing(l) && FairListing(l') && IsGateway(w.objects, r)
    requires forall i :: i in ings <==> i in ings'
    ensures var a, b := FinalizeAll(env, f, w, ings, l).objects, FinalizeAll(env, f, w, ings', l').objects;
            && IsGateway(a, r) && IsGateway(b, r)
            && multiset(a[r].body.gw.servers) == multiset(b[r].body.gw.servers)
            && a[r] == WithServers(w.objects[r], a[r].body.gw.servers)
            && b[r] == WithServers(w.objects[r], b[r].body.gw.servers)
  {
    FinalizeAllEffect(env, f, w, ings, l, r);
    FinalizeAllEffect(env, f, w, ings', l', r);
    if IsConfigured(AllConfigured(env.config), r) {
      FinalServersUnique(w.objects[r].body.gw.servers, ings, ings',
                         FinalizeAll(env, f, w, ings, l).objects[r].body.gw.servers,
                         FinalizeAll(env, f, w, ings', l').objects[r].body.gw.servers);
    }
  }

  /** No server of a finalized Ingress is left in a configured Gateway; every other server but the placeholder is. */
  lemma FinalizedServersGone(env: Env, f: Faults, w: World, ings: seq<Ingress>, l: Listing, r: Ref, s: Server)
    requires NoFaults(f) && FairListing(l) && IsGateway(w.objects, r) && IsConfigured(AllConfigured(env.config), r)
    ensures var after := FinalizeAll(env, f, w, ings, l).objects;
            && IsGateway(after, r)
            && (OwnedByAny(s, ings) ==> s !in after[r].body.gw.servers)
            && (Remains(s, ings) ==> multiset(after[r].body.gw.servers)[s] == multiset(w.objects[r].body.gw.servers)[s])
  {
    FinalizeAllEffect(env, f, w, ings, l, r);
    var before, after := w.objects[r].body.gw.servers, FinalizeAll(env, f, w, ings, l).objects[r].body.gw.servers;
    PlaceholderFree(ings);
    assert (s in after <==> multiset(after)[s] > 0) && (s in before <==> multiset(before)[s] > 0);
  }
}
