/** Whole reconciliations of two Ingresses over one table. Secrets and Gateways are put in place without regard to an
    owner, so that one Ingress can overwrite what another has put there. */
module Contention {
  import opened Config
  import opened Fixpoint
  import opened Gateways
  import opened IngressPass
  import opened Isolation
  import opened Retries
  import opened Secrets
  import opened ServiceObjects
  import opened Store
  import opened Strings
  import opened Success
  import opened Types
  import opened VirtualServicePass

  // ---------------------------------------------------------------- two lists

  /** Where both lists want a key, they do the same to the table. */
  ghost predicate Uncontested(objects: Objects, a: seq<Want>, b: seq<Want>) {
    forall u, v :: u in a && v in b && u.ref == v.ref ==> Put(objects, u) == Put(objects, v)
  }

  /** Secrets hold data. */
  ghost predicate SecretsTyped(objects: Objects) {
    forall r :: r in objects && r.kind.SecretKind? ==> objects[r].body.SecretBody?
  }

  /** What does the same to an object does the same to any. */
  lemma SameMerge(objects: Objects, u: Want, v: Want, x: Object)
    requires SecretsTyped(objects) && WellTyped(u) && WellTyped(v) && u.ref == v.ref
    requires Put(objects, u) == Put(objects, v)
    requires u.ref.kind.SecretKind? ==> x.body.SecretBody?
    ensures Merge(x, u.obj) == Merge(x, v.obj)
  {
  }

  lemma {:induction false} PutAllTyped(objects: Objects, wants: seq<Want>)
    requires SecretsTyped(objects) && AllWellTyped(wants)
    ensures SecretsTyped(PutAll(objects, wants))
    decreases |wants|
  {
    if wants != [] {
      assert wants[0] in wants;
      PutAllTyped(objects[wants[0].ref := Put(objects, wants[0])], wants[1..]);
    }
  }

  /** A list that fits the table fits it still when the other is in place. */
  lemma CompatibleOver(objects: Objects, a: seq<Want>, b: seq<Want>)
    requires SecretsTyped(objects) && AllWellTyped(a) && AllWellTyped(b)
    requires Compatible(objects, a) && Compatible(objects, b)
    ensures Compatible(PutAll(objects, a), b)
  {
    var mid := PutAll(objects, a);
    PutAllTyped(objects, a);
    PutAllAchieves(objects, a);
    forall u, v | u in b && v in b && u.ref == v.ref ensures Put(mid, u) == Put(mid, v) {
      assert Put(objects, u) == Put(objects, v);
      if u.ref in mid {
        SameMerge(objects, u, v, mid[u.ref]);
      } else {
        assert !Wanted(a, u.ref);
      }
    }
  }

  /** At a key of both lists: what is there in the end, after the one and then the other. */
  lemma OneOverOther(objects: Objects, a: seq<Want>, b: seq<Want>, u: Want, v: Want)
    requires SecretsTyped(objects) && AllWellTyped(a) && AllWellTyped(b)
    requires Compatible(objects, a) && Compatible(objects, b) && u in a && v in b && u.ref == v.ref
    ensures u.ref in PutAll(PutAll(objects, a), b)
    ensures PutAll(PutAll(objects, a), b)[u.ref] == Merge(Put(objects, u), v.obj)
  {
    CompatibleOver(objects, a, b);
    PutAllAchieves(objects, a);
    PutAllAchieves(PutAll(objects, a), b);
  }

  /** If either order gives the same object, the two have asked for the same. */
  lemma SameEitherWay(objects: Objects, u: Want, v: Want)
    requires u.ref == v.ref
    ensures Merge(Put(objects, u), v.obj) == Merge(Put(objects, v), u.obj) <==> Put(objects, u) == Put(objects, v)
  {
    var x, y := Put(objects, u), Put(objects, v);
    PutIsStable(objects, u);
    PutIsStable(objects, v);
    if Merge(x, v.obj) == Merge(y, u.obj) {
      var end := Merge(x, v.obj);
      MergeSettles(x, v.obj);
      MergeSettles(y, u.obj);
      MergeSettles(x, u.obj);
      MergeSettles(y, v.obj);
      DiffersTransitive(u.obj, end,
                        v.obj) by { DiffersTransitive(end, u.obj, u.obj) by { MergeSettles(u.obj, u.obj); } }
      DiffersTransitive(x, u.obj, v.obj);
      DiffersTransitive(v.obj, end,
                        u.obj) by { DiffersTransitive(end, v.obj, v.obj) by { MergeSettles(v.obj, v.obj); } }
      DiffersTransitive(y, v.obj, u.obj);
    }
  }

  lemma CommuteAt(objects: Objects, a: seq<Want>, b: seq<Want>, r: Ref)
    requires SecretsTyped(objects) && AllWellTyped(a) && AllWellTyped(b)
    requires Compatible(objects, a) && Compatible(objects, b) && Uncontested(objects, a, b)
    ensures SameAt(PutAll(PutAll(objects, a), b), PutAll(PutAll(objects, b), a), r)
  {
    CompatibleOver(objects, a, b);
    CompatibleOver(objects, b, a);
    PutAllAchieves(objects, a);
    PutAllAchieves(objects, b);
    PutAllAchieves(PutAll(objects, a), b);
    PutAllAchieves(PutAll(objects, b), a);
    if Wanted(a, r) && Wanted(b, r) {
      var u :| u in a && u.ref == r;
      var v :| v in b && v.ref == r;
      OneOverOther(objects, a, b, u, v);
      OneOverOther(objects, b, a, v, u);
      SameEitherWay(objects, u, v);
    }
  }

  /** Two lists give the same table in either order exactly when they contest no key. */
  lemma ListsCommuteExactly(objects: Objects, a: seq<Want>, b: seq<Want>)
    requires SecretsTyped(objects) && AllWellTyped(a) && AllWellTyped(b)
    requires Compatible(objects, a) && Compatible(objects, b)
    ensures PutAll(PutAll(objects, a), b) == PutAll(PutAll(objects, b), a) <==> Uncontested(objects, a, b)
  {
    if Uncontested(objects, a, b) {
      forall r ensures SameAt(PutAll(PutAll(objects, a), b), PutAll(PutAll(objects, b), a), r) {
        CommuteAt(objects, a, b, r);
      }
      SameTables(PutAll(PutAll(objects, a), b), PutAll(PutAll(objects, b), a));
    }
    if PutAll(PutAll(objects, a), b) == PutAll(PutAll(objects, b), a) {
      forall u, v | u in a && v in b && u.ref == v.ref ensures Put(objects, u) == Put(objects, v) {
        OneOverOther(objects, a, b, u, v);
        OneOverOther(objects, b, a, v, u);
        SameEitherWay(objects, u, v);
      }
    }
  }

  // ---------------------------------------------------------------- the effect of a whole pass

  /** The VirtualServices of a table. */
  function ServicesIn(objects: Objects): Objects {
    map r | r in objects && r.kind == VirtualServiceKind :: objects[r]
  }

  /** A pass can be planned and its services can be made. */
  predicate Makeable(env: Env, objects: Objects, ing: Ingress, o: Orders)
    requires Fair(o)
  {
    var plan := PlanPass(env, objects, ing, o);
    plan.Some? && ServicesOf(env, ing, plan.value).Some?
  }

  /** The secrets and Gateways of a pass. */
  function UnownedOf(env: Env, objects: Objects, ing: Ingress, o: Orders): seq<Want>
    requires Fair(o) && Makeable(env, objects, ing, o)
  {
    PlanPass(env, objects, ing, o).value.Unowned()
  }

  /** Its VirtualServices. */
  function ServiceWants(env: Env, objects: Objects, ing: Ingress, o: Orders): seq<Want>
    requires Fair(o) && Makeable(env, objects, ing, o)
  {
    ServicesOf(env, ing, PlanPass(env, objects, ing, o).value).value
  }

  lemma EffectOfServices(before: Objects, ing: Ingress, wants: seq<Want>, after: Objects, q: Ref)
    requires AllOfKind(wants, VirtualServiceKind) && EffectAt(before, ing, wants, after, q)
    ensures EffectAt(ServicesIn(before), ing, wants, ServicesIn(after), q)
  {
    var a := ServicesIn(before);
    forall w | w in wants ensures (w.ref in a <==> w.ref in before) && (w.ref in a ==> a[w.ref] == before[w.ref]) {
    }
    ReachedDependsOn(a, before, ing.uid, wants);
    ReachedIsPrefix(before, ing.uid, wants);
    assert q.kind == VirtualServiceKind ==>
             (q in Obsolete(a, ing, NamesOf(wants)) <==> q in Obsolete(before, ing, NamesOf(wants)));
  }

  /** Secrets and Gateways are those of the list; VirtualServices are as the services say, even where the pass stops
      at an object of someone else. */
  ghost predicate WholeEffect(before: Objects, ing: Ingress, unowned: seq<Want>, wants: seq<Want>, after: Objects) {
    && (forall r: Ref :: r.kind != VirtualServiceKind ==> SameAt(PutAll(before, unowned), after, r))
    && (forall q :: EffectAt(ServicesIn(before), ing, wants, ServicesIn(after), q))
  }

  lemma LivePassOthers(f: Faults, w: World, ing: Ingress, desired: seq<Want>, routeFirst: bool, r: Ref)
    requires NoFaults(f) && Consistent(IstioWants(desired)) && MadeFor(ing, IstioWants(desired))
    requires AllOfKind(IstioWants(desired), VirtualServiceKind) && r.kind != VirtualServiceKind
    ensures SameAt(w.objects, Pass(f, w, Live, ing, desired, routeFirst).world.objects, r)
  {
    LivePassEffect(f, w, ing, desired, routeFirst, r);
    ReachedIsPrefix(w.objects, ing.uid, IstioWants(desired));
  }

  lemma SameServices(a: Objects, b: Objects)
    requires SameKind(a, b, VirtualServiceKind)
    ensures ServicesIn(a) == ServicesIn(b)
  {
    forall r ensures SameAt(ServicesIn(a), ServicesIn(b), r) {
      assert r.kind == VirtualServiceKind ==> SameAt(a, b, r);
    }
    SameTables(ServicesIn(a), ServicesIn(b));
  }

  lemma FollowEffect(env: Env, f: Faults, w: World, ing: Ingress, plan: PassPlan, routeFirst: bool)
    requires NoFaults(f) && ServicesOf(env, ing, plan).Some?
    requires forall v :: v in plan.Unowned() ==> v.ref.kind != VirtualServiceKind
    ensures WholeEffect(w.objects, ing, plan.Unowned(), ServicesOf(env, ing, plan).value,
                        Follow(env, f, w, ing, plan, Live, routeFirst).world.objects)
  {
    var vses, wants := MakeVirtualServices(env.lib, ing, plan.names).value, ServicesOf(env, ing, plan).value;
    var mid := ReconcileAll(f, w, Live, None, plan.Unowned()).world;
    var after := Pass(f, mid, Live, ing, vses, routeFirst).world.objects;
    UnownedSucceeds(f, w, plan.Unowned());
    DoneMeansPut(f, w, None, plan.Unowned());
    OthersUntouched(f, w, plan.Unowned(), VirtualServiceKind);
    IstioWantsFit(env.lib, ing, plan.names);
    SameServices(w.objects, mid.objects);
    forall r: Ref | r.kind != VirtualServiceKind ensures SameAt(mid.objects, after, r) {
      LivePassOthers(f, mid, ing, vses, routeFirst, r);
    }
    forall q ensures EffectAt(ServicesIn(w.objects), ing, wants, ServicesIn(after), q) {
      LivePassEffect(f, mid, ing, vses, routeFirst, q);
      EffectOfServices(mid.objects, ing, wants, after, q);
    }
  }

  lemma PassEffect(env: Env, f: Faults, w: World, ing: Ingress, o: Orders)
    requires NoFaults(f) && Fair(o) && Makeable(env, w.objects, ing, o)
    ensures WholeEffect(w.objects, ing, UnownedOf(env, w.objects, ing, o), ServiceWants(env, w.objects, ing, o),
                        GatewayPass(env, f, w, ing, o).world.objects)
  {
    UnownedKinds(env, w.objects, ing, o);
    PassFollowsPlan(env, f, w, ing, o, Live);
    FollowEffect(env, f, w, ing, PlanPass(env, w.objects, ing, o).value, o.routeFirst);
  }

  /** A pass with one secret or Gateway puts it in place. */
  lemma OnlyOnePut(env: Env, f: Faults, w: World, ing: Ingress, o: Orders, g: Want)
    requires NoFaults(f) && Fair(o) && Makeable(env, w.objects, ing, o) && UnownedOf(env, w.objects, ing, o) == [g]
    requires g.ref.kind != VirtualServiceKind
    ensures var after := GatewayPass(env, f, w, ing, o).world.objects;
            g.ref in after && after[g.ref] == Put(w.objects, g)
  {
    PassEffect(env, f, w, ing, o);
    EffectOfOne(w.objects, ing, g, ServiceWants(env, w.objects, ing, o), GatewayPass(env, f, w, ing, o).world.objects);
  }

  lemma EffectOfOne(before: Objects, ing: Ingress, g: Want, wants: seq<Want>, after: Objects)
    requires WholeEffect(before, ing, [g], wants, after) && g.ref.kind != VirtualServiceKind
    ensures g.ref in after && after[g.ref] == Put(before, g)
  {
    assert PutAll(before, [g]) == PutAll(before[g.ref := Put(before, g)], []);
    assert SameAt(PutAll(before, [g]), after, g.ref);
  }

  // ---------------------------------------------------------------- one pass after the other

  lemma {:induction false} PutAllAt(a: Objects, b: Objects, wants: seq<Want>, r: Ref)
    requires SameAt(a, b, r)
    ensures SameAt(PutAll(a, wants), PutAll(b, wants), r)
    decreases |wants|
  {
    if wants != [] {
      var first := wants[0];
      PutAllAt(a[first.ref := Put(a, first)], b[first.ref := Put(b, first)], wants[1..], r);
    }
  }

  /** Two lists that fit the table, and together leave alone the VirtualServices. */
  ghost predicate Fits(objects: Objects, a: seq<Want>, b: seq<Want>) {
    && SecretsTyped(objects) && AllWellTyped(a) && AllWellTyped(b) && Compatible(objects, a) && Compatible(objects, b)
    && (forall v :: v in a ==> v.ref.kind != VirtualServiceKind) && forall v :: v in b ==>
         v.ref.kind != VirtualServiceKind
  }

  /** The second pass works off the same list, in whatever order, over what the first has left. */
  lemma SecondList(w: Objects, a: seq<Want>, b: seq<Want>, b': seq<Want>, mid: Objects, r: Ref)
    requires Fits(w, a, b) && SameMembers(b, b') && SameAt(PutAll(w, a), mid, r)
    ensures SameAt(PutAll(PutAll(w, a), b), PutAll(mid, b'), r)
  {
    CompatibleOver(w, a, b);
    PutAllSame(PutAll(w, a), b, b');
    PutAllAt(PutAll(w, a), mid, b', r);
  }

  lemma NoServiceAfter(w: Objects, a: seq<Want>, b: seq<Want>, r: Ref)
    requires Fits(w, a, b) && r.kind == VirtualServiceKind
    ensures SameAt(w, PutAll(PutAll(w, a), b), r)
  {
    PutAllElsewhere(w, a, r);
    PutAllElsewhere(PutAll(w, a), b, r);
  }

  /** Tables with the same VirtualServices, that otherwise are what two lists give in either order. */
  lemma SameButForLists(w: Objects, a: seq<Want>, b: seq<Want>, ab: Objects, ba: Objects)
    requires Fits(w, a, b) && ServicesIn(ab) == ServicesIn(ba)
    requires forall r: Ref :: r.kind != VirtualServiceKind ==>
               SameAt(PutAll(PutAll(w, a), b), ab, r) && SameAt(PutAll(PutAll(w, b), a), ba, r)
    ensures ab == ba <==> Uncontested(w, a, b)
  {
    ListsCommuteExactly(w, a, b);
    var x, y := PutAll(PutAll(w, a), b), PutAll(PutAll(w, b), a);
    if ab == ba {
      forall r ensures SameAt(x, y, r) {
        if r.kind == VirtualServiceKind { NoServiceAfter(w, a, b, r); NoServiceAfter(w, b, a, r); }
      }
      SameTables(x, y);
    }
    if x == y {
      forall r ensures SameAt(ab, ba, r) {
        if r.kind == VirtualServiceKind { assert SameAt(ServicesIn(ab), ab, r) && SameAt(ServicesIn(ba), ba, r); }
      }
      SameTables(ab, ba);
    }
  }

  /** The effects of two whole passes in either order. */
  lemma WholeEffectsCommute(w: Objects, a: Ingress, b: Ingress, listA: seq<Want>, listB: seq<Want>,
                            listA': seq<Want>, listB': seq<Want>, wantsA: seq<Want>, wantsB: seq<Want>,
                            midA: Objects, ab: Objects, midB: Objects, ba: Objects)
    requires a.uid != b.uid && MadeFor(a, wantsA) && MadeFor(b, wantsB) && Fits(w, listA, listB)
    requires KeepsClear(ServicesIn(w), wantsA, b, wantsB) && KeepsClear(ServicesIn(w), wantsB, a, wantsA)
    requires SameMembers(listA, listA') && SameMembers(listB, listB')
    requires WholeEffect(w, a, listA, wantsA, midA) && WholeEffect(midA, b, listB', wantsB, ab)
    requires WholeEffect(w, b, listB, wantsB, midB) && WholeEffect(midB, a, listA', wantsA, ba)
    ensures ab == ba <==> Uncontested(w, listA, listB)
  {
    EffectsCommute(ServicesIn(w), a, wantsA, b, wantsB, ServicesIn(midA), ServicesIn(ab), ServicesIn(midB),
                   ServicesIn(ba));
    forall r: Ref | r.kind != VirtualServiceKind
      ensures SameAt(PutAll(PutAll(w, listA), listB), ab, r) && SameAt(PutAll(PutAll(w, listB), listA), ba, r)
    {
      SecondList(w, listA, listB, listB', midA, r);
      SecondList(w, listB, listA, listA', midB, r);
    }
    SameButForLists(w, listA, listB, ab, ba);
  }

  // ---------------------------------------------------------------- whole passes

  lemma CopiesWellTyped(order: seq<string>, origins: Origins, services: seq<ServiceKey>, naming: Naming)
    requires forall k :: k in order ==> k in origins
    ensures AllWellTyped(Copies(order, origins, services, naming))
  {
  }

  lemma {:induction false} WildcardsWellTyped(lib: Library, o: Orders, origins: Origins, services: seq<GatewayService>)
    requires Fair(o) && AllWildcardGateways(lib, o, origins, services).Some?
    ensures AllWellTyped(AllWildcardGateways(lib, o, origins, services).value)
  {
    if services != [] {
      WildcardsWellTyped(lib, o, origins, services[..|services| - 1]);
    }
  }

  lemma FinalGatewaysWellTyped(env: Env, ing: Ingress, gateways: seq<Want>)
    requires AllWellTyped(gateways) && AllOfKind(gateways, GatewayKind) && FinalGateways(env, ing, gateways).Some?
    ensures AllWellTyped(FinalGateways(env, ing, gateways).value)
  {
    var r := FinalGateways(env, ing, gateways).value;
    forall w | w in r ensures WellTyped(w) {
      var i :| 0 <= i < |r| && r[i] == w;
      if OwnHTTPServer(ing) && |gateways| != 0 { assert gateways[i] in gateways; }
    }
  }

  lemma WildcardTLSWellTyped(env: Env, ing: Ingress, o: Orders, origins: Origins)
    requires Fair(o) && WildcardTLSGateways(env, ing, o, origins).Some?
    ensures AllWellTyped(WildcardTLSGateways(env, ing, o, origins).value)
  {
    if |origins| != 0 {
      WildcardsWellTyped(env.lib, o, origins, Services(env, ing).value);
    }
  }

  lemma ExternalWellTyped(env: Env, objects: Objects, ing: Ingress, o: Orders)
    requires Fair(o) && PlanExternal(env, objects, ing, o).Some?
    ensures var p := PlanExternal(env, objects, ing, o).value;
            && AllWellTyped(p.copies) && AllWellTyped(p.wildcards)
            && AllWellTyped(p.gateways) && AllOfKind(p.gateways, GatewayKind)
  {
    PlanKinds(env, objects, ing, o);
    CopiesHaveBodies(env, objects, ing, o);
    if ExternalTLS(ing) {
      WildcardTLSWellTyped(env, ing, o, ExternalSecrets(env, objects, ing).value.wildcard);
    }
  }

  lemma LocalWellTyped(env: Env, objects: Objects, ing: Ingress, o: Orders)
    requires Fair(o) && PlanLocal(env, objects, ing, o).Some?
    ensures var q := PlanLocal(env, objects, ing, o).value; AllWellTyped(q.copies) && AllWellTyped(q.gateways)
  {
    if env.localTLS && LocalTLS(ing) {
      var q := PlanLocal(env, objects, ing, o).value;
      CopiesWellTyped(o.enumerate(2, q.origins.Keys), q.origins, Keys(env, ing).value, PlainNaming(ing.name));
      GatewaysAreGateways(env, ing, CLUSTER_LOCAL, IngressTLSFor(ing, CLUSTER_LOCAL), q.origins);
    }
  }

  lemma PlanWellTyped(env: Env, objects: Objects, ing: Ingress, o: Orders)
    requires Fair(o) && PlanPass(env, objects, ing, o).Some?
    ensures AllWellTyped(PlanPass(env, objects, ing, o).value.Unowned())
  {
    var plan := PlanPass(env, objects, ing, o).value;
    PlanMembers(env, objects, ing, o);
    ExternalWellTyped(env, objects, ing, o);
    LocalWellTyped(env, PutAll(objects, plan.external.copies), ing, o);
    FinalGatewaysWellTyped(env, ing, plan.external.gateways);
  }

  /** The origins of another Ingress are as they were, if no copy lies on one. */
  lemma OthersOrigins(before: Objects, a: Ingress, unowned: seq<Want>, wants: seq<Want>, after: Objects, b: Ingress)
    requires WholeEffect(before, a, unowned, wants, after) && ClearOfOrigins(unowned, b)
    ensures SameOrigins(before, after, b)
  {
    PutAllKeepsOrigins(before, unowned, b);
    OriginsOfSameKind(PutAll(before, unowned), after, b);
    SameOriginsTransitive(before, PutAll(before, unowned), after, b);
  }

  /** What a pass does after one of another Ingress: the same list and the same services. */
  lemma PassAfter(env: Env, f: Faults, w: Objects, next: World, b: Ingress, o: Orders, o': Orders)
    requires NoFaults(f) && Fair(o) && Fair(o') && Makeable(env, w, b, o) && SameOrigins(w, next.objects, b)
    requires ClearOfOrigins(UnownedOf(env, w, b, o), b)
    ensures Makeable(env, next.objects, b, o')
    ensures SameMembers(UnownedOf(env, w, b, o), UnownedOf(env, next.objects, b, o'))
    ensures ServiceWants(env, w, b, o) == ServiceWants(env, next.objects, b, o')
    ensures WholeEffect(next.objects, b, UnownedOf(env, next.objects, b, o'), ServiceWants(env, w, b, o),
                        GatewayPass(env, f, next, b, o').world.objects)
  {
    SamePlan(env, w, next.objects, b, o, o');
    PassEffect(env, f, next, b, o');
  }

  /** No copy of the one Ingress lies on an origin of the other or of its own, its own objects fit together, and no
      name of its services is wanted or held by the other. */
  ghost predicate Civil(env: Env, objects: Objects, a: Ingress, oA: Orders, b: Ingress, oB: Orders)
    requires Fair(oA) && Fair(oB) && Makeable(env, objects, a, oA) && Makeable(env, objects, b, oB)
  {
    && Compatible(objects, UnownedOf(env, objects, a, oA))
    && ClearOfOrigins(UnownedOf(env, objects, a, oA), a) && ClearOfOrigins(UnownedOf(env, objects, a, oA), b)
    && KeepsClear(objects, ServiceWants(env, objects, a, oA), b, ServiceWants(env, objects, b, oB))
  }

  lemma KeepsClearOfServices(objects: Objects, wantsA: seq<Want>, b: Ingress, wantsB: seq<Want>)
    requires KeepsClear(objects, wantsA, b, wantsB)
    ensures KeepsClear(ServicesIn(objects), wantsA, b, wantsB)
  {
  }

  /** Both orders of two passes, as effects on tables. */
  lemma PassesFit(env: Env, objects: Objects, a: Ingress, oA: Orders, b: Ingress, oB: Orders)
    requires Fair(oA) && Fair(oB) && Makeable(env, objects, a, oA) && Makeable(env, objects, b, oB)
    requires SecretsTyped(objects) && Civil(env, objects, a, oA, b, oB) && Civil(env, objects, b, oB, a, oA)
    ensures Fits(objects, UnownedOf(env, objects, a, oA), UnownedOf(env, objects, b, oB))
    ensures MadeFor(a, ServiceWants(env, objects, a, oA)) && MadeFor(b, ServiceWants(env, objects, b, oB))
  {
    PlanWellTyped(env, objects, a, oA);
    PlanWellTyped(env, objects, b, oB);
    UnownedKinds(env, objects, a, oA);
    UnownedKinds(env, objects, b, oB);
    IstioWantsFit(env.lib, a, PlanPass(env, objects, a, oA).value.names);
    IstioWantsFit(env.lib, b, PlanPass(env, objects, b, oB).value.names);
  }

  /** Whole passes of two Ingresses, in either order and in any orders of maps, give the same table exactly when they
      contest no secret and no Gateway. */
  lemma WholePassesCommuteExactly(env: Env, f: Faults, w: World, a: Ingress, b: Ingress, oA: Orders, oB: Orders,
                                  oA': Orders, oB': Orders)
    requires NoFaults(f) && a.uid != b.uid && SecretsTyped(w.objects)
    requires Fair(oA) && Fair(oB) && Fair(oA') && Fair(oB')
    requires Makeable(env, w.objects, a, oA) && Makeable(env, w.objects, b, oB)
    requires Civil(env, w.objects, a, oA, b, oB) && Civil(env, w.objects, b, oB, a, oA)
    ensures GatewayPass(env, f, GatewayPass(env, f, w, a, oA).world, b, oB').world.objects
         == GatewayPass(env, f, GatewayPass(env, f, w, b, oB).world, a, oA').world.objects
       <==> Uncontested(w.objects, UnownedOf(env, w.objects, a, oA), UnownedOf(env, w.objects, b, oB))
  {
    var listA, listB := UnownedOf(env, w.objects, a, oA), UnownedOf(env, w.objects, b, oB);
    var wantsA, wantsB := ServiceWants(env, w.objects, a, oA), ServiceWants(env, w.objects, b, oB);
    var midA, midB := GatewayPass(env, f, w, a, oA).world, GatewayPass(env, f, w, b, oB).world;
    PassEffect(env, f, w, a, oA);
    PassEffect(env, f, w, b, oB);
    OthersOrigins(w.objects, a, listA, wantsA, midA.objects, b);
    OthersOrigins(w.objects, b, listB, wantsB, midB.objects, a);
    PassAfter(env, f, w.objects, midA, b, oB, oB');
    PassAfter(env, f, w.objects, midB, a, oA, oA');
    PassesFit(env, w.objects, a, oA, b, oB);
    KeepsClearOfServices(w.objects, wantsA, b, wantsB);
    KeepsClearOfServices(w.objects, wantsB, a, wantsA);
    WholeEffectsCommute(w.objects, a, b, listA, listB, UnownedOf(env, midB.objects, a, oA'),
                        UnownedOf(env, midA.objects, b, oB'), wantsA, wantsB, midA.objects,
                        GatewayPass(env, f, midA, b, oB').world.objects, midB.objects,
                        GatewayPass(env, f, midB, a, oA').world.objects);
  }

  // ---------------------------------------------------------------- which Gateways are contested

  /** Two Gateways of different Ingresses contest a key exactly when their Ingresses share a namespace, their names
      have met, and no Gateway is there yet or they differ in their spec. */
  lemma GatewaysContestExactly(objects: Objects, a: Ingress, b: Ingress, visibility: string, visibility': string,
                               s: GatewayService, t: GatewayService, mine: seq<Server>, others: seq<Server>)
    requires a.uid != b.uid
    ensures var u, v := IngressGateway(a, visibility, s, mine), IngressGateway(b, visibility', t, others);
            !Uncontested(objects, [u], [v]) <==>
            && a.namespace == b.namespace
            && GatewayName(a.name, visibility, s.key) == GatewayName(b.name, visibility', t.key)
            && (u.ref !in objects || s.selector != t.selector || mine != others)
  {
    var u, v := IngressGateway(a, visibility, s, mine), IngressGateway(b, visibility', t, others);
    SinglesContest(objects, u, v);
    assert u.obj.owners[0].uid != v.obj.owners[0].uid;
  }

  lemma SinglesContest(objects: Objects, u: Want, v: Want)
    requires u.obj.body.GatewayBody? && v.obj.body.GatewayBody?
    ensures !Uncontested(objects, [u], [v]) <==>
            u.ref == v.ref && if u.ref in objects then u.obj.body != v.obj.body else u.obj != v.obj
  {
    assert u in [u] && v in [v];
    if u.ref == v.ref && u.ref in objects {
      assert Put(objects, u).body == u.obj.body && Put(objects, v).body == v.obj.body;
    }
  }

  /** One of the Gateways that are named after the Ingress. */
  ghost predicate IsIngressGateway(ing: Ingress, g: Want) {
    exists visibility, s, servers :: g == IngressGateway(ing, visibility, s, servers)
  }

  ghost predicate AllIngressGateways(ing: Ingress, gateways: seq<Want>) {
    forall g :: g in gateways ==> IsIngressGateway(ing, g)
  }

  lemma TLSGatewaysShape(env: Env, ing: Ingress, visibility: string, tls: seq<IngressTLS>, origins: Origins)
    requires IngressTLSGateways(env, ing, visibility, tls, origins).Some?
    ensures AllIngressGateways(ing, IngressTLSGateways(env, ing, visibility, tls, origins).value)
  {
    if |tls| != 0 {
      var services, gateways := Services(env, ing).value, IngressTLSGateways(env, ing, visibility, tls, origins).value;
      TLSGatewaysEach(env.lib, ing, visibility, tls, origins, services);
      forall g | g in gateways ensures IsIngressGateway(ing, g) {
        var s :| s in services && TLSGatewayFor(env.lib, ing, visibility, tls, origins, s) == Some(g);
        assert g == IngressGateway(ing, visibility, s,
                                   TLSServers(env.lib, ing, visibility, tls, s.key.namespace, origins).value);
      }
    }
  }

  lemma FinalGatewaysShape(env: Env, ing: Ingress, gateways: seq<Want>)
    requires AllIngressGateways(ing, gateways) && FinalGateways(env, ing, gateways).Some?
    ensures AllIngressGateways(ing, FinalGateways(env, ing, gateways).value)
  {
    var r := FinalGateways(env, ing, gateways).value;
    forall w | w in r ensures IsIngressGateway(ing, w) {
      var i :| 0 <= i < |r| && r[i] == w;
      if OwnHTTPServer(ing) && |gateways| != 0 {
        assert gateways[i] in gateways;
        var visibility, s, servers :| gateways[i] == IngressGateway(ing, visibility, s, servers);
        assert w == IngressGateway(ing, visibility, s, w.obj.body.gw.servers);
      }
    }
  }

  lemma PlannedGatewaysShape(env: Env, objects: Objects, ing: Ingress, o: Orders)
    requires Fair(o) && PlanPass(env, objects, ing, o).Some?
    ensures var plan := PlanPass(env, objects, ing, o).value;
            AllIngressGateways(ing, plan.gateways) && AllIngressGateways(ing, plan.local.gateways)
  {
    var plan := PlanPass(env, objects, ing, o).value;
    if ExternalTLS(ing) {
      var c := ExternalSecrets(env, objects, ing).value;
      TLSGatewaysShape(env, ing, EXTERNAL_IP, PlainTLS(IngressTLSFor(ing, EXTERNAL_IP), c.plain), c.plain);
    }
    if env.localTLS && LocalTLS(ing) {
      TLSGatewaysShape(env, ing, CLUSTER_LOCAL, IngressTLSFor(ing, CLUSTER_LOCAL), plan.local.origins);
    }
    FinalGatewaysShape(env, ing, plan.external.gateways);
  }

  /** Two Ingresses in one namespace whose names cannot be told apart by their first 52 characters. */
  predicate AlikeInName(a: Ingress, b: Ingress) {
    && a.namespace == b.namespace
    && (a.name == b.name || (|a.name| >= 52 && |b.name| >= 52 && a.name[..52] == b.name[..52]))
  }

  /** Otherwise, with names that are labels, no Gateway named after the one has the key of one named after the other. */
  lemma OwnGatewaysApart(env: Env, objects: Objects, a: Ingress, oA: Orders, b: Ingress, oB: Orders, u: Want, v: Want)
    requires Fair(oA) && Fair(oB) && PlanPass(env, objects, a, oA).Some? && PlanPass(env, objects, b, oB).Some?
    requires IsDns1123Label(a.name) && IsDns1123Label(b.name) && !AlikeInName(a, b)
    requires u in PlanPass(env, objects, a, oA).value.gateways
             || u in PlanPass(env, objects, a, oA).value.local.gateways
    requires v in PlanPass(env, objects, b, oB).value.gateways
             || v in PlanPass(env, objects, b, oB).value.local.gateways
    ensures u.ref != v.ref
  {
    PlannedGatewaysShape(env, objects, a, oA);
    PlannedGatewaysShape(env, objects, b, oB);
    ShapesApart(a, b, u, v);
  }

  lemma ShapesApart(a: Ingress, b: Ingress, u: Want, v: Want)
    requires IsIngressGateway(a, u) && IsIngressGateway(b, v) && !AlikeInName(a, b)
    requires IsDns1123Label(a.name) && IsDns1123Label(b.name)
    ensures u.ref != v.ref
  {
    var visibility, s, mine :| u == IngressGateway(a, visibility, s, mine);
    var visibility', t, others :| v == IngressGateway(b, visibility', t, others);
    LabelNamesMeetExactly(a.name, visibility, s.key, b.name, visibility', t.key);
    SameCut(a.name, b.name, LABEL_MAX - |GatewayServiceChecksum(visibility, s.key)| - 1);
  }

  lemma SameCut(a: string, b: string, room: nat)
    requires 52 <= room
    ensures |a| >= room && |b| >= room && a[..room] == b[..room] ==> a[..52] == b[..52]
  {
    if |a| >= room && |b| >= room {
      assert a[..52] == a[..room][..52] && b[..52] == b[..room][..52];
    }
  }
}
