/** Mesh-only reconciliations that are refused and tried again, or read a stale VirtualService cache. */
module MeshRetries {
  import opened Cleanup
  import opened Convergence
  import opened EndToEnd
  import opened Fixpoint
  import opened IngressPass
  import opened Retries
  import opened RoutedGateways
  import opened Secrets
  import opened ServiceObjects
  import opened Store
  import opened Success
  import opened Types
  import opened VirtualServicePass

  // ---------------------------------------------------------------- the table that a mesh-only pass is for

  /** The copies for its TLS entries that the pass looks for. */
  function CurrentCopies(objects: Objects, ing: Ingress): (s: set<Ref>)
    ensures forall r :: r in s <==> r in objects && AnyTLS(ing) && TLSCopy(objects, ing, r)
  {
    set r | r in objects && AnyTLS(ing) && TLSCopy(objects, ing, r)
  }

  /** The Gateways of the Ingress and those copies, gone. */
  function Tidy(objects: Objects, ing: Ingress): Objects {
    objects - (OwnGateways(objects, ing) + CurrentCopies(objects, ing))
  }

  function MeshWants(env: Env, ing: Ingress): Option<seq<Want>> {
    match MakeVirtualServices(env.lib, ing, NoGateways())
    case None => None
    case Some(vses) => Some(IstioWants(vses))
  }

  ghost predicate MeshReady(env: Env, objects: Objects, ing: Ingress) {
    MeshWants(env, ing).Some? && Settleable(objects, ing, MeshWants(env, ing).value)
  }

  /** Services converged, and everything of the other mode gone. */
  ghost predicate MeshGoal(env: Env, before: Objects, ing: Ingress, after: Objects) {
    MeshWants(env, ing).Some? && Converged(Tidy(before, ing), ing, MeshWants(env, ing).value, after)
  }

  lemma MeshWantsFit(env: Env, ing: Ingress)
    requires MeshWants(env, ing).Some?
    ensures AllOfKind(MeshWants(env, ing).value, VirtualServiceKind)
  {
    IstioWantsFit(env.lib, ing, NoGateways());
  }

  /** Nothing that is tidied away is a VirtualService, and what is depends on nothing else. */
  lemma TidySame(a: Objects, b: Objects, ing: Ingress)
    requires SameKind(a, b, GatewayKind) && SameKind(a, b, SecretKind)
    ensures OwnGateways(a, ing) + CurrentCopies(a, ing) == OwnGateways(b, ing) + CurrentCopies(b, ing)
    ensures forall r :: r in OwnGateways(a, ing) + CurrentCopies(a, ing) ==> r.kind != VirtualServiceKind
  {
    forall r ensures OwnGateway(a, ing, r) <==> OwnGateway(b, ing, r) {
      assert r.kind == GatewayKind ==> SameAt(a, b, r);
    }
    forall r ensures r in CurrentCopies(a, ing) <==> r in CurrentCopies(b, ing) {
      if r.kind == SecretKind {
        assert SameAt(a, b, r);
        assert forall t :: IsCopyFor(a, t, None, r) <==> IsCopyFor(b, t, None, r);
      }
    }
  }

  // ---------------------------------------------------------------- while the services are worked on

  /** Taking away what is no VirtualService does not change what is obsolete, or how far the services have got. */
  lemma ObsoleteWithout(objects: Objects, ing: Ingress, kept: set<string>, gone: set<Ref>)
    requires forall r :: r in gone ==> r.kind != VirtualServiceKind
    ensures Obsolete(objects - gone, ing, kept) == Obsolete(objects, ing, kept)
  {
    ObsoleteAfterRemoval(objects, gone, ing, kept, false);
    ObsoleteAfterRemoval(objects, gone, ing, kept, true);
    forall r | r in Obsolete(objects, ing, kept) ensures r !in gone {
    }
  }

  lemma PartwayWithout(before: Objects, wants: seq<Want>, mid: Objects, gone: set<Ref>)
    requires Partway(before, wants, mid) && AllOfKind(wants, VirtualServiceKind)
    requires forall r :: r in gone ==> r.kind != VirtualServiceKind
    ensures Partway(before - gone, wants, mid - gone)
  {
    forall v | v in wants
      ensures SameAt(before - gone, mid - gone, v.ref)
              || (v.ref in mid - gone && (mid - gone)[v.ref] == Put(before - gone, v))
    {
      assert v.ref !in gone;
      assert SameAt(before, mid, v.ref) || mid[v.ref] == Put(before, v);
    }
    forall r | !Wanted(wants, r) ensures SameAt(before - gone, mid - gone, r) {
      assert SameAt(before, mid, r);
    }
  }

  lemma TidyKeepsGoal(before: Objects, ing: Ingress, wants: seq<Want>, mid: Objects, gone: set<Ref>, tidied: set<Ref>,
                      goal: Objects)
    requires Partway(before, wants, mid) && AllOfKind(wants, VirtualServiceKind)
    requires gone <= Obsolete(before, ing, NamesOf(wants)) && forall r :: r in tidied ==> r.kind != VirtualServiceKind
    requires Converged((mid - gone) - tidied, ing, wants, goal)
    ensures Converged(before - tidied, ing, wants, goal)
  {
    PartwayWithout(before, wants, mid, tidied);
    ObsoleteWithout(before, ing, NamesOf(wants), tidied);
    assert (mid - gone) - tidied == (mid - tidied) - gone;
    GoalKeptPartway(before - tidied, ing, wants, mid - tidied, gone, goal);
  }

  lemma ServicesKeepMeshGoal(env: Env, f: Faults, w: World, l: Lister, ing: Ingress, routeFirst: bool, goal: Objects)
    requires MeshReady(env, w.objects, ing) && View(l, w) == w.objects
    ensures var next := Pass(f, w, l, ing, MakeVirtualServices(env.lib, ing, NoGateways()).value,
                             routeFirst).world.objects;
            MeshReady(env, next, ing) && (MeshGoal(env, next, ing, goal) ==> MeshGoal(env, w.objects, ing, goal))
  {
    var vses, wants := MakeVirtualServices(env.lib, ing, NoGateways()).value, MeshWants(env, ing).value;
    var next := Pass(f, w, l, ing, vses, routeFirst).world.objects;
    MeshWantsFit(env, ing);
    RefusedPassKeepsGoal(f, w, l, ing, vses, routeFirst, goal);
    ServicesKeepOthers(f, w, l, ing, vses, routeFirst, GatewayKind);
    ServicesKeepOthers(f, w, l, ing, vses, routeFirst, SecretKind);
    TidySame(w.objects, next, ing);
    if MeshGoal(env, next, ing, goal) {
      var mid, gone := RefusedPassEffect(f, w, l, ing, vses, routeFirst);
      TidyKeepsGoal(w.objects, ing, wants, mid, gone,
                    OwnGateways(w.objects, ing) + CurrentCopies(w.objects, ing), goal);
    }
  }

  // ---------------------------------------------------------------- while the rest is removed

  lemma TidyInPart(objects: Objects, ing: Ingress, gone: set<Ref>)
    requires gone <= OwnGateways(objects, ing) + CurrentCopies(objects, ing)
    ensures Tidy(objects - gone, ing) == Tidy(objects, ing)
  {
    forall r | r in objects && r !in gone
      ensures r in OwnGateways(objects - gone, ing) <==> r in OwnGateways(objects, ing)
      ensures r in CurrentCopies(objects - gone, ing) <==> r in CurrentCopies(objects, ing)
    {
      assert forall t :: IsCopyFor(objects - gone, t, None, r) <==> IsCopyFor(objects, t, None, r);
    }
  }

  /** However the sweep ends, it has taken only copies for current entries. */
  lemma SweepTakes(f: Faults, w: World, ing: Ingress, l: Listing) returns (gone: set<Ref>)
    requires FairListing(l)
    ensures CleanupTLSSecrets(f, w, ing, l).world.objects == w.objects - gone && gone <= CurrentCopies(w.objects, ing)
  {
    var after := CleanupTLSSecrets(f, w, ing, l).world.objects;
    gone := w.objects.Keys - after.Keys;
    if AnyTLS(ing) {
      AllCopiesGone(f, w, ing.tls, l);
      forall r | r in gone ensures TLSCopy(w.objects, ing, r) {
        if !TLSCopy(w.objects, ing, r) {
          SweepAllSpares(f, w, ing.tls, l, r);
        }
      }
    }
    assert after == w.objects - gone;
  }

  lemma TidyUpTakes(f: Faults, w: World, ing: Ingress, l: Listing) returns (gone: set<Ref>)
    requires FairListing(l)
    ensures TidyUp(f, w, ing, l).world.objects == w.objects - gone
    ensures gone <= OwnGateways(w.objects, ing) + CurrentCopies(w.objects, ing)
  {
    var gateways := OwnGatewaysGone(f, w, ing, l);
    var b := CleanupIngressGateways(f, w, ing, l);
    gone := gateways;
    if b.outcome == Done {
      var copies := SweepTakes(f, b.world, ing, l);
      TidyInPartCopies(w.objects, ing, gateways);
      RemoveTwice(w.objects, gateways, copies);
      gone := gateways + copies;
    }
  }

  lemma TidyInPartCopies(objects: Objects, ing: Ingress, gone: set<Ref>)
    ensures CurrentCopies(objects - gone, ing) <= CurrentCopies(objects, ing)
  {
    forall r | r in CurrentCopies(objects - gone, ing) ensures r in CurrentCopies(objects, ing) {
      var t :| t in ing.tls && IsCopyFor(objects - gone, t, None, r);
      assert IsCopyFor(objects, t, None, r);
    }
  }

  /** And all of them, if it succeeds. */
  lemma TidyUpDone(f: Faults, w: World, ing: Ingress, l: Listing)
    requires FairListing(l) && TidyUp(f, w, ing, l).outcome == Done
    ensures TidyUp(f, w, ing, l).world.objects == Tidy(w.objects, ing)
  {
    var after := TidyUp(f, w, ing, l).world.objects;
    var gone := TidyUpTakes(f, w, ing, l);
    var gateways := OwnGatewaysGone(f, w, ing, l);
    var b := CleanupIngressGateways(f, w, ing, l).world;
    SweepLeaves(f, b, ing, l);
    forall r | r in OwnGateways(w.objects, ing) + CurrentCopies(w.objects, ing) ensures r in gone {
      if r in CurrentCopies(w.objects, ing) {
        var t :| t in ing.tls && IsCopyFor(w.objects, t, None, r);
        assert IsCopyFor(b.objects, t, None, r);
        SweptAt(b.objects, after, ing, r);
      }
    }
  }

  lemma MeshOnlyByParts(env: Env, f: Faults, w: World, ing: Ingress, o: Orders, l: Listing, cache: Lister)
    requires MakeVirtualServices(env.lib, ing, NoGateways()).Some?
    ensures MeshOnlyPassSeeing(env, f, w, ing, o, l, cache) ==
            var a := Pass(f, w, cache, ing, MakeVirtualServices(env.lib, ing, NoGateways()).value, o.routeFirst);
            if a.outcome.Failed? then a else TidyUp(f, a.world, ing, l)
  {
  }

  lemma TidySettleable(objects: Objects, ing: Ingress, wants: seq<Want>, gone: set<Ref>)
    requires Settleable(objects, ing, wants)
    ensures Settleable(objects - gone, ing, wants)
  {
  }

  // ---------------------------------------------------------------- any number of passes

  /** Whatever is refused, and with a cache that is up to date or was when the pass began: a pass keeps the goal and
      the way to it. */
  lemma MeshAttemptKeepsGoal(env: Env, f: Faults, w: World, ing: Ingress, o: Orders, l: Listing, stale: bool,
                             goal: Objects)
    requires FairListing(l) && MeshReady(env, w.objects, ing)
    ensures var next := MeshOnlyPassSeeing(env, f, w, ing, o, l, CacheOf(w, stale)).world.objects;
            MeshReady(env, next, ing) && (MeshGoal(env, next, ing, goal) ==> MeshGoal(env, w.objects, ing, goal))
  {
    MeshOnlyByParts(env, f, w, ing, o, l, CacheOf(w, stale));
    ServicesKeepMeshGoal(env, f, w, CacheOf(w, stale), ing, o.routeFirst, goal);
    var a := Pass(f, w, CacheOf(w, stale), ing, MakeVirtualServices(env.lib, ing, NoGateways()).value, o.routeFirst);
    if a.outcome == Done {
      var gone := TidyUpTakes(f, a.world, ing, l);
      TidyInPart(a.world.objects, ing, gone);
      TidySettleable(a.world.objects, ing, MeshWants(env, ing).value, gone);
    }
  }

  datatype MeshAttempt = MeshAttempt(refuses: Faults, orders: Orders, listing: Listing, stale: bool)

  ghost predicate FairMeshAttempts(tries: seq<MeshAttempt>) {
    forall a :: a in tries ==> FairListing(a.listing)
  }

  function MeshAttempts(env: Env, w: World, ing: Ingress, tries: seq<MeshAttempt>): World
    decreases |tries|
  {
    if tries == [] then w else
      var a := tries[0];
      MeshAttempts(env, MeshOnlyPassSeeing(env, a.refuses, w, ing, a.orders, a.listing, CacheOf(w, a.stale)).world,
                   ing, tries[1..])
  }

  lemma {:induction false} MeshAttemptsKeepGoal(env: Env, w: World, ing: Ingress, tries: seq<MeshAttempt>,
                                                goal: Objects)
    requires FairMeshAttempts(tries) && MeshReady(env, w.objects, ing)
    ensures var next := MeshAttempts(env, w, ing, tries).objects;
            MeshReady(env, next, ing) && (MeshGoal(env, next, ing, goal) ==> MeshGoal(env, w.objects, ing, goal))
    decreases |tries|
  {
    if tries != [] {
      var a := tries[0];
      assert a in tries;
      MeshAttemptKeepsGoal(env, a.refuses, w, ing, a.orders, a.listing, a.stale, goal);
      MeshAttemptsKeepGoal(env, MeshOnlyPassSeeing(env, a.refuses, w, ing, a.orders, a.listing,
                                                   CacheOf(w, a.stale)).world, ing,
                           tries[1..], goal);
    }
  }

  /** A pass that ends without failure over a table with its services in place has reached the goal. */
  lemma ConvergedThenTidy(env: Env, before: Objects, ing: Ingress, mid: Objects)
    requires MeshWants(env, ing).Some? && Converged(before, ing, MeshWants(env, ing).value, mid)
    ensures MeshGoal(env, before, ing, Tidy(mid, ing))
  {
    var wants := MeshWants(env, ing).value;
    IstioWantsFit(env.lib, ing, NoGateways());
    PassKeepsOtherKinds(before, ing, wants, mid, GatewayKind);
    PassKeepsOtherKinds(before, ing, wants, mid, SecretKind);
    TidySame(before, mid, ing);
    var tidied := OwnGateways(before, ing) + CurrentCopies(before, ing);
    ObsoleteWithout(before, ing, NamesOf(wants), tidied);
    ConvergedWithout(before, ing, wants, mid, tidied);
  }

  lemma ConvergedWithout(before: Objects, ing: Ingress, wants: seq<Want>, mid: Objects, tidied: set<Ref>)
    requires Converged(before, ing, wants, mid) && AllOfKind(wants, VirtualServiceKind)
    requires forall r :: r in tidied ==> r.kind != VirtualServiceKind
    requires Obsolete(before - tidied, ing, NamesOf(wants)) == Obsolete(before, ing, NamesOf(wants))
    ensures Converged(before - tidied, ing, wants, mid - tidied)
  {
    forall v | v in wants ensures v.ref in mid - tidied && (mid - tidied)[v.ref] == Put(before - tidied, v) {
      assert v.ref !in tidied;
    }
  }

  /** A live pass that ends without failure reaches the goal, and could be made ready for. */
  lemma MeshSuccessReachesGoal(env: Env, f: Faults, w: World, ing: Ingress, o: Orders, l: Listing)
    requires FairListing(l) && MeshOnlyPass(env, f, w, ing, o, l).outcome == Done
    ensures MeshReady(env, w.objects, ing)
    ensures MeshGoal(env, w.objects, ing, MeshOnlyPass(env, f, w, ing, o, l).world.objects)
  {
    MeshOnlyByParts(env, f, w, ing, o, l, Live);
    var vses := MakeVirtualServices(env.lib, ing, NoGateways()).value;
    var a := Pass(f, w, Live, ing, vses, o.routeFirst).world;
    IstioWantsFit(env.lib, ing, NoGateways());
    LivePassConverges(f, w, ing, vses, o.routeFirst);
    DoneMeansOwned(f, w, ing.uid, IstioWants(vses));
    TidyUpDone(f, a, ing, l);
    ConvergedThenTidy(env, w.objects, ing, a.objects);
  }

  lemma MeshGoalUnique(env: Env, before: Objects, ing: Ingress, a: Objects, b: Objects)
    requires MeshGoal(env, before, ing, a) && MeshGoal(env, before, ing, b)
    ensures a == b
  {
    ConvergedUnique(Tidy(before, ing), ing, MeshWants(env, ing).value, a, b);
  }

  lemma TidyUpSucceeds(f: Faults, w: World, ing: Ingress, l: Listing)
    requires NoFaults(f)
    ensures TidyUp(f, w, ing, l).outcome == Done
  {
    DeletesSucceed(f, w, l(OwnGateways(w.objects, ing)));
    SweepSucceeds(f, CleanupIngressGateways(f, w, ing, l).world, ing.tls, l);
  }

  /** Any number of passes stopped by refusals, over any caches, and then one that meets none: it succeeds, and the
      table is the one that a pass without refusals would have given at once. */
  lemma RetriedMeshPassesConverge(env: Env, f: Faults, w: World, ing: Ingress, o: Orders, o': Orders, l: Listing,
                                  l': Listing, tries: seq<MeshAttempt>)
    requires NoFaults(f) && FairListing(l) && FairListing(l') && FairMeshAttempts(tries)
    requires MeshOnlyPass(env, f, w, ing, o, l).outcome == Done
    ensures var last := MeshOnlyPass(env, f, MeshAttempts(env, w, ing, tries), ing, o', l');
            last.outcome == Done && last.world.objects == MeshOnlyPass(env, f, w, ing, o, l).world.objects
  {
    var start := MeshAttempts(env, w, ing, tries);
    var goal := MeshOnlyPass(env, f, start, ing, o', l').world.objects;
    MeshSuccessReachesGoal(env, f, w, ing, o, l);
    MeshAttemptsKeepGoal(env, w, ing, tries, goal);
    OwnableMeansFree(start.objects, ing, MakeVirtualServices(env.lib, ing, NoGateways()).value);
    MeshOnlySucceedsExactly(env, f, start, ing, o', l');
    MeshSuccessReachesGoal(env, f, start, ing, o', l');
    MeshGoalUnique(env, w.objects, ing, goal, MeshOnlyPass(env, f, w, ing, o, l).world.objects);
  }

  // ---------------------------------------------------------------- passes over a stale cache

  /** A pass without refusals over a cache from its start fails exactly when an obsolete service carries both labels,
      and leaves none that does. */
  lemma StaleMeshPassExactly(env: Env, f: Faults, w: World, ing: Ingress, o: Orders, l: Listing)
    requires NoFaults(f) && FairListing(l) && MeshReady(env, w.objects, ing)
    ensures var one := MeshOnlyPassSeeing(env, f, w, ing, o, l, Snapshot(w.objects));
            var kept := NamesOf(MeshWants(env, ing).value);
            && (one.outcome == Done <==> BothLabelled(w.objects, ing, kept) == {})
            && BothLabelled(one.world.objects, ing, kept) == {}
            && (one.outcome == Done ==> MeshGoal(env, w.objects, ing, one.world.objects))
  {
    MeshOnlyByParts(env, f, w, ing, o, l, Snapshot(w.objects));
    var vses, wants := MakeVirtualServices(env.lib, ing, NoGateways()).value, MeshWants(env, ing).value;
    var a := StalePass(f, w, ing, vses, o.routeFirst);
    FirstPassFailsExactly(f, w, ing, vses, o.routeFirst);
    StalePassProgress(f, w, ing, vses, o.routeFirst);
    if a.outcome == Done {
      TidyUpSucceeds(f, a.world, ing, l);
      TidyUpDone(f, a.world, ing, l);
      ConvergedThenTidy(env, w.objects, ing, a.world.objects);
      BothLabelledFewer(a.world.objects, ing, NamesOf(wants),
                        OwnGateways(a.world.objects, ing) + CurrentCopies(a.world.objects, ing));
    }
  }

  lemma BothLabelledFewer(objects: Objects, ing: Ingress, kept: set<string>, gone: set<Ref>)
    ensures BothLabelled(objects - gone, ing, kept) <= BothLabelled(objects, ing, kept)
  {
  }

  /** Two passes over caches that are refreshed only between them, after any number of refused ones: the second
      succeeds, and the table is the one that a live pass would have given at once. */
  lemma TwoStaleMeshPassesConverge(env: Env, f: Faults, w: World, ing: Ingress, o: Orders, first: Orders,
                                   second: Orders, l: Listing, l': Listing, tries: seq<MeshAttempt>)
    requires NoFaults(f) && FairListing(l) && FairListing(l') && FairMeshAttempts(tries)
    requires MeshOnlyPass(env, f, w, ing, o, l).outcome == Done
    ensures var start := MeshAttempts(env, w, ing, tries);
            var one := MeshOnlyPassSeeing(env, f, start, ing, first, l', Snapshot(start.objects)).world;
            var two := MeshOnlyPassSeeing(env, f, one, ing, second, l', Snapshot(one.objects));
            two.outcome == Done && two.world.objects == MeshOnlyPass(env, f, w, ing, o, l).world.objects
  {
    var start := MeshAttempts(env, w, ing, tries);
    var one := MeshOnlyPassSeeing(env, f, start, ing, first, l', Snapshot(start.objects)).world;
    var end := MeshOnlyPassSeeing(env, f, one, ing, second, l', Snapshot(one.objects)).world.objects;
    MeshSuccessReachesGoal(env, f, w, ing, o, l);
    MeshAttemptsKeepGoal(env, w, ing, tries, end);
    MeshAttemptKeepsGoal(env, f, start, ing, first, l', true, end);
    StaleMeshPassExactly(env, f, start, ing, first, l');
    StaleMeshPassExactly(env, f, one, ing, second, l');
    MeshGoalUnique(env, w.objects, ing, end, MeshOnlyPass(env, f, w, ing, o, l).world.objects);
  }

  // ---------------------------------------------------------------- switching modes over a stale cache

  /** The gateway service that a successful pass leaves, with the labels it was made with. */
  lemma GatewayServiceLeft(env: Env, f: Faults, w: World, ing: Ingress, o: Orders) returns (spec: VirtualServiceSpec)
    requires Fair(o) && GatewayPass(env, f, w, ing, o).outcome == Done
    requires Get(ing.annotations, CLASS_ANNOTATION) == ISTIO_CLASS
    requires RequiredGatewayCount(ing, RoutedOn(env, f, w, ing, o)) > 0
    ensures var v := ServiceObject(env.lib, ing, IngressName(env.lib, ing), spec);
            var after := GatewayPass(env, f, w, ing, o).world.objects;
            v.ref in after && after[v.ref].labels == v.obj.labels && ControlledBy(after[v.ref], ing.uid)
  {
    var gateways := RoutedOn(env, f, w, ing, o);
    var mid := PassEndsInServices(env, f, w, ing, o);
    ServicesMade(env.lib, ing, gateways);
    spec := CompiledFor(env.lib, ing, gateways, GatewayHosts(env.lib, ing));
    IstioWantsFit(env.lib, ing, gateways);
    LivePassResult(f, mid, ing, MakeVirtualServices(env.lib, ing, gateways).value, o.routeFirst);
    assert IsIstioClass(ServiceObject(env.lib, ing, IngressName(env.lib, ing), spec));
  }

  /** Nothing that is wanted in mesh-only mode has the name of the gateway service. */
  lemma GatewayServiceUnwanted(env: Env, ing: Ingress)
    requires MeshWants(env, ing).Some?
    ensures IngressName(env.lib, ing) !in NamesOf(MeshWants(env, ing).value)
  {
    ServicesMade(env.lib, ing, NoGateways());
    ServiceNamesDiffer(env.lib, ing);
    assert RequiredGatewayCount(ing, NoGateways()) == 0;
  }

  /** An Ingress with a route label and a gateway service: over a stale cache the first pass after the switch to
      mesh-only always fails, for both selectors find that service. By TwoStaleMeshPassesConverge the second does
      not. */
  lemma LabelledSwitchFailsFirst(env: Env, f: Faults, w: World, ing: Ingress, o: Orders, o': Orders, l: Listing)
    requires NoFaults(f) && Fair(o) && FairListing(l) && GatewayPass(env, f, w, ing, o).outcome == Done
    requires Get(ing.annotations, CLASS_ANNOTATION) == ISTIO_CLASS
    requires RequiredGatewayCount(ing, RoutedOn(env, f, w, ing, o)) > 0
    requires ROUTE_LABEL in ing.labels
    ensures var mid := GatewayPass(env, f, w, ing, o).world;
            MeshOnlyPassSeeing(env, f, mid, ing, o', l, Snapshot(mid.objects)).outcome != Done
  {
    var mid := GatewayPass(env, f, w, ing, o).world;
    var spec := GatewayServiceLeft(env, f, w, ing, o);
    if MakeVirtualServices(env.lib, ing, NoGateways()).Some? {
      SwitchFails(env, f, mid, ing, o', l, spec);
    }
  }

  lemma SwitchFails(env: Env, f: Faults, w: World, ing: Ingress, o: Orders, l: Listing, spec: VirtualServiceSpec)
    requires NoFaults(f) && FairListing(l) && ROUTE_LABEL in ing.labels
    requires MakeVirtualServices(env.lib, ing, NoGateways()).Some?
    requires var v := ServiceObject(env.lib, ing, IngressName(env.lib, ing), spec);
             v.ref in w.objects && w.objects[v.ref].labels == v.obj.labels && ControlledBy(w.objects[v.ref], ing.uid)
    ensures MeshOnlyPassSeeing(env, f, w, ing, o, l, Snapshot(w.objects)).outcome != Done
  {
    MeshOnlyByParts(env, f, w, ing, o, l, Snapshot(w.objects));
    var vses := MakeVirtualServices(env.lib, ing, NoGateways()).value;
    IstioWantsFit(env.lib, ing, NoGateways());
    GatewayServiceUnwanted(env, ing);
    if StalePass(f, w, ing, vses, o.routeFirst).outcome == Done {
      StaleDoneMeansOwned(f, w, w.objects, ing.uid, IstioWants(vses));
      LeftoverServiceFails(env.lib, f, w, ing, IngressName(env.lib, ing), spec, vses, o.routeFirst);
    }
  }
}
