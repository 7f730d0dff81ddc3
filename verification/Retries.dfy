/** Whole reconciliations that are refused and tried again, or read a stale VirtualService cache: they end in the
    same table. */
module Retries {
  import opened Convergence
  import opened Fixpoint
  import opened IngressPass
  import opened Secrets
  import opened ServiceObjects
  import opened Store
  import opened Success
  import opened Types
  import opened VirtualServicePass

  // --------------------------------------------------------- a cache matters only for what it shows of VirtualServices

  lemma {:induction false} SameCreates(f: Faults, w: World, a: Objects, b: Objects, owner: Option<string>,
                                       wants: seq<Want>)
    requires forall v :: v in wants ==> SameAt(a, b, v.ref)
    ensures ReconcileAll(f, w, Snapshot(a), owner, wants) == ReconcileAll(f, w, Snapshot(b), owner, wants)
    decreases |wants|
  {
    if wants != [] {
      assert wants[0] in wants;
      SameCreates(f, Reconcile(f, w, Snapshot(a), owner, wants[0]).world, a, b, owner, wants[1..]);
    }
  }

  lemma {:induction false} SameRemovals(f: Faults, w: World, a: Objects, b: Objects, refs: seq<Ref>, kept: set<string>,
                                        uid: string)
    requires forall r :: r in refs ==> SameAt(a, b, r)
    ensures RemoveObsolete(f, w, a, refs, kept, uid) == RemoveObsolete(f, w, b, refs, kept, uid)
    decreases |refs|
  {
    if refs != [] {
      assert refs[0] in refs;
      var next := if Removable(a, refs[0], kept, uid) then Delete(f, w, refs[0]).world else w;
      SameRemovals(f, next, a, b, refs[1..], kept, uid);
    }
  }

  lemma SameSelector(f: Faults, w: World, a: Objects, b: Objects, ing: Ingress, kept: set<string>, route: bool)
    requires SameKind(a, b, VirtualServiceKind)
    ensures SelectorPass(f, w, Snapshot(a), ing, kept, route) == SelectorPass(f, w, Snapshot(b), ing, kept, route)
  {
    forall r ensures r in Listed(a, ing, route) <==> r in Listed(b, ing, route) {
      assert r.kind == VirtualServiceKind ==> SameAt(a, b, r);
    }
    assert Listed(a, ing, route) == Listed(b, ing, route);
    SameRemovals(f, w, a, b, SortedRefs(Listed(a, ing, route)), kept, ing.uid);
  }

  lemma SamePassSeen(f: Faults, w: World, a: Objects, b: Objects, ing: Ingress, desired: seq<Want>, routeFirst: bool)
    requires SameKind(a, b, VirtualServiceKind) && AllOfKind(IstioWants(desired), VirtualServiceKind)
    ensures Pass(f, w, Snapshot(a), ing, desired, routeFirst) == Pass(f, w, Snapshot(b), ing, desired, routeFirst)
  {
    var wants := IstioWants(desired);
    SameCreates(f, w, a, b, Some(ing.uid), wants);
    var s := ReconcileAll(f, w, Snapshot(a), Some(ing.uid), wants).world;
    SameSelector(f, s, a, b, ing, NamesOf(wants), routeFirst);
    SameSelector(f, SelectorPass(f, s, Snapshot(a), ing, NamesOf(wants), routeFirst).world, a, b, ing,
                 NamesOf(wants), !routeFirst);
  }

  // ---------------------------------------------------------------- putting a list in place, in part

  lemma PartwayCompatible(before: Objects, first: Want, rest: seq<Want>, after: Objects)
    requires Compatible(before, [first] + rest) && Partway(before[first.ref := Put(before, first)], rest, after)
    ensures Partway(before, [first] + rest, after)
  {
    var mid, all := before[first.ref := Put(before, first)], [first] + rest;
    PutIsStable(before, first);
    CompatibleAfter(before, first, rest);
    assert forall v :: v in all <==> v == first || v in rest;
    forall r | !Wanted(all, r) ensures SameAt(before, after, r) {
      assert first in all && !Wanted(rest, r);
      assert SameAt(mid, after, r);
    }
    forall v | v in all ensures SameAt(before, after, v.ref) || (v.ref in after && after[v.ref] == Put(before, v)) {
      if v in rest {
        assert v.ref == first.ref ==> Put(before, v) == Put(before, first);
        assert SameAt(mid, after, v.ref) || after[v.ref] == Put(mid, v);
      } else {
        assert !Wanted(rest, v.ref) ==> SameAt(mid, after, v.ref);
        assert forall u :: u in rest && u.ref == v.ref ==> Put(before, u) == Put(before, v);
      }
    }
  }

  /** However far a list gets, whatever is refused. */
  lemma {:induction false} ListPartway(f: Faults, w: World, wants: seq<Want>)
    requires Compatible(w.objects, wants)
    ensures Partway(w.objects, wants, ReconcileAll(f, w, Live, None, wants).world.objects)
    decreases |wants|
  {
    if wants != [] {
      var first, rest := wants[0], wants[1..];
      assert wants == [first] + rest;
      var s := Reconcile(f, w, Live, None, first);
      if s.outcome == Done {
        StepAchieves(f, w, None, first);
        CompatibleAfter(w.objects, first, rest);
        ListPartway(f, s.world, rest);
        PartwayCompatible(w.objects, first, rest, ReconcileAll(f, s.world, Live, None, rest).world.objects);
      }
    }
  }

  lemma PutAllPartway(before: Objects, wants: seq<Want>, mid: Objects)
    requires Compatible(before, wants) && Partway(before, wants, mid)
    ensures Compatible(mid, wants) && PutAll(mid, wants) == PutAll(before, wants)
  {
    var after := PutAll(mid, wants);
    forall v | v in wants ensures Put(mid, v) == Put(before, v) {
      PutIsStable(before, v);
    }
    PutAllAchieves(mid, wants);
    PutAllAchieves(before, wants);
    forall v | v in wants ensures after[v.ref] == Put(before, v) {
      PutIsStable(before, v);
    }
    forall r | !Wanted(wants, r) ensures (r in after <==> r in before) && (r in after ==> after[r] == before[r]) {
      assert SameAt(before, mid, r);
    }
    AchievedUnique(before, wants, after, PutAll(before, wants));
  }

  lemma {:induction false} SatisfiedPutsNothing(objects: Objects, wants: seq<Want>)
    requires Satisfied(objects, None, wants)
    ensures PutAll(objects, wants) == objects
    decreases |wants|
  {
    if wants != [] {
      assert wants[0] in wants;
      MergeSettles(objects[wants[0].ref], wants[0].obj);
      assert objects[wants[0].ref := Put(objects, wants[0])] == objects;
      SatisfiedPutsNothing(objects, wants[1..]);
    }
  }

  lemma SatisfiedCompatible(objects: Objects, wants: seq<Want>)
    requires Satisfied(objects, None, wants)
    ensures Compatible(objects, wants)
  {
    forall v | v in wants ensures Put(objects, v) == objects[v.ref] {
      MergeSettles(objects[v.ref], v.obj);
    }
  }

  // ---------------------------------------------------------------- the table that a pass is for

  /** Generated objects of one key do the same to the table, and no copy lies where an origin is. */
  ghost predicate NothingContested(env: Env, objects: Objects, ing: Ingress, o: Orders)
    requires Fair(o)
  {
    var plan := PlanPass(env, objects, ing, o);
    plan.Some? ==> Compatible(objects, plan.value.Unowned()) && ClearOfOrigins(plan.value.Unowned(), ing)
  }

  /** The services that a plan leads to. */
  function ServicesOf(env: Env, ing: Ingress, plan: PassPlan): Option<seq<Want>> {
    match MakeVirtualServices(env.lib, ing, plan.names)
    case None => None
    case Some(vses) => Some(IstioWants(vses))
  }

  /** A pass can be planned, contests nothing, and the keys of its services are free. */
  ghost predicate Ready(env: Env, objects: Objects, ing: Ingress, o: Orders)
    requires Fair(o)
  {
    var plan := PlanPass(env, objects, ing, o);
    && plan.Some? && Compatible(objects, plan.value.Unowned()) && ClearOfOrigins(plan.value.Unowned(), ing)
    && ServicesOf(env, ing, plan.value).Some? && Settleable(objects, ing, ServicesOf(env, ing, plan.value).value)
  }

  /** Secrets and Gateways in place, and then the services converged. */
  ghost predicate Goal(env: Env, before: Objects, ing: Ingress, o: Orders, after: Objects)
    requires Fair(o)
  {
    var plan := PlanPass(env, before, ing, o);
    && plan.Some? && ServicesOf(env, ing, plan.value).Some?
    && Converged(PutAll(before, plan.value.Unowned()), ing, ServicesOf(env, ing, plan.value).value, after)
  }

  lemma GoalUnique(env: Env, before: Objects, ing: Ingress, o: Orders, a: Objects, b: Objects)
    requires Fair(o) && Goal(env, before, ing, o, a) && Goal(env, before, ing, o, b)
    ensures a == b
  {
    var plan := PlanPass(env, before, ing, o).value;
    ConvergedUnique(PutAll(before, plan.Unowned()), ing, ServicesOf(env, ing, plan).value, a, b);
  }

  lemma SameSettleable(a: Objects, b: Objects, ing: Ingress, wants: seq<Want>)
    requires SameKind(a, b, VirtualServiceKind) && Settleable(a, ing, wants)
    ensures Settleable(b, ing, wants)
  {
    assert forall v :: v in wants ==> SameAt(a, b, v.ref);
  }

  /** A live pass that ends without failure reaches the goal, and could be made ready for. */
  lemma SuccessReachesGoal(env: Env, f: Faults, w: World, ing: Ingress, o: Orders)
    requires Fair(o) && GatewayPass(env, f, w, ing, o).outcome == Done
    ensures Goal(env, w.objects, ing, o, GatewayPass(env, f, w, ing, o).world.objects)
    ensures NothingContested(env, w.objects, ing, o) ==> Ready(env, w.objects, ing, o)
  {
    SuccessfulPassParts(env, f, w, ing, o);
    UnownedKinds(env, w.objects, ing, o);
    var plan := PlanPass(env, w.objects, ing, o).value;
    var mid := ReconcileAll(f, w, Live, None, plan.Unowned()).world;
    OthersUntouched(f, w, plan.Unowned(), VirtualServiceKind);
    ServicesReachGoal(env, f, mid, ing, plan, o.routeFirst);
    SameSettleable(mid.objects, w.objects, ing, ServicesOf(env, ing, plan).value);
  }

  lemma ServicesReachGoal(env: Env, f: Faults, w: World, ing: Ingress, plan: PassPlan, routeFirst: bool)
    requires MakeVirtualServices(env.lib, ing, plan.names).Some?
    requires Pass(f, w, Live, ing, MakeVirtualServices(env.lib, ing, plan.names).value, routeFirst).outcome == Done
    ensures var wants := ServicesOf(env, ing, plan).value;
            && Converged(w.objects, ing, wants,
                         Pass(f, w, Live, ing, MakeVirtualServices(env.lib, ing, plan.names).value,
                              routeFirst).world.objects)
            && Settleable(w.objects, ing, wants)
  {
    var vses := MakeVirtualServices(env.lib, ing, plan.names).value;
    IstioWantsFit(env.lib, ing, plan.names);
    LivePassConverges(f, w, ing, vses, routeFirst);
    DoneMeansOwned(f, w, ing.uid, IstioWants(vses));
  }

  // ---------------------------------------------------------------- one pass keeps the goal

  /** Tables that agree on the origins have the same plan, and the same is contested. */
  lemma PlanAfter(env: Env, w: Objects, next: Objects, ing: Ingress, o: Orders, o': Orders)
    requires Fair(o) && Fair(o') && Ready(env, w, ing, o) && SameOrigins(w, next, ing)
    ensures PlanPass(env, next, ing, o').Some?
    ensures var plan, plan' := PlanPass(env, w, ing, o).value, PlanPass(env, next, ing, o').value;
            && SameMembers(plan.Unowned(), plan'.Unowned()) && plan.names == plan'.names
            && ClearOfOrigins(plan'.Unowned(), ing)
            && forall objects :: Compatible(objects, plan.Unowned()) ==>
                 Compatible(objects, plan'.Unowned())
                 && PutAll(objects, plan'.Unowned()) == PutAll(objects, plan.Unowned())
  {
    SamePlan(env, w, next, ing, o, o');
    var plan, plan' := PlanPass(env, w, ing, o).value, PlanPass(env, next, ing, o').value;
    ClearMembers(plan.Unowned(), plan'.Unowned(), ing);
    forall objects | Compatible(objects, plan.Unowned())
      ensures Compatible(objects, plan'.Unowned())
      ensures PutAll(objects, plan'.Unowned()) == PutAll(objects, plan.Unowned())
    {
      PutAllSame(objects, plan.Unowned(), plan'.Unowned());
    }
  }

  /** What is left to do does not change while only secrets and Gateways are put in place. */
  lemma PartwayKeepsGoal(env: Env, w: Objects, next: Objects, ing: Ingress, o: Orders, goal: Objects)
    requires Fair(o) && Ready(env, w, ing, o) && SameOrigins(w, next, ing) && SameKind(w, next, VirtualServiceKind)
    requires Partway(w, PlanPass(env, w, ing, o).value.Unowned(), next)
    ensures Ready(env, next, ing, o)
    ensures Goal(env, next, ing, o, goal) <==> Goal(env, w, ing, o, goal)
  {
    var plan := PlanPass(env, w, ing, o).value;
    PlanAfter(env, w, next, ing, o, o);
    PutAllPartway(w, plan.Unowned(), next);
    SameSettleable(w, next, ing, ServicesOf(env, ing, plan).value);
  }

  /** The same list in another order of maps gets partway as well. */
  lemma PartwaySame(before: Objects, a: seq<Want>, b: seq<Want>, mid: Objects)
    requires SameMembers(a, b) && Partway(before, b, mid)
    ensures Partway(before, a, mid)
  {
    assert forall r :: Wanted(a, r) <==> Wanted(b, r);
  }

  /** The services of a pass touch nothing else, whatever is refused. */
  lemma ServicesKeepOthers(f: Faults, w: World, l: Lister, ing: Ingress, desired: seq<Want>, routeFirst: bool,
                           kind: Kind)
    requires View(l, w) == w.objects && Settleable(w.objects, ing, IstioWants(desired)) && kind != VirtualServiceKind
    ensures SameKind(w.objects, Pass(f, w, l, ing, desired, routeFirst).world.objects, kind)
  {
    var wants := IstioWants(desired);
    var mid, gone := RefusedPassEffect(f, w, l, ing, desired, routeFirst);
    forall r: Ref | r.kind == kind ensures SameAt(w.objects, mid - gone, r) {
      assert !Wanted(wants, r) && r !in Obsolete(w.objects, ing, NamesOf(wants));
      assert SameAt(w.objects, mid, r);
    }
  }

  /** Nor does it while the services are worked on, once the rest is in place. */
  lemma ServicesKeepGoal(env: Env, w: Objects, next: Objects, ing: Ingress, o: Orders, goal: Objects)
    requires Fair(o) && Ready(env, w, ing, o) && Satisfied(w, None, PlanPass(env, w, ing, o).value.Unowned())
    requires SameKind(w, next, SecretKind) && SameKind(w, next, GatewayKind)
    requires var wants := ServicesOf(env, ing, PlanPass(env, w, ing, o).value).value;
             Settleable(next, ing, wants) && (Converged(next, ing, wants, goal) ==> Converged(w, ing, wants, goal))
    ensures Ready(env, next, ing, o)
    ensures Goal(env, next, ing, o, goal) ==> Goal(env, w, ing, o, goal)
  {
    var plan := PlanPass(env, w, ing, o).value;
    OriginsOfSameKind(w, next, ing);
    PlanAfter(env, w, next, ing, o, o);
    UnownedKinds(env, w, ing, o);
    SatisfiedSameKinds(w, next, plan.Unowned());
    SatisfiedCompatible(next, plan.Unowned());
    SatisfiedPutsNothing(w, plan.Unowned());
    SatisfiedPutsNothing(next, plan.Unowned());
  }

  /** In the next table the same goal is still to be reached, and can be. */
  ghost predicate Kept(env: Env, w: Objects, next: Objects, ing: Ingress, o: Orders, goal: Objects)
    requires Fair(o)
  {
    Ready(env, next, ing, o) && SameOrigins(w, next, ing)
    && (Goal(env, next, ing, o, goal) ==> Goal(env, w, ing, o, goal))
  }

  lemma KeptTransitive(env: Env, a: Objects, b: Objects, c: Objects, ing: Ingress, o: Orders, goal: Objects)
    requires Fair(o) && Kept(env, a, b, ing, o, goal) && Kept(env, b, c, ing, o, goal)
    ensures Kept(env, a, c, ing, o, goal)
  {
  }

  /** A pass that can be planned, by parts: the list, and from there the services. */
  lemma ListKeepsGoal(env: Env, f: Faults, w: World, ing: Ingress, o: Orders, o': Orders, goal: Objects)
    requires Fair(o) && Fair(o') && Ready(env, w.objects, ing, o)
    ensures PlanPass(env, w.objects, ing, o').Some?
    ensures var s := ReconcileAll(f, w, Live, None, PlanPass(env, w.objects, ing, o').value.Unowned());
            && Kept(env, w.objects, s.world.objects, ing, o, goal)
            && SameKind(w.objects, s.world.objects, VirtualServiceKind)
            && (s.outcome == Done ==>
                  Satisfied(s.world.objects, None, PlanPass(env, s.world.objects, ing, o).value.Unowned()))
  {
    PlanAfter(env, w.objects, w.objects, ing, o, o');
    var plan, plan' := PlanPass(env, w.objects, ing, o).value, PlanPass(env, w.objects, ing, o').value;
    var s := ReconcileAll(f, w, Live, None, plan'.Unowned());
    UnownedKinds(env, w.objects, ing, o');
    ListPartway(f, w, plan'.Unowned());
    PartwaySame(w.objects, plan.Unowned(), plan'.Unowned(), s.world.objects);
    OthersUntouched(f, w, plan'.Unowned(), VirtualServiceKind);
    OriginsUntouched(f, w, plan'.Unowned(), ing);
    PartwayKeepsGoal(env, w.objects, s.world.objects, ing, o, goal);
    if s.outcome == Done {
      DoneMeansPut(f, w, None, plan'.Unowned());
      PutAllSatisfiesAny(w.objects, plan'.Unowned());
      PlanAfter(env, w.objects, s.world.objects, ing, o, o);
      SatisfiedSameMembers(s.world.objects, plan'.Unowned(), PlanPass(env, s.world.objects, ing, o).value.Unowned());
    }
  }

  lemma PutAllSatisfiesAny(objects: Objects, wants: seq<Want>)
    requires Compatible(objects, wants)
    ensures Satisfied(PutAll(objects, wants), None, wants)
  {
    PutAllAchieves(objects, wants);
    forall v | v in wants ensures !Differs(Put(objects, v), v.obj) {
      MergeSettles(v.obj, v.obj);
      if v.ref in objects { MergeSettles(objects[v.ref], v.obj); }
    }
  }

  lemma ServiceWantsFit(env: Env, ing: Ingress, plan: PassPlan)
    requires ServicesOf(env, ing, plan).Some?
    ensures AllOfKind(ServicesOf(env, ing, plan).value, VirtualServiceKind)
  {
    IstioWantsFit(env.lib, ing, plan.names);
  }

  /** A cache from the start of the pass shows the VirtualServices as they are when their turn comes. */
  lemma SameServicePass(f: Faults, w: World, start: World, stale: bool, ing: Ingress, desired: seq<Want>,
                        routeFirst: bool)
    requires SameKind(start.objects, w.objects, VirtualServiceKind)
    requires AllOfKind(IstioWants(desired), VirtualServiceKind)
    ensures Pass(f, w, CacheOf(start, stale), ing, desired, routeFirst) ==
            Pass(f, w, CacheOf(w, stale), ing, desired, routeFirst)
  {
    if stale {
      SamePassSeen(f, w, start.objects, w.objects, ing, desired, routeFirst);
    }
  }

  lemma ServicePassKeepsGoal(env: Env, f: Faults, w: World, ing: Ingress, o: Orders, vses: seq<Want>, l: Lister,
                             routeFirst: bool, goal: Objects)
    requires Fair(o) && Ready(env, w.objects, ing, o) && View(l, w) == w.objects
    requires Satisfied(w.objects, None, PlanPass(env, w.objects, ing, o).value.Unowned())
    requires MakeVirtualServices(env.lib, ing, PlanPass(env, w.objects, ing, o).value.names) == Some(vses)
    ensures var next := Pass(f, w, l, ing, vses, routeFirst).world.objects;
            Kept(env, w.objects, next, ing, o, goal)
  {
    RefusedPassKeepsGoal(f, w, l, ing, vses, routeFirst, goal);
    ServicesKeepOthers(f, w, l, ing, vses, routeFirst, SecretKind);
    ServicesKeepOthers(f, w, l, ing, vses, routeFirst, GatewayKind);
    OriginsOfSameKind(w.objects, Pass(f, w, l, ing, vses, routeFirst).world.objects, ing);
    ServicesKeepGoal(env, w.objects, Pass(f, w, l, ing, vses, routeFirst).world.objects, ing, o, goal);
  }

  /** From a table in which the list is in place. */
  lemma ServicesFromList(env: Env, f: Faults, start: World, w: World, ing: Ingress, o: Orders, vses: seq<Want>,
                         stale: bool, routeFirst: bool, goal: Objects)
    requires Fair(o) && Ready(env, w.objects, ing, o) && SameKind(start.objects, w.objects, VirtualServiceKind)
    requires Satisfied(w.objects, None, PlanPass(env, w.objects, ing, o).value.Unowned())
    requires MakeVirtualServices(env.lib, ing, PlanPass(env, w.objects, ing, o).value.names) == Some(vses)
    ensures var next := Pass(f, w, CacheOf(start, stale), ing, vses, routeFirst).world.objects;
            Kept(env, w.objects, next, ing, o, goal)
  {
    ServiceWantsFit(env, ing, PlanPass(env, w.objects, ing, o).value);
    SameServicePass(f, w, start, stale, ing, vses, routeFirst);
    ServicePassKeepsGoal(env, f, w, ing, o, vses, CacheOf(w, stale), routeFirst, goal);
  }

  lemma FollowKeepsGoal(env: Env, f: Faults, w: World, ing: Ingress, o: Orders, o': Orders, stale: bool, goal: Objects)
    requires Fair(o) && Fair(o') && Ready(env, w.objects, ing, o)
    ensures PlanPass(env, w.objects, ing, o').Some?
    ensures var plan := PlanPass(env, w.objects, ing, o').value;
            var next := Follow(env, f, w, ing, plan, CacheOf(w, stale), o'.routeFirst).world.objects;
            Kept(env, w.objects, next, ing, o, goal)
  {
    ListKeepsGoal(env, f, w, ing, o, o', goal);
    var plan := PlanPass(env, w.objects, ing, o').value;
    var s := ReconcileAll(f, w, Live, None, plan.Unowned());
    SameNames(env, w.objects, s.world.objects, ing, o, o');
    if s.outcome == Done {
      var vses := MakeVirtualServices(env.lib, ing, plan.names).value;
      ServicesFromList(env, f, w, s.world, ing, o, vses, stale, o'.routeFirst, goal);
      KeptTransitive(env, w.objects, s.world.objects,
                     Pass(f, s.world, CacheOf(w, stale), ing, vses, o'.routeFirst).world.objects,
                     ing, o, goal);
    }
  }

  lemma SameNames(env: Env, w: Objects, next: Objects, ing: Ingress, o: Orders, o': Orders)
    requires Fair(o) && Fair(o') && Ready(env, w, ing, o) && SameOrigins(w, next, ing)
    ensures PlanPass(env, w, ing, o').Some? && PlanPass(env, next, ing, o).Some?
    ensures PlanPass(env, w, ing, o').value.names == PlanPass(env, next, ing, o).value.names
    ensures MakeVirtualServices(env.lib, ing, PlanPass(env, w, ing, o').value.names).Some?
  {
    PlanAfter(env, w, w, ing, o, o');
    PlanAfter(env, w, next, ing, o, o);
  }

  /** Whatever is refused, and with a cache that is up to date or was when the pass began: a pass keeps the goal and
      the way to it. */
  lemma AttemptKeepsGoal(env: Env, f: Faults, w: World, ing: Ingress, o: Orders, o': Orders, stale: bool, goal: Objects)
    requires Fair(o) && Fair(o') && Ready(env, w.objects, ing, o)
    ensures var next := GatewayPassSeeing(env, f, w, ing, o', CacheOf(w, stale)).world.objects;
            Kept(env, w.objects, next, ing, o, goal)
  {
    FollowKeepsGoal(env, f, w, ing, o, o', stale, goal);
    PassFollowsPlan(env, f, w, ing, o', CacheOf(w, stale));
  }

  // ---------------------------------------------------------------- any number of passes

  /** A pass with its own refusals, its own orders of maps, and a VirtualService cache that is up to date or was when
      it began. */
  datatype Attempt = Attempt(refuses: Faults, orders: Orders, stale: bool)

  ghost predicate FairAttempts(tries: seq<Attempt>) {
    forall a :: a in tries ==> Fair(a.orders)
  }

  ghost function Attempts(env: Env, w: World, ing: Ingress, tries: seq<Attempt>): World
    requires FairAttempts(tries)
    decreases |tries|
  {
    if tries == [] then w else
      assert tries[0] in tries;
      var a := tries[0];
      Attempts(env, GatewayPassSeeing(env, a.refuses, w, ing, a.orders, CacheOf(w, a.stale)).world, ing, tries[1..])
  }

  lemma {:induction false} AttemptsKeepGoal(env: Env, w: World, ing: Ingress, o: Orders, tries: seq<Attempt>,
                                            goal: Objects)
    requires Fair(o) && FairAttempts(tries) && Ready(env, w.objects, ing, o)
    ensures Kept(env, w.objects, Attempts(env, w, ing, tries).objects, ing, o, goal)
    decreases |tries|
  {
    if tries != [] {
      var a := tries[0];
      assert a in tries;
      var next := GatewayPassSeeing(env, a.refuses, w, ing, a.orders, CacheOf(w, a.stale)).world;
      AttemptKeepsGoal(env, a.refuses, w, ing, o, a.orders, a.stale, goal);
      AttemptsKeepGoal(env, next, ing, o, tries[1..], goal);
      KeptTransitive(env, w.objects, next.objects, Attempts(env, next, ing, tries[1..]).objects, ing, o, goal);
    }
  }

  /** In another order of maps the goal is the same, and so is being ready for it. */
  lemma SameGoal(env: Env, w: Objects, ing: Ingress, o: Orders, o': Orders, goal: Objects)
    requires Fair(o) && Fair(o') && Ready(env, w, ing, o)
    ensures Ready(env, w, ing, o') && (Goal(env, w, ing, o', goal) <==> Goal(env, w, ing, o, goal))
  {
    PlanAfter(env, w, w, ing, o, o');
  }

  lemma OwnableMeansFree(objects: Objects, ing: Ingress, vses: seq<Want>)
    requires Ownable(objects, Some(ing.uid), IstioWants(vses))
    ensures NoneForeign(objects, ing, vses)
  {
  }

  /** Without refusals a live pass that is ready ends in the goal. */
  lemma ReadyPassReachesGoal(env: Env, f: Faults, w: World, ing: Ingress, o: Orders)
    requires NoFaults(f) && Fair(o) && Ready(env, w.objects, ing, o)
    ensures GatewayPass(env, f, w, ing, o).outcome == Done
    ensures Goal(env, w.objects, ing, o, GatewayPass(env, f, w, ing, o).world.objects)
  {
    var plan := PlanPass(env, w.objects, ing, o).value;
    OwnableMeansFree(w.objects, ing, MakeVirtualServices(env.lib, ing, plan.names).value);
    GatewayPassSucceedsExactly(env, f, w, ing, o);
    SuccessReachesGoal(env, f, w, ing, o);
  }

  /** Any number of passes stopped by refusals, over any caches, and then one that meets none: it succeeds, and the
      table is the one that a pass without refusals would have given at once. */
  lemma RetriedPassesConverge(env: Env, f: Faults, w: World, ing: Ingress, o: Orders, o': Orders, tries: seq<Attempt>)
    requires NoFaults(f) && Fair(o) && Fair(o') && FairAttempts(tries)
    requires NothingContested(env, w.objects, ing, o) && GatewayPass(env, f, w, ing, o).outcome == Done
    ensures var last := GatewayPass(env, f, Attempts(env, w, ing, tries), ing, o');
            last.outcome == Done && last.world.objects == GatewayPass(env, f, w, ing, o).world.objects
  {
    var start := Attempts(env, w, ing, tries);
    SuccessReachesGoal(env, f, w, ing, o);
    var goal := GatewayPass(env, f, start, ing, o').world.objects;
    AttemptsKeepGoal(env, w, ing, o, tries, goal);
    SameGoal(env, start.objects, ing, o, o', goal);
    ReadyPassReachesGoal(env, f, start, ing, o');
    GoalUnique(env, w.objects, ing, o, goal, GatewayPass(env, f, w, ing, o).world.objects);
  }

  // ---------------------------------------------------------------- passes over a stale cache

  lemma SameBothLabelled(a: Objects, b: Objects, ing: Ingress, kept: set<string>)
    requires SameKind(a, b, VirtualServiceKind)
    ensures BothLabelled(a, ing, kept) == BothLabelled(b, ing, kept)
  {
    forall r ensures r in BothLabelled(a, ing, kept) <==> r in BothLabelled(b, ing, kept) {
      assert r.kind == VirtualServiceKind ==> SameAt(a, b, r);
    }
  }

  /** What a pass without refusals over a cache from its start does: it fails exactly when an obsolete service
      carries both labels, and leaves none that does. */
  lemma StalePassExactly(env: Env, f: Faults, w: World, ing: Ingress, o: Orders)
    requires NoFaults(f) && Fair(o) && Ready(env, w.objects, ing, o)
    ensures var one := GatewayPassSeeing(env, f, w, ing, o, Snapshot(w.objects));
            var kept := NamesOf(ServicesOf(env, ing, PlanPass(env, w.objects, ing, o).value).value);
            && (one.outcome == Done <==> BothLabelled(w.objects, ing, kept) == {})
            && BothLabelled(one.world.objects, ing, kept) == {}
            && (one.outcome == Done ==> Goal(env, w.objects, ing, o, one.world.objects))
  {
    var plan := PlanPass(env, w.objects, ing, o).value;
    PassFollowsPlan(env, f, w, ing, o, Snapshot(w.objects));
    UnownedKinds(env, w.objects, ing, o);
    StaleFollowExactly(env, f, w, ing, plan, o.routeFirst);
  }

  lemma StaleFollowExactly(env: Env, f: Faults, w: World, ing: Ingress, plan: PassPlan, routeFirst: bool)
    requires NoFaults(f) && forall v :: v in plan.Unowned() ==> v.ref.kind != VirtualServiceKind
    requires ServicesOf(env, ing, plan).Some? && Settleable(w.objects, ing, ServicesOf(env, ing, plan).value)
    ensures var one := Follow(env, f, w, ing, plan, Snapshot(w.objects), routeFirst);
            var wants := ServicesOf(env, ing, plan).value;
            && (one.outcome == Done <==> BothLabelled(w.objects, ing, NamesOf(wants)) == {})
            && BothLabelled(one.world.objects, ing, NamesOf(wants)) == {}
            && (one.outcome == Done ==> Converged(PutAll(w.objects, plan.Unowned()), ing, wants, one.world.objects))
  {
    var vses, wants := MakeVirtualServices(env.lib, ing, plan.names).value, ServicesOf(env, ing, plan).value;
    var s := ReconcileAll(f, w, Live, None, plan.Unowned());
    UnownedSucceeds(f, w, plan.Unowned());
    DoneMeansPut(f, w, None, plan.Unowned());
    OthersUntouched(f, w, plan.Unowned(), VirtualServiceKind);
    ServiceWantsFit(env, ing, plan);
    SameServicePass(f, s.world, w, true, ing, vses, routeFirst);
    SameSettleable(w.objects, s.world.objects, ing, wants);
    SameBothLabelled(w.objects, s.world.objects, ing, NamesOf(wants));
    FirstPassFailsExactly(f, s.world, ing, vses, routeFirst);
    StalePassProgress(f, s.world, ing, vses, routeFirst);
  }

  /** Two passes over caches that are refreshed only between them, after any number of refused ones: the second
      succeeds, and the table is the one that a live pass would have given at once. */
  lemma TwoStalePassesConverge(env: Env, f: Faults, w: World, ing: Ingress, o: Orders, first: Orders, second: Orders,
                               tries: seq<Attempt>)
    requires NoFaults(f) && Fair(o) && Fair(first) && Fair(second) && FairAttempts(tries)
    requires NothingContested(env, w.objects, ing, o) && GatewayPass(env, f, w, ing, o).outcome == Done
    ensures var start := Attempts(env, w, ing, tries);
            var one := GatewayPassSeeing(env, f, start, ing, first, Snapshot(start.objects)).world;
            var two := GatewayPassSeeing(env, f, one, ing, second, Snapshot(one.objects));
            two.outcome == Done && two.world.objects == GatewayPass(env, f, w, ing, o).world.objects
  {
    var start := Attempts(env, w, ing, tries);
    var one := GatewayPassSeeing(env, f, start, ing, first, Snapshot(start.objects)).world;
    var end := GatewayPassSeeing(env, f, one, ing, second, Snapshot(one.objects)).world.objects;
    SuccessReachesGoal(env, f, w, ing, o);
    AttemptsKeepGoal(env, w, ing, o, tries, end);
    TwoStaleReachGoal(env, f, start, ing, o, first, second);
    GoalUnique(env, w.objects, ing, o, end, GatewayPass(env, f, w, ing, o).world.objects);
  }

  lemma TwoStaleReachGoal(env: Env, f: Faults, w: World, ing: Ingress, o: Orders, first: Orders, second: Orders)
    requires NoFaults(f) && Fair(o) && Fair(first) && Fair(second) && Ready(env, w.objects, ing, o)
    ensures var one := GatewayPassSeeing(env, f, w, ing, first, Snapshot(w.objects)).world;
            var two := GatewayPassSeeing(env, f, one, ing, second, Snapshot(one.objects));
            two.outcome == Done && Goal(env, w.objects, ing, o, two.world.objects)
  {
    var one := GatewayPassSeeing(env, f, w, ing, first, Snapshot(w.objects)).world;
    var end := GatewayPassSeeing(env, f, one, ing, second, Snapshot(one.objects)).world.objects;
    SameGoal(env, w.objects, ing, o, first, end);
    StalePassExactly(env, f, w, ing, first);
    AttemptKeepsGoal(env, f, w, ing, o, first, true, end);
    SameGoal(env, one.objects, ing, o, second, end);
    PlanAfter(env, w.objects, one.objects, ing, first, second);
    StalePassExactly(env, f, one, ing, second);
  }

  // -------------------------------------------------------------- leftovers of services that were made for the Ingress

  lemma MadeLabels(ing: Ingress, objects: Objects, r: Ref)
    requires r in objects && objects[r].labels == ServiceLabels(ing)
    ensures Selects(Selector(ing, false), objects[r].labels)
    ensures Selects(Selector(ing, true), objects[r].labels) <==> ROUTE_LABEL in ing.labels
  {
    assert INGRESS_LABEL[0] != ROUTE_LABEL[0];
    assert ROUTE_LABEL in Selector(ing, true);
  }

  /** A service made for an Ingress with a route label, once it is no longer wanted, makes the first pass over a
      stale cache fail. */
  lemma LeftoverServiceFails(lib: Library, f: Faults, w: World, ing: Ingress, name: string, spec: VirtualServiceSpec,
                             desired: seq<Want>, routeFirst: bool)
    requires NoFaults(f) && Settleable(w.objects, ing, IstioWants(desired)) && ROUTE_LABEL in ing.labels
    requires var v := ServiceObject(lib, ing, name, spec);
             v.ref in w.objects && w.objects[v.ref].labels == v.obj.labels && ControlledBy(w.objects[v.ref], ing.uid)
    requires name !in NamesOf(IstioWants(desired))
    ensures StalePass(f, w, ing, desired, routeFirst).outcome != Done
  {
    var r := ServiceObject(lib, ing, name, spec).ref;
    MadeLabels(ing, w.objects, r);
    assert r in BothLabelled(w.objects, ing, NamesOf(IstioWants(desired)));
    FirstPassFailsExactly(f, w, ing, desired, routeFirst);
  }

  /** Over a table where all services of the Ingress carry the labels they are made with, the first pass over a stale
      cache fails exactly when the Ingress has a route label and one of them is no longer wanted. */
  lemma MadeLeftoversFailExactly(f: Faults, w: World, ing: Ingress, desired: seq<Want>, routeFirst: bool)
    requires NoFaults(f) && Settleable(w.objects, ing, IstioWants(desired))
    requires forall r :: OwnVirtualService(w.objects, ing, r) ==> w.objects[r].labels == ServiceLabels(ing)
    ensures StalePass(f, w, ing, desired, routeFirst).outcome != Done <==>
            ROUTE_LABEL in ing.labels && Obsolete(w.objects, ing, NamesOf(IstioWants(desired))) != {}
  {
    var kept := NamesOf(IstioWants(desired));
    FirstPassFailsExactly(f, w, ing, desired, routeFirst);
    forall r | r in Obsolete(w.objects, ing, kept)
      ensures r in BothLabelled(w.objects, ing, kept) <==> ROUTE_LABEL in ing.labels
    {
      assert OwnVirtualService(w.objects, ing, r);
      MadeLabels(ing, w.objects, r);
    }
    assert BothLabelled(w.objects, ing, kept) <= Obsolete(w.objects, ing, kept);
  }
}
