/** VirtualService passes of different Ingresses over one table: neither touches a VirtualService that the other
    owns, and their order does not matter. Secrets and Gateways, where no owner is asked for, are another matter: see
    Contention and Cleanup.CleanupSparesExactly. */
module Isolation {
  import opened Store
  import opened Types
  import opened VirtualServicePass

  // ---------------------------------------------------------------- a pass writes only what it controls

  /** Everything written since `before` was new or controlled by `uid`. */
  ghost predicate OwnWrites(before: World, after: World, uid: string) {
    && before.log <= after.log
    && forall i :: |before.log| <= i < |after.log| ==>
         || (after.log[i].verb.CreateVerb? && after.log[i].before.None?)
         || (after.log[i].before.Some? && ControlledBy(after.log[i].before.value, uid))
  }

  lemma OwnWritesTransitive(a: World, b: World, c: World, uid: string)
    requires OwnWrites(a, b, uid) && OwnWrites(b, c, uid)
    ensures OwnWrites(a, c, uid)
  {
    forall i | |a.log| <= i < |b.log| ensures c.log[i] == b.log[i] {
      assert b.log == c.log[..|b.log|];
    }
  }

  /** The lister shows the owners each object has. A snapshot from the start of the pass does, and goes on doing so. */
  ghost predicate ShowsOwners(l: Lister, w: World) {
    l.Live? || forall r :: r in l.seen && r in w.objects ==> l.seen[r].owners == w.objects[r].owners
  }

  lemma {:induction false} CreatesOwnWrites(f: Faults, w: World, l: Lister, uid: string, wants: seq<Want>)
    requires ShowsOwners(l, w)
    ensures var s := ReconcileAll(f, w, l, Some(uid), wants); OwnWrites(w, s.world, uid) && ShowsOwners(l, s.world)
    decreases |wants|
  {
    if wants != [] {
      var s := Reconcile(f, w, l, Some(uid), wants[0]);
      if wants[0].ref in View(l, w) { MergeSettles(View(l, w)[wants[0].ref], wants[0].obj); }
      assert OwnWrites(w, s.world, uid) && ShowsOwners(l, s.world);
      if s.outcome == Done {
        CreatesOwnWrites(f, s.world, l, uid, wants[1..]);
        OwnWritesTransitive(w, s.world, ReconcileAll(f, s.world, l, Some(uid), wants[1..]).world, uid);
      }
    }
  }

  lemma {:induction false} RemovalsOwnWrites(f: Faults, w: World, view: Objects, refs: seq<Ref>, kept: set<string>,
                                             uid: string)
    requires ShowsOwners(Snapshot(view), w)
    ensures var s := RemoveObsolete(f, w, view, refs, kept, uid);
            OwnWrites(w, s.world, uid) && s.world.objects.Keys <= w.objects.Keys
            && forall r :: r in s.world.objects ==> s.world.objects[r] == w.objects[r]
    decreases |refs|
  {
    if refs != [] {
      if Removable(view, refs[0], kept, uid) {
        var s := Delete(f, w, refs[0]);
        assert OwnWrites(w, s.world, uid);
        if s.outcome == Done {
          RemovalsOwnWrites(f, s.world, view, refs[1..], kept, uid);
          OwnWritesTransitive(w, s.world, RemoveObsolete(f, s.world, view, refs[1..], kept, uid).world, uid);
        }
      } else {
        RemovalsOwnWrites(f, w, view, refs[1..], kept, uid);
      }
    }
  }

  lemma SelectorOwnWrites(f: Faults, w: World, l: Lister, ing: Ingress, kept: set<string>, route: bool)
    requires ShowsOwners(l, w)
    ensures var s := SelectorPass(f, w, l, ing, kept, route);
            OwnWrites(w, s.world, ing.uid) && ShowsOwners(l, s.world)
  {
    RemovalsOwnWrites(f, w, View(l, w), SortedRefs(Listed(View(l, w), ing, route)), kept, ing.uid);
  }

  /** No pass, complete or cut short by any failure, updates or deletes an object its Ingress does not control. */
  lemma PassWritesOnlyItsOwn(f: Faults, w: World, l: Lister, ing: Ingress, desired: seq<Want>, routeFirst: bool)
    requires ShowsOwners(l, w)
    ensures OwnWrites(w, Pass(f, w, l, ing, desired, routeFirst).world, ing.uid)
  {
    var wants := IstioWants(desired);
    var s := ReconcileAll(f, w, l, Some(ing.uid), wants);
    CreatesOwnWrites(f, w, l, ing.uid, wants);
    if s.outcome == Done {
      var kept := NamesOf(wants);
      var a := SelectorPass(f, s.world, l, ing, kept, routeFirst);
      SelectorOwnWrites(f, s.world, l, ing, kept, routeFirst);
      OwnWritesTransitive(w, s.world, a.world, ing.uid);
      if a.outcome == Done {
        SelectorOwnWrites(f, a.world, l, ing, kept, !routeFirst);
        OwnWritesTransitive(w, a.world, SelectorPass(f, a.world, l, ing, kept, !routeFirst).world, ing.uid);
      }
    }
  }

  // ------------------------------------------------------------ the effect of a pass that may stop at a foreign object

  /** The wants that are reached before the first one held by someone else. */
  function Reached(objects: Objects, uid: string, wants: seq<Want>): seq<Want> {
    if wants == [] then []
    else if wants[0].ref in objects && !ControlledBy(objects[wants[0].ref], uid) then []
    else [wants[0]] + Reached(objects, uid, wants[1..])
  }

  lemma {:induction false} ReachedIsPrefix(objects: Objects, uid: string, wants: seq<Want>)
    ensures forall w :: w in Reached(objects, uid, wants) ==>
              w in wants && (w.ref in objects ==> ControlledBy(objects[w.ref], uid))
    ensures (forall w :: w in wants && w.ref in objects ==> ControlledBy(objects[w.ref], uid)) <==>
            Reached(objects, uid, wants) == wants
  {
    if wants != [] {
      assert wants == [wants[0]] + wants[1..];
      ReachedIsPrefix(objects, uid, wants[1..]);
      assert wants[0] in wants;
      assert forall w :: w in wants <==> w == wants[0] || w in wants[1..];
      var r := Reached(objects, uid, wants);
      if r == wants && r != [] {
        assert r[1..] == wants[1..];
      }
    }
  }

  /** What is decided about the wants depends only on the objects under their keys. */
  lemma {:induction false} ReachedDependsOn(a: Objects, b: Objects, uid: string, wants: seq<Want>)
    requires forall w :: w in wants ==> (w.ref in a <==> w.ref in b) && (w.ref in a ==> a[w.ref] == b[w.ref])
    ensures Reached(a, uid, wants) == Reached(b, uid, wants)
  {
    if wants != [] {
      assert wants[0] in wants;
      ReachedDependsOn(a, b, uid, wants[1..]);
    }
  }

  ghost predicate AllReached(objects: Objects, uid: string, wants: seq<Want>) {
    Reached(objects, uid, wants) == wants
  }

  /** The effect of a live pass at one key. */
  ghost predicate EffectAt(before: Objects, ing: Ingress, wants: seq<Want>, after: Objects, r: Ref) {
    var reached := Reached(before, ing.uid, wants);
    if Wanted(reached, r) then
      r in after && forall w :: w in reached && w.ref == r ==> after[r] == Put(before, w)
    else if AllReached(before, ing.uid, wants) && r in Obsolete(before, ing, NamesOf(wants)) then
      r !in after
    else
      (r in after <==> r in before) && (r in after ==> after[r] == before[r])
  }

  lemma {:induction false} CreatesReach(f: Faults, w: World, uid: string, wants: seq<Want>)
    requires NoFaults(f) && Consistent(wants) && forall want :: want in wants ==> ControlledBy(want.obj, uid)
    ensures var s := ReconcileAll(f, w, Live, Some(uid), wants);
            && Achieved(w.objects, Reached(w.objects, uid, wants), s.world.objects)
            && (s.outcome == Done <==> AllReached(w.objects, uid, wants))
    decreases |wants|
  {
    if wants != [] {
      var first, rest := wants[0], wants[1..];
      assert wants == [first] + rest && first in wants;
      var s := Reconcile(f, w, Live, Some(uid), first);
      if first.ref in w.objects && !ControlledBy(w.objects[first.ref], uid) {
      } else {
        StepAchieves(f, w, Some(uid), first);
        CreatesReach(f, s.world, uid, rest);
        ReachedAfterFirst(w.objects, uid, first, rest);
        var reached := Reached(w.objects, uid, rest);
        ReachedIsPrefix(w.objects, uid, rest);
        assert Consistent([first] + reached);
        AchievedCons(w.objects, first, reached, ReconcileAll(f, s.world, Live, Some(uid), rest).world.objects);
        assert ([first] + reached)[1..] == reached;
      }
    }
  }

  /** Putting a want of one's own in place changes nothing about which later wants are reached. */
  lemma {:induction false} ReachedAfterFirst(objects: Objects, uid: string, first: Want, rest: seq<Want>)
    requires ControlledBy(first.obj, uid) && (first.ref in objects ==> ControlledBy(objects[first.ref], uid))
    ensures Reached(objects[first.ref := Put(objects, first)], uid, rest) == Reached(objects, uid, rest)
  {
    if first.ref in objects { MergeSettles(objects[first.ref], first.obj); }
    if rest != [] {
      ReachedAfterFirst(objects, uid, first, rest[1..]);
    }
  }

  lemma LivePassEffect(f: Faults, w: World, ing: Ingress, desired: seq<Want>, routeFirst: bool, r: Ref)
    requires NoFaults(f) && Consistent(IstioWants(desired)) && MadeFor(ing, IstioWants(desired))
    ensures EffectAt(w.objects, ing, IstioWants(desired), Pass(f, w, Live, ing, desired, routeFirst).world.objects, r)
  {
    var wants := IstioWants(desired);
    CreatesReach(f, w, ing.uid, wants);
    if AllReached(w.objects, ing.uid, wants) {
      ReachedIsPrefix(w.objects, ing.uid, wants);
      LivePassSucceedsExactly(f, w, ing, desired, routeFirst);
      LivePassConverges(f, w, ing, desired, routeFirst);
    }
  }

  // ---------------------------------------------------------------- two Ingresses

  /** No name desired by `a` is desired by `b` or held by an object that `b` controls. */
  ghost predicate KeepsClear(objects: Objects, wantsA: seq<Want>, b: Ingress, wantsB: seq<Want>) {
    forall w :: w in wantsA ==> !Wanted(wantsB, w.ref) && (w.ref in objects ==> !ControlledBy(objects[w.ref], b.uid))
  }

  /** A pass leaves a key alone that it does not want and that is not its own obsolete object. */
  lemma LeavesAlone(before: Objects, ing: Ingress, wants: seq<Want>, after: Objects, r: Ref)
    requires EffectAt(before, ing, wants, after, r)
    requires !Wanted(wants, r) && (r in before ==> !ControlledBy(before[r], ing.uid))
    ensures SameAt(before, after, r)
  {
    ReachedIsPrefix(before, ing.uid, wants);
  }

  /** What the first pass leaves under its own names is not the second's. */
  lemma StaysForeign(before: Objects, a: Ingress, wantsA: seq<Want>, after: Objects, b: Ingress, r: Ref)
    requires EffectAt(before, a, wantsA, after, r) && MadeFor(a, wantsA) && a.uid != b.uid
    requires r in before ==> !ControlledBy(before[r], b.uid)
    ensures r in after ==> !ControlledBy(after[r], b.uid)
  {
    var reached := Reached(before, a.uid, wantsA);
    ReachedIsPrefix(before, a.uid, wantsA);
    if Wanted(reached, r) {
      var w :| w in reached && w.ref == r;
      if r in before { MergeSettles(before[r], w.obj); }
      if ControlledBy(after[r], b.uid) {
        OneController(w.obj.owners, a.uid, b.uid);
      }
    }
  }

  /** The same decisions are taken in tables that agree on the wants; at a key, the same effect follows. */
  lemma SameEffect(before: Objects, before': Objects, ing: Ingress, wants: seq<Want>, after: Objects, after': Objects,
                   r: Ref)
    requires EffectAt(before, ing, wants, after, r) && EffectAt(before', ing, wants, after', r)
    requires forall w :: w in wants ==> SameAt(before, before', w.ref)
    requires SameAt(before, before', r)
    ensures SameAt(after, after', r)
  {
    ReachedDependsOn(before, before', ing.uid, wants);
    var reached := Reached(before, ing.uid, wants);
    if Wanted(reached, r) {
      var w :| w in reached && w.ref == r;
    }
    assert r in Obsolete(before, ing, NamesOf(wants)) <==> r in Obsolete(before', ing, NamesOf(wants));
  }

  /** One order against the other, at a key wanted by the Ingress that goes first. */
  lemma CommuteAtWanted(before: Objects, a: Ingress, wantsA: seq<Want>, b: Ingress, wantsB: seq<Want>,
                        midA: Objects, endAB: Objects, midB: Objects, endBA: Objects, r: Ref)
    requires a.uid != b.uid && MadeFor(a, wantsA)
    requires KeepsClear(before, wantsA, b, wantsB)
    requires forall q :: EffectAt(before, a, wantsA, midA, q) && EffectAt(midA, b, wantsB, endAB, q)
    requires forall q :: EffectAt(before, b, wantsB, midB, q) && EffectAt(midB, a, wantsA, endBA, q)
    requires Wanted(wantsA, r)
    ensures SameAt(endAB, endBA, r)
  {
    forall w | w in wantsA ensures SameAt(before, midB, w.ref) {
      LeavesAlone(before, b, wantsB, midB, w.ref);
    }
    var w :| w in wantsA && w.ref == r;
    SameEffect(before, midB, a, wantsA, midA, endBA, r);
    StaysForeign(before, a, wantsA, midA, b, r);
    LeavesAlone(midA, b, wantsB, endAB, r);
  }

  lemma CommuteAtUnwanted(before: Objects, a: Ingress, wantsA: seq<Want>, b: Ingress, wantsB: seq<Want>,
                          midA: Objects, endAB: Objects, midB: Objects, endBA: Objects, r: Ref)
    requires a.uid != b.uid
    requires KeepsClear(before, wantsA, b, wantsB) && KeepsClear(before, wantsB, a, wantsA)
    requires forall q :: EffectAt(before, a, wantsA, midA, q) && EffectAt(midA, b, wantsB, endAB, q)
    requires forall q :: EffectAt(before, b, wantsB, midB, q) && EffectAt(midB, a, wantsA, endBA, q)
    requires !Wanted(wantsA, r) && !Wanted(wantsB, r)
    ensures SameAt(endAB, endBA, r)
  {
    forall w | w in wantsA ensures SameAt(before, midB, w.ref) { LeavesAlone(before, b, wantsB, midB, w.ref); }
    forall w | w in wantsB ensures SameAt(before, midA, w.ref) { LeavesAlone(before, a, wantsA, midA, w.ref); }
    if r in before && ControlledBy(before[r], a.uid) {
      if ControlledBy(before[r], b.uid) { OneController(before[r].owners, a.uid, b.uid); }
      LeavesAlone(before, b, wantsB, midB, r);
      SameEffect(before, midB, a, wantsA, midA, endBA, r);
      GoneOrSame(before, a, wantsA, midA, r);
      LeavesAlone(midA, b, wantsB, endAB, r);
    } else {
      LeavesAlone(before, a, wantsA, midA, r);
      SameEffect(before, midA, b, wantsB, midB, endAB, r);
      GoneOrSame(before, b, wantsB, midB, r);
      LeavesAlone(midB, a, wantsA, endBA, r);
    }
  }

  lemma GoneOrSame(before: Objects, ing: Ingress, wants: seq<Want>, after: Objects, r: Ref)
    requires EffectAt(before, ing, wants, after, r) && !Wanted(wants, r)
    ensures r in after ==> r in before && after[r] == before[r]
  {
    ReachedIsPrefix(before, ing.uid, wants);
  }

  /** The effects of two passes that keep clear of each other's names, in either order. */
  lemma EffectsCommute(before: Objects, a: Ingress, wantsA: seq<Want>, b: Ingress, wantsB: seq<Want>,
                       midA: Objects, endAB: Objects, midB: Objects, endBA: Objects)
    requires a.uid != b.uid && MadeFor(a, wantsA) && MadeFor(b, wantsB)
    requires KeepsClear(before, wantsA, b, wantsB) && KeepsClear(before, wantsB, a, wantsA)
    requires forall q :: EffectAt(before, a, wantsA, midA, q) && EffectAt(midA, b, wantsB, endAB, q)
    requires forall q :: EffectAt(before, b, wantsB, midB, q) && EffectAt(midB, a, wantsA, endBA, q)
    ensures endAB == endBA
  {
    forall r ensures SameAt(endAB, endBA, r) {
      if Wanted(wantsA, r) {
        CommuteAtWanted(before, a, wantsA, b, wantsB, midA, endAB, midB, endBA, r);
      } else if Wanted(wantsB, r) {
        CommuteAtWanted(before, b, wantsB, a, wantsA, midB, endBA, midA, endAB, r);
      } else {
        CommuteAtUnwanted(before, a, wantsA, b, wantsB, midA, endAB, midB, endBA, r);
      }
    }
    SameTables(endAB, endBA);
  }

  /** Passes of two Ingresses that keep clear of each other's names give the same table in either order, even when one
      of them stops at an object of someone else. */
  lemma PassesCommute(f: Faults, w: World, a: Ingress, desiredA: seq<Want>, b: Ingress, desiredB: seq<Want>,
                      orderA: bool, orderB: bool, orderA': bool, orderB': bool)
    requires NoFaults(f) && a.uid != b.uid
    requires Consistent(IstioWants(desiredA)) && MadeFor(a, IstioWants(desiredA))
    requires Consistent(IstioWants(desiredB)) && MadeFor(b, IstioWants(desiredB))
    requires KeepsClear(w.objects, IstioWants(desiredA), b, IstioWants(desiredB))
    requires KeepsClear(w.objects, IstioWants(desiredB), a, IstioWants(desiredA))
    ensures Pass(f, Pass(f, w, Live, a, desiredA, orderA).world, Live, b, desiredB, orderB).world.objects
         == Pass(f, Pass(f, w, Live, b, desiredB, orderB').world, Live, a, desiredA, orderA').world.objects
  {
    var wantsA, wantsB := IstioWants(desiredA), IstioWants(desiredB);
    var midA := Pass(f, w, Live, a, desiredA, orderA).world;
    var midB := Pass(f, w, Live, b, desiredB, orderB').world;
    var endAB := Pass(f, midA, Live, b, desiredB, orderB).world;
    var endBA := Pass(f, midB, Live, a, desiredA, orderA').world;
    forall q
      ensures EffectAt(w.objects, a, wantsA, midA.objects, q) && EffectAt(midA.objects, b, wantsB, endAB.objects, q)
      ensures EffectAt(w.objects, b, wantsB, midB.objects, q) && EffectAt(midB.objects, a, wantsA, endBA.objects, q)
    {
      LivePassEffect(f, w, a, desiredA, orderA, q);
      LivePassEffect(f, midA, b, desiredB, orderB, q);
      LivePassEffect(f, w, b, desiredB, orderB', q);
      LivePassEffect(f, midB, a, desiredA, orderA', q);
    }
    EffectsCommute(w.objects, a, wantsA, b, wantsB, midA.objects, endAB.objects, midB.objects, endBA.objects);
  }

  lemma SameTables(a: Objects, b: Objects)
    requires forall r :: SameAt(a, b, r)
    ensures a == b
  {
    forall r ensures r in a.Keys <==> r in b.Keys {
      assert SameAt(a, b, r);
    }
    forall r | r in a ensures a[r] == b[r] {
      assert SameAt(a, b, r);
    }
  }
}
