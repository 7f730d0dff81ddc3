/** Passes that read a stale cache: each works on a snapshot taken when it starts, refreshed before the next one. */
module Convergence {
  import opened Store
  import opened Types
  import opened VirtualServicePass

  /** Distinct keys, made for the Ingress, and none of them held by an object of someone else. */
  ghost predicate Settleable(objects: Objects, ing: Ingress, wants: seq<Want>) {
    && MadeFor(ing, wants)
    && (forall i, j :: 0 <= i < j < |wants| ==> wants[i].ref != wants[j].ref)
    && Ownable(objects, Some(ing.uid), wants)
  }

  /** A pass against a snapshot of the table it starts from. */
  function StalePass(f: Faults, w: World, ing: Ingress, desired: seq<Want>, routeFirst: bool): Step {
    Pass(f, w, Snapshot(w.objects), ing, desired, routeFirst)
  }

  /** For the wants, the snapshot agrees with the table. */
  ghost predicate ShowsTruly(seen: Objects, objects: Objects, wants: seq<Want>) {
    forall w :: w in wants ==>
      (w.ref in objects <==> w.ref in seen) && (w.ref in seen ==> objects[w.ref] == seen[w.ref])
  }

  lemma SettleableTail(seen: Objects, objects: Objects, ing: Ingress, wants: seq<Want>, obj: Object)
    requires wants != [] && Settleable(seen, ing, wants) && ShowsTruly(seen, objects, wants)
    ensures Settleable(seen, ing, wants[1..]) && ShowsTruly(seen, objects[wants[0].ref := obj], wants[1..])
    ensures Consistent(wants)
  {
    var rest := wants[1..];
    assert wants == [wants[0]] + rest;
    assert forall i :: 0 <= i < |rest| ==> rest[i] == wants[i + 1];
    assert forall want :: want in rest ==> want in wants && want.ref != wants[0].ref;
  }

  lemma {:induction false} StaleCreates(f: Faults, w: World, seen: Objects, ing: Ingress, wants: seq<Want>)
    requires NoFaults(f) && Settleable(seen, ing, wants)
    requires ShowsTruly(seen, w.objects, wants)
    ensures ReconcileAll(f, w, Snapshot(seen), Some(ing.uid), wants).outcome == Done
    ensures Achieved(w.objects, wants, ReconcileAll(f, w, Snapshot(seen), Some(ing.uid), wants).world.objects)
    decreases |wants|
  {
    if wants != [] {
      var first, rest := wants[0], wants[1..];
      assert wants == [first] + rest && first in wants;
      var s := Reconcile(f, w, Snapshot(seen), Some(ing.uid), first);
      if first.ref in seen { MergeSettles(seen[first.ref], first.obj); }
      assert s.outcome == Done && s.world.objects == w.objects[first.ref := Put(w.objects, first)];
      SettleableTail(seen, w.objects, ing, wants, Put(w.objects, first));
      StaleCreates(f, s.world, seen, ing, rest);
      AchievedCons(w.objects, first, rest, ReconcileAll(f, s.world, Snapshot(seen), Some(ing.uid), rest).world.objects);
    }
  }

  /** Both selectors name it. */
  function BothLabelled(objects: Objects, ing: Ingress, kept: set<string>): set<Ref> {
    ObsoleteBy(objects, ing, kept, false) * ObsoleteBy(objects, ing, kept, true)
  }

  lemma BothLabelledEither(objects: Objects, ing: Ingress, kept: set<string>, route: bool)
    ensures BothLabelled(objects, ing, kept) ==
            ObsoleteBy(objects, ing, kept, route) * ObsoleteBy(objects, ing, kept, !route)
    ensures Obsolete(objects, ing, kept) ==
            ObsoleteBy(objects, ing, kept, route) + ObsoleteBy(objects, ing, kept, !route)
  {
    if route {
      assert !route == false;
    }
  }

  /** One selector: it fails exactly when something it goes for is already absent. */
  lemma StaleSelector(f: Faults, w: World, seen: Objects, ing: Ingress, kept: set<string>, route: bool)
    returns (gone: set<Ref>)
    requires NoFaults(f)
    ensures var s := SelectorPass(f, w, Snapshot(seen), ing, kept, route);
            && s.world.objects == w.objects - gone
            && gone <= ObsoleteBy(seen, ing, kept, route)
            && (s.outcome == Done <==> ObsoleteBy(seen, ing, kept, route) <= w.objects.Keys)
            && (s.outcome == Done ==> gone == ObsoleteBy(seen, ing, kept, route))
  {
    var refs := SortedRefs(Listed(seen, ing, route));
    SortedRefsDistinct(Listed(seen, ing, route));
    ObsoleteIsTarget(seen, ing, kept, route);
    RemovalFailsExactly(f, w, seen, refs, kept, ing.uid);
    gone := RemovalTakesTargets(f, w, seen, refs, kept, ing.uid);
  }

  /** Removal from a table that still holds everything the snapshot calls obsolete. */
  lemma StaleRemoval(f: Faults, w: World, seen: Objects, ing: Ingress, kept: set<string>, routeFirst: bool)
    returns (gone: set<Ref>)
    requires NoFaults(f) && Obsolete(seen, ing, kept) <= w.objects.Keys
    ensures var s := RemovalPass(f, w, Snapshot(seen), ing, kept, routeFirst);
            && (s.outcome == Done <==> BothLabelled(seen, ing, kept) == {})
            && s.world.objects == w.objects - gone
            && ObsoleteBy(seen, ing, kept, routeFirst) <= gone <= Obsolete(seen, ing, kept)
            && (s.outcome == Done ==> gone == Obsolete(seen, ing, kept))
  {
    var a := StaleSelector(f, w, seen, ing, kept, routeFirst);
    var mid := SelectorPass(f, w, Snapshot(seen), ing, kept, routeFirst).world;
    var b := StaleSelector(f, mid, seen, ing, kept, !routeFirst);
    gone := a + b;
    RemoveTwice(w.objects, a, b);
    BothLabelledEither(seen, ing, kept, routeFirst);
    DisjointFits(w.objects.Keys, mid.objects.Keys, a, ObsoleteBy(seen, ing, kept, !routeFirst));
  }

  lemma DisjointFits(keys: set<Ref>, left: set<Ref>, a: set<Ref>, b: set<Ref>)
    requires b <= keys && left == keys - a
    ensures b <= left <==> a * b == {}
  {
    if r :| r in a * b {
      assert r in b && r !in left;
    }
    if a * b == {} {
      assert forall r :: r in b ==> r !in a * b;
    }
  }

  /** What one stale pass does, whether or not it fails. */
  lemma StalePassEffect(f: Faults, w: World, ing: Ingress, desired: seq<Want>, routeFirst: bool)
    returns (mid: Objects, gone: set<Ref>)
    requires NoFaults(f) && Settleable(w.objects, ing, IstioWants(desired))
    ensures var wants := IstioWants(desired);
            var kept := NamesOf(wants);
            var s := StalePass(f, w, ing, desired, routeFirst);
            && Achieved(w.objects, wants, mid) && s.world.objects == mid - gone
            && ObsoleteBy(w.objects, ing, kept, routeFirst) <= gone <= Obsolete(w.objects, ing, kept)
            && (s.outcome == Done <==> BothLabelled(w.objects, ing, kept) == {})
            && (s.outcome == Done ==> gone == Obsolete(w.objects, ing, kept))
  {
    var wants := IstioWants(desired);
    var kept := NamesOf(wants);
    var s := ReconcileAll(f, w, Snapshot(w.objects), Some(ing.uid), wants);
    StaleCreates(f, w, w.objects, ing, wants);
    mid := s.world.objects;
    forall r | r in Obsolete(w.objects, ing, kept) ensures r in mid {
      assert !Wanted(wants, r);
    }
    gone := StaleRemoval(f, s.world, w.objects, ing, kept, routeFirst);
  }

  /** The first pass fails exactly when an obsolete VirtualService carries both labels. */
  lemma FirstPassFailsExactly(f: Faults, w: World, ing: Ingress, desired: seq<Want>, routeFirst: bool)
    requires NoFaults(f) && Settleable(w.objects, ing, IstioWants(desired))
    ensures StalePass(f, w, ing, desired, routeFirst).outcome == Done <==>
            BothLabelled(w.objects, ing, NamesOf(IstioWants(desired))) == {}
    ensures StalePass(f, w, ing, desired, routeFirst).outcome == Done ==>
            Converged(w.objects, ing, IstioWants(desired), StalePass(f, w, ing, desired, routeFirst).world.objects)
  {
    var mid, gone := StalePassEffect(f, w, ing, desired, routeFirst);
    if StalePass(f, w, ing, desired, routeFirst).outcome == Done {
      ConvergedFromAchieved(w.objects, ing, IstioWants(desired), mid, mid - gone);
    }
  }

  /** A pass, failed or not, keeps the goal, removes the doubly labelled, and leaves fewer obsolete objects if it
      failed. */
  lemma StalePassProgress(f: Faults, w: World, ing: Ingress, desired: seq<Want>, routeFirst: bool)
    requires NoFaults(f) && Settleable(w.objects, ing, IstioWants(desired))
    ensures var wants := IstioWants(desired);
            var s := StalePass(f, w, ing, desired, routeFirst);
            && Settleable(s.world.objects, ing, wants)
            && BothLabelled(s.world.objects, ing, NamesOf(wants)) == {}
            && (s.outcome != Done ==>
                |Obsolete(s.world.objects, ing, NamesOf(wants))| < |Obsolete(w.objects, ing, NamesOf(wants))|)
            && forall after :: Converged(s.world.objects, ing, wants, after) ==> Converged(w.objects, ing, wants, after)
  {
    var wants := IstioWants(desired);
    var kept := NamesOf(wants);
    var s := StalePass(f, w, ing, desired, routeFirst);
    var mid, gone := StalePassEffect(f, w, ing, desired, routeFirst);
    var end := s.world.objects;
    RefusedPassKeepsGoal(f, w, Snapshot(w.objects), ing, desired, routeFirst, end);
    BothLabelledGone(w.objects, ing, wants, mid, gone, routeFirst);
    BothLabelledEither(w.objects, ing, kept, routeFirst);
    if s.outcome != Done {
      FewerObsolete(w.objects, ing, kept, routeFirst, gone);
    }
    forall after | Converged(end, ing, wants, after) ensures Converged(w.objects, ing, wants, after) {
      RefusedPassKeepsGoal(f, w, Snapshot(w.objects), ing, desired, routeFirst, after);
    }
  }

  lemma SubsetIsSmaller<T>(a: set<T>, b: set<T>)
    requires a < b
    ensures |a| < |b|
  {
    assert b == a + (b - a);
    assert |b| == |a| + |b - a|;
  }

  lemma FewerObsolete(before: Objects, ing: Ingress, kept: set<string>, routeFirst: bool, gone: set<Ref>)
    requires BothLabelled(before, ing, kept) != {} && ObsoleteBy(before, ing, kept, routeFirst) <= gone
    ensures |Obsolete(before, ing, kept) - gone| < |Obsolete(before, ing, kept)|
  {
    BothLabelledEither(before, ing, kept, routeFirst);
    var r :| r in BothLabelled(before, ing, kept);
    assert r in Obsolete(before, ing, kept) && r in gone;
    SubsetIsSmaller(Obsolete(before, ing, kept) - gone, Obsolete(before, ing, kept));
  }

  lemma ObsoleteLeft(before: Objects, ing: Ingress, wants: seq<Want>, mid: Objects, gone: set<Ref>, route: bool)
    requires Achieved(before, wants, mid)
    ensures ObsoleteBy(mid - gone, ing, NamesOf(wants), route) == ObsoleteBy(before, ing, NamesOf(wants), route) - gone
  {
    ObsoleteAfterAchieved(before, wants, mid, ing, route);
    ObsoleteAfterRemoval(mid, gone, ing, NamesOf(wants), route);
  }

  lemma BothLabelledGone(before: Objects, ing: Ingress, wants: seq<Want>, mid: Objects, gone: set<Ref>,
                         routeFirst: bool)
    requires Achieved(before, wants, mid) && ObsoleteBy(before, ing, NamesOf(wants), routeFirst) <= gone
    ensures Obsolete(mid - gone, ing, NamesOf(wants)) == Obsolete(before, ing, NamesOf(wants)) - gone
    ensures BothLabelled(mid - gone, ing, NamesOf(wants)) == {}
  {
    ObsoleteLeft(before, ing, wants, mid, gone, false);
    ObsoleteLeft(before, ing, wants, mid, gone, true);
    BothLabelledEither(mid - gone, ing, NamesOf(wants), routeFirst);
  }

  /** Two passes always suffice, in any order of the selectors: the second succeeds and the table is the desired one. */
  lemma TwoPassesSuffice(f: Faults, w: World, ing: Ingress, desired: seq<Want>, first: bool, second: bool)
    requires NoFaults(f) && Settleable(w.objects, ing, IstioWants(desired))
    ensures var one := StalePass(f, w, ing, desired, first);
            var two := StalePass(f, one.world, ing, desired, second);
            && two.outcome == Done
            && Converged(w.objects, ing, IstioWants(desired), two.world.objects)
  {
    var one := StalePass(f, w, ing, desired, first).world;
    StalePassProgress(f, w, ing, desired, first);
    FirstPassFailsExactly(f, one, ing, desired, second);
  }

  /** Passes one after the other, each with its own snapshot and its own order of the selectors. */
  function Run(f: Faults, w: World, ing: Ingress, desired: seq<Want>, orders: seq<bool>): World
    decreases |orders|
  {
    if orders == [] then w else Run(f, StalePass(f, w, ing, desired, orders[0]).world, ing, desired, orders[1..])
  }

  lemma ConvergedHasNothingObsolete(before: Objects, ing: Ingress, wants: seq<Want>, after: Objects)
    requires Converged(before, ing, wants, after)
    ensures ObsoleteBy(after, ing, NamesOf(wants), false) == {} == ObsoleteBy(after, ing, NamesOf(wants), true)
  {
    forall r
      ensures r !in ObsoleteBy(after, ing, NamesOf(wants), false) && r !in ObsoleteBy(after, ing, NamesOf(wants), true)
    {
      assert Wanted(wants, r) ==> r.name in NamesOf(wants);
      assert !Wanted(wants, r) && r in after ==> after[r] == before[r] && r !in Obsolete(before, ing, NamesOf(wants));
    }
  }

  /** In the desired table a pass finds nothing to do. */
  lemma ConvergedIsQuiet(f: Faults, w: World, l: Lister, ing: Ingress, desired: seq<Want>, before: Objects,
                         routeFirst: bool)
    requires Ownable(before, Some(ing.uid), IstioWants(desired))
    requires Converged(before, ing, IstioWants(desired), w.objects) && View(l, w) == w.objects
    ensures Pass(f, w, l, ing, desired, routeFirst) == Step(w, Done)
  {
    var wants := IstioWants(desired);
    forall want | want in wants
      ensures !Differs(w.objects[want.ref], want.obj) && ControlledBy(w.objects[want.ref], ing.uid)
    {
      MergeSettles(want.obj, want.obj);
      if want.ref in before { MergeSettles(before[want.ref], want.obj); }
    }
    SatisfiedIsNoop(f, w, l, Some(ing.uid), wants);
    ConvergedHasNothingObsolete(before, ing, wants, w.objects);
    NothingToRemove(f, w, w.objects, SortedRefs(Listed(w.objects, ing, routeFirst)), ing, NamesOf(wants), routeFirst);
    NothingToRemove(f, w, w.objects, SortedRefs(Listed(w.objects, ing, !routeFirst)), ing, NamesOf(wants), !routeFirst);
  }

  lemma {:induction false} NothingToRemove(f: Faults, w: World, view: Objects, refs: seq<Ref>, ing: Ingress,
                                           kept: set<string>, route: bool)
    requires forall r :: r in refs ==> r in Listed(view, ing, route)
    requires ObsoleteBy(view, ing, kept, route) == {}
    ensures RemoveObsolete(f, w, view, refs, kept, ing.uid) == Step(w, Done)
    decreases |refs|
  {
    if refs != [] {
      assert refs[0] in refs && refs[0] !in ObsoleteBy(view, ing, kept, route);
      NothingToRemove(f, w, view, refs[1..], ing, kept, route);
    }
  }

  lemma {:induction false} QuietRun(f: Faults, w: World, ing: Ingress, desired: seq<Want>, before: Objects,
                                    orders: seq<bool>)
    decreases |orders|
    requires Ownable(before, Some(ing.uid), IstioWants(desired))
    requires Converged(before, ing, IstioWants(desired), w.objects)
    ensures Run(f, w, ing, desired, orders) == w
  {
    if orders != [] {
      ConvergedIsQuiet(f, w, Snapshot(w.objects), ing, desired, before, orders[0]);
      QuietRun(f, w, ing, desired, before, orders[1..]);
    }
  }

  /** Every run of two or more passes ends in the desired table, and from the third pass on makes no call at all. */
  lemma RunConverges(f: Faults, w: World, ing: Ingress, desired: seq<Want>, orders: seq<bool>)
    requires NoFaults(f) && Settleable(w.objects, ing, IstioWants(desired))
    requires |orders| >= 2
    ensures Converged(w.objects, ing, IstioWants(desired), Run(f, w, ing, desired, orders).objects)
    ensures Run(f, w, ing, desired, orders) == Run(f, w, ing, desired, orders[..2])
  {
    TwoPassesSuffice(f, w, ing, desired, orders[0], orders[1]);
    var one := StalePass(f, w, ing, desired, orders[0]).world;
    var two := StalePass(f, one, ing, desired, orders[1]).world;
    assert Run(f, w, ing, desired, orders) == Run(f, one, ing, desired, orders[1..]) ==
           Run(f, two, ing, desired, orders[1..][1..]);
    QuietRun(f, two, ing, desired, w.objects, orders[1..][1..]);
    var o := orders[..2];
    assert Run(f, w, ing, desired, o) == Run(f, one, ing, desired, o[1..]) == Run(f, two, ing, desired, o[1..][1..]);
    assert o[1..][1..] == [];
  }

  // ---------------------------------------------------------------- passes that are refused on the way

  /** Some of the wants are in place, the rest and everything else are as before. */
  ghost predicate Partway(before: Objects, wants: seq<Want>, mid: Objects) {
    && (forall w :: w in wants ==> SameAt(before, mid, w.ref) || (w.ref in mid && mid[w.ref] == Put(before, w)))
    && (forall r :: !Wanted(wants, r) ==> SameAt(before, mid, r))
  }

  /** However far it gets. */
  lemma {:induction false} StaleCreatesPartway(f: Faults, w: World, seen: Objects, ing: Ingress, wants: seq<Want>)
    requires Settleable(seen, ing, wants) && ShowsTruly(seen, w.objects, wants)
    ensures Partway(w.objects, wants, ReconcileAll(f, w, Snapshot(seen), Some(ing.uid), wants).world.objects)
    decreases |wants|
  {
    if wants != [] {
      var first, rest := wants[0], wants[1..];
      assert wants == [first] + rest && first in wants;
      var s := Reconcile(f, w, Snapshot(seen), Some(ing.uid), first);
      if first.ref in seen { MergeSettles(seen[first.ref], first.obj); }
      assert s.world.objects == w.objects || s.world.objects == w.objects[first.ref := Put(w.objects, first)];
      if s.outcome == Done {
        assert s.world.objects == w.objects[first.ref := Put(w.objects, first)];
        SettleableTail(seen, w.objects, ing, wants, Put(w.objects, first));
        StaleCreatesPartway(f, s.world, seen, ing, rest);
        PartwayCons(w.objects, first, rest,
                    ReconcileAll(f, s.world, Snapshot(seen), Some(ing.uid), rest).world.objects);
      }
    }
  }

  lemma PartwayCons(before: Objects, first: Want, rest: seq<Want>, after: Objects)
    requires forall v :: v in rest ==> v.ref != first.ref
    requires Partway(before[first.ref := Put(before, first)], rest, after)
    ensures Partway(before, [first] + rest, after)
  {
    var mid, all := before[first.ref := Put(before, first)], [first] + rest;
    assert !Wanted(rest, first.ref);
    assert SameAt(mid, after, first.ref);
    forall r | !Wanted(all, r) ensures SameAt(before, after, r) {
      assert first in all && (forall v :: v in rest ==> v in all);
      assert !Wanted(rest, r) && SameAt(mid, after, r);
    }
    forall v | v in all ensures SameAt(before, after, v.ref) || (v.ref in after && after[v.ref] == Put(before, v)) {
      if v != first {
        assert SameAt(mid, after, v.ref) || after[v.ref] == Put(mid, v);
      }
    }
  }

  /** One selector's removal, and then both, whatever is refused. */
  lemma SelectorTakes(f: Faults, w: World, l: Lister, ing: Ingress, kept: set<string>, route: bool)
    returns (gone: set<Ref>)
    ensures SelectorPass(f, w, l, ing, kept, route).world.objects == w.objects - gone
    ensures gone <= Obsolete(View(l, w), ing, kept)
  {
    var seen := View(l, w);
    ObsoleteIsTarget(seen, ing, kept, route);
    BothLabelledEither(seen, ing, kept, route);
    gone := RemovalTakesTargets(f, w, seen, SortedRefs(Listed(seen, ing, route)), kept, ing.uid);
  }

  lemma RemovalTakes(f: Faults, w: World, l: Lister, ing: Ingress, kept: set<string>, routeFirst: bool)
    returns (gone: set<Ref>)
    ensures RemovalPass(f, w, l, ing, kept, routeFirst).world.objects == w.objects - gone
    ensures gone <= Obsolete(View(l, w), ing, kept)
  {
    gone := SelectorTakes(f, w, l, ing, kept, routeFirst);
    var a := SelectorPass(f, w, l, ing, kept, routeFirst);
    if a.outcome == Done {
      var more := SelectorTakes(f, a.world, l, ing, kept, !routeFirst);
      RemoveTwice(w.objects, gone, more);
      ObsoleteAfterRemoval(w.objects, gone, ing, kept, false);
      ObsoleteAfterRemoval(w.objects, gone, ing, kept, true);
      gone := gone + more;
    }
  }

  /** Where no two wants have one key, it does not matter whether the lister notices what the pass itself puts in
      place. */
  lemma {:induction false} LiveAsSnapshot(f: Faults, w: World, seen: Objects, ing: Ingress, wants: seq<Want>)
    requires Settleable(seen, ing, wants) && ShowsTruly(seen, w.objects, wants)
    ensures ReconcileAll(f, w, Live, Some(ing.uid), wants) == ReconcileAll(f, w, Snapshot(seen), Some(ing.uid), wants)
    decreases |wants|
  {
    if wants != [] {
      var first := wants[0];
      assert first in wants;
      var s := Reconcile(f, w, Live, Some(ing.uid), first);
      if s.outcome == Done {
        if first.ref in seen { MergeSettles(seen[first.ref], first.obj); }
        assert s.world.objects == w.objects[first.ref := Put(w.objects, first)];
        SettleableTail(seen, w.objects, ing, wants, Put(w.objects, first));
        LiveAsSnapshot(f, s.world, seen, ing, wants[1..]);
      }
    }
  }

  /** Whatever is refused, and with a cache that is up to date or only was when the pass began: a pass leaves some
      wants in place and takes some obsolete objects away. */
  lemma RefusedPassEffect(f: Faults, w: World, l: Lister, ing: Ingress, desired: seq<Want>, routeFirst: bool)
    returns (mid: Objects, gone: set<Ref>)
    requires View(l, w) == w.objects && Settleable(w.objects, ing, IstioWants(desired))
    ensures Partway(w.objects, IstioWants(desired), mid)
    ensures gone <= Obsolete(w.objects, ing, NamesOf(IstioWants(desired)))
    ensures Pass(f, w, l, ing, desired, routeFirst).world.objects == mid - gone
  {
    var wants := IstioWants(desired);
    var kept := NamesOf(wants);
    var s := ReconcileAll(f, w, l, Some(ing.uid), wants);
    StaleCreatesPartway(f, w, w.objects, ing, wants);
    LiveAsSnapshot(f, w, w.objects, ing, wants);
    mid, gone := s.world.objects, {};
    assert mid - {} == mid;
    if s.outcome == Done {
      gone := RemovalTakes(f, s.world, l, ing, kept, routeFirst);
      if l.Live? {
        PartwayObsolete(w.objects, ing, wants, mid);
      }
    }
  }

  lemma PartwayObsolete(before: Objects, ing: Ingress, wants: seq<Want>, mid: Objects)
    requires Partway(before, wants, mid)
    ensures Obsolete(mid, ing, NamesOf(wants)) == Obsolete(before, ing, NamesOf(wants))
  {
    forall r: Ref | r.name !in NamesOf(wants) ensures SameAt(before, mid, r) {
      assert !Wanted(wants, r);
    }
  }

  /** What is left of an unwanted object, and whether it is obsolete, is as before. */
  lemma PartwayUnwanted(before: Objects, ing: Ingress, wants: seq<Want>, mid: Objects, gone: set<Ref>, r: Ref)
    requires Partway(before, wants, mid) && !Wanted(wants, r)
    ensures r in mid - gone <==> r in before && r !in gone
    ensures r in mid - gone ==> (mid - gone)[r] == before[r]
    ensures r in Obsolete(mid - gone, ing, NamesOf(wants)) <==> r in Obsolete(before, ing, NamesOf(wants)) && r !in gone
  {
    assert SameAt(before, mid, r);
  }

  lemma PartwayWanted(before: Objects, ing: Ingress, wants: seq<Want>, mid: Objects, gone: set<Ref>, w: Want)
    requires Partway(before, wants, mid) && w in wants && gone <= Obsolete(before, ing, NamesOf(wants))
    ensures SameAt(before, mid - gone, w.ref) || (w.ref in mid - gone && (mid - gone)[w.ref] == Put(before, w))
    ensures Put(mid - gone, w) == Put(before, w)
  {
    assert w.ref.name in NamesOf(wants) && w.ref !in gone;
    assert SameAt(mid, mid - gone, w.ref);
    PutIsStable(before, w);
  }

  /** A pass keeps the goal and the way to it, whatever is refused. */
  lemma RefusedPassKeepsGoal(f: Faults, w: World, l: Lister, ing: Ingress, desired: seq<Want>, routeFirst: bool,
                             goal: Objects)
    requires View(l, w) == w.objects && Settleable(w.objects, ing, IstioWants(desired))
    ensures Settleable(Pass(f, w, l, ing, desired, routeFirst).world.objects, ing, IstioWants(desired))
    ensures Converged(Pass(f, w, l, ing, desired, routeFirst).world.objects, ing, IstioWants(desired), goal) ==>
            Converged(w.objects, ing, IstioWants(desired), goal)
  {
    var wants := IstioWants(desired);
    var mid, gone := RefusedPassEffect(f, w, l, ing, desired, routeFirst);
    forall want | want in wants && want.ref in mid - gone ensures ControlledBy((mid - gone)[want.ref], ing.uid) {
      PartwayWanted(w.objects, ing, wants, mid, gone, want);
      if want.ref in w.objects { MergeSettles(w.objects[want.ref], want.obj); }
    }
    if Converged(mid - gone, ing, wants, goal) {
      GoalKeptPartway(w.objects, ing, wants, mid, gone, goal);
    }
  }

  lemma GoalKeptPartway(before: Objects, ing: Ingress, wants: seq<Want>, mid: Objects, gone: set<Ref>, goal: Objects)
    requires Partway(before, wants, mid) && gone <= Obsolete(before, ing, NamesOf(wants))
    requires Converged(mid - gone, ing, wants, goal)
    ensures Converged(before, ing, wants, goal)
  {
    forall w | w in wants ensures w.ref in goal && goal[w.ref] == Put(before, w) {
      PartwayWanted(before, ing, wants, mid, gone, w);
    }
    forall r | !Wanted(wants, r)
      ensures (r in goal <==> r in before && r !in Obsolete(before, ing, NamesOf(wants)))
      ensures (r in goal ==> goal[r] == before[r])
    {
      PartwayUnwanted(before, ing, wants, mid, gone, r);
    }
  }

  /** A pass with its own refusals, its own order of the selectors, and a cache that is up to date or was when it
      began. */
  datatype Try = Try(refuses: Faults, routeFirst: bool, stale: bool)

  function CacheOf(w: World, stale: bool): (l: Lister)
    ensures View(l, w) == w.objects
  {
    if stale then Snapshot(w.objects) else Live
  }

  function RefusedRun(w: World, ing: Ingress, desired: seq<Want>, tries: seq<Try>): World
    decreases |tries|
  {
    if tries == [] then w else
      var t := tries[0];
      RefusedRun(Pass(t.refuses, w, CacheOf(w, t.stale), ing, desired, t.routeFirst).world, ing, desired, tries[1..])
  }

  lemma {:induction false} RefusedRunKeepsGoal(w: World, ing: Ingress, desired: seq<Want>, tries: seq<Try>,
                                               goal: Objects)
    requires Settleable(w.objects, ing, IstioWants(desired))
    ensures Settleable(RefusedRun(w, ing, desired, tries).objects, ing, IstioWants(desired))
    ensures Converged(RefusedRun(w, ing, desired, tries).objects, ing, IstioWants(desired), goal) ==>
            Converged(w.objects, ing, IstioWants(desired), goal)
    decreases |tries|
  {
    if tries != [] {
      var t := tries[0];
      var next := Pass(t.refuses, w, CacheOf(w, t.stale), ing, desired, t.routeFirst).world;
      RefusedPassKeepsGoal(t.refuses, w, CacheOf(w, t.stale), ing, desired, t.routeFirst, goal);
      RefusedRunKeepsGoal(next, ing, desired, tries[1..], goal);
    }
  }

  /** Any number of passes stopped by refusals, and then two that meet none: the table is the one that the first pass
      was for, as if nothing had ever been refused. */
  lemma RetriesConverge(f: Faults, w: World, ing: Ingress, desired: seq<Want>, tries: seq<Try>, orders: seq<bool>)
    requires NoFaults(f) && Settleable(w.objects, ing, IstioWants(desired)) && |orders| >= 2
    ensures Converged(w.objects, ing, IstioWants(desired),
                      Run(f, RefusedRun(w, ing, desired, tries), ing, desired, orders).objects)
  {
    var mid := RefusedRun(w, ing, desired, tries);
    var goal := Run(f, mid, ing, desired, orders).objects;
    RefusedRunKeepsGoal(w, ing, desired, tries, goal);
    RunConverges(f, mid, ing, desired, orders);
  }

  /** A list that is worked off without failure met no foreign object that the cache shows. */
  lemma {:induction false} StaleDoneMeansOwned(f: Faults, w: World, seen: Objects, uid: string, wants: seq<Want>)
    requires ReconcileAll(f, w, Snapshot(seen), Some(uid), wants).outcome == Done
    requires forall want :: want in wants ==> ControlledBy(want.obj, uid)
    ensures Ownable(seen, Some(uid), wants)
    decreases |wants|
  {
    if wants != [] {
      assert wants == [wants[0]] + wants[1..];
      StaleDoneMeansOwned(f, Reconcile(f, w, Snapshot(seen), Some(uid), wants[0]).world, seen, uid, wants[1..]);
    }
  }

  /** An Ingress with a route label that wants nothing any more, and a service made for it earlier, with both labels. */
  function Outdated(): (Ingress, Objects) {
    var ing := Ingress("n", "i", "u", map[ROUTE_LABEL := "r"], map[], [], [], "Enabled");
    var labels := map[INGRESS_LABEL := "i", ROUTE_LABEL := "r"];
    (ing, map[Ref(VirtualServiceKind, "n", "old") :=
                Object(labels, map[], ControllerRef("u"), VirtualServiceBody(VirtualServiceSpec([], [], [])))])
  }

  /** It does happen that the first pass fails. */
  lemma FirstPassCanFail(f: Faults, routeFirst: bool)
    requires NoFaults(f)
    ensures var (ing, objects) := Outdated();
            StalePass(f, World(objects, 0, []), ing, [], routeFirst).outcome != Done
  {
    var (ing, objects) := Outdated();
    var stale := Ref(VirtualServiceKind, "n", "old");
    assert INGRESS_LABEL[0] == 'n' && ROUTE_LABEL[0] == 's';
    assert OwnersControlledBy(ControllerRef("u"), "u");
    assert stale in BothLabelled(objects, ing, NamesOf(IstioWants([])));
    FirstPassFailsExactly(f, World(objects, 0, []), ing, [], routeFirst);
  }
}
