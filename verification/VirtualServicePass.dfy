/** One pass over the VirtualServices of an Ingress: put the desired ones in place, then remove what is left over. */
module VirtualServicePass {
  import opened Secrets
  import opened Store
  import opened Strings
  import opened Types

  // ---------------------------------------------------------------- the pass

  predicate IsIstioClass(w: Want) {
    Get(w.obj.annotations, CLASS_ANNOTATION) == ISTIO_CLASS
  }

  /** Only objects annotated with the Istio class are put in place. */
  function IstioWants(desired: seq<Want>): (wants: seq<Want>)
    ensures forall w :: w in wants <==> w in desired && IsIstioClass(w)
  {
    if desired == [] then []
    else if IsIstioClass(desired[0]) then [desired[0]] + IstioWants(desired[1..]) else IstioWants(desired[1..])
  }

  function NamesOf(wants: seq<Want>): (s: set<string>)
    ensures forall w :: w in wants ==> w.ref.name in s
    ensures forall n :: n in s ==> exists w :: w in wants && w.ref.name == n
  {
    set w | w in wants :: w.ref.name
  }

  /** A lister for the empty namespace lists every namespace. */
  predicate InScope(namespace: string, r: Ref) {
    r.kind.VirtualServiceKind? && (namespace == "" || r.namespace == namespace)
  }

  /** The label that says which Ingress it is, and the route label, which is looked for on behalf of services made
      before there was the other one. Those made today carry both, if the Ingress has a route label. */
  function Selector(ing: Ingress, route: bool): Labels {
    if route then map[ROUTE_LABEL := Get(ing.labels, ROUTE_LABEL)] else map[INGRESS_LABEL := ing.name]
  }

  function Listed(view: Objects, ing: Ingress, route: bool): set<Ref> {
    set r | r in view && InScope(ing.namespace, r) && Selects(Selector(ing, route), view[r].labels)
  }

  function RefNames(s: set<Ref>): (names: set<string>)
    ensures forall r :: r in s ==> r.name in names
    ensures forall n :: n in names ==> exists r :: r in s && r.name == n
  {
    set r | r in s :: r.name
  }

  function RefNamespaces(s: set<Ref>, name: string): (namespaces: set<string>)
    ensures forall r :: r in s && r.name == name ==> r.namespace in namespaces
    ensures forall n :: n in namespaces ==> exists r :: r in s && r.name == name && r.namespace == n
  {
    set r | r in s && r.name == name :: r.namespace
  }

  lemma NonEmptyRefs(s: set<Ref>)
    requires s != {}
    ensures RefNames(s) != {} && forall n :: n in RefNames(s) ==> RefNamespaces(s, n) != {}
  {
    var r :| r in s;
    assert r.name in RefNames(s);
    forall n | n in RefNames(s) ensures RefNamespaces(s, n) != {} {
      var q :| q in s && q.name == n;
      assert q.namespace in RefNamespaces(s, n);
    }
  }

  function LeastRef(s: set<Ref>): (m: Ref)
    requires s != {} && forall r :: r in s ==> r.kind.VirtualServiceKind?
    ensures m in s
  {
    NonEmptyRefs(s);
    var n := Least(RefNames(s));
    Ref(VirtualServiceKind, Least(RefNamespaces(s, n)), n)
  }

  /** By name, to get a stable deletion order. */
  function SortedRefs(s: set<Ref>): (l: seq<Ref>)
    requires forall r :: r in s ==> r.kind.VirtualServiceKind?
    ensures forall r :: r in l <==> r in s
    decreases |s|
  {
    if s == {} then [] else
      var m := LeastRef(s);
      [m] + SortedRefs(s - {m})
  }

  lemma {:induction false} SortedRefsDistinct(s: set<Ref>)
    requires forall r :: r in s ==> r.kind.VirtualServiceKind?
    ensures Distinct(SortedRefs(s))
    decreases |s|
  {
    if s != {} {
      var m := LeastRef(s);
      SortedRefsDistinct(s - {m});
      DistinctCons(m, SortedRefs(s - {m}));
    }
  }

  lemma LeastRefIsLeast(s: set<Ref>, r: Ref)
    requires r in s && forall r :: r in s ==> r.kind.VirtualServiceKind?
    ensures LexLe(LeastRef(s).name, r.name)
  {
    NonEmptyRefs(s);
    assert IsLeast(Least(RefNames(s)), RefNames(s));
    assert r.name in RefNames(s);
  }

  ghost predicate AscendingByName(l: seq<Ref>) {
    forall i, j :: 0 <= i < j < |l| ==> LexLe(l[i].name, l[j].name)
  }

  lemma AscendingCons(m: Ref, rest: seq<Ref>)
    requires AscendingByName(rest) && forall r :: r in rest ==> LexLe(m.name, r.name)
    ensures AscendingByName([m] + rest)
  {
    assert forall j :: 0 <= j < |rest| ==> rest[j] in rest;
  }

  /** The deletion order is by name. */
  lemma {:induction false} SortedRefsAscend(s: set<Ref>)
    requires forall r :: r in s ==> r.kind.VirtualServiceKind?
    ensures AscendingByName(SortedRefs(s))
    decreases |s|
  {
    if s != {} {
      var m := LeastRef(s);
      var rest := SortedRefs(s - {m});
      SortedRefsAscend(s - {m});
      forall r | r in rest ensures LexLe(m.name, r.name) {
        LeastRefIsLeast(s, r);
      }
      AscendingCons(m, rest);
    }
  }

  /** Not kept, and controlled by the Ingress as far as the lister shows. */
  predicate Removable(view: Objects, r: Ref, kept: set<string>, uid: string) {
    r in view && r.name !in kept && ControlledBy(view[r], uid)
  }

  function RemoveObsolete(f: Faults, w: World, view: Objects, refs: seq<Ref>, kept: set<string>, uid: string): Step
    decreases |refs|
  {
    if refs == [] then Step(w, Done)
    else if !Removable(view, refs[0], kept, uid) then RemoveObsolete(f, w, view, refs[1..], kept, uid)
    else
      var s := Delete(f, w, refs[0]);
      if s.outcome.Failed? then s else RemoveObsolete(f, s.world, view, refs[1..], kept, uid)
  }

  function SelectorPass(f: Faults, w: World, l: Lister, ing: Ingress, kept: set<string>, route: bool): Step {
    RemoveObsolete(f, w, View(l, w), SortedRefs(Listed(View(l, w), ing, route)), kept, ing.uid)
  }

  /** The selectors are a Go map: `routeFirst` says which of the two orders this pass iterates in. */
  function RemovalPass(f: Faults, w: World, l: Lister, ing: Ingress, kept: set<string>, routeFirst: bool): Step {
    var a := SelectorPass(f, w, l, ing, kept, routeFirst);
    if a.outcome.Failed? then a else SelectorPass(f, a.world, l, ing, kept, !routeFirst)
  }

  function Pass(f: Faults, w: World, l: Lister, ing: Ingress, desired: seq<Want>, routeFirst: bool): Step {
    var s := ReconcileAll(f, w, l, Some(ing.uid), IstioWants(desired));
    if s.outcome.Failed? then s else RemovalPass(f, s.world, l, ing, NamesOf(IstioWants(desired)), routeFirst)
  }

  // ---------------------------------------------------------------- what removal does

  /** The members of a list that a removal loop goes for. */
  function Targets(view: Objects, refs: seq<Ref>, kept: set<string>, uid: string): (t: set<Ref>)
    ensures forall r :: r in t <==> r in refs && Removable(view, r, kept, uid)
  {
    set r | r in refs && Removable(view, r, kept, uid)
  }

  lemma TargetsCons(view: Objects, refs: seq<Ref>, kept: set<string>, uid: string)
    requires refs != []
    ensures Targets(view, refs, kept, uid) ==
            Targets(view, refs[1..], kept, uid) + if Removable(view, refs[0], kept, uid) then {refs[0]} else {}
  {
    assert refs == [refs[0]] + refs[1..];
  }

  /** Removal only ever takes targets away, and all of them when it ends without failure. */
  lemma {:induction false} RemovalTakesTargets(f: Faults, w: World, view: Objects, refs: seq<Ref>, kept: set<string>,
                                               uid: string)
    returns (gone: set<Ref>)
    ensures var s := RemoveObsolete(f, w, view, refs, kept, uid);
            && gone <= Targets(view, refs, kept, uid) && gone <= w.objects.Keys
            && s.world.objects == w.objects - gone
            && (s.outcome == Done ==> gone == Targets(view, refs, kept, uid))
    decreases |refs|
  {
    if refs == [] {
      gone := {};
      assert w.objects - {} == w.objects;
    } else {
      TargetsCons(view, refs, kept, uid);
      if !Removable(view, refs[0], kept, uid) {
        gone := RemovalTakesTargets(f, w, view, refs[1..], kept, uid);
      } else {
        var s := Delete(f, w, refs[0]);
        if s.outcome.Failed? {
          gone := {};
          assert w.objects - {} == w.objects;
        } else {
          var more := RemovalTakesTargets(f, s.world, view, refs[1..], kept, uid);
          gone := {refs[0]} + more;
          assert (w.objects - {refs[0]}) - more == w.objects - gone;
        }
      }
    }
  }

  /** Without refusals, removal fails exactly when one of its targets is already absent. */
  lemma {:induction false} RemovalFailsExactly(f: Faults, w: World, view: Objects, refs: seq<Ref>, kept: set<string>,
                                               uid: string)
    requires NoFaults(f) && Distinct(refs)
    ensures RemoveObsolete(f, w, view, refs, kept, uid).outcome == Done <==>
            Targets(view, refs, kept, uid) <= w.objects.Keys
    decreases |refs|
  {
    if refs != [] {
      var rest := refs[1..];
      TargetsCons(view, refs, kept, uid);
      assert refs[0] !in Targets(view, rest, kept, uid) by {
        assert forall i :: 0 <= i < |rest| ==> rest[i] == refs[i + 1];
      }
      if Removable(view, refs[0], kept, uid) {
        RemovalFailsExactly(f, Delete(f, w, refs[0]).world, view, rest, kept, uid);
      } else {
        RemovalFailsExactly(f, w, view, rest, kept, uid);
      }
    }
  }

  // ---------------------------------------------------------------- what is obsolete

  function ObsoleteBy(objects: Objects, ing: Ingress, kept: set<string>, route: bool): (o: set<Ref>)
    ensures forall r :: r in o <==>
              r in objects && InScope(ing.namespace, r) && Selects(Selector(ing, route), objects[r].labels)
              && Removable(objects, r, kept, ing.uid)
  {
    set r | r in objects && InScope(ing.namespace, r) && Selects(Selector(ing, route), objects[r].labels)
            && Removable(objects, r, kept, ing.uid)
  }

  /** Labelled for the Ingress in either way, controlled by it, and not kept. */
  function Obsolete(objects: Objects, ing: Ingress, kept: set<string>): set<Ref> {
    ObsoleteBy(objects, ing, kept, false) + ObsoleteBy(objects, ing, kept, true)
  }

  lemma ObsoleteIsTarget(objects: Objects, ing: Ingress, kept: set<string>, route: bool)
    ensures ObsoleteBy(objects, ing, kept, route) ==
            Targets(objects, SortedRefs(Listed(objects, ing, route)), kept, ing.uid)
    ensures ObsoleteBy(objects, ing, kept, route) <= objects.Keys
  {
  }

  lemma ObsoleteAfterRemoval(objects: Objects, gone: set<Ref>, ing: Ingress, kept: set<string>, route: bool)
    ensures ObsoleteBy(objects - gone, ing, kept, route) == ObsoleteBy(objects, ing, kept, route) - gone
  {
  }

  /** Putting wants in place does not change what is obsolete beside them. */
  lemma ObsoleteAfterAchieved(before: Objects, wants: seq<Want>, after: Objects, ing: Ingress, route: bool)
    requires Achieved(before, wants, after)
    ensures ObsoleteBy(after, ing, NamesOf(wants), route) == ObsoleteBy(before, ing, NamesOf(wants), route)
  {
    forall r: Ref | r.name !in NamesOf(wants) ensures !Wanted(wants, r) {
    }
  }

  /** The table the pass is for: wants in place, obsolete objects gone, everything else as it was. */
  ghost predicate Converged(before: Objects, ing: Ingress, wants: seq<Want>, after: Objects) {
    && (forall w :: w in wants ==> w.ref in after && after[w.ref] == Put(before, w))
    && (forall r :: !Wanted(wants, r) ==>
          && (r in after <==> r in before && r !in Obsolete(before, ing, NamesOf(wants)))
          && (r in after ==> after[r] == before[r]))
  }

  lemma ConvergedUnique(before: Objects, ing: Ingress, wants: seq<Want>, a: Objects, b: Objects)
    requires Converged(before, ing, wants, a) && Converged(before, ing, wants, b)
    ensures a == b
  {
    forall r ensures (r in a <==> r in b) && (r in a ==> a[r] == b[r]) {
      if Wanted(wants, r) {
        var w :| w in wants && w.ref == r;
      }
    }
  }

  lemma ConvergedFromAchieved(before: Objects, ing: Ingress, wants: seq<Want>, mid: Objects, after: Objects)
    requires Achieved(before, wants, mid)
    requires after == mid - Obsolete(before, ing, NamesOf(wants))
    ensures Converged(before, ing, wants, after)
  {
    forall w | w in wants ensures w.ref in after && after[w.ref] == Put(before, w) {
      assert w.ref.name in NamesOf(wants);
    }
  }

  // ---------------------------------------------------------------- a live pass

  lemma SelectorRemoves(f: Faults, w: World, ing: Ingress, kept: set<string>, route: bool)
    requires SelectorPass(f, w, Live, ing, kept, route).outcome == Done
    ensures SelectorPass(f, w, Live, ing, kept, route).world.objects ==
            w.objects - ObsoleteBy(w.objects, ing, kept, route)
  {
    ObsoleteIsTarget(w.objects, ing, kept, route);
    var gone := RemovalTakesTargets(f, w, w.objects, SortedRefs(Listed(w.objects, ing, route)), kept, ing.uid);
  }

  lemma LiveRemoval(f: Faults, w: World, ing: Ingress, kept: set<string>, routeFirst: bool)
    requires RemovalPass(f, w, Live, ing, kept, routeFirst).outcome == Done
    ensures RemovalPass(f, w, Live, ing, kept, routeFirst).world.objects == w.objects - Obsolete(w.objects, ing, kept)
  {
    var a := SelectorPass(f, w, Live, ing, kept, routeFirst).world;
    SelectorRemoves(f, w, ing, kept, routeFirst);
    SelectorRemoves(f, a, ing, kept, !routeFirst);
    var gone, more := ObsoleteBy(w.objects, ing, kept, routeFirst), ObsoleteBy(w.objects, ing, kept, !routeFirst);
    ObsoleteAfterRemoval(w.objects, gone, ing, kept, !routeFirst);
    RemoveTwice(w.objects, gone, more);
    assert gone + more == Obsolete(w.objects, ing, kept);
  }

  /** What a live pass that ends without failure leaves behind, whatever was refused or iterated in which order. */
  lemma LivePassConverges(f: Faults, w: World, ing: Ingress, desired: seq<Want>, routeFirst: bool)
    requires Consistent(IstioWants(desired))
    requires Pass(f, w, Live, ing, desired, routeFirst).outcome == Done
    ensures Converged(w.objects, ing, IstioWants(desired), Pass(f, w, Live, ing, desired, routeFirst).world.objects)
  {
    var wants := IstioWants(desired);
    var mid := ReconcileAll(f, w, Live, Some(ing.uid), wants).world;
    ReconcileAllAchieves(f, w, Some(ing.uid), wants);
    LiveRemoval(f, mid, ing, NamesOf(wants), routeFirst);
    ObsoleteAfterAchieved(w.objects, wants, mid.objects, ing, false);
    ObsoleteAfterAchieved(w.objects, wants, mid.objects, ing, true);
    ConvergedFromAchieved(w.objects, ing, wants, mid.objects, Pass(f, w, Live, ing, desired, routeFirst).world.objects);
  }

  /** There is one such table: live passes that end without failure give the same, in either order of the selectors and
      whatever was refused on the way. */
  lemma LivePassesAgree(f: Faults, f': Faults, w: World, ing: Ingress, desired: seq<Want>, routeFirst: bool,
                        routeFirst': bool)
    requires Consistent(IstioWants(desired))
    requires Pass(f, w, Live, ing, desired, routeFirst).outcome == Done
    requires Pass(f', w, Live, ing, desired, routeFirst').outcome == Done
    ensures Pass(f, w, Live, ing, desired, routeFirst).world.objects ==
            Pass(f', w, Live, ing, desired, routeFirst').world.objects
  {
    LivePassConverges(f, w, ing, desired, routeFirst);
    LivePassConverges(f', w, ing, desired, routeFirst');
    ConvergedUnique(w.objects, ing, IstioWants(desired), Pass(f, w, Live, ing, desired, routeFirst).world.objects,
                    Pass(f', w, Live, ing, desired, routeFirst').world.objects);
  }

  /** Labelled in either way for the Ingress and controlled by it. */
  predicate OwnVirtualService(objects: Objects, ing: Ingress, r: Ref) {
    && r in objects && InScope(ing.namespace, r) && ControlledBy(objects[r], ing.uid)
    && (Selects(Selector(ing, false), objects[r].labels) || Selects(Selector(ing, true), objects[r].labels))
  }

  ghost predicate MadeFor(ing: Ingress, wants: seq<Want>) {
    forall w :: w in wants ==>
      && w.ref.kind.VirtualServiceKind? && w.obj.body.VirtualServiceBody? && ControlledBy(w.obj, ing.uid)
      && (ing.namespace != "" ==> w.ref.namespace == ing.namespace)
  }

  lemma NothingElseLeft(before: Objects, ing: Ingress, wants: seq<Want>, after: Objects)
    requires Converged(before, ing, wants, after)
    ensures forall r :: OwnVirtualService(after, ing, r) ==> r.name in NamesOf(wants)
  {
    forall r | OwnVirtualService(after, ing, r) ensures r.name in NamesOf(wants) {
      assert r.name !in NamesOf(wants) ==> !Wanted(wants, r);
    }
  }

  /** After a successful live pass: each desired Istio-class service has the desired spec, labels and annotations and is
      controlled by the Ingress; no other own service is left; with another class none is. */
  lemma LivePassResult(f: Faults, w: World, ing: Ingress, desired: seq<Want>, routeFirst: bool)
    requires Consistent(IstioWants(desired)) && MadeFor(ing, IstioWants(desired))
    requires Pass(f, w, Live, ing, desired, routeFirst).outcome == Done
    ensures var after := Pass(f, w, Live, ing, desired, routeFirst).world.objects;
            && (forall d :: d in desired && IsIstioClass(d) ==>
                  && d.ref in after && after[d.ref].body == d.obj.body && after[d.ref].labels == d.obj.labels
                  && after[d.ref].annotations == d.obj.annotations && ControlledBy(after[d.ref], ing.uid))
            && (forall r :: OwnVirtualService(after, ing, r) ==> r.name in NamesOf(IstioWants(desired)))
            && (ing.namespace != "" ==> forall r :: OwnVirtualService(after, ing, r) ==>
                  exists d :: d in desired && IsIstioClass(d) && d.ref == r)
            && ((forall d :: d in desired ==> !IsIstioClass(d)) ==> forall r :: !OwnVirtualService(after, ing, r))
  {
    var wants := IstioWants(desired);
    var after := Pass(f, w, Live, ing, desired, routeFirst).world.objects;
    LivePassConverges(f, w, ing, desired, routeFirst);
    DoneMeansOwned(f, w, ing.uid, wants);
    forall d | d in desired && IsIstioClass(d)
      ensures d.ref in after && after[d.ref].body == d.obj.body && after[d.ref].labels == d.obj.labels
      ensures after[d.ref].annotations == d.obj.annotations && ControlledBy(after[d.ref], ing.uid)
    {
      if d.ref in w.objects { MergeSettles(w.objects[d.ref], d.obj); }
    }
    NothingElseLeft(w.objects, ing, wants, after);
    if ing.namespace != "" {
      forall r | OwnVirtualService(after, ing, r) ensures exists d :: d in desired && IsIstioClass(d) && d.ref == r {
        var d :| d in wants && d.ref.name == r.name;
        assert d.ref == r;
      }
    }
  }

  lemma LiveRemovalSucceeds(f: Faults, w: World, ing: Ingress, kept: set<string>, routeFirst: bool)
    requires NoFaults(f)
    ensures RemovalPass(f, w, Live, ing, kept, routeFirst).outcome == Done
  {
    var a := SelectorPass(f, w, Live, ing, kept, routeFirst).world;
    SortedRefsDistinct(Listed(w.objects, ing, routeFirst));
    SortedRefsDistinct(Listed(a.objects, ing, !routeFirst));
    ObsoleteIsTarget(w.objects, ing, kept, routeFirst);
    ObsoleteIsTarget(a.objects, ing, kept, !routeFirst);
    RemovalFailsExactly(f, w, w.objects, SortedRefs(Listed(w.objects, ing, routeFirst)), kept, ing.uid);
    RemovalFailsExactly(f, a, a.objects, SortedRefs(Listed(a.objects, ing, !routeFirst)), kept, ing.uid);
  }

  /** Without refusals a live pass fails exactly when a desired name is held by an object of someone else. */
  lemma LivePassSucceedsExactly(f: Faults, w: World, ing: Ingress, desired: seq<Want>, routeFirst: bool)
    requires NoFaults(f) && MadeFor(ing, IstioWants(desired))
    ensures Pass(f, w, Live, ing, desired, routeFirst).outcome == Done <==>
            forall d :: d in desired && IsIstioClass(d) && d.ref in w.objects ==>
              ControlledBy(w.objects[d.ref], ing.uid)
  {
    var wants := IstioWants(desired);
    var s := ReconcileAll(f, w, Live, Some(ing.uid), wants);
    if s.outcome == Done {
      DoneMeansOwned(f, w, ing.uid, wants);
      LiveRemovalSucceeds(f, s.world, ing, NamesOf(wants), routeFirst);
    } else if Ownable(w.objects, Some(ing.uid), wants) {
      OwnableSucceeds(f, w, ing.uid, wants);
    }
  }
}
