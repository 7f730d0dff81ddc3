/** The API server: a table of objects that every call reads or changes, and the create-or-update step of the
    accessors. */
module Store {
  import opened Types

  datatype Verb = CreateVerb | UpdateVerb | DeleteVerb

  /** A successful write, with the object it replaced or removed. */
  datatype Write = Write(verb: Verb, ref: Ref, before: Option<Object>)

  datatype World = World(objects: Objects, calls: nat, log: seq<Write>)

  /** Which calls the server refuses, by number. A refused call changes nothing. */
  type Faults = nat -> bool

  ghost predicate NoFaults(f: Faults) {
    forall n :: !f(n)
  }

  datatype Step = Step(world: World, outcome: Outcome)

  // ---------------------------------------------------------------- calls

  function Create(f: Faults, w: World, want: Want): Step {
    if f(w.calls) then Step(w.(calls := w.calls + 1), Failed(Refused))
    else if want.ref in w.objects then Step(w.(calls := w.calls + 1), Failed(AlreadyExists))
    else Step(World(w.objects[want.ref := want.obj], w.calls + 1, w.log + [Write(CreateVerb, want.ref, None)]), Done)
  }

  function Update(f: Faults, w: World, ref: Ref, obj: Object): Step {
    if f(w.calls) then Step(w.(calls := w.calls + 1), Failed(Refused))
    else if ref !in w.objects then Step(w.(calls := w.calls + 1), Failed(NotFound))
    else Step(World(w.objects[ref := obj], w.calls + 1, w.log + [Write(UpdateVerb, ref, Some(w.objects[ref]))]), Done)
  }

  function Delete(f: Faults, w: World, ref: Ref): Step {
    if f(w.calls) then Step(w.(calls := w.calls + 1), Failed(Refused))
    else if ref !in w.objects then Step(w.(calls := w.calls + 1), Failed(NotFound))
    else Step(World(w.objects - {ref}, w.calls + 1, w.log + [Write(DeleteVerb, ref, Some(w.objects[ref]))]), Done)
  }

  // ---------------------------------------------------------------- create, not owned, update, or nothing

  /** Which fields count: spec, labels and annotations of a VirtualService, spec of a Gateway, data and labels of a
      Secret. */
  predicate Differs(existing: Object, desired: Object) {
    match desired.body
    case VirtualServiceBody(_) =>
      existing.body != desired.body || existing.labels != desired.labels || existing.annotations != desired.annotations
    case GatewayBody(_) => existing.body != desired.body
    case SecretBody(data, _, _) =>
      !(existing.body.SecretBody? && existing.body.data == data && existing.labels == desired.labels)
  }

  /** The stored object with those fields replaced and everything else, owners included, as it was. */
  function Merge(existing: Object, desired: Object): Object {
    match desired.body
    case VirtualServiceBody(_) =>
      existing.(body := desired.body, labels := desired.labels, annotations := desired.annotations)
    case GatewayBody(_) => existing.(body := desired.body)
    case SecretBody(data, typ, uid) =>
      existing.(labels := desired.labels,
                body := if existing.body.SecretBody? then existing.body.(data := data) else desired.body)
  }

  lemma MergeSettles(existing: Object, desired: Object)
    ensures Differs(existing, desired) <==> Merge(existing, desired) != existing
    ensures !Differs(Merge(existing, desired), desired) && !Differs(desired, desired)
    ensures Merge(existing, desired).owners == existing.owners
  {
  }

  /** A lister shows the table as it is, or as it was when a snapshot was taken. */
  datatype Lister = Live | Snapshot(seen: Objects)

  function View(l: Lister, w: World): Objects {
    if l.Live? then w.objects else l.seen
  }

  function Reconcile(f: Faults, w: World, l: Lister, owner: Option<string>, want: Want): Step {
    var view := View(l, w);
    if want.ref !in view then Create(f, w, want)
    else if owner.Some? && !ControlledBy(view[want.ref], owner.value) then Step(w, Failed(NotOwned(want.ref.name)))
    else if Differs(view[want.ref], want.obj) then Update(f, w, want.ref, Merge(view[want.ref], want.obj))
    else Step(w, Done)
  }

  /** One object after the other, up to the first failure. */
  function ReconcileAll(f: Faults, w: World, l: Lister, owner: Option<string>, wants: seq<Want>): Step
    decreases |wants|
  {
    if wants == [] then Step(w, Done) else
      var s := Reconcile(f, w, l, owner, wants[0]);
      if s.outcome.Failed? then s else ReconcileAll(f, s.world, l, owner, wants[1..])
  }

  // ---------------------------------------------------------------- what a list of steps achieves

  function Put(objects: Objects, want: Want): Object {
    if want.ref in objects then Merge(objects[want.ref], want.obj) else want.obj
  }

  lemma PutIsStable(objects: Objects, want: Want)
    ensures Merge(Put(objects, want), want.obj) == Put(objects, want)
  {
    MergeSettles(want.obj, want.obj);
    if want.ref in objects { MergeSettles(objects[want.ref], want.obj); }
    MergeSettles(Put(objects, want), want.obj);
  }

  /** The same object, or none, at one key. */
  ghost predicate SameAt(a: Objects, b: Objects, r: Ref) {
    (r in a <==> r in b) && (r in a ==> a[r] == b[r])
  }

  predicate Wanted(wants: seq<Want>, ref: Ref) {
    exists w :: w in wants && w.ref == ref
  }

  /** Two entries for one key ask for the same. */
  ghost predicate Consistent(wants: seq<Want>) {
    forall a, b :: a in wants && b in wants && a.ref == b.ref ==> a == b
  }

  /** Two entries for one key do the same to the table. */
  ghost predicate Compatible(objects: Objects, wants: seq<Want>) {
    forall a, b :: a in wants && b in wants && a.ref == b.ref ==> Put(objects, a) == Put(objects, b)
  }

  /** The table after all of the wants are in place and nothing else has changed. */
  ghost predicate Achieved(before: Objects, wants: seq<Want>, after: Objects) {
    && (forall w :: w in wants ==> w.ref in after && after[w.ref] == Put(before, w))
    && (forall r :: !Wanted(wants, r) ==> (r in after <==> r in before) && (r in after ==> after[r] == before[r]))
  }

  ghost predicate SameMembers(a: seq<Want>, b: seq<Want>) {
    forall w :: w in a <==> w in b
  }

  lemma AchievedUnique(before: Objects, wants: seq<Want>, a: Objects, b: Objects)
    requires Achieved(before, wants, a) && Achieved(before, wants, b)
    ensures a == b
  {
    forall r ensures (r in a <==> r in b) && (r in a ==> a[r] == b[r]) {
      if Wanted(wants, r) {
        var w :| w in wants && w.ref == r;
      }
    }
  }

  lemma StepAchieves(f: Faults, w: World, owner: Option<string>, want: Want)
    requires Reconcile(f, w, Live, owner, want).outcome == Done
    ensures Reconcile(f, w, Live, owner, want).world.objects == w.objects[want.ref := Put(w.objects, want)]
  {
    if want.ref in w.objects {
      MergeSettles(w.objects[want.ref], want.obj);
    }
  }

  /** The table once all of the wants have been put in place, one after the other. */
  function PutAll(objects: Objects, wants: seq<Want>): Objects
    decreases |wants|
  {
    if wants == [] then objects else PutAll(objects[wants[0].ref := Put(objects, wants[0])], wants[1..])
  }

  lemma {:induction false} DoneMeansPut(f: Faults, w: World, owner: Option<string>, wants: seq<Want>)
    requires ReconcileAll(f, w, Live, owner, wants).outcome == Done
    ensures ReconcileAll(f, w, Live, owner, wants).world.objects == PutAll(w.objects, wants)
    decreases |wants|
  {
    if wants != [] {
      StepAchieves(f, w, owner, wants[0]);
      DoneMeansPut(f, Reconcile(f, w, Live, owner, wants[0]).world, owner, wants[1..]);
    }
  }

  /** Once one is in place, the others still do the same, and nothing more under its key. */
  lemma CompatibleAfter(objects: Objects, first: Want, rest: seq<Want>)
    requires Compatible(objects, [first] + rest)
    ensures var next := objects[first.ref := Put(objects, first)];
            Compatible(next, rest) && forall v :: v in rest ==> Put(next, v) == Put(objects, v)
  {
    var next := objects[first.ref := Put(objects, first)];
    assert first in [first] + rest;
    forall v | v in rest ensures Put(next, v) == Put(objects, v) {
      assert v in [first] + rest;
      PutIsStable(objects, v);
    }
  }

  lemma {:induction false} PutAllAchieves(objects: Objects, wants: seq<Want>)
    requires Compatible(objects, wants)
    ensures Achieved(objects, wants, PutAll(objects, wants))
    decreases |wants|
  {
    if wants != [] {
      var first, rest := wants[0], wants[1..];
      assert wants == [first] + rest;
      CompatibleAfter(objects, first, rest);
      PutAllAchieves(objects[first.ref := Put(objects, first)], rest);
      AchievedCons(objects, first, rest, PutAll(objects, wants));
    }
  }

  lemma {:induction false} PutAllElsewhere(objects: Objects, wants: seq<Want>, r: Ref)
    requires !Wanted(wants, r)
    ensures SameAt(objects, PutAll(objects, wants), r)
    decreases |wants|
  {
    if wants != [] {
      assert wants[0] in wants;
      PutAllElsewhere(objects[wants[0].ref := Put(objects, wants[0])], wants[1..], r);
    }
  }

  /** A live pass that ends without failure leaves exactly the wanted objects in place. */
  lemma ReconcileAllAchieves(f: Faults, w: World, owner: Option<string>, wants: seq<Want>)
    requires ReconcileAll(f, w, Live, owner, wants).outcome == Done
    requires Compatible(w.objects, wants)
    ensures Achieved(w.objects, wants, ReconcileAll(f, w, Live, owner, wants).world.objects)
  {
    DoneMeansPut(f, w, owner, wants);
    PutAllAchieves(w.objects, wants);
  }

  lemma {:induction false} ReconcileAllConcat(f: Faults, w: World, l: Lister, owner: Option<string>, a: seq<Want>,
                                              b: seq<Want>)
    ensures ReconcileAll(f, w, l, owner, a + b) ==
            var s := ReconcileAll(f, w, l, owner, a);
            if s.outcome.Failed? then s else ReconcileAll(f, s.world, l, owner, b)
    decreases |a|
  {
    if a == [] {
      assert a + b == b;
    } else {
      assert (a + b)[1..] == a[1..] + b;
      ReconcileAllConcat(f, Reconcile(f, w, l, owner, a[0]).world, l, owner, a[1..], b);
    }
  }

  /** Nor does it matter in which order the list is worked off, or what was refused on the way. */
  lemma ReconcileOrderIndependent(f: Faults, f': Faults, w: World, owner: Option<string>, wants: seq<Want>,
                                  wants': seq<Want>)
    requires Compatible(w.objects, wants) && SameMembers(wants, wants')
    requires ReconcileAll(f, w, Live, owner, wants).outcome == Done
    requires ReconcileAll(f', w, Live, owner, wants').outcome == Done
    ensures ReconcileAll(f, w, Live, owner, wants).world.objects ==
            ReconcileAll(f', w, Live, owner, wants').world.objects
  {
    ReconcileAllAchieves(f, w, owner, wants);
    ReconcileAllAchieves(f', w, owner, wants');
    var a, b := ReconcileAll(f, w, Live, owner, wants).world.objects, ReconcileAll(f', w, Live, owner,
                                                                                   wants').world.objects;
    assert Achieved(w.objects, wants, b) by {
      assert forall r :: Wanted(wants, r) <==> Wanted(wants', r);
    }
    AchievedUnique(w.objects, wants, a, b);
  }

  lemma AchievedCons(before: Objects, first: Want, rest: seq<Want>, after: Objects)
    requires Compatible(before, [first] + rest)
    requires Achieved(before[first.ref := Put(before, first)], rest, after)
    ensures Achieved(before, [first] + rest, after)
  {
    var mid := before[first.ref := Put(before, first)];
    PutIsStable(before, first);
    CompatibleAfter(before, first, rest);
    var all := [first] + rest;
    assert forall v :: v in all <==> v == first || v in rest;
    forall r | !Wanted(all, r) ensures r != first.ref && !Wanted(rest, r) {
      assert first in all;
    }
  }

  lemma PutAllSame(objects: Objects, a: seq<Want>, b: seq<Want>)
    requires Compatible(objects, a) && SameMembers(a, b)
    ensures Compatible(objects, b) && PutAll(objects, a) == PutAll(objects, b)
  {
    PutAllAchieves(objects, a);
    PutAllAchieves(objects, b);
    assert forall r :: Wanted(a, r) <==> Wanted(b, r);
    AchievedUnique(objects, a, PutAll(objects, a), PutAll(objects, b));
  }

  /** An object of the kind that its key says. */
  predicate WellTyped(want: Want) {
    match want.ref.kind
    case VirtualServiceKind => want.obj.body.VirtualServiceBody?
    case GatewayKind => want.obj.body.GatewayBody?
    case SecretKind => want.obj.body.SecretBody?
  }

  ghost predicate AllWellTyped(wants: seq<Want>) {
    forall w :: w in wants ==> WellTyped(w)
  }

  lemma MergeOverMerge(existing: Object, a: Want, b: Want)
    requires WellTyped(a) && WellTyped(b) && a.ref == b.ref
    requires a.ref.kind.SecretKind? ==> existing.body.SecretBody?
    ensures Merge(Merge(existing, a.obj), b.obj) == Merge(existing, b.obj)
    ensures a.ref.kind.SecretKind? ==> Merge(existing, a.obj).body.SecretBody?
  {
  }

  /** Compatible means: no contradiction under a key, and the very same object where there is none yet. */
  lemma CompatibleExactly(objects: Objects, wants: seq<Want>)
    requires AllWellTyped(wants)
    requires forall r :: r in objects && r.kind.SecretKind? ==> objects[r].body.SecretBody?
    ensures Compatible(objects, wants) <==>
            forall a, b :: a in wants && b in wants && a.ref == b.ref ==>
              !Differs(a.obj, b.obj) && (a.ref in objects || a.obj == b.obj)
  {
    forall a, b | a in wants && b in wants && a.ref == b.ref
      ensures Put(objects, a) == Put(objects, b) <==> !Differs(a.obj, b.obj) && (a.ref in objects || a.obj == b.obj)
    {
      MergeSettles(a.obj, a.obj);
    }
  }

  /** Whatever else is put under a key between, the last one prevails in the fields that count, and what was there
      first in the others. */
  lemma {:induction false} LastPrevails(objects: Objects, wants: seq<Want>, v: Want)
    requires AllWellTyped(wants) && WellTyped(v) && v.ref in objects
    requires v.ref.kind.SecretKind? ==> objects[v.ref].body.SecretBody?
    ensures v.ref in PutAll(objects, wants)
    ensures Merge(PutAll(objects, wants)[v.ref], v.obj) == Merge(objects[v.ref], v.obj)
    decreases |wants|
  {
    if wants != [] {
      var first, rest := wants[0], wants[1..];
      assert first in wants;
      assert forall w :: w in rest ==> w in wants;
      if first.ref == v.ref { MergeOverMerge(objects[v.ref], first, v); }
      LastPrevails(objects[first.ref := Put(objects, first)], rest, v);
    }
  }

  lemma {:induction false} PutAllConcat(objects: Objects, a: seq<Want>, b: seq<Want>)
    ensures PutAll(objects, a + b) == PutAll(PutAll(objects, a), b)
    decreases |a|
  {
    if a == [] {
      assert a + b == b;
    } else {
      assert (a + b)[1..] == a[1..] + b;
      PutAllConcat(objects[a[0].ref := Put(objects, a[0])], a[1..], b);
    }
  }

  lemma FirstAndLast(objects: Objects, wants: seq<Want>, v: Want)
    requires AllWellTyped(wants) && v in wants
    requires v.ref.kind.SecretKind? && v.ref in objects ==> objects[v.ref].body.SecretBody?
    ensures SameMembers(wants, [v] + wants + [v]) && v.ref in PutAll(objects, [v] + wants + [v])
    ensures PutAll(objects, [v] + wants + [v])[v.ref] == Put(objects, v)
  {
    var next := objects[v.ref := Put(objects, v)];
    PutAllConcat(objects, [v], wants + [v]);
    PutAllConcat(next, wants, [v]);
    assert [v] + wants + [v] == [v] + (wants + [v]);
    LastPrevails(next, wants, v);
    PutIsStable(objects, v);
  }

  /** All orders of a list, repetitions included, lead to one table exactly when entries for one key do the same. */
  lemma OrderMattersExactly(objects: Objects, wants: seq<Want>)
    requires AllWellTyped(wants)
    requires forall r :: r in objects && r.kind.SecretKind? ==> objects[r].body.SecretBody?
    ensures Compatible(objects, wants) <==>
            forall wants' :: SameMembers(wants, wants') ==> PutAll(objects, wants') == PutAll(objects, wants)
  {
    if Compatible(objects, wants) {
      forall wants' | SameMembers(wants, wants') ensures PutAll(objects, wants') == PutAll(objects, wants) {
        PutAllSame(objects, wants, wants');
      }
    }
    if forall wants' :: SameMembers(wants, wants') ==> PutAll(objects, wants') == PutAll(objects, wants) {
      forall a, b | a in wants && b in wants && a.ref == b.ref ensures Put(objects, a) == Put(objects, b) {
        FirstAndLast(objects, wants, a);
        FirstAndLast(objects, wants, b);
      }
    }
  }

  /** Whatever the outcome, keys that are not wanted are left alone. */
  lemma {:induction false} ReconcileAllFrame(f: Faults, w: World, l: Lister, owner: Option<string>, wants: seq<Want>,
                                             r: Ref)
    requires !Wanted(wants, r)
    ensures var after := ReconcileAll(f, w, l, owner, wants).world.objects;
            (r in after <==> r in w.objects) && (r in after ==> after[r] == w.objects[r])
    decreases |wants|
  {
    if wants != [] {
      assert wants[0] in wants;
      var s := Reconcile(f, w, l, owner, wants[0]);
      assert (r in s.world.objects <==> r in w.objects) && (r in w.objects ==> s.world.objects[r] == w.objects[r]);
      ReconcileAllFrame(f, s.world, l, owner, wants[1..], r);
    }
  }

  // ---------------------------------------------------------------- wants that do not contradict each other

  /** Nobody asks for something else under the same key. */
  ghost predicate Agreeing(wants: seq<Want>) {
    forall a, b :: a in wants && b in wants && a.ref == b.ref ==> !Differs(a.obj, b.obj)
  }

  lemma DiffersTransitive(x: Object, a: Object, b: Object)
    requires !Differs(x, a) && !Differs(a, b)
    ensures !Differs(x, b) && !Differs(a, x)
  {
  }

  /** What is in place for one want stays so while others are put in place that do not contradict it. */
  lemma {:induction false} StaysInPlace(objects: Objects, v: Want, wants: seq<Want>)
    requires v.ref in objects && !Differs(objects[v.ref], v.obj)
    requires forall w :: w in wants && w.ref == v.ref ==> !Differs(w.obj, v.obj)
    ensures v.ref in PutAll(objects, wants) && !Differs(PutAll(objects, wants)[v.ref], v.obj)
    decreases |wants|
  {
    if wants != [] {
      var first := wants[0];
      assert first in wants;
      if first.ref == v.ref {
        MergeSettles(objects[v.ref], first.obj);
        DiffersTransitive(Put(objects, first), first.obj, v.obj);
      }
      StaysInPlace(objects[first.ref := Put(objects, first)], v, wants[1..]);
    }
  }

  lemma {:induction false} PutAllSatisfies(objects: Objects, wants: seq<Want>)
    requires Agreeing(wants)
    ensures Satisfied(PutAll(objects, wants), None, wants)
    decreases |wants|
  {
    if wants != [] {
      var first, rest := wants[0], wants[1..];
      assert wants == [first] + rest;
      var next := objects[first.ref := Put(objects, first)];
      MergeSettles(first.obj, first.obj);
      if first.ref in objects { MergeSettles(objects[first.ref], first.obj); }
      StaysInPlace(next, first, rest);
      PutAllSatisfies(next, rest);
    }
  }

  /** All wants can be satisfied together exactly when no two of them contradict each other. */
  lemma AgreeingExactly(objects: Objects, wants: seq<Want>)
    ensures Agreeing(wants) <==> Satisfied(PutAll(objects, wants), None, wants)
  {
    if Agreeing(wants) {
      PutAllSatisfies(objects, wants);
    } else if Satisfied(PutAll(objects, wants), None, wants) {
      SatisfiedAgree(PutAll(objects, wants), wants);
    }
  }

  lemma SatisfiedAgree(objects: Objects, wants: seq<Want>)
    requires Satisfied(objects, None, wants)
    ensures Agreeing(wants)
  {
    forall a, b | a in wants && b in wants && a.ref == b.ref ensures !Differs(a.obj, b.obj) {
      DiffersTransitive(objects[a.ref], a.obj, a.obj) by { MergeSettles(a.obj, a.obj); }
      DiffersTransitive(a.obj, objects[a.ref], b.obj);
    }
  }

  /** Calls are counted, whether or not they are refused. */
  lemma {:induction false} NoCallMeansSatisfied(f: Faults, w: World, wants: seq<Want>)
    ensures var s := ReconcileAll(f, w, Live, None, wants);
            && s.world.calls >= w.calls
            && (s.world.calls == w.calls ==> s == Step(w, Done) && Satisfied(w.objects, None, wants))
    decreases |wants|
  {
    if wants != [] {
      var s := Reconcile(f, w, Live, None, wants[0]);
      assert wants == [wants[0]] + wants[1..];
      if s.outcome == Done {
        NoCallMeansSatisfied(f, s.world, wants[1..]);
      }
    }
  }

  /** Nothing is left to do for the wants. */
  ghost predicate Satisfied(objects: Objects, owner: Option<string>, wants: seq<Want>) {
    forall w :: w in wants ==>
      && w.ref in objects && !Differs(objects[w.ref], w.obj)
      && (owner.Some? ==> ControlledBy(objects[w.ref], owner.value))
  }

  /** A pass with nothing left to do makes no call. */
  lemma {:induction false} SatisfiedIsNoop(f: Faults, w: World, l: Lister, owner: Option<string>, wants: seq<Want>)
    requires Satisfied(View(l, w), owner, wants)
    ensures ReconcileAll(f, w, l, owner, wants) == Step(w, Done)
    decreases |wants|
  {
    if wants != [] {
      assert wants[0] in wants;
      SatisfiedIsNoop(f, w, l, owner, wants[1..]);
    }
  }

  /** The wants are owned as required, before and after. */
  ghost predicate Ownable(objects: Objects, owner: Option<string>, wants: seq<Want>) {
    owner.Some? ==> forall w :: w in wants ==>
      ControlledBy(w.obj, owner.value) && (w.ref in objects ==> ControlledBy(objects[w.ref], owner.value))
  }

  /** A live pass that ends without failure met no foreign object. */
  lemma {:induction false} DoneMeansOwned(f: Faults, w: World, uid: string, wants: seq<Want>)
    requires ReconcileAll(f, w, Live, Some(uid), wants).outcome == Done
    requires forall want :: want in wants ==> ControlledBy(want.obj, uid)
    ensures Ownable(w.objects, Some(uid), wants)
    decreases |wants|
  {
    if wants != [] {
      var first, rest := wants[0], wants[1..];
      assert first in wants;
      StepAchieves(f, w, Some(uid), first);
      var mid := Reconcile(f, w, Live, Some(uid), first).world;
      DoneMeansOwned(f, mid, uid, rest);
      assert wants == [first] + rest;
      forall want | want in wants && want.ref in w.objects ensures ControlledBy(w.objects[want.ref], uid) {
        if want != first {
          assert want in rest && want.ref in mid.objects;
        }
      }
    }
  }

  /** Without refusals and foreign objects a live pass succeeds. */
  lemma {:induction false} OwnableSucceeds(f: Faults, w: World, uid: string, wants: seq<Want>)
    requires NoFaults(f) && Ownable(w.objects, Some(uid), wants)
    ensures ReconcileAll(f, w, Live, Some(uid), wants).outcome == Done
    decreases |wants|
  {
    if wants != [] {
      var first, rest := wants[0], wants[1..];
      assert first in wants;
      var s := Reconcile(f, w, Live, Some(uid), first);
      StepAchieves(f, w, Some(uid), first);
      if first.ref in w.objects { MergeSettles(w.objects[first.ref], first.obj); }
      assert ControlledBy(s.world.objects[first.ref], uid);
      OwnableSucceeds(f, s.world, uid, rest);
    }
  }

  lemma RemoveTwice(m: Objects, a: set<Ref>, b: set<Ref>)
    ensures (m - a) - b == m - (a + b)
    ensures (m - a) - (b - a) == m - (a + b)
  {
  }

  // ---------------------------------------------------------------- the server as an object

  class Cluster {
    const refuses: Faults
    var objects: Objects
    var calls: nat
    var log: seq<Write>

    constructor (refuses: Faults, objects: Objects)
      ensures this.refuses == refuses && State() == World(objects, 0, [])
    {
      this.refuses := refuses;
      this.objects := objects;
      calls, log := 0, [];
    }

    function State(): World
      reads this
    {
      World(objects, calls, log)
    }

    method CreateObject(want: Want) returns (outcome: Outcome)
      modifies this
      ensures Step(State(), outcome) == Create(refuses, old(State()), want)
    {
      calls := calls + 1;
      if refuses(calls - 1) {
        return Failed(Refused);
      }
      if want.ref in objects {
        return Failed(AlreadyExists);
      }
      objects := objects[want.ref := want.obj];
      log := log + [Write(CreateVerb, want.ref, None)];
      return Done;
    }

    method UpdateObject(ref: Ref, obj: Object) returns (outcome: Outcome)
      modifies this
      ensures Step(State(), outcome) == Update(refuses, old(State()), ref, obj)
    {
      calls := calls + 1;
      if refuses(calls - 1) {
        return Failed(Refused);
      }
      if ref !in objects {
        return Failed(NotFound);
      }
      log := log + [Write(UpdateVerb, ref, Some(objects[ref]))];
      objects := objects[ref := obj];
      return Done;
    }

    method DeleteObject(ref: Ref) returns (outcome: Outcome)
      modifies this
      ensures Step(State(), outcome) == Delete(refuses, old(State()), ref)
    {
      calls := calls + 1;
      if refuses(calls - 1) {
        return Failed(Refused);
      }
      if ref !in objects {
        return Failed(NotFound);
      }
      log := log + [Write(DeleteVerb, ref, Some(objects[ref]))];
      objects := objects - {ref};
      return Done;
    }
  }
}
