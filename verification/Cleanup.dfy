/** Removing what earlier passes made: TLS copies, per-ingress Gateways, and the whole mesh-only reconciliation. */
module Cleanup {
  import opened Config
  import opened Credentials
  import opened Fixpoint
  import opened IngressPass
  import opened Secrets
  import opened ServiceObjects
  import opened Store
  import opened Strings
  import opened Types
  import opened VirtualServicePass
  import opened VirtualServices

  /** The order in which a lister returns the objects it finds. */
  type Listing = set<Ref> -> seq<Ref>

  ghost predicate FairListing(l: Listing) {
    forall s :: Enumerates(l(s), s)
  }

  /** A world and whether some error was collected on the way. */
  datatype Swept = Swept(world: World, failed: bool)

  // ---------------------------------------------------------------- deleting a list, going on after errors

  /** Delete one after the other; an absent object is an error unless that is tolerated. */
  function DeleteEach(f: Faults, w: World, refs: seq<Ref>, tolerant: bool): Swept
    decreases |refs|
  {
    if refs == [] then Swept(w, false) else
      var s := Delete(f, w, refs[0]);
      var rest := DeleteEach(f, s.world, refs[1..], tolerant);
      var bad := s.outcome.Failed? && !(tolerant && s.outcome.why == NotFound);
      Swept(rest.world, bad || rest.failed)
  }

  /** Only listed objects go, and all of them unless an error is reported. */
  lemma {:induction false} DeleteEachEffect(f: Faults, w: World, refs: seq<Ref>, tolerant: bool)
    returns (gone: set<Ref>)
    ensures var s := DeleteEach(f, w, refs, tolerant);
            && s.world.objects == w.objects - gone && (forall r :: r in gone ==> r in refs)
            && (!s.failed ==> forall r :: r in refs ==> r !in s.world.objects)
    decreases |refs|
  {
    if refs == [] {
      gone := {};
      assert w.objects - {} == w.objects;
    } else {
      var s := Delete(f, w, refs[0]);
      var more := DeleteEachEffect(f, s.world, refs[1..], tolerant);
      assert refs == [refs[0]] + refs[1..];
      if s.outcome == Done {
        gone := {refs[0]} + more;
        RemoveTwice(w.objects, {refs[0]}, more);
      } else {
        gone := more;
      }
    }
  }

  // ---------------------------------------------------------------- TLS copies

  predicate AnyTLS(ing: Ingress) {
    ExternalTLS(ing) || LocalTLS(ing)
  }

  /** A secret that carries the labels of a copy for the TLS entry; in one namespace, or in any. */
  predicate IsCopyFor(objects: Objects, t: IngressTLS, namespace: Option<string>, r: Ref) {
    && r in objects && r.kind.SecretKind? && (namespace.Some? ==> r.namespace == namespace.value)
    && Selects(TargetSecretLabels(t.secretName, t.secretNamespace), objects[r].labels)
  }

  function CopiesListed(objects: Objects, t: IngressTLS, namespace: Option<string>): (s: set<Ref>)
    ensures forall r :: r in s <==> IsCopyFor(objects, t, namespace, r)
  {
    set r | r in objects && IsCopyFor(objects, t, namespace, r)
  }

  /** Every TLS entry's copies in every namespace, tolerating that one is gone already. */
  function SweepAllCopies(f: Faults, w: World, tls: seq<IngressTLS>, l: Listing): Swept
    decreases |tls|
  {
    if tls == [] then Swept(w, false) else
      var s := DeleteEach(f, w, l(CopiesListed(w.objects, tls[0], None)), true);
      var rest := SweepAllCopies(f, s.world, tls[1..], l);
      Swept(rest.world, s.failed || rest.failed)
  }

  function CleanupTLSSecrets(f: Faults, w: World, ing: Ingress, l: Listing): Swept {
    if !AnyTLS(ing) then Swept(w, false) else SweepAllCopies(f, w, ing.tls, l)
  }

  function SweepNamespaces(f: Faults, w: World, t: IngressTLS, keys: seq<ServiceKey>, l: Listing): Swept
    decreases |keys|
  {
    if keys == [] then Swept(w, false) else
      var s := DeleteEach(f, w, l(CopiesListed(w.objects, t, Some(keys[0].namespace))), false);
      var rest := SweepNamespaces(f, s.world, t, keys[1..], l);
      Swept(rest.world, s.failed || rest.failed)
  }

  /** Every TLS entry's copies in the namespaces of the gateway services. */
  function SweepGatewayCopies(f: Faults, w: World, tls: seq<IngressTLS>, keys: Option<seq<ServiceKey>>,
                              l: Listing): Swept
    decreases |tls|
  {
    if tls == [] then Swept(w, false) else
      var s := if keys.None? then Swept(w, true) else SweepNamespaces(f, w, tls[0], keys.value, l);
      var rest := SweepGatewayCopies(f, s.world, tls[1..], keys, l);
      Swept(rest.world, s.failed || rest.failed)
  }

  function CleanupCertificateSecrets(env: Env, f: Faults, w: World, ing: Ingress, l: Listing): Swept {
    if !AnyTLS(ing) then Swept(w, false) else SweepGatewayCopies(f, w, ing.tls, Keys(env, ing), l)
  }

  /** Some secrets are gone and nothing else has changed. */
  ghost predicate OnlySecretsGone(before: Objects, after: Objects) {
    && (forall r :: r in after ==> r in before && after[r] == before[r])
    && (forall r :: r in before && !r.kind.SecretKind? ==> r in after)
  }

  lemma {:induction false} AllCopiesGone(f: Faults, w: World, tls: seq<IngressTLS>, l: Listing)
    requires FairListing(l)
    ensures var s := SweepAllCopies(f, w, tls, l);
            && OnlySecretsGone(w.objects, s.world.objects)
            && (!s.failed ==> forall t, r :: t in tls ==> !IsCopyFor(s.world.objects, t, None, r))
    decreases |tls|
  {
    if tls != [] {
      var listed := CopiesListed(w.objects, tls[0], None);
      assert Enumerates(l(listed), listed);
      var gone := DeleteEachEffect(f, w, l(listed), true);
      AllCopiesGone(f, DeleteEach(f, w, l(listed), true).world, tls[1..], l);
    }
  }

  lemma {:induction false} NamespaceCopiesGone(f: Faults, w: World, t: IngressTLS, keys: seq<ServiceKey>, l: Listing)
    requires FairListing(l)
    ensures var s := SweepNamespaces(f, w, t, keys, l);
            && OnlySecretsGone(w.objects, s.world.objects)
            && (!s.failed ==> forall k, r :: k in keys ==> !IsCopyFor(s.world.objects, t, Some(k.namespace), r))
    decreases |keys|
  {
    if keys != [] {
      var listed := CopiesListed(w.objects, t, Some(keys[0].namespace));
      assert Enumerates(l(listed), listed);
      var gone := DeleteEachEffect(f, w, l(listed), false);
      NamespaceCopiesGone(f, DeleteEach(f, w, l(listed), false).world, t, keys[1..], l);
    }
  }

  lemma {:induction false} GatewayCopiesGone(f: Faults, w: World, tls: seq<IngressTLS>, keys: Option<seq<ServiceKey>>,
                                             l: Listing)
    requires FairListing(l)
    ensures var s := SweepGatewayCopies(f, w, tls, keys, l);
            && OnlySecretsGone(w.objects, s.world.objects)
            && (!s.failed && tls != [] ==> keys.Some?)
            && (!s.failed ==> forall t, k, r :: t in tls && keys.Some? && k in keys.value ==>
                                !IsCopyFor(s.world.objects, t, Some(k.namespace), r))
    decreases |tls|
  {
    if tls != [] {
      if keys.None? {
        GatewayCopiesGone(f, w, tls[1..], keys, l);
      } else {
        var mid := SweepNamespaces(f, w, tls[0], keys.value, l).world;
        NamespaceCopiesGone(f, w, tls[0], keys.value, l);
        GatewayCopiesGone(f, mid, tls[1..], keys, l);
        var end := SweepGatewayCopies(f, mid, tls[1..], keys, l).world;
        assert forall t, n, r :: IsCopyFor(end.objects, t, n, r) ==> IsCopyFor(mid.objects, t, n, r);
        assert tls == [tls[0]] + tls[1..];
      }
    }
  }

  // ---------------------------------------------------------------- cleanup covers creation

  /** The circumstances of making copies: the table read then, the visibility, the origins copied, and how. */
  datatype Making = Making(objects: Objects, visibility: string, origins: Origins, order: seq<string>, naming: Naming)

  /** A copy that a pass of this Ingress makes in some circumstances. */
  ghost predicate MadeIn(env: Env, ing: Ingress, m: Making, copy: Want) {
    var found := GetSecrets(m.objects, IngressTLSFor(ing, m.visibility));
    && (m.visibility == EXTERNAL_IP || m.visibility == CLUSTER_LOCAL)
    && found.Some? && (forall k :: k in m.origins ==> k in found.value && m.origins[k] == found.value[k])
    && Enumerates(m.order, m.origins.Keys) && Keys(env, ing).Some?
    && copy in Copies(m.order, m.origins, Keys(env, ing).value, m.naming)
  }

  /** The copies that a pass with gateways puts in place. */
  function PlannedCopies(env: Env, objects: Objects, ing: Ingress, o: Orders): seq<Want>
    requires Fair(o) && PlanPass(env, objects, ing, o).Some?
  {
    var plan := PlanPass(env, objects, ing, o).value;
    plan.external.copies + plan.local.copies
  }

  /** All copies of a pass are made in such circumstances. */
  lemma PlannedCopiesAreMade(env: Env, objects: Objects, ing: Ingress, o: Orders, copy: Want)
    requires Fair(o) && PlanPass(env, objects, ing, o).Some? && copy in PlannedCopies(env, objects, ing, o)
    ensures exists m :: MadeIn(env, ing, m, copy)
  {
    var plan := PlanPass(env, objects, ing, o).value;
    if copy in plan.external.copies {
      var m := ExternalCopyIsMade(env, objects, ing, o, copy);
    } else {
      var m := LocalCopyIsMade(env, PutAll(objects, plan.external.copies), ing, o, copy);
    }
  }

  lemma LocalCopyIsMade(env: Env, objects: Objects, ing: Ingress, o: Orders, copy: Want) returns (m: Making)
    requires Fair(o) && PlanLocal(env, objects, ing, o).Some?
    requires copy in PlanLocal(env, objects, ing, o).value.copies
    ensures MadeIn(env, ing, m, copy)
  {
    var q := PlanLocal(env, objects, ing, o).value;
    m := Making(objects, CLUSTER_LOCAL, q.origins, o.enumerate(2, q.origins.Keys), PlainNaming(ing.name));
  }

  lemma ExternalCopyIsMade(env: Env, objects: Objects, ing: Ingress, o: Orders, copy: Want) returns (m: Making)
    requires Fair(o) && PlanExternal(env, objects, ing, o).Some?
    requires copy in PlanExternal(env, objects, ing, o).value.copies
    ensures MadeIn(env, ing, m, copy)
  {
    ExternalPlanParts(env, objects, ing, o);
    var c, keys := PlanExternal(env, objects, ing, o).value.c, Keys(env, ing).value;
    var order := o.enumerate(0, c.plain.Keys);
    if copy in Copies(order, c.plain, keys, PlainNaming(ing.name)) {
      m := Making(objects, EXTERNAL_IP, c.plain, order, PlainNaming(ing.name));
    } else {
      m := Making(objects, EXTERNAL_IP, c.wildcard, o.enumerate(1, c.wildcard.Keys), WildcardNaming());
    }
  }

  /** Such a copy carries the labels that cleanup looks for, in a namespace it looks into. */
  lemma MadeCopyIsFound(env: Env, ing: Ingress, m: Making, copy: Want) returns (t: IngressTLS, key: ServiceKey)
    requires MadeIn(env, ing, m, copy)
    ensures t in ing.tls && AnyTLS(ing) && key in Keys(env, ing).value
    ensures copy.ref.kind.SecretKind? && copy.ref.namespace == key.namespace
    ensures Selects(TargetSecretLabels(t.secretName, t.secretNamespace), copy.obj.labels)
  {
    var keys := Keys(env, ing).value;
    var k, s :| k in m.order && s in keys && s.namespace != m.origins[k].namespace
                && copy == CopyOf(m.origins[k], m.naming(m.origins[k]), s.namespace);
    key := s;
    t := OriginIsListed(ing, m.objects, m.visibility, k);
    CopyIsSelected(m.origins[k], m.naming(m.origins[k]), s.namespace);
  }

  lemma OriginIsListed(ing: Ingress, objects: Objects, visibility: string, k: string) returns (t: IngressTLS)
    requires visibility == EXTERNAL_IP || visibility == CLUSTER_LOCAL
    requires GetSecrets(objects, IngressTLSFor(ing, visibility)).Some?
    requires k in GetSecrets(objects, IngressTLSFor(ing, visibility)).value
    ensures t in ing.tls && AnyTLS(ing)
    ensures var origin := GetSecrets(objects, IngressTLSFor(ing, visibility)).value[k];
            t.secretNamespace == origin.namespace && t.secretName == origin.name
  {
    var tls := IngressTLSFor(ing, visibility);
    var found := GetSecrets(objects, tls).value;
    t :| t in tls && SecretKey(t) == k && SecretAt(objects, t.secretNamespace, t.secretName) == Some(found[k]);
    assert tls != [];
  }

  /** After a sweep without error no copy is left that a pass of the Ingress made, for long names and short. */
  lemma CleanupCoversCreation(env: Env, f: Faults, w: World, ing: Ingress, l: Listing, m: Making, copy: Want)
    requires FairListing(l) && MadeIn(env, ing, m, copy)
    ensures var s := CleanupCertificateSecrets(env, f, w, ing, l);
            !s.failed ==> !(copy.ref in s.world.objects && s.world.objects[copy.ref].labels == copy.obj.labels)
    ensures var s := CleanupTLSSecrets(f, w, ing, l);
            !s.failed ==> !(copy.ref in s.world.objects && s.world.objects[copy.ref].labels == copy.obj.labels)
  {
    var t, key := MadeCopyIsFound(env, ing, m, copy);
    GatewayCopiesGone(f, w, ing.tls, Keys(env, ing), l);
    AllCopiesGone(f, w, ing.tls, l);
    var a := CleanupCertificateSecrets(env, f, w, ing, l);
    var b := CleanupTLSSecrets(f, w, ing, l);
    assert !a.failed ==> !IsCopyFor(a.world.objects, t, Some(key.namespace), copy.ref);
    assert !b.failed ==> !IsCopyFor(b.world.objects, t, None, copy.ref);
  }

  // ---------------------------------------------------------------- cleanup of one Ingress and copies of another

  /** A secret with the labels of a copy of this origin. */
  predicate HoldsCopy(objects: Objects, r: Ref, origin: StoredSecret) {
    r in objects && r.kind.SecretKind? && objects[r].labels == CopyOf(origin, r.name, r.namespace).obj.labels
  }

  ghost predicate StaysAt(before: Objects, after: Objects, r: Ref) {
    r in before && r in after && after[r] == before[r]
  }

  lemma {:induction false} DeleteEachSpares(f: Faults, w: World, refs: seq<Ref>, tolerant: bool, r: Ref)
    requires r in w.objects && r !in refs
    ensures StaysAt(w.objects, DeleteEach(f, w, refs, tolerant).world.objects, r)
    decreases |refs|
  {
    if refs != [] {
      DeleteEachSpares(f, Delete(f, w, refs[0]).world, refs[1..], tolerant, r);
    }
  }

  lemma SameObjectSameCopy(a: Objects, b: Objects, r: Ref)
    requires StaysAt(a, b, r)
    ensures forall t, n :: IsCopyFor(a, t, n, r) <==> IsCopyFor(b, t, n, r)
  {
  }

  lemma ListedSpared(f: Faults, w: World, t: IngressTLS, n: Option<string>, l: Listing, tolerant: bool, r: Ref)
    requires FairListing(l) && r in w.objects && !IsCopyFor(w.objects, t, n, r)
    ensures StaysAt(w.objects, DeleteEach(f, w, l(CopiesListed(w.objects, t, n)), tolerant).world.objects, r)
  {
    var listed := CopiesListed(w.objects, t, n);
    assert Enumerates(l(listed), listed);
    DeleteEachSpares(f, w, l(listed), tolerant, r);
  }

  /** What is no copy for any of the entries stays. */
  lemma {:induction false} SweepAllSpares(f: Faults, w: World, tls: seq<IngressTLS>, l: Listing, r: Ref)
    requires FairListing(l) && r in w.objects && forall t :: t in tls ==> !IsCopyFor(w.objects, t, None, r)
    ensures StaysAt(w.objects, SweepAllCopies(f, w, tls, l).world.objects, r)
    decreases |tls|
  {
    if tls != [] {
      var mid := DeleteEach(f, w, l(CopiesListed(w.objects, tls[0], None)), true).world;
      ListedSpared(f, w, tls[0], None, l, true, r);
      SameObjectSameCopy(w.objects, mid.objects, r);
      SweepAllSpares(f, mid, tls[1..], l, r);
    }
  }

  /** A sweep without error takes exactly the copies for the entries. */
  lemma SweepAllExactly(f: Faults, w: World, tls: seq<IngressTLS>, l: Listing, r: Ref)
    requires FairListing(l) && !SweepAllCopies(f, w, tls, l).failed
    ensures var after := SweepAllCopies(f, w, tls, l).world.objects;
            if exists t :: t in tls && IsCopyFor(w.objects, t, None, r) then r !in after
            else SameAt(w.objects, after, r)
  {
    var after := SweepAllCopies(f, w, tls, l).world.objects;
    AllCopiesGone(f, w, tls, l);
    if t :| t in tls && IsCopyFor(w.objects, t, None, r) {
      if r in after {
        SameObjectSameCopy(w.objects, after, r);
      }
    } else if r in w.objects {
      SweepAllSpares(f, w, tls, l, r);
    }
  }

  lemma {:induction false} SweepNamespacesSpares(f: Faults, w: World, t: IngressTLS, keys: seq<ServiceKey>, l: Listing,
                                                 r: Ref)
    requires FairListing(l) && r in w.objects
    requires forall k :: k in keys ==> !IsCopyFor(w.objects, t, Some(k.namespace), r)
    ensures StaysAt(w.objects, SweepNamespaces(f, w, t, keys, l).world.objects, r)
    decreases |keys|
  {
    if keys != [] {
      var mid := DeleteEach(f, w, l(CopiesListed(w.objects, t, Some(keys[0].namespace))), false).world;
      ListedSpared(f, w, t, Some(keys[0].namespace), l, false, r);
      SameObjectSameCopy(w.objects, mid.objects, r);
      SweepNamespacesSpares(f, mid, t, keys[1..], l, r);
    }
  }

  /** No copy for the entry, as far as these namespaces go. */
  predicate NoCopyIn(objects: Objects, t: IngressTLS, keys: seq<ServiceKey>, r: Ref) {
    forall k :: k in keys ==> !IsCopyFor(objects, t, Some(k.namespace), r)
  }

  lemma {:induction false} SweepGatewaySpares(f: Faults, w: World, tls: seq<IngressTLS>, keys: seq<ServiceKey>,
                                              l: Listing, r: Ref)
    requires FairListing(l) && r in w.objects
    requires forall t :: t in tls ==> NoCopyIn(w.objects, t, keys, r)
    ensures StaysAt(w.objects, SweepGatewayCopies(f, w, tls, Some(keys), l).world.objects, r)
    decreases |tls|
  {
    if tls != [] {
      var mid := SweepNamespaces(f, w, tls[0], keys, l).world;
      assert NoCopyIn(w.objects, tls[0], keys, r);
      SweepNamespacesSpares(f, w, tls[0], keys, l, r);
      SameObjectSameCopy(w.objects, mid.objects, r);
      assert forall t :: NoCopyIn(w.objects, t, keys, r) ==> NoCopyIn(mid.objects, t, keys, r);
      SweepGatewaySpares(f, mid, tls[1..], keys, l, r);
    }
  }

  lemma CopyForExactly(objects: Objects, t: IngressTLS, namespace: Option<string>, r: Ref, origin: StoredSecret)
    requires HoldsCopy(objects, r, origin)
    ensures IsCopyFor(objects, t, namespace, r) <==>
            SameOriginLabels(t, origin) && (namespace.Some? ==> r.namespace == namespace.value)
  {
    SelectedExactly(t, origin, r.name, r.namespace);
  }

  /** Copies carry no mark of the Ingress they were made for. So a cleanup without error spares a copy, be it of this
      Ingress or another, exactly when no TLS entry of this one has the labels of its origin. */
  lemma CleanupSparesExactly(f: Faults, w: World, ing: Ingress, l: Listing, r: Ref, origin: StoredSecret)
    requires FairListing(l) && AnyTLS(ing) && HoldsCopy(w.objects, r, origin)
    requires !CleanupTLSSecrets(f, w, ing, l).failed
    ensures r in CleanupTLSSecrets(f, w, ing, l).world.objects <==>
            forall t :: t in ing.tls ==> !SameOriginLabels(t, origin)
  {
    var after := CleanupTLSSecrets(f, w, ing, l).world.objects;
    AllCopiesGone(f, w, ing.tls, l);
    if r in after {
      forall t | t in ing.tls ensures !SameOriginLabels(t, origin) {
        CopyForExactly(after, t, None, r, origin);
      }
    }
    if forall t :: t in ing.tls ==> !SameOriginLabels(t, origin) {
      forall t | t in ing.tls ensures !IsCopyFor(w.objects, t, None, r) {
        CopyForExactly(w.objects, t, None, r, origin);
      }
      SweepAllSpares(f, w, ing.tls, l, r);
    }
  }

  /** The cleanup of finalizing likewise, in the namespaces it looks into. */
  lemma GatewayCleanupSparesExactly(env: Env, f: Faults, w: World, ing: Ingress, l: Listing, r: Ref,
                                    origin: StoredSecret)
    requires FairListing(l) && AnyTLS(ing) && HoldsCopy(w.objects, r, origin)
    requires !CleanupCertificateSecrets(env, f, w, ing, l).failed && Keys(env, ing).Some?
    ensures r in CleanupCertificateSecrets(env, f, w, ing, l).world.objects <==>
            forall t, k :: t in ing.tls && k in Keys(env, ing).value ==>
              !(SameOriginLabels(t, origin) && k.namespace == r.namespace)
  {
    var after, keys := CleanupCertificateSecrets(env, f, w, ing, l).world.objects, Keys(env, ing).value;
    GatewayCopiesGone(f, w, ing.tls, Some(keys), l);
    if r in after {
      forall t, k | t in ing.tls && k in keys ensures !(SameOriginLabels(t, origin) && k.namespace == r.namespace) {
        CopyForExactly(after, t, Some(k.namespace), r, origin);
      }
    }
    if forall t, k :: t in ing.tls && k in keys ==> !(SameOriginLabels(t, origin) && k.namespace == r.namespace) {
      forall t | t in ing.tls ensures NoCopyIn(w.objects, t, keys, r) {
        forall k | k in keys ensures !IsCopyFor(w.objects, t, Some(k.namespace), r) {
          CopyForExactly(w.objects, t, Some(k.namespace), r, origin);
        }
      }
      SweepGatewaySpares(f, w, ing.tls, keys, l, r);
    }
  }

  // ---------------------------------------------------------------- per-ingress Gateways

  predicate OwnGateway(objects: Objects, ing: Ingress, r: Ref) {
    && r in objects && r.kind.GatewayKind? && (ing.namespace == "" || r.namespace == ing.namespace)
    && Selects(map[INGRESS_LABEL := ing.name], objects[r].labels) && ControlledBy(objects[r], ing.uid)
  }

  function OwnGateways(objects: Objects, ing: Ingress): (s: set<Ref>)
    ensures forall r :: r in s <==> OwnGateway(objects, ing, r)
  {
    set r | r in objects && OwnGateway(objects, ing, r)
  }

  /** Stops at the first error, but a Gateway that is gone already is none. */
  function DeleteGateways(f: Faults, w: World, refs: seq<Ref>): Step
    decreases |refs|
  {
    if refs == [] then Step(w, Done) else
      var s := Delete(f, w, refs[0]);
      if s.outcome.Failed? && s.outcome.why != NotFound then s else DeleteGateways(f, s.world, refs[1..])
  }

  function CleanupIngressGateways(f: Faults, w: World, ing: Ingress, l: Listing): Step {
    DeleteGateways(f, w, l(OwnGateways(w.objects, ing)))
  }

  lemma {:induction false} DeleteGatewaysEffect(f: Faults, w: World, refs: seq<Ref>) returns (gone: set<Ref>)
    ensures var s := DeleteGateways(f, w, refs);
            && s.world.objects == w.objects - gone && (forall r :: r in gone ==> r in refs)
            && (s.outcome == Done ==> forall r :: r in refs ==> r !in s.world.objects)
    decreases |refs|
  {
    if refs == [] {
      gone := {};
      assert w.objects - {} == w.objects;
    } else {
      var s := Delete(f, w, refs[0]);
      assert refs == [refs[0]] + refs[1..];
      if s.outcome.Failed? && s.outcome.why != NotFound {
        gone := {};
        assert w.objects - {} == w.objects;
      } else {
        var more := DeleteGatewaysEffect(f, s.world, refs[1..]);
        if s.outcome == Done {
          gone := {refs[0]} + more;
          RemoveTwice(w.objects, {refs[0]}, more);
        } else {
          gone := more;
        }
      }
    }
  }

  // ---------------------------------------------------------------- mesh-only reconciliation

  function NoGateways(): GatewayNames {
    map[CLUSTER_LOCAL := {}, EXTERNAL_IP := {}]
  }

  function MeshOnlyPassSeeing(env: Env, f: Faults, w: World, ing: Ingress, o: Orders, l: Listing, cache: Lister): Step {
    match MakeVirtualServices(env.lib, ing, NoGateways())
    case None => Step(w, Failed(Invalid))
    case Some(vses) =>
      var a := Pass(f, w, cache, ing, vses, o.routeFirst);
      if a.outcome.Failed? then a else TidyUp(f, a.world, ing, l)
  }

  /** The removals after the services, up to the first failure. */
  function TidyUp(f: Faults, w: World, ing: Ingress, l: Listing): Step {
    var b := CleanupIngressGateways(f, w, ing, l);
    if b.outcome.Failed? then b else
      var c := CleanupTLSSecrets(f, b.world, ing, l);
      Step(c.world, if c.failed then Failed(Refused) else Done)
  }

  function MeshOnlyPass(env: Env, f: Faults, w: World, ing: Ingress, o: Orders, l: Listing): Step {
    MeshOnlyPassSeeing(env, f, w, ing, o, l, Live)
  }

  /** A copy for a TLS entry that the Ingress has now, wherever it is. */
  predicate TLSCopy(objects: Objects, ing: Ingress, r: Ref) {
    exists t :: t in ing.tls && IsCopyFor(objects, t, None, r)
  }

  /** Of the secrets just the copies for the current TLS entries are gone, if the Ingress has TLS, and otherwise
      none. */
  ghost predicate CopiesSwept(before: Objects, after: Objects, ing: Ingress) {
    forall r: Ref :: r.kind.SecretKind? ==>
      if AnyTLS(ing) && TLSCopy(before, ing, r) then r !in after else SameAt(before, after, r)
  }

  /** What is left after a mesh-only pass: the mesh services as made, no Gateway of the Ingress, and no copy for a
      TLS entry. */
  ghost predicate MeshOnly(env: Env, ing: Ingress, before: Objects, after: Objects) {
    && MakeVirtualServices(env.lib, ing, NoGateways()).Some?
    && var vses := IstioWants(MakeVirtualServices(env.lib, ing, NoGateways()).value);
       && Satisfied(after, Some(ing.uid), vses)
       && (forall r :: OwnVirtualService(after, ing, r) ==> r.name in NamesOf(vses))
       && (forall r :: !OwnGateway(after, ing, r))
       && CopiesSwept(before, after, ing)
  }

  lemma MeshServicesInPlace(env: Env, f: Faults, w: World, ing: Ingress, routeFirst: bool)
    requires MakeVirtualServices(env.lib, ing, NoGateways()).Some?
    requires Pass(f, w, Live, ing, MakeVirtualServices(env.lib, ing, NoGateways()).value, routeFirst).outcome == Done
    ensures var vses := MakeVirtualServices(env.lib, ing, NoGateways()).value;
            var after := Pass(f, w, Live, ing, vses, routeFirst).world.objects;
            && AllOfKind(IstioWants(vses), VirtualServiceKind) && Satisfied(after, Some(ing.uid), IstioWants(vses))
            && (forall r :: OwnVirtualService(after, ing, r) ==> r.name in NamesOf(IstioWants(vses)))
            && SameKind(w.objects, after, SecretKind)
  {
    IstioWantsFit(env.lib, ing, NoGateways());
    ServicePassSettles(f, w, ing, env.lib, NoGateways(), routeFirst);
    LivePassResult(f, w, ing, MakeVirtualServices(env.lib, ing, NoGateways()).value, routeFirst);
  }

  /** Services in place, then own Gateways gone, then copies gone. */
  lemma MeshOnlyAssembles(env: Env, ing: Ingress, before: Objects, a: Objects, gone: set<Ref>, after: Objects)
    requires MakeVirtualServices(env.lib, ing, NoGateways()).Some?
    requires var vses := IstioWants(MakeVirtualServices(env.lib, ing, NoGateways()).value);
             && AllOfKind(vses, VirtualServiceKind) && Satisfied(a, Some(ing.uid), vses)
             && forall r :: OwnVirtualService(a, ing, r) ==> r.name in NamesOf(vses)
    requires SameKind(before, a, SecretKind) && OnlySecretsGone(a - gone, after)
    requires forall r :: r in gone ==> OwnGateway(a, ing, r)
    requires forall r :: OwnGateway(a, ing, r) ==> r !in a - gone
    requires CopiesSwept(a - gone, after, ing)
    ensures MeshOnly(env, ing, before, after)
  {
    GatewaysSwept(a, gone, after, ing, IstioWants(MakeVirtualServices(env.lib, ing, NoGateways()).value));
    SweptFrom(before, a, gone, after, ing);
  }

  lemma SweptFrom(before: Objects, a: Objects, gone: set<Ref>, after: Objects, ing: Ingress)
    requires SameKind(before, a, SecretKind) && CopiesSwept(a - gone, after, ing)
    requires forall r :: r in gone ==> OwnGateway(a, ing, r)
    ensures CopiesSwept(before, after, ing)
  {
    forall r: Ref | r.kind.SecretKind?
      ensures if AnyTLS(ing) && TLSCopy(before, ing, r) then r !in after else SameAt(before, after, r)
    {
      assert SameAt(before, a, r) && r !in gone;
      assert forall t :: IsCopyFor(before, t, None, r) <==> IsCopyFor(a - gone, t, None, r);
    }
  }

  lemma SweepLeaves(f: Faults, w: World, ing: Ingress, l: Listing)
    requires FairListing(l) && !CleanupTLSSecrets(f, w, ing, l).failed
    ensures OnlySecretsGone(w.objects, CleanupTLSSecrets(f, w, ing, l).world.objects)
    ensures CopiesSwept(w.objects, CleanupTLSSecrets(f, w, ing, l).world.objects, ing)
  {
    if AnyTLS(ing) {
      AllCopiesGone(f, w, ing.tls, l);
      forall r: Ref | r.kind.SecretKind?
        ensures var after := SweepAllCopies(f, w, ing.tls, l).world.objects;
                if TLSCopy(w.objects, ing, r) then r !in after else SameAt(w.objects, after, r)
      {
        SweepAllExactly(f, w, ing.tls, l, r);
      }
    }
  }

  lemma MeshOnlyPassResult(env: Env, f: Faults, w: World, ing: Ingress, o: Orders, l: Listing)
    requires FairListing(l) && MeshOnlyPass(env, f, w, ing, o, l).outcome == Done
    ensures MeshOnly(env, ing, w.objects, MeshOnlyPass(env, f, w, ing, o, l).world.objects)
  {
    var vses := MakeVirtualServices(env.lib, ing, NoGateways()).value;
    var a := Pass(f, w, Live, ing, vses, o.routeFirst).world;
    var b := CleanupIngressGateways(f, a, ing, l).world;
    MeshServicesInPlace(env, f, w, ing, o.routeFirst);
    var gone := OwnGatewaysGone(f, a, ing, l);
    SweepLeaves(f, b, ing, l);
    MeshOnlyAssembles(env, ing, w.objects, a.objects, gone, CleanupTLSSecrets(f, b, ing, l).world.objects);
  }

  lemma OwnGatewaysGone(f: Faults, w: World, ing: Ingress, l: Listing) returns (gone: set<Ref>)
    requires FairListing(l)
    ensures var s := CleanupIngressGateways(f, w, ing, l);
            && s.world.objects == w.objects - gone && (forall r :: r in gone ==> OwnGateway(w.objects, ing, r))
            && (s.outcome == Done ==> forall r :: OwnGateway(w.objects, ing, r) ==> r !in s.world.objects)
  {
    var listed := OwnGateways(w.objects, ing);
    assert Enumerates(l(listed), listed);
    gone := DeleteGatewaysEffect(f, w, l(listed));
  }

  /** Gateways and then secrets taken away leave the services alone and no own Gateway. */
  lemma GatewaysSwept(before: Objects, gone: set<Ref>, after: Objects, ing: Ingress, vses: seq<Want>)
    requires OnlySecretsGone(before - gone, after) && AllOfKind(vses, VirtualServiceKind)
    requires forall r :: r in gone ==> OwnGateway(before, ing, r)
    requires forall r :: OwnGateway(before, ing, r) ==> r !in before - gone
    requires Satisfied(before, Some(ing.uid), vses)
    ensures Satisfied(after, Some(ing.uid), vses)
    ensures forall r :: OwnVirtualService(after, ing, r) ==> OwnVirtualService(before, ing, r)
    ensures forall r :: !OwnGateway(after, ing, r)
    ensures SameKind(before, before - gone, SecretKind)
  {
    forall v | v in vses ensures v.ref in after && after[v.ref] == before[v.ref] {
      assert v.ref !in gone;
      assert v.ref in before - gone;
    }
    forall r ensures !OwnGateway(after, ing, r) {
      assert r in after ==> r in before - gone && after[r] == before[r];
    }
    forall r | OwnVirtualService(after, ing, r) ensures OwnVirtualService(before, ing, r) {
      assert r in before - gone;
    }
  }

  // ---------------------------------------------------------------- switching modes

  lemma MeshOnlyService(env: Env, ing: Ingress, before: Objects, after: Objects, v: Want)
    requires MeshOnly(env, ing, before, after)
    requires v in IstioWants(MakeVirtualServices(env.lib, ing, NoGateways()).value)
    ensures OwnVirtualService(after, ing, v.ref)
    ensures after[v.ref].body == v.obj.body && after[v.ref].labels == v.obj.labels
    ensures after[v.ref].annotations == v.obj.annotations
  {
    IstioWantsFit(env.lib, ing, NoGateways());
    MadeVirtualServices(env.lib, ing, NoGateways());
    assert ServiceOf(env.lib, ing, v);
    assert !Differs(after[v.ref], v.obj);
    assert Selects(Selector(ing, false), after[v.ref].labels);
  }

  lemma MeshOnlyServices(env: Env, ing: Ingress, before: Objects, after: Objects, r: Ref)
    requires MeshOnly(env, ing, before, after) && ing.namespace != ""
    ensures OwnVirtualService(after, ing, r) <==>
            Wanted(IstioWants(MakeVirtualServices(env.lib, ing, NoGateways()).value), r)
  {
    var vses := IstioWants(MakeVirtualServices(env.lib, ing, NoGateways()).value);
    IstioWantsFit(env.lib, ing, NoGateways());
    if OwnVirtualService(after, ing, r) {
      var v :| v in vses && v.ref.name == r.name;
      assert v.ref == r;
    }
    if v :| v in vses && v.ref == r {
      MeshOnlyService(env, ing, before, after, v);
    }
  }

  /** Two tables hold the same of an Ingress but for its TLS copies. */
  ghost predicate SameOwnedButCopies(a: Objects, b: Objects, ing: Ingress) {
    && (forall r :: OwnVirtualService(a, ing, r) <==> OwnVirtualService(b, ing, r))
    && (forall r :: OwnVirtualService(a, ing, r) && OwnVirtualService(b, ing, r) ==>
          a[r].body == b[r].body && a[r].labels == b[r].labels && a[r].annotations == b[r].annotations)
    && (forall r :: OwnGateway(a, ing, r) <==> OwnGateway(b, ing, r))
  }

  /** The same services with the same content, the same Gateways, and all secrets the same. */
  ghost predicate SameOwned(a: Objects, b: Objects, ing: Ingress) {
    SameOwnedButCopies(a, b, ing) && SameKind(a, b, SecretKind)
  }

  /** Two tables in mesh-only state hold the same of the Ingress but for copies, wherever they came from. */
  lemma MeshOnlyIsCanonical(env: Env, ing: Ingress, before: Objects, after: Objects, before': Objects, after': Objects)
    requires ing.namespace != "" && MeshOnly(env, ing, before, after) && MeshOnly(env, ing, before', after')
    ensures SameOwnedButCopies(after, after', ing)
  {
    forall r ensures OwnVirtualService(after, ing, r) <==> OwnVirtualService(after', ing, r) {
      MeshOnlyServices(env, ing, before, after, r);
      MeshOnlyServices(env, ing, before', after', r);
    }
    forall r | OwnVirtualService(after, ing, r) && OwnVirtualService(after', ing, r)
      ensures after[r].body == after'[r].body && after[r].labels == after'[r].labels
      ensures after[r].annotations == after'[r].annotations
    {
      MeshOnlyServices(env, ing, before, after, r);
      var v :| v in IstioWants(MakeVirtualServices(env.lib, ing, NoGateways()).value) && v.ref == r;
      MeshOnlyService(env, ing, before, after, v);
      MeshOnlyService(env, ing, before', after', v);
    }
  }

  lemma {:induction false} LastOneStays(objects: Objects, wants: seq<Want>, r: Ref) returns (last: Want)
    requires Wanted(wants, r)
    ensures last in wants && last.ref == r && r in PutAll(objects, wants)
    ensures !Differs(PutAll(objects, wants)[r], last.obj)
    decreases |wants|
  {
    var first, rest := wants[0], wants[1..];
    var next := objects[first.ref := Put(objects, first)];
    assert wants == [first] + rest;
    if Wanted(rest, r) {
      last := LastOneStays(next, rest, r);
    } else {
      last := first;
      MergeSettles(first.obj, first.obj);
      if first.ref in objects { MergeSettles(objects[first.ref], first.obj); }
      PutAllElsewhere(next, rest, r);
    }
  }

  lemma CopiesWanted(env: Env, objects: Objects, ing: Ingress, o: Orders, r: Ref)
    requires Fair(o) && PlanPass(env, objects, ing, o).Some? && r.kind.SecretKind?
    ensures Wanted(PlanPass(env, objects, ing, o).value.Unowned(), r) <==>
            Wanted(PlannedCopies(env, objects, ing, o), r)
    ensures forall v :: v in PlanPass(env, objects, ing, o).value.Unowned() && v.ref == r ==>
              v in PlannedCopies(env, objects, ing, o)
  {
    PlanMembers(env, objects, ing, o);
  }

  /** What a successful pass with gateways leaves under the key of a secret: what was there, or a copy for a current
      TLS entry. */
  lemma SecretsAfterPass(env: Env, f: Faults, w: World, ing: Ingress, o: Orders, r: Ref)
    requires Fair(o) && GatewayPass(env, f, w, ing, o).outcome == Done && r.kind.SecretKind?
    ensures PlanPass(env, w.objects, ing, o).Some?
    ensures var after := GatewayPass(env, f, w, ing, o).world.objects;
            if Wanted(PlannedCopies(env, w.objects, ing, o), r) then AnyTLS(ing) && TLSCopy(after, ing, r)
            else SameAt(w.objects, after, r)
  {
    SuccessfulPassParts(env, f, w, ing, o);
    var plan := PlanPass(env, w.objects, ing, o).value;
    var mid := ReconcileAll(f, w, Live, None, plan.Unowned()).world;
    ServicePassSettles(f, mid, ing, env.lib, plan.names, o.routeFirst);
    assert SameAt(mid.objects, GatewayPass(env, f, w, ing, o).world.objects, r);
    CopiesWanted(env, w.objects, ing, o, r);
    if Wanted(PlannedCopies(env, w.objects, ing, o), r) {
      CopyPut(env, w.objects, ing, o, r);
    } else {
      PutAllElsewhere(w.objects, plan.Unowned(), r);
    }
  }

  lemma CopyPut(env: Env, objects: Objects, ing: Ingress, o: Orders, r: Ref)
    requires Fair(o) && PlanPass(env, objects, ing, o).Some? && r.kind.SecretKind?
    requires Wanted(PlannedCopies(env, objects, ing, o), r)
    ensures AnyTLS(ing) && TLSCopy(PutAll(objects, PlanPass(env, objects, ing, o).value.Unowned()), ing, r)
  {
    CopiesWanted(env, objects, ing, o, r);
    var all := PlanPass(env, objects, ing, o).value.Unowned();
    var last := LastOneStays(objects, all, r);
    PlannedCopiesAreMade(env, objects, ing, o, last);
    var m :| MadeIn(env, ing, m, last);
    var t, key := MadeCopyIsFound(env, ing, m, last);
    assert last.obj.body.SecretBody? by { var origin := MadeCopyOrigin(env, ing, m, last); }
    assert IsCopyFor(PutAll(objects, all), t, None, r);
  }

  lemma MadeCopyOrigin(env: Env, ing: Ingress, m: Making, copy: Want) returns (origin: StoredSecret)
    requires MadeIn(env, ing, m, copy)
    ensures origin in m.origins.Values && copy == CopyOf(origin, m.naming(origin), copy.ref.namespace)
  {
    var keys := Keys(env, ing).value;
    var k, s :| k in m.order && s in keys && s.namespace != m.origins[k].namespace
                && copy == CopyOf(m.origins[k], m.naming(m.origins[k]), s.namespace);
    origin := m.origins[k];
  }

  /** A pass with gateways copies no secret of an Ingress that has no TLS. */
  lemma NoTLSNoCopies(env: Env, f: Faults, w: World, ing: Ingress, o: Orders)
    requires Fair(o) && !AnyTLS(ing) && GatewayPass(env, f, w, ing, o).outcome == Done
    ensures SameKind(w.objects, GatewayPass(env, f, w, ing, o).world.objects, SecretKind)
  {
    forall r: Ref | r.kind == SecretKind ensures SameAt(w.objects, GatewayPass(env, f, w, ing, o).world.objects, r) {
      SecretsAfterPass(env, f, w, ing, o, r);
    }
  }

  /** A mesh-only pass that follows one with gateways takes a copy away: the Ingress has TLS, and it has an entry for
      the origin of the copy or has just put a copy of its own under the same key. */
  predicate Reclaimed(env: Env, objects: Objects, ing: Ingress, o: Orders, r: Ref, origin: StoredSecret)
    requires Fair(o) && PlanPass(env, objects, ing, o).Some?
  {
    && AnyTLS(ing)
    && (Wanted(PlannedCopies(env, objects, ing, o), r) || exists t :: t in ing.tls && SameOriginLabels(t, origin))
  }

  /** The secrets after a pass with gateways: what was there, or a copy for a current TLS entry. */
  ghost predicate Copied(env: Env, w: Objects, mid: Objects, ing: Ingress, o: Orders)
    requires Fair(o)
  {
    && PlanPass(env, w, ing, o).Some?
    && forall r: Ref :: r.kind.SecretKind? ==>
         if Wanted(PlannedCopies(env, w, ing, o), r) then AnyTLS(ing) && TLSCopy(mid, ing, r) else SameAt(w, mid, r)
  }

  lemma PassCopies(env: Env, f: Faults, w: World, ing: Ingress, o: Orders)
    requires Fair(o) && GatewayPass(env, f, w, ing, o).outcome == Done
    ensures Copied(env, w.objects, GatewayPass(env, f, w, ing, o).world.objects, ing, o)
  {
    SuccessfulPassParts(env, f, w, ing, o);
    forall r: Ref | r.kind.SecretKind?
      ensures var mid := GatewayPass(env, f, w, ing, o).world.objects;
              if Wanted(PlannedCopies(env, w.objects, ing, o), r) then AnyTLS(ing) && TLSCopy(mid, ing, r)
              else SameAt(w.objects, mid, r)
    {
      SecretsAfterPass(env, f, w, ing, o, r);
    }
  }

  lemma ReclaimedAt(env: Env, w: Objects, mid: Objects, end: Objects, ing: Ingress, o: Orders, r: Ref,
                    origin: StoredSecret)
    requires Fair(o) && HoldsCopy(w, r, origin) && Copied(env, w, mid, ing, o) && CopiesSwept(mid, end, ing)
    ensures r in end <==> !Reclaimed(env, w, ing, o, r, origin)
  {
    SweptAt(mid, end, ing, r);
    if !Wanted(PlannedCopies(env, w, ing, o), r) {
      assert HoldsCopy(mid, r, origin);
      forall t ensures IsCopyFor(mid, t, None, r) <==> SameOriginLabels(t, origin) {
        CopyForExactly(mid, t, None, r, origin);
      }
    }
  }

  /** Copies from earlier, of whatever origin, stay through both passes exactly when the second does not reclaim
      them. */
  lemma CopyReclaimedExactly(env: Env, f: Faults, w: World, ing: Ingress, o: Orders, o': Orders, l: Listing, r: Ref,
                             origin: StoredSecret)
    requires Fair(o) && FairListing(l) && HoldsCopy(w.objects, r, origin)
    requires GatewayPass(env, f, w, ing, o).outcome == Done
    requires MeshOnlyPass(env, f, GatewayPass(env, f, w, ing, o).world, ing, o', l).outcome == Done
    ensures PlanPass(env, w.objects, ing, o).Some?
    ensures r in MeshOnlyPass(env, f, GatewayPass(env, f, w, ing, o).world, ing, o', l).world.objects <==>
            !Reclaimed(env, w.objects, ing, o, r, origin)
  {
    var mid := GatewayPass(env, f, w, ing, o).world;
    PassCopies(env, f, w, ing, o);
    MeshOnlyPassResult(env, f, mid, ing, o', l);
    ReclaimedAt(env, w.objects, mid.objects, MeshOnlyPass(env, f, mid, ing, o', l).world.objects, ing, o, r, origin);
  }

  lemma SweptAt(before: Objects, after: Objects, ing: Ingress, r: Ref)
    requires CopiesSwept(before, after, ing) && r.kind.SecretKind? && r in before
    ensures r in after <==> !(AnyTLS(ing) && TLSCopy(before, ing, r))
  {
    assert SameAt(before, after, r) || (AnyTLS(ing) && TLSCopy(before, ing, r));
  }

  /** Said of a copy that a pass made when the Ingress was another: with other TLS entries, labels or configuration.
      It is left behind by both passes exactly when the Ingress has no TLS any more, or no entry for the origin of
      the copy (and nothing of its own under the same key). */
  lemma EarlierCopyStaysExactly(env: Env, f: Faults, w: World, ing: Ingress, o: Orders, o': Orders, l: Listing,
                                env': Env, prior: Ingress, m: Making, copy: Want) returns (origin: StoredSecret)
    requires Fair(o) && FairListing(l) && MadeIn(env', prior, m, copy)
    requires copy.ref in w.objects && w.objects[copy.ref].labels == copy.obj.labels
    requires GatewayPass(env, f, w, ing, o).outcome == Done
    requires MeshOnlyPass(env, f, GatewayPass(env, f, w, ing, o).world, ing, o', l).outcome == Done
    ensures origin in m.origins.Values && copy == CopyOf(origin, m.naming(origin), copy.ref.namespace)
    ensures PlanPass(env, w.objects, ing, o).Some?
    ensures copy.ref in MeshOnlyPass(env, f, GatewayPass(env, f, w, ing, o).world, ing, o', l).world.objects <==>
            || !AnyTLS(ing)
            || (!Wanted(PlannedCopies(env, w.objects, ing, o), copy.ref) && forall t :: t in ing.tls ==>
                !SameOriginLabels(t, origin))
  {
    origin := MadeCopyOrigin(env', prior, m, copy);
    CopyReclaimedExactly(env, f, w, ing, o, o', l, copy.ref, origin);
  }

  /** The other table has the same secrets, without some copies that `earlier` gives with their origins. */
  ghost predicate WithoutCopies(objects: Objects, clean: Objects, earlier: map<Ref, StoredSecret>) {
    && (forall r :: r in earlier ==> HoldsCopy(objects, r, earlier[r]) && r !in clean)
    && (forall r: Ref :: r.kind.SecretKind? && r !in earlier ==> SameAt(objects, clean, r))
  }

  /** A pass with gateways puts a copy over a secret that is none of the copies for the TLS entries, nor one of
      `earlier`. */
  predicate Displaced(env: Env, objects: Objects, ing: Ingress, o: Orders, earlier: set<Ref>, r: Ref)
    requires Fair(o) && PlanPass(env, objects, ing, o).Some?
  {
    && r.kind.SecretKind? && r in objects && r !in earlier && !TLSCopy(objects, ing, r)
    && Wanted(PlannedCopies(env, objects, ing, o), r)
  }

  /** What has to hold at a key: a lacking copy is reclaimed, and nothing else is displaced. */
  predicate Recovered(env: Env, objects: Objects, ing: Ingress, o: Orders, earlier: map<Ref, StoredSecret>, r: Ref)
    requires Fair(o) && PlanPass(env, objects, ing, o).Some?
  {
    if r in earlier then Reclaimed(env, objects, ing, o, r, earlier[r])
    else !Displaced(env, objects, ing, o, earlier.Keys, r)
  }

  /** At one key, where the switch ends and where the table without copies does. */
  lemma SwitchAgreesAt(env: Env, w: Objects, mid: Objects, end: Objects, clean: Objects, scratch: Objects,
                       ing: Ingress, o: Orders, earlier: map<Ref, StoredSecret>, r: Ref)
    requires Fair(o) && r.kind.SecretKind? && WithoutCopies(w, clean, earlier) && Copied(env, w, mid, ing, o)
    requires CopiesSwept(mid, end, ing) && CopiesSwept(clean, scratch, ing)
    ensures SameAt(end, scratch, r) <==> Recovered(env, w, ing, o, earlier, r)
  {
    if r in earlier {
      NoSecretAppears(clean, scratch, ing, r);
      ReclaimedAt(env, w, mid, end, ing, o, r, earlier[r]);
    } else {
      assert TLSCopy(w, ing, r) <==> TLSCopy(clean, ing, r);
      if !Wanted(PlannedCopies(env, w, ing, o), r) {
        assert TLSCopy(mid, ing, r) <==> TLSCopy(clean, ing, r);
      }
    }
  }

  lemma SwitchAgrees(env: Env, w: Objects, mid: Objects, end: Objects, clean: Objects, scratch: Objects, ing: Ingress,
                     o: Orders, earlier: map<Ref, StoredSecret>)
    requires Fair(o) && WithoutCopies(w, clean, earlier) && Copied(env, w, mid, ing, o)
    requires CopiesSwept(mid, end, ing) && CopiesSwept(clean, scratch, ing)
    ensures SameKind(end, scratch, SecretKind) <==>
            forall r: Ref :: r.kind.SecretKind? ==> Recovered(env, w, ing, o, earlier, r)
  {
    forall r: Ref | r.kind.SecretKind?
      ensures SameAt(end, scratch, r) <==> Recovered(env, w, ing, o, earlier, r)
    {
      SwitchAgreesAt(env, w, mid, end, clean, scratch, ing, o, earlier, r);
    }
  }

  /** Switching from gateways to mesh-only, against mesh-only from a table that lacks copies: the same services,
      Gateways and secrets at the end, the copies that the pass with gateways makes included. That is so exactly when
      all copies that were lacking are reclaimed, and the pass put no copy over something else. */
  lemma ModeSwitchIsConfluent(env: Env, f: Faults, w: World, clean: World, ing: Ingress, o: Orders, o': Orders,
                              o'': Orders, l: Listing, earlier: map<Ref, StoredSecret>)
    requires Fair(o) && FairListing(l) && ing.namespace != ""
    requires WithoutCopies(w.objects, clean.objects, earlier)
    requires GatewayPass(env, f, w, ing, o).outcome == Done
    requires MeshOnlyPass(env, f, GatewayPass(env, f, w, ing, o).world, ing, o', l).outcome == Done
    requires MeshOnlyPass(env, f, clean, ing, o'', l).outcome == Done
    ensures PlanPass(env, w.objects, ing, o).Some?
    ensures SameOwned(MeshOnlyPass(env, f, GatewayPass(env, f, w, ing, o).world, ing, o', l).world.objects,
                      MeshOnlyPass(env, f, clean, ing, o'', l).world.objects, ing)
       <==> forall r: Ref :: r.kind.SecretKind? ==> Recovered(env, w.objects, ing, o, earlier, r)
  {
    var mid := GatewayPass(env, f, w, ing, o).world;
    PassCopies(env, f, w, ing, o);
    MeshOnlyPassResult(env, f, mid, ing, o', l);
    MeshOnlyPassResult(env, f, clean, ing, o'', l);
    var end := MeshOnlyPass(env, f, mid, ing, o', l).world.objects;
    var scratch := MeshOnlyPass(env, f, clean, ing, o'', l).world.objects;
    MeshOnlyIsCanonical(env, ing, mid.objects, end, clean.objects, scratch);
    SwitchAgrees(env, w.objects, mid.objects, end, clean.objects, scratch, ing, o, earlier);
  }

  /** So of the copies that the pass with gateways makes, none is left after the switch. */
  lemma PlannedCopiesGone(env: Env, f: Faults, w: World, ing: Ingress, o: Orders, o': Orders, l: Listing, r: Ref)
    requires Fair(o) && FairListing(l) && GatewayPass(env, f, w, ing, o).outcome == Done
    requires MeshOnlyPass(env, f, GatewayPass(env, f, w, ing, o).world, ing, o', l).outcome == Done
    requires r.kind.SecretKind?
    ensures PlanPass(env, w.objects, ing, o).Some?
    ensures Wanted(PlannedCopies(env, w.objects, ing, o), r) ==>
              r !in MeshOnlyPass(env, f, GatewayPass(env, f, w, ing, o).world, ing, o', l).world.objects
  {
    var mid := GatewayPass(env, f, w, ing, o).world;
    var end := MeshOnlyPass(env, f, mid, ing, o', l).world.objects;
    PassCopies(env, f, w, ing, o);
    MeshOnlyPassResult(env, f, mid, ing, o', l);
    assert Wanted(PlannedCopies(env, w.objects, ing, o), r) ==> TLSCopy(mid.objects, ing, r);
  }

  lemma NoSecretAppears(before: Objects, after: Objects, ing: Ingress, r: Ref)
    requires CopiesSwept(before, after, ing) && r.kind.SecretKind? && r !in before
    ensures r !in after
  {
    assert !TLSCopy(before, ing, r);
    assert SameAt(before, after, r);
  }
}
