/** When the copies of an Ingress collide neither with each other nor with origins, said of the origins. */
module Collisions {
  import opened Config
  import opened Credentials
  import opened Fixpoint
  import opened IngressPass
  import opened Secrets
  import opened Store
  import opened Types

  // ---------------------------------------------------------------- conditions on the origins

  /** A secret that the Ingress refers to. */
  predicate IsOrigin(objects: Objects, ing: Ingress, s: StoredSecret) {
    exists t :: t in ing.tls && SecretAt(objects, t.secretNamespace, t.secretName) == Some(s)
  }

  /** Uids are long and do not spell "wildcard": they are made of hexadecimal digits and dashes. */
  predicate IsUid(uid: string) {
    |uid| >= 8 && 'w' !in uid
  }

  /** Nothing can have moved across the border between namespace and name in the names of wildcard copies. */
  ghost predicate NothingMoved(a: StoredSecret, b: StoredSecret) {
    !DashMoved(a.name, a.namespace, b.name, b.namespace) && !BorderMoved(a.name, a.namespace, b.name, b.namespace)
  }

  /** Two origins have different uids, and names between which nothing has moved; and none has the name of a copy. */
  ghost predicate OriginsApart(objects: Objects, ing: Ingress) {
    && (forall s :: IsOrigin(objects, ing, s) ==> IsUid(s.uid))
    && (forall s, s' :: IsOrigin(objects, ing, s) && IsOrigin(objects, ing, s') ==>
          (s.uid == s'.uid ==> s == s') && NothingMoved(s, s') && NothingMoved(s', s))
    && (forall s, t :: IsOrigin(objects, ing, s) && t in ing.tls ==>
          t.secretName != TargetSecretName(ing.name, s)
          && t.secretName != TargetWildcardSecretName(s.name, s.namespace))
  }

  // ---------------------------------------------------------------- copies of such origins

  predicate IsCopyOf(ing: Ingress, s: StoredSecret, namespace: string, w: Want) {
    || w == CopyOf(s, TargetSecretName(ing.name, s), namespace)
    || w == CopyOf(s, TargetWildcardSecretName(s.name, s.namespace), namespace)
  }

  ghost predicate IsKnownCopy(objects: Objects, ing: Ingress, w: Want) {
    exists s, namespace :: IsOrigin(objects, ing, s) && IsCopyOf(ing, s, namespace, w)
  }

  /** Names of plain copies tell their origins apart by uid. */
  lemma PlainNamesDiffer(ing: Ingress, a: StoredSecret, b: StoredSecret)
    requires TargetSecretName(ing.name, a) == TargetSecretName(ing.name, b)
    ensures a.uid == b.uid
  {
    var n := |ing.name| + 1;
    assert TargetSecretName(ing.name, a)[n..] == a.uid && TargetSecretName(ing.name, b)[n..] == b.uid;
  }

  /** A plain copy never has the name of a wildcard copy. */
  lemma PlainIsNotWildcard(ing: Ingress, a: StoredSecret, b: StoredSecret)
    requires IsUid(a.uid)
    ensures TargetSecretName(ing.name, a) != TargetWildcardSecretName(b.name, b.namespace)
  {
    var plain, wildcard := TargetSecretName(ing.name, a), TargetWildcardSecretName(b.name, b.namespace);
    assert plain[|plain| - 8] == a.uid[|a.uid| - 8];
    assert wildcard[|wildcard| - 8] == 'w';
  }

  lemma SameOriginOfName(objects: Objects, ing: Ingress, a: StoredSecret, b: StoredSecret, n: string, m: string,
                         v: Want, w: Want)
    requires OriginsApart(objects, ing) && IsOrigin(objects, ing, a) && IsOrigin(objects, ing, b)
    requires IsCopyOf(ing, a, n, v) && IsCopyOf(ing, b, m, w) && v.ref.name == w.ref.name
    ensures a == b
  {
    PlainIsNotWildcard(ing, a, b);
    PlainIsNotWildcard(ing, b, a);
    if v.ref.name == TargetSecretName(ing.name, a) {
      assert w.ref.name == TargetSecretName(ing.name, b);
      PlainNamesDiffer(ing, a, b);
    } else {
      assert v.ref.name == TargetWildcardSecretName(a.name, a.namespace);
      SameWildcardOrigin(objects, ing, a, b);
    }
  }

  lemma SameCopy(ing: Ingress, a: StoredSecret, n: string, m: string, v: Want, w: Want)
    requires IsUid(a.uid) && IsCopyOf(ing, a, n, v) && IsCopyOf(ing, a, m, w) && v.ref == w.ref
    ensures v == w
  {
    PlainIsNotWildcard(ing, a, a);
    assert v.ref.namespace == n && w.ref.namespace == m;
  }

  lemma KnownCopiesAgree(objects: Objects, ing: Ingress, v: Want, w: Want)
    requires OriginsApart(objects, ing) && IsKnownCopy(objects, ing, v) && IsKnownCopy(objects, ing, w)
    requires v.ref == w.ref
    ensures v == w
  {
    var a, n :| IsOrigin(objects, ing, a) && IsCopyOf(ing, a, n, v);
    var b, m :| IsOrigin(objects, ing, b) && IsCopyOf(ing, b, m, w);
    SameOriginOfName(objects, ing, a, b, n, m, v, w);
    SameCopy(ing, a, n, m, v, w);
  }

  lemma SameWildcardOrigin(objects: Objects, ing: Ingress, a: StoredSecret, b: StoredSecret)
    requires OriginsApart(objects, ing) && IsOrigin(objects, ing, a) && IsOrigin(objects, ing, b)
    requires TargetWildcardSecretName(a.name, a.namespace) == TargetWildcardSecretName(b.name, b.namespace)
    ensures a == b
  {
    WildcardNamesExactly(a.name, a.namespace, b.name, b.namespace);
  }

  lemma KnownCopiesFit(objects: Objects, ing: Ingress, copies: seq<Want>)
    requires OriginsApart(objects, ing) && forall w :: w in copies ==> IsKnownCopy(objects, ing, w)
    ensures Consistent(copies) && ClearOfOrigins(copies, ing)
  {
    forall v, w | v in copies && w in copies && v.ref == w.ref ensures v == w {
      KnownCopiesAgree(objects, ing, v, w);
    }
    forall t | t in ing.tls ensures !Wanted(copies, OriginRef(t)) {
      forall w | w in copies ensures w.ref != OriginRef(t) {
        var s, namespace :| IsOrigin(objects, ing, s) && IsCopyOf(ing, s, namespace, w);
      }
    }
  }

  // ---------------------------------------------------------------- the copies a pass plans

  lemma MadeCopiesKnown(objects: Objects, ing: Ingress, order: seq<string>, origins: Origins, keys: seq<ServiceKey>,
                        wildcard: bool)
    requires (forall k :: k in order ==> k in origins)
    requires forall k :: k in origins ==> IsOrigin(objects, ing, origins[k])
    ensures var naming := if wildcard then WildcardNaming() else PlainNaming(ing.name);
            forall w :: w in Copies(order, origins, keys, naming) ==> IsKnownCopy(objects, ing, w)
  {
    var naming := if wildcard then WildcardNaming() else PlainNaming(ing.name);
    forall w | w in Copies(order, origins, keys, naming) ensures IsKnownCopy(objects, ing, w) {
      var k, s :| k in order && s in keys && s.namespace != origins[k].namespace
                  && w == CopyOf(origins[k], naming(origins[k]), s.namespace);
      assert IsCopyOf(ing, origins[k], s.namespace, w);
    }
  }

  lemma FoundAreOrigins(objects: Objects, ing: Ingress, visibility: string)
    requires GetSecrets(objects, IngressTLSFor(ing, visibility)).Some?
    ensures var found := GetSecrets(objects, IngressTLSFor(ing, visibility)).value;
            forall k :: k in found ==> IsOrigin(objects, ing, found[k])
  {
    var found := GetSecrets(objects, IngressTLSFor(ing, visibility)).value;
    forall k | k in found ensures IsOrigin(objects, ing, found[k]) {
      var t :| t in IngressTLSFor(ing, visibility) && SecretKey(t) == k
               && SecretAt(objects, t.secretNamespace, t.secretName) == Some(found[k]);
      assert t in ing.tls;
    }
  }

  lemma ExternalCopiesKnown(env: Env, objects: Objects, ing: Ingress, o: Orders)
    requires Fair(o) && PlanExternal(env, objects, ing, o).Some?
    ensures forall w :: w in PlanExternal(env, objects, ing, o).value.copies ==> IsKnownCopy(objects, ing, w)
  {
    if ExternalTLS(ing) {
      ExternalPlanParts(env, objects, ing, o);
      FoundAreOrigins(objects, ing, EXTERNAL_IP);
      var c, keys := PlanExternal(env, objects, ing, o).value.c, Keys(env, ing).value;
      MadeCopiesKnown(objects, ing, o.enumerate(0, c.plain.Keys), c.plain, keys, false);
      MadeCopiesKnown(objects, ing, o.enumerate(1, c.wildcard.Keys), c.wildcard, keys, true);
    }
  }

  lemma LocalCopiesKnown(env: Env, objects: Objects, ing: Ingress, o: Orders)
    requires Fair(o) && PlanLocal(env, objects, ing, o).Some?
    ensures forall w :: w in PlanLocal(env, objects, ing, o).value.copies ==> IsKnownCopy(objects, ing, w)
  {
    if env.localTLS && LocalTLS(ing) {
      FoundAreOrigins(objects, ing, CLUSTER_LOCAL);
      var origins := PlanLocal(env, objects, ing, o).value.origins;
      MadeCopiesKnown(objects, ing, o.enumerate(2, origins.Keys), origins, Keys(env, ing).value, false);
    }
  }

  /** No two generated Gateways under one key differ in their spec. */
  ghost predicate GatewaysApart(env: Env, objects: Objects, ing: Ingress, o: Orders)
    requires Fair(o)
  {
    var plan := PlanPass(env, objects, ing, o);
    plan.Some? ==> Agreeing(plan.value.external.wildcards + plan.value.gateways + plan.value.local.gateways)
  }

  /** The copies of a plan, from origins apart. */
  lemma PlannedCopiesFit(env: Env, objects: Objects, ing: Ingress, o: Orders)
    requires Fair(o) && OriginsApart(objects, ing) && PlanPass(env, objects, ing, o).Some?
    ensures var plan := PlanPass(env, objects, ing, o).value;
            Consistent(plan.external.copies + plan.local.copies)
            && ClearOfOrigins(plan.external.copies + plan.local.copies, ing)
  {
    var plan := PlanPass(env, objects, ing, o).value;
    var p := plan.external;
    ExternalCopiesKnown(env, objects, ing, o);
    KnownCopiesFit(objects, ing, p.copies);
    PutAllKeepsOrigins(objects, p.copies, ing);
    SamePlanLocal(env, objects, PutAll(objects, p.copies), ing, o);
    LocalCopiesKnown(env, objects, ing, o);
    assert forall w :: w in p.copies + plan.local.copies ==> w in p.copies || w in plan.local.copies;
    KnownCopiesFit(objects, ing, p.copies + plan.local.copies);
  }

  /** Secrets and Gateways have different keys, so they can be looked at apart. */
  lemma AgreeingByKind(env: Env, objects: Objects, ing: Ingress, o: Orders)
    requires Fair(o) && PlanPass(env, objects, ing, o).Some?
    ensures var plan := PlanPass(env, objects, ing, o).value;
            Agreeing(plan.Unowned()) <==>
            && Agreeing(plan.external.copies + plan.local.copies)
            && Agreeing(plan.external.wildcards + plan.gateways + plan.local.gateways)
  {
    PlanMembers(env, objects, ing, o);
    var plan := PlanPass(env, objects, ing, o).value;
    var copies, gateways := plan.external.copies + plan.local.copies,
                            plan.external.wildcards + plan.gateways + plan.local.gateways;
    assert forall v :: v in copies <==> v in plan.external.copies || v in plan.local.copies;
    assert forall v :: v in gateways <==>
             v in plan.external.wildcards || v in plan.gateways || v in plan.local.gateways;
    AgreeingApart(plan.Unowned(), copies, gateways);
  }

  lemma AgreeingApart(all: seq<Want>, a: seq<Want>, b: seq<Want>)
    requires forall v :: v in all <==> v in a || v in b
    requires AllOfKind(a, SecretKind) && AllOfKind(b, GatewayKind)
    ensures Agreeing(all) <==> Agreeing(a) && Agreeing(b)
  {
  }

  lemma ClearByKind(env: Env, objects: Objects, ing: Ingress, o: Orders)
    requires Fair(o) && PlanPass(env, objects, ing, o).Some?
    requires var plan := PlanPass(env, objects, ing, o).value;
             ClearOfOrigins(plan.external.copies + plan.local.copies, ing)
    ensures ClearOfOrigins(PlanPass(env, objects, ing, o).value.Unowned(), ing)
  {
    PlanMembers(env, objects, ing, o);
    var plan := PlanPass(env, objects, ing, o).value;
    var copies := plan.external.copies + plan.local.copies;
    forall t | t in ing.tls ensures !Wanted(plan.Unowned(), OriginRef(t)) {
      assert !Wanted(copies, OriginRef(t));
      forall v | v in plan.Unowned() ensures v.ref != OriginRef(t) {
        if v in plan.external.copies || v in plan.local.copies { assert v in copies; }
      }
    }
  }

  lemma ConsistentAgrees(wants: seq<Want>)
    requires Consistent(wants)
    ensures Agreeing(wants)
  {
    forall a, b | a in wants && b in wants && a.ref == b.ref ensures !Differs(a.obj, b.obj) {
      MergeSettles(b.obj, b.obj);
    }
  }

  /** With origins apart, collisions are a matter of the Gateways alone, whose names hold checksums. */
  lemma OriginsApartSuffice(env: Env, objects: Objects, ing: Ingress, o: Orders)
    requires Fair(o) && OriginsApart(objects, ing)
    ensures NoCollisions(env, objects, ing, o) <==> GatewaysApart(env, objects, ing, o)
  {
    if PlanPass(env, objects, ing, o).Some? {
      var plan := PlanPass(env, objects, ing, o).value;
      PlannedCopiesFit(env, objects, ing, o);
      ConsistentAgrees(plan.external.copies + plan.local.copies);
      AgreeingByKind(env, objects, ing, o);
      ClearByKind(env, objects, ing, o);
    }
  }

  /** So, with origins apart, the pass after a successful one is quiet exactly when no two generated Gateways under
      one key differ in their spec. Otherwise the two displace each other in every pass. */
  lemma QuietExactlyWhenGatewaysApart(env: Env, f: Faults, f': Faults, w: World, ing: Ingress, o: Orders, o': Orders)
    requires Fair(o) && Fair(o') && OriginsApart(w.objects, ing)
    requires GatewayPass(env, f, w, ing, o).outcome == Done
    ensures var after := GatewayPass(env, f, w, ing, o).world;
            GatewayPass(env, f', after, ing, o') == Step(after, Done) <==> GatewaysApart(env, w.objects, ing, o)
  {
    SuccessfulPassParts(env, f, w, ing, o);
    PlannedCopiesFit(env, w.objects, ing, o);
    ClearByKind(env, w.objects, ing, o);
    OriginsApartSuffice(env, w.objects, ing, o);
    SecondPassQuietExactly(env, f, f', w, ing, o, o');
  }
}
