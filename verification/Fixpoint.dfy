/** What a successful pass with gateways settles, and that a second one then finds nothing to do. */
module Fixpoint {
  import opened Config
  import opened Convergence
  import opened Gateways
  import opened IngressPass
  import opened Secrets
  import opened ServiceObjects
  import opened Store
  import opened Strings
  import opened Types
  import opened VirtualServicePass
  import opened VirtualServices

  // ---------------------------------------------------------------- what is planned from a table

  datatype ExternalPlan = ExternalPlan(c: Categories, copies: seq<Want>, gateways: seq<Want>, wildcards: seq<Want>)

  /** The external stage's objects as they follow from the secrets in a table; None where the stage would fail. */
  function PlanExternal(env: Env, objects: Objects, ing: Ingress, o: Orders): Option<ExternalPlan>
    requires Fair(o)
  {
    if !ExternalTLS(ing) then Some(ExternalPlan(Categories(map[], map[]), [], [], [])) else
      match ExternalSecrets(env, objects, ing)
      case None => None
      case Some(c) => PlanFromSecrets(env, ing, o, c)
  }

  function PlanFromSecrets(env: Env, ing: Ingress, o: Orders, c: Categories): Option<ExternalPlan>
    requires Fair(o)
  {
    var copies, gateways := ExternalCopies(env, ing, o, c), PlainGateways(env, ing, c);
    var wildcards := WildcardTLSGateways(env, ing, o, c.wildcard);
    if copies.Some? && gateways.Some? && wildcards.Some?
    then Some(ExternalPlan(c, copies.value, gateways.value, wildcards.value)) else None
  }

  datatype LocalPlan = LocalPlan(origins: Origins, copies: seq<Want>, gateways: seq<Want>)

  function PlanLocal(env: Env, objects: Objects, ing: Ingress, o: Orders): Option<LocalPlan>
    requires Fair(o)
  {
    if !(env.localTLS && LocalTLS(ing)) then Some(LocalPlan(map[], [], [])) else
      match GetSecrets(objects, IngressTLSFor(ing, CLUSTER_LOCAL))
      case None => None
      case Some(origins) =>
        match (LocalCopies(env, ing, o, origins),
               IngressTLSGateways(env, ing, CLUSTER_LOCAL, IngressTLSFor(ing, CLUSTER_LOCAL), origins))
        case (Some(copies), Some(gateways)) => Some(LocalPlan(origins, copies, gateways))
        case _ => None
  }

  lemma ExternalStageFollowsPlan(env: Env, f: Faults, w: World, ing: Ingress, o: Orders)
    requires Fair(o) && ExternalStage(env, f, w, ing, o).step.outcome == Done
    ensures PlanExternal(env, w.objects, ing, o).Some?
    ensures var p := PlanExternal(env, w.objects, ing, o).value;
            var s := ReconcileAll(f, w, Live, None, p.copies);
            && s.outcome == Done
            && ExternalStage(env, f, w, ing, o) ==
               Stage(ReconcileAll(f, s.world, Live, None, p.wildcards), p.gateways, p.wildcards)
  {
    if ExternalTLS(ing) {
      var c := ExternalSecrets(env, w.objects, ing).value;
      assert PlanExternal(env, w.objects, ing, o) == PlanFromSecrets(env, ing, o, c);
    }
  }

  lemma ExternalStageOfPlan(env: Env, f: Faults, w: World, ing: Ingress, o: Orders)
    requires Fair(o) && PlanExternal(env, w.objects, ing, o).Some?
    ensures var p := PlanExternal(env, w.objects, ing, o).value;
            var s := ReconcileAll(f, w, Live, None, p.copies);
            ExternalStage(env, f, w, ing, o) ==
            if s.outcome.Failed? then Stage(s, [], [])
            else Stage(ReconcileAll(f, s.world, Live, None, p.wildcards), p.gateways, p.wildcards)
  {
  }

  lemma LocalStageFollowsPlan(env: Env, f: Faults, w: World, ing: Ingress, o: Orders)
    requires Fair(o) && LocalStage(env, f, w, ing, o).step.outcome == Done
    ensures PlanLocal(env, w.objects, ing, o).Some?
    ensures var p := PlanLocal(env, w.objects, ing, o).value;
            && LocalStage(env, f, w, ing, o) == Stage(ReconcileAll(f, w, Live, None, p.copies), p.gateways, [])
  {
  }

  lemma LocalStageOfPlan(env: Env, f: Faults, w: World, ing: Ingress, o: Orders)
    requires Fair(o) && PlanLocal(env, w.objects, ing, o).Some?
    ensures var q := PlanLocal(env, w.objects, ing, o).value;
            var s := ReconcileAll(f, w, Live, None, q.copies);
            LocalStage(env, f, w, ing, o) == if s.outcome.Failed? then Stage(s, [], []) else Stage(s, q.gateways, [])
  {
  }

  // ---------------------------------------------------------------- the order of maps does not matter

  lemma CopiesSameMembers(order: seq<string>, order': seq<string>, origins: Origins, services: seq<ServiceKey>,
                          naming: Naming)
    requires Enumerates(order, origins.Keys) && Enumerates(order', origins.Keys)
    ensures SameMembers(Copies(order, origins, services, naming), Copies(order', origins, services, naming))
  {
    assert forall k :: k in order <==> k in order';
  }

  lemma ExternalCopiesSameMembers(env: Env, ing: Ingress, o: Orders, o': Orders, c: Categories)
    requires Fair(o) && Fair(o') && ExternalCopies(env, ing, o, c).Some?
    ensures ExternalCopies(env, ing, o', c).Some?
    ensures SameMembers(ExternalCopies(env, ing, o, c).value, ExternalCopies(env, ing, o', c).value)
  {
    var keys := Keys(env, ing).value;
    CopiesSameMembers(o.enumerate(0, c.plain.Keys), o'.enumerate(0, c.plain.Keys), c.plain, keys,
                      PlainNaming(ing.name));
    CopiesSameMembers(o.enumerate(1, c.wildcard.Keys), o'.enumerate(1, c.wildcard.Keys), c.wildcard, keys,
                      WildcardNaming());
  }

  lemma {:induction false} WildcardGatewaysSameMembers(lib: Library, o: Orders, o': Orders, origins: Origins,
                                                       services: seq<GatewayService>)
    requires Fair(o) && Fair(o') && AllWildcardGateways(lib, o, origins, services).Some?
    ensures AllWildcardGateways(lib, o', origins, services).Some?
    ensures SameMembers(AllWildcardGateways(lib, o, origins, services).value,
                        AllWildcardGateways(lib, o', origins, services).value)
  {
    if services != [] {
      var n := |services| - 1;
      WildcardGatewaysSameMembers(lib, o, o', origins, services[..n]);
      var a, b := o.enumerate(10 + n, origins.Keys), o'.enumerate(10 + n, origins.Keys);
      assert forall k :: k in a <==> k in b;
    }
  }

  /** Planned again from a table with the same secrets, in any other order of maps. */
  lemma ExternalPlanSameMembers(env: Env, objects: Objects, objects': Objects, ing: Ingress, o: Orders, o': Orders)
    requires Fair(o) && Fair(o') && PlanExternal(env, objects, ing, o).Some?
    requires SameOrigins(objects, objects', ing)
    ensures PlanExternal(env, objects', ing, o').Some?
    ensures var p, p' := PlanExternal(env, objects, ing, o).value, PlanExternal(env, objects', ing, o').value;
            SameMembers(p.copies, p'.copies) && p.gateways == p'.gateways && SameMembers(p.wildcards, p'.wildcards)
  {
    if ExternalTLS(ing) {
      GetSecretsDependsOn(objects, objects', IngressTLSFor(ing, EXTERNAL_IP));
      assert ExternalSecrets(env, objects, ing) == ExternalSecrets(env, objects', ing);
      PlanFromSecretsSameMembers(env, ing, o, o', ExternalSecrets(env, objects, ing).value);
    }
  }

  lemma PlanFromSecretsSameMembers(env: Env, ing: Ingress, o: Orders, o': Orders, c: Categories)
    requires Fair(o) && Fair(o') && PlanFromSecrets(env, ing, o, c).Some?
    ensures PlanFromSecrets(env, ing, o', c).Some?
    ensures var p, p' := PlanFromSecrets(env, ing, o, c).value, PlanFromSecrets(env, ing, o', c).value;
            SameMembers(p.copies, p'.copies) && p.gateways == p'.gateways && SameMembers(p.wildcards, p'.wildcards)
  {
    ExternalCopiesSameMembers(env, ing, o, o', c);
    if |c.wildcard| != 0 {
      WildcardGatewaysSameMembers(env.lib, o, o', c.wildcard, Services(env, ing).value);
    }
  }

  lemma LocalPlanSameMembers(env: Env, objects: Objects, objects': Objects, ing: Ingress, o: Orders, o': Orders)
    requires Fair(o) && Fair(o') && PlanLocal(env, objects, ing, o).Some?
    requires SameOrigins(objects, objects', ing)
    ensures PlanLocal(env, objects', ing, o').Some?
    ensures var p, p' := PlanLocal(env, objects, ing, o).value, PlanLocal(env, objects', ing, o').value;
            SameMembers(p.copies, p'.copies) && p.gateways == p'.gateways && p.origins == p'.origins
  {
    if env.localTLS && LocalTLS(ing) {
      var p := PlanLocal(env, objects, ing, o).value;
      GetSecretsDependsOn(objects, objects', IngressTLSFor(ing, CLUSTER_LOCAL));
      CopiesSameMembers(o.enumerate(2, p.origins.Keys), o'.enumerate(2, p.origins.Keys), p.origins,
                        Keys(env, ing).value, PlainNaming(ing.name));
    }
  }

  // ---------------------------------------------------------------- what stays while other things are written

  function OriginRef(t: IngressTLS): Ref {
    Ref(SecretKind, t.secretNamespace, t.secretName)
  }

  /** The secrets the Ingress refers to are the same in both tables. */
  ghost predicate SameOrigins(a: Objects, b: Objects, ing: Ingress) {
    forall t :: t in ing.tls ==>
      SecretAt(a, t.secretNamespace, t.secretName) == SecretAt(b, t.secretNamespace, t.secretName)
  }

  ghost predicate SameKind(a: Objects, b: Objects, kind: Kind) {
    forall r: Ref :: r.kind == kind ==> SameAt(a, b, r)
  }

  ghost predicate AllOfKind(wants: seq<Want>, kind: Kind) {
    forall w :: w in wants ==> w.ref.kind == kind
  }

  /** Objects of one kind stay while others are written, whatever is refused. */
  lemma OthersUntouched(f: Faults, w: World, wants: seq<Want>, kind: Kind)
    requires forall v :: v in wants ==> v.ref.kind != kind
    ensures SameKind(w.objects, ReconcileAll(f, w, Live, None, wants).world.objects, kind)
  {
    var after := ReconcileAll(f, w, Live, None, wants).world.objects;
    forall r: Ref | r.kind == kind ensures SameAt(w.objects, after, r) {
      ReconcileAllFrame(f, w, Live, None, wants, r);
    }
  }

  lemma PassKeepsOtherKinds(before: Objects, ing: Ingress, wants: seq<Want>, after: Objects, other: Kind)
    requires Converged(before, ing, wants, after) && MadeFor(ing, wants) && other != VirtualServiceKind
    ensures SameKind(before, after, other)
  {
    forall r: Ref | r.kind == other ensures !Wanted(wants, r) && r !in Obsolete(before, ing, NamesOf(wants)) {
    }
  }

  /** None of the wants is a secret the Ingress refers to. */
  ghost predicate ClearOfOrigins(wants: seq<Want>, ing: Ingress) {
    forall t :: t in ing.tls ==> !Wanted(wants, OriginRef(t))
  }

  lemma OriginsUntouched(f: Faults, w: World, wants: seq<Want>, ing: Ingress)
    requires ClearOfOrigins(wants, ing)
    ensures SameOrigins(w.objects, ReconcileAll(f, w, Live, None, wants).world.objects, ing)
  {
    forall t | t in ing.tls
      ensures SecretAt(w.objects, t.secretNamespace, t.secretName) ==
              SecretAt(ReconcileAll(f, w, Live, None, wants).world.objects, t.secretNamespace, t.secretName)
    {
      ReconcileAllFrame(f, w, Live, None, wants, OriginRef(t));
    }
  }

  lemma OriginsOfSameKind(a: Objects, b: Objects, ing: Ingress)
    requires SameKind(a, b, SecretKind)
    ensures SameOrigins(a, b, ing)
  {
    forall t | t in ing.tls
      ensures SecretAt(a, t.secretNamespace, t.secretName) == SecretAt(b, t.secretNamespace, t.secretName)
    {
      assert SameAt(a, b, OriginRef(t));
    }
  }

  lemma SameOriginsTransitive(a: Objects, b: Objects, c: Objects, ing: Ingress)
    requires SameOrigins(a, b, ing) && SameOrigins(b, c, ing)
    ensures SameOrigins(a, c, ing)
  {
  }

  lemma SamePlanLocal(env: Env, a: Objects, b: Objects, ing: Ingress, o: Orders)
    requires Fair(o) && SameOrigins(a, b, ing)
    ensures PlanLocal(env, a, ing, o) == PlanLocal(env, b, ing, o)
  {
    GetSecretsDependsOn(a, b, IngressTLSFor(ing, CLUSTER_LOCAL));
  }

  // ---------------------------------------------------------------- kinds of what is planned

  lemma CopiesAreSecrets(order: seq<string>, origins: Origins, services: seq<ServiceKey>, naming: Naming)
    requires forall k :: k in order ==> k in origins
    ensures AllOfKind(Copies(order, origins, services, naming), SecretKind)
  {
  }

  lemma {:induction false} WildcardsAreGateways(lib: Library, o: Orders, origins: Origins,
                                                services: seq<GatewayService>)
    requires Fair(o) && AllWildcardGateways(lib, o, origins, services).Some?
    ensures AllOfKind(AllWildcardGateways(lib, o, origins, services).value, GatewayKind)
  {
    if services != [] {
      WildcardsAreGateways(lib, o, origins, services[..|services| - 1]);
    }
  }

  lemma ExternalCopiesKind(env: Env, ing: Ingress, o: Orders, c: Categories)
    requires Fair(o) && ExternalCopies(env, ing, o, c).Some?
    ensures AllOfKind(ExternalCopies(env, ing, o, c).value, SecretKind)
  {
    var keys := Keys(env, ing).value;
    CopiesAreSecrets(o.enumerate(0, c.plain.Keys), c.plain, keys, PlainNaming(ing.name));
    CopiesAreSecrets(o.enumerate(1, c.wildcard.Keys), c.wildcard, keys, WildcardNaming());
  }

  lemma WildcardTLSGatewaysKind(env: Env, ing: Ingress, o: Orders, origins: Origins)
    requires Fair(o) && WildcardTLSGateways(env, ing, o, origins).Some?
    ensures AllOfKind(WildcardTLSGateways(env, ing, o, origins).value, GatewayKind)
  {
    if |origins| != 0 {
      WildcardsAreGateways(env.lib, o, origins, Services(env, ing).value);
    }
  }

  lemma PlanKinds(env: Env, objects: Objects, ing: Ingress, o: Orders)
    requires Fair(o) && PlanExternal(env, objects, ing, o).Some?
    ensures var p := PlanExternal(env, objects, ing, o).value;
            && AllOfKind(p.copies, SecretKind) && AllOfKind(p.wildcards, GatewayKind)
            && AllOfKind(p.gateways, GatewayKind)
            && forall g :: g in p.gateways ==> g.obj.body.GatewayBody?
  {
    if ExternalTLS(ing) {
      var c := ExternalSecrets(env, objects, ing).value;
      ExternalCopiesKind(env, ing, o, c);
      GatewaysAreGateways(env, ing, EXTERNAL_IP, PlainTLS(IngressTLSFor(ing, EXTERNAL_IP), c.plain), c.plain);
      WildcardTLSGatewaysKind(env, ing, o, c.wildcard);
    }
  }

  lemma LocalPlanKinds(env: Env, objects: Objects, ing: Ingress, o: Orders)
    requires Fair(o) && PlanLocal(env, objects, ing, o).Some?
    ensures var q := PlanLocal(env, objects, ing, o).value;
            AllOfKind(q.copies, SecretKind) && AllOfKind(q.gateways, GatewayKind)
  {
    if env.localTLS && LocalTLS(ing) {
      var q := PlanLocal(env, objects, ing, o).value;
      CopiesAreSecrets(o.enumerate(2, q.origins.Keys), q.origins, Keys(env, ing).value, PlainNaming(ing.name));
      GatewaysAreGateways(env, ing, CLUSTER_LOCAL, IngressTLSFor(ing, CLUSTER_LOCAL), q.origins);
    }
  }

  /** The external Gateways that are put in place, from those of the plan. */
  function FinalGateways(env: Env, ing: Ingress, gateways: seq<Want>): Option<seq<Want>> {
    if forall g :: g in gateways ==> g.obj.body.GatewayBody? then WithHTTP(env, ing, gateways) else None
  }

  lemma FinalGatewaysKind(env: Env, ing: Ingress, gateways: seq<Want>)
    requires AllOfKind(gateways, GatewayKind) && FinalGateways(env, ing, gateways).Some?
    ensures AllOfKind(FinalGateways(env, ing, gateways).value, GatewayKind)
  {
    var r := FinalGateways(env, ing, gateways).value;
    forall w | w in r ensures w.ref.kind == GatewayKind {
      var i :| 0 <= i < |r| && r[i] == w;
      if OwnHTTPServer(ing) && |gateways| != 0 { assert gateways[i] in gateways; }
    }
  }

  // --------------------------------------------------------------- a whole pass, planned from the table it starts from

  /** All that a pass with gateways puts in place but its VirtualServices, and the gateways that those are routed on. */
  datatype PassPlan = PassPlan(external: ExternalPlan, local: LocalPlan, gateways: seq<Want>, names: GatewayNames) {
    /** Secrets and Gateways, which are put in place without regard to an owner, in order. */
    function Unowned(): seq<Want> {
      external.copies + external.wildcards + local.copies + gateways + local.gateways
    }
  }

  /** The secrets of cluster-local entries are looked up when the external copies are in place. */
  function PlanPass(env: Env, objects: Objects, ing: Ingress, o: Orders): Option<PassPlan>
    requires Fair(o)
  {
    match (GatewaysFromContext(env.lib, env.config, ing.labels), PlanExternal(env, objects, ing, o))
    case (Some(sel), Some(p)) =>
      (match (PlanLocal(env, PutAll(objects, p.copies), ing, o), FinalGateways(env, ing, p.gateways))
       case (Some(q), Some(gateways)) =>
         Some(PassPlan(p, q, gateways, RoutingGateways(ing, sel, p.wildcards, gateways, q.gateways)))
       case _ => None)
    case _ => None
  }

  lemma PlanNames(env: Env, objects: Objects, ing: Ingress, o: Orders)
    requires Fair(o) && PlanPass(env, objects, ing, o).Some?
    ensures var plan, sel := PlanPass(env, objects, ing, o).value, GatewaysFromContext(env.lib, env.config, ing.labels);
            sel.Some? && plan.names ==
              RoutingGateways(ing, sel.value, plan.external.wildcards, plan.gateways, plan.local.gateways)
  {
  }

  /** What a planned pass does: one list, and then the VirtualServices. */
  function Follow(env: Env, f: Faults, w: World, ing: Ingress, plan: PassPlan, cache: Lister, routeFirst: bool): Step {
    var s := ReconcileAll(f, w, Live, None, plan.Unowned());
    if s.outcome.Failed? then s else
      match MakeVirtualServices(env.lib, ing, plan.names)
      case None => Step(s.world, Failed(Invalid))
      case Some(vses) => Pass(f, s.world, cache, ing, vses, routeFirst)
  }

  lemma PlanMembers(env: Env, objects: Objects, ing: Ingress, o: Orders)
    requires Fair(o) && PlanPass(env, objects, ing, o).Some?
    ensures var plan := PlanPass(env, objects, ing, o).value;
            && AllOfKind(plan.external.copies, SecretKind) && AllOfKind(plan.local.copies, SecretKind)
            && AllOfKind(plan.external.wildcards, GatewayKind) && AllOfKind(plan.gateways, GatewayKind)
            && AllOfKind(plan.local.gateways, GatewayKind)
            && forall v :: v in plan.Unowned() <==>
                 || v in plan.external.copies || v in plan.local.copies
                 || v in plan.external.wildcards || v in plan.gateways || v in plan.local.gateways
  {
    var plan := PlanPass(env, objects, ing, o).value;
    PlanKinds(env, objects, ing, o);
    LocalPlanKinds(env, PutAll(objects, plan.external.copies), ing, o);
    FinalGatewaysKind(env, ing, plan.external.gateways);
  }

  lemma UnownedKinds(env: Env, objects: Objects, ing: Ingress, o: Orders)
    requires Fair(o) && PlanPass(env, objects, ing, o).Some?
    ensures forall v :: v in PlanPass(env, objects, ing, o).value.Unowned() ==> v.ref.kind != VirtualServiceKind
  {
    PlanMembers(env, objects, ing, o);
  }

  lemma FollowsUnfold(env: Env, f: Faults, w: World, ing: Ingress, plan: PassPlan, cache: Lister, routeFirst: bool)
    ensures Follow(env, f, w, ing, plan, cache, routeFirst) ==
            var a := ReconcileAll(f, w, Live, None, plan.external.copies);
            if a.outcome.Failed? then a else
              var b := ReconcileAll(f, a.world, Live, None, plan.external.wildcards);
              if b.outcome.Failed? then b else
                var c := ReconcileAll(f, b.world, Live, None, plan.local.copies);
                if c.outcome.Failed? then c else
                  var d := ReconcileAll(f, c.world, Live, None, plan.gateways);
                  if d.outcome.Failed? then d else
                    var e := ReconcileAll(f, d.world, Live, None, plan.local.gateways);
                    if e.outcome.Failed? then e else
                      match MakeVirtualServices(env.lib, ing, plan.names)
                      case None => Step(e.world, Failed(Invalid))
                      case Some(vses) => Pass(f, e.world, cache, ing, vses, routeFirst)
  {
    var a, b, c, d := plan.external.copies, plan.external.wildcards, plan.local.copies, plan.gateways;
    ReconcileAllConcat(f, w, Live, None, a + b + c + d, plan.local.gateways);
    ReconcileAllConcat(f, w, Live, None, a + b + c, d);
    ReconcileAllConcat(f, w, Live, None, a + b, c);
    ReconcileAllConcat(f, w, Live, None, a, b);
  }

  /** Once the external stage has ended well, the cluster-local one plans as if only the copies had been put in
      place. */
  lemma LocalPlanAfter(env: Env, f: Faults, w: World, ing: Ingress, o: Orders)
    requires Fair(o) && ExternalStage(env, f, w, ing, o).step.outcome == Done
    ensures PlanExternal(env, w.objects, ing, o).Some?
    ensures PlanLocal(env, ExternalStage(env, f, w, ing, o).step.world.objects, ing, o) ==
            PlanLocal(env, PutAll(w.objects, PlanExternal(env, w.objects, ing, o).value.copies), ing, o)
  {
    ExternalStageFollowsPlan(env, f, w, ing, o);
    PlanKinds(env, w.objects, ing, o);
    var p := PlanExternal(env, w.objects, ing, o).value;
    var mid := ReconcileAll(f, w, Live, None, p.copies).world;
    DoneMeansPut(f, w, None, p.copies);
    OthersUntouched(f, mid, p.wildcards, SecretKind);
    OriginsOfSameKind(mid.objects, ReconcileAll(f, mid, Live, None, p.wildcards).world.objects, ing);
    SamePlanLocal(env, mid.objects, ReconcileAll(f, mid, Live, None, p.wildcards).world.objects, ing, o);
  }

  /** A pass that can be planned goes by its plan, whatever is refused and whatever the VirtualService cache shows. */
  lemma PassFollowsPlan(env: Env, f: Faults, w: World, ing: Ingress, o: Orders, cache: Lister)
    requires Fair(o) && PlanPass(env, w.objects, ing, o).Some?
    ensures GatewayPassSeeing(env, f, w, ing, o, cache) ==
            Follow(env, f, w, ing, PlanPass(env, w.objects, ing, o).value, cache, o.routeFirst)
  {
    var plan := PlanPass(env, w.objects, ing, o).value;
    FollowsUnfold(env, f, w, ing, plan, cache, o.routeFirst);
    ExternalStageGateways(env, f, w, ing, o);
    ExternalStageOfPlan(env, f, w, ing, o);
    var ext := ExternalStage(env, f, w, ing, o);
    if ext.step.outcome == Done {
      LocalPlanAfter(env, f, w, ing, o);
      LocalStageOfPlan(env, f, ext.step.world, ing, o);
    }
  }

  /** And one that cannot be planned fails. */
  lemma UnplannedFails(env: Env, f: Faults, w: World, ing: Ingress, o: Orders, cache: Lister)
    requires Fair(o) && PlanPass(env, w.objects, ing, o).None?
    ensures GatewayPassSeeing(env, f, w, ing, o, cache).outcome.Failed?
  {
    ExternalStageGateways(env, f, w, ing, o);
    var ext := ExternalStage(env, f, w, ing, o);
    if ext.step.outcome == Done {
      ExternalStageFollowsPlan(env, f, w, ing, o);
      LocalPlanAfter(env, f, w, ing, o);
      if LocalStage(env, f, ext.step.world, ing, o).step.outcome == Done {
        LocalStageFollowsPlan(env, f, ext.step.world, ing, o);
      }
    }
  }

  // ---------------------------------------------------------------- what a successful pass settles

  /** No two generated objects under one key contradict each other, and no copy lies where an origin is. */
  ghost predicate NoCollisions(env: Env, objects: Objects, ing: Ingress, o: Orders)
    requires Fair(o)
  {
    var plan := PlanPass(env, objects, ing, o);
    plan.Some? ==> Agreeing(plan.value.Unowned()) && ClearOfOrigins(plan.value.Unowned(), ing)
  }

  /** The VirtualServices of a pass, and whether nothing is left to do about them. */
  ghost predicate ServicesSettled(objects: Objects, ing: Ingress, vses: seq<Want>) {
    && Satisfied(objects, Some(ing.uid), IstioWants(vses))
    && ObsoleteBy(objects, ing, NamesOf(IstioWants(vses)), false) == {}
    && ObsoleteBy(objects, ing, NamesOf(IstioWants(vses)), true) == {}
  }

  lemma IstioWantsFit(lib: Library, ing: Ingress, gateways: GatewayNames)
    requires MakeVirtualServices(lib, ing, gateways).Some?
    ensures var wants := IstioWants(MakeVirtualServices(lib, ing, gateways).value);
            MadeFor(ing, wants) && Consistent(wants) && AllOfKind(wants, VirtualServiceKind)
            && forall i, j :: 0 <= i < j < |wants| ==> wants[i].ref != wants[j].ref
  {
    var vses := MakeVirtualServices(lib, ing, gateways).value;
    MadeVirtualServices(lib, ing, gateways);
    AllOrNoneIstio(ing, vses);
    DistinctRefsFit(lib, ing, vses);
  }

  lemma ServicePassSettles(f: Faults, w: World, ing: Ingress, lib: Library, gateways: GatewayNames, routeFirst: bool)
    requires MakeVirtualServices(lib, ing, gateways).Some?
    requires Pass(f, w, Live, ing, MakeVirtualServices(lib, ing, gateways).value, routeFirst).outcome == Done
    ensures var vses := MakeVirtualServices(lib, ing, gateways).value;
            var after := Pass(f, w, Live, ing, vses, routeFirst).world.objects;
            && ServicesSettled(after, ing, vses)
            && SameKind(w.objects, after, GatewayKind) && SameKind(w.objects, after, SecretKind)
  {
    var vses := MakeVirtualServices(lib, ing, gateways).value;
    var wants := IstioWants(vses);
    var after := Pass(f, w, Live, ing, vses, routeFirst).world.objects;
    IstioWantsFit(lib, ing, gateways);
    LivePassConverges(f, w, ing, vses, routeFirst);
    DoneMeansOwned(f, w, ing.uid, wants);
    ConvergedIsSatisfied(w.objects, ing, wants, after);
    ConvergedHasNothingObsolete(w.objects, ing, wants, after);
    PassKeepsOtherKinds(w.objects, ing, wants, after, GatewayKind);
    PassKeepsOtherKinds(w.objects, ing, wants, after, SecretKind);
  }

  lemma ConvergedIsSatisfied(before: Objects, ing: Ingress, wants: seq<Want>, after: Objects)
    requires Converged(before, ing, wants, after) && Ownable(before, Some(ing.uid), wants)
    ensures Satisfied(after, Some(ing.uid), wants)
  {
    forall w | w in wants ensures !Differs(after[w.ref], w.obj) && ControlledBy(after[w.ref], ing.uid) {
      MergeSettles(w.obj, w.obj);
      if w.ref in before { MergeSettles(before[w.ref], w.obj); }
    }
  }

  lemma SettledServicesAreQuiet(f: Faults, w: World, ing: Ingress, vses: seq<Want>, routeFirst: bool)
    requires ServicesSettled(w.objects, ing, vses)
    ensures Pass(f, w, Live, ing, vses, routeFirst) == Step(w, Done)
  {
    var wants := IstioWants(vses);
    SatisfiedIsNoop(f, w, Live, Some(ing.uid), wants);
    NothingToRemove(f, w, w.objects, SortedRefs(Listed(w.objects, ing, routeFirst)), ing, NamesOf(wants), routeFirst);
    NothingToRemove(f, w, w.objects, SortedRefs(Listed(w.objects, ing, !routeFirst)), ing, NamesOf(wants), !routeFirst);
  }

  /** Everything a pass wants, planned from the table `before`, is in place in `after`. */
  ghost predicate Settled(env: Env, before: Objects, after: Objects, ing: Ingress, o: Orders)
    requires Fair(o)
  {
    var plan := PlanPass(env, before, ing, o);
    && plan.Some? && ClearOfOrigins(plan.value.Unowned(), ing) && SameOrigins(before, after, ing)
    && Satisfied(after, None, plan.value.Unowned())
    && var vses := MakeVirtualServices(env.lib, ing, plan.value.names);
       vses.Some? && ServicesSettled(after, ing, vses.value)
  }

  /** The list and the services of a pass that ended well. */
  lemma SuccessfulPassParts(env: Env, f: Faults, w: World, ing: Ingress, o: Orders)
    requires Fair(o) && GatewayPass(env, f, w, ing, o).outcome == Done
    ensures PlanPass(env, w.objects, ing, o).Some?
    ensures var plan := PlanPass(env, w.objects, ing, o).value;
            var s := ReconcileAll(f, w, Live, None, plan.Unowned());
            var vses := MakeVirtualServices(env.lib, ing, plan.names);
            && s.outcome == Done && s.world.objects == PutAll(w.objects, plan.Unowned())
            && vses.Some? && GatewayPass(env, f, w, ing, o) == Pass(f, s.world, Live, ing, vses.value, o.routeFirst)
  {
    if PlanPass(env, w.objects, ing, o).None? {
      UnplannedFails(env, f, w, ing, o, Live);
    } else {
      PassFollowsPlan(env, f, w, ing, o, Live);
      DoneMeansPut(f, w, None, PlanPass(env, w.objects, ing, o).value.Unowned());
    }
  }

  lemma SatisfiedSameKinds(a: Objects, b: Objects, wants: seq<Want>)
    requires SameKind(a, b, SecretKind) && SameKind(a, b, GatewayKind) && Satisfied(a, None, wants)
    requires forall v :: v in wants ==> v.ref.kind != VirtualServiceKind
    ensures Satisfied(b, None, wants)
  {
    forall v | v in wants ensures v.ref in b && b[v.ref] == a[v.ref] {
      assert SameAt(a, b, v.ref);
    }
  }

  /** A pass that ends without failure leaves the origins as they were, if no copy lies on one, and its services
      settled. */
  lemma SuccessfulPassKeepsOrigins(env: Env, f: Faults, w: World, ing: Ingress, o: Orders)
    requires Fair(o) && GatewayPass(env, f, w, ing, o).outcome == Done
    requires PlanPass(env, w.objects, ing, o).Some? ==>
               ClearOfOrigins(PlanPass(env, w.objects, ing, o).value.Unowned(), ing)
    ensures SameOrigins(w.objects, GatewayPass(env, f, w, ing, o).world.objects, ing)
  {
    SuccessfulPassParts(env, f, w, ing, o);
    var plan := PlanPass(env, w.objects, ing, o).value;
    var mid := ReconcileAll(f, w, Live, None, plan.Unowned()).world;
    OriginsUntouched(f, w, plan.Unowned(), ing);
    ServicePassSettles(f, mid, ing, env.lib, plan.names, o.routeFirst);
    OriginsOfSameKind(mid.objects, GatewayPass(env, f, w, ing, o).world.objects, ing);
    SameOriginsTransitive(w.objects, mid.objects, GatewayPass(env, f, w, ing, o).world.objects, ing);
  }

  lemma ServicesSettleAfter(f: Faults, w: World, ing: Ingress, lib: Library, names: GatewayNames, routeFirst: bool,
                            wants: seq<Want>)
    requires MakeVirtualServices(lib, ing, names).Some?
    requires Pass(f, w, Live, ing, MakeVirtualServices(lib, ing, names).value, routeFirst).outcome == Done
    requires Satisfied(w.objects, None, wants) && forall v :: v in wants ==> v.ref.kind != VirtualServiceKind
    ensures var vses := MakeVirtualServices(lib, ing, names).value;
            var after := Pass(f, w, Live, ing, vses, routeFirst).world.objects;
            ServicesSettled(after, ing, vses) && Satisfied(after, None, wants)
  {
    ServicePassSettles(f, w, ing, lib, names, routeFirst);
    SatisfiedSameKinds(w.objects, Pass(f, w, Live, ing, MakeVirtualServices(lib, ing, names).value,
                                       routeFirst).world.objects, wants);
  }

  /** A pass that ends without failure settles everything, whatever was there before and was refused on the way. */
  lemma GatewayPassSettles(env: Env, f: Faults, w: World, ing: Ingress, o: Orders)
    requires Fair(o) && NoCollisions(env, w.objects, ing, o)
    requires GatewayPass(env, f, w, ing, o).outcome == Done
    ensures Settled(env, w.objects, GatewayPass(env, f, w, ing, o).world.objects, ing, o)
  {
    SuccessfulPassParts(env, f, w, ing, o);
    var plan := PlanPass(env, w.objects, ing, o).value;
    var mid := ReconcileAll(f, w, Live, None, plan.Unowned()).world;
    SuccessfulPassKeepsOrigins(env, f, w, ing, o);
    UnownedKinds(env, w.objects, ing, o);
    PutAllSatisfies(w.objects, plan.Unowned());
    ServicesSettleAfter(f, mid, ing, env.lib, plan.names, o.routeFirst, plan.Unowned());
  }

  lemma SameQualifiedNames(a: seq<Want>, b: seq<Want>)
    requires SameMembers(a, b)
    ensures QualifiedNames(a) == QualifiedNames(b)
  {
  }

  lemma PutAllKeepsOrigins(objects: Objects, wants: seq<Want>, ing: Ingress)
    requires ClearOfOrigins(wants, ing)
    ensures SameOrigins(objects, PutAll(objects, wants), ing)
  {
    forall t | t in ing.tls
      ensures SecretAt(objects, t.secretNamespace, t.secretName) ==
              SecretAt(PutAll(objects, wants), t.secretNamespace, t.secretName)
    {
      PutAllElsewhere(objects, wants, OriginRef(t));
    }
  }

  lemma ClearMembers(wants: seq<Want>, some: seq<Want>, ing: Ingress)
    requires ClearOfOrigins(wants, ing) && forall v :: v in some ==> v in wants
    ensures ClearOfOrigins(some, ing)
  {
    forall t | t in ing.tls ensures !Wanted(some, OriginRef(t)) {
      assert !Wanted(wants, OriginRef(t));
    }
  }

  lemma SameParts(a: PassPlan, b: PassPlan)
    requires SameMembers(a.external.copies, b.external.copies)
    requires SameMembers(a.external.wildcards, b.external.wildcards)
    requires SameMembers(a.local.copies, b.local.copies) && a.gateways == b.gateways
    requires a.local.gateways == b.local.gateways
    ensures SameMembers(a.Unowned(), b.Unowned())
  {
  }

  lemma ClearOfExternal(env: Env, objects: Objects, ing: Ingress, o: Orders)
    requires Fair(o) && PlanPass(env, objects, ing, o).Some?
    requires ClearOfOrigins(PlanPass(env, objects, ing, o).value.Unowned(), ing)
    ensures SameOrigins(objects, PutAll(objects, PlanExternal(env, objects, ing, o).value.copies), ing)
  {
    var plan := PlanPass(env, objects, ing, o).value;
    ClearMembers(plan.Unowned(), plan.external.copies, ing);
    PutAllKeepsOrigins(objects, plan.external.copies, ing);
  }

  /** The plan for any further pass, from a table with the same origins and in any order of maps, has the same
      members. */
  lemma SamePlan(env: Env, before: Objects, after: Objects, ing: Ingress, o: Orders, o': Orders)
    requires Fair(o) && Fair(o') && PlanPass(env, before, ing, o).Some? && SameOrigins(before, after, ing)
    requires ClearOfOrigins(PlanPass(env, before, ing, o).value.Unowned(), ing)
    ensures PlanPass(env, after, ing, o').Some?
    ensures var plan, plan' := PlanPass(env, before, ing, o).value, PlanPass(env, after, ing, o').value;
            SameMembers(plan.Unowned(), plan'.Unowned()) && plan.names == plan'.names
  {
    ExternalPlanSameMembers(env, before, after, ing, o, o');
    OriginsAfterExternal(env, before, after, ing, o, o');
    var p, p' := PlanExternal(env, before, ing, o).value, PlanExternal(env, after, ing, o').value;
    LocalPlanSameMembers(env, PutAll(before, p.copies), PutAll(after, p'.copies), ing, o, o');
    SameQualifiedNames(p.wildcards, p'.wildcards);
    SameParts(PlanPass(env, before, ing, o).value, PlanPass(env, after, ing, o').value);
  }

  /** Nor do they differ once the external copies are in place. */
  lemma OriginsAfterExternal(env: Env, before: Objects, after: Objects, ing: Ingress, o: Orders, o': Orders)
    requires Fair(o) && Fair(o') && PlanPass(env, before, ing, o).Some? && SameOrigins(before, after, ing)
    requires ClearOfOrigins(PlanPass(env, before, ing, o).value.Unowned(), ing)
    requires PlanExternal(env, after, ing, o').Some?
    requires SameMembers(PlanExternal(env, before, ing, o).value.copies, PlanExternal(env, after, ing, o').value.copies)
    ensures SameOrigins(PutAll(before, PlanExternal(env, before, ing, o).value.copies),
                        PutAll(after, PlanExternal(env, after, ing, o').value.copies), ing)
  {
    var copies := PlanExternal(env, before, ing, o).value.copies;
    var copies' := PlanExternal(env, after, ing, o').value.copies;
    ClearOfExternal(env, before, ing, o);
    ClearMembers(PlanPass(env, before, ing, o).value.Unowned(), copies', ing);
    PutAllKeepsOrigins(after, copies', ing);
    SameOriginsAcross(before, after, PutAll(before, copies), PutAll(after, copies'), ing);
  }

  lemma SameOriginsAcross(a: Objects, b: Objects, a': Objects, b': Objects, ing: Ingress)
    requires SameOrigins(a, b, ing) && SameOrigins(a, a', ing) && SameOrigins(b, b', ing)
    ensures SameOrigins(a', b', ing)
  {
  }

  lemma SatisfiedSameMembers(objects: Objects, wants: seq<Want>, wants': seq<Want>)
    requires Satisfied(objects, None, wants) && forall w :: w in wants' ==> w in wants
    ensures Satisfied(objects, None, wants')
  {
  }

  /** What a settled table holds, by stage; the cluster-local secrets are those of the table at the start. */
  lemma SettledParts(env: Env, before: Objects, after: Objects, ing: Ingress, o: Orders)
    requires Fair(o) && Settled(env, before, after, ing, o)
    ensures var plan := PlanPass(env, before, ing, o).value;
            && PlanLocal(env, before, ing, o) == Some(plan.local)
            && Satisfied(after, None, plan.external.copies) && Satisfied(after, None, plan.local.copies)
            && Satisfied(after, None, plan.external.wildcards + plan.gateways + plan.local.gateways)
  {
    var plan := PlanPass(env, before, ing, o).value;
    ClearMembers(plan.Unowned(), plan.external.copies, ing);
    PutAllKeepsOrigins(before, plan.external.copies, ing);
    SamePlanLocal(env, before, PutAll(before, plan.external.copies), ing, o);
    SatisfiedSameMembers(after, plan.Unowned(), plan.external.copies);
    SatisfiedSameMembers(after, plan.Unowned(), plan.local.copies);
    SatisfiedSameMembers(after, plan.Unowned(), plan.external.wildcards + plan.gateways + plan.local.gateways);
  }

  /** In a settled table any further pass, in any order of maps, makes no call. */
  lemma SettledIsFixpoint(env: Env, f: Faults, before: Objects, w: World, ing: Ingress, o: Orders, o': Orders)
    requires Fair(o) && Fair(o') && Settled(env, before, w.objects, ing, o)
    ensures GatewayPass(env, f, w, ing, o') == Step(w, Done)
  {
    SamePlan(env, before, w.objects, ing, o, o');
    var plan := PlanPass(env, w.objects, ing, o').value;
    PassFollowsPlan(env, f, w, ing, o', Live);
    SatisfiedIsNoop(f, w, Live, None, plan.Unowned());
    SettledServicesAreQuiet(f, w, ing, MakeVirtualServices(env.lib, ing, plan.names).value, o'.routeFirst);
  }

  /** A successful pass followed by another one on unchanged inputs: the second makes no call, so it writes nothing. */
  lemma SuccessfulPassIsFixpoint(env: Env, f: Faults, w: World, ing: Ingress, o: Orders, o': Orders)
    requires Fair(o) && Fair(o') && NoCollisions(env, w.objects, ing, o)
    requires GatewayPass(env, f, w, ing, o).outcome == Done
    ensures var after := GatewayPass(env, f, w, ing, o).world;
            GatewayPass(env, f, after, ing, o') == Step(after, Done)
  {
    GatewayPassSettles(env, f, w, ing, o);
    SettledIsFixpoint(env, f, w.objects, GatewayPass(env, f, w, ing, o).world, ing, o, o');
  }

  // ---------------------------------------------------------------- quiet exactly without contradictions

  lemma {:induction false} RemovalCalls(f: Faults, w: World, view: Objects, refs: seq<Ref>, kept: set<string>,
                                        uid: string)
    ensures RemoveObsolete(f, w, view, refs, kept, uid).world.calls >= w.calls
    decreases |refs|
  {
    if refs != [] {
      if Removable(view, refs[0], kept, uid) {
        RemovalCalls(f, Delete(f, w, refs[0]).world, view, refs[1..], kept, uid);
      } else {
        RemovalCalls(f, w, view, refs[1..], kept, uid);
      }
    }
  }

  lemma {:induction false} CreateCalls(f: Faults, w: World, l: Lister, owner: Option<string>, wants: seq<Want>)
    ensures ReconcileAll(f, w, l, owner, wants).world.calls >= w.calls
    decreases |wants|
  {
    if wants != [] {
      CreateCalls(f, Reconcile(f, w, l, owner, wants[0]).world, l, owner, wants[1..]);
    }
  }

  lemma PassCalls(f: Faults, w: World, l: Lister, ing: Ingress, desired: seq<Want>, routeFirst: bool)
    ensures Pass(f, w, l, ing, desired, routeFirst).world.calls >= w.calls
  {
    var wants := IstioWants(desired);
    var s := ReconcileAll(f, w, l, Some(ing.uid), wants).world;
    var kept := NamesOf(wants);
    CreateCalls(f, w, l, Some(ing.uid), wants);
    RemovalCalls(f, s, View(l, s), SortedRefs(Listed(View(l, s), ing, routeFirst)), kept, ing.uid);
    var a := SelectorPass(f, s, l, ing, kept, routeFirst).world;
    RemovalCalls(f, a, View(l, a), SortedRefs(Listed(View(l, a), ing, !routeFirst)), kept, ing.uid);
  }

  /** After a successful pass another one makes no call exactly when no two generated objects under one key
      contradict each other. Otherwise every later pass finds one of the two not in place. */
  lemma SecondPassQuietExactly(env: Env, f: Faults, f': Faults, w: World, ing: Ingress, o: Orders, o': Orders)
    requires Fair(o) && Fair(o') && GatewayPass(env, f, w, ing, o).outcome == Done
    requires PlanPass(env, w.objects, ing, o).Some? ==>
               ClearOfOrigins(PlanPass(env, w.objects, ing, o).value.Unowned(), ing)
    ensures PlanPass(env, w.objects, ing, o).Some?
    ensures var after := GatewayPass(env, f, w, ing, o).world;
            GatewayPass(env, f', after, ing, o') == Step(after, Done) <==>
            Agreeing(PlanPass(env, w.objects, ing, o).value.Unowned())
  {
    var after := GatewayPass(env, f, w, ing, o).world;
    SuccessfulPassParts(env, f, w, ing, o);
    if Agreeing(PlanPass(env, w.objects, ing, o).value.Unowned()) {
      GatewayPassSettles(env, f, w, ing, o);
      SettledIsFixpoint(env, f', w.objects, after, ing, o, o');
    }
    if GatewayPass(env, f', after, ing, o') == Step(after, Done) {
      SuccessfulPassKeepsOrigins(env, f, w, ing, o);
      SamePlan(env, w.objects, after.objects, ing, o, o');
      QuietPassAgrees(env, f', after, ing, o');
    }
  }

  lemma QuietPassAgrees(env: Env, f: Faults, w: World, ing: Ingress, o: Orders)
    requires Fair(o) && GatewayPass(env, f, w, ing, o) == Step(w, Done)
    ensures PlanPass(env, w.objects, ing, o).Some? && Agreeing(PlanPass(env, w.objects, ing, o).value.Unowned())
  {
    SuccessfulPassParts(env, f, w, ing, o);
    var plan := PlanPass(env, w.objects, ing, o).value;
    var s := ReconcileAll(f, w, Live, None, plan.Unowned()).world;
    PassCalls(f, s, Live, ing, MakeVirtualServices(env.lib, ing, plan.names).value, o.routeFirst);
    NoCallMeansSatisfied(f, w, plan.Unowned());
    SatisfiedAgree(w.objects, plan.Unowned());
  }
}
