/** The defaults that reconciling sets on its copy of an Ingress, and finalizing does not. */
module Defaults {
  import opened Cleanup
  import opened Config
  import opened Finalize
  import opened IngressPass
  import opened Secrets
  import opened Store
  import opened Types

  // ---------------------------------------------------------------- defaults

  function DefaultedSplits(splits: seq<BackendSplit>): seq<BackendSplit> {
    if |splits| == 1 && splits[0].percent == 0 then [splits[0].(percent := 100)] else splits
  }

  function DefaultedPaths(paths: seq<IngressPath>): (r: seq<IngressPath>)
    ensures |r| == |paths|
    ensures forall i :: 0 <= i < |r| ==> r[i] == paths[i].(splits := DefaultedSplits(paths[i].splits))
  {
    seq(|paths|, i requires 0 <= i < |paths| => paths[i].(splits := DefaultedSplits(paths[i].splits)))
  }

  function DefaultedRule(rule: IngressRule): IngressRule
    requires rule.http.Some?
  {
    rule.(visibility := if rule.visibility == "" then EXTERNAL_IP else rule.visibility,
          http := Some(DefaultedPaths(rule.http.value)))
  }

  function DefaultedRules(rules: seq<IngressRule>): (r: seq<IngressRule>)
    requires forall rule :: rule in rules ==> rule.http.Some?
    ensures |r| == |rules| && forall i :: 0 <= i < |r| ==> r[i] == DefaultedRule(rules[i])
  {
    seq(|rules|, i requires 0 <= i < |rules| => DefaultedRule(rules[i]))
  }

  /** A rule without an HTTP block cannot be defaulted. */
  function SetDefaults(ing: Ingress): Option<Ingress> {
    if exists rule :: rule in ing.rules && rule.http.None? then None
    else Some(ing.(rules := DefaultedRules(ing.rules)))
  }

  /** Defaulting twice is defaulting once. */
  lemma DefaultsIdempotent(ing: Ingress)
    requires SetDefaults(ing).Some?
    ensures SetDefaults(SetDefaults(ing).value) == SetDefaults(ing)
  {
    var rules := SetDefaults(ing).value.rules;
    forall i | 0 <= i < |rules| ensures rules[i].http.Some? && DefaultedRule(rules[i]) == rules[i] {
      var paths := rules[i].http.value;
      assert DefaultedPaths(paths) == paths;
    }
    assert DefaultedRules(rules) == rules;
  }

  // ---------------------------------------------------------------- whether an Ingress has TLS

  /** Some TLS entry covers a rule of the visibility. */
  predicate CoversSome(tls: seq<IngressTLS>, rules: seq<IngressRule>, visibility: string) {
    exists rule, t :: rule in rules && t in tls && rule.visibility == visibility && CoversHosts(t, rule.hosts)
  }

  /** Where every rule has hosts, there are entries for a visibility exactly when one covers a rule of it. */
  lemma {:induction false} EntriesExactly(tls: seq<IngressTLS>, rules: seq<IngressRule>, visibility: string)
    requires forall rule :: rule in rules ==> rule.hosts != []
    ensures TLSForRules(tls, rules, visibility) != [] <==> CoversSome(tls, rules, visibility)
  {
    if rules != [] {
      var first, rest := rules[0], rules[1..];
      assert rules == [first] + rest && first in rules;
      EntriesExactly(tls, rest, visibility);
      if first.visibility == visibility && Covering(tls, first.hosts) != [] {
        assert Covering(tls, first.hosts)[0] in Covering(tls, first.hosts);
      }
      if rule, t :| rule in rules && t in tls && rule.visibility == visibility && CoversHosts(t, rule.hosts) {
        if rule == first {
          assert t in Covering(tls, first.hosts);
        } else {
          assert rule in rest;
        }
      }
    }
  }

  /** An Ingress whose rules have hosts is taken to have TLS exactly when an entry covers a rule that says one of the
      two visibilities. */
  lemma AnyTLSExactly(ing: Ingress)
    requires forall rule :: rule in ing.rules ==> rule.hosts != []
    ensures AnyTLS(ing) <==>
            CoversSome(ing.tls, ing.rules, EXTERNAL_IP) || CoversSome(ing.tls, ing.rules, CLUSTER_LOCAL)
  {
    EntriesExactly(ing.tls, ing.rules, EXTERNAL_IP);
    EntriesExactly(ing.tls, ing.rules, CLUSTER_LOCAL);
  }

  // ---------------------------------------------------------------- finalizing the Ingress as it is stored

  lemma {:induction false} ServersKeepSecrets(f: Faults, w: World, ing: Ingress, gws: seq<GatewayConfig>, r: Ref)
    requires r.kind.SecretKind?
    ensures SameAt(w.objects, FinalizeGateways(f, w, ing, gws).world.objects, r)
    decreases |gws|
  {
    if gws != [] {
      ServersKeepSecrets(f, ReconcileServers(f, w, ing, GatewayRef(gws[0])).world, ing, gws[1..], r);
    }
  }

  lemma FoundWhenStored(env: Env, f: Faults, w: World, original: Ingress, l: Listing, m: Making, copy: Want)
    requires FairListing(l) && SetDefaults(original).Some? && MadeIn(env, SetDefaults(original).value, m, copy)
    requires AnyTLS(original) && !CleanupCertificateSecrets(env, f, w, original, l).failed
    requires copy.ref in w.objects && w.objects[copy.ref].labels == copy.obj.labels
    ensures copy.ref !in CleanupCertificateSecrets(env, f, w, original, l).world.objects
  {
    var t, key := MadeCopyIsFound(env, SetDefaults(original).value, m, copy);
    assert Keys(env, original) == Keys(env, SetDefaults(original).value);
    GatewayCopiesGone(f, w, original.tls, Keys(env, original), l);
    assert !IsCopyFor(CleanupCertificateSecrets(env, f, w, original, l).world.objects, t,
                      Some(key.namespace), copy.ref);
  }

  /** A pass copies secrets for the Ingress with its defaults, and finalizing is given the Ingress as it is stored. Its
      cleanup, when it reports no error, takes the copies exactly when the stored Ingress is taken to have TLS. */
  lemma FinalizeCoversDefaultsExactly(env: Env, f: Faults, w: World, original: Ingress, l: Listing, m: Making,
                                      copy: Want)
    requires FairListing(l) && GatewaysEnabled(env.config) && SetDefaults(original).Some?
    requires MadeIn(env, SetDefaults(original).value, m, copy)
    requires copy.ref in w.objects && w.objects[copy.ref].labels == copy.obj.labels
    requires FinalizeKind(env, f, w, original, l).outcome == Done
    ensures copy.ref !in FinalizeKind(env, f, w, original, l).world.objects <==> AnyTLS(original)
  {
    var mid := FinalizeGateways(f, w, original, AllConfigured(env.config)).world;
    var t, key := MadeCopyIsFound(env, SetDefaults(original).value, m, copy);
    ServersKeepSecrets(f, w, original, AllConfigured(env.config), copy.ref);
    if AnyTLS(original) {
      FoundWhenStored(env, f, mid, original, l, m, copy);
    }
  }
}
