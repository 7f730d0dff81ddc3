/** The server list of a Gateway that many Ingresses share: ownership by port name, sorting, and surgery on the list. */
module Servers {
  import opened Strings
  import opened Types

  /** Stands in when a Gateway would otherwise have no server. */
  const PLACEHOLDER := Server(["place-holder.place-holder"], "place-holder", 9999, "HTTP", None)

  // ---------------------------------------------------------------- sorting by port name

  /** Place a server behind all those whose port name is not greater. */
  function Insert(l: seq<Server>, x: Server): seq<Server> {
    if l == [] || LexLe(l[|l| - 1].PortName(), x.PortName()) then l + [x]
    else Insert(l[..|l| - 1], x) + [l[|l| - 1]]
  }

  function SortByName(l: seq<Server>): seq<Server> {
    if l == [] then [] else Insert(SortByName(l[..|l| - 1]), l[|l| - 1])
  }

  /** Sorting moves each server down past those with a greater port name, in place. */
  method SortServers(a: array<Server>)
    modifies a
    ensures a[..] == SortByName(old(a[..]))
  {
    var i := 0;
    while i < a.Length
      invariant 0 <= i <= a.Length
      invariant a[..i] == SortByName(old(a[..])[..i])
      invariant a[i..] == old(a[..])[i..]
    {
      ghost var l, x := a[..i], a[i];
      assert old(a[..])[..i + 1] == old(a[..])[..i] + [x];
      SinkInto(a, i);
      assert a[..i + 1] == Insert(l, x);
      i := i + 1;
    }
    assert old(a[..])[..i] == old(a[..]) && a[..i] == a[..];
  }

  /** The sorted copy of a server list. */
  method Sorted(servers: seq<Server>) returns (sorted: seq<Server>)
    ensures sorted == SortByName(servers)
  {
    var a := new Server[|servers|](k requires 0 <= k < |servers| => servers[k]);
    assert a[..] == servers;
    SortServers(a);
    return a[..];
  }

  method SinkInto(a: array<Server>, i: nat)
    requires i < a.Length
    modifies a
    ensures a[..i + 1] == Insert(old(a[..i]), old(a[i]))
    ensures a[i + 1..] == old(a[i + 1..])
  {
    ghost var l := a[..i];
    var x := a[i];
    var j := FindSlot(a, i);
    var m := i;
    while m > j
      invariant j <= m <= i
      invariant forall k :: 0 <= k < m ==> a[k] == l[k]
      invariant forall k :: m < k <= i ==> a[k] == l[k - 1]
      invariant a[i + 1..] == old(a[i + 1..])
    {
      a[m] := a[m - 1];
      m := m - 1;
    }
    a[j] := x;
    Spliced(a[..i + 1], l, x, j);
  }

  lemma Spliced(s: seq<Server>, l: seq<Server>, x: Server, j: nat)
    requires |s| == |l| + 1 && j <= |l| && s[j] == x
    requires forall k :: 0 <= k < j ==> s[k] == l[k]
    requires forall k :: j < k <= |l| ==> s[k] == l[k - 1]
    ensures s == l[..j] + [x] + l[j..]
  {
  }

  method FindSlot(a: array<Server>, i: nat) returns (j: nat)
    requires i < a.Length
    ensures j <= i && Insert(a[..i], a[i]) == a[..j] + [a[i]] + a[j..i]
  {
    ghost var l := a[..i];
    j := i;
    while j > 0 && !LexLe(a[j - 1].PortName(), a[i].PortName())
      invariant 0 <= j <= i
      invariant forall k :: j <= k < i ==> !LexLe(l[k].PortName(), a[i].PortName())
    {
      j := j - 1;
    }
    InsertBetween(l, a[i], j);
    assert l[..j] == a[..j] && l[j..] == a[j..i];
  }

  lemma Reassociate(a: seq<Server>, b: seq<Server>, c: seq<Server>, d: seq<Server>)
    ensures (a + b + c) + d == a + b + (c + d)
  {
  }

  /** Insertion stops at the last element that is not greater. */
  lemma {:induction false} InsertBetween(l: seq<Server>, x: Server, j: nat)
    requires j <= |l|
    requires j > 0 ==> LexLe(l[j - 1].PortName(), x.PortName())
    requires forall k :: j <= k < |l| ==> !LexLe(l[k].PortName(), x.PortName())
    ensures Insert(l, x) == l[..j] + [x] + l[j..]
  {
    if j < |l| {
      var init, last := l[..|l| - 1], l[|l| - 1];
      InsertBetween(init, x, j);
      assert Insert(l, x) == Insert(init, x) + [last];
      assert init[..j] == l[..j] && init[j..] + [last] == l[j..];
      Reassociate(init[..j], [x], init[j..], [last]);
    } else {
      assert l[..j] == l && l[j..] == [] && l + [x] + [] == l + [x];
    }
  }

  lemma {:induction false} InsertConserves(l: seq<Server>, x: Server)
    ensures multiset(Insert(l, x)) == multiset(l) + multiset{x}
  {
    if l != [] {
      assert l == l[..|l| - 1] + [l[|l| - 1]];
      InsertConserves(l[..|l| - 1], x);
    }
  }

  lemma {:induction false} SortConserves(l: seq<Server>)
    ensures multiset(SortByName(l)) == multiset(l)
    ensures |SortByName(l)| == |l|
    ensures forall x :: x in SortByName(l) <==> x in l
  {
    if l != [] {
      assert l == l[..|l| - 1] + [l[|l| - 1]];
      SortConserves(l[..|l| - 1]);
      InsertConserves(SortByName(l[..|l| - 1]), l[|l| - 1]);
    }
    assert |multiset(SortByName(l))| == |multiset(l)|;
    assert forall x :: x in SortByName(l) <==> x in multiset(SortByName(l));
    assert forall x :: x in l <==> x in multiset(l);
  }

  ghost predicate ByName(l: seq<Server>) {
    forall i, j :: 0 <= i < j < |l| ==> LexLe(l[i].PortName(), l[j].PortName())
  }

  lemma InsertMembers(l: seq<Server>, x: Server)
    ensures forall y :: y in Insert(l, x) <==> y == x || y in l
  {
    InsertConserves(l, x);
    forall y ensures y in Insert(l, x) <==> y == x || y in l {
      assert y in Insert(l, x) <==> y in multiset(Insert(l, x));
      assert y in l <==> y in multiset(l);
    }
  }

  lemma {:induction false} InsertKeepsOrder(l: seq<Server>, x: Server)
    requires ByName(l)
    ensures ByName(Insert(l, x))
  {
    if l != [] {
      var init, last := l[..|l| - 1], l[|l| - 1];
      if LexLe(last.PortName(), x.PortName()) {
        forall i | 0 <= i < |l| ensures LexLe(l[i].PortName(), x.PortName()) {
          if i < |l| - 1 { LexTransitive(l[i].PortName(), last.PortName(), x.PortName()); }
        }
      } else {
        LexTotal(last.PortName(), x.PortName());
        InsertKeepsOrder(init, x);
        assert forall y :: y in init ==> LexLe(y.PortName(), last.PortName()) by {
          assert forall i :: 0 <= i < |init| ==> init[i] == l[i];
        }
        InsertMembers(init, x);
      }
    }
  }

  lemma {:induction false} SortOrders(l: seq<Server>)
    ensures ByName(SortByName(l))
  {
    if l != [] {
      SortOrders(l[..|l| - 1]);
      InsertKeepsOrder(SortByName(l[..|l| - 1]), l[|l| - 1]);
    }
  }

  // ---------------------------------------------------------------- ownership

  /** A name that is not a DNS label is replaced by its checksum. */
  function LabelOrChecksum(name: string): string {
    if IsDns1123Label(name) then name else AdlerDecimal(name)
  }

  function PortNamePrefix(namespace: string, name: string): string {
    namespace + "/" + LabelOrChecksum(name)
  }

  predicate Belongs(s: Server, namespace: string, name: string) {
    var parts := Split(s.PortName(), ':');
    |parts| == 2 && parts[0] == PortNamePrefix(namespace, name)
  }

  function Owned(servers: seq<Server>, namespace: string, name: string): seq<Server> {
    if servers == [] then [] else
      var init, s := Owned(servers[..|servers| - 1], namespace, name), servers[|servers| - 1];
      if Belongs(s, namespace, name) then init + [s] else init
  }

  /** The servers of one Ingress, by port name. */
  function GetServers(servers: seq<Server>, namespace: string, name: string): seq<Server> {
    SortByName(Owned(servers, namespace, name))
  }

  method FindServers(servers: seq<Server>, namespace: string, name: string) returns (found: seq<Server>)
    ensures found == GetServers(servers, namespace, name)
    ensures forall s :: s in found <==> s in servers && Belongs(s, namespace, name)
  {
    var mine: seq<Server> := [];
    var i := 0;
    while i < |servers|
      invariant 0 <= i <= |servers|
      invariant mine == Owned(servers[..i], namespace, name)
    {
      assert servers[..i + 1][..i] == servers[..i];
      if Belongs(servers[i], namespace, name) {
        mine := mine + [servers[i]];
      }
      i := i + 1;
    }
    assert servers[..i] == servers;
    OwnedExactly(servers, namespace, name);
    SortConserves(mine);
    found := Sorted(mine);
  }

  lemma {:induction false} OwnedExactly(servers: seq<Server>, namespace: string, name: string)
    ensures forall s :: s in Owned(servers, namespace, name) <==> s in servers && Belongs(s, namespace, name)
  {
    if servers != [] {
      assert servers == servers[..|servers| - 1] + [servers[|servers| - 1]];
      OwnedExactly(servers[..|servers| - 1], namespace, name);
    }
  }

  lemma GetServersExactly(servers: seq<Server>, namespace: string, name: string)
    ensures forall s :: s in GetServers(servers, namespace, name) <==> s in servers && Belongs(s, namespace, name)
  {
    OwnedExactly(servers, namespace, name);
    SortConserves(Owned(servers, namespace, name));
  }

  /** A name of one separator splits in two. */
  lemma SplitPair(p: string, q: string, c: char)
    requires c !in p && c !in q
    ensures Split(p + [c] + q, c) == [p, q]
  {
    FirstSeparator(p, q, c);
    assert Split(q, c) == [q];
  }

  lemma PrefixHasNoColon(namespace: string, name: string)
    requires ':' !in namespace
    ensures ':' !in PortNamePrefix(namespace, name)
  {
    if IsDns1123Label(name) { LabelExcludes(name, ':'); }
  }

  /** A server can belong to two Ingresses only if their names agree up to the checksum. */
  lemma SharedOwnershipExactly(a: Ingress, b: Ingress)
    requires '/' !in a.namespace && '/' !in b.namespace && ':' !in a.namespace
    ensures (exists s :: Belongs(s, a.namespace, a.name) && Belongs(s, b.namespace, b.name))
       <==> a.namespace == b.namespace && LabelOrChecksum(a.name) == LabelOrChecksum(b.name)
  {
    if s :| Belongs(s, a.namespace, a.name) && Belongs(s, b.namespace, b.name) {
      JoinInjective(a.namespace, LabelOrChecksum(a.name), b.namespace, LabelOrChecksum(b.name), '/');
    }
    if a.namespace == b.namespace && LabelOrChecksum(a.name) == LabelOrChecksum(b.name) {
      var p := PortNamePrefix(a.namespace, a.name);
      var s := Server([], p + ":" + "0", 0, "", None);
      PrefixHasNoColon(a.namespace, a.name);
      SplitPair(p, "0", ':');
      assert Belongs(s, a.namespace, a.name) && Belongs(s, b.namespace, b.name);
    }
  }

  /** For DNS-label names no server belongs to two Ingresses. */
  lemma OwnershipDisjoint(s: Server, a: Ingress, b: Ingress)
    requires '/' !in a.namespace && '/' !in b.namespace
    requires IsDns1123Label(a.name) && IsDns1123Label(b.name)
    requires Belongs(s, a.namespace, a.name) && Belongs(s, b.namespace, b.name)
    ensures a.namespace == b.namespace && a.name == b.name
  {
    JoinInjective(a.namespace, a.name, b.namespace, b.name, '/');
  }

  /** One more byte while neither sum wraps around. */
  lemma AdlerStep(s: string, c: char, a: nat, b: nat)
    requires AdlerSums(s) == (a, b) && b + a + c as int < ADLER_BASE
    ensures AdlerSums(s + [c]) == (a + c as int, b + a + c as int)
  {
    assert (s + [c])[..|s + [c]| - 1] == s;
  }

  lemma AdlerOfFive(a: char, b: char, c: char, d: char, e: char, p: nat, q: nat, r: nat, t: nat, u: nat)
    requires p == a as int && q == p + b as int && r == q + c as int && t == r + d as int && u == t + e as int
    requires u <= 1000
    ensures AdlerSums([a] + [b] + [c] + [d] + [e]) == (1 + u, 5 + p + q + r + t + u)
  {
    assert [] + [a] == [a];
    AdlerStep([], a, 1, 0);
    AdlerStep([a], b, 1 + p, 1 + p);
    AdlerStep([a] + [b], c, 1 + q, 2 + p + q);
    AdlerStep([a] + [b] + [c], d, 1 + r, 3 + p + q + r);
    AdlerStep([a] + [b] + [c] + [d], e, 1 + t, 4 + p + q + r + t);
  }

  /** Names that are not labels can collide: these two share every server they own. */
  lemma DottedNamesCollide()
    ensures "x.aca" != "x.bab" && !IsDns1123Label("x.aca") && !IsDns1123Label("x.bab")
    ensures forall ns :: PortNamePrefix(ns, "x.aca") == PortNamePrefix(ns, "x.bab")
  {
    assert "x.aca"[2] != "x.bab"[2];
    assert "x.aca"[1] == '.' && "x.bab"[1] == '.';
    AdlerOfFive('x', '.', 'a', 'c', 'a', 120, 166, 263, 362, 459);
    AdlerOfFive('x', '.', 'b', 'a', 'b', 120, 166, 264, 361, 459);
    assert "x.aca" == ['x'] + ['.'] + ['a'] + ['c'] + ['a'];
    assert "x.bab" == ['x'] + ['.'] + ['b'] + ['a'] + ['b'];
    assert AdlerSums("x.aca") == AdlerSums("x.bab");
  }

  // ---------------------------------------------------------------- surgery

  function Kept(servers: seq<Server>, dropped: set<string>): seq<Server> {
    if servers == [] then [] else
      var init, s := Kept(servers[..|servers| - 1], dropped), servers[|servers| - 1];
      if s.PortName() in dropped || s == PLACEHOLDER then init else init + [s]
  }

  function PortNames(servers: seq<Server>): set<string> {
    set s | s in servers :: s.PortName()
  }

  function OrPlaceholder(servers: seq<Server>): seq<Server> {
    if |servers| == 0 then [PLACEHOLDER] else servers
  }

  /** Replace the existing servers by the wanted ones. */
  function UpdateServers(servers: seq<Server>, want: seq<Server>, existing: seq<Server>): seq<Server> {
    SortByName(OrPlaceholder(Kept(servers, PortNames(existing)) + want))
  }

  method UpdateGateway(gateway: GatewaySpec, want: seq<Server>, existing: seq<Server>) returns (updated: GatewaySpec)
    ensures updated == gateway.(servers := UpdateServers(gateway.servers, want, existing))
  {
    var existingServers: set<string> := {};
    var i := 0;
    while i < |existing|
      invariant 0 <= i <= |existing|
      invariant existingServers == PortNames(existing[..i])
    {
      existingServers := existingServers + {existing[i].PortName()};
      assert existing[..i + 1] == existing[..i] + [existing[i]];
      i := i + 1;
    }
    assert existing[..i] == existing;
    var servers: seq<Server> := [];
    i := 0;
    while i < |gateway.servers|
      invariant 0 <= i <= |gateway.servers|
      invariant servers == Kept(gateway.servers[..i], existingServers)
    {
      var server := gateway.servers[i];
      assert gateway.servers[..i + 1][..i] == gateway.servers[..i];
      if !(server.PortName() in existingServers || server == PLACEHOLDER) {
        servers := servers + [server];
      }
      i := i + 1;
    }
    assert gateway.servers[..i] == gateway.servers;
    servers := Sorted(OrPlaceholder(servers + want));
    updated := gateway.(servers := servers);
  }

  predicate Foreign(s: Server, namespace: string, name: string) {
    !Belongs(s, namespace, name) && s != PLACEHOLDER
  }

  /** The servers of other Ingresses, in list order. */
  function Others(servers: seq<Server>, namespace: string, name: string): seq<Server> {
    if servers == [] then [] else
      var init, s := Others(servers[..|servers| - 1], namespace, name), servers[|servers| - 1];
      if Foreign(s, namespace, name) then init + [s] else init
  }

  /** Dropping by port name drops exactly what was found by ownership. */
  lemma {:induction false} DroppedByNameExactly(servers: seq<Server>, dropped: set<string>, namespace: string,
                                                name: string)
    requires forall s :: s in servers ==> (s.PortName() in dropped <==> Belongs(s, namespace, name))
    ensures Kept(servers, dropped) == Others(servers, namespace, name)
  {
    if servers != [] {
      assert servers == servers[..|servers| - 1] + [servers[|servers| - 1]];
      DroppedByNameExactly(servers[..|servers| - 1], dropped, namespace, name);
    }
  }

  lemma FoundNames(servers: seq<Server>, namespace: string, name: string, s: Server)
    requires s in servers
    ensures s.PortName() in PortNames(GetServers(servers, namespace, name)) <==> Belongs(s, namespace, name)
  {
    GetServersExactly(servers, namespace, name);
    var found := GetServers(servers, namespace, name);
    if s.PortName() in PortNames(found) {
      var t :| t in found && t.PortName() == s.PortName();
      assert Belongs(t, namespace, name);
    }
  }

  /** What surgery leaves: the servers of others and the wanted ones, or just the placeholder; sorted and never
      empty. */
  lemma SurgeryConserves(servers: seq<Server>, want: seq<Server>, namespace: string, name: string)
    ensures var r := UpdateServers(servers, want, GetServers(servers, namespace, name));
            var rest := multiset(Others(servers, namespace, name)) + multiset(want);
            && multiset(r) == (if |rest| == 0 then multiset{PLACEHOLDER} else rest)
            && r != [] && ByName(r)
  {
    var dropped := PortNames(GetServers(servers, namespace, name));
    forall s | s in servers ensures s.PortName() in dropped <==> Belongs(s, namespace, name) {
      FoundNames(servers, namespace, name, s);
    }
    DroppedByNameExactly(servers, dropped, namespace, name);
    var l := Others(servers, namespace, name) + want;
    assert multiset(l) == multiset(Others(servers, namespace, name)) + multiset(want);
    assert |multiset(l)| == |l|;
    SortConserves(OrPlaceholder(l));
    SortOrders(OrPlaceholder(l));
  }

  /** As a count: each server that is neither the Ingress's own nor a placeholder stays as often as it was. */
  lemma {:induction false} OthersCount(servers: seq<Server>, namespace: string, name: string, s: Server)
    ensures multiset(Others(servers, namespace, name))[s] ==
            if Foreign(s, namespace, name) then multiset(servers)[s] else 0
  {
    if servers != [] {
      var init, last := servers[..|servers| - 1], servers[|servers| - 1];
      assert servers == init + [last];
      OthersCount(init, namespace, name, s);
    }
  }
}
