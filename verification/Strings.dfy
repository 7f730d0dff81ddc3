/** Byte strings as Go sees them: order, prefixes, splitting, decimal rendering, Adler-32 and
    DNS labels. A Go string is a sequence of bytes; one char of a Dafny string stands for one byte. */
module Strings {

  // ---------------------------------------------------------------- prefixes and suffixes

  predicate HasPrefix(s: string, prefix: string) {
    prefix <= s
  }

  predicate HasSuffix(s: string, suffix: string) {
    |suffix| <= |s| && s[|s| - |suffix|..] == suffix
  }

  function TrimSuffix(s: string, suffix: string): string {
    if HasSuffix(s, suffix) then s[..|s| - |suffix|] else s
  }

  function Members(l: seq<string>): (s: set<string>)
    ensures forall x :: x in s <==> x in l
  {
    set x | x in l
  }

  /** Strings that differ somewhere are not prefixes of each other. */
  lemma DifferAt(s: string, prefix: string, i: nat)
    requires i < |s| && i < |prefix| && s[i] != prefix[i]
    ensures !HasPrefix(s, prefix)
  {
  }

  // ---------------------------------------------------------------- byte order

  predicate LexLe(a: string, b: string) {
    a == [] || (b != [] && (a[0] < b[0] || (a[0] == b[0] && LexLe(a[1..], b[1..]))))
  }

  lemma LexTotal(a: string, b: string)
    ensures LexLe(a, b) || LexLe(b, a)
  {
  }

  lemma {:induction false} LexAntisymmetric(a: string, b: string)
    requires LexLe(a, b) && LexLe(b, a)
    ensures a == b
  {
    if a != [] {
      LexAntisymmetric(a[1..], b[1..]);
      assert a == [a[0]] + a[1..] && b == [b[0]] + b[1..];
    }
  }

  lemma {:induction false} LexTransitive(a: string, b: string, c: string)
    requires LexLe(a, b) && LexLe(b, c)
    ensures LexLe(a, c)
  {
    if a != [] && a[0] == b[0] == c[0] {
      LexTransitive(a[1..], b[1..], c[1..]);
    }
  }

  lemma {:induction false} PrefixIsLexLe(p: string, s: string)
    requires HasPrefix(s, p)
    ensures LexLe(p, s)
  {
    if p != [] {
      PrefixIsLexLe(p[1..], s[1..]);
    }
  }

  lemma PrefixTransitive(p: string, q: string, s: string)
    ensures HasPrefix(q, p) && HasPrefix(s, q) ==> HasPrefix(s, p)
  {
    if HasPrefix(q, p) && HasPrefix(s, q) {
      assert s[..|p|] == q[..|p|];
    }
  }

  /** Two prefixes of one string are comparable. */
  lemma PrefixesComparable(p: string, q: string, s: string)
    requires HasPrefix(s, p) && HasPrefix(s, q)
    ensures HasPrefix(p, q) || HasPrefix(q, p)
  {
    if |p| <= |q| {
      assert q[..|p|] == s[..|p|] == p;
    } else {
      assert p[..|q|] == s[..|q|] == q;
    }
  }

  // ---------------------------------------------------------------- sorted lists of sets

  predicate IsLeast(m: string, s: set<string>) {
    m in s && forall x :: x in s ==> LexLe(m, x)
  }

  lemma {:induction false} LeastExists(s: set<string>)
    requires s != {}
    ensures exists m :: IsLeast(m, s)
    decreases |s|
  {
    var x :| x in s;
    var rest := s - {x};
    if rest == {} {
      LexTotal(x, x);
      assert s == {x};
      assert IsLeast(x, s);
    } else {
      LeastExists(rest);
      var m :| IsLeast(m, rest);
      LexTotal(x, m);
      LexTotal(x, x);
      var n := if LexLe(x, m) then x else m;
      forall y | y in s ensures LexLe(n, y) {
        if y != x && n == x { LexTransitive(x, m, y); }
      }
      assert IsLeast(n, s);
    }
  }

  lemma LeastUnique(a: string, b: string, s: set<string>)
    requires IsLeast(a, s) && IsLeast(b, s)
    ensures a == b
  {
    LexAntisymmetric(a, b);
  }

  function Least(s: set<string>): (m: string)
    requires s != {}
    ensures IsLeast(m, s)
  {
    LeastExists(s);
    assert forall a, b | IsLeast(a, s) && IsLeast(b, s) :: a == b by {
      forall a, b | IsLeast(a, s) && IsLeast(b, s) ensures a == b { LeastUnique(a, b, s); }
    }
    var m :| m in s && IsLeast(m, s);
    m
  }

  ghost predicate Ascending(l: seq<string>) {
    forall i, j :: 0 <= i < j < |l| ==> LexLe(l[i], l[j])
  }

  ghost predicate Distinct<T>(l: seq<T>) {
    forall i, j :: 0 <= i < j < |l| ==> l[i] != l[j]
  }

  lemma SomeMember<T>(l: seq<T>)
    ensures l == [] || exists x :: x in l
  {
    if l != [] { assert l[0] in l; }
  }

  lemma DistinctCons<T>(x: T, rest: seq<T>)
    requires Distinct(rest) && x !in rest
    ensures Distinct([x] + rest)
  {
  }

  /** `l` lists the members of `s`, each once, in some order: any iteration over a Go map or set. */
  ghost predicate Enumerates<T(!new)>(l: seq<T>, s: set<T>) {
    Distinct(l) && forall x :: x in l <==> x in s
  }

  /** The sorted listing of a string set (sets.List). */
  function SortedList(s: set<string>): (l: seq<string>)
    ensures forall x :: x in l <==> x in s
    decreases |s|
  {
    if s == {} then [] else
      var m := Least(s);
      [m] + SortedList(s - {m})
  }

  lemma {:induction false} SortedListIsSorted(s: set<string>)
    ensures Enumerates(SortedList(s), s) && Ascending(SortedList(s))
    decreases |s|
  {
    if s != {} {
      var m := Least(s);
      var rest := SortedList(s - {m});
      SortedListIsSorted(s - {m});
      assert SortedList(s) == [m] + rest;
      assert forall i :: 0 <= i < |rest| ==> rest[i] in s - {m};
    }
  }

  /** A sorted listing is unique, so any correct sort of a string set gives SortedList. */
  lemma {:induction false} SortedListUnique(l: seq<string>, s: set<string>)
    requires Enumerates(l, s) && Ascending(l)
    ensures l == SortedList(s)
    decreases |s|
  {
    assert l != [] ==> l[0] in s;
    if s != {} {
      var m := Least(s);
      assert m in l;
      var i :| 0 <= i < |l| && l[i] == m;
      if i != 0 {
        LexAntisymmetric(l[0], m);
        assert false;
      }
      forall x ensures x in l[1..] <==> x in s - {m} {
        if x in s - {m} {
          var j :| 0 <= j < |l| && l[j] == x;
          assert l[1..][j - 1] == x;
        }
      }
      SortedListUnique(l[1..], s - {m});
      assert l == [m] + l[1..];
    }
  }

  lemma {:induction false} LexCommonPrefix(p: string, a: string, b: string)
    requires LexLe(a, b)
    ensures LexLe(p + a, p + b)
  {
    if p == [] {
      assert p + a == a && p + b == b;
    } else {
      LexCommonPrefix(p[1..], a, b);
      assert (p + a)[1..] == p[1..] + a && (p + b)[1..] == p[1..] + b;
    }
  }

  lemma SortedPair(a: string, b: string)
    requires LexLe(a, b) && a != b
    ensures SortedList({a, b}) == [a, b]
  {
    SortedListUnique([a, b], {a, b});
  }

  // ---------------------------------------------------------------- splitting

  function IndexOf(s: string, c: char): (i: nat)
    requires c in s
    ensures i < |s| && s[i] == c && forall k :: 0 <= k < i ==> s[k] != c
  {
    if s[0] == c then 0 else 1 + IndexOf(s[1..], c)
  }

  /** strings.SplitN(s, c, n) for n >= 1. */
  function SplitN(s: string, c: char, n: nat): seq<string>
    requires n > 0
  {
    if n == 1 || c !in s then [s]
    else [s[..IndexOf(s, c)]] + SplitN(s[IndexOf(s, c) + 1..], c, n - 1)
  }

  /** strings.Split(s, c). */
  function Split(s: string, c: char): seq<string>
  {
    if c !in s then [s]
    else [s[..IndexOf(s, c)]] + Split(s[IndexOf(s, c) + 1..], c)
  }

  /** The first separator is where a separator-free left part ends. */
  lemma FirstSeparator(p: string, q: string, c: char)
    requires c !in p
    ensures c in p + [c] + q && IndexOf(p + [c] + q, c) == |p|
    ensures (p + [c] + q)[..|p|] == p && (p + [c] + q)[|p| + 1..] == q
  {
    var s := p + [c] + q;
    assert s[|p|] == c;
    var i := IndexOf(s, c);
    assert forall k :: 0 <= k < |p| ==> s[k] == p[k];
  }

  lemma SplitFirst(p: string, q: string, c: char)
    requires c !in p
    ensures Split(p + [c] + q, c) == [p] + Split(q, c)
  {
    FirstSeparator(p, q, c);
  }

  /** Joining a separator-free left part with anything is injective. */
  lemma JoinInjective(p: string, q: string, p': string, q': string, c: char)
    requires c !in p && c !in p'
    requires p + [c] + q == p' + [c] + q'
    ensures p == p' && q == q'
  {
    FirstSeparator(p, q, c);
    FirstSeparator(p', q', c);
  }

  // ---------------------------------------------------------------- decimal rendering

  function Digit(d: nat): (c: char)
    requires d < 10
    ensures '0' <= c <= '9' && c as int == '0' as int + d
  {
    ('0' as int + d) as char
  }

  /** strconv.FormatUint(n, 10), and what "%d" prints for a natural number. */
  function Decimal(n: nat): (s: string)
    ensures s != [] && forall i :: 0 <= i < |s| ==> '0' <= s[i] <= '9'
  {
    if n < 10 then [Digit(n)] else Decimal(n / 10) + [Digit(n % 10)]
  }

  lemma {:induction false} DecimalInjective(m: nat, n: nat)
    requires Decimal(m) == Decimal(n)
    ensures m == n
  {
    if m >= 10 && n >= 10 {
      var a, b := Decimal(m / 10), Decimal(n / 10);
      assert Decimal(m)[..|Decimal(m)| - 1] == a && Decimal(n)[..|Decimal(n)| - 1] == b;
      assert Decimal(m)[|Decimal(m)| - 1] == Digit(m % 10) && Decimal(n)[|Decimal(n)| - 1] == Digit(n % 10);
      DecimalInjective(m / 10, n / 10);
    } else {
      assert Decimal(m)[|Decimal(m)| - 1] == Digit(m % 10) && Decimal(n)[|Decimal(n)| - 1] == Digit(n % 10);
      assert |Decimal(m)| == 1 && |Decimal(n)| == 1;
    }
  }

  function PowerOfTen(k: nat): nat {
    if k == 0 then 1 else 10 * PowerOfTen(k - 1)
  }

  lemma {:induction false} DecimalLength(n: nat, k: nat)
    requires n < PowerOfTen(k)
    ensures n < 10 || |Decimal(n)| <= k
  {
    if n >= 10 && k > 0 {
      DecimalLength(n / 10, k - 1);
    }
  }

  // ---------------------------------------------------------------- Adler-32 (section 2.2 of RFC 1950)

  const ADLER_BASE := 65521

  /** The two running sums s1 and s2 after the bytes of `s`. */
  function AdlerSums(s: string): (sums: (nat, nat))
    ensures sums.0 < ADLER_BASE && sums.1 < ADLER_BASE
  {
    if s == [] then (1, 0) else
      var (a, b) := AdlerSums(s[..|s| - 1]);
      var a' := (a + s[|s| - 1] as int) % ADLER_BASE;
      (a', (b + a') % ADLER_BASE)
  }

  function Adler32(s: string): (c: nat)
    ensures c < 0x1_0000_0000
  {
    AdlerSums(s).1 * 65536 + AdlerSums(s).0
  }

  function AdlerDecimal(s: string): string {
    Decimal(Adler32(s))
  }

  /** A checksum prints as one to ten digits. */
  lemma AdlerDecimalLength(s: string)
    ensures 1 <= |AdlerDecimal(s)| <= 10
  {
    assert PowerOfTen(10) == 10_000_000_000;
    DecimalLength(Adler32(s), 10);
  }

  // ---------------------------------------------------------------- DNS labels

  const LABEL_MAX := 63

  predicate IsAlphanumeric(c: char) {
    'a' <= c <= 'z' || 'A' <= c <= 'Z' || '0' <= c <= '9'
  }

  /** At most 63 characters of [-a-zA-Z0-9], the first and last of them not '-'. */
  predicate IsDns1123Label(s: string) {
    && 0 < |s| <= LABEL_MAX
    && IsAlphanumeric(s[0]) && IsAlphanumeric(s[|s| - 1])
    && forall i :: 0 <= i < |s| ==> s[i] == '-' || IsAlphanumeric(s[i])
  }

  lemma LabelExcludes(s: string, c: char)
    requires IsDns1123Label(s)
    requires c != '-' && !IsAlphanumeric(c)
    ensures c !in s
  {
  }

  lemma ChecksumIsLabel(s: string)
    ensures IsDns1123Label(AdlerDecimal(s))
  {
    AdlerDecimalLength(s);
  }
}
