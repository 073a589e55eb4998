// Address prefixes as Python's ipaddress module reads them: `ip_interface(...)`
// and `network.overlaps(...)` (prefix notation: section 3.1 of RFC 4632).
module Cidr {

  datatype Version = V4 | V6

  /** An address with a prefix length. */
  datatype Interface = Interface(version: Version, address: nat, length: nat) {
    ghost predicate Valid() {
      length <= Width(version) && address < Pow2(Width(version))
    }
  }

  function Width(v: Version): nat {
    if v == V4 then 32 else 128
  }

  function Pow2(n: nat): (r: nat)
    ensures r > 0
  {
    if n == 0 then 1 else 2 * Pow2(n - 1)
  }

  lemma {:induction false} Pow2Adds(m: nat, n: nat)
    ensures Pow2(m + n) == Pow2(m) * Pow2(n)
  {
    if m > 0 { Pow2Adds(m - 1, n); }
  }

  /** Number of addresses in the network. */
  function Size(i: Interface): nat
    requires i.Valid()
  {
    Pow2(Width(i.version) - i.length)
  }

  function Floor(x: nat, d: nat): (r: nat)
    requires d > 0
    ensures r == x / d * d
  {
    MulMono(0, x / d, d);
    x / d * d
  }

  /** Lowest address: host bits cleared. */
  function Network(i: Interface): nat
    requires i.Valid()
  {
    Floor(i.address, Size(i))
  }

  function Broadcast(i: Interface): nat
    requires i.Valid()
  {
    Network(i) + Size(i) - 1
  }

  predicate Contains(i: Interface, x: nat)
    requires i.Valid()
  {
    Network(i) <= x <= Broadcast(i)
  }

  /** `self.overlaps(other)`: one of the four end points lies in the other network. */
  predicate Overlaps(a: Interface, b: Interface)
    requires a.Valid() && b.Valid()
  {
    a.version == b.version &&
    (Contains(a, Network(b)) || Contains(a, Broadcast(b)) || Contains(b, Network(a)) || Contains(b, Broadcast(a)))
  }

  /** Membership in an aligned block of `size` addresses is equality of the quotient. */
  lemma InBlock(base: nat, x: nat, size: nat)
    requires size > 0
    ensures base / size * size <= x <= base / size * size + size - 1 <==> x / size == base / size
  {
    var k := base / size;
    Euclid(x, size);
    if k * size <= x <= k * size + size - 1 { QuotientUnique(x, size, k, x - k * size); }
  }

  lemma MulMono(a: int, b: int, c: nat)
    requires a <= b
    ensures a * c <= b * c
  {}

  /** The addresses of a network: those that agree with it on its prefix. */
  lemma ContainsByQuotient(i: Interface, x: nat)
    requires i.Valid()
    ensures Contains(i, x) <==> x / Size(i) == i.address / Size(i)
    ensures Size(i) == Pow2((match i.version case V4 => 32 case V6 => 128) - i.length)
  {
    InBlock(i.address, x, Size(i));
  }

  lemma Euclid(x: nat, d: nat)
    requires d > 0
    ensures x == x / d * d + x % d && x % d < d
  {}

  lemma Spread(k: int, m: int, t: int, s: int)
    ensures (k * m + t) * s == k * (s * m) + t * s
  {
    assert (k * m + t) * s == (k * m) * s + t * s;
    assert (k * m) * s == k * (m * s);
  }

  lemma Below(t: nat, m: nat, s: nat, r: nat)
    requires t < m && r < s
    ensures 0 <= t * s + r < s * m
  {
    MulMono(t + 1, m, s);
    assert (t + 1) * s == t * s + s;
    MulMono(0, t, s);
  }

  lemma DivDiv(x: nat, s: nat, m: nat)
    requires s > 0 && m > 0 && s * m > 0
    ensures x / s / m == x / (s * m)
  {
    Nested(x, s, m, x / s, x % s, x / s / m, x / s % m, s * m);
  }

  lemma Nested(x: nat, s: nat, m: nat, q: nat, r: nat, k: nat, t: nat, d: nat)
    requires s > 0 && m > 0 && d == s * m && d > 0
    requires q == x / s && r == x % s && k == q / m && t == q % m
    ensures x / d == k
  {
    Euclid(x, s);
    Euclid(q, m);
    Spread(k, m, t, s);
    Below(t, m, s, r);
    QuotientUnique(x, d, k, t * s + r);
  }

  lemma QuotientUnique(x: nat, d: nat, k: nat, r: nat)
    requires d > 0 && r < d && x == k * d + r
    ensures x / d == k
  {
    Euclid(x, d);
    var q := x / d;
    if q < k { MulMono(q + 1, k, d); }
    if q > k { MulMono(k + 1, q, d); }
  }

  /** The shorter prefix decides: both addresses agree on it. */
  ghost predicate SharePrefix(a: Interface, b: Interface)
    requires a.Valid() && b.Valid()
  {
    a.version == b.version &&
    var n := Pow2(Width(a.version) - if a.length < b.length then a.length else b.length);
    a.address / n == b.address / n
  }

  lemma CoarserQuotient(fine: Interface, coarse: Interface, x: nat)
    requires fine.Valid() && coarse.Valid() && fine.version == coarse.version && coarse.length <= fine.length
    ensures Contains(fine, x) ==> x / Size(coarse) == fine.address / Size(coarse)
  {
    var s, m := Size(fine), Pow2(fine.length - coarse.length);
    Pow2Adds(Width(fine.version) - fine.length, fine.length - coarse.length);
    assert Size(coarse) == s * m;
    ContainsByQuotient(fine, x);
    DivDiv(x, s, m);
    DivDiv(fine.address, s, m);
  }

  lemma ContainsEnds(i: Interface)
    requires i.Valid()
    ensures Contains(i, Network(i)) && Contains(i, Broadcast(i)) && Contains(i, i.address)
  {
    ContainsByQuotient(i, i.address);
  }

  lemma SharedMeansPrefix(a: Interface, b: Interface, x: nat)
    requires a.Valid() && b.Valid() && a.version == b.version && Contains(a, x) && Contains(b, x)
    ensures SharePrefix(a, b)
  {
    if a.length < b.length {
      CoarserQuotient(b, a, x);
      ContainsByQuotient(a, x);
    } else {
      CoarserQuotient(a, b, x);
      ContainsByQuotient(b, x);
    }
  }

  /** Overlap is prefix matching. */
  lemma OverlapIsPrefixMatch(a: Interface, b: Interface)
    requires a.Valid() && b.Valid()
    ensures Overlaps(a, b) <==> SharePrefix(a, b)
  {
    ContainsEnds(a);
    ContainsEnds(b);
    if Overlaps(a, b) {
      var x := if Contains(a, Network(b)) then Network(b) else if Contains(a, Broadcast(b)) then Broadcast(b)
               else if Contains(b, Network(a)) then Network(a) else Broadcast(a);
      SharedMeansPrefix(a, b, x);
    }
    if SharePrefix(a, b) {
      if a.length < b.length {
        CoarserQuotient(b, a, Network(b));
        ContainsByQuotient(a, Network(b));
      } else {
        CoarserQuotient(a, b, Network(a));
        ContainsByQuotient(b, Network(a));
      }
    }
  }

  /** Overlap is having an address in common: without it the networks are disjoint. */
  lemma OverlapIsSharing(a: Interface, b: Interface)
    requires a.Valid() && b.Valid() && a.version == b.version
    ensures Overlaps(a, b) <==> exists x: nat :: Contains(a, x) && Contains(b, x)
  {
    ContainsEnds(a);
    ContainsEnds(b);
    forall x: nat | Contains(a, x) && Contains(b, x) ensures Overlaps(a, b) {
      SharedMeansPrefix(a, b, x);
      OverlapIsPrefixMatch(a, b);
    }
  }
}
