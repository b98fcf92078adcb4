/** Ordering addresses for Happy Eyeballs, RFC 8305 section 4 (src/net.rs). */
module Interleaving {
  import opened Bytes

  datatype SockAddr = V4(ip: bytes, port: nat) | V6(ip: bytes, port: nat)

  predicate AllOf(s: seq<SockAddr>, v6: bool) {
    forall a | a in s :: a.V6? == v6
  }

  /** The addresses of one family, in the resolver's order. */
  function Family(addrs: seq<SockAddr>, v6: bool): (r: seq<SockAddr>)
    ensures AllOf(r, v6)
  {
    if addrs == [] then []
    else (if addrs[0].V6? == v6 then [addrs[0]] else []) + Family(addrs[1..], v6)
  }

  function Front<T>(s: seq<T>): seq<T> {
    s[..Min(1, |s|)]
  }

  function Rest<T>(s: seq<T>): seq<T> {
    s[Min(1, |s|)..]
  }

  /** One of each in turn, while there are any. */
  function Alternate<T>(p: seq<T>, s: seq<T>): seq<T>
    decreases |p| + |s|
  {
    if p == [] && s == [] then []
    else Front(p) + Front(s) + Alternate(Rest(p), Rest(s))
  }

  function Interleaved(addrs: seq<SockAddr>): seq<SockAddr> {
    if addrs == [] then addrs
    else Alternate(Family(addrs, addrs[0].V6?), Family(addrs, !addrs[0].V6?))
  }

  lemma FamilyNone(addrs: seq<SockAddr>, v6: bool)
    ensures Family(addrs[..0], v6) == []
  {
  }

  lemma FamilyNext(addrs: seq<SockAddr>, i: nat, v6: bool)
    requires i < |addrs|
    ensures Family(addrs[..i + 1], v6) == Family(addrs[..i], v6) + if addrs[i].V6? == v6 then [addrs[i]] else []
  {
    assert addrs[..i + 1] == addrs[..i] + [addrs[i]];
    FamilyAppend(addrs[..i], [addrs[i]], v6);
  }

  method Partition(addrs: seq<SockAddr>, v6: bool) returns (primary: seq<SockAddr>, secondary: seq<SockAddr>)
    ensures primary == Family(addrs, v6) && secondary == Family(addrs, !v6)
  {
    primary, secondary := [], [];
    FamilyNone(addrs, v6);
    FamilyNone(addrs, !v6);
    hide Family;
    for i := 0 to |addrs|
      invariant primary == Family(addrs[..i], v6) && secondary == Family(addrs[..i], !v6)
    {
      FamilyNext(addrs, i, v6);
      FamilyNext(addrs, i, !v6);
      if addrs[i].V6? == v6 {
        primary := primary + [addrs[i]];
        assert secondary + [] == secondary;
      } else {
        assert primary + [] == primary;
        secondary := secondary + [addrs[i]];
      }
    }
    assert addrs[..|addrs|] == addrs;
  }

  lemma InterleavedIs(addrs: seq<SockAddr>)
    requires addrs != []
    ensures [] + Alternate(Family(addrs, addrs[0].V6?), Family(addrs, !addrs[0].V6?)) == Interleaved(addrs)
  {
    NilLeft(Interleaved(addrs));
  }

  lemma AlternateStep<T>(out: seq<T>, p: seq<T>, s: seq<T>)
    requires p != [] || s != []
    ensures |Rest(p)| + |Rest(s)| < |p| + |s|
    ensures out + Alternate(p, s) == out + Front(p) + Front(s) + Alternate(Rest(p), Rest(s))
  {
    hide Front;
    Assoc(out, Front(p), Front(s));
    Assoc(out, Front(p) + Front(s), Alternate(Rest(p), Rest(s)));
  }

  lemma AlternateEnds<T>(out: seq<T>)
    ensures out + Alternate([], []) == out
  {
  }

  method Interleave(addrs: seq<SockAddr>) returns (out: seq<SockAddr>)
    ensures out == Interleaved(addrs)
  {
    if addrs == [] {
      return addrs;
    }
    var firstV6 := addrs[0].V6?;
    var primary, secondary := Partition(addrs, firstV6);
    out := [];
    hide Alternate, Front, Rest, Family, Interleaved;
    InterleavedIs(addrs);
    while primary != [] || secondary != []
      invariant out + Alternate(primary, secondary) == Interleaved(addrs)
      decreases |primary| + |secondary|
    {
      AlternateStep(out, primary, secondary);
      out := out + Front(primary);
      out := out + Front(secondary);
      primary, secondary := Rest(primary), Rest(secondary);
    }
    AlternateEnds<SockAddr>(out);
  }

  lemma {:induction false} FamilyAppend(a: seq<SockAddr>, b: seq<SockAddr>, v6: bool)
    ensures Family(a + b, v6) == Family(a, v6) + Family(b, v6)
  {
    if a == [] {
      assert a + b == b;
    } else {
      DropShort(a, b, 1);
      FamilyAppend(a[1..], b, v6);
    }
  }

  lemma {:induction false} FamilyOfUniform(a: seq<SockAddr>, family: bool, v6: bool)
    requires AllOf(a, family)
    ensures Family(a, v6) == if v6 == family then a else []
  {
    if a != [] {
      FamilyOfUniform(a[1..], family, v6);
    }
  }

  lemma FrontRest(s: seq<SockAddr>, v6: bool)
    requires AllOf(s, v6)
    ensures AllOf(Front(s), v6) && AllOf(Rest(s), v6) && Front(s) + Rest(s) == s
    ensures s != [] ==> |Rest(s)| < |s|
    ensures s == [] ==> Rest(s) == [] && Front(s) == []
  {
  }

  lemma {:induction false} AlternateKeepsFamilies(p: seq<SockAddr>, s: seq<SockAddr>, first: bool, v6: bool)
    requires AllOf(p, first) && AllOf(s, !first)
    ensures Family(Alternate(p, s), v6) == if v6 == first then p else s
    decreases |p| + |s|
  {
    if p != [] || s != [] {
      FrontRest(p, first);
      FrontRest(s, !first);
      hide Front, Rest, AllOf;
      AlternateKeepsFamilies(Rest(p), Rest(s), first, v6);
      FamilyAppend(Front(p) + Front(s), Alternate(Rest(p), Rest(s)), v6);
      FamilyAppend(Front(p), Front(s), v6);
      FamilyOfUniform(Front(p), first, v6);
      FamilyOfUniform(Front(s), !first, v6);
    }
  }

  /** Each family keeps its order, so nothing is lost, added or reordered within a family. */
  lemma FamiliesKept(addrs: seq<SockAddr>, v6: bool)
    ensures Family(Interleaved(addrs), v6) == Family(addrs, v6)
  {
    if addrs != [] {
      var first := addrs[0].V6?;
      AlternateKeepsFamilies(Family(addrs, first), Family(addrs, !first), first, v6);
    }
  }

  lemma {:induction false} FamilyCounts(addrs: seq<SockAddr>)
    ensures multiset(Family(addrs, true)) + multiset(Family(addrs, false)) == multiset(addrs)
  {
    if addrs != [] {
      FamilyCounts(addrs[1..]);
      assert addrs == [addrs[0]] + addrs[1..];
    }
  }

  /** Hence the result is a permutation of the input. */
  lemma Permutation(addrs: seq<SockAddr>)
    ensures multiset(Interleaved(addrs)) == multiset(addrs)
  {
    FamilyCounts(addrs);
    FamilyCounts(Interleaved(addrs));
    FamiliesKept(addrs, true);
    FamiliesKept(addrs, false);
  }

  /** `r` starts with the family `first`, if it has any of it. */
  ghost predicate Leads(r: seq<SockAddr>, first: bool) {
    r == [] || r[0].V6? == first || AllOf(r, !first)
  }

  /** Two neighbours of one family occur only when the other family has run out. */
  ghost predicate Alternates(r: seq<SockAddr>) {
    forall j, k | 0 < j <= k < |r| && r[j].V6? == r[j - 1].V6? :: r[k].V6? == r[j].V6?
  }

  lemma {:induction false} UniformAlternate<T>(p: seq<T>, s: seq<T>)
    requires p == [] || s == []
    ensures Alternate(p, s) == p + s
    decreases |p| + |s|
  {
    if p != [] || s != [] {
      UniformAlternate(Rest(p), Rest(s));
      assert Front(p) + Rest(p) == p && Front(s) + Rest(s) == s;
    }
  }

  lemma OneMorePair(x: SockAddr, y: SockAddr, later: seq<SockAddr>)
    requires x.V6? != y.V6? && Leads(later, x.V6?) && Alternates(later)
    ensures Alternates([x, y] + later)
  {
    var r := [x, y] + later;
    forall j, k | 0 < j <= k < |r| && r[j].V6? == r[j - 1].V6?
      ensures r[k].V6? == r[j].V6?
    {
      if j == 2 {
        assert later[k - 2] in later;
      } else {
        assert later[j - 2].V6? == later[j - 3].V6?;
      }
    }
  }

  lemma {:induction false} AlternateAlternates(p: seq<SockAddr>, s: seq<SockAddr>, first: bool)
    requires AllOf(p, first) && AllOf(s, !first)
    ensures Alternates(Alternate(p, s)) && Leads(Alternate(p, s), first)
    decreases |p| + |s|
  {
    if p == [] || s == [] {
      UniformAlternate(p, s);
    } else {
      var later := Alternate(Rest(p), Rest(s));
      AlternateAlternates(Rest(p), Rest(s), first);
      hide Alternates;
      OneMorePair(p[0], s[0], later);
      assert Alternate(p, s) == [p[0], s[0]] + later;
    }
  }

  lemma LaterHasFirst<T>(p: seq<T>, s: seq<T>)
    ensures p != [] ==> Alternate(p, s) != [] && Alternate(p, s)[0] == p[0]
    ensures p == [] ==> Alternate(p, s) == s
  {
    if p == [] {
      UniformAlternate(p, s);
    }
  }

  /** RFC 8305 section 4: the first address stays first, and the families alternate until one runs out. */
  lemma StartsAndAlternates(addrs: seq<SockAddr>)
    requires addrs != []
    ensures Interleaved(addrs) != [] && Interleaved(addrs)[0] == addrs[0]
    ensures Alternates(Interleaved(addrs))
  {
    var first := addrs[0].V6?;
    var p, s := Family(addrs, first), Family(addrs, !first);
    AlternateAlternates(p, s, first);
    LaterHasFirst(p, s);
  }

  lemma {:induction false} FamilyWhole(r: seq<SockAddr>, v6: bool)
    requires Family(r, !v6) == []
    ensures AllOf(r, v6) && Family(r, v6) == r
  {
    if r != [] {
      FamilyWhole(r[1..], v6);
    }
  }

  /** The tail of an alternating list leads with whichever family its own neighbours allow. */
  lemma TailAlternates(r: seq<SockAddr>)
    requires 2 <= |r| && Alternates(r) && r[0].V6? != r[1].V6?
    ensures Alternates(r[2..]) && Leads(r[2..], r[0].V6?)
  {
    var t := r[2..];
    forall j, k | 0 < j <= k < |t| && t[j].V6? == t[j - 1].V6?
      ensures t[k].V6? == t[j].V6?
    {
      assert r[j + 2].V6? == r[j + 1].V6?;
      assert r[k + 2].V6? == r[j + 2].V6?;
    }
    if t != [] && t[0].V6? != r[0].V6? {
      assert r[2].V6? == r[1].V6?;
      forall x | x in t
        ensures x.V6? == !r[0].V6?
      {
        var k :| 0 <= k < |t| && t[k] == x;
        assert r[k + 2].V6? == r[2].V6?;
      }
    }
  }

  lemma TwoOfOne(r: seq<SockAddr>, first: bool)
    requires 2 <= |r| && Alternates(r) && r[0].V6? == first && r[1].V6? == first
    ensures AllOf(r, first)
  {
    forall x | x in r
      ensures x.V6? == first
    {
      var k :| 0 <= k < |r| && r[k] == x;
      if k > 0 {
        assert r[k].V6? == r[1].V6?;
      }
    }
  }

  lemma FirstTwo(r: seq<SockAddr>, first: bool)
    requires Family(r, first) != [] && Family(r, !first) != []
    requires Alternates(r) && Leads(r, first)
    ensures 2 <= |r| && r[0].V6? == first && r[1].V6? == !first
  {
    hide Family;
    if AllOf(r, !first) {
      FamilyOfUniform(r, !first, first);
    }
    if AllOf(r, first) {
      FamilyOfUniform(r, first, !first);
    }
    if 2 <= |r| && r[0].V6? == first && r[1].V6? == first {
      TwoOfOne(r, first);
    }
  }

  lemma {:induction false} OnlyMerge(r: seq<SockAddr>, p: seq<SockAddr>, s: seq<SockAddr>, first: bool)
    requires Family(r, first) == p && Family(r, !first) == s
    requires Alternates(r) && Leads(r, first)
    ensures r == Alternate(p, s)
    decreases |r|
  {
    if p == [] || s == [] {
      FamilyWhole(r, if s == [] then first else !first);
      UniformAlternate(p, s);
    } else {
      hide Alternates, Leads, Family;
      FirstTwo(r, first);
      SplitPair(r, first);
      TailAlternates(r);
      OnlyMerge(r[2..], p[1..], s[1..], first);
    }
  }

  lemma SplitPair(r: seq<SockAddr>, first: bool)
    requires 2 <= |r| && r[0].V6? == first && r[1].V6? == !first
    ensures Family(r, first) == [r[0]] + Family(r[2..], first)
    ensures Family(r, !first) == [r[1]] + Family(r[2..], !first)
  {
    assert r[1..][1..] == r[2..];
  }

  /** The interleaving is the only list with these properties: an order-preserving, alternating merge. */
  lemma InterleavedIff(addrs: seq<SockAddr>, r: seq<SockAddr>)
    requires addrs != []
    ensures r == Interleaved(addrs) <==>
            && (forall v6 :: Family(r, v6) == Family(addrs, v6))
            && Alternates(r) && Leads(r, addrs[0].V6?)
  {
    var first := addrs[0].V6?;
    var p, s := Family(addrs, first), Family(addrs, !first);
    FamiliesKept(addrs, first);
    FamiliesKept(addrs, !first);
    AlternateAlternates(p, s, first);
    if Family(r, first) == p && Family(r, !first) == s && Alternates(r) && Leads(r, first) {
      OnlyMerge(r, p, s, first);
    }
  }
}
