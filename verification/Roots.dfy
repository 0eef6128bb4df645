/** Roots as byte strings, and the one sorted listing of a set of roots. */
module Roots {
  import opened Types

  // ----- Lexicographic order on bytes is numeric order -----

  /** The number a big-endian byte string spells. */
  function FromBytes(bytes: seq<Octet>): (n: nat) {
    if bytes == [] then 0
    else 256 * FromBytes(bytes[..|bytes| - 1]) + bytes[|bytes| - 1]
  }

  lemma {:induction false} DifferenceDecides(a: seq<Octet>, b: seq<Octet>, i: nat)
    requires |a| == |b| && i < |a| && a[..i] == b[..i] && b[i] < a[i]
    ensures FromBytes(b) < FromBytes(a)
  {
    var n := |a| - 1;
    if i == n {
      assert a[..n] == b[..n];
    } else {
      assert a[..n][..i] == a[..i] == b[..i] == b[..n][..i];
      DifferenceDecides(a[..n], b[..n], i);
    }
  }

  /** hashGreater: the byte-by-byte comparison is the numeric comparison of the two hashes. */
  method HashGreater(a: seq<Octet>, b: seq<Octet>) returns (greater: bool)
    requires |a| == |b| == 32
    ensures greater <==> FromBytes(a) > FromBytes(b)
  {
    for i := 0 to 32
      invariant a[..i] == b[..i]
    {
      if a[i] > b[i] {
        DifferenceDecides(a, b, i);
        return true;
      }
      if a[i] < b[i] {
        DifferenceDecides(b, a, i);
        return false;
      }
    }
    assert a == a[..32] == b[..32] == b;
    return false;
  }

  // ----- The sorted listing of a set of roots -----

  predicate Sorted(s: seq<nat>) {
    forall i, j :: 0 <= i < j < |s| ==> s[i] < s[j]
  }

  ghost predicate Lists(s: seq<Root>, roots: set<Root>) {
    Sorted(s) && forall r :: r in roots <==> r in s
  }

  lemma {:induction false} LeastExists(roots: set<Root>) returns (least: Root)
    requires roots != {}
    ensures least in roots && forall r | r in roots :: least <= r
  {
    var x :| x in roots;
    var rest := roots - {x};
    assert roots == rest + {x};
    least := x;
    if rest != {} {
      var m := LeastExists(rest);
      least := if m < x then m else x;
    }
  }

  lemma InsertKeepsListing(s: seq<Root>, k: nat, x: Root, roots: set<Root>)
    requires Lists(s, roots) && k <= |s|
    requires forall i :: 0 <= i < k ==> s[i] < x
    requires forall i :: k <= i < |s| ==> x < s[i]
    ensures Lists(s[..k] + [x] + s[k..], roots + {x})
  {
    var t := s[..k] + [x] + s[k..];
    assert s == s[..k] + s[k..];
    forall r
      ensures r in roots + {x} <==> r in t
    {
      assert r in s <==> r in s[..k] || r in s[k..];
      assert r in t <==> r in s[..k] || r == x || r in s[k..];
    }
  }

  function Least(roots: set<Root>): (m: Root)
    requires roots != {}
    ensures m in roots && forall r | r in roots :: m <= r
  {
    assert exists m :: m in roots && forall r | r in roots :: m <= r by {
      var least := LeastExists(roots);
    }
    var m :| m in roots && forall r | r in roots :: m <= r;
    m
  }

  lemma PrependLeast(rest: seq<Root>, roots: set<Root>)
    requires roots != {} && Lists(rest, roots - {Least(roots)})
    ensures Lists([Least(roots)] + rest, roots)
  {
    var m := Least(roots);
    forall i | 0 <= i < |rest|
      ensures m < rest[i]
    {
      assert rest[i] in rest;
    }
    InsertKeepsListing(rest, 0, m, roots - {m});
    assert rest[..0] + [m] + rest[0..] == [m] + rest;
    assert roots - {m} + {m} == roots;
  }

  function SortedRoots(roots: set<Root>): (s: seq<Root>)
    ensures Lists(s, roots)
    ensures |s| == |roots|
  {
    if roots == {} then []
    else
      var rest := SortedRoots(roots - {Least(roots)});
      PrependLeast(rest, roots);
      [Least(roots)] + rest
  }

  /** Whatever order the roots were visited in, the sorted listing is the same. */
  lemma {:induction false} ListingUnique(s: seq<nat>, t: seq<nat>)
    requires Sorted(s) && Sorted(t)
    requires forall r :: r in s <==> r in t
    ensures s == t
  {
    assert s != [] ==> s[0] in s;
    assert t != [] ==> t[0] in t;
    if s != [] {
      assert s[0] == t[0];
      forall r
        ensures r in s[1..] <==> r in t[1..]
      {
        assert r in s <==> r == s[0] || r in s[1..];
        assert r in t <==> r == t[0] || r in t[1..];
      }
      ListingUnique(s[1..], t[1..]);
    }
  }

  /** sort.Slice with bytes.Compare, on roots that are all different. */
  method SortRoots(roots: seq<Root>) returns (sorted: seq<Root>)
    requires forall i, j :: 0 <= i < j < |roots| ==> roots[i] != roots[j]
    ensures Lists(sorted, set r | r in roots)
  {
    sorted := [];
    ghost var seen: set<Root> := {};
    for i := 0 to |roots|
      invariant Lists(sorted, seen)
      invariant forall r :: r in seen <==> r in roots[..i]
    {
      var x := roots[i];
      var k := 0;
      while k < |sorted| && sorted[k] < x
        invariant 0 <= k <= |sorted|
        invariant forall j :: 0 <= j < k ==> sorted[j] < x
      {
        k := k + 1;
      }
      assert x !in sorted;
      InsertKeepsListing(sorted, k, x, seen);
      sorted := sorted[..k] + [x] + sorted[k..];
      seen := seen + {x};
      assert roots[..i + 1] == roots[..i] + [x];
    }
    assert roots[..|roots|] == roots;
    assert seen == set r | r in roots;
  }

  /** sortedJustificationRoots: visits the keys in any order and sorts them. */
  method SortedJustificationRoots(justifications: map<Root, seq<bool>>) returns (roots: seq<Root>)
    ensures roots == SortedRoots(justifications.Keys)
  {
    var listed: seq<Root> := [];
    var keys := justifications.Keys;
    while keys != {}
      invariant keys <= justifications.Keys
      invariant forall r :: r in listed <==> r in justifications.Keys - keys
      invariant forall i, j :: 0 <= i < j < |listed| ==> listed[i] != listed[j]
      decreases keys
    {
      var r :| r in keys;
      assert r !in listed;
      keys := keys - {r};
      listed := listed + [r];
    }
    roots := SortRoots(listed);
    assert forall r :: r in roots <==> r in SortedRoots(justifications.Keys);
    ListingUnique(roots, SortedRoots(justifications.Keys));
  }
}
