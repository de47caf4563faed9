/** The iterative get_peers lookup of the DHT client (BEP 5). */
module Dht {
  import opened Bytes
  import opened Distance
  import opened Numbers
  import opened Sorting

  const ALPHA := 3
  const MAX_CANDIDATES := 200

  type Address = string

  // ----- Candidates -----

  datatype Node = Node(id: Id, addr: Address)
  datatype Candidate = Candidate(id: Id, addr: Address, dist: Id, queried: bool)

  predicate Closer(a: Candidate, b: Candidate) { LexLess(a.dist, b.dist) }

  function AddrOf(c: Candidate): Address { c.addr }

  function Addrs(cs: seq<Candidate>): set<Address> { set c | c in cs :: c.addr }

  lemma CloserIsWeakOrder()
    ensures StrictWeakOrder(Closer)
  {
    forall a: Candidate, b: Candidate ensures Closer(a, b) ==> !Closer(b, a) {
      LexTotal(a.dist, b.dist);
    }
    forall a: Candidate, b: Candidate, c: Candidate ensures !Closer(a, b) && !Closer(b, c) ==> !Closer(a, c) {
      FarTransitive(a.dist, b.dist, c.dist);
    }
  }

  lemma FarTransitive(a: Bytes, b: Bytes, c: Bytes)
    ensures !LexLess(a, b) && !LexLess(b, c) ==> !LexLess(a, c)
  {
    LexTotal(a, b);
    if LexLess(b, a) && LexLess(a, c) { LexTransitive(b, a, c); }
  }

  /** Every node ever admitted, with the identifier it was first seen with. */
  type Admitted = map<Address, Id>

  predicate Entry(c: Candidate, admitted: Admitted, claimed: seq<Address>, target: Id) {
    && c.addr in admitted && c.id == admitted[c.addr] && c.dist == XorBytes(c.id, target)
    && (c.queried <==> c.addr in claimed)
  }

  ghost predicate Entries(cs: seq<Candidate>, admitted: Admitted, claimed: seq<Address>, target: Id) {
    && DistinctBy(cs, AddrOf)
    && forall i :: 0 <= i < |cs| ==> Entry(cs[i], admitted, claimed, target)
  }

  /** id is no closer to the target than any of cs. */
  ghost predicate Far(id: Id, cs: seq<Candidate>, target: Id) {
    forall i :: 0 <= i < |cs| ==> !LexLess(XorBytes(id, target), cs[i].dist)
  }

  /** cs is sorted and holds the closest nodes of all that were ever admitted, up to the cap. */
  ghost predicate Closest(cs: seq<Candidate>, admitted: Admitted, claimed: seq<Address>, target: Id) {
    && Entries(cs, admitted, claimed, target)
    && SortedBy(cs, Closer)
    && |cs| == Min(200, |admitted|)
    && forall a :: a in admitted && a !in Addrs(cs) ==> Far(admitted[a], cs, target)
  }

  /** What addNodes admits: each address once, and none that was seen before. */
  function Admit(admitted: Admitted, nodes: seq<Node>): Admitted {
    if nodes == [] then admitted
    else
      var before, n := Admit(admitted, nodes[..|nodes| - 1]), nodes[|nodes| - 1];
      if n.addr in before then before else before[n.addr := n.id]
  }

  /** The candidate list between the appends of addNodes and its sort. */
  ghost predicate Pool(cs: seq<Candidate>, admitted: Admitted, was: seq<Candidate>, before: Admitted,
                       claimed: seq<Address>, target: Id) {
    && was <= cs && before.Keys <= admitted.Keys
    && Entries(cs, admitted, claimed, target)
    && |cs| == |was| + |admitted| - |before|
    && forall a :: a in admitted && a !in Addrs(cs) ==> a in before && a !in Addrs(was) && admitted[a] == before[a]
  }

  lemma AddrsCount(cs: seq<Candidate>)
    requires DistinctBy(cs, AddrOf)
    ensures |Addrs(cs)| == |cs|
  {
    if cs == [] {
      assert Addrs(cs) == {};
    } else {
      var n := |cs| - 1;
      AddrsCount(cs[..n]);
      assert Addrs(cs) == Addrs(cs[..n]) + {cs[n].addr};
      assert cs[n].addr !in Addrs(cs[..n]) by {
        forall i | 0 <= i < n ensures cs[i].addr != cs[n].addr {
          assert AddrOf(cs[i]) != AddrOf(cs[n]);
        }
      }
    }
  }

  lemma SubsetCount<T>(a: set<T>, b: set<T>)
    requires a <= b
    ensures |a| <= |b| && (|a| == |b| ==> a == b)
  {
    assert b == a + (b - a);
    if |a| == |b| { assert b - a == {}; }
  }

  lemma AddrsAppend(cs: seq<Candidate>, c: Candidate)
    ensures Addrs(cs + [c]) == Addrs(cs) + {c.addr}
  {
    assert forall x :: x in cs + [c] <==> x in cs || x == c;
  }

  lemma EntriesAppend(cs: seq<Candidate>, admitted: Admitted, claimed: seq<Address>, target: Id, c: Candidate)
    requires Entries(cs, admitted, claimed, target)
    requires c.addr !in admitted && c.addr !in claimed && !c.queried && c.dist == XorBytes(c.id, target)
    ensures Entries(cs + [c], admitted[c.addr := c.id], claimed, target)
  {
    var cs', admitted' := cs + [c], admitted[c.addr := c.id];
    forall i | 0 <= i < |cs'| ensures Entry(cs'[i], admitted', claimed, target) {
      if i < |cs| { assert Entry(cs[i], admitted, claimed, target); }
    }
    forall i, j | 0 <= i < j < |cs'| ensures AddrOf(cs'[i]) != AddrOf(cs'[j]) {
      assert Entry(cs[i], admitted, claimed, target);
      if j < |cs| { assert AddrOf(cs[i]) != AddrOf(cs[j]); }
    }
  }

  lemma AdmittedCount(admitted: Admitted, addr: Address, id: Id)
    requires addr !in admitted
    ensures |admitted[addr := id]| == |admitted| + 1
  {
    var admitted' := admitted[addr := id];
    assert admitted'.Keys == admitted.Keys + {addr};
    assert |admitted'| == |admitted'.Keys| && |admitted| == |admitted.Keys|;
  }

  lemma PoolStep(cs: seq<Candidate>, admitted: Admitted, was: seq<Candidate>, before: Admitted,
                 claimed: seq<Address>, target: Id, n: Node)
    requires Pool(cs, admitted, was, before, claimed, target)
    requires n.addr !in admitted && n.addr !in claimed
    ensures Pool(cs + [Candidate(n.id, n.addr, XorBytes(n.id, target), false)], admitted[n.addr := n.id], was, before,
                 claimed, target)
  {
    hide Entries, Addrs, XorBytes;
    var c := Candidate(n.id, n.addr, XorBytes(n.id, target), false);
    AddrsAppend(cs, c);
    EntriesAppend(cs, admitted, claimed, target, c);
    AdmittedCount(admitted, n.addr, n.id);
  }

  lemma PoolStart(cs: seq<Candidate>, admitted: Admitted, claimed: seq<Address>, target: Id)
    requires Closest(cs, admitted, claimed, target)
    ensures Pool(cs, admitted, cs, admitted, claimed, target)
  {
  }

  /** An old candidate at least as far as kept[i]: kept[i] itself, or one that kept[i] pushed out. */
  lemma OldWitness(kept: seq<Candidate>, sorted: seq<Candidate>, was: seq<Candidate>, i: nat)
    returns (o: Candidate)
    requires SortedBy(sorted, Closer) && DistinctBy(sorted, AddrOf) && DistinctBy(was, AddrOf)
    requires |was| == MAX_CANDIDATES <= |sorted| && kept == sorted[..MAX_CANDIDATES] && i < |kept|
    requires forall c :: c in was ==> c in sorted
    ensures o in was && !LexLess(o.dist, kept[i].dist)
  {
    if kept[i] in was {
      o := kept[i];
      LexTotal(o.dist, o.dist);
    } else {
      KeptDistinct(sorted, MAX_CANDIDATES);
      AddrsCount(kept);
      AddrsCount(was);
      if forall c :: c in was ==> c in kept {
        assert Addrs(was) <= Addrs(kept);
        SubsetCount(Addrs(was), Addrs(kept));
        assert kept[i].addr in Addrs(was);
        var c :| c in was && c.addr == kept[i].addr;
        SameAddr(kept, c, kept[i]);
      }
      o :| o in was && o !in kept;
      var j :| 0 <= j < |sorted| && sorted[j] == o;
      KeptMembers(sorted, MAX_CANDIDATES);
      assert !Closer(sorted[j], sorted[i]);
    }
  }

  lemma KeptMembers(cs: seq<Candidate>, n: nat)
    requires n <= |cs|
    ensures forall i :: 0 <= i < n ==> cs[i] in cs[..n]
  {
    forall i | 0 <= i < n ensures cs[i] in cs[..n] {
      assert cs[..n][i] == cs[i];
    }
  }

  lemma KeptDistinct(cs: seq<Candidate>, n: nat)
    requires n <= |cs| && DistinctBy(cs, AddrOf)
    ensures DistinctBy(cs[..n], AddrOf)
  {
    forall i, j | 0 <= i < j < n ensures AddrOf(cs[..n][i]) != AddrOf(cs[..n][j]) {
      assert AddrOf(cs[i]) != AddrOf(cs[j]);
    }
  }

  lemma SameAddr(cs: seq<Candidate>, a: Candidate, b: Candidate)
    requires DistinctBy(cs, AddrOf) && a in cs && b in cs && a.addr == b.addr
    ensures a == b
  {
    var i, j :| 0 <= i < |cs| && 0 <= j < |cs| && cs[i] == a && cs[j] == b;
  }

  lemma FarTail(sorted: seq<Candidate>, n: nat, a: Address, admitted: Admitted, claimed: seq<Address>, target: Id)
    requires n <= |sorted| && SortedBy(sorted, Closer) && Entries(sorted, admitted, claimed, target)
    requires a in Addrs(sorted) && a !in Addrs(sorted[..n])
    ensures a in admitted && Far(admitted[a], sorted[..n], target)
  {
    var c :| c in sorted && c.addr == a;
    var j :| 0 <= j < |sorted| && sorted[j] == c;
    assert Entry(sorted[j], admitted, claimed, target);
    KeptMembers(sorted, n);
    forall i | 0 <= i < n ensures !LexLess(XorBytes(admitted[a], target), sorted[..n][i].dist) {
      assert j >= n;
      assert !Closer(sorted[j], sorted[i]);
    }
  }

  lemma FarDropped(kept: seq<Candidate>, sorted: seq<Candidate>, was: seq<Candidate>, id: Id, target: Id)
    requires SortedBy(sorted, Closer) && DistinctBy(sorted, AddrOf) && DistinctBy(was, AddrOf)
    requires |was| == MAX_CANDIDATES <= |sorted| && kept == sorted[..MAX_CANDIDATES]
    requires forall c :: c in was ==> c in sorted
    requires Far(id, was, target)
    ensures Far(id, kept, target)
  {
    forall i | 0 <= i < |kept| ensures !LexLess(XorBytes(id, target), kept[i].dist) {
      var o := OldWitness(kept, sorted, was, i);
      FarTransitive(XorBytes(id, target), o.dist, kept[i].dist);
    }
  }

  /** Sorting and cutting the pool leaves the closest of everything admitted. */
  lemma CutKeepsClosest(cs: seq<Candidate>, sorted: seq<Candidate>, admitted: Admitted, was: seq<Candidate>,
                        before: Admitted, claimed: seq<Address>, target: Id)
    requires Pool(cs, admitted, was, before, claimed, target) && Closest(was, before, claimed, target)
    requires multiset(sorted) == multiset(cs) && SortedBy(sorted, Closer)
    ensures Closest(sorted[..Min(MAX_CANDIDATES, |sorted|)], admitted, claimed, target)
  {
    ReorderKeeps(cs, sorted, AddrOf);
    SortedEntries(cs, sorted, admitted, claimed, target);
    var n := Min(MAX_CANDIDATES, |sorted|);
    var kept := sorted[..n];
    KeptEntries(sorted, n, admitted, claimed, target);
    PoolSizes(cs, admitted, was, before, claimed, target);
    forall a | a in admitted && a !in Addrs(kept) ensures Far(admitted[a], kept, target) {
      if a in Addrs(sorted) {
        FarTail(sorted, n, a, admitted, claimed, target);
      } else {
        assert a !in Addrs(cs);
        assert Far(before[a], was, target);
        FullWhenDropped(was, before, claimed, target, a);
        FarDropped(kept, sorted, was, admitted[a], target);
      }
    }
  }

  lemma PoolSizes(cs: seq<Candidate>, admitted: Admitted, was: seq<Candidate>, before: Admitted,
                  claimed: seq<Address>, target: Id)
    requires Pool(cs, admitted, was, before, claimed, target) && |was| == Min(MAX_CANDIDATES, |before|)
    ensures |was| <= |cs| && Min(MAX_CANDIDATES, |cs|) == Min(MAX_CANDIDATES, |admitted|)
    ensures forall c :: c in was ==> c in cs
  {
    SubsetCount(before.Keys, admitted.Keys);
    assert |before| == |before.Keys| && |admitted| == |admitted.Keys|;
  }

  lemma FullWhenDropped(was: seq<Candidate>, before: Admitted, claimed: seq<Address>, target: Id, a: Address)
    requires Closest(was, before, claimed, target) && a in before && a !in Addrs(was)
    ensures |was| == MAX_CANDIDATES
  {
    AddrsCount(was);
    assert Addrs(was) <= before.Keys by {
      forall x | x in Addrs(was) ensures x in before {
        var i :| 0 <= i < |was| && was[i].addr == x;
        assert Entry(was[i], before, claimed, target);
      }
    }
    SubsetCount(Addrs(was), before.Keys);
    assert |before| == |before.Keys|;
  }

  lemma SortedEntries(cs: seq<Candidate>, sorted: seq<Candidate>, admitted: Admitted, claimed: seq<Address>, target: Id)
    requires Entries(cs, admitted, claimed, target) && DistinctBy(sorted, AddrOf)
    requires forall x :: x in sorted <==> x in cs
    ensures Entries(sorted, admitted, claimed, target) && Addrs(sorted) == Addrs(cs)
  {
    forall i | 0 <= i < |sorted| ensures Entry(sorted[i], admitted, claimed, target) {
      assert sorted[i] in cs;
    }
  }

  lemma KeptEntries(sorted: seq<Candidate>, n: nat, admitted: Admitted, claimed: seq<Address>, target: Id)
    requires n <= |sorted| && Entries(sorted, admitted, claimed, target) && SortedBy(sorted, Closer)
    ensures Entries(sorted[..n], admitted, claimed, target) && SortedBy(sorted[..n], Closer)
  {
    KeptDistinct(sorted, n);
    forall i | 0 <= i < n ensures Entry(sorted[..n][i], admitted, claimed, target) {
      assert Entry(sorted[i], admitted, claimed, target);
    }
  }

  // ----- Truncating after every reply against sorting everything once -----

  /** i + 1 candidates cannot all be among i. */
  lemma OneOutside(xs: seq<Candidate>, ys: seq<Candidate>, i: nat) returns (p: nat)
    requires DistinctBy(xs, AddrOf) && i < |xs| && i <= |ys|
    ensures p <= i && xs[p].addr !in Addrs(ys[..i])
  {
    var front := xs[..i + 1];
    KeptDistinct(xs, i + 1);
    AddrsCount(front);
    AddrsAtMost(ys[..i]);
    if Addrs(front) <= Addrs(ys[..i]) {
      SubsetCount(Addrs(front), Addrs(ys[..i]));
      assert false;
    }
    var c :| c in front && c.addr !in Addrs(ys[..i]);
    p :| 0 <= p < |front| && front[p] == c;
  }

  lemma AddrsAtMost(cs: seq<Candidate>)
    ensures |Addrs(cs)| <= |cs|
  {
    if cs == [] {
      assert Addrs(cs) == {};
    } else {
      var n := |cs| - 1;
      AddrsAtMost(cs[..n]);
      assert Addrs(cs) == Addrs(cs[..n]) + {cs[n].addr};
    }
  }

  /** all lists everything admitted, sorted once. */
  ghost predicate SortedOnce(all: seq<Candidate>, admitted: Admitted, claimed: seq<Address>, target: Id) {
    && Entries(all, admitted, claimed, target) && SortedBy(all, Closer) && Addrs(all) == admitted.Keys
  }

  lemma PlaceBefore(all: seq<Candidate>, admitted: Admitted, claimed: seq<Address>, target: Id, a: Address, i: nat)
    requires SortedOnce(all, admitted, claimed, target) && i < |all|
    requires a in admitted && LexLess(XorBytes(admitted[a], target), all[i].dist)
    ensures a in Addrs(all[..i])
  {
    assert a in Addrs(all);
    var q :| 0 <= q < |all| && all[q].addr == a;
    assert Entry(all[q], admitted, claimed, target);
    LexTotal(all[q].dist, all[i].dist);
    assert i < q ==> !Closer(all[q], all[i]);
    KeptMembers(all, i);
  }

  /** The same place in both lists has the same distance, hence the same node identifier: cutting the list to 200
      after every reply loses nothing against sorting all nodes ever seen and cutting once. */
  lemma IncrementalCutIsExact(cs: seq<Candidate>, all: seq<Candidate>, admitted: Admitted, claimed: seq<Address>,
                              target: Id, i: nat)
    requires Closest(cs, admitted, claimed, target) && SortedOnce(all, admitted, claimed, target) && i < |cs|
    ensures |cs| == Min(200, |all|) && cs[i].dist == all[i].dist && cs[i].id == all[i].id
  {
    AddrsCount(all);
    assert |admitted| == |admitted.Keys|;
    LexTotal(cs[i].dist, all[i].dist);
    if LexLess(cs[i].dist, all[i].dist) {
      var p := OneOutside(cs, all, i);
      assert Entry(cs[p], admitted, claimed, target);
      AtMostThenLess(cs, p, i, all[i].dist);
      PlaceBefore(all, admitted, claimed, target, cs[p].addr, i);
    } else if LexLess(all[i].dist, cs[i].dist) {
      var p := OneOutside(all, cs, i);
      assert Entry(all[p], admitted, claimed, target);
      AtMostThenLess(all, p, i, cs[i].dist);
      PlaceAmongKept(cs, admitted, claimed, target, all[p].addr, i);
    }
    assert Entry(cs[i], admitted, claimed, target) && Entry(all[i], admitted, claimed, target);
    EqualDistanceSameId(cs[i].id, all[i].id, target);
  }

  lemma AtMostThenLess(cs: seq<Candidate>, p: nat, i: nat, d: Bytes)
    requires SortedBy(cs, Closer) && p <= i < |cs| && LexLess(cs[i].dist, d)
    ensures LexLess(cs[p].dist, d)
  {
    if p < i {
      assert !Closer(cs[i], cs[p]);
      LexTotal(cs[p].dist, cs[i].dist);
      if LexLess(cs[p].dist, cs[i].dist) { LexTransitive(cs[p].dist, cs[i].dist, d); }
    }
  }

  lemma PlaceAmongKept(cs: seq<Candidate>, admitted: Admitted, claimed: seq<Address>, target: Id, a: Address, i: nat)
    requires Closest(cs, admitted, claimed, target) && i < |cs|
    requires a in admitted && LexLess(XorBytes(admitted[a], target), cs[i].dist)
    ensures a in Addrs(cs[..i])
  {
    assert a in Addrs(cs);
    var q :| 0 <= q < |cs| && cs[q].addr == a;
    assert Entry(cs[q], admitted, claimed, target);
    LexTotal(cs[q].dist, cs[i].dist);
    assert i < q ==> !Closer(cs[q], cs[i]);
    KeptMembers(cs, i);
  }

  // ----- Choosing whom to query -----

  function Unqueried(cs: seq<Candidate>): seq<Candidate> {
    if cs == [] then []
    else
      var c := cs[|cs| - 1];
      Unqueried(cs[..|cs| - 1]) + if c.queried then [] else [c]
  }

  /** batch is what scanning the first k of cs collects, stopping at the third unqueried one. */
  ghost predicate IsBatch(cs: seq<Candidate>, batch: seq<Candidate>, k: nat) {
    k <= |cs| && batch == Unqueried(cs[..k]) && |batch| <= 3 && (k == |cs| || |batch| == 3)
  }

  lemma {:induction false} UnqueriedMembers(cs: seq<Candidate>, x: Candidate)
    ensures x in Unqueried(cs) <==> x in cs && !x.queried
  {
    if cs != [] {
      UnqueriedMembers(cs[..|cs| - 1], x);
      assert cs == cs[..|cs| - 1] + [cs[|cs| - 1]];
    }
  }

  lemma {:induction false} UnqueriedGrows(cs: seq<Candidate>, k: nat)
    requires k <= |cs|
    ensures Unqueried(cs[..k]) <= Unqueried(cs)
  {
    if k < |cs| {
      UnqueriedGrows(cs[..|cs| - 1], k);
      assert cs[..|cs| - 1][..k] == cs[..k];
    } else {
      assert cs[..k] == cs;
    }
  }

  /** A batch is the up to three closest candidates not yet queried. */
  lemma BatchIsClosest(cs: seq<Candidate>, batch: seq<Candidate>, k: nat)
    requires SortedBy(cs, Closer) && IsBatch(cs, batch, k)
    ensures |batch| == Min(3, |Unqueried(cs)|)
    ensures forall b, c :: b in batch && c in Unqueried(cs) && c !in batch ==> !Closer(c, b)
  {
    UnqueriedGrows(cs, k);
    assert k == |cs| ==> cs[..k] == cs;
    forall b, c | b in batch && c in Unqueried(cs) && c !in batch ensures !Closer(c, b) {
      UnqueriedMembers(cs[..k], b);
      UnqueriedMembers(cs[..k], c);
      UnqueriedMembers(cs, c);
      var i :| 0 <= i < k && cs[..k][i] == b;
      var j :| 0 <= j < |cs| && cs[j] == c;
      KeptMembers(cs, k);
      assert !Closer(cs[j], cs[i]);
    }
  }

  function AddrList(cs: seq<Candidate>): (r: seq<Address>)
    ensures |r| == |cs|
  {
    seq(|cs|, i requires 0 <= i < |cs| => cs[i].addr)
  }

  ghost predicate NoRepeats<T(!new)>(s: seq<T>) {
    forall i, j :: 0 <= i < j < |s| ==> s[i] != s[j]
  }

  /** cs with the flags of the first k set. */
  function Flagged(cs: seq<Candidate>, k: nat): (r: seq<Candidate>)
    requires k <= |cs|
  {
    seq(|cs|, i requires 0 <= i < |cs| => if i < k then cs[i].(queried := true) else cs[i])
  }

  /** Flagging a batch keeps the list, and claims addresses never claimed before. */
  lemma ClaimKeepsClosest(cs: seq<Candidate>, batch: seq<Candidate>, k: nat, admitted: Admitted,
                          claimed: seq<Address>, target: Id)
    requires Closest(cs, admitted, claimed, target) && IsBatch(cs, batch, k)
    requires NoRepeats(claimed) && forall a :: a in claimed ==> a in admitted
    ensures Closest(Flagged(cs, k), admitted, claimed + AddrList(batch), target)
    ensures NoRepeats(claimed + AddrList(batch))
    ensures forall a :: a in AddrList(batch) ==> a in admitted && a !in claimed
  {
    hide Closer, Far;
    var f, claimed' := Flagged(cs, k), claimed + AddrList(batch);
    BatchFacts(cs, batch, k, admitted, claimed, target);
    SameAddrs(cs, k);
    forall i | 0 <= i < |cs| ensures Entry(f[i], admitted, claimed', target) {
      assert Entry(cs[i], admitted, claimed, target);
      assert f[i].addr in claimed' <==> cs[i].addr in claimed || cs[i].addr in AddrList(batch);
    }
    forall a | a in admitted && a !in Addrs(f) ensures Far(admitted[a], f, target) {
      assert Far(admitted[a], cs, target);
      FarFlagged(admitted[a], cs, k, target);
    }
    SortedFlagged(cs, k);
  }

  lemma SameAddrs(cs: seq<Candidate>, k: nat)
    requires k <= |cs|
    ensures Addrs(Flagged(cs, k)) == Addrs(cs) && (DistinctBy(cs, AddrOf) ==> DistinctBy(Flagged(cs, k), AddrOf))
  {
    var f := Flagged(cs, k);
    forall a ensures a in Addrs(f) <==> a in Addrs(cs) {
      if a in Addrs(f) {
        var i :| 0 <= i < |f| && f[i].addr == a;
        assert cs[i] in cs && cs[i].addr == a;
      }
      if a in Addrs(cs) {
        var i :| 0 <= i < |cs| && cs[i].addr == a;
        assert f[i] in f && f[i].addr == a;
      }
    }
    if DistinctBy(cs, AddrOf) {
      forall i, j | 0 <= i < j < |f| ensures AddrOf(f[i]) != AddrOf(f[j]) {
        assert AddrOf(cs[i]) != AddrOf(cs[j]);
      }
    }
  }

  lemma SortedFlagged(cs: seq<Candidate>, k: nat)
    requires k <= |cs| && SortedBy(cs, Closer)
    ensures SortedBy(Flagged(cs, k), Closer)
  {
    var f := Flagged(cs, k);
    forall i, j | 0 <= i < j < |f| ensures !Closer(f[j], f[i]) {
      assert !Closer(cs[j], cs[i]);
    }
  }

  lemma FarFlagged(id: Id, cs: seq<Candidate>, k: nat, target: Id)
    requires k <= |cs| && Far(id, cs, target)
    ensures Far(id, Flagged(cs, k), target)
  {
    var f := Flagged(cs, k);
    forall i | 0 <= i < |f| ensures !LexLess(XorBytes(id, target), f[i].dist) {
      assert f[i].dist == cs[i].dist;
    }
  }

  /** What a batch is in terms of addresses: the unclaimed ones among the first k, without repetition. */
  lemma {:induction false} BatchFacts(cs: seq<Candidate>, batch: seq<Candidate>, k: nat, admitted: Admitted,
                                      claimed: seq<Address>, target: Id)
    requires Entries(cs, admitted, claimed, target) && k <= |cs| && batch == Unqueried(cs[..k])
    requires NoRepeats(claimed)
    ensures forall i :: 0 <= i < |cs| ==> (cs[i].addr in AddrList(batch) <==> i < k && !cs[i].queried)
    ensures forall a :: a in AddrList(batch) ==> a in admitted && a !in claimed
    ensures NoRepeats(claimed + AddrList(batch))
    decreases k
  {
    hide XorBytes;
    if k == 0 {
      assert cs[..k] == [] && AddrList(batch) == [] && claimed + AddrList(batch) == claimed;
    } else {
      var c := cs[k - 1];
      assert cs[..k][..k - 1] == cs[..k - 1];
      var shorter := Unqueried(cs[..k - 1]);
      BatchFacts(cs, shorter, k - 1, admitted, claimed, target);
      assert Entry(c, admitted, claimed, target);
      if c.queried {
        assert batch == shorter;
      } else {
        assert AddrList(batch) == AddrList(shorter) + [c.addr];
        forall i | 0 <= i < |cs| ensures cs[i].addr == c.addr <==> i == k - 1 {
          assert i < k - 1 ==> AddrOf(cs[i]) != AddrOf(cs[k - 1]);
          assert k - 1 < i ==> AddrOf(cs[k - 1]) != AddrOf(cs[i]);
        }
        assert claimed + AddrList(batch) == (claimed + AddrList(shorter)) + [c.addr];
        assert c.addr !in claimed + AddrList(shorter);
      }
    }
  }

  // ----- The lookup -----

  datatype Peer = Peer(host: string, port: nat)

  /** What one reply does to the shared lists, under their lock. */
  datatype Op = Nodes(nodes: seq<Node>) | Peers(found: seq<Peer>)

  function AddUnseen(peers: seq<Peer>, found: seq<Peer>): seq<Peer> {
    if found == [] then peers
    else
      var before, p := AddUnseen(peers, found[..|found| - 1]), found[|found| - 1];
      if p in before then before else before + [p]
  }

  function AdmitAll(admitted: Admitted, ops: seq<Op>): Admitted {
    if ops == [] then admitted
    else
      var before := AdmitAll(admitted, ops[..|ops| - 1]);
      match ops[|ops| - 1] case Nodes(nodes) => Admit(before, nodes) case Peers(_) => before
  }

  function FindAll(peers: seq<Peer>, ops: seq<Op>): seq<Peer> {
    if ops == [] then peers
    else
      var before := FindAll(peers, ops[..|ops| - 1]);
      match ops[|ops| - 1] case Nodes(_) => before case Peers(found) => AddUnseen(before, found)
  }

  function Flatten(rounds: seq<seq<Op>>): seq<Op> {
    if rounds == [] then [] else Flatten(rounds[..|rounds| - 1]) + rounds[|rounds| - 1]
  }

  lemma {:induction false} AdmitAllSplit(admitted: Admitted, a: seq<Op>, b: seq<Op>)
    ensures AdmitAll(admitted, a + b) == AdmitAll(AdmitAll(admitted, a), b)
    ensures forall p :: FindAll(p, a + b) == FindAll(FindAll(p, a), b)
    decreases |b|
  {
    if b == [] {
      assert a + b == a;
    } else {
      assert (a + b)[..|a + b| - 1] == a + b[..|b| - 1];
      AdmitAllSplit(admitted, a, b[..|b| - 1]);
    }
  }

  // ----- What the lists hold, in terms of the replies -----

  /** x stands at a in list and nowhere before. */
  ghost predicate FirstAt<T(!new)>(list: seq<T>, a: nat, x: T) {
    a < |list| && list[a] == x && forall b :: 0 <= b < a ==> list[b] != x
  }

  /** From number k on, result has its elements in the order in which list first names them. */
  ghost predicate InOrderOf<T(!new)>(result: seq<T>, k: nat, list: seq<T>) {
    forall i: nat, j: nat, a: nat, b: nat :: k <= i < j < |result| && FirstAt(list, a, result[i]) && FirstAt(list, b, result[j])
                                             ==> a < b
  }

  lemma FirstAtAppend<T(!new)>(list: seq<T>, a: nat, x: T, y: T)
    ensures FirstAt(list + [y], a, x) <==> FirstAt(list, a, x) || (a == |list| && x == y && x !in list)
  {
    if FirstAt(list + [y], a, x) {
      forall b | 0 <= b < a ensures b < |list| ==> list[b] != x {
        assert (list + [y])[b] != x;
      }
    }
  }

  /** Exactly the unseen peers are appended, each once, in the order of their first occurrence. */
  lemma {:induction false} AddUnseenLaw(peers: seq<Peer>, found: seq<Peer>)
    ensures var r := AddUnseen(peers, found);
            && peers <= r && (NoRepeats(peers) ==> NoRepeats(r))
            && (forall p :: p in r <==> p in peers || p in found)
            && InOrderOf(r, |peers|, found)
    ensures forall i :: |peers| <= i < |AddUnseen(peers, found)| ==> AddUnseen(peers, found)[i] in found
  {
    if found != [] {
      var n := |found| - 1;
      var before, p := AddUnseen(peers, found[..n]), found[n];
      AddUnseenLaw(peers, found[..n]);
      assert found == found[..n] + [p];
      var r := AddUnseen(peers, found);
      forall i: nat, j: nat, a: nat, b: nat
        | |peers| <= i < j < |r| && FirstAt(found, a, r[i]) && FirstAt(found, b, r[j])
        ensures a < b
      {
        FirstAtAppend(found[..n], a, r[i], p);
        FirstAtAppend(found[..n], b, r[j], p);
      }
    }
  }

  lemma {:induction false} AdmitKeys(admitted: Admitted, nodes: seq<Node>, a: Address)
    ensures a in Admit(admitted, nodes) <==> a in admitted || exists i :: 0 <= i < |nodes| && nodes[i].addr == a
    ensures a in admitted ==> Admit(admitted, nodes)[a] == admitted[a]
  {
    if nodes != [] {
      var n := |nodes| - 1;
      AdmitKeys(admitted, nodes[..n], a);
      if i :| 0 <= i < n && nodes[..n][i].addr == a { assert nodes[i].addr == a; }
      if i :| 0 <= i < |nodes| && nodes[i].addr == a && i < n { assert nodes[..n][i].addr == a; }
      assert nodes[n].addr == a ==> a in Admit(admitted, nodes);
      assert forall i :: 0 <= i < n ==> nodes[..n][i] == nodes[i];
    }
  }

  lemma {:induction false} AdmitFirst(admitted: Admitted, nodes: seq<Node>, i: nat)
    requires i < |nodes| && nodes[i].addr !in admitted && forall j :: 0 <= j < i ==> nodes[j].addr != nodes[i].addr
    ensures nodes[i].addr in Admit(admitted, nodes) && Admit(admitted, nodes)[nodes[i].addr] == nodes[i].id
  {
    var n := |nodes| - 1;
    if i == n {
      AdmitKeys(admitted, nodes[..n], nodes[i].addr);
    } else {
      assert nodes[..n][i] == nodes[i] && forall j :: 0 <= j < i ==> nodes[..n][j] == nodes[j];
      AdmitFirst(admitted, nodes[..n], i);
    }
  }

  /** An address is admitted exactly if it was before or a node has it, and keeps the first identifier it came with. */
  lemma AdmitLaw(admitted: Admitted, nodes: seq<Node>)
    ensures var r := Admit(admitted, nodes);
            && (forall a :: a in r <==> a in admitted || exists i :: 0 <= i < |nodes| && nodes[i].addr == a)
            && (forall a | a in admitted :: r[a] == admitted[a])
            && (forall i: nat :: i < |nodes| && nodes[i].addr !in admitted
                                 && (forall j :: 0 <= j < i ==> nodes[j].addr != nodes[i].addr)
                                 ==> r[nodes[i].addr] == nodes[i].id)
  {
    hide Admit;
    forall a ensures a in Admit(admitted, nodes) <==> a in admitted || exists i :: 0 <= i < |nodes| && nodes[i].addr == a {
      AdmitKeys(admitted, nodes, a);
    }
    forall a | a in admitted ensures Admit(admitted, nodes)[a] == admitted[a] {
      AdmitKeys(admitted, nodes, a);
    }
    forall i: nat | i < |nodes| && nodes[i].addr !in admitted && forall j :: 0 <= j < i ==> nodes[j].addr != nodes[i].addr
      ensures nodes[i].addr in Admit(admitted, nodes) && Admit(admitted, nodes)[nodes[i].addr] == nodes[i].id
    {
      AdmitFirst(admitted, nodes, i);
    }
  }

  /** The peers, and the nodes, that the replies carry, reply after reply. */
  function PeersOf(ops: seq<Op>): seq<Peer> {
    if ops == [] then []
    else PeersOf(ops[..|ops| - 1]) + match ops[|ops| - 1] case Nodes(_) => [] case Peers(found) => found
  }

  function NodesOf(ops: seq<Op>): seq<Node> {
    if ops == [] then []
    else NodesOf(ops[..|ops| - 1]) + match ops[|ops| - 1] case Nodes(nodes) => nodes case Peers(_) => []
  }

  lemma {:induction false} AddUnseenSplit(peers: seq<Peer>, a: seq<Peer>, b: seq<Peer>)
    ensures AddUnseen(peers, a + b) == AddUnseen(AddUnseen(peers, a), b)
    decreases |b|
  {
    if b == [] {
      assert a + b == a;
    } else {
      assert (a + b)[..|a + b| - 1] == a + b[..|b| - 1];
      AddUnseenSplit(peers, a, b[..|b| - 1]);
    }
  }

  lemma {:induction false} AdmitSplit(admitted: Admitted, a: seq<Node>, b: seq<Node>)
    ensures Admit(admitted, a + b) == Admit(Admit(admitted, a), b)
    decreases |b|
  {
    if b == [] {
      assert a + b == a;
    } else {
      assert (a + b)[..|a + b| - 1] == a + b[..|b| - 1];
      AdmitSplit(admitted, a, b[..|b| - 1]);
    }
  }

  lemma {:induction false} OneByOne(admitted: Admitted, peers: seq<Peer>, ops: seq<Op>)
    ensures AdmitAll(admitted, ops) == Admit(admitted, NodesOf(ops))
    ensures FindAll(peers, ops) == AddUnseen(peers, PeersOf(ops))
  {
    if ops != [] {
      var most, op := ops[..|ops| - 1], ops[|ops| - 1];
      OneByOne(admitted, peers, most);
      match op
      case Nodes(nodes) =>
        AdmitSplit(admitted, NodesOf(most), nodes);
        assert PeersOf(ops) == PeersOf(most);
      case Peers(found) =>
        AddUnseenSplit(peers, PeersOf(most), found);
        assert NodesOf(ops) == NodesOf(most);
    }
  }

  /** Some reply of the rounds carries peer p. */
  ghost predicate Told(rounds: seq<seq<Op>>, p: Peer) {
    exists r, i :: 0 <= r < |rounds| && 0 <= i < |rounds[r]| && rounds[r][i].Peers? && p in rounds[r][i].found
  }

  /** Some reply of the rounds names a node with address a. */
  ghost predicate Named(rounds: seq<seq<Op>>, a: Address) {
    exists r, i, k :: 0 <= r < |rounds| && 0 <= i < |rounds[r]| && rounds[r][i].Nodes?
                      && 0 <= k < |rounds[r][i].nodes| && rounds[r][i].nodes[k].addr == a
  }

  lemma {:induction false} FlattenMembers(rounds: seq<seq<Op>>, op: Op)
    ensures op in Flatten(rounds) <==> exists r, i :: 0 <= r < |rounds| && 0 <= i < |rounds[r]| && rounds[r][i] == op
  {
    if rounds != [] {
      var n := |rounds| - 1;
      FlattenMembers(rounds[..n], op);
      if op in Flatten(rounds[..n]) {
        var r, i :| 0 <= r < n && 0 <= i < |rounds[..n][r]| && rounds[..n][r][i] == op;
        assert rounds[r][i] == op;
      }
      if op in rounds[n] {
        var i :| 0 <= i < |rounds[n]| && rounds[n][i] == op;
      }
      if r, i :| 0 <= r < |rounds| && 0 <= i < |rounds[r]| && rounds[r][i] == op {
        if r < n { assert rounds[..n][r][i] == op; }
      }
    }
  }

  lemma {:induction false} PeersOfMembers(ops: seq<Op>, p: Peer)
    ensures p in PeersOf(ops) <==> exists i :: 0 <= i < |ops| && ops[i].Peers? && p in ops[i].found
  {
    if ops != [] {
      var most := ops[..|ops| - 1];
      PeersOfMembers(most, p);
      if i :| 0 <= i < |most| && most[i].Peers? && p in most[i].found { assert ops[i] == most[i]; }
      if i :| 0 <= i < |ops| && ops[i].Peers? && p in ops[i].found {
        if i < |most| { assert most[i] == ops[i]; }
      }
    }
  }

  lemma {:induction false} NodesOfMembers(ops: seq<Op>, n: Node)
    ensures n in NodesOf(ops) <==> exists i :: 0 <= i < |ops| && ops[i].Nodes? && n in ops[i].nodes
  {
    if ops != [] {
      var most := ops[..|ops| - 1];
      NodesOfMembers(most, n);
      if i :| 0 <= i < |most| && most[i].Nodes? && n in most[i].nodes { assert ops[i] == most[i]; }
      if i :| 0 <= i < |ops| && ops[i].Nodes? && n in ops[i].nodes {
        if i < |most| { assert most[i] == ops[i]; }
      }
    }
  }

  /** What a lookup finds is what the replies carried, each peer once, in the order of their first mention. */
  lemma FindLaw(rounds: seq<seq<Op>>)
    ensures var r := FindAll([], Flatten(rounds));
            && NoRepeats(r) && (forall p :: p in r <==> Told(rounds, p))
            && InOrderOf(r, 0, PeersOf(Flatten(rounds)))
  {
    var ops, none: seq<Peer> := Flatten(rounds), [];
    assert NoRepeats(none);
    OneByOne(map[], [], ops);
    AddUnseenLaw([], PeersOf(ops));
    hide AddUnseen, FindAll, PeersOf, Flatten, AdmitAll, Admit, NodesOf, NoRepeats, InOrderOf;
    forall p ensures p in PeersOf(ops) <==> Told(rounds, p) {
      PeersOfMembers(ops, p);
      if i :| 0 <= i < |ops| && ops[i].Peers? && p in ops[i].found {
        FlattenMembers(rounds, ops[i]);
      }
      if r, i :| 0 <= r < |rounds| && 0 <= i < |rounds[r]| && rounds[r][i].Peers? && p in rounds[r][i].found {
        FlattenMembers(rounds, rounds[r][i]);
        var k :| 0 <= k < |ops| && ops[k] == rounds[r][i];
        assert ops[k].Peers?;
      }
    }
  }

  /** A lookup admits exactly the addresses of its seeds and of the nodes in the replies, with the identifier of the
      first mention. */
  lemma AdmittedLaw(seeds: seq<Node>, rounds: seq<seq<Op>>)
    ensures var all := AdmitAll(Admit(map[], seeds), Flatten(rounds));
            var named := seeds + NodesOf(Flatten(rounds));
            && (forall a :: a in all <==> (exists i :: 0 <= i < |seeds| && seeds[i].addr == a) || Named(rounds, a))
            && forall i: nat :: i < |named| && (forall j :: 0 <= j < i ==> named[j].addr != named[i].addr)
                                ==> named[i].addr in all && all[named[i].addr] == named[i].id
  {
    var ops := Flatten(rounds);
    var named := seeds + NodesOf(ops);
    OneByOne(Admit(map[], seeds), [], ops);
    AdmitSplit(map[], seeds, NodesOf(ops));
    AdmitLaw(map[], named);
    hide AddUnseen, FindAll, PeersOf, Flatten, AdmitAll, Admit, NodesOf;
    var all := AdmitAll(Admit(map[], seeds), ops);
    assert all == Admit(map[], named);
    forall a ensures a in all <==> (exists i :: 0 <= i < |seeds| && seeds[i].addr == a) || Named(rounds, a) {
      NamedLaw(seeds, rounds, ops, a);
      AdmitKeys(map[], named, a);
    }
  }

  lemma NamedLaw(seeds: seq<Node>, rounds: seq<seq<Op>>, ops: seq<Op>, a: Address)
    requires ops == Flatten(rounds)
    ensures (exists i :: 0 <= i < |seeds + NodesOf(ops)| && (seeds + NodesOf(ops))[i].addr == a)
            <==> (exists i :: 0 <= i < |seeds| && seeds[i].addr == a) || Named(rounds, a)
  {
    hide Flatten, NodesOf, Named;
    NamedIsTold(rounds, ops, a);
    var told := NodesOf(ops);
    var named := seeds + told;
    if i :| 0 <= i < |named| && named[i].addr == a {
      if i < |seeds| { assert seeds[i].addr == a; } else { assert told[i - |seeds|].addr == a; }
    }
    if i :| 0 <= i < |seeds| && seeds[i].addr == a { assert named[i].addr == a; }
    if i :| 0 <= i < |told| && told[i].addr == a { assert named[|seeds| + i].addr == a; }
  }

  lemma NamedIsTold(rounds: seq<seq<Op>>, ops: seq<Op>, a: Address)
    requires ops == Flatten(rounds)
    ensures (exists q :: 0 <= q < |NodesOf(ops)| && NodesOf(ops)[q].addr == a) <==> Named(rounds, a)
  {
    hide Flatten, NodesOf, Named;
    if q :| 0 <= q < |NodesOf(ops)| && NodesOf(ops)[q].addr == a { ToldIsNamed(rounds, ops, NodesOf(ops)[q]); }
    if Named(rounds, a) {
      var n := NamedNode(rounds, ops, a);
      var q :| 0 <= q < |NodesOf(ops)| && NodesOf(ops)[q] == n;
    }
  }

  lemma ToldIsNamed(rounds: seq<seq<Op>>, ops: seq<Op>, n: Node)
    requires ops == Flatten(rounds) && n in NodesOf(ops)
    ensures Named(rounds, n.addr)
  {
    hide Flatten, NodesOf;
    NodesOfMembers(ops, n);
    var k :| 0 <= k < |ops| && ops[k].Nodes? && n in ops[k].nodes;
    FlattenMembers(rounds, ops[k]);
    var r, q :| 0 <= r < |rounds| && 0 <= q < |rounds[r]| && rounds[r][q] == ops[k];
    var x :| 0 <= x < |rounds[r][q].nodes| && rounds[r][q].nodes[x] == n;
    assert rounds[r][q].nodes[x].addr == n.addr;
  }

  lemma NamedNode(rounds: seq<seq<Op>>, ops: seq<Op>, a: Address) returns (n: Node)
    requires ops == Flatten(rounds) && Named(rounds, a)
    ensures n in NodesOf(ops) && n.addr == a
  {
    hide Flatten, NodesOf;
    var r, i, k :| 0 <= r < |rounds| && 0 <= i < |rounds[r]| && rounds[r][i].Nodes?
                   && 0 <= k < |rounds[r][i].nodes| && rounds[r][i].nodes[k].addr == a;
    n := rounds[r][i].nodes[k];
    FlattenMembers(rounds, rounds[r][i]);
    var o :| 0 <= o < |ops| && ops[o] == rounds[r][i];
    assert ops[o].Nodes? && n in ops[o].nodes;
    NodesOfMembers(ops, n);
  }

  /** Why a lookup ended: out of time, no candidate left to query, or enough peers. */
  datatype Stop = Deadline | Exhausted | Enough

  lemma NothingYet(admitted: Admitted, peers: seq<Peer>)
    ensures AdmitAll(admitted, []) == admitted && FindAll(peers, []) == peers
  {
  }

  lemma NoRounds()
    ensures Flatten([]) == []
  {
  }

  lemma FlattenOneMore(rounds: seq<seq<Op>>, n: nat)
    requires n < |rounds|
    ensures Flatten(rounds[..n + 1]) == Flatten(rounds[..n]) + rounds[n]
  {
    assert rounds[..n + 1][..n] == rounds[..n];
  }

  lemma PrefixNoRepeats(a: seq<Address>, b: seq<Address>)
    requires a <= b && NoRepeats(b)
    ensures NoRepeats(a)
  {
  }

  lemma {:induction false} CountNoRepeats(s: seq<Address>, keys: set<Address>)
    requires NoRepeats(s) && forall a :: a in s ==> a in keys
    ensures |s| <= |keys|
  {
    if s != [] {
      var n := |s| - 1;
      CountNoRepeats(s[..n], keys - {s[n]});
    }
  }

  lemma EmptyBatch(cs: seq<Candidate>, batch: seq<Candidate>, k: nat, admitted: Admitted, claimed: seq<Address>, target: Id)
    requires Closest(cs, admitted, claimed, target) && IsBatch(cs, batch, k) && batch == []
    ensures k == |cs| && forall i :: 0 <= i < |cs| ==> cs[i].addr in claimed
  {
    assert cs[..k] == cs;
    forall i | 0 <= i < |cs| ensures cs[i].addr in claimed {
      UnqueriedMembers(cs, cs[i]);
      assert Entry(cs[i], admitted, claimed, target);
    }
  }

  lemma FlaggedAddrs(cs: seq<Candidate>, k: nat)
    requires k <= |cs|
    ensures |Flagged(cs, k)| == |cs| && forall i :: 0 <= i < |cs| ==> Flagged(cs, k)[i].addr == cs[i].addr
  {
  }

  lemma AdmitNone(admitted: Admitted)
    ensures Admit(admitted, []) == admitted
  {
  }

  lemma AdmitOneMore(admitted: Admitted, nodes: seq<Node>, i: nat)
    requires i < |nodes|
    ensures Admit(admitted, nodes[..i + 1])
            == var before := Admit(admitted, nodes[..i]);
               if nodes[i].addr in before then before else before[nodes[i].addr := nodes[i].id]
  {
    assert nodes[..i + 1][..i] == nodes[..i];
  }

  class Lookup {
    const target: Id
    var seenAddrs: set<Address>
    var seenPeers: set<Peer>
    var peers: seq<Peer>
    var candidates: seq<Candidate>
    ghost var admitted: Admitted
    ghost var claimed: seq<Address>   // the addresses put into batches, in order

    ghost predicate Valid()
      reads this
    {
      && seenAddrs == admitted.Keys
      && Closest(candidates, admitted, claimed, target)
      && NoRepeats(claimed) && (forall a :: a in claimed ==> a in admitted)
      && seenPeers == (set p | p in peers) && NoRepeats(peers)
    }

    constructor (target: Id)
      ensures Valid() && this.target == target
      ensures admitted == map[] && claimed == [] && peers == [] && candidates == []
    {
      this.target := target;
      seenAddrs, seenPeers, peers, candidates, admitted, claimed := {}, {}, [], [], map[], [];
    }

    method AddNodes(nodes: seq<Node>)
      requires Valid()
      modifies this`seenAddrs, this`candidates, this`admitted
      ensures Valid() && admitted == Admit(old(admitted), nodes)
      ensures forall a :: a in seenAddrs <==> a in old(seenAddrs) || exists i :: 0 <= i < |nodes| && nodes[i].addr == a
    {
      hide Entries, Far, Addrs, XorBytes, Closest, Pool, Closer, DistinctBy, SortedBy, StrictWeakOrder, Admit;
      var pending := candidates;
      ghost var was, before := candidates, admitted;
      PoolStart(was, before, claimed, target);
      AdmitNone(before);
      assert nodes[..0] == [];
      for i := 0 to |nodes|
        invariant admitted == Admit(before, nodes[..i]) && seenAddrs == admitted.Keys && before.Keys <= admitted.Keys
        invariant Pool(pending, admitted, was, before, claimed, target)
      {
        var n := nodes[i];
        AdmitOneMore(before, nodes, i);
        if n.addr in seenAddrs {
          continue;
        }
        PoolStep(pending, admitted, was, before, claimed, target, n);
        seenAddrs := seenAddrs + {n.addr};
        var dist := XorDist(n.id, target);
        pending := pending + [Candidate(n.id, n.addr, dist, false)];
        admitted := admitted[n.addr := n.id];
      }
      assert nodes[..|nodes|] == nodes;
      CloserIsWeakOrder();
      var sorted := SortBy(pending, Closer);
      CutKeepsClosest(pending, sorted, admitted, was, before, claimed, target);
      assert forall a :: a in admitted <==> a in before || exists i :: 0 <= i < |nodes| && nodes[i].addr == a by {
        AdmitLaw(before, nodes);
      }
      candidates := if |sorted| > MAX_CANDIDATES then sorted[..MAX_CANDIDATES] else sorted;
      assert sorted[..|sorted|] == sorted;
    }

    method AddPeers(found: seq<Peer>)
      requires Valid()
      modifies this`seenPeers, this`peers
      ensures Valid() && peers == AddUnseen(old(peers), found)
      ensures old(peers) <= peers && InOrderOf(peers, |old(peers)|, found)
      ensures forall p :: p in peers <==> p in old(peers) || p in found
    {
      hide InOrderOf;
      AddUnseenLaw(peers, found);
      for i := 0 to |found|
        invariant seenPeers == (set p | p in peers) && NoRepeats(peers)
        invariant peers == AddUnseen(old(peers), found[..i])
      {
        assert found[..i + 1][..i] == found[..i];
        if found[i] !in seenPeers {
          seenPeers := seenPeers + {found[i]};
          peers := peers + [found[i]];
        }
      }
      assert found[..|found|] == found;
    }

    /** Marks and returns the first three candidates not yet queried. */
    method SelectBatch() returns (batch: seq<Candidate>, ghost k: nat)
      requires Valid()
      modifies this`candidates, this`claimed
      ensures Valid() && IsBatch(old(candidates), batch, k)
      ensures candidates == Flagged(old(candidates), k)
      ensures claimed == old(claimed) + AddrList(batch)
    {
      hide Closest, Entries;
      batch := [];
      ghost var start := candidates;
      var i := 0;
      while i < |candidates|
        invariant 0 <= i <= |candidates| == |start| && claimed == old(claimed)
        invariant candidates == Flagged(start, i)
        invariant batch == Unqueried(start[..i]) && |batch| < ALPHA
      {
        assert start[..i + 1][..i] == start[..i];
        var c := candidates[i];
        i := i + 1;
        if !c.queried {
          candidates := candidates[i - 1 := c.(queried := true)];
          batch := batch + [c];
          if |batch| >= ALPHA {
            break;
          }
        }
        assert candidates == Flagged(start, i);
      }
      k := i;
      assert candidates == Flagged(start, k);
      ClaimKeepsClosest(start, batch, k, admitted, claimed, target);
      claimed := claimed + AddrList(batch);
    }

    /** The replies of one round, in the order in which they get hold of the lock. */
    method ApplyReplies(ops: seq<Op>)
      requires Valid()
      modifies this
      ensures Valid() && claimed == old(claimed)
      ensures admitted == AdmitAll(old(admitted), ops) && peers == FindAll(old(peers), ops)
    {
      hide Closest, Admit, AddUnseen;
      for i := 0 to |ops|
        invariant Valid() && claimed == old(claimed)
        invariant admitted == AdmitAll(old(admitted), ops[..i]) && peers == FindAll(old(peers), ops[..i])
      {
        assert ops[..i + 1][..i] == ops[..i];
        match ops[i]
        case Nodes(nodes) => AddNodes(nodes);
        case Peers(found) => AddPeers(found);
      }
      assert ops[..|ops|] == ops;
    }

    /** The lookup over the rounds that the deadline leaves time for. */
    method GetPeers(seeds: seq<Node>, rounds: seq<seq<Op>>, maxPeers: int)
      returns (result: Option<seq<Peer>>, ghost n: nat, ghost contacted: seq<Address>, ghost stop: Stop)
      requires Valid() && admitted == map[] && claimed == [] && peers == []
      modifies this
      ensures Valid() && n <= |rounds|
      ensures admitted == AdmitAll(Admit(map[], seeds), Flatten(rounds[..n]))
      ensures peers == FindAll([], Flatten(rounds[..n]))
      ensures result == if peers == [] then None else Some(peers)
      ensures result.None? <==> forall p :: !Told(rounds[..n], p)
      ensures result.Some? ==>
                && NoRepeats(result.value) && (forall p :: p in result.value <==> Told(rounds[..n], p))
                && InOrderOf(result.value, 0, PeersOf(Flatten(rounds[..n])))
      ensures forall a :: a in seenAddrs <==> (exists i :: 0 <= i < |seeds| && seeds[i].addr == a) || Named(rounds[..n], a)
      ensures forall r :: 0 <= r < n ==> |FindAll([], Flatten(rounds[..r]))| < maxPeers
      ensures contacted <= claimed && NoRepeats(contacted) && n <= |contacted| <= |admitted|
      ensures match stop
              case Deadline => n == |rounds|
              case Enough => |peers| >= maxPeers
              case Exhausted => forall i :: 0 <= i < |candidates| ==> candidates[i].addr in contacted
    {
      hide Closest, Admit, AdmitAll, FindAll, NoRepeats, IsBatch, Unqueried, Flagged, Flatten, PeersOf, Told, Named, InOrderOf;
      n, contacted, stop := 0, [], Deadline;
      AddNodes(seeds);
      NothingYet(admitted, peers);
      NoRounds();
      assert rounds[..0] == [];
      for round := 0 to |rounds|
        invariant Valid() && n == round && contacted == claimed && n <= |contacted|
        invariant admitted == AdmitAll(Admit(map[], seeds), Flatten(rounds[..n]))
        invariant peers == FindAll([], Flatten(rounds[..n]))
        invariant stop == Deadline
        invariant forall r :: 0 <= r < n ==> |FindAll([], Flatten(rounds[..r]))| < maxPeers
      {
        var numPeers := |peers|;
        ghost var was := candidates;
        var batch, k := SelectBatch();
        if |batch| == 0 || numPeers >= maxPeers {
          stop := if |batch| == 0 then Exhausted else Enough;
          if |batch| == 0 {
            EmptyBatch(was, batch, k, admitted, contacted, target);
            FlaggedAddrs(was, k);
          }
          break;
        }
        contacted := contacted + AddrList(batch);
        ApplyReplies(rounds[round]);
        assert rounds[..round + 1][..round] == rounds[..round];
        AdmitAllSplit(Admit(map[], seeds), Flatten(rounds[..n]), rounds[round]);
        FlattenOneMore(rounds, n);
        n := n + 1;
      }
      assert rounds[..|rounds|] == rounds;
      PrefixNoRepeats(contacted, claimed);
      CountNoRepeats(contacted, admitted.Keys);
      assert |admitted| == |admitted.Keys|;
      result := if peers == [] then None else Some(peers);
      FindLaw(rounds[..n]);
      AdmittedLaw(seeds, rounds[..n]);
      assert peers != [] ==> peers[0] in peers;
    }
  }
}
