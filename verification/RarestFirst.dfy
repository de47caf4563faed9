/** The order in which pieces are first queued. */
module RarestFirst {
  import opened Bytes
  import opened Bitfield
  import opened Sorting

  const PROBE_LIMIT := 24

  /** A peer's answer to the bitfield probe; None when the probe failed. */
  type Probe = Option<Bytes>

  function CountHolders(probes: seq<Probe>, piece: nat): nat {
    if probes == [] then 0
    else
      CountHolders(probes[..|probes| - 1], piece)
      + (var p := probes[|probes| - 1]; if p.Some? && HasPiece(p.value, piece) then 1 else 0)
  }

  function At(availability: seq<nat>, piece: int): nat {
    if 0 <= piece < |availability| then availability[piece] else 0
  }

  /** The comparator given to sort.Slice. */
  predicate Before(availability: seq<nat>, a: int, b: int) {
    var (x, y) := (At(availability, a), At(availability, b));
    if x == y then a < b
    else if x == 0 then false
    else if y == 0 then true
    else x < y
  }

  /** The comparator is a strict total order: rarer pieces first, unseen ones last, ties by index. */
  lemma BeforeIsTotal(availability: seq<nat>)
    ensures StrictWeakOrder((a, b) => Before(availability, a, b))
    ensures forall a, b :: a != b ==> Before(availability, a, b) || Before(availability, b, a)
  {
  }

  function Indices(n: nat): (s: seq<int>)
    ensures |s| == n && forall i :: 0 <= i < n ==> s[i] == i
  {
    seq(n, i => i)
  }

  ghost predicate IsOrderOf(order: seq<int>, availability: seq<nat>) {
    && multiset(order) == multiset(Indices(|availability|))
    && forall i, j :: 0 <= i < j < |order| ==> Before(availability, order[i], order[j])
  }

  method BuildOrder(n: nat, probes: seq<Probe>) returns (order: seq<int>)
    ensures var limit := if |probes| > 24 then 24 else |probes|;
            IsOrderOf(order, seq(n, i requires 0 <= i => CountHolders(probes[..limit], i)))
  {
    var limit := if |probes| > PROBE_LIMIT then PROBE_LIMIT else |probes|;
    var availability := new nat[n](_ => 0);
    for i := 0 to limit
      invariant forall p :: 0 <= p < n ==> availability[p] == CountHolders(probes[..i], p)
    {
      assert probes[..i + 1][..i] == probes[..i];
      if probes[i].None? || probes[i].value == [] {
        continue;
      }
      for p := 0 to n
        invariant forall q :: 0 <= q < p ==> availability[q] == CountHolders(probes[..i + 1], q)
        invariant forall q :: p <= q < n ==> availability[q] == CountHolders(probes[..i], q)
      {
        if HasPiece(probes[i].value, p) {
          availability[p] := availability[p] + 1;
        }
      }
    }
    var counts := availability[..];
    assert counts == seq(n, i requires 0 <= i => CountHolders(probes[..limit], i));
    BeforeIsTotal(counts);
    order := SortBy(Indices(n), (a, b) => Before(counts, a, b));
    SortedIsStrict(order, counts);
  }

  lemma {:induction false} IndicesOnce(n: nat, p: int)
    ensures multiset(Indices(n))[p] == if 0 <= p < n then 1 else 0
  {
    if n > 0 {
      IndicesOnce(n - 1, p);
      assert Indices(n) == Indices(n - 1) + [n - 1];
    } else {
      assert Indices(0) == [];
    }
  }

  lemma SortedIsStrict(order: seq<int>, availability: seq<nat>)
    requires SortedBy(order, (a, b) => Before(availability, a, b))
    requires multiset(order) == multiset(Indices(|availability|))
    ensures IsOrderOf(order, availability)
  {
    forall i, j | 0 <= i < j < |order| ensures Before(availability, order[i], order[j]) {
      IndicesOnce(|availability|, order[i]);
      if order[i] == order[j] { TwiceCounted(order, i, j); }
    }
  }

  /** Every piece is in the order exactly once, and nothing else is. */
  lemma OrderIsPermutation(order: seq<int>, availability: seq<nat>)
    requires IsOrderOf(order, availability)
    ensures |order| == |availability|
    ensures forall p :: p in order <==> 0 <= p < |availability|
    ensures forall i, j :: 0 <= i < j < |order| ==> order[i] != order[j]
  {
    var m := multiset(order);
    assert |m| == |multiset(Indices(|availability|))|;
    forall p ensures p in order <==> 0 <= p < |availability| {
      IndicesOnce(|availability|, p);
      assert p in order <==> p in m;
    }
  }

  lemma SameFirst(a: seq<int>, b: seq<int>, availability: seq<nat>)
    requires multiset(a) == multiset(b) && a != [] && b != []
    requires forall j :: 0 < j < |a| ==> Before(availability, a[0], a[j])
    requires forall j :: 0 < j < |b| ==> Before(availability, b[0], b[j])
    ensures a[0] == b[0]
  {
    assert a[0] in multiset(b) && b[0] in multiset(a);
    assert Before(availability, b[0], a[0]) || a[0] == b[0];
    assert Before(availability, a[0], b[0]) || a[0] == b[0];
  }

  /** The order is determined by the availability counts. */
  lemma {:induction false} OrderUnique(a: seq<int>, b: seq<int>, availability: seq<nat>)
    requires multiset(a) == multiset(b)
    requires forall i, j :: 0 <= i < j < |a| ==> Before(availability, a[i], a[j])
    requires forall i, j :: 0 <= i < j < |b| ==> Before(availability, b[i], b[j])
    ensures a == b
  {
    hide Before;
    assert |a| == |multiset(a)| == |multiset(b)| == |b|;
    if a != [] {
      SameFirst(a, b, availability);
      TailMultiset(a);
      TailMultiset(b);
      OrderUnique(a[1..], b[1..], availability);
    }
  }

  lemma TailMultiset(a: seq<int>)
    requires a != []
    ensures multiset(a[1..]) == multiset(a) - multiset{a[0]}
    ensures a == [a[0]] + a[1..]
  {
    assert a == [a[0]] + a[1..];
  }

  // ----- In terms of the counts -----

  /** Rare pieces come before common ones, pieces nobody has last, and equally rare ones by index. */
  lemma RareBeforeCommon(order: seq<int>, availability: seq<nat>, i: nat, j: nat)
    requires IsOrderOf(order, availability) && i < j < |order|
    ensures 0 <= order[i] < |availability| && 0 <= order[j] < |availability|
    ensures var x, y := availability[order[i]], availability[order[j]];
            && (y > 0 ==> 0 < x <= y)
            && (x == y ==> order[i] < order[j])
  {
    OrderIsPermutation(order, availability);
    assert order[i] in order && order[j] in order;
    assert Before(availability, order[i], order[j]);
  }

  function HolderSet(probes: seq<Probe>, piece: nat): set<int> {
    set i | 0 <= i < |probes| && probes[i].Some? && HasPiece(probes[i].value, piece)
  }

  /** The count of a piece is the number of probed peers whose bitfield has it. */
  lemma {:induction false} CountsHolders(probes: seq<Probe>, piece: nat)
    ensures CountHolders(probes, piece) == |set i | 0 <= i < |probes| && probes[i].Some? && HasPiece(probes[i].value, piece)|
  {
    hide HasPiece;
    assert HolderSet(probes, piece)
           == set i | 0 <= i < |probes| && probes[i].Some? && HasPiece(probes[i].value, piece);
    if probes == [] {
      assert HolderSet(probes, piece) == {};
    } else {
      var n := |probes| - 1;
      CountsHolders(probes[..n], piece);
      assert HolderSet(probes, piece)
             == HolderSet(probes[..n], piece) + if probes[n].Some? && HasPiece(probes[n].value, piece) then {n} else {};
      assert n !in HolderSet(probes[..n], piece);
    }
  }
}
