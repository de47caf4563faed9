/** Tit-for-tat unchoking in rounds. */
module Choke {
  import opened Numbers
  import opened Sorting

  /** A peer's host:port string. */
  datatype PeerKey = PeerKey(addr: string)

  datatype PeerStats = PeerStats(bytesUploaded: int, bytesDownloaded: int, lastActive: int, totalUploaded: int, choked: bool)

  datatype Ranked = Ranked(key: PeerKey, stats: PeerStats)

  /** sortPeersByDownloadRate's comparator: more downloaded from, then more uploaded to, then more recently active. */
  predicate RanksAbove(a: PeerStats, b: PeerStats) {
    if a.bytesDownloaded != b.bytesDownloaded then a.bytesDownloaded > b.bytesDownloaded
    else if a.totalUploaded != b.totalUploaded then a.totalUploaded > b.totalUploaded
    else a.lastActive > b.lastActive
  }

  /** k gave us no more than u did; with equal amounts it got no more from us; with these equal too it was not
      active more recently. */
  predicate NoBetter(k: PeerStats, u: PeerStats) {
    && k.bytesDownloaded <= u.bytesDownloaded
    && (k.bytesDownloaded == u.bytesDownloaded ==>
          && k.totalUploaded <= u.totalUploaded
          && (k.totalUploaded == u.totalUploaded ==> k.lastActive <= u.lastActive))
  }

  /** The comparator is a strict weak order, and it is the one by bytes received, bytes sent and recency. */
  lemma RankingIsWeakOrder()
    ensures StrictWeakOrder((a: Ranked, b: Ranked) => RanksAbove(a.stats, b.stats))
    ensures forall a, b :: RanksAbove(a, b) <==> !NoBetter(a, b)
  {
  }

  /** The peers that are not choked. */
  function Unchoked(peers: map<PeerKey, PeerStats>): set<PeerKey> {
    set k | k in peers && !peers[k].choked
  }

  /** r lists the peers of m, each once, best first. */
  ghost predicate IsRanking(m: map<PeerKey, PeerStats>, r: seq<PeerKey>) {
    && (forall k :: k in m <==> k in r)
    && (forall i, j :: 0 <= i < j < |r| ==> r[i] != r[j])
    && (forall i, j :: 0 <= i < j < |r| ==> r[i] in m && r[j] in m && !RanksAbove(m[r[j]], m[r[i]]))
  }

  function SetOf(r: seq<PeerKey>): set<PeerKey> { set k | k in r }

  /** The table after a round that unchokes exactly chosen: round counters reset, the rest kept. */
  function AfterRound(m: map<PeerKey, PeerStats>, chosen: set<PeerKey>): map<PeerKey, PeerStats> {
    map k | k in m :: m[k].(bytesUploaded := 0, bytesDownloaded := 0, choked := k !in chosen)
  }

  /** keys is the set listed without repetition. */
  ghost predicate Lists(keys: seq<PeerKey>, s: set<PeerKey>) {
    && (forall k :: k in keys <==> k in s)
    && (forall i, j :: 0 <= i < j < |keys| ==> keys[i] != keys[j])
  }

  predicate IsOptimistic(round: int, interval: int, limit: int, n: int) {
    limit > 0 && interval > 0 && round % interval == 0 && n > limit
  }

  /** The optimistic pick: the best peer below the cut that is not the last pick, or the first below the cut. */
  function Pick(ranking: seq<PeerKey>, limit: nat, last: PeerKey, from: nat): (i: nat)
    requires limit <= from <= |ranking| && limit < |ranking|
    ensures limit <= i < |ranking|
    decreases |ranking| - from
  {
    if from == |ranking| then limit
    else if ranking[from] != last then from
    else Pick(ranking, limit, last, from + 1)
  }

  /** The peers a round unchokes: the top ones, in an optimistic round with the last of them replaced. */
  function Chosen(ranking: seq<PeerKey>, limit: nat, optimistic: bool, last: PeerKey): set<PeerKey>
    requires limit <= |ranking| && (optimistic ==> 0 < limit < |ranking|)
  {
    if optimistic then SetOf(ranking[..limit - 1]) + {ranking[Pick(ranking, limit, last, limit)]}
    else SetOf(ranking[..limit])
  }

  /** What the round remembers as its optimistic pick. */
  function LastPick(ranking: seq<PeerKey>, limit: nat, optimistic: bool, last: PeerKey): PeerKey
    requires optimistic ==> 0 < limit < |ranking|
  {
    if optimistic then ranking[Pick(ranking, limit, last, limit)] else if limit == 0 then PeerKey("") else last
  }

  lemma {:induction false} SetOfSize(r: seq<PeerKey>)
    requires forall i, j :: 0 <= i < j < |r| ==> r[i] != r[j]
    ensures |SetOf(r)| == |r|
  {
    if r == [] {
      assert SetOf(r) == {};
    } else {
      var n := |r| - 1;
      SetOfSize(r[..n]);
      assert SetOf(r) == SetOf(r[..n]) + {r[n]};
    }
  }

  lemma TopMembers(r: seq<PeerKey>, n: nat)
    requires n <= |r|
    ensures forall i :: 0 <= i < n ==> r[i] in SetOf(r[..n])
  {
    forall i | 0 <= i < n ensures r[i] in SetOf(r[..n]) {
      assert r[..n][i] == r[i];
    }
  }

  /** The number of peers unchoked is the number of slots, or of peers if there are fewer. */
  lemma ChosenSize(m: map<PeerKey, PeerStats>, ranking: seq<PeerKey>, limit: nat, optimistic: bool, last: PeerKey)
    requires IsRanking(m, ranking) && limit <= |ranking| && (optimistic ==> 0 < limit < |ranking|)
    ensures |Chosen(ranking, limit, optimistic, last)| == limit
    ensures Chosen(ranking, limit, optimistic, last) <= m.Keys
  {
    if optimistic {
      SetOfSize(ranking[..limit - 1]);
      var i := Pick(ranking, limit, last, limit);
      assert ranking[i] !in SetOf(ranking[..limit - 1]);
    } else {
      SetOfSize(ranking[..limit]);
    }
  }

  /** In an ordinary round no peer left choked did better by us than one that is unchoked. */
  lemma OrdinaryRoundIsFair(m: map<PeerKey, PeerStats>, ranking: seq<PeerKey>, limit: nat, last: PeerKey,
                            u: PeerKey, k: PeerKey)
    requires IsRanking(m, ranking) && limit <= |ranking|
    requires u in Chosen(ranking, limit, false, last) && k in m && k !in Chosen(ranking, limit, false, last)
    ensures u in m && NoBetter(m[k], m[u])
  {
    var i :| 0 <= i < limit && ranking[i] == u;
    var j :| 0 <= j < |ranking| && ranking[j] == k;
    TopMembers(ranking, limit);
  }

  /** In an optimistic round only the pick may have done worse by us than a choked peer. */
  lemma OptimisticRoundIsFair(m: map<PeerKey, PeerStats>, ranking: seq<PeerKey>, limit: nat, last: PeerKey,
                              u: PeerKey, k: PeerKey)
    requires IsRanking(m, ranking) && 0 < limit < |ranking|
    requires var pick := ranking[Pick(ranking, limit, last, limit)]; u != pick
    requires u in Chosen(ranking, limit, true, last) && k in m && k !in Chosen(ranking, limit, true, last)
    ensures u in m && NoBetter(m[k], m[u])
  {
    var i :| 0 <= i < limit - 1 && ranking[i] == u;
    var j :| 0 <= j < |ranking| && ranking[j] == k;
    TopMembers(ranking, limit - 1);
  }

  /** A round is optimistic when its number is a multiple of the interval and some peer has no slot. */
  lemma OptimisticRounds(round: int, interval: int, limit: int, n: int)
    ensures IsOptimistic(round, interval, limit, n)
            <==> 0 < limit < n && interval > 0 && exists q: int :: round == interval * q
  {
    if interval > 0 {
      if round % interval == 0 { assert round == interval * (round / interval); }
      if q: int :| round == interval * q { MultipleHasNoRest(interval, q); }
    }
  }

  lemma MultipleHasNoRest(d: int, q: int)
    requires d > 0
    ensures (d * q) % d == 0
  {
    var r, k := (d * q) % d, (d * q) / d;
    assert r == d * q - d * k == d * (q - k) && 0 <= r < d;
    assert q - k >= 1 ==> d * (q - k) >= d;
    assert q - k <= -1 ==> d * (q - k) <= -d;
  }

  /** The pick is the first peer below the cut other than the last pick; if there is none, the first below the cut. */
  lemma PickIsFirstOther(ranking: seq<PeerKey>, limit: nat, last: PeerKey)
    requires limit < |ranking|
    ensures var i := Pick(ranking, limit, last, limit);
            if ranking[i] == last then i == limit && forall j :: limit <= j < |ranking| ==> ranking[j] == last
            else forall j :: limit <= j < i ==> ranking[j] == last
  {
    PickFrom(ranking, limit, last, limit);
  }

  lemma {:induction false} PickFrom(ranking: seq<PeerKey>, limit: nat, last: PeerKey, from: nat)
    requires limit <= from <= |ranking| && limit < |ranking|
    requires forall j :: limit <= j < from ==> ranking[j] == last
    ensures var i := Pick(ranking, limit, last, from);
            if ranking[i] == last then i == limit && forall j :: limit <= j < |ranking| ==> ranking[j] == last
            else forall j :: limit <= j < i ==> ranking[j] == last
    decreases |ranking| - from
  {
    if from < |ranking| && ranking[from] == last { PickFrom(ranking, limit, last, from + 1); }
  }

  /** The pick repeats only when it is the single peer below the cut. */
  lemma {:induction false} PickRotates(ranking: seq<PeerKey>, limit: nat, last: PeerKey, from: nat)
    requires limit <= from <= |ranking| && limit < |ranking|
    requires forall i, j :: 0 <= i < j < |ranking| ==> ranking[i] != ranking[j]
    requires forall i :: limit <= i < from ==> ranking[i] == last
    ensures ranking[Pick(ranking, limit, last, from)] == last ==> |ranking| == limit + 1
    decreases |ranking| - from
  {
    if from < |ranking| && ranking[from] == last {
      PickRotates(ranking, limit, last, from + 1);
    } else if from == |ranking| {
      assert |ranking| > limit + 1 ==> ranking[limit + 1] == last;
    }
  }

  /** active lists the entries of m, each once. */
  ghost predicate Yields(m: map<PeerKey, PeerStats>, active: seq<Ranked>) {
    && (forall k :: k in m <==> exists i :: 0 <= i < |active| && active[i].key == k)
    && (forall i :: 0 <= i < |active| ==> active[i].key in m && active[i].stats == m[active[i].key])
  }

  /** m with the flags of the peers in done set for a round that unchokes exactly unchoked. */
  function Flagged(m: map<PeerKey, PeerStats>, unchoked: set<PeerKey>, done: set<PeerKey>): map<PeerKey, PeerStats> {
    map k | k in m :: if k in done then m[k].(choked := k !in unchoked) else m[k]
  }

  lemma SortedIsRanking(m: map<PeerKey, PeerStats>, active: seq<Ranked>, sorted: seq<Ranked>, r: seq<PeerKey>)
    requires Yields(m, active) && (forall x :: x in sorted <==> x in active)
    requires DistinctBy(sorted, (a: Ranked) => a.key)
    requires SortedBy(sorted, (a: Ranked, b: Ranked) => RanksAbove(a.stats, b.stats))
    requires |r| == |sorted| && forall i :: 0 <= i < |r| ==> r[i] == sorted[i].key
    ensures IsRanking(m, r)
  {
    forall i | 0 <= i < |r| ensures r[i] in m && m[r[i]] == sorted[i].stats {
      assert sorted[i] in active;
    }
    forall k ensures k in m <==> k in r {
      if k in m {
        var i :| 0 <= i < |active| && active[i].key == k;
        assert active[i] in sorted;
        var j :| 0 <= j < |sorted| && sorted[j] == active[i];
        assert r[j] == k;
      }
    }
  }

  /** Those of done that a round unchoking exactly unchoked turns from choked to unchoked, and the other way round. */
  function Opened(m: map<PeerKey, PeerStats>, unchoked: set<PeerKey>, done: set<PeerKey>): set<PeerKey> {
    set k | k in done && k in m && k in unchoked && m[k].choked
  }

  function Closed(m: map<PeerKey, PeerStats>, unchoked: set<PeerKey>, done: set<PeerKey>): set<PeerKey> {
    set k | k in done && k in m && k !in unchoked && !m[k].choked
  }

  lemma ListOneMore(keys: seq<PeerKey>, s: set<PeerKey>, k: PeerKey)
    requires Lists(keys, s) && k !in s
    ensures Lists(keys + [k], s + {k})
  {
    assert forall x :: x in keys + [k] <==> x in keys || x == k;
  }

  lemma FlagOne(m: map<PeerKey, PeerStats>, unchoked: set<PeerKey>, done: set<PeerKey>, k: PeerKey)
    requires k in m && k !in done
    ensures k !in Opened(m, unchoked, done) && k !in Closed(m, unchoked, done)
    ensures Opened(m, unchoked, done + {k})
            == if k in unchoked && m[k].choked then Opened(m, unchoked, done) + {k} else Opened(m, unchoked, done)
    ensures Closed(m, unchoked, done + {k})
            == if k !in unchoked && !m[k].choked then Closed(m, unchoked, done) + {k} else Closed(m, unchoked, done)
    ensures Flagged(m, unchoked, done)[k := m[k].(choked := k !in unchoked)] == Flagged(m, unchoked, done + {k})
    ensures Flagged(m, unchoked, done)[k] == m[k]
  {
  }

  lemma RoundEffect(m: map<PeerKey, PeerStats>, unchoked: set<PeerKey>)
    requires unchoked <= m.Keys
    ensures var f := Flagged(m, unchoked, m.Keys);
            && Unchoked(f) == unchoked == Unchoked(AfterRound(m, unchoked))
            && (map k | k in f :: f[k].(bytesUploaded := 0, bytesDownloaded := 0)) == AfterRound(m, unchoked)
    ensures Opened(m, unchoked, m.Keys) == unchoked - Unchoked(m)
    ensures Closed(m, unchoked, m.Keys) == Unchoked(m) - unchoked
  {
  }

  lemma NothingFlagged(m: map<PeerKey, PeerStats>, unchoked: set<PeerKey>)
    ensures Flagged(m, unchoked, {}) == m
    ensures Lists([], Opened(m, unchoked, {})) && Lists([], Closed(m, unchoked, {}))
  {
  }

  lemma NothingListed()
    ensures Lists([], {})
  {
  }

  lemma RankingIsDistinct(m: map<PeerKey, PeerStats>, r: seq<PeerKey>)
    requires IsRanking(m, r)
    ensures forall i, j :: 0 <= i < j < |r| ==> r[i] != r[j]
  {
  }

  /** The remembered pick stays the same over an optimistic round exactly when no other peer is below the cut. */
  lemma PickRepeatsIff(ranking: seq<PeerKey>, limit: nat, last: PeerKey)
    requires 0 < limit < |ranking|
    requires forall i, j :: 0 <= i < j < |ranking| ==> ranking[i] != ranking[j]
    ensures LastPick(ranking, limit, true, last) == last <==> ranking[limit..] == [last]
  {
    PickRotates(ranking, limit, last, limit);
    if ranking[limit..] == [last] {
      assert ranking[limit] == ranking[limit..][0];
    }
    if LastPick(ranking, limit, true, last) == last {
      assert ranking[limit..] == [ranking[limit]];
    }
  }

  /** Whom a round from the table m to the table m' unchokes, in terms of the statistics. slots is the number of
      peers that can be unchoked, and pick the peer of an optimistic round. */
  ghost predicate RoundIsFair(m: map<PeerKey, PeerStats>, m': map<PeerKey, PeerStats>, slots: nat, optimistic: bool,
                              pick: PeerKey) {
    && m'.Keys == m.Keys
    && |set k | k in m' && !m'[k].choked| == slots
    && (forall k | k in m' :: m'[k] == m[k].(bytesUploaded := 0, bytesDownloaded := 0, choked := m'[k].choked))
    && (optimistic ==> pick in m' && !m'[pick].choked)
    && (forall u, k | u in m' && k in m' && !m'[u].choked && m'[k].choked ::
          (optimistic && u == pick) || NoBetter(m[k], m[u]))
  }

  lemma RoundFairness(m: map<PeerKey, PeerStats>, ranking: seq<PeerKey>, limit: nat, optimistic: bool, last: PeerKey)
    requires IsRanking(m, ranking) && limit <= |ranking| && (optimistic ==> 0 < limit < |ranking|)
    ensures RoundIsFair(m, AfterRound(m, Chosen(ranking, limit, optimistic, last)), limit, optimistic,
                        LastPick(ranking, limit, optimistic, last))
  {
    hide IsRanking, NoBetter;
    var chosen := Chosen(ranking, limit, optimistic, last);
    var m' := AfterRound(m, chosen);
    ChosenSize(m, ranking, limit, optimistic, last);
    assert (set k | k in m' && !m'[k].choked) == chosen;
    forall u, k | u in m' && k in m' && !m'[u].choked && m'[k].choked
      ensures (optimistic && u == LastPick(ranking, limit, optimistic, last)) || NoBetter(m[k], m[u])
    {
      if !optimistic {
        OrdinaryRoundIsFair(m, ranking, limit, last, u, k);
      } else if u != LastPick(ranking, limit, optimistic, last) {
        OptimisticRoundIsFair(m, ranking, limit, last, u, k);
      }
    }
  }

  lemma PickKept(ranking: seq<PeerKey>, limit: nat, optimistic: bool, last: PeerKey)
    requires optimistic ==> 0 < limit < |ranking|
    ensures limit == 0 ==> LastPick(ranking, limit, optimistic, last) == PeerKey("")
    ensures limit > 0 && !optimistic ==> LastPick(ranking, limit, optimistic, last) == last
  {
  }

  class UnchokeRound {
    var maxUnchoked: int
    var optimisticInterval: int
    var peers: map<PeerKey, PeerStats>
    var roundNumber: nat
    var lastOptimistic: PeerKey   // the empty address before the first pick

    /** Never more unchoked peers than slots. */
    ghost predicate Valid()
      reads this
    {
      |Unchoked(peers)| <= Max(maxUnchoked, 0)
    }

    constructor (maxUnchoked: int)
      ensures Valid() && peers == map[] && roundNumber == 0
      ensures this.maxUnchoked == maxUnchoked && optimisticInterval == 3 && lastOptimistic == PeerKey("")
    {
      this.maxUnchoked, optimisticInterval, peers, roundNumber, lastOptimistic := maxUnchoked, 3, map[], 0, PeerKey("");
    }

    /** A known peer keeps its statistics; a new one starts choked. */
    method RegisterPeer(key: PeerKey, now: int)
      requires Valid()
      modifies this`peers
      ensures Valid() && Unchoked(peers) == old(Unchoked(peers))
      ensures peers == if key in old(peers) then old(peers) else old(peers)[key := PeerStats(0, 0, now, 0, true)]
    {
      if key !in peers {
        ghost var before := Unchoked(peers);
        peers := peers[key := PeerStats(0, 0, now, 0, true)];
        assert Unchoked(peers) == before;
      }
    }

    method RemovePeer(key: PeerKey)
      requires Valid()
      modifies this`peers
      ensures Valid() && Unchoked(peers) == old(Unchoked(peers)) - {key}
      ensures peers == old(peers) - {key}
    {
      ghost var before := Unchoked(peers);
      peers := peers - {key};
      assert Unchoked(peers) == before - {key};
    }

    method RecordUpload(key: PeerKey, bytes: int, now: int)
      requires Valid()
      modifies this`peers
      ensures Valid() && Unchoked(peers) == old(Unchoked(peers)) && peers.Keys == old(peers.Keys)
      ensures key !in peers ==> peers == old(peers)
      ensures key in peers ==>
                var st := old(peers)[key];
                peers == old(peers)[key := st.(bytesUploaded := st.bytesUploaded + bytes,
                                               totalUploaded := st.totalUploaded + bytes, lastActive := now)]
    {
      if key in peers {
        ghost var before := Unchoked(peers);
        var st := peers[key];
        peers := peers[key := st.(bytesUploaded := st.bytesUploaded + bytes, totalUploaded := st.totalUploaded + bytes,
                                  lastActive := now)];
        assert Unchoked(peers) == before;
      }
    }

    method RecordDownload(key: PeerKey, bytes: int, now: int)
      requires Valid()
      modifies this`peers
      ensures Valid() && Unchoked(peers) == old(Unchoked(peers)) && peers.Keys == old(peers.Keys)
      ensures key !in peers ==> peers == old(peers)
      ensures key in peers ==>
                var st := old(peers)[key];
                peers == old(peers)[key := st.(bytesDownloaded := st.bytesDownloaded + bytes, lastActive := now)]
    {
      if key in peers {
        ghost var before := Unchoked(peers);
        var st := peers[key];
        peers := peers[key := st.(bytesDownloaded := st.bytesDownloaded + bytes, lastActive := now)];
        assert Unchoked(peers) == before;
      }
    }

    /** The peers in the order the map yields them, which is any order. */
    method Collect() returns (active: seq<Ranked>)
      ensures |active| == |peers|
      ensures Yields(peers, active) && DistinctBy(active, (a: Ranked) => a.key)
    {
      active := [];
      var todo := peers.Keys;
      while todo != {}
        invariant todo <= peers.Keys
        invariant |active| + |todo| == |peers.Keys|
        invariant forall k :: k in peers && k !in todo <==> exists i :: 0 <= i < |active| && active[i].key == k
        invariant forall i, j :: 0 <= i < j < |active| ==> active[i].key != active[j].key
        invariant forall i :: 0 <= i < |active| ==>
                    active[i].key in peers && active[i].key !in todo && active[i].stats == peers[active[i].key]
      {
        var k :| k in todo;
        ghost var before := active;
        active := active + [Ranked(k, peers[k])];
        todo := todo - {k};
        assert active[|before|].key == k;
        assert forall i :: 0 <= i < |before| ==> active[i] == before[i];
      }
    }

    /** The keys of the ranked peers, in order. */
    static method SortByDownloadRate(active: seq<Ranked>) returns (ranking: seq<PeerKey>)
      requires DistinctBy(active, (a: Ranked) => a.key)
      ensures |ranking| == |active|
      ensures forall m: map<PeerKey, PeerStats> :: Yields(m, active) ==> IsRanking(m, ranking)
    {
      RankingIsWeakOrder();
      var sorted := SortBy(active, (a: Ranked, b: Ranked) => RanksAbove(a.stats, b.stats));
      ranking := seq(|sorted|, i requires 0 <= i < |sorted| => sorted[i].key);
      ReorderKeeps(active, sorted, (a: Ranked) => a.key);
      forall m: map<PeerKey, PeerStats> | Yields(m, active) ensures IsRanking(m, ranking) {
        SortedIsRanking(m, active, sorted, ranking);
      }
    }

    /** The optimistic slot: the first index from limit on that is not the last pick, else limit itself. */
    static method FindOptimistic(ranking: seq<PeerKey>, limit: nat, last: PeerKey) returns (index: nat)
      requires limit < |ranking|
      ensures index == Pick(ranking, limit, last, limit)
    {
      var i := limit;
      while i < |ranking|
        invariant limit <= i <= |ranking|
        invariant Pick(ranking, limit, last, limit) == Pick(ranking, limit, last, i)
      {
        if ranking[i] != last { return i; }
        i := i + 1;
      }
      index := limit;
    }

    /** The slots of a round: the top ones and, in an optimistic round, the last of them given to the pick. */
    static method FillSlots(order: seq<PeerKey>, limit: nat, optimistic: bool, last: PeerKey)
      returns (unchoked: set<PeerKey>, newLast: PeerKey)
      requires limit <= |order| && (optimistic ==> 0 < limit < |order|)
      requires forall i, j :: 0 <= i < j < |order| ==> order[i] != order[j]
      ensures unchoked == Chosen(order, limit, optimistic, last)
      ensures newLast == LastPick(order, limit, optimistic, last)
    {
      unchoked, newLast := SetOf(order[..limit]), last;
      if optimistic {
        var index := FindOptimistic(order, limit, last);
        assert SetOf(order[..limit]) == SetOf(order[..limit - 1]) + {order[limit - 1]};
        unchoked := unchoked - {order[limit - 1]} + {order[index]};
        newLast := order[index];
      } else if limit == 0 {
        newLast := PeerKey("");
      }
    }

    /** Brings every peer's flag in line with unchoked, and lists the peers whose flag changed. */
    method ApplyFlags(unchoked: set<PeerKey>) returns (toUnchoke: seq<PeerKey>, toChoke: seq<PeerKey>)
      modifies this`peers
      ensures peers == Flagged(old(peers), unchoked, old(peers.Keys))
      ensures Lists(toUnchoke, Opened(old(peers), unchoked, old(peers.Keys)))
      ensures Lists(toChoke, Closed(old(peers), unchoked, old(peers.Keys)))
    {
      hide Lists, Opened, Closed, Flagged;
      toUnchoke, toChoke := [], [];
      ghost var start := peers;
      ghost var done: set<PeerKey> := {};
      NothingFlagged(start, unchoked);
      var todo := peers.Keys;
      while todo != {}
        invariant done == start.Keys - todo && todo <= start.Keys == peers.Keys
        invariant peers == Flagged(start, unchoked, done)
        invariant Lists(toUnchoke, Opened(start, unchoked, done))
        invariant Lists(toChoke, Closed(start, unchoked, done))
      {
        var k :| k in todo;
        FlagOne(start, unchoked, done, k);
        todo := todo - {k};
        if k in unchoked && peers[k].choked {
          ListOneMore(toUnchoke, Opened(start, unchoked, done), k);
          toUnchoke := toUnchoke + [k];
          peers := peers[k := peers[k].(choked := false)];
        } else if k !in unchoked && !peers[k].choked {
          ListOneMore(toChoke, Closed(start, unchoked, done), k);
          toChoke := toChoke + [k];
          peers := peers[k := peers[k].(choked := true)];
        }
        done := done + {k};
      }
      assert done == start.Keys;
    }

    /** One round. ranking is the order in which the sort put the peers. */
    method DecideUnchokes() returns (toUnchoke: seq<PeerKey>, toChoke: seq<PeerKey>, ghost ranking: seq<PeerKey>)
      requires Valid()
      modifies this
      ensures Valid() && roundNumber == old(roundNumber) + 1 && optimisticInterval == old(optimisticInterval)
      ensures old(peers) == map[] ==>
                && peers == map[] && maxUnchoked == old(maxUnchoked) && lastOptimistic == old(lastOptimistic)
      ensures old(peers) != map[] ==> maxUnchoked == Max(old(maxUnchoked), 0)
      ensures old(peers) != map[] ==>
                && IsRanking(old(peers), ranking) && |ranking| == |old(peers)|
                && var limit := Min(maxUnchoked, |old(peers)|);
                   var optimistic := IsOptimistic(roundNumber, optimisticInterval, limit, |old(peers)|);
                   && Unchoked(peers) == Chosen(ranking, limit, optimistic, old(lastOptimistic))
                   && |Unchoked(peers)| == limit
                   && peers == AfterRound(old(peers), Unchoked(peers))
                   && lastOptimistic == LastPick(ranking, limit, optimistic, old(lastOptimistic))
      ensures old(peers) != map[] ==>
                var n := |old(peers)|;
                var slots := if old(maxUnchoked) < 0 then 0 else if old(maxUnchoked) > n then n else old(maxUnchoked);
                var optimistic := 0 < slots < n && optimisticInterval > 0 && roundNumber % optimisticInterval == 0;
                && RoundIsFair(old(peers), peers, slots, optimistic, lastOptimistic)
                && (slots == 0 ==> lastOptimistic == PeerKey(""))
                && (slots > 0 && !optimistic ==> lastOptimistic == old(lastOptimistic))
      ensures Lists(toUnchoke, Unchoked(peers) - old(Unchoked(peers)))
      ensures Lists(toChoke, old(Unchoked(peers)) - Unchoked(peers))
    {
      hide Lists, Opened, Closed, Flagged, IsRanking, Yields, Chosen, AfterRound, Unchoked, LastPick, DistinctBy, RoundIsFair;
      roundNumber := roundNumber + 1;
      toUnchoke, toChoke, ranking := [], [], [];
      ghost var start, last := peers, lastOptimistic;
      var active := Collect();
      if |active| == 0 {
        assert Unchoked(peers) - Unchoked(peers) == {};
        NothingListed();
        return;
      }
      if maxUnchoked < 0 { maxUnchoked := 0; }
      var order := SortByDownloadRate(active);
      ranking := order;
      RankingIsDistinct(start, order);
      var limit := Min(maxUnchoked, |active|);
      var optimistic := IsOptimistic(roundNumber, optimisticInterval, limit, |active|);
      var unchoked, newLast := FillSlots(order, limit, optimistic, lastOptimistic);
      lastOptimistic := newLast;
      ChosenSize(start, order, limit, optimistic, last);
      RoundFairness(start, order, limit, optimistic, last);
      PickKept(order, limit, optimistic, last);
      RoundEffect(start, unchoked);
      toUnchoke, toChoke := ApplyFlags(unchoked);
      peers := map k | k in peers :: peers[k].(bytesUploaded := 0, bytesDownloaded := 0);
    }
  }
}
