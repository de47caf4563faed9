/** One live session per peer: connectors, the ready channel and workers never share a peer, and a known
    peer is unavailable exactly while one of them has it. */
module EngineSessions {
  import opened Bytes
  import opened Layout
  import opened Engine

  function WorkerHas(k: PeerKey): Worker -> int {
    (w: Worker) => if w.sess.Some? && w.sess.value.peer == k then 1 else 0
  }

  function ConnectorHas(x: Connector, k: PeerKey): nat {
    if (x.Dialing? || x.Offering?) && x.peer == k then 1 else 0
  }

  function InConnectors(xs: seq<Connector>, k: PeerKey): nat {
    if xs == [] then 0 else ConnectorHas(xs[0], k) + InConnectors(xs[1..], k)
  }

  function InReady(ready: seq<Session>, k: PeerKey): nat {
    if ready == [] then 0 else (if ready[0].peer == k then 1 else 0) + InReady(ready[1..], k)
  }

  /** How many times peer k is held: by a connector, in the ready channel, or by a worker. */
  function Holders(s: State, k: PeerKey): int {
    InConnectors(s.swarm.connectors, k) + InReady(s.swarm.ready, k) + Total(s.workers, WorkerHas(k))
  }

  /** pool.Acquire took k and no Release has given it back. */
  predicate OnLoan(m: Swarm, k: PeerKey) { k in m.known && k !in m.available }

  function Bit(b: bool): int { if b then 1 else 0 }

  ghost predicate Exclusive(s: State) {
    && s.swarm.available <= s.swarm.known
    && forall k :: Holders(s, k) == Bit(OnLoan(s.swarm, k))
  }

  lemma {:induction false} ConnectorUpdated(xs: seq<Connector>, j: nat, x: Connector, k: PeerKey)
    requires j < |xs|
    ensures InConnectors(xs[j := x], k) == InConnectors(xs, k) - ConnectorHas(xs[j], k) + ConnectorHas(x, k)
  {
    if j == 0 {
      assert xs[0 := x][1..] == xs[1..];
    } else {
      ConnectorUpdated(xs[1..], j - 1, x, k);
      assert xs[j := x][1..] == xs[1..][j - 1 := x];
    }
  }

  lemma {:induction false} ReadyAppended(ready: seq<Session>, x: Session, k: PeerKey)
    ensures InReady(ready + [x], k) == InReady(ready, k) + (if x.peer == k then 1 else 0)
  {
    if ready != [] {
      ReadyAppended(ready[1..], x, k);
      assert (ready + [x])[1..] == ready[1..] + [x];
    }
  }

  lemma {:induction false} ConnectorCounted(xs: seq<Connector>, j: nat, k: PeerKey)
    requires j < |xs|
    ensures InConnectors(xs, k) >= ConnectorHas(xs[j], k)
  {
    if j > 0 { ConnectorCounted(xs[1..], j - 1, k); }
  }

  lemma {:induction false} ReadyCounted(ready: seq<Session>, q: nat)
    requires q < |ready|
    ensures InReady(ready, ready[q].peer) >= 1
  {
    if q > 0 { ReadyCounted(ready[1..], q - 1); }
  }

  /** Whoever holds a peer holds it alone, and the pool knows the peer as unavailable. */
  lemma HeldIsOnLoan(s: State, k: PeerKey)
    requires Exclusive(s) && Holders(s, k) >= 1
    ensures OnLoan(s.swarm, k) && Holders(s, k) == 1
  {
  }

  /** A worker's session never changes hands inside a step except through the pool or the ready channel. */
  lemma WorkerTrades(s: State, w: Worker, act: WorkerStep, k: PeerKey)
    requires s.swarm.available <= s.swarm.known
    requires w.sess.Some? ==> OnLoan(s.swarm, w.sess.value.peer)
    requires w.pc.Fetching? || w.pc.Exited? ==> w.sess.None?
    requires act.Fetch? ==> w.pc.Fetching?
    ensures var m, m' := s.swarm, SwarmAfter(s.swarm, w, act);
            && m'.available <= m'.known == m.known && m'.connectors == m.connectors
            && InReady(m'.ready, k) + WorkerHas(k)(Worker(w.pc, SessionAfter(m, w, act))) - Bit(OnLoan(m', k))
               == InReady(m.ready, k) + WorkerHas(k)(w) - Bit(OnLoan(m, k))
  {
  }

  lemma WorkerSideExclusive(c: Config, s: State, i: nat, act: WorkerStep)
    requires Typed(c, s) && Enabled(c, s, Work(i, act)) && Exclusive(s)
    ensures Exclusive(Apply(c, s, Work(i, act)))
  {
    hide PiecesAfter, BusAfter, SwarmAfter, SessionAfter, PcAfter, OnLoan, WorkerHas;
    var s', w := Apply(c, s, Work(i, act)), s.workers[i];
    var w' := s'.workers[i];
    if w.sess.Some? {
      WorkerCounted(s, i);
    }
    forall k ensures Holders(s', k) == Bit(OnLoan(s'.swarm, k)) && s'.swarm.available <= s'.swarm.known {
      WorkerTrades(s, w, act, k);
      SessionOnly(w', w.pc, k);
      TotalUpdated(s.workers, i, w', WorkerHas(k));
      assert Holders(s, k) == Bit(OnLoan(s.swarm, k));
    }
    WorkerTrades(s, w, act, 0);
  }

  lemma SessionOnly(w: Worker, pc: WorkerPC, k: PeerKey)
    ensures WorkerHas(k)(w) == WorkerHas(k)(Worker(pc, w.sess))
  {
  }

  lemma WorkerCounted(s: State, i: nat)
    requires Exclusive(s) && i < |s.workers| && s.workers[i].sess.Some?
    ensures OnLoan(s.swarm, s.workers[i].sess.value.peer)
    ensures Holders(s, s.workers[i].sess.value.peer) >= 1
  {
    var k := s.workers[i].sess.value.peer;
    TotalAtLeast(s.workers, WorkerHas(k), i);
    HeldIsOnLoan(s, k);
  }

  lemma ConnectorTrades(m: Swarm, j: nat, move: ConnectorStep, cancelled: bool, k: PeerKey)
    requires j < |m.connectors| && ConnectorEnabled(m, m.connectors[j], move, cancelled)
    requires m.available <= m.known
    requires forall k :: ConnectorHas(m.connectors[j], k) == 1 ==> OnLoan(m, k)
    ensures var m' := ConnectorNext(m, j, move);
            && m'.available <= m'.known
            && InConnectors(m'.connectors, k) + InReady(m'.ready, k) - Bit(OnLoan(m', k))
               == InConnectors(m.connectors, k) + InReady(m.ready, k) - Bit(OnLoan(m, k))
  {
    var x := m.connectors[j];
    var x' := ConnectorNext(m, j, move).connectors[j];
    if x.Dialing? || x.Offering? {
      assert ConnectorHas(x, x.peer) == 1;
    }
    ConnectorUpdated(m.connectors, j, x', k);
    if move.Offer? { ReadyAppended(m.ready, Session(x.peer, 0), k); }
    hide InConnectors, InReady;
  }

  lemma ConnectorSideExclusive(c: Config, s: State, j: nat, move: ConnectorStep)
    requires Typed(c, s) && Enabled(c, s, Connect(j, move)) && Exclusive(s)
    ensures Exclusive(Apply(c, s, Connect(j, move)))
  {
    hide ConnectorNext, OnLoan, ConnectorEnabled, ConnectorHas;
    var m := s.swarm;
    forall k | ConnectorHas(m.connectors[j], k) == 1 ensures OnLoan(m, k) {
      ConnectorCounted(m.connectors, j, k);
      HeldAtAll(s, k);
    }
    var s' := Apply(c, s, Connect(j, move));
    forall k ensures Holders(s', k) == Bit(OnLoan(s'.swarm, k)) && s'.swarm.available <= s'.swarm.known {
      ConnectorTrades(m, j, move, s.cancelled, k);
      assert Holders(s, k) == Bit(OnLoan(m, k));
    }
    ConnectorTrades(m, j, move, s.cancelled, 0);
  }

  lemma HeldAtAll(s: State, k: PeerKey)
    requires Exclusive(s)
    requires InConnectors(s.swarm.connectors, k) >= 1 || InReady(s.swarm.ready, k) >= 1
    ensures OnLoan(s.swarm, k)
  {
    TotalNonNegative(s.workers, WorkerHas(k));
    HeldIsOnLoan(s, k);
  }

  /** Adding a peer that is already known changes nothing; a new one starts out available. */
  lemma ExclusiveStep(c: Config, s: State, step: Step)
    requires Typed(c, s) && Enabled(c, s, step) && Exclusive(s)
    ensures Exclusive(Apply(c, s, step))
  {
    if step.Work? {
      WorkerSideExclusive(c, s, step.i, step.act);
    } else if step.Connect? {
      ConnectorSideExclusive(c, s, step.j, step.move);
    } else {
      hide WorkerEnabled, WorkerTyped, PiecesAfter, BusAfter, SwarmAfter, WorkerAfter;
      var s' := Apply(c, s, step);
      forall k ensures Holders(s', k) == Bit(OnLoan(s'.swarm, k)) {
        assert Holders(s', k) == Holders(s, k);
      }
    }
  }

  // ----- What exclusivity means for two holders -----

  lemma {:induction false} TwoWorkersCount(ws: seq<Worker>, i: nat, j: nat, k: PeerKey)
    requires i < j < |ws| && WorkerHas(k)(ws[i]) == 1 && WorkerHas(k)(ws[j]) == 1
    ensures Total(ws, WorkerHas(k)) >= 2
  {
    if i == 0 {
      TotalAtLeast(ws[1..], WorkerHas(k), j - 1);
    } else {
      TwoWorkersCount(ws[1..], i - 1, j - 1, k);
    }
  }

  lemma {:induction false} TwoReadyCount(ready: seq<Session>, q: nat, r: nat)
    requires q < r < |ready| && ready[q].peer == ready[r].peer
    ensures InReady(ready, ready[q].peer) >= 2
  {
    if q == 0 {
      ReadyCounted(ready[1..], r - 1);
    } else {
      TwoReadyCount(ready[1..], q - 1, r - 1);
    }
  }

  lemma {:induction false} TwoConnectorsCount(xs: seq<Connector>, x: nat, y: nat, k: PeerKey)
    requires x < y < |xs| && ConnectorHas(xs[x], k) == 1 && ConnectorHas(xs[y], k) == 1
    ensures InConnectors(xs, k) >= 2
  {
    if x == 0 {
      ConnectorCounted(xs[1..], y - 1, k);
    } else {
      TwoConnectorsCount(xs[1..], x - 1, y - 1, k);
    }
  }

  predicate Has(w: Worker, k: PeerKey) { w.sess.Some? && w.sess.value.peer == k }

  /** No two of the workers, ready sessions and connectors have peer k. */
  ghost predicate Alone(s: State, k: PeerKey) {
    && (forall i, j :: 0 <= i < j < |s.workers| ==> !(Has(s.workers[i], k) && Has(s.workers[j], k)))
    && (forall q, r :: 0 <= q < r < |s.swarm.ready| ==> !(s.swarm.ready[q].peer == k == s.swarm.ready[r].peer))
    && (forall x, y :: 0 <= x < y < |s.swarm.connectors| ==>
          ConnectorHas(s.swarm.connectors[x], k) == 0 || ConnectorHas(s.swarm.connectors[y], k) == 0)
    && (forall i, q :: 0 <= i < |s.workers| && 0 <= q < |s.swarm.ready| ==>
          !(Has(s.workers[i], k) && s.swarm.ready[q].peer == k))
    && (forall i, x :: 0 <= i < |s.workers| && 0 <= x < |s.swarm.connectors| ==>
          !Has(s.workers[i], k) || ConnectorHas(s.swarm.connectors[x], k) == 0)
    && (forall q, x :: 0 <= q < |s.swarm.ready| && 0 <= x < |s.swarm.connectors| ==>
          s.swarm.ready[q].peer != k || ConnectorHas(s.swarm.connectors[x], k) == 0)
  }

  lemma PartsBound(s: State, k: PeerKey)
    requires Exclusive(s)
    ensures InConnectors(s.swarm.connectors, k) + InReady(s.swarm.ready, k) + Total(s.workers, WorkerHas(k)) <= 1
    ensures Total(s.workers, WorkerHas(k)) >= 0
    ensures forall i :: 0 <= i < |s.workers| && Has(s.workers[i], k) ==> Total(s.workers, WorkerHas(k)) >= 1
    ensures forall q :: 0 <= q < |s.swarm.ready| && s.swarm.ready[q].peer == k ==> InReady(s.swarm.ready, k) >= 1
    ensures forall x :: 0 <= x < |s.swarm.connectors| && ConnectorHas(s.swarm.connectors[x], k) != 0 ==>
              InConnectors(s.swarm.connectors, k) >= 1
  {
    assert Holders(s, k) == Bit(OnLoan(s.swarm, k));
    TotalNonNegative(s.workers, WorkerHas(k));
    forall i | 0 <= i < |s.workers| && Has(s.workers[i], k) ensures Total(s.workers, WorkerHas(k)) >= 1 {
      TotalAtLeast(s.workers, WorkerHas(k), i);
    }
    forall q | 0 <= q < |s.swarm.ready| && s.swarm.ready[q].peer == k ensures InReady(s.swarm.ready, k) >= 1 {
      ReadyCounted(s.swarm.ready, q);
    }
    forall x | 0 <= x < |s.swarm.connectors| && ConnectorHas(s.swarm.connectors[x], k) != 0
      ensures InConnectors(s.swarm.connectors, k) >= 1
    {
      ConnectorCounted(s.swarm.connectors, x, k);
    }
  }

  /** No two of the workers, the ready sessions and the connectors ever have the same peer. */
  lemma SessionsDistinct(s: State, k: PeerKey)
    requires Exclusive(s)
    ensures Alone(s, k)
  {
    hide InConnectors, InReady, Total, Exclusive;
    PartsBound(s, k);
    forall i, j | 0 <= i < j < |s.workers| ensures !(Has(s.workers[i], k) && Has(s.workers[j], k)) {
      if Has(s.workers[i], k) && Has(s.workers[j], k) { TwoWorkersCount(s.workers, i, j, k); }
    }
    forall q, r | 0 <= q < r < |s.swarm.ready| ensures !(s.swarm.ready[q].peer == k == s.swarm.ready[r].peer) {
      if s.swarm.ready[q].peer == k == s.swarm.ready[r].peer { TwoReadyCount(s.swarm.ready, q, r); }
    }
    forall x, y | 0 <= x < y < |s.swarm.connectors|
      ensures ConnectorHas(s.swarm.connectors[x], k) == 0 || ConnectorHas(s.swarm.connectors[y], k) == 0
    {
      if ConnectorHas(s.swarm.connectors[x], k) == 1 == ConnectorHas(s.swarm.connectors[y], k) {
        TwoConnectorsCount(s.swarm.connectors, x, y, k);
      }
    }
  }
}
