/** The completion bus: a cancel signal is seen only for a completed piece, and complete(p) reaches each
    subscriber of that moment exactly once. */
module EngineBus {
  import opened Bytes
  import opened Layout
  import opened Engine

  /** complete(p) took its list after channel ch subscribed. */
  predicate Called(b: Bus, ch: nat)
    requires ch < |b.channels|
  {
    b.channels[ch].piece in b.taken && ch < b.taken[b.channels[ch].piece]
  }

  ghost predicate Increasing(list: seq<nat>) {
    forall x, y :: 0 <= x < y < |list| ==> list[x] < list[y]
  }

  /** Channel ch is still to be signalled by this worker. */
  predicate Owes(pc: WorkerPC, ch: nat) { pc.Signalling? && ch in pc.pending }

  ghost predicate Owed(s: State, ch: nat) {
    exists i :: 0 <= i < |s.workers| && Owes(s.workers[i].pc, ch)
  }

  /** The worker that set completed[p] and has not finished bus.complete(p). */
  predicate Completing(pc: WorkerPC, p: nat) { (pc.Announcing? || pc.Signalling?) && pc.p == p }

  ghost predicate ChannelSound(b: Bus, ch: nat)
    requires ch < |b.channels|
  {
    && b.channels[ch].buffered <= b.channels[ch].sent <= 1
    && (!Called(b, ch) ==> b.channels[ch].sent == 0)
  }

  ghost predicate Sent(b: Bus, ch: nat) { ch < |b.channels| && b.channels[ch].sent > 0 }

  /** The subscriber lists hold exactly the channels that complete has not taken. */
  ghost predicate ListsSound(b: Bus) {
    && (forall p | p in b.taken :: b.taken[p] <= |b.channels|)
    && (forall p :: Increasing(Subscribers(b, p)))
    && (forall ch :: 0 <= ch < |b.channels| ==>
          (ch in Subscribers(b, b.channels[ch].piece) <==> !Called(b, ch)))
  }

  ghost predicate WorkerSound(d: Pieces, b: Bus, pc: WorkerPC) {
    && (pc.Announcing? ==> pc.p < |d.completed| && d.completed[pc.p] && pc.p !in b.taken)
    && (pc.Signalling? ==>
          && pc.p in b.taken
          && Increasing(pc.pending)
          && forall q :: 0 <= q < |pc.pending| ==>
               && pc.pending[q] < |b.channels| && b.channels[pc.pending[q]].piece == pc.p
               && Called(b, pc.pending[q]) && b.channels[pc.pending[q]].sent == 0)
  }

  ghost predicate TakenSound(d: Pieces, b: Bus) {
    forall p | p in b.taken :: p < |d.completed| && d.completed[p]
  }

  ghost predicate OneCompleter(s: State) {
    forall i, j, p :: 0 <= i < j < |s.workers| && Completing(s.workers[i].pc, p) ==> !Completing(s.workers[j].pc, p)
  }

  ghost predicate Delivered(s: State) {
    forall ch :: 0 <= ch < |s.bus.channels| && Called(s.bus, ch) ==> Sent(s.bus, ch) || Owed(s, ch)
  }

  ghost predicate Signalled(c: Config, s: State) {
    && ListsSound(s.bus)
    && (forall ch :: 0 <= ch < |s.bus.channels| ==> ChannelSound(s.bus, ch))
    && TakenSound(s.pieces, s.bus)
    && (forall i :: 0 <= i < |s.workers| ==> WorkerSound(s.pieces, s.bus, s.workers[i].pc))
    && OneCompleter(s)
    && Delivered(s)
  }

  // ----- Frames -----

  /** The bus only grows: channels keep their piece, signals and taken lists stay. */
  ghost predicate Extends(b: Bus, b': Bus) {
    && |b.channels| <= |b'.channels|
    && (forall ch :: 0 <= ch < |b.channels| ==>
          b'.channels[ch].piece == b.channels[ch].piece && b.channels[ch].sent <= b'.channels[ch].sent)
    && (forall p | p in b.taken :: p in b'.taken && b'.taken[p] == b.taken[p])
  }

  ghost predicate ChannelsSound(b: Bus) {
    forall ch :: 0 <= ch < |b.channels| ==> ChannelSound(b, ch)
  }

  ghost predicate FlagsGrow(d: Pieces, d': Pieces) {
    && |d'.completed| == |d.completed|
    && forall p :: 0 <= p < |d.completed| && d.completed[p] ==> d'.completed[p]
  }

  lemma WorkerSoundFramed(d: Pieces, d': Pieces, b: Bus, b': Bus, pc: WorkerPC)
    requires WorkerSound(d, b, pc) && FlagsGrow(d, d') && Extends(b, b')
    requires pc.Announcing? ==> pc.p !in b'.taken
    requires pc.Signalling? ==> forall ch | ch in pc.pending :: ch < |b.channels| ==> b'.channels[ch].sent == b.channels[ch].sent
    ensures WorkerSound(d', b', pc)
  {
  }

  ghost predicate OnlyWorkerMoved(s: State, s': State, i: nat) {
    && |s'.workers| == |s.workers|
    && i < |s.workers|
    && forall j :: 0 <= j < |s.workers| && j != i ==> s'.workers[j] == s.workers[j]
  }

  lemma DeliveredFramed(s: State, s': State, i: nat)
    requires Delivered(s) && OnlyWorkerMoved(s, s', i) && Extends(s.bus, s'.bus)
    requires forall ch :: 0 <= ch < |s'.bus.channels| && Called(s'.bus, ch) && !Sent(s'.bus, ch) ==>
               || Owes(s'.workers[i].pc, ch)
               || (ch < |s.bus.channels| && Called(s.bus, ch) && !Owes(s.workers[i].pc, ch))
    ensures Delivered(s')
  {
    forall ch | 0 <= ch < |s'.bus.channels| && Called(s'.bus, ch) && !Sent(s'.bus, ch) ensures Owed(s', ch) {
      if !Owes(s'.workers[i].pc, ch) {
        assert !Sent(s.bus, ch);
        var j :| 0 <= j < |s.workers| && Owes(s.workers[j].pc, ch);
        assert Owes(s'.workers[j].pc, ch);
      }
    }
  }

  lemma OneCompleterFramed(s: State, s': State, i: nat)
    requires OneCompleter(s) && OnlyWorkerMoved(s, s', i)
    requires forall p :: Completing(s'.workers[i].pc, p) ==>
               Completing(s.workers[i].pc, p) || forall j :: 0 <= j < |s.workers| ==> !Completing(s.workers[j].pc, p)
    ensures OneCompleter(s')
  {
  }

  // ----- The bus after each kind of step -----

  lemma SubscribeLists(b: Bus, p: nat)
    requires BusTyped(b) && ListsSound(b)
    ensures var b' := BusAfter(b, Subscribing(p), Subscribe);
            ListsSound(b') && |b'.channels| == |b.channels| + 1 && !Called(b', |b.channels|)
  {
    var b' := BusAfter(b, Subscribing(p), Subscribe);
    var list := Subscribers(b, p);
    assert ListTyped(b, p, list) by { if p in b.subs { assert ListTyped(b, p, b.subs[p]); } }
    assert Subscribers(b', p) == list + [|b.channels|];
    assert forall q :: q != p ==> Subscribers(b', q) == Subscribers(b, q);
    assert Increasing(list + [|b.channels|]) by { assert Increasing(list); }
    forall q ensures Increasing(Subscribers(b', q)) { assert Increasing(Subscribers(b, q)); }
    forall ch | 0 <= ch < |b'.channels| ensures ch in Subscribers(b', b'.channels[ch].piece) <==> !Called(b', ch) {
      if ch < |b.channels| {
        assert ch in Subscribers(b, b.channels[ch].piece) <==> !Called(b, ch);
      }
    }
  }

  lemma BusAfterSubscribe(b: Bus, p: nat)
    requires BusTyped(b) && ListsSound(b) && ChannelsSound(b)
    ensures var b' := BusAfter(b, Subscribing(p), Subscribe);
            && ListsSound(b') && ChannelsSound(b') && Extends(b, b') && b'.taken == b.taken
            && |b'.channels| == |b.channels| + 1
            && !Called(b', |b.channels|)
            && forall ch :: 0 <= ch < |b.channels| ==> b'.channels[ch] == b.channels[ch]
  {
    hide ListsSound;
    SubscribeLists(b, p);
    var b' := BusAfter(b, Subscribing(p), Subscribe);
    forall ch | 0 <= ch < |b'.channels| ensures ChannelSound(b', ch) {
      if ch < |b.channels| { assert ChannelSound(b, ch) && Called(b', ch) == Called(b, ch); }
    }
  }

  lemma SameLists(b: Bus, b': Bus)
    requires ListsSound(b) && b'.subs == b.subs && b'.taken == b.taken && |b'.channels| == |b.channels|
    requires forall ch :: 0 <= ch < |b.channels| ==> b'.channels[ch].piece == b.channels[ch].piece
    ensures ListsSound(b')
    ensures forall ch :: 0 <= ch < |b.channels| ==> Called(b', ch) == Called(b, ch)
  {
    assert forall p :: Subscribers(b', p) == Subscribers(b, p);
  }

  lemma BusAfterSeeCancel(b: Bus, pc: WorkerPC)
    requires ListsSound(b) && ChannelsSound(b) && pc.Transferring?
    ensures var b' := BusAfter(b, pc, SeeCancel);
            && ListsSound(b') && ChannelsSound(b') && Extends(b, b') && b'.taken == b.taken
            && |b'.channels| == |b.channels|
            && forall ch :: 0 <= ch < |b.channels| ==>
                 b'.channels[ch].sent == b.channels[ch].sent && Called(b', ch) == Called(b, ch)
  {
    hide ListsSound;
    var b' := BusAfter(b, pc, SeeCancel);
    SameLists(b, b');
    forall ch | 0 <= ch < |b.channels| ensures ChannelSound(b', ch) { assert ChannelSound(b, ch); }
  }

  lemma BusAfterAnnounce(b: Bus, p: nat, size: nat)
    requires BusTyped(b) && ListsSound(b) && ChannelsSound(b) && p !in b.taken
    ensures var b' := BusAfter(b, Announcing(p, size), Announce);
            && ListsSound(b') && ChannelsSound(b') && Extends(b, b')
            && b'.channels == b.channels && b'.taken == b.taken[p := |b.channels|]
            && forall ch :: 0 <= ch < |b.channels| ==>
                 && (Called(b', ch) <==> Called(b, ch) || b.channels[ch].piece == p)
                 && (b.channels[ch].piece == p <==> ch in Subscribers(b, p))
                 && (b.channels[ch].piece == p ==> b.channels[ch].sent == 0)
    ensures ListTyped(b, p, Subscribers(b, p)) && Increasing(Subscribers(b, p))
  {
    var b' := BusAfter(b, Announcing(p, size), Announce);
    assert Subscribers(b', p) == [];
    assert forall q :: q != p ==> Subscribers(b', q) == Subscribers(b, q);
    if p in b.subs { assert ListTyped(b, p, b.subs[p]); }
    forall ch | 0 <= ch < |b.channels|
      ensures Called(b', ch) <==> Called(b, ch) || b.channels[ch].piece == p
      ensures b.channels[ch].piece == p <==> ch in Subscribers(b, p)
      ensures b.channels[ch].piece == p ==> b.channels[ch].sent == 0
      ensures ChannelSound(b', ch)
    {
      assert ChannelSound(b, ch);
      assert ch in Subscribers(b, b.channels[ch].piece) <==> !Called(b, ch);
    }
  }

  lemma BusAfterSignal(b: Bus, pc: WorkerPC)
    requires ListsSound(b) && ChannelsSound(b) && pc.Signalling?
    requires pc.pending != [] ==> var ch := pc.pending[0]; ch < |b.channels| && Called(b, ch) && b.channels[ch].sent == 0
    ensures var b' := BusAfter(b, pc, Signal);
            && ListsSound(b') && ChannelsSound(b') && Extends(b, b') && b'.taken == b.taken
            && |b'.channels| == |b.channels|
            && (pc.pending != [] ==> b'.channels[pc.pending[0]].sent == 1)
            && forall ch :: 0 <= ch < |b.channels| ==>
                 && Called(b', ch) == Called(b, ch)
                 && (pc.pending == [] || ch != pc.pending[0] ==> b'.channels[ch] == b.channels[ch])
  {
    hide ListsSound;
    var b' := BusAfter(b, pc, Signal);
    SameLists(b, b');
    if pc.pending != [] { assert ChannelSound(b, pc.pending[0]); }
    forall ch | 0 <= ch < |b.channels| ensures ChannelSound(b', ch) { assert ChannelSound(b, ch); }
  }

  // ----- Steps of the workers -----

  predicate TouchesBus(act: WorkerStep) { act.Subscribe? || act.SeeCancel? || act.Announce? || act.Signal? }

  lemma PcFacts(c: Config, s: State, w: Worker, act: WorkerStep)
    requires Typed(c, s) && WorkerTyped(c, s.bus, w) && WorkerEnabled(c, s, w, act)
    ensures var d', pc' := PiecesAfter(c, s.pieces, w.pc, act), PcAfter(c, s, w, act);
            && FlagsGrow(s.pieces, d')
            && (act.Subscribe? ==> w.pc.Subscribing? && pc'.Attempting?)
            && (act.SeeCancel? ==> w.pc.Transferring? && pc'.Requeueing?)
            && (act.Announce? ==>
                  w.pc.Announcing? && pc' == Signalling(w.pc.p, w.pc.size, Subscribers(s.bus, w.pc.p)))
            && (act.Signal? ==>
                  && w.pc.Signalling?
                  && pc' == if w.pc.pending == [] then Releasing(w.pc.p, w.pc.size)
                            else Signalling(w.pc.p, w.pc.size, w.pc.pending[1..]))
            && (!TouchesBus(act) ==>
                  && BusAfter(s.bus, w.pc, act) == s.bus
                  && !w.pc.Signalling? && !w.pc.Announcing? && !pc'.Signalling?
                  && (pc'.Announcing? ==>
                        pc'.p < |d'.completed| && !s.pieces.completed[pc'.p] && d'.completed[pc'.p]))
  {
  }

  lemma QuietFacts(c: Config, s: State, w: Worker, act: WorkerStep)
    requires Typed(c, s) && WorkerTyped(c, s.bus, w) && WorkerEnabled(c, s, w, act)
    requires ListsSound(s.bus) && ChannelsSound(s.bus)
    requires act.Subscribe? || act.SeeCancel? || !TouchesBus(act)
    ensures var d', pc' := PiecesAfter(c, s.pieces, w.pc, act), PcAfter(c, s, w, act);
            var b, b' := s.bus, BusAfter(s.bus, w.pc, act);
            && FlagsGrow(s.pieces, d')
            && ListsSound(b') && ChannelsSound(b') && Extends(b, b') && b'.taken == b.taken
            && (forall ch :: 0 <= ch < |b'.channels| && Called(b', ch) ==> ch < |b.channels| && Called(b, ch))
            && (forall ch :: 0 <= ch < |b.channels| ==> b'.channels[ch].sent == b.channels[ch].sent)
            && !w.pc.Signalling? && !w.pc.Announcing? && !pc'.Signalling?
            && (pc'.Announcing? ==> pc'.p < |d'.completed| && !s.pieces.completed[pc'.p] && d'.completed[pc'.p])
  {
    hide PiecesAfter, BusAfter, PcAfter, WorkerEnabled, WorkerTyped, ListsSound, ChannelSound;
    PcFacts(c, s, w, act);
    if act.Subscribe? {
      BusAfterSubscribe(s.bus, w.pc.p);
    } else if act.SeeCancel? {
      BusAfterSeeCancel(s.bus, w.pc);
    }
  }

  /** The invariant after a worker's step, from what holds of that worker and what the others need. */
  lemma Reassemble(c: Config, s: State, s': State, i: nat)
    requires Signalled(c, s) && OnlyWorkerMoved(s, s', i)
    requires Extends(s.bus, s'.bus) && FlagsGrow(s.pieces, s'.pieces)
    requires ListsSound(s'.bus) && ChannelsSound(s'.bus) && TakenSound(s'.pieces, s'.bus)
    requires WorkerSound(s'.pieces, s'.bus, s'.workers[i].pc)
    requires OneCompleter(s') && Delivered(s')
    requires forall j :: 0 <= j < |s.workers| && j != i && s.workers[j].pc.Announcing? ==>
               s.workers[j].pc.p !in s'.bus.taken
    requires forall j, ch: nat :: 0 <= j < |s.workers| && j != i && Owes(s.workers[j].pc, ch) && ch < |s.bus.channels| ==>
               s'.bus.channels[ch].sent == s.bus.channels[ch].sent
    ensures Signalled(c, s')
  {
    hide ListsSound, ChannelSound, Increasing, TakenSound, OneCompleter, Delivered, WorkerSound;
    forall j | 0 <= j < |s'.workers| && j != i ensures WorkerSound(s'.pieces, s'.bus, s'.workers[j].pc) {
      assert WorkerSound(s.pieces, s.bus, s.workers[j].pc);
      assert forall ch: nat :: s.workers[j].pc.Signalling? && ch in s.workers[j].pc.pending ==> Owes(s.workers[j].pc, ch);
      WorkerSoundFramed(s.pieces, s'.pieces, s.bus, s'.bus, s.workers[j].pc);
    }
  }

  lemma TakenFramed(d: Pieces, d': Pieces, b: Bus, b': Bus)
    requires TakenSound(d, b) && FlagsGrow(d, d') && b'.taken == b.taken
    ensures TakenSound(d', b')
  {
  }

  lemma QuietStep(c: Config, s: State, i: nat, act: WorkerStep)
    requires Typed(c, s) && Enabled(c, s, Work(i, act)) && Signalled(c, s)
    requires act.Subscribe? || act.SeeCancel? || !TouchesBus(act)
    ensures Signalled(c, Apply(c, s, Work(i, act)))
  {
    hide PiecesAfter, BusAfter, SwarmAfter, PcAfter, SessionAfter, WorkerEnabled, WorkerTyped, Increasing, ListsSound,
      ChannelSound, Delivered, OneCompleter, WorkerSound, TakenSound, Extends;
    var s' := Apply(c, s, Work(i, act));
    QuietFacts(c, s, s.workers[i], act);
    DeliveredFramed(s, s', i);
    NewCompleter(c, s, s', i);
    OneCompleterFramed(s, s', i);
    TakenFramed(s.pieces, s'.pieces, s.bus, s'.bus);
    FreshSound(s.pieces, s'.pieces, s.bus, s'.bus, s'.workers[i].pc);
    forall j | 0 <= j < |s.workers| ensures s.workers[j].pc.Announcing? ==> s.workers[j].pc.p !in s.bus.taken {
      PendingUnsent(s, j);
    }
    Reassemble(c, s, s', i);
  }

  lemma PendingUnsent(s: State, j: nat)
    requires j < |s.workers| && WorkerSound(s.pieces, s.bus, s.workers[j].pc)
    ensures s.workers[j].pc.Announcing? ==> s.workers[j].pc.p !in s.bus.taken
    ensures s.workers[j].pc.Signalling? ==>
              forall ch | ch in s.workers[j].pc.pending ::
                ch < |s.bus.channels| && s.bus.channels[ch].sent == 0 && s.bus.channels[ch].piece == s.workers[j].pc.p
  {
  }

  lemma FreshSound(d: Pieces, d': Pieces, b: Bus, b': Bus, pc: WorkerPC)
    requires TakenSound(d, b) && b'.taken == b.taken && !pc.Signalling? && |d'.completed| == |d.completed|
    requires pc.Announcing? ==> pc.p < |d.completed| && !d.completed[pc.p] && d'.completed[pc.p]
    ensures WorkerSound(d', b', pc)
  {
  }

  /** A worker that starts completing p is the only one: before, p was incomplete. */
  lemma NewCompleter(c: Config, s: State, s': State, i: nat)
    requires Signalled(c, s) && i < |s.workers| && i < |s'.workers| && !s'.workers[i].pc.Signalling?
    requires s'.workers[i].pc.Announcing? ==>
               var p := s'.workers[i].pc.p; p < |s.pieces.completed| && !s.pieces.completed[p]
    ensures forall p :: Completing(s'.workers[i].pc, p) ==>
              forall j :: 0 <= j < |s.workers| ==> !Completing(s.workers[j].pc, p)
  {
    forall p, j | Completing(s'.workers[i].pc, p) && 0 <= j < |s.workers| ensures !Completing(s.workers[j].pc, p) {
      assert WorkerSound(s.pieces, s.bus, s.workers[j].pc);
    }
  }

  lemma AnnounceStep(c: Config, s: State, i: nat)
    requires Typed(c, s) && Enabled(c, s, Work(i, Announce)) && Signalled(c, s)
    ensures Signalled(c, Apply(c, s, Work(i, Announce)))
  {
    hide PiecesAfter, BusAfter, SwarmAfter, PcAfter, SessionAfter, WorkerEnabled, WorkerTyped, Increasing, ListsSound,
      ChannelSound, Delivered, OneCompleter;
    var s', w, b := Apply(c, s, Work(i, Announce)), s.workers[i], s.bus;
    PcFacts(c, s, w, Announce);
    assert WorkerSound(s.pieces, b, w.pc);
    BusAfterAnnounce(b, w.pc.p, w.pc.size);
    assert WorkerSound(s'.pieces, s'.bus, s'.workers[i].pc);
    NoOtherCompleter(s, i, w.pc.p);
    forall j | 0 <= j < |s.workers| && j != i ensures s.workers[j].pc.Announcing? ==> s.workers[j].pc.p !in s'.bus.taken {
      PendingUnsent(s, j);
    }
    hide WorkerSound;
    DeliveredFramed(s, s', i);
    OneCompleterFramed(s, s', i);
    Reassemble(c, s, s', i);
  }

  lemma NoOtherCompleter(s: State, i: nat, p: nat)
    requires OneCompleter(s) && i < |s.workers| && Completing(s.workers[i].pc, p)
    ensures forall j :: 0 <= j < |s.workers| && j != i ==> !Completing(s.workers[j].pc, p)
  {
  }

  lemma SignalFacts(c: Config, s: State, i: nat)
    requires Typed(c, s) && Enabled(c, s, Work(i, Signal)) && Signalled(c, s)
    ensures var pc, b := s.workers[i].pc, s.bus;
            var b', pc' := BusAfter(b, pc, Signal), PcAfter(c, s, s.workers[i], Signal);
            && pc.Signalling? && !pc'.Announcing?
            && ListsSound(b') && ChannelsSound(b') && Extends(b, b') && b'.taken == b.taken
            && |b'.channels| == |b.channels|
            && WorkerSound(s.pieces, b', pc')
            && (forall p :: Completing(pc', p) ==> Completing(pc, p))
            && (forall ch :: 0 <= ch < |b.channels| ==>
                  && Called(b', ch) == Called(b, ch)
                  && (b.channels[ch].piece != pc.p ==> b'.channels[ch] == b.channels[ch])
                  && (Owes(pc, ch) ==> Owes(pc', ch) || Sent(b', ch)))
  {
    hide PiecesAfter, BusAfter, SwarmAfter, PcAfter, SessionAfter, WorkerEnabled, WorkerTyped, ListsSound, ChannelSound,
      Delivered, OneCompleter;
    var w, b := s.workers[i], s.bus;
    PcFacts(c, s, w, Signal);
    var pending := w.pc.pending;
    assert WorkerSound(s.pieces, b, w.pc);
    BusAfterSignal(b, w.pc);
    assert forall ch | ch in pending :: pending != [] && (ch == pending[0] || ch in pending[1..]);
    assert forall q :: 0 < q < |pending| ==> pending[0] < pending[q];
  }

  lemma SignalStep(c: Config, s: State, i: nat)
    requires Typed(c, s) && Enabled(c, s, Work(i, Signal)) && Signalled(c, s)
    ensures Signalled(c, Apply(c, s, Work(i, Signal)))
  {
    hide PiecesAfter, BusAfter, SwarmAfter, PcAfter, SessionAfter, WorkerEnabled, WorkerTyped, Increasing, ListsSound,
      ChannelSound, Delivered, OneCompleter, WorkerSound, TakenSound, Extends;
    var s' := Apply(c, s, Work(i, Signal));
    SignalFacts(c, s, i);
    PcFacts(c, s, s.workers[i], Signal);
    DeliveredFramed(s, s', i);
    OneCompleterFramed(s, s', i);
    NoOtherCompleter(s, i, s.workers[i].pc.p);
    TakenFramed(s.pieces, s'.pieces, s.bus, s'.bus);
    WorkerSoundFlags(s.pieces, s'.pieces, s'.bus, s'.workers[i].pc);
    forall j | 0 <= j < |s.workers| && j != i
      ensures s.workers[j].pc.Announcing? ==> s.workers[j].pc.p !in s.bus.taken
      ensures forall ch: nat :: Owes(s.workers[j].pc, ch) ==>
                ch < |s.bus.channels| && s.bus.channels[ch].piece != s.workers[i].pc.p
    {
      PendingUnsent(s, j);
      assert !Completing(s.workers[j].pc, s.workers[i].pc.p);
    }
    Reassemble(c, s, s', i);
  }

  lemma WorkerSoundFlags(d: Pieces, d': Pieces, b: Bus, pc: WorkerPC)
    requires WorkerSound(d, b, pc) && FlagsGrow(d, d')
    ensures WorkerSound(d', b, pc)
  {
  }

  lemma SignalledStep(c: Config, s: State, step: Step)
    requires Typed(c, s) && Enabled(c, s, step) && Signalled(c, s)
    ensures Signalled(c, Apply(c, s, step))
  {
    if step.Work? {
      if step.act.Announce? {
        AnnounceStep(c, s, step.i);
      } else if step.act.Signal? {
        SignalStep(c, s, step.i);
      } else {
        QuietStep(c, s, step.i, step.act);
      }
    } else {
      hide WorkerEnabled, WorkerTyped, PiecesAfter, BusAfter, SwarmAfter, WorkerAfter, ListsSound, ChannelSound, WorkerSound;
      var s' := Apply(c, s, step);
      assert s'.bus == s.bus && s'.workers == s.workers && s'.pieces.completed == s.pieces.completed;
      OnlyFlagsMatter(s.pieces, s'.pieces, s.bus, s.workers);
      assert forall ch :: Owed(s', ch) == Owed(s, ch);
    }
  }

  lemma OnlyFlagsMatter(d: Pieces, d': Pieces, b: Bus, ws: seq<Worker>)
    requires d'.completed == d.completed
    requires forall i :: 0 <= i < |ws| ==> WorkerSound(d, b, ws[i].pc)
    ensures forall i :: 0 <= i < |ws| ==> WorkerSound(d', b, ws[i].pc)
  {
  }

  // ----- What it means for the workers -----

  /** errPieceCancelledByOther is returned only for a piece that is already complete. */
  lemma CancelOnlyWhenComplete(c: Config, s: State, i: nat)
    requires Typed(c, s) && Signalled(c, s) && Enabled(c, s, Work(i, SeeCancel))
    ensures s.pieces.completed[s.workers[i].pc.p]
  {
    var ch := s.workers[i].pc.ch;
    assert ChannelSound(s.bus, ch);
  }

  /** After bus.complete(p), a channel for p has had exactly one signal if it was subscribed when complete took
      the list, and none otherwise. */
  lemma ExactlyOneSignal(c: Config, s: State, ch: nat)
    requires Signalled(c, s) && ch < |s.bus.channels|
    requires var p := s.bus.channels[ch].piece;
             forall i :: 0 <= i < |s.workers| ==> !Completing(s.workers[i].pc, p)
    ensures var p := s.bus.channels[ch].piece;
            s.bus.channels[ch].sent == if p in s.bus.taken && ch < s.bus.taken[p] then 1 else 0
  {
    assert ChannelSound(s.bus, ch);
    forall j | 0 <= j < |s.workers| ensures !Owes(s.workers[j].pc, ch) {
      assert WorkerSound(s.pieces, s.bus, s.workers[j].pc);
    }
  }
}
