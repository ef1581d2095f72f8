/** Who is known, dialled and connected: exactly who was learned, started and not ended. */
module EnginePeers {
  import opened Common
  import opened Messages
  import opened Pieces
  import opened EngineModel
  import opened EngineInvariant
  import opened EngineMessages
  import opened EngineHousekeeping
  import opened EngineTheorems
  import opened EngineHeard
  import opened EngineSteps

  // -------------------------------------------------------------------- addresses

  /** `base` and then each address of `addrs` that did not occur before. */
  function Firsts(base: seq<Addr>, addrs: seq<Addr>): seq<Addr> {
    if addrs == [] then base
    else
      var before := Firsts(base, addrs[..|addrs| - 1]);
      var last := addrs[|addrs| - 1];
      if last in before then before else before + [last]
  }

  /** Every address that trackers and users named, in order. */
  function Mentions(events: seq<Event>): seq<Addr> {
    if events == [] then []
    else
      var last := events[|events| - 1];
      Mentions(events[..|events| - 1]) + if last.Learned? then last.addrs else []
  }

  lemma {:induction false} FirstsConcat(base: seq<Addr>, a: seq<Addr>, b: seq<Addr>)
    ensures Firsts(base, a + b) == Firsts(Firsts(base, a), b)
  {
    if b == [] {
      assert a + b == a;
    } else {
      var n := |b| - 1;
      assert (a + b)[..|a| + n] == a + b[..n];
      FirstsConcat(base, a, b[..n]);
    }
  }

  lemma {:induction false} FirstsMembers(base: seq<Addr>, addrs: seq<Addr>, addr: Addr)
    ensures addr in Firsts(base, addrs) <==> addr in base || addr in addrs
  {
    if addrs != [] {
      var n := |addrs| - 1;
      assert addrs == addrs[..n] + [addrs[n]];
      FirstsMembers(base, addrs[..n], addr);
    }
  }

  /** What was dialled and what waits, in order; the known addresses are those. */
  ghost predicate InOrder(s: State, all: seq<Addr>) {
    s.dialed + s.queue == all && forall a :: a in s.known <==> a in all
  }

  lemma {:induction false} LearnOrder(s: State, addrs: seq<Addr>, all: seq<Addr>)
    requires InOrder(s, all)
    ensures InOrder(Learn(s, addrs), Firsts(all, addrs))
  {
    if addrs != [] {
      var n := |addrs| - 1;
      LearnOrder(s, addrs[..n], all);
      LearnKeeps(s, addrs[..n]);
      var t := Learn(s, addrs[..n]);
      assert t.dialed + (t.queue + [addrs[n]]) == t.dialed + t.queue + [addrs[n]];
    }
  }

  lemma {:induction false} DialOrder(m: Meta, s: State, all: seq<Addr>)
    requires InOrder(s, all)
    ensures InOrder(Dial(m, s), all)
    decreases |s.queue|
  {
    if s.connecting + |s.peers| < m.maxPeers && s.queue != [] {
      assert s.dialed + [s.queue[0]] + s.queue[1..] == s.dialed + s.queue;
      DialOrder(m, DialOne(s), all);
    }
  }

  /** The parts of the state that are about addresses not yet connected. */
  predicate SameAddresses(s: State, t: State) {
    t.known == s.known && t.queue == s.queue && t.dialed == s.dialed && t.nextId == s.nextId
  }

  predicate SameConnectors(s: State, t: State) {
    SameAddresses(s, t) && t.dialing == s.dialing && t.connecting == s.connecting
  }

  lemma FinishAddresses(m: Meta, s: State, id: nat, job: PieceJob, fault: Option<nat>)
    ensures SameConnectors(s, FinishPiece(m, s, id, job, fault).state)
  {}

  lemma PieceAddresses(m: Meta, s: State, id: nat, index: nat, begin: nat, data: seq<byte>, at: nat, fault: Option<nat>)
    requires id in s.peers
    ensures SameConnectors(s, OnPiece(m, s, id, index, begin, data, at, fault).state)
  {
    PieceWays(m, s, id, index, begin, data, at, fault);
    if Asked(s.peers[id], index, begin, data) {
      var t := s.(peers := s.peers[id := Receive(s.peers[id], begin, data, at)]);
      FinishAddresses(m, Taken(t, id), id, t.peers[id].job.value, fault);
    }
  }

  lemma TheirsAddresses(m: Meta, s: State, id: nat, bits: seq<bv8>, index: nat)
    requires id in s.peers
    ensures SameConnectors(s, OnBitfield(m, s, id, bits)) && SameConnectors(s, OnHave(m, s, id, index))
  {}

  lemma MessageAddresses(m: Meta, s: State, id: nat, message: Message, at: nat, fault: Option<nat>)
    ensures SameConnectors(s, OnMessage(m, s, id, message, at, fault).state)
  {
    if id in s.peers {
      var t := s.(peers := s.peers[id := s.peers[id].(state := Heard(s.peers[id].state, message))]);
      match message
      case Bitfield(bits) => TheirsAddresses(m, t, id, bits, 0);
      case Have(index) => TheirsAddresses(m, t, id, [], index);
      case Piece(index, begin, data) => PieceAddresses(m, t, id, index, begin, data, at, fault);
      case _ =>
    }
  }

  lemma PassAddresses(m: Meta, s: State, order: seq<nat>, again: seq<nat>, now: nat)
    requires Sound(m) && Inv(m, s) && PassesOk(m, s, order, again, now)
    ensures SameConnectors(s, Housekeeping(m, s, order, again, now))
  {
    VisitAllInv(m, s, order, now);
    var r := VisitAll(m, s, order, now);
    RemoveAllKeeps(r.state, r.dead);
  }

  lemma StepOrder(m: Meta, s: State, e: Event, all: seq<Addr>)
    requires Sound(m) && Inv(m, s) && InOrder(s, all)
    ensures InOrder(Step(m, s, e).state, if e.Learned? then Firsts(all, e.addrs) else all)
  {
    if Possible(m, s, e) {
      match e
      case Learned(addrs) => LearnOrder(s, addrs, all);
      case Dialled => DialOrder(m, s, all);
      case Received(id, message, at, fault) => MessageAddresses(m, s, id, message, at, fault);
      case Kept(order, again, at) => PassAddresses(m, s, order, again, at);
      case _ =>
    }
  }

  lemma {:induction false} RunOrder(m: Meta, s: State, events: seq<Event>)
    requires Sound(m) && Inv(m, s) && Run(m, s, events).Going? && InOrder(s, [])
    ensures InOrder(Run(m, s, events).state, Firsts([], Mentions(events)))
  {
    if events != [] {
      var init, last := events[..|events| - 1], events[|events| - 1];
      RunOrder(m, s, init);
      RunFine(m, s, init);
      StepOrder(m, Run(m, s, init).state, last, Firsts([], Mentions(init)));
      FirstsConcat([], Mentions(init), if last.Learned? then last.addrs else []);
    }
  }

  /**
   In every reachable state the addresses dialled, and behind them those that wait, are the addresses ever
   named, each once and in the order they were first named; and those are the known ones.
   */
  lemma DialledInOrder(m: Meta, disk: seq<byte>, start: nat, saved: set<nat>, events: seq<Event>, s: State, addr: Addr)
    requires Sound(m) && |disk| == m.total && Reachable(m, disk, start, saved, events, s)
    ensures s.dialed + s.queue == Firsts([], Mentions(events))
    ensures addr in s.known <==> addr in Mentions(events)
  {
    InitialInv(m, disk, start);
    ResumeInv(m, Initial(m, disk, start), saved, |m.hashes|);
    RunOrder(m, Resumed(m, disk, start, saved), events);
    FirstsMembers([], Mentions(events), addr);
  }

  // -------------------------------------------------------------------- connectors

  /** How many connectors one pass of the dial loop starts. */
  function Vacant(m: Meta, s: State): nat {
    Min(|s.queue|, Monus(m.maxPeers, s.connecting + |s.peers|))
  }

  lemma {:induction false} DialCounts(m: Meta, s: State)
    ensures var t, n := Dial(m, s), Vacant(m, s);
      && t.queue == s.queue[n..] && t.dialed == s.dialed + s.queue[..n]
      && t.nextId == s.nextId + n && t.connecting == s.connecting + n && t.peers == s.peers
    decreases |s.queue|
  {
    if Vacant(m, s) > 0 {
      var n := Vacant(m, s);
      DialCounts(m, DialOne(s));
      assert s.dialed + [s.queue[0]] + s.queue[1..][..n - 1] == s.dialed + s.queue[..n];
    } else {
      assert s.dialed + [] == s.dialed;
    }
  }

  /** The connectors after `n` addresses were dialled: address `k` of the queue under id `nextId + k`. */
  ghost predicate Dialling(s: State, dialing: map<nat, Addr>, n: nat)
    requires n <= |s.queue|
  {
    && (forall id :: id in dialing <==> id in s.dialing || s.nextId <= id < s.nextId + n)
    && (forall id :: id in dialing && s.nextId <= id < s.nextId + n ==> dialing[id] == s.queue[id - s.nextId])
    && (forall id :: id in s.dialing && id < s.nextId ==> dialing[id] == s.dialing[id])
  }

  lemma DialMore(s: State, dialing: map<nat, Addr>, n: nat)
    requires n < |s.queue| && Dialling(DialOne(s), dialing, n)
    ensures Dialling(s, dialing, n + 1)
  {
    var t := DialOne(s);
    assert s.nextId in t.dialing && s.nextId < t.nextId && dialing[s.nextId] == t.dialing[s.nextId] == s.queue[0];
    forall id | id in dialing && s.nextId <= id < s.nextId + n + 1 ensures dialing[id] == s.queue[id - s.nextId] {
      if id > s.nextId {
        assert dialing[id] == t.queue[id - t.nextId];
      }
    }
  }

  /**
   Dialling starts a connector, under the next id, for each address at the front of the queue, as many as
   there is room for, and for no other.
   */
  lemma {:induction false} DialMeaning(m: Meta, s: State)
    ensures var t, n := Dial(m, s), Vacant(m, s);
      && t.queue == s.queue[n..] && t.dialed == s.dialed + s.queue[..n]
      && t.nextId == s.nextId + n && t.connecting == s.connecting + n && t.peers == s.peers
      && Dialling(s, t.dialing, n)
    decreases |s.queue|
  {
    DialCounts(m, s);
    if Vacant(m, s) > 0 {
      DialMeaning(m, DialOne(s));
      DialMore(s, Dial(m, s).dialing, Vacant(m, s) - 1);
    }
  }

  /** A connector is outstanding until it answers, well or badly, and no longer. */
  lemma ConnectorEnds(m: Meta, s: State, e: Event, id: nat)
    requires Sound(m) && Inv(m, s) && id in s.dialing
    ensures var t := Step(m, s, e).state;
      && (id !in t.dialing <==> (e.Answered? || e.Refused?) && e.id == id)
      && (id !in t.dialing ==> t.dialing == s.dialing - {id} && t.connecting == s.connecting - 1)
  {
    assert Holds(ConnectionsAreCounted, m, s);
    assert s.connecting > 0;
    if Possible(m, s, e) {
      match e
      case Learned(addrs) => LearnKeeps(s, addrs);
      case Dialled => DialMeaning(m, s);
      case Received(other, message, at, fault) => MessageAddresses(m, s, other, message, at, fault);
      case Kept(order, again, at) => PassAddresses(m, s, order, again, at);
      case _ =>
    }
  }

  // ------------------------------------------------------------------------- peers

  /** The message ends the connection: a bitfield that is none, or the second bad copy of a piece. */
  ghost predicate Fatal(m: Meta, s: State, id: nat, message: Message) {
    match message
    case Bitfield(bits) => !WellFormed(bits, |m.hashes|)
    case Piece(index, begin, data) => Completes(m, s, id, index, begin, data, false, 1)
    case _ => false
  }

  /** Why a connected peer leaves. */
  ghost predicate Leaves(m: Meta, s: State, e: Event, id: nat) {
    match e
    case Died(other) => other == id
    case Received(other, message, _, _) => other == id && Fatal(m, s, id, message)
    case Kept(order, again, at) => PassesOk(m, s, order, again, at) && id in VisitAll(m, s, order, at).dead
    case _ => false
  }

  lemma FinishKeys(m: Meta, s: State, id: nat, job: PieceJob, fault: Option<nat>)
    requires id in s.peers && job.index < |m.hashes|
    ensures FinishPiece(m, s, id, job, fault).state.peers.Keys
         == if !Verifies(m, job.data, job.index) && job.failures + 1 >= MAX_VERIFY_FAILURES then s.peers.Keys - {id} else s.peers.Keys
  {}

  lemma PieceKeys(m: Meta, s: State, id: nat, index: nat, begin: nat, data: seq<byte>, at: nat, fault: Option<nat>)
    requires Sound(m) && Inv(m, s) && id in s.peers
    ensures var t := Step(m, s, Received(id, Message.Piece(index, begin, data), at, fault)).state;
      t.peers.Keys == if Completes(m, s, id, index, begin, data, false, 1) then s.peers.Keys - {id} else s.peers.Keys
  {
    if !Answers(s.peers[id], Message.Piece(index, begin, data)) {
      BlockIgnored(m, s, id, index, begin, data, at, fault);
    } else if !LastOne(s.peers[id], data) {
      var i := BlockTaken(m, s, id, index, begin, data, at, fault);
    } else {
      LastBlockLands(m, s, id, index, begin, data, at, fault);
      var p := s.peers[id];
      var job := Filling(p, begin, data);
      var done := p.(inFlight := [], downloadedFrom := p.downloadedFrom + |data|, lastUseful := at, job := Some(job));
      FinishKeys(m, Taken(s.(peers := s.peers[id := done]), id), id, job, fault);
    }
  }

  lemma MessageKeys(m: Meta, s: State, id: nat, message: Message, at: nat, fault: Option<nat>)
    requires Sound(m) && Inv(m, s) && id in s.peers
    ensures OnMessage(m, s, id, message, at, fault).state.peers.Keys
         == if Fatal(m, s, id, message) then s.peers.Keys - {id} else s.peers.Keys
  {
    var t := s.(peers := s.peers[id := s.peers[id].(state := Heard(s.peers[id].state, message))]);
    match message
    case Bitfield(bits) => BitfieldOutcome(m, t, id, bits);
    case Piece(index, begin, data) => PieceKeys(m, s, id, index, begin, data, at, fault);
    case _ =>
  }

  lemma PassKeys(m: Meta, s: State, order: seq<nat>, again: seq<nat>, now: nat)
    requires PassesOk(m, s, order, again, now)
    ensures Housekeeping(m, s, order, again, now).peers.Keys == s.peers.Keys - (set id | id in VisitAll(m, s, order, now).dead)
  {
    var r := VisitAll(m, s, order, now);
    RemoveAllKeeps(r.state, r.dead);
    TailOfHousekeeping(m, s, order, again, now);
  }

  /**
   A peer is connected from the answer of its connector until it leaves: its connection dies, it sends a
   bitfield that is none or a second bad copy, or a pass drops it. Nothing else adds or removes a peer.
   */
  lemma ConnectedIff(m: Meta, s: State, e: Event, id: nat)
    requires Sound(m) && Inv(m, s)
    ensures id in Step(m, s, e).state.peers
       <==> if id in s.peers then !Leaves(m, s, e, id) else e.Answered? && e.id == id && id in s.dialing
  {
    assert Holds(ConnectionsAreCounted, m, s);
    if Possible(m, s, e) {
      match e
      case Learned(addrs) => LearnKeeps(s, addrs);
      case Dialled => DialKeeps(m, s);
      case Received(other, message, at, fault) =>
        if other in s.peers {
          MessageKeys(m, s, other, message, at, fault);
        }
      case Kept(order, again, at) => PassKeys(m, s, order, again, at);
      case _ =>
    }
  }
}
