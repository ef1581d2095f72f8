/** Connections, housekeeping and choking keep the engine's invariant. */
module EngineHousekeeping {
  import opened Common
  import opened Messages
  import opened Requests
  import opened Pieces
  import opened Picker
  import opened Storage
  import opened EngineModel
  import opened JobInvariant
  import opened EngineInvariant
  import opened EngineMessages
  import Choke

  // ----------------------------------------------------------------- connections

  lemma ConnectedPeers(m: Meta, s: State, id: nat, q: Peer)
    requires Core(m, s) && id !in s.peers && q.job.None? && q.theirs == {} && q.state.amChoking
    ensures ActiveOk(s.active, s.peers[id := q])
    ensures CountsOk(m, s.counts, s.peers[id := q])
    ensures SlotsOk(s.peers[id := q])
  {
    assert Holds(PickerCountsWorkers, m, s);
    assert Holds(AvailabilityCountsPeers, m, s);
    assert Holds(SlotsAreBounded, m, s);
    forall piece: nat ensures ActiveCount(s.active, piece) == |Workers(s.peers[id := q], piece)| {
      assert Workers(s.peers[id := q], piece) == Workers(s.peers, piece);
    }
    forall i | 0 <= i < |s.counts| ensures s.counts[i] == |Havers(s.peers[id := q], i)| {
      assert Havers(s.peers[id := q], i) == Havers(s.peers, i);
    }
    assert Unchoked(s.peers[id := q]) == Unchoked(s.peers);
  }

  lemma ConnectedPeer(m: Meta, s: State, id: nat, capacity: nat, now: nat)
    ensures var t := Connected(m, s, id, capacity, now);
            var q := t.peers[id];
      && PeerOk(m, q) && q.job.None? && q.theirs == {} && q.state.amChoking
      && t == s.(connecting := Monus(s.connecting, 1), dialing := s.dialing - {id}, peers := s.peers[id := q])
  {
    SaidAfter([], Message.Bitfield(Pack(s.ours, |m.hashes|)));
  }

  lemma ConnectedClaim(m: Meta, s: State, id: nat, q: Peer, t: State, c: Claim)
    requires Inv(m, s) && id in s.dialing && id !in s.peers
    requires PeerOk(m, q) && q.job.None? && q.theirs == {} && q.state.amChoking
    requires t == s.(connecting := Monus(s.connecting, 1), dialing := s.dialing - {id}, peers := s.peers[id := q])
    ensures Holds(c, m, t)
  {
    assert Holds(c, m, s);
    match c
    case PickerCountsWorkers => ConnectedPeers(m, s, id, q);
    case AvailabilityCountsPeers => ConnectedPeers(m, s, id, q);
    case SlotsAreBounded => ConnectedPeers(m, s, id, q);
    case _ =>
  }

  lemma ConnectedInv(m: Meta, s: State, id: nat, capacity: nat, now: nat)
    requires Inv(m, s) && id in s.dialing
    ensures Inv(m, Connected(m, s, id, capacity, now))
  {
    var t := Connected(m, s, id, capacity, now);
    assert Holds(ConnectionsAreCounted, m, s);
    ConnectedPeer(m, s, id, capacity, now);
    forall c: Claim ensures Holds(c, m, t) {
      ConnectedClaim(m, s, id, t.peers[id], t, c);
    }
  }

  lemma ConnectFailedInv(m: Meta, s: State, id: nat)
    requires Inv(m, s) && id in s.dialing
    ensures Inv(m, ConnectFailed(s, id))
  {
    forall c: Claim ensures Holds(c, m, ConnectFailed(s, id)) {
      assert Holds(c, m, s);
      if c.ConnectionsAreCounted? {
        MapSize(s.dialing, id, 0);
      }
    }
  }

  lemma {:induction false} LearnInv(m: Meta, s: State, addrs: seq<Addr>)
    requires Inv(m, s)
    ensures Inv(m, Learn(s, addrs))
  {
    if addrs != [] {
      var init := addrs[..|addrs| - 1];
      LearnInv(m, s, init);
      var t, u := Learn(s, init), Learn(s, addrs);
      forall c: Claim ensures Holds(c, m, u) {
        assert Holds(c, m, t);
        if c.ConnectionsAreCounted? && u != t {
          assert u.dialed + u.queue == t.dialed + t.queue + [addrs[|addrs| - 1]];
        }
      }
    }
  }

  lemma DialOneCounted(m: Meta, s: State)
    requires DialOk(m, s) && s.queue != [] && s.connecting + |s.peers| < m.maxPeers
    ensures DialOk(m, DialOne(s))
  {
    MapSize(s.dialing, s.nextId, s.queue[0]);
    assert DialOne(s).dialed + DialOne(s).queue == s.dialed + s.queue;
  }

  lemma DialOneInv(m: Meta, s: State)
    requires Inv(m, s) && s.queue != [] && s.connecting + |s.peers| < m.maxPeers
    ensures Inv(m, DialOne(s))
  {
    assert Holds(ConnectionsAreCounted, m, s);
    DialOneCounted(m, s);
    forall c: Claim ensures Holds(c, m, DialOne(s)) {
      assert Holds(c, m, s);
    }
  }

  lemma {:induction false} DialInv(m: Meta, s: State)
    requires Inv(m, s)
    ensures Inv(m, Dial(m, s))
    decreases |s.queue|
  {
    if s.connecting + |s.peers| < m.maxPeers && s.queue != [] {
      DialOneInv(m, s);
      DialInv(m, DialOne(s));
    }
  }

  lemma {:induction false} LearnKeeps(s: State, addrs: seq<Addr>)
    ensures var t := Learn(s, addrs); t == s.(known := t.known, queue := t.queue)
  {
    if addrs != [] {
      LearnKeeps(s, addrs[..|addrs| - 1]);
    }
  }

  lemma {:induction false} DialKeeps(m: Meta, s: State)
    ensures var t := Dial(m, s);
      t == s.(queue := t.queue, dialing := t.dialing, dialed := t.dialed, nextId := t.nextId, connecting := t.connecting)
    decreases |s.queue|
  {
    if s.connecting + |s.peers| < m.maxPeers && s.queue != [] {
      DialKeeps(m, DialOne(s));
    }
  }

  // ------------------------------------------------------------------ one visit

  lemma {:induction false} FillExtends(p: Peer, now: nat)
    ensures Extends(p.tx, Fill(p, now).peer.tx)
    decreases if p.job.Some? then |p.job.value.pending| else 0
  {
    if p.job.Some? && |p.inFlight| < PIPELINE_DEPTH && p.job.value.pending != [] {
      var job := p.job.value;
      var b := job.pending[0];
      var popped := p.(job := Some(job.(pending := job.pending[1..])));
      var request := BlockRequest(job.index, b.begin, b.length);
      if request in Sent(p.inFlight) {
        FillExtends(popped, now);
      } else {
        SendExtends(p.tx, Message.Request(job.index, b.begin, b.length));
        FillExtends(popped.(inFlight := p.inFlight + [Issued(request, now)],
                            tx := Send(p.tx, Message.Request(job.index, b.begin, b.length))), now);
      }
    }
  }

  /** Nothing more can be asked of the peer for its job now. */
  predicate Driven(p: Peer) {
    p.job.Some? && CanRequest(p.state) ==> |p.inFlight| == PIPELINE_DEPTH || p.job.value.pending == []
  }

  /** Telling a peer of our interest changes nothing else. */
  lemma InterestOk(m: Meta, p: Peer)
    requires PeerOk(m, p) && Open(p.tx)
    ensures var q := p.(tx := Send(p.tx, Message.Interested), state := p.state.(amInterested := true));
      PeerOk(m, q) && Still(p, q)
  {
    SaidAfter(p.tx.sent, Message.Interested);
  }

  /** What driving a peer may do to it, and what it owes to one that is not given up. */
  ghost predicate Drove(m: Meta, p: Peer, v: Visit) {
    && PeerOk(m, v.peer) && Unfinished(v.peer) && Still(p, v.peer)
    && v.peer.theirsKnown == p.theirsKnown
    && (!v.dead ==> Driven(v.peer))
  }

  lemma FillDrove(m: Meta, p: Peer, now: nat)
    requires PeerOk(m, p) && Unfinished(p)
    ensures Drove(m, p, Fill(p, now))
  {
    FillOk(m, p, now);
    FillExtends(p, now);
  }

  /** Once the peer knows of our interest: requests, if it takes any. */
  lemma AskOk(m: Meta, p: Peer, q: Peer, now: nat)
    requires PeerOk(m, q) && Unfinished(q) && Still(p, q) && q.theirsKnown == p.theirsKnown
    ensures Drove(m, p, if CanRequest(q.state) then Fill(q, now) else Visit(q, false))
  {
    if CanRequest(q.state) {
      FillDrove(m, q, now);
    }
  }

  lemma DriveOk(m: Meta, p: Peer, complete: bool, now: nat)
    requires PeerOk(m, p) && Unfinished(p)
    ensures Drove(m, p, Drive(p, complete, now))
  {
    if p.job.None? || (Monus(now, p.lastUseful) > SNUB_TIMEOUT && !complete) || (!p.state.amInterested && !Open(p.tx)) {
      assert Drive(p, complete, now).peer == p;
    } else if p.state.amInterested {
      AskOk(m, p, p, now);
    } else {
      InterestOk(m, p);
      AskOk(m, p, p.(tx := Send(p.tx, Message.Interested), state := p.state.(amInterested := true)), now);
    }
  }

  lemma ExpirePeer(m: Meta, p: Peer, now: nat)
    requires PeerOk(m, p)
    ensures PeerOk(m, Expire(p, now)) && Still(p, Expire(p, now))
    ensures Unfinished(p) ==> Unfinished(Expire(p, now))
  {
    ExpireOk(m, p, now);
    ExpiryMembers(p.inFlight, now, BLOCK_TIMEOUT);
  }

  lemma HireActive(active: Active, peers: map<nat, Peer>, id: nat, q: Peer, index: nat)
    requires ActiveOk(active, peers) && id in peers && peers[id].job.None? && WorksOn(q, index)
    requires ActiveCount(active, index) < ENDGAME_DUP
    ensures ActiveOk(Started(active, index), peers[id := q])
  {
    forall piece: nat ensures ActiveCount(Started(active, index), piece) == |Workers(peers[id := q], piece)| {
      SetWorkers(peers, id, q, piece);
      assert id !in Workers(peers, piece);
      if piece != index {
        assert Workers(peers[id := q], piece) == Workers(peers, piece);
      }
    }
  }

  /** An idle peer gets a job for a missing piece below the cap. */
  lemma HireInv(m: Meta, s: State, id: nat, index: nat)
    requires Sound(m) && Inv(m, s) && id in s.peers && s.peers[id].job.None?
    requires index < |m.hashes| && index !in s.ours && ActiveCount(s.active, index) < ENDGAME_DUP
    ensures Inv(m, s.(active := Started(s.active, index),
                      peers := s.peers[id := s.peers[id].(job := Some(StartJob(index, Size(m, index))))]))
  {
    var p := s.peers[id];
    var q := p.(job := Some(StartJob(index, Size(m, index))));
    var t := s.(active := Started(s.active, index), peers := s.peers[id := q]);
    CoreFromInv(m, s);
    PeerFromCore(m, s, id);
    PieceInside(m.pieceLength, m.total, |m.hashes|, index);
    StartParts(index, Size(m, index));
    forall c: Claim ensures Holds(c, m, t) {
      assert Holds(c, m, s);
      match c
      case PickerCountsWorkers => HireActive(s.active, s.peers, id, q, index);
      case AvailabilityCountsPeers => TheirsCounts(m, s.counts, s.peers, id, q, s.counts);
      case SlotsAreBounded => KeepSlots(s.peers, id, q);
      case _ =>
    }
  }

  /** An idle peer that could help finds every missing piece it has at the cap. */
  ghost predicate Settled(m: Meta, s: State, p: Peer) {
    p.job.None? && p.theirsKnown ==>
      forall j :: 0 <= j < |m.hashes| && Candidate(s.ours, p.theirs, j) ==> ActiveCount(s.active, j) >= ENDGAME_DUP
  }

  lemma AssignInv(m: Meta, s: State, id: nat)
    requires Sound(m) && Inv(m, s) && id in s.peers
    ensures Inv(m, Assign(m, s, id)) && Settled(m, Assign(m, s, id), Assign(m, s, id).peers[id])
  {
    var p := s.peers[id];
    ChooseMeaning(s.active, ENDGAME_DUP, s.ours, p.theirs, s.counts, |m.hashes|);
    if p.job.None? && p.theirsKnown {
      var pick := Choose(s.active, ENDGAME_DUP, s.ours, p.theirs, s.counts, |m.hashes|);
      if pick.Some? {
        HireInv(m, s, id, pick.value);
      }
    }
  }

  lemma DriveInv(m: Meta, s: State, id: nat, complete: bool, now: nat)
    requires Inv(m, s) && id in s.peers
    ensures var v := Drive(s.peers[id], complete, now);
      && Inv(m, SetPeer(s, id, v.peer)) && (!v.dead ==> Driven(v.peer))
      && v.peer.job.Some? == s.peers[id].job.Some?
      && v.peer.theirs == s.peers[id].theirs && v.peer.theirsKnown == s.peers[id].theirsKnown
  {
    CoreFromInv(m, s);
    PeerFromCore(m, s, id);
    DriveOk(m, s.peers[id], complete, now);
    KeepInv(m, s, id, Drive(s.peers[id], complete, now).peer);
  }

  /** A visit in three steps: expire, assign, drive. */
  lemma VisitInv(m: Meta, r: Round, id: nat, now: nat)
    requires Sound(m) && Inv(m, r.state) && id in r.state.peers
    ensures var after := VisitPeer(m, r, id, now);
      && Inv(m, after.state)
      && (id in after.dead || (Driven(after.state.peers[id]) && Settled(m, after.state, after.state.peers[id])))
  {
    var s := r.state;
    CoreFromInv(m, s);
    PeerFromCore(m, s, id);
    ExpirePeer(m, s.peers[id], now);
    KeepInv(m, s, id, Expire(s.peers[id], now));
    var s1 := SetPeer(s, id, Expire(s.peers[id], now));
    AssignInv(m, s1, id);
    var s2 := Assign(m, s1, id);
    DriveInv(m, s2, id, Complete(m, s2), now);
  }

  // ------------------------------------------------------------- the whole pass

  /** A peer that was visited and not given up is driven and settled. */
  ghost predicate Served(m: Meta, r: Round, id: nat)
    requires id in r.state.peers
  {
    id in r.dead || (Driven(r.state.peers[id]) && Settled(m, r.state, r.state.peers[id]))
  }

  lemma StaysServed(m: Meta, r: Round, id: nat, now: nat, earlier: nat)
    requires id in r.state.peers && earlier in r.state.peers && earlier != id && Served(m, r, earlier)
    ensures Served(m, VisitPeer(m, r, id, now), earlier)
  {
    var t := VisitPeer(m, r, id, now);
    if earlier !in r.dead {
      var p := r.state.peers[earlier];
      if p.job.None? && p.theirsKnown {
        forall j | 0 <= j < |m.hashes| && Candidate(r.state.ours, p.theirs, j)
          ensures ActiveCount(t.state.active, j) >= ENDGAME_DUP
        {
          assert j in r.state.active;
        }
      }
    }
  }

  lemma {:induction false} VisitAllInv(m: Meta, s: State, order: seq<nat>, now: nat)
    requires Sound(m) && Inv(m, s) && NoDup(order) && forall id :: id in order ==> id in s.peers
    ensures var r := VisitAll(m, s, order, now);
      && Inv(m, r.state) && r.state == s.(peers := r.state.peers, active := r.state.active)
      && (forall id :: id in order ==> Served(m, r, id))
      && (forall id :: id in r.dead ==> id in order)
  {
    if order != [] {
      var init, last := order[..|order| - 1], order[|order| - 1];
      assert order == init + [last];
      NoDupInit(order);
      VisitAllInv(m, s, init, now);
      var r := VisitAll(m, s, init, now);
      VisitInv(m, r, last, now);
      forall id | id in order ensures Served(m, VisitPeer(m, r, last, now), id) {
        if id != last {
          StaysServed(m, r, last, now, id);
        }
      }
    }
  }

  lemma {:induction false} RemoveAllKeeps(s: State, ids: seq<nat>)
    ensures var t := RemoveAll(s, ids);
      && (forall id :: id in t.peers <==> id in s.peers && id !in ids)
      && (forall id :: id in t.peers ==> t.peers[id] == s.peers[id])
      && t == s.(peers := t.peers, counts := t.counts, active := t.active)
      && (ids == [] ==> t == s)
  {
    if ids != [] {
      var init, last := ids[..|ids| - 1], ids[|ids| - 1];
      assert ids == init + [last];
      RemoveAllKeeps(s, init);
    }
  }

  // -------------------------------------------------------------------- rebalance

  lemma RechokeOk(m: Meta, p: Peer, unchoke: bool)
    requires PeerOk(m, p)
    ensures var q := Rechoke(p, unchoke);
      && PeerOk(m, q) && q.job == p.job && q.theirs == p.theirs && (Open(q.tx) ==> Open(p.tx))
      && (Open(q.tx) ==> q.state.amChoking != unchoke)
      && q.state.amInterested == p.state.amInterested && q.state.peerChoking == p.state.peerChoking
      && q.inFlight == p.inFlight && q.theirsKnown == p.theirsKnown
  {
    SaidAfter(p.tx.sent, Message.Unchoke);
    SaidAfter(p.tx.sent, Message.Choke);
  }

  lemma {:induction false} CandidatesAre(peers: map<nat, Peer>, order: seq<nat>)
    requires forall id :: id in order ==> id in peers
    ensures forall id :: id in Candidates(peers, order) <==> id in order && WantsSlot(peers[id])
  {
    if order != [] {
      var init, last := order[..|order| - 1], order[|order| - 1];
      assert order == init + [last];
      CandidatesAre(peers, init);
    }
  }

  /** The rates in map order are the rates as a set, with distinct ids. */
  lemma RatesInOrder(peers: map<nat, Peer>, order: seq<nat>) returns (rates: seq<Choke.Rate>)
    requires IsOrder(order, peers.Keys)
    ensures Choke.DistinctIds(rates) && Choke.Elements(rates) == Rates(peers)
  {
    rates := seq(|order|, i requires 0 <= i < |order| => RateOf(order[i], peers[order[i]]));
    forall r ensures r in Choke.Elements(rates) <==> r in Rates(peers) {
      if r in Rates(peers) {
        var id :| id in peers && r == RateOf(id, peers[id]);
        assert id in order;
        var i :| 0 <= i < |order| && order[i] == id;
        assert rates[i] == r;
      }
      if r in rates {
        var i :| 0 <= i < |rates| && rates[i] == r;
        assert order[i] in peers;
      }
    }
  }

  /** The peers the rebalance of `s` wants unchoked. */
  function Chosen(s: State, order: seq<nat>, now: nat): set<nat>
    requires forall id :: id in order ==> id in s.peers
  {
    Choke.Unchoked(Rates(s.peers), REGULAR_UNCHOKE_SLOTS,
                   Choke.Rotate(s.rotor, OPTIMISTIC_INTERVAL, Candidates(s.peers, order), now).current)
  }

  lemma ChosenFew(s: State, order: seq<nat>, now: nat)
    requires IsOrder(order, s.peers.Keys)
    ensures |Chosen(s, order, now)| <= REGULAR_UNCHOKE_SLOTS + 1
  {
    var rates := RatesInOrder(s.peers, order);
    Choke.UnchokedSize(rates, REGULAR_UNCHOKE_SLOTS,
                       Choke.Rotate(s.rotor, OPTIMISTIC_INTERVAL, Candidates(s.peers, order), now).current);
  }

  ghost predicate Rechoked(m: Meta, p: Peer, q: Peer, unchoke: bool) {
    && PeerOk(m, q) && q.job == p.job && q.theirs == p.theirs
    && (Open(q.tx) ==> q.state.amChoking != unchoke)
  }

  ghost predicate AllRechoked(m: Meta, peers: map<nat, Peer>, after: map<nat, Peer>, chosen: set<nat>) {
    && after.Keys == peers.Keys
    && forall id :: id in after ==> Rechoked(m, peers[id], after[id], id in chosen)
  }

  lemma RechokedSums(m: Meta, s: State, after: map<nat, Peer>, chosen: set<nat>)
    requires Core(m, s) && AllRechoked(m, s.peers, after, chosen) && |chosen| <= REGULAR_UNCHOKE_SLOTS + 1
    ensures ActiveOk(s.active, after) && CountsOk(m, s.counts, after) && SlotsOk(after) && |after| == |s.peers|
  {
    assert Holds(PickerCountsWorkers, m, s);
    assert Holds(AvailabilityCountsPeers, m, s);
    forall piece: nat ensures ActiveCount(s.active, piece) == |Workers(after, piece)| {
      assert Workers(after, piece) == Workers(s.peers, piece);
    }
    forall i | 0 <= i < |s.counts| ensures s.counts[i] == |Havers(after, i)| {
      assert Havers(after, i) == Havers(s.peers, i);
    }
    assert Unchoked(after) <= chosen;
    SubsetSize(Unchoked(after), chosen);
    assert |after| == |after.Keys| && |s.peers| == |s.peers.Keys|;
  }

  /** The rotor's choice is a connected peer that the rebalance unchokes. */
  lemma RotorChoice(s: State, order: seq<nat>, now: nat)
    requires IsOrder(order, s.peers.Keys)
    ensures var rotor := Choke.Rotate(s.rotor, OPTIMISTIC_INTERVAL, Candidates(s.peers, order), now);
      rotor.current.Some? ==>
        && rotor.current.value in s.peers && WantsSlot(s.peers[rotor.current.value])
        && rotor.current.value in Chosen(s, order, now)
  {
    CandidatesAre(s.peers, order);
    var candidates := Candidates(s.peers, order);
    var rotor := Choke.Rotate(s.rotor, OPTIMISTIC_INTERVAL, candidates, now);
    if rotor.current.Some? {
      assert rotor.current.value in candidates;
      assert RateOf(rotor.current.value, s.peers[rotor.current.value]) in Rates(s.peers);
    }
  }

  lemma RebalanceRechokes(m: Meta, s: State, order: seq<nat>, now: nat)
    requires Core(m, s) && IsOrder(order, s.peers.Keys)
    ensures AllRechoked(m, s.peers, Rebalance(s, order, now).peers, Chosen(s, order, now))
  {
    var chosen := Chosen(s, order, now);
    forall id | id in s.peers ensures Rechoked(m, s.peers[id], Rechoke(s.peers[id], id in chosen), id in chosen) {
      PeerFromCore(m, s, id);
      RechokeOk(m, s.peers[id], id in chosen);
    }
  }

  lemma RebalanceRotor(m: Meta, s: State, order: seq<nat>, now: nat)
    requires Inv(m, s) && IsOrder(order, s.peers.Keys)
    requires AllRechoked(m, s.peers, Rebalance(s, order, now).peers, Chosen(s, order, now))
    ensures RotorOk(Rebalance(s, order, now))
  {
    assert Holds(ConnectionsAreCounted, m, s);
    RotorChoice(s, order, now);
  }

  lemma RebalanceInv(m: Meta, s: State, order: seq<nat>, now: nat)
    requires Inv(m, s) && IsOrder(order, s.peers.Keys)
    ensures Inv(m, Rebalance(s, order, now))
  {
    var t := Rebalance(s, order, now);
    CoreFromInv(m, s);
    RebalanceRechokes(m, s, order, now);
    ChosenFew(s, order, now);
    RechokedSums(m, s, t.peers, Chosen(s, order, now));
    RebalanceRotor(m, s, order, now);
    forall c: Claim ensures Holds(c, m, t) {
      assert Holds(c, m, s);
    }
  }

  lemma HousekeepingInv(m: Meta, s: State, order: seq<nat>, again: seq<nat>, now: nat)
    requires Sound(m) && Inv(m, s) && PassesOk(m, s, order, again, now)
    ensures Inv(m, Housekeeping(m, s, order, again, now))
  {
    VisitAllInv(m, s, order, now);
    var r := VisitAll(m, s, order, now);
    RemoveAllInv(m, r.state, r.dead);
    var t := RemoveAll(r.state, r.dead);
    if Monus(now, t.lastChoke) >= CHOKE_INTERVAL {
      CountersInv(m, t, t.uploaded, now);
      RebalanceInv(m, t.(lastChoke := now), again, now);
    }
  }
}
