/**
 Where the engine does not keep what its parts promise: connection ids and what
 peers know after a recheck, the optimistic slot, uploads past a piece, and a helper
 that is dropped unasked. Each comes with the exact condition and, where a run leads
 there, that run.
 */
module EngineLimits {
  import opened Common
  import opened Messages
  import opened Requests
  import opened Pieces
  import opened Picker
  import opened Storage
  import opened EngineModel
  import opened JobInvariant
  import opened EngineInvariant
  import opened EngineMessages
  import opened EngineHousekeeping
  import opened EngineTheorems
  import opened EngineTold
  import opened EngineSteps
  import opened EnginePeers
  import Choke

  // ------------------------------------------------------------ ids after a recheck

  lemma ReusedCounts(m: Meta, counts: seq<nat>, peers: map<nat, Peer>, id: nat, q: Peer)
    requires CountsOk(m, counts, peers) && id in peers && peers[id].theirs <= Below(|m.hashes|) && q.theirs == {}
    ensures CountsOk(m, counts, peers[id := q]) <==> peers[id].theirs == {}
  {
    if peers[id].theirs == {} {
      TheirsCounts(m, counts, peers, id, q, counts);
    } else {
      var i :| i in peers[id].theirs;
      SetHavers(peers, id, q, i);
      assert id in Havers(peers, i);
    }
  }

  lemma ReusedActive(active: Active, peers: map<nat, Peer>, id: nat, q: Peer)
    requires ActiveOk(active, peers) && id in peers && q.job.None?
    ensures ActiveOk(active, peers[id := q]) <==> peers[id].job.None?
  {
    if peers[id].job.None? {
      TheirsActive(active, peers, id, q);
    } else {
      var piece := peers[id].job.value.index;
      SetWorkers(peers, id, q, piece);
      assert id in Workers(peers, piece);
      assert ActiveCount(active, piece) != |Workers(peers[id := q], piece)|;
    }
  }

  /**
   A connector that answers with an id still in use keeps the availability right exactly
   when the overwritten peer had no pieces, and the picker right exactly when it had no job.
   */
  lemma ReusedIdIff(m: Meta, s: State, id: nat, capacity: nat, now: nat)
    requires PeersOk(m, s.peers) && CountsOk(m, s.counts, s.peers) && ActiveOk(s.active, s.peers)
    requires id in s.peers && id in s.dialing
    ensures var t := Connected(m, s, id, capacity, now);
      && Step(m, s, Answered(id, capacity, now)) == Going(t)
      && (CountsOk(m, t.counts, t.peers) <==> s.peers[id].theirs == {})
      && (ActiveOk(t.active, t.peers) <==> s.peers[id].job.None?)
  {
    var q := Connected(m, s, id, capacity, now).peers[id];
    assert PeerOk(m, s.peers[id]);
    ReusedCounts(m, s.counts, s.peers, id, q);
    ReusedActive(s.active, s.peers, id, q);
  }

  /** Starting the loop once more is safe exactly when no peer, no connector and no rotor choice has an id. */
  lemma RestartIff(m: Meta, s: State)
    requires Inv(m, s)
    ensures Inv(m, Restarted(s)) <==> s.peers == map[] && s.dialing == map[] && s.rotor.current.None?
  {
    var t := Restarted(s);
    assert Holds(ConnectionsAreCounted, m, s);
    if s.peers == map[] && s.dialing == map[] && s.rotor.current.None? {
      forall c: Claim ensures Holds(c, m, t) {
        assert Holds(c, m, s);
      }
    }
    if Inv(m, t) {
      assert Holds(ConnectionsAreCounted, m, t) && Holds(OptimisticIsUnchoked, m, t);
      assert s.peers.Keys == {} && s.dialing.Keys == {};
    }
  }

  /** So a complete run whose final check sends it round again stays sound exactly if all is quiet then. */
  lemma RecheckIff(m: Meta, s: State, disk: seq<byte>)
    requires Sound(m) && Inv(m, s) && Complete(m, s) && |disk| == m.total
    ensures Inv(m, Restarted(FinalCheck(m, s.(disk := disk)).state))
       <==> s.peers == map[] && s.dialing == map[] && s.rotor.current.None?
  {
    FinalCheckRepairs(m, s, disk);
    RestartIff(m, FinalCheck(m, s.(disk := disk)).state);
  }

  /** After a restart a connector gets the id of a connected peer exactly if one has an id below the number dialled. */
  lemma CollisionIff(m: Meta, s: State)
    requires s.dialing.Keys !! s.peers.Keys
    ensures var t := Dial(m, Restarted(s));
      (exists id :: id in t.peers && id in t.dialing) <==> exists id :: id in s.peers && id < Vacant(m, s)
  {
    var t := Dial(m, Restarted(s));
    DialMeaning(m, Restarted(s));
    assert Vacant(m, Restarted(s)) == Vacant(m, s);
    if exists id :: id in s.peers && id < Vacant(m, s) {
      var id :| id in s.peers && id < Vacant(m, s);
      assert id in t.peers && id in t.dialing;
    }
    if exists id :: id in t.peers && id in t.dialing {
      var id :| id in t.peers && id in t.dialing;
      assert id in s.peers && id !in s.dialing;
    }
  }

  // ------------------------------------------------------- what peers know after a recheck

  /**
   The final check tells nobody of the pieces it gives up. After a complete run the open channels
   know what is left exactly if nothing was bad or no channel is open.
   */
  lemma RecheckToldIff(m: Meta, s: State, disk: seq<byte>)
    requires Sound(m) && Inv(m, s) && Complete(m, s) && ToldOk(m, s.ours, s.peers)
    ensures var c := FinalCheck(m, s.(disk := disk));
      (forall id :: id in c.state.peers && Open(c.state.peers[id].tx) ==>
         Told(|m.hashes|, c.state.peers[id].tx.sent) == c.state.ours)
      <==> c.bad == 0 || forall id :: id in s.peers ==> !Open(s.peers[id].tx)
  {
    FinalCheckRepairs(m, s, disk);
    assert Holds(OwnedVerifiesOnDisk, m, s);
    CompleteIff(s.ours, |m.hashes|);
    var c := FinalCheck(m, s.(disk := disk));
    CompleteIff(c.state.ours, |m.hashes|);
  }

  // -------------------------------------------------------------- the optimistic slot

  /**
   Before its interval is over the slot keeps its peer exactly while that peer is connected,
   interested and choked. The engine unchokes whom the rotor chose, so that is only ever a peer
   whose channel has closed.
   */
  lemma OptimisticHeldIff(m: Meta, s: State, order: seq<nat>, now: nat)
    requires Inv(m, s) && IsOrder(order, s.peers.Keys) && s.rotor.current.Some?
    requires !Choke.Due(s.rotor, OPTIMISTIC_INTERVAL, now)
    ensures var id := s.rotor.current.value;
            var next := Choke.Rotate(s.rotor, OPTIMISTIC_INTERVAL, Candidates(s.peers, order), now);
      && (next.current == s.rotor.current <==> id in s.peers && WantsSlot(s.peers[id]))
      && (next.current == s.rotor.current ==> !Open(s.peers[id].tx))
  {
    assert Holds(OptimisticIsUnchoked, m, s);
    CandidatesAre(s.peers, order);
    Choke.HoldsIff(s.rotor, OPTIMISTIC_INTERVAL, Candidates(s.peers, order), now);
  }

  /**
   While its channel is open the rotor therefore never advances along the candidates: due or not,
   every rebalance starts again at the first one in map order, or chooses none if there is none.
   */
  lemma OptimisticStartsOver(m: Meta, s: State, order: seq<nat>, now: nat)
    requires Inv(m, s) && IsOrder(order, s.peers.Keys)
    requires s.rotor.current.Some? && s.rotor.current.value in s.peers ==> Open(s.peers[s.rotor.current.value].tx)
    ensures var candidates := Candidates(s.peers, order);
      Choke.Rotate(s.rotor, OPTIMISTIC_INTERVAL, candidates, now).current
      == if candidates == [] then None else Some(candidates[0])
  {
    assert Holds(OptimisticIsUnchoked, m, s);
    CandidatesAre(s.peers, order);
  }

  /** A peer that only the optimistic slot unchoked is choked again by the very next rebalance. */
  lemma OptimisticDropped(m: Meta, s: State, order: seq<nat>, now: nat, id: nat)
    requires Inv(m, s) && IsOrder(order, s.peers.Keys)
    requires s.rotor.current == Some(id) && id in s.peers && Open(s.peers[id].tx)
    requires id !in Choke.Regular(Rates(s.peers), REGULAR_UNCHOKE_SLOTS)
    ensures var t := Rebalance(s, order, now);
      && !s.peers[id].state.amChoking && id in t.peers && t.peers[id].state.amChoking
      && t.peers[id].tx.sent == s.peers[id].tx.sent + [Message.Choke]
  {
    assert Holds(OptimisticIsUnchoked, m, s);
    CandidatesAre(s.peers, order);
    OptimisticStartsOver(m, s, order, now);
  }

  // ------------------------------------------------------------------------- uploads

  /** Whether an upload lies inside the piece it was asked from. */
  predicate InsidePiece(m: Meta, index: nat, begin: nat, length: nat) {
    begin + length <= Size(m, index)
  }

  lemma UploadInside(m: Meta, disk: seq<byte>, index: nat, begin: nat, length: nat)
    requires Sound(m) && |disk| == m.total && index < |m.hashes| && InsidePiece(m, index, begin, length)
    ensures PieceOnDisk(m, disk, index).Some? && index * m.pieceLength + begin + length <= |disk|
    ensures |PieceOnDisk(m, disk, index).value| == Size(m, index)
    ensures disk[index * m.pieceLength + begin..index * m.pieceLength + begin + length]
         == PieceOnDisk(m, disk, index).value[begin..begin + length]
  {
    PieceInside(m.pieceLength, m.total, |m.hashes|, index);
    SliceOfSlice(disk, index * m.pieceLength, Size(m, index), begin, length);
  }

  lemma PastPiece(m: Meta, index: nat, end: nat)
    requires Sound(m) && index < |m.hashes| && end > Size(m, index)
    ensures index * m.pieceLength + end <= m.total ==> index + 1 < |m.hashes| && end > m.pieceLength
  {
    PieceInside(m.pieceLength, m.total, |m.hashes|, index);
  }

  /**
   What an upload is worth. Inside its piece it is a slice of bytes that verify; the source does not
   ask for that, and a request that runs past the piece takes bytes of the pieces behind it.
   */
  lemma UploadIff(m: Meta, s: State, index: nat, begin: nat, length: nat)
    requires Sound(m) && Inv(m, s) && index in s.ours
    ensures index < |m.hashes| && GoodOnDisk(m, s.disk, index)
    ensures InsidePiece(m, index, begin, length) ==>
      && index * m.pieceLength + begin + length <= |s.disk|
      && s.disk[index * m.pieceLength + begin..index * m.pieceLength + begin + length]
      == PieceOnDisk(m, s.disk, index).value[begin..begin + length]
    ensures !InsidePiece(m, index, begin, length) && index * m.pieceLength + begin + length <= |s.disk| ==>
      index + 1 < |m.hashes| && begin + length > m.pieceLength
  {
    assert Holds(OwnedVerifiesOnDisk, m, s);
    if InsidePiece(m, index, begin, length) {
      UploadInside(m, s.disk, index, begin, length);
    } else {
      PastPiece(m, index, begin + length);
    }
  }

  /** So a peer that may be served and asks behind our piece 0 gets a byte of piece 1, which we lack. */
  lemma ServesUnowned(m: Meta, s: State, id: nat)
    requires Sound(m) && Inv(m, s) && id in s.peers && MayUpload(s.peers[id].state) && Open(s.peers[id].tx)
    requires 0 in s.ours && 1 !in s.ours && |m.hashes| > 1
    ensures |s.disk| > m.pieceLength
    ensures var t := OnRequest(m, s, id, 0, m.pieceLength, 1);
      && t.uploaded == s.uploaded + 1 && id in t.peers
      && t.peers[id].tx.sent == s.peers[id].tx.sent + [Message.Piece(0, m.pieceLength, [s.disk[m.pieceLength]])]
  {
    assert Holds(OwnedVerifiesOnDisk, m, s);
    PieceInside(m.pieceLength, m.total, |m.hashes|, 1);
    assert s.disk[m.pieceLength..m.pieceLength + 1] == [s.disk[m.pieceLength]];
  }

  // -------------------------------------------------------------- helpers never asked

  lemma FillAsks(m: Meta, p: Peer, now: nat)
    requires JobOk(m, p) && Requested(p) && Open(p.tx)
    ensures var v := Fill(p, now);
      v.dead ==> v.peer.tx != p.tx
  {
    FillOk(m, p, now);
  }

  lemma DriveAsks(m: Meta, p: Peer, complete: bool, now: nat)
    requires PeerOk(m, p) && Open(p.tx)
    ensures var v := Drive(p, complete, now);
      v.dead && v.peer.tx == p.tx <==> p.job.Some? && !complete && Monus(now, p.lastUseful) > SNUB_TIMEOUT
  {
    var q := p.(tx := Send(p.tx, Message.Interested), state := p.state.(amInterested := true));
    FillExtends(q, now);
    if p.job.Some? && p.state.amInterested {
      FillAsks(m, p, now);
    }
  }

  /**
   A reachable peer without a job is given one and dropped in the same visit, without being sent
   anything, exactly if the picker has a piece for it, the download is not complete, and it has been
   connected, or idle since it last delivered, for longer than the snub timeout.
   */
  lemma HiredAndDroppedIff(m: Meta, r: Round, id: nat, now: nat)
    requires Sound(m) && Inv(m, r.state) && id in r.state.peers && id !in r.dead
    requires r.state.peers[id].job.None? && Open(r.state.peers[id].tx)
    ensures var p := r.state.peers[id];
            var after := VisitPeer(m, r, id, now);
      id in after.dead && after.state.peers[id].tx == p.tx
      <==>
      && p.theirsKnown && !Complete(m, r.state) && Monus(now, p.lastUseful) > SNUB_TIMEOUT
      && Choose(r.state.active, ENDGAME_DUP, r.state.ours, p.theirs, r.state.counts, |m.hashes|).Some?
  {
    var s := r.state;
    assert SetPeer(s, id, s.peers[id]) == s;
    var t := Assign(m, s, id);
    AssignInv(m, s, id);
    CoreFromInv(m, t);
    PeerFromCore(m, t, id);
    DriveAsks(m, t.peers[id], Complete(m, t), now);
  }

  // ------------------------------------------------------------------- runs that lead there

  /** A torrent of one piece of one byte, 7, for any digest. */
  function Tiny(g: seq<byte> -> Hash): Meta {
    Meta(1, 1, [g([7])], g, 2)
  }

  /** `s` with one peer, number 0, as only connection. */
  function WithPeer(s: State, p: Peer): State {
    s.(peers := map[0 := p])
  }

  lemma RunMore(m: Meta, s: State, events: seq<Event>, e: Event)
    requires Run(m, s, events).Going?
    ensures Run(m, s, events + [e]) == Step(m, Run(m, s, events).state, e)
  {
    assert (events + [e])[..|events|] == events;
  }

  lemma RunOne(m: Meta, s: State, e: Event)
    ensures Run(m, s, [e]) == Step(m, s, e)
  {
    assert [e][..0] == [];
  }

  /** The only address known was dialled, and answered as peer 0 over a channel that takes nine messages. */
  function Met(): State {
    State({}, [0], map[], map[0 := NewPeer(9, 0)], [], {5}, 0, 0, 0,
          Choke.Rotor(None, None), 0 - CHOKE_INTERVAL, [0], 1, map[], [5])
  }

  const MEETING: seq<Event> := [Learned([5])] + [Dialled] + [Answered(0, 9, 0)]

  /** A new address is learned, dialled and answers. */
  lemma DialledAndAnswered(m: Meta, s: State, addr: Addr)
    requires s.queue == [] && addr !in s.known && s.connecting == 0 && |s.peers| < m.maxPeers
    ensures var a := s.(queue := [addr], known := s.known + {addr});
      Run(m, s, [Learned([addr])] + [Dialled] + [Answered(s.nextId, 9, 0)]) == Going(Connected(m, DialOne(a), s.nextId, 9, 0))
  {
    var a := s.(queue := [addr], known := s.known + {addr});
    assert Learn(s, [addr]) == a by {
      assert [addr][..0] == [];
    }
    RunOne(m, s, Learned([addr]));
    RunMore(m, s, [Learned([addr])], Dialled);
    assert Dial(m, DialOne(a)) == DialOne(a);
    RunMore(m, s, [Learned([addr])] + [Dialled], Answered(s.nextId, 9, 0));
  }

  lemma Meeting(g: seq<byte> -> Hash)
    ensures Run(Tiny(g), Resumed(Tiny(g), [0], 0, {}), MEETING) == Going(Met())
  {
    var s := Resumed(Tiny(g), [0], 0, {});
    assert ResumeTo(Tiny(g), Initial(Tiny(g), [0], 0), {}, 0) == Initial(Tiny(g), [0], 0);
    DialledAndAnswered(Tiny(g), s, 5);
    assert Connected(Tiny(g), DialOne(s.(queue := [5], known := {5})), 0, 9, 0) == Met();
  }

  // ---- the optimistic slot

  function Keen(): Peer {
    NewPeer(9, 0).(state := PeerState(true, false, true, true))
  }

  function Served0(): Peer {
    Keen().(tx := Channel([Message.Unchoke], 9), state := PeerState(false, false, true, true))
  }

  const KEEN: seq<Event> := MEETING + [Received(0, Message.Interested, 0, None)]
  const SERVED: seq<Event> := KEEN + [Kept([0], [0], 0)]

  lemma OnlyPeer(s: State, p: Peer, order: seq<nat>)
    requires s.peers == map[0 := p] && order == [0]
    ensures IsOrder(order, s.peers.Keys) && Rates(s.peers) == {RateOf(0, p)}
    ensures Candidates(s.peers, order) == if WantsSlot(p) then [0] else []
  {
    assert order[..0] == [];
    assert 0 in s.peers;
    forall r ensures r in Rates(s.peers) <==> r == RateOf(0, p) {
      if r == RateOf(0, p) {
        assert r == RateOf(0, s.peers[0]);
      }
    }
  }

  lemma OnlyRate(r: Choke.Rate, slots: nat, optimistic: Option<nat>)
    requires slots > 0
    ensures Choke.Unchoked({r}, slots, optimistic)
         == (if r.interested then {r.id} else {}) + (if optimistic == Some(r.id) then {r.id} else {})
  {
    assert Choke.Betters({r}, r) == {};
    assert r in {r};
  }

  /** One visit to an idle peer whose pieces are unknown changes nothing. */
  lemma IdleVisit(m: Meta, s: State, p: Peer, now: nat)
    requires s.peers == map[0 := p] && p.job.None? && !p.theirsKnown
    ensures VisitAll(m, s, [0], now) == Round(s, [])
  {
    assert [0][..0] == [];
    assert SetPeer(s, 0, p) == s;
  }

  lemma IdlePasses(m: Meta, s: State, p: Peer, now: nat)
    requires s.peers == map[0 := p] && p.job.None? && !p.theirsKnown
    ensures PassesOk(m, s, [0], [0], now)
    ensures Monus(now, s.lastChoke) >= CHOKE_INTERVAL ==>
      Housekeeping(m, s, [0], [0], now) == Rebalance(s.(lastChoke := now), [0], now)
  {
    IdleVisit(m, s, p, now);
    OnlyPeer(s, p, [0]);
  }

  function Wanting(): State {
    WithPeer(Met(), Keen())
  }

  function Picked(): State {
    WithPeer(Met(), Served0()).(rotor := Choke.Rotor(Some(0), Some(0)), lastChoke := 0)
  }

  /** With one idle peer a housekeeping in which the chokes are due is that rebalance. */
  lemma DueStep(m: Meta, s: State, p: Peer, now: nat)
    requires s.peers == map[0 := p] && p.job.None? && !p.theirsKnown && Monus(now, s.lastChoke) >= CHOKE_INTERVAL
    ensures forall id :: id in [0] ==> id in s.peers
    ensures Step(m, s, Kept([0], [0], now)) == Going(Rebalance(s.(lastChoke := now), [0], now))
  {
    IdlePasses(m, s, p, now);
  }

  lemma ChosenOne(s: State, p: Peer, now: nat)
    requires s.peers == map[0 := p]
    ensures forall id :: id in [0] ==> id in s.peers
    ensures var rotor := Choke.Rotate(s.rotor, OPTIMISTIC_INTERVAL, if WantsSlot(p) then [0] else [], now);
      0 in Chosen(s, [0], now) <==> p.state.peerInterested || rotor.current == Some(0)
  {
    OnlyPeer(s, p, [0]);
    OnlyRate(RateOf(0, p), REGULAR_UNCHOKE_SLOTS, Choke.Rotate(s.rotor, OPTIMISTIC_INTERVAL, Candidates(s.peers, [0]), now).current);
  }

  lemma OnePeerMap(peers: map<nat, Peer>, p: Peer, q: Peer, chosen: set<nat>)
    requires peers == map[0 := p] && q == Rechoke(p, 0 in chosen)
    ensures (map id | id in peers :: Rechoke(peers[id], id in chosen)) == map[0 := q]
  {
    assert 0 in peers;
  }

  lemma RebalanceOne(s: State, p: Peer, now: nat)
    requires s.peers == map[0 := p]
    ensures forall id :: id in [0] ==> id in s.peers
    ensures var t := Rebalance(s, [0], now);
      && t == s.(rotor := t.rotor, peers := map[0 := Rechoke(p, 0 in Chosen(s, [0], now))])
      && t.rotor == Choke.Rotate(s.rotor, OPTIMISTIC_INTERVAL, Candidates(s.peers, [0]), now)
  {
    assert 0 in s.peers;
    OnePeerMap(s.peers, p, Rechoke(p, 0 in Chosen(s, [0], now)), Chosen(s, [0], now));
  }

  lemma FirstPick()
    ensures forall id :: id in [0] ==> id in Wanting().peers
    ensures Rebalance(Wanting().(lastChoke := 0), [0], 0) == Picked()
  {
    var s := Wanting().(lastChoke := 0);
    OnlyPeer(s, Keen(), [0]);
    ChosenOne(s, Keen(), 0);
    RebalanceOne(s, Keen(), 0);
    assert Choke.Rotate(s.rotor, OPTIMISTIC_INTERVAL, [0], 0) == Choke.Rotor(Some(0), Some(0));
    assert Rechoke(Keen(), true) == Served0();
  }

  lemma FirstRebalance(g: seq<byte> -> Hash)
    ensures Step(Tiny(g), Wanting(), Kept([0], [0], 0)) == Going(Picked())
  {
    DueStep(Tiny(g), Wanting(), Keen(), 0);
    FirstPick();
  }

  lemma SecondRebalance(g: seq<byte> -> Hash)
    ensures var o := Step(Tiny(g), Picked(), Kept([0], [0], 10000));
      o.Going? && o.state.rotor.current == None
  {
    var s := Picked().(lastChoke := 10000);
    DueStep(Tiny(g), Picked(), Served0(), 10000);
    OnlyPeer(s, Served0(), [0]);
    RebalanceOne(s, Served0(), 10000);
  }

  lemma KeenStep(g: seq<byte> -> Hash)
    ensures Step(Tiny(g), Met(), Received(0, Message.Interested, 0, None)) == Going(Wanting())
  {}

  lemma Picking(g: seq<byte> -> Hash)
    ensures Run(Tiny(g), Resumed(Tiny(g), [0], 0, {}), SERVED) == Going(Picked())
  {
    var start := Resumed(Tiny(g), [0], 0, {});
    Meeting(g);
    RunMore(Tiny(g), start, MEETING, Received(0, Message.Interested, 0, None));
    KeenStep(g);
    RunMore(Tiny(g), start, KEEN, Kept([0], [0], 0));
    FirstRebalance(g);
  }

  /**
   A run in which the slot is not held: peer 0 is chosen and unchoked at 0 s, stays connected,
   interested and reachable, and 10 s later, with 20 s of its time left, the slot is empty.
   */
  lemma OptimisticLost(g: seq<byte> -> Hash) returns (s: State, t: State)
    ensures Sound(Tiny(g)) && Reachable(Tiny(g), [0], 0, {}, SERVED, s)
    ensures s.rotor.current == Some(0) && 0 in s.peers && s.peers[0].state.peerInterested && Open(s.peers[0].tx)
    ensures !Choke.Due(s.rotor, OPTIMISTIC_INTERVAL, 10000)
    ensures Run(Tiny(g), s, [Kept([0], [0], 10000)]) == Going(t) && t.rotor.current == None
  {
    Picking(g);
    s := Picked();
    SecondRebalance(g);
    RunOne(Tiny(g), s, Kept([0], [0], 10000));
    t := Step(Tiny(g), s, Kept([0], [0], 10000)).state;
  }

  // ---- ids after a recheck

  function Willing(): Peer {
    NewPeer(9, 0).(state := PeerState(true, false, false, false))
  }

  function Helper(): Peer {
    Willing().(theirs := {0}, theirsKnown := true)
  }

  function Hired(): Peer {
    Helper().(job := Some(StartJob(0, 1)))
  }

  function AskedPeer(): Peer {
    Hired().(tx := Channel([Message.Interested, Message.Request(0, 0, 1)], 9),
             state := PeerState(true, true, false, false),
             job := Some(PieceJob(0, [0], 0, [], 0, [])),
             inFlight := [Issued(BlockRequest(0, 0, 1), 0)])
  }

  function Idle(): Peer {
    AskedPeer().(tx := Channel([Message.Interested, Message.Request(0, 0, 1), Message.Have(0)], 9),
                 job := None, inFlight := [], downloadedFrom := 1)
  }

  function Fetching(): State {
    WithPeer(Met(), AskedPeer()).(counts := [1], active := map[0 := 1], lastChoke := 0)
  }

  function Fetched(): State {
    WithPeer(Met(), Idle()).(counts := [1], lastChoke := 0, ours := {0}, downloaded := 1, disk := [7])
  }

  const HELPED: seq<Event> :=
    MEETING + [Received(0, Message.Unchoke, 0, None)] + [Received(0, Message.Bitfield([0x80]), 0, None)]
  const FETCHED: seq<Event> := HELPED + [Kept([0], [0], 0)] + [Received(0, Message.Piece(0, 0, [7]), 0, None)]

  lemma OneBitField()
    ensures ParseBits([0x80], 1) == Ok({0})
  {
    assert SpareMask(7) == 127;
    assert Bit(0x80, 0) && HasBit([0x80], 0);
    assert Members([0x80], 1) == {0};
  }

  lemma WillingStep(g: seq<byte> -> Hash)
    ensures Step(Tiny(g), Met(), Received(0, Message.Unchoke, 0, None)) == Going(WithPeer(Met(), Willing()))
  {}

  lemma HelperStep(g: seq<byte> -> Hash)
    ensures Step(Tiny(g), WithPeer(Met(), Willing()), Received(0, Message.Bitfield([0x80]), 0, None))
         == Going(WithPeer(Met(), Helper()).(counts := [1]))
  {
    OneBitField();
    assert AddBitfield([0], {0}) == [1];
  }

  lemma Helping(g: seq<byte> -> Hash)
    ensures Run(Tiny(g), Resumed(Tiny(g), [0], 0, {}), HELPED) == Going(WithPeer(Met(), Helper()).(counts := [1]))
  {
    var m := Tiny(g);
    var start := Resumed(m, [0], 0, {});
    Meeting(g);
    RunMore(m, start, MEETING, Received(0, Message.Unchoke, 0, None));
    WillingStep(g);
    RunMore(m, start, MEETING + [Received(0, Message.Unchoke, 0, None)], Received(0, Message.Bitfield([0x80]), 0, None));
    HelperStep(g);
  }

  /**
   A run to a peer that is hired and dropped unasked: it told its pieces at once, and the next visit is
   90.001 seconds later.
   */
  lemma DroppedUnasked(g: seq<byte> -> Hash) returns (s: State)
    ensures Sound(Tiny(g)) && Reachable(Tiny(g), [0], 0, {}, HELPED, s)
    ensures 0 in s.peers && s.peers[0].job.None? && Open(s.peers[0].tx)
    ensures var after := VisitPeer(Tiny(g), Round(s, []), 0, 90001);
      0 in after.dead && after.state.peers[0].tx == s.peers[0].tx
  {
    Helping(g);
    s := WithPeer(Met(), Helper()).(counts := [1]);
    ReachableInv(Tiny(g), [0], 0, {}, HELPED, s);
    assert Choose(map[], ENDGAME_DUP, {}, {0}, [1], 1) == Some(0);
    HiredAndDroppedIff(Tiny(g), Round(s, []), 0, 90001);
  }

  lemma DriveHired()
    ensures Drive(Hired(), false, 0) == Visit(AskedPeer(), false)
  {
    var q := Hired().(tx := Channel([Message.Interested], 9), state := PeerState(true, true, false, false));
    assert PieceBlocks(1) == [Block(0, 1)];
    var issued := q.(job := Some(q.job.value.(pending := [])), inFlight := [Issued(BlockRequest(0, 0, 1), 0)],
                     tx := Send(q.tx, Message.Request(0, 0, 1)));
    assert q.job.value.pending[1..] == [] && Sent(q.inFlight) == [];
    assert Fill(issued, 0) == Visit(issued, false);
    assert Fill(q, 0) == Fill(issued, 0);
    assert StartJob(0, 1).data == [0];
    assert issued == AskedPeer();
  }

  lemma Hiring(g: seq<byte> -> Hash)
    ensures var s := WithPeer(Met(), Helper()).(counts := [1]);
      VisitAll(Tiny(g), s, [0], 0) == Round(WithPeer(s, AskedPeer()).(active := map[0 := 1]), [])
  {
    var s := WithPeer(Met(), Helper()).(counts := [1]);
    assert [0][..0] == [];
    assert SetPeer(s, 0, Helper()) == s;
    assert Choose(map[], ENDGAME_DUP, {}, {0}, [1], 1) == Some(0);
    DriveHired();
  }

  lemma HiredStays(s: State)
    requires s.peers == map[0 := AskedPeer()]
    ensures forall id :: id in [0] ==> id in s.peers
    ensures Rebalance(s, [0], 0) == s.(rotor := Choke.Rotate(s.rotor, OPTIMISTIC_INTERVAL, [], 0))
  {
    RebalanceOne(s, AskedPeer(), 0);
    OnlyPeer(s, AskedPeer(), [0]);
    ChosenOne(s, AskedPeer(), 0);
  }

  lemma HiringPasses(g: seq<byte> -> Hash)
    ensures var s := WithPeer(Met(), Helper()).(counts := [1]);
            var u := WithPeer(s, AskedPeer()).(active := map[0 := 1]);
      && PassesOk(Tiny(g), s, [0], [0], 0)
      && 0 in u.peers && Housekeeping(Tiny(g), s, [0], [0], 0) == Rebalance(u.(lastChoke := 0), [0], 0)
  {
    var s := WithPeer(Met(), Helper()).(counts := [1]);
    Hiring(g);
    var u := WithPeer(s, AskedPeer()).(active := map[0 := 1]);
    assert RemoveAll(u, []) == u;
    OnlyPeer(s, Helper(), [0]);
    OnlyPeer(u, AskedPeer(), [0]);
  }

  lemma KeptHiring(g: seq<byte> -> Hash)
    ensures Step(Tiny(g), WithPeer(Met(), Helper()).(counts := [1]), Kept([0], [0], 0)) == Going(Fetching())
  {
    HiringPasses(g);
    HiredStays(WithPeer(Met(), AskedPeer()).(counts := [1], active := map[0 := 1], lastChoke := 0));
  }

  /** The peer after its only block, its full job still on it. */
  function Delivered(): Peer {
    AskedPeer().(inFlight := [], downloadedFrom := 1, job := Some(PieceJob(0, [7], 1, [], 0, [Payload(0, [7])])))
  }

  lemma LastReceive()
    ensures Asked(AskedPeer(), 0, 0, [7]) && Receive(AskedPeer(), 0, [7], 0) == Delivered()
  {
    var p := AskedPeer();
    assert IndexOf(p.inFlight, BlockRequest(0, 0, 1)) == 0;
    assert RemoveAt(p.inFlight, 0) == [];
    assert Splice([0], 0, [7]) == [7];
    var before: seq<Payload> := [];
    assert before + [Payload(0, [7])] == [Payload(0, [7])];
    assert Receive(p, 0, [7], 0).job.value == Delivered().job.value;
  }

  lemma LastFinish(g: seq<byte> -> Hash)
    ensures FinishPiece(Tiny(g), WithPeer(Fetching(), Delivered().(job := None)), 0, Delivered().job.value, None) == Going(Fetched())
  {
    var s := WithPeer(Fetching(), Delivered().(job := None));
    assert Verifies(Tiny(g), [7], 0);
    assert Splice([0], 0, [7]) == [7];
    assert Announce(Delivered().(job := None), true, 0) == Idle();
    assert (map other | other in s.peers :: Announce(s.peers[other], other == 0, 0)) == map[0 := Idle()];
    assert Completed(map[0 := 1], 0) == map[];
  }

  /** The last block of the only peer's job: the job comes off the peer and is finished. */
  lemma LastPiece(m: Meta, s: State, p: Peer, q: Peer, data: seq<byte>)
    requires s.peers == map[0 := p] && Asked(p, 0, 0, data) && q == Receive(p, 0, data, 0) && Done(q.job.value)
    ensures OnMessage(m, s, 0, Message.Piece(0, 0, data), 0, None)
         == FinishPiece(m, WithPeer(s, q.(job := None)), 0, q.job.value, None)
  {
    assert s.peers[0 := p] == s.peers && s.peers[0 := q.(job := None)] == map[0 := q.(job := None)];
  }

  lemma LastBlock(g: seq<byte> -> Hash)
    ensures Step(Tiny(g), Fetching(), Received(0, Message.Piece(0, 0, [7]), 0, None)) == Going(Fetched())
  {
    LastReceive();
    LastFinish(g);
    LastPiece(Tiny(g), Fetching(), AskedPeer(), Delivered(), [7]);
  }

  // ---- two bad copies

  /** Peer 0 after a first bad copy: the same piece again, from the start. */
  function Retrying(): Peer {
    AskedPeer().(inFlight := [], downloadedFrom := 1, job := Some(PieceJob(0, [8], 0, [Block(0, 1)], 1, [])))
  }

  function AskedAgain(): Peer {
    Retrying().(tx := Channel([Message.Interested, Message.Request(0, 0, 1), Message.Request(0, 0, 1)], 9),
                inFlight := [Issued(BlockRequest(0, 0, 1), 0)],
                job := Some(PieceJob(0, [8], 0, [], 1, [])))
  }

  const BAD: Event := Received(0, Message.Piece(0, 0, [8]), 0, None)
  const FETCHING: seq<Event> := HELPED + [Kept([0], [0], 0)]
  const RETRYING: seq<Event> := FETCHING + [BAD]
  const ASKED_AGAIN: seq<Event> := RETRYING + [Kept([0], [0], 0)]

  lemma BadOne(g: seq<byte> -> Hash, p: Peer, failures: nat)
    requires g([8]) != g([7]) && p.job.Some? && p.job.value.index == 0 && |p.job.value.data| == 1
    requires p.job.value.received == 0 && p.job.value.failures == failures
    requires p.inFlight == [Issued(BlockRequest(0, 0, 1), 0)]
    ensures Whole(p, 0, [8]) == [8] && Completes(Tiny(g), WithPeer(Fetching(), p), 0, 0, 0, [8], false, failures)
  {
    assert Sent(p.inFlight)[0] == BlockRequest(0, 0, 1);
  }

  lemma Fetches(g: seq<byte> -> Hash)
    ensures Reachable(Tiny(g), [0], 0, {}, FETCHING, Fetching())
  {
    Helping(g);
    RunMore(Tiny(g), Resumed(Tiny(g), [0], 0, {}), HELPED, Kept([0], [0], 0));
    KeptHiring(g);
  }

  lemma Retries(g: seq<byte> -> Hash)
    requires g([8]) != g([7])
    ensures Reachable(Tiny(g), [0], 0, {}, RETRYING, WithPeer(Fetching(), Retrying()))
  {
    Fetches(g);
    ReachableInv(Tiny(g), [0], 0, {}, FETCHING, Fetching());
    BadOne(g, AskedPeer(), 0);
    assert WithPeer(Fetching(), AskedPeer()) == Fetching();
    FirstBadCopy(Tiny(g), Fetching(), 0, 0, 0, [8], 0, None);
    assert PieceBlocks(1) == [Block(0, 1)];
    RunMore(Tiny(g), Resumed(Tiny(g), [0], 0, {}), FETCHING, BAD);
  }

  lemma DriveRetrying()
    ensures Drive(Retrying(), false, 0) == Visit(AskedAgain(), false)
  {
    var p := Retrying();
    assert p.job.value.pending[1..] == [] && Sent(p.inFlight) == [];
    assert Fill(AskedAgain(), 0) == Visit(AskedAgain(), false);
    assert Send(p.tx, Message.Request(0, 0, 1)).sent == AskedAgain().tx.sent;
    assert p.inFlight + [Issued(BlockRequest(0, 0, 1), 0)] == AskedAgain().inFlight;
  }

  /** With one peer, at work and prompt, a pass before the chokes are due drives that peer. */
  lemma OneDrive(m: Meta, s: State, p: Peer, now: nat)
    requires s.peers == map[0 := p] && p.job.Some? && p.inFlight == [] && Monus(now, s.lastChoke) < CHOKE_INTERVAL
    requires var v := Drive(p, Complete(m, s), now); !v.dead
    ensures Step(m, s, Kept([0], [0], now)) == Going(WithPeer(s, Drive(p, Complete(m, s), now).peer))
  {
    var q := Drive(p, Complete(m, s), now).peer;
    var job := p.job.value;
    assert [0][..0] == [];
    assert Ranges([]) == [] && job.pending + [] == job.pending;
    assert Expire(p, now) == p && SetPeer(s, 0, p) == s;
    assert VisitPeer(m, Round(s, []), 0, now) == Round(WithPeer(s, q), []);
    assert VisitAll(m, s, [0], now) == VisitPeer(m, Round(s, []), 0, now);
    OnlyPeer(s, p, [0]);
    OnlyPeer(WithPeer(s, q), q, [0]);
    assert RemoveAll(WithPeer(s, q), []) == WithPeer(s, q);
  }

  /**
   A run that delivers two bad copies: after the first peer 0 is there and is asked for the piece again,
   after the second it is gone.
   */
  lemma TwoBadCopies(g: seq<byte> -> Hash) returns (s: State, t: State)
    requires g([8]) != g([7])
    ensures Reachable(Tiny(g), [0], 0, {}, ASKED_AGAIN, s) && 0 in s.peers
    ensures s.peers[0].job == Some(PieceJob(0, [8], 0, [], 1, [])) && s.peers[0].inFlight == [Issued(BlockRequest(0, 0, 1), 0)]
    ensures Run(Tiny(g), s, [BAD]) == Going(t) && 0 !in t.peers
  {
    var m := Tiny(g);
    var start := Resumed(m, [0], 0, {});
    Retries(g);
    RunMore(m, start, RETRYING, Kept([0], [0], 0));
    DriveRetrying();
    OneDrive(m, WithPeer(Fetching(), Retrying()), Retrying(), 0);
    s := WithPeer(Fetching(), AskedAgain());
    ReachableInv(m, [0], 0, {}, ASKED_AGAIN, s);
    BadOne(g, AskedAgain(), 1);
    SecondBadCopy(m, s, 0, 0, 0, [8], 0, None);
    RunOne(m, s, BAD);
    t := Step(m, s, BAD).state;
  }

  // ---- the recheck

  /** After the check: nothing is ours any more, peer 0 and its counted piece stay. */
  function Rechecked(): State {
    Fetched().(disk := [0], ours := {}, downloaded := 0)
  }

  /** Another address was dialled under id 0 and has answered. */
  function Overwritten(): State {
    WithPeer(Rechecked(), NewPeer(9, 0)).(known := {5, 6}, dialed := [5, 6], nextId := 1)
  }

  lemma RecheckFindsIt(g: seq<byte> -> Hash)
    requires g([7]) != g([0])
    ensures FinalCheck(Tiny(g), Fetched().(disk := [0])) == Check(Rechecked(), 1)
  {
    var s := Fetched().(disk := [0]);
    assert PieceOnDisk(Tiny(g), s.disk, 0) == Some([0]) by {
      assert [0][0..1] == [0];
    }
    assert !GoodOnDisk(Tiny(g), s.disk, 0);
    assert CheckTo(Tiny(g), s, 0) == Check(s, 0);
    assert {0} - {0} == {};
  }

  lemma DialledAgain(g: seq<byte> -> Hash)
    ensures Run(Tiny(g), Restarted(Rechecked()), [Learned([6])] + [Dialled] + [Answered(0, 9, 0)]) == Going(Overwritten())
  {
    var s := Restarted(Rechecked());
    assert |s.peers| == 1;
    DialledAndAnswered(Tiny(g), s, 6);
    assert [5] + [6] == [5, 6];
    assert Connected(Tiny(g), DialOne(s.(queue := [6], known := {5, 6})), 0, 9, 0) == Overwritten();
  }

  /**
   A run into the collision. Peer 0 delivers the only piece and stays; then the file is changed from
   outside. The final check finds the piece bad, the loop starts once more, a new address is dialled
   under id 0 and answers: peer 0 is overwritten and its piece stays counted though nobody has it.
   */
  lemma RecheckBreaksCounts(g: seq<byte> -> Hash) returns (s: State, c: Check, t: State)
    requires g([7]) != g([0])
    ensures Sound(Tiny(g)) && Reachable(Tiny(g), [0], 0, {}, FETCHED, s)
    ensures Complete(Tiny(g), s) && 0 in s.peers && Open(s.peers[0].tx)
    ensures c == FinalCheck(Tiny(g), s.(disk := [0])) && c.bad == 1
    ensures Run(Tiny(g), Restarted(c.state), [Learned([6])] + [Dialled] + [Answered(0, 9, 0)]) == Going(t)
    ensures !CountsOk(Tiny(g), t.counts, t.peers)
  {
    var m := Tiny(g);
    var start := Resumed(m, [0], 0, {});
    Helping(g);
    RunMore(m, start, HELPED, Kept([0], [0], 0));
    KeptHiring(g);
    RunMore(m, start, HELPED + [Kept([0], [0], 0)], Received(0, Message.Piece(0, 0, [7]), 0, None));
    LastBlock(g);
    s := Fetched();
    RecheckFindsIt(g);
    c := Check(Rechecked(), 1);
    DialledAgain(g);
    t := Overwritten();
    assert Havers(t.peers, 0) == {};
  }

  /** In the same run peer 0, still connected, goes on believing that we have the piece. */
  lemma LossUntold(g: seq<byte> -> Hash) returns (s: State, c: Check)
    requires g([7]) != g([0])
    ensures Reachable(Tiny(g), [0], 0, {}, FETCHED, s) && c == FinalCheck(Tiny(g), s.(disk := [0]))
    ensures 0 in c.state.peers && Open(c.state.peers[0].tx)
    ensures Told(1, c.state.peers[0].tx.sent) == {0} && c.state.ours == {}
  {
    var m := Tiny(g);
    var t: State;
    s, c, t := RecheckBreaksCounts(g);
    PeersKnowOurs(m, [0], 0, {}, FETCHED, s, 0);
    ReachableInv(m, [0], 0, {}, FETCHED, s);
    assert Holds(OwnedVerifiesOnDisk, m, s);
    CompleteIff(s.ours, 1);
    assert Below(1) == {0};
    FinalCheckRepairs(m, s, [0]);
    assert |c.state.ours| == 0;
  }
}
