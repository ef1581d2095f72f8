/**
 The engine itself (bt/src/engine.rs): an object whose handlers update its
 fields in place. Every handler is shown to do what the step machine says.
 */
module Engine {
  import opened Common
  import opened Messages
  import opened Requests
  import opened Pieces
  import opened Picker
  import opened Storage
  import opened EngineModel
  import opened EngineInvariant
  import opened EngineMessages
  import opened EngineHousekeeping
  import opened EngineTheorems
  import opened EngineLoop
  import Choke

  class Engine {
    const m: Meta
    const storage: Storage
    const ours: Bitfield
    const rotor: Choke.OptimisticRotor
    var counts: seq<nat>
    var active: Active
    var peers: map<nat, Peer>
    var queue: seq<Addr>
    var known: set<Addr>
    var connecting: nat
    var downloaded: nat
    var uploaded: nat
    var lastChoke: int
    var emptyRounds: nat
    var nextId: nat
    var dialing: map<nat, Addr>
    var dialed: seq<Addr>

    ghost predicate Valid()
      reads this, storage, ours.bits, rotor
    {
      && storage.Valid() && storage.pieceLength == m.pieceLength && storage.total == m.total
      && ours.Valid() && ours.pieces == |m.hashes|
      && rotor.interval == OPTIMISTIC_INTERVAL
    }

    ghost function View(): State
      requires Valid()
      reads this, storage, ours.bits, rotor
    {
      State(ours.Contents(), counts, active, peers, queue, known, connecting, downloaded, uploaded,
            rotor.View(), lastChoke, storage.Image(), nextId, dialing, dialed)
    }

    constructor (m: Meta, storage: Storage, start: nat)
      requires storage.Valid() && storage.pieceLength == m.pieceLength && storage.total == m.total
      ensures Valid() && fresh(rotor) && fresh(ours.bits) && this.m == m && this.storage == storage
      ensures View() == Initial(m, storage.Image(), start)
    {
      this.m := m;
      this.storage := storage;
      ours := new Bitfield(|m.hashes|);
      rotor := new Choke.OptimisticRotor(OPTIMISTIC_INTERVAL);
      counts := seq(|m.hashes|, _ => 0);
      active, peers, queue, known := map[], map[], [], {};
      connecting, downloaded, uploaded := 0, 0, 0;
      lastChoke := start - CHOKE_INTERVAL;
      emptyRounds, nextId, dialing, dialed := 0, 0, map[], [];
    }

    // ----------------------------------------------------------- resume and check

    method CheckPiece(index: nat) returns (good: bool)
      requires Valid() && index < |m.hashes|
      ensures good == GoodOnDisk(m, View().disk, index)
    {
      var data := storage.ReadPiece(index);
      good := data.Ok? && Verifies(m, data.value, index);
    }

    /** Claims a saved piece if it reads back and verifies. */
    method ClaimIfGood(index: nat)
      requires Valid() && index < |m.hashes|
      modifies this`downloaded, ours.bits
      ensures Valid()
      ensures var s := old(View());
        View() == if GoodOnDisk(m, s.disk, index)
          then s.(ours := s.ours + {index}, downloaded := s.downloaded + Size(m, index)) else s
    {
      var good := CheckPiece(index);
      if good {
        ours.Set(index);
        downloaded := downloaded + PieceSize(m.pieceLength, m.total, index);
      }
    }

    method ClaimIfSaved(saved: Bitfield, index: nat)
      requires Valid() && saved.Valid() && saved != ours && saved.bits != ours.bits && index < |m.hashes|
      modifies this`downloaded, ours.bits
      ensures Valid() && saved.Valid() && saved.Contents() == old(saved.Contents())
      ensures var s := old(View());
        View() == if index in old(saved.Contents()) && GoodOnDisk(m, s.disk, index)
          then s.(ours := s.ours + {index}, downloaded := s.downloaded + Size(m, index)) else s
    {
      var wanted := saved.Has(index);
      if wanted {
        ClaimIfGood(index);
      }
    }

    method Resume(saved: Bitfield)
      requires Valid() && saved.Valid() && saved != ours && saved.bits != ours.bits && saved.pieces == |m.hashes|
      modifies this`downloaded, ours.bits
      ensures Valid()
      ensures View() == ResumeTo(m, old(View()), saved.Contents(), |m.hashes|)
    {
      ghost var s, have := View(), saved.Contents();
      for index := 0 to |m.hashes|
        invariant Valid() && saved.Valid() && saved.Contents() == have
        invariant View() == ResumeTo(m, s, have, index)
      {
        ClaimIfSaved(saved, index);
      }
    }

    /** Gives up a piece that does not read back or does not verify. */
    method ClearIfBad(index: nat) returns (good: bool)
      requires Valid() && index < |m.hashes|
      modifies this`downloaded, ours.bits
      ensures Valid()
      ensures var s := old(View());
        && good == GoodOnDisk(m, s.disk, index)
        && View() == if good then s
           else s.(ours := s.ours - {index}, downloaded := Monus(s.downloaded, Size(m, index)))
    {
      good := CheckPiece(index);
      if !good {
        ours.Clear(index);
        downloaded := Monus(downloaded, PieceSize(m.pieceLength, m.total, index));
      }
    }

    method FinalCheck() returns (bad: nat)
      requires Valid()
      modifies this`downloaded, ours.bits
      ensures Valid()
      ensures EngineModel.FinalCheck(m, old(View())) == Check(View(), bad)
    {
      bad := 0;
      ghost var s := View();
      ghost var c := Check(s, 0);
      for index := 0 to |m.hashes|
        invariant Valid() && View() == c.state && bad == c.bad
        invariant CheckTo(m, s, index) == c && c.state.disk == s.disk
      {
        CheckNext(m, s, index, c);
        c := CheckTo(m, s, index + 1);
        var good := ClearIfBad(index);
        if !good {
          bad := bad + 1;
        }
      }
    }

    // ---------------------------------------------------------------- connections

    method Learn(addrs: seq<Addr>)
      requires Valid()
      modifies this`known, this`queue
      ensures Valid() && View() == EngineModel.Learn(old(View()), addrs)
    {
      for i := 0 to |addrs|
        invariant Valid() && View() == EngineModel.Learn(old(View()), addrs[..i])
      {
        assert addrs[..i + 1][..i] == addrs[..i];
        if addrs[i] !in known {
          known := known + {addrs[i]};
          queue := queue + [addrs[i]];
        }
      }
      assert addrs[..|addrs|] == addrs;
    }

    /** Takes the next address off the queue and starts a connector thread for it. */
    method SpawnConnector()
      requires Valid() && queue != []
      modifies this`queue, this`connecting, this`nextId, this`dialing, this`dialed
      ensures Valid() && View() == DialOne(old(View())) && queue == old(queue)[1..]
    {
      var addr := queue[0];
      queue := queue[1..];
      dialing := dialing[nextId := addr];
      dialed := dialed + [addr];
      nextId := nextId + 1;
      connecting := connecting + 1;
    }

    method Dial()
      requires Valid()
      modifies this`queue, this`connecting, this`nextId, this`dialing, this`dialed
      ensures Valid() && View() == EngineModel.Dial(m, old(View()))
    {
      while connecting + |peers| < m.maxPeers && queue != []
        invariant Valid()
        invariant EngineModel.Dial(m, View()) == EngineModel.Dial(m, old(View()))
        decreases |queue|
      {
        SpawnConnector();
      }
    }

    method PeerConnected(id: nat, capacity: nat, now: nat)
      requires Valid()
      modifies this`connecting, this`dialing, this`peers
      ensures Valid() && View() == EngineModel.Connected(m, old(View()), id, capacity, now)
    {
      connecting := Monus(connecting, 1);
      dialing := dialing - {id};
      var peer := NewPeer(capacity, now);
      var have := ours.CountSet();
      if have > 0 {
        BytesAreBits();
        peer := peer.(tx := Send(peer.tx, Message.Bitfield(ours.bits[..])));
      }
      peers := peers[id := peer];
    }

    /** The bytes we hold are the packed form of the pieces we have. */
    lemma BytesAreBits()
      requires Valid()
      ensures ours.bits[..] == Pack(ours.Contents(), |m.hashes|)
    {
      PackMembers(ours.Contents(), |m.hashes|);
      ParseBitsIff(Pack(ours.Contents(), |m.hashes|), |m.hashes|);
      PackingUnique(ours.bits[..], Pack(ours.Contents(), |m.hashes|), |m.hashes|);
    }

    method DialFailed(id: nat)
      requires Valid()
      modifies this`connecting, this`dialing
      ensures Valid() && View() == EngineModel.ConnectFailed(old(View()), id)
    {
      connecting := Monus(connecting, 1);
      dialing := dialing - {id};
    }

    method RemovePeer(id: nat)
      requires Valid()
      modifies this`peers, this`counts, this`active
      ensures Valid() && View() == EngineModel.RemovePeer(old(View()), id)
    {
      if id in peers {
        var p := peers[id];
        peers := peers - {id};
        if p.theirsKnown {
          counts := RemoveBitfield(counts, p.theirs);
        }
        if p.job.Some? {
          active := Abandoned(active, p.job.value.index);
        }
      }
    }

    // ------------------------------------------------------------------- messages

    /** Answers a block request from the files, if the peer may have it. */
    method Serve(id: nat, index: nat, begin: nat, length: nat)
      requires Valid() && id in peers
      modifies this`peers, this`uploaded
      ensures Valid() && View() == OnRequest(m, old(View()), id, index, begin, length)
    {
      var p := peers[id];
      var have := ours.Has(index);
      if MayUpload(p.state) && have && length <= MAX_SERVED_BLOCK && length > 0 {
        var data := storage.ReadBlock(index, begin, length);
        if data.Ok? {
          if Open(p.tx) {
            uploaded := uploaded + length;
          }
          peers := peers[id := p.(tx := Send(p.tx, Message.Piece(index, begin, data.value)))];
        }
      }
    }

    method SendEach(tx: Channel, messages: seq<Message>) returns (r: Channel)
      ensures r == SendAll(tx, messages)
    {
      r := tx;
      for i := 0 to |messages|
        invariant r == SendAll(tx, messages[..i])
      {
        assert messages[..i + 1][..i] == messages[..i];
        r := Send(r, messages[i]);
      }
      assert messages[..|messages|] == messages;
    }

    /** The news for one peer: the piece, and cancels if it was still fetching it. */
    method Tell(p: Peer, finisher: bool, index: nat) returns (q: Peer)
      ensures q == EngineModel.Announce(p, finisher, index)
    {
      q := p.(tx := Send(p.tx, Message.Have(index)));
      if !finisher && WorksOn(p, index) {
        var tx := SendEach(q.tx, Cancels(p.inFlight));
        q := q.(tx := tx, inFlight := [], job := None);
      }
    }

    /** Tells every peer of a finished piece; the order of the map does not matter. */
    method Broadcast(finisher: nat, index: nat)
      requires Valid()
      modifies this`peers
      ensures Valid()
      ensures View() == old(View()).(peers := map id | id in old(peers) :: Announce(old(peers)[id], id == finisher, index))
    {
      var todo := peers.Keys;
      while todo != {}
        invariant Valid() && todo <= peers.Keys == old(peers).Keys
        invariant forall id :: id in peers ==>
          peers[id] == if id in todo then old(peers)[id] else Announce(old(peers)[id], id == finisher, index)
        decreases |todo|
      {
        var id :| id in todo;
        var told := Tell(peers[id], id == finisher, index);
        peers := peers[id := told];
        todo := todo - {id};
      }
    }

    /** A stored piece is ours, counted, and no longer in work. */
    method Claim(job: PieceJob)
      requires Valid() && job.index < |m.hashes|
      modifies this`active, this`downloaded, ours.bits
      ensures Valid()
      ensures var s := old(View());
        View() == s.(ours := s.ours + {job.index}, downloaded := s.downloaded + |job.data|, active := Completed(s.active, job.index))
    {
      ours.Set(job.index);
      downloaded := downloaded + |job.data|;
      active := Completed(active, job.index);
    }

    /** Puts a verified piece on disk and tells everyone. */
    method StorePiece(id: nat, job: PieceJob, fault: Option<nat>) returns (ok: bool)
      requires Valid() && job.index < |m.hashes| && Verifies(m, job.data, job.index)
      modifies this`active, this`peers, this`downloaded, ours.bits, storage
      ensures Valid()
      ensures EngineModel.FinishPiece(m, old(View()), id, job, fault) == if ok then Going(View()) else Failed(View())
    {
      var written := storage.WriteBlock(job.index, 0, job.data, fault);
      if written.Err? {
        return false;
      }
      Claim(job);
      Broadcast(id, job.index);
      ok := true;
    }

    method FinishPiece(id: nat, job: PieceJob, fault: Option<nat>) returns (ok: bool)
      requires Valid() && job.index < |m.hashes|
      modifies this`active, this`peers, this`counts, this`downloaded, ours.bits, storage
      ensures Valid()
      ensures EngineModel.FinishPiece(m, old(View()), id, job, fault) == if ok then Going(View()) else Failed(View())
    {
      ok := true;
      if Verifies(m, job.data, job.index) {
        ok := StorePiece(id, job, fault);
      } else if job.failures + 1 >= MAX_VERIFY_FAILURES {
        active := Abandoned(active, job.index);
        RemovePeer(id);
      } else if id in peers {
        peers := peers[id := peers[id].(job := Some(Restart(job)))];
      } else {
        active := Abandoned(active, job.index);
      }
    }

    /** Copies an asked-for block into the peer's job. */
    method CopyBlock(p: Peer, begin: nat, data: seq<byte>, now: nat) returns (q: Peer)
      requires p.job.Some? && IndexOf(p.inFlight, BlockRequest(p.job.value.index, begin, |data|)) < |p.inFlight|
      ensures q == Receive(p, begin, data, now)
    {
      var job := p.job.value;
      var at := IndexOf(p.inFlight, BlockRequest(job.index, begin, |data|));
      q := p.(inFlight := RemoveAt(p.inFlight, at), downloadedFrom := p.downloadedFrom + |data|, lastUseful := now);
      if begin + |data| <= |job.data| {
        job := job.(data := Splice(job.data, begin, data),
                    received := job.received + |data|,
                    accepted := job.accepted + [Payload(begin, data)]);
      }
      q := q.(job := Some(job));
    }

    method TakeBlock(id: nat, index: nat, begin: nat, data: seq<byte>, now: nat, fault: Option<nat>) returns (ok: bool)
      requires Valid() && id in peers && (peers[id].job.Some? ==> peers[id].job.value.index < |m.hashes|)
      modifies this`active, this`peers, this`counts, this`downloaded, ours.bits, storage
      ensures Valid()
      ensures OnPiece(m, old(View()), id, index, begin, data, now, fault) == if ok then Going(View()) else Failed(View())
    {
      ok := true;
      var p := peers[id];
      if Asked(p, index, begin, data) {
        p := CopyBlock(p, begin, data, now);
        if Done(p.job.value) {
          peers := peers[id := p.(job := None)];
          ok := FinishPiece(id, p.job.value, fault);
        } else {
          peers := peers[id := p];
        }
      }
    }

    /** Replaces what is known of a peer's pieces; a malformed bitfield costs it the connection. */
    method TakeBitfield(id: nat, bits: seq<bv8>)
      requires Valid() && id in peers
      modifies this`active, this`peers, this`counts
      ensures Valid() && View() == OnBitfield(m, old(View()), id, bits)
    {
      var p := peers[id];
      var parsed := ParseBits(bits, |m.hashes|);
      if parsed.Ok? {
        if p.theirsKnown {
          counts := RemoveBitfield(counts, p.theirs);
        }
        counts := AddBitfield(counts, parsed.value);
        peers := peers[id := p.(theirs := parsed.value, theirsKnown := true)];
      } else {
        RemovePeer(id);
      }
    }

    /** Notes a piece the peer has come by, once. */
    method TakeHave(id: nat, index: nat)
      requires Valid() && id in peers
      modifies this`peers, this`counts
      ensures Valid() && View() == OnHave(m, old(View()), id, index)
    {
      var p := peers[id];
      if index !in p.theirs {
        if index < |m.hashes| {
          p := p.(theirs := p.theirs + {index});
        }
        counts := AddHave(counts, index);
        peers := peers[id := p.(theirsKnown := true)];
      }
    }

    method OnMessage(id: nat, message: Message, now: nat, fault: Option<nat>) returns (ok: bool)
      requires Valid() && Inv(m, View())
      modifies this`active, this`peers, this`counts, this`downloaded, this`uploaded, ours.bits, storage
      ensures Valid()
      ensures EngineModel.OnMessage(m, old(View()), id, message, now, fault) == if ok then Going(View()) else Failed(View())
    {
      ok := true;
      if id !in peers {
        return;
      }
      var p := peers[id];
      CoreFromInv(m, View());
      PeerFromCore(m, View(), id);
      p := p.(state := Heard(p.state, message));
      peers := peers[id := p];
      match message
      case Bitfield(bits) =>
        TakeBitfield(id, bits);
      case Have(index) =>
        TakeHave(id, index);
      case Choke =>
        if p.job.Some? {
          var job := p.job.value;
          peers := peers[id := p.(job := Some(job.(pending := job.pending + Ranges(p.inFlight))), inFlight := [])];
        }
      case Request(index, begin, length) =>
        Serve(id, index, begin, length);
      case Piece(index, begin, data) =>
        ok := TakeBlock(id, index, begin, data, now, fault);
      case _ =>
    }

    // ---------------------------------------------------------------- housekeeping

    /** The issue loop of one peer. */
    method FillPipeline(peer: Peer, now: nat) returns (p: Peer, dead: bool)
      requires peer.job.Some?
      ensures Visit(p, dead) == Fill(peer, now)
    {
      p, dead := peer, false;
      while !dead && |p.inFlight| < PIPELINE_DEPTH && p.job.value.pending != []
        invariant p.job.Some?
        invariant (if dead then Visit(p, true) else Fill(p, now)) == Fill(peer, now)
        decreases !dead, |p.job.value.pending|
      {
        var job := p.job.value;
        var block := job.pending[0];
        var request := BlockRequest(job.index, block.begin, block.length);
        p := p.(job := Some(job.(pending := job.pending[1..])));
        if request !in Sent(p.inFlight) {
          dead := !Open(p.tx);
          p := p.(inFlight := p.inFlight + [Issued(request, now)],
                  tx := Send(p.tx, Message.Request(job.index, block.begin, block.length)));
        }
      }
    }

    /** Interest, then requests, for a peer that may have a job. */
    method DrivePeer(peer: Peer, complete: bool, now: nat) returns (p: Peer, dead: bool)
      ensures Visit(p, dead) == Drive(peer, complete, now)
    {
      p, dead := peer, false;
      if p.job.Some? && Monus(now, p.lastUseful) > SNUB_TIMEOUT && !complete {
        return p, true;
      }
      if p.job.Some? {
        if !p.state.amInterested {
          if !Open(p.tx) {
            return p, true;
          }
          p := p.(tx := Send(p.tx, Message.Interested), state := p.state.(amInterested := true));
        }
        if CanRequest(p.state) {
          p, dead := FillPipeline(p, now);
        }
      }
    }

    method VisitPeer(id: nat, now: nat, ghost dead: seq<nat>) returns (gone: bool)
      requires Valid() && id in peers
      modifies this`peers, this`active
      ensures Valid()
      ensures EngineModel.VisitPeer(m, Round(old(View()), dead), id, now) == Round(View(), if gone then dead + [id] else dead)
    {
      var p := peers[id];
      if p.job.Some? {
        var expired, alive := Dead(p.inFlight, now, BLOCK_TIMEOUT), Alive(p.inFlight, now, BLOCK_TIMEOUT);
        var job := p.job.value;
        p := p.(job := Some(job.(pending := job.pending + Ranges(expired))), inFlight := alive);
      }
      ghost var before := SetPeer(old(View()), id, p);
      if p.job.None? && p.theirsKnown {
        var pick := Choose(active, ENDGAME_DUP, Members(ours.bits[..], |m.hashes|), p.theirs, counts, |m.hashes|);
        if pick.Some? {
          active := Started(active, pick.value);
          p := p.(job := Some(StartJob(pick.value, PieceSize(m.pieceLength, m.total, pick.value))));
        }
      }
      peers := peers[id := p];
      assert View() == Assign(m, before, id);
      var complete := ours.IsComplete();
      CompleteIff(ours.Contents(), |m.hashes|);
      p, gone := DrivePeer(p, complete, now);
      peers := peers[id := p];
    }

    /** Visits every peer once, in an order the map picks. */
    method VisitEvery(now: nat) returns (dead: seq<nat>, ghost order: seq<nat>)
      requires Valid()
      modifies this`peers, this`active
      ensures Valid() && IsOrder(order, old(peers).Keys)
      ensures VisitAll(m, old(View()), order, now) == Round(View(), dead)
    {
      dead, order := [], [];
      ghost var s := View();
      var todo := peers.Keys;
      while todo != {}
        invariant Valid() && todo <= peers.Keys == s.peers.Keys
        invariant NoDup(order) && forall id :: id in order <==> id in s.peers && id !in todo
        invariant VisitAll(m, s, order, now) == Round(View(), dead)
        decreases |todo|
      {
        var id :| id in todo;
        VisitNext(m, s, order, now, id);
        var gone := VisitPeer(id, now, dead);
        if gone {
          dead := dead + [id];
        }
        order := order + [id];
        todo := todo - {id};
      }
    }

    method DropPeers(ids: seq<nat>)
      requires Valid()
      modifies this`peers, this`counts, this`active
      ensures Valid() && View() == RemoveAll(old(View()), ids)
    {
      for i := 0 to |ids|
        invariant Valid() && View() == RemoveAll(old(View()), ids[..i])
      {
        assert ids[..i + 1][..i] == ids[..i];
        RemovePeer(ids[i]);
      }
      assert ids[..|ids|] == ids;
    }

    /** One pass over the map collects the candidates and the rates. */
    method CollectRates() returns (candidates: seq<nat>, rates: seq<Choke.Rate>, ghost order: seq<nat>)
      requires Valid()
      ensures IsOrder(order, peers.Keys) && candidates == Candidates(peers, order)
      ensures Choke.DistinctIds(rates) && Choke.Elements(rates) == Rates(peers)
    {
      candidates, rates, order := [], [], [];
      var todo := peers.Keys;
      while todo != {}
        invariant todo <= peers.Keys
        invariant NoDup(order) && forall id :: id in order <==> id in peers && id !in todo
        invariant candidates == Candidates(peers, order)
        invariant |rates| == |order| && forall i :: 0 <= i < |order| ==> rates[i] == RateOf(order[i], peers[order[i]])
        decreases |todo|
      {
        var id :| id in todo;
        assert (order + [id])[..|order|] == order;
        if WantsSlot(peers[id]) {
          candidates := candidates + [id];
        }
        rates := rates + [RateOf(id, peers[id])];
        order := order + [id];
        todo := todo - {id};
      }
      forall r ensures r in Choke.Elements(rates) <==> r in Rates(peers) {
        if r in Rates(peers) {
          var id :| id in peers && r == RateOf(id, peers[id]);
          assert id in order;
          var i :| 0 <= i < |order| && order[i] == id;
          assert rates[i] == r;
        }
      }
    }

    /** Sends Choke and Unchoke where the wanted state differs; the order of the map does not matter. */
    method Rechoke(unchoked: set<nat>)
      requires Valid()
      modifies this`peers
      ensures Valid()
      ensures View() == old(View()).(peers := map id | id in old(peers) :: EngineModel.Rechoke(old(peers)[id], id in unchoked))
    {
      var todo := peers.Keys;
      while todo != {}
        invariant Valid() && todo <= peers.Keys == old(peers).Keys
        invariant forall id :: id in peers ==>
          peers[id] == if id in todo then old(peers)[id] else EngineModel.Rechoke(old(peers)[id], id in unchoked)
        decreases |todo|
      {
        var id :| id in todo;
        var p := peers[id];
        if id in unchoked && p.state.amChoking {
          if Open(p.tx) {
            p := p.(tx := Send(p.tx, Message.Unchoke), state := p.state.(amChoking := false));
          }
        } else if id !in unchoked && !p.state.amChoking {
          if Open(p.tx) {
            p := p.(tx := Send(p.tx, Message.Choke), state := p.state.(amChoking := true));
          }
        }
        peers := peers[id := p];
        todo := todo - {id};
      }
    }

    method RebalanceChokes(now: nat) returns (ghost order: seq<nat>)
      requires Valid()
      modifies this`peers, rotor
      ensures Valid() && IsOrder(order, old(peers).Keys)
      ensures View() == Rebalance(old(View()), order, now)
    {
      var candidates, rates: seq<Choke.Rate>;
      candidates, rates, order := CollectRates();
      var optimistic := rotor.MaybeRotate(candidates, now);
      var unchoked := Choke.SelectUnchoked(rates, REGULAR_UNCHOKE_SLOTS, optimistic);
      Choke.SelectionMeaning(rates, REGULAR_UNCHOKE_SLOTS, optimistic);
      Rechoke(unchoked);
    }

    method Housekeeping(now: nat) returns (ghost order: seq<nat>, ghost again: seq<nat>)
      requires Valid()
      modifies this`peers, this`counts, this`active, this`lastChoke, rotor
      ensures Valid() && PassesOk(m, old(View()), order, again, now)
      ensures View() == EngineModel.Housekeeping(m, old(View()), order, again, now)
    {
      var dead: seq<nat>;
      dead, order := VisitEvery(now);
      DropPeers(dead);
      again := SomeOrder(peers.Keys);
      if Monus(now, lastChoke) >= CHOKE_INTERVAL {
        lastChoke := now;
        again := RebalanceChokes(now);
      }
    }

    // ------------------------------------------------------------------- main loop

    predicate Starved()
      reads this
    {
      peers == map[] && connecting == 0 && queue == []
    }

    /** A thread's message; one that no thread can send now is no message. */
    method Handle(input: Input, now: nat, fault: Option<nat>) returns (ok: bool)
      requires Valid() && Inv(m, View())
      modifies this, ours.bits, storage
      ensures Valid() && emptyRounds == old(emptyRounds)
      ensures Step(m, old(View()), EventOf(old(View()), input, now, fault)) == if ok then Going(View()) else Failed(View())
    {
      ok := true;
      match input
      case Connected(id, capacity) =>
        if id in dialing {
          PeerConnected(id, capacity, now);
        }
      case ConnectFailed(id) =>
        if id in dialing {
          DialFailed(id);
        }
      case Msg(id, message) =>
        ok := OnMessage(id, message, now, fault);
      case Died(id) =>
        RemovePeer(id);
    }

    /** Hears at most one message, then keeps house. */
    method Listen(turn: Turn) returns (ok: bool, ghost trace: seq<Event>)
      requires Valid() && Inv(m, View())
      modifies this, ours.bits, storage, rotor
      ensures Valid() && emptyRounds == old(emptyRounds)
      ensures Listened(m, old(View()), turn, trace, !ok)
      ensures EngineModel.Run(m, old(View()), trace) == if ok then Going(View()) else Failed(View())
    {
      ghost var s := View();
      trace := HeardIn(s, turn);
      ok := true;
      if turn.input.Some? {
        ok := Handle(turn.input.value, turn.now, turn.fault);
        RunOneEvent(m, s, EventOf(s, turn.input.value, turn.now, turn.fault));
      }
      if ok {
        ghost var u := View();
        ghost var order, again := Housekeeping(turn.now);
        ListenedAndKept(m, s, turn, u, order, again);
        trace := trace + [Kept(order, again, turn.now)];
      }
    }

    /** The tail of a turn: dial, hear one message, keep house. */
    method Advance(turn: Turn) returns (ok: bool, ghost trace: seq<Event>)
      requires Valid() && Sound(m) && Inv(m, View())
      modifies this, ours.bits, storage, rotor
      ensures Valid() && emptyRounds == old(emptyRounds)
      ensures [Dialled] <= trace && Listened(m, EngineModel.Dial(m, old(View())), turn, trace[1..], !ok)
      ensures EngineModel.Run(m, old(View()), trace) == if ok then Going(View()) else Failed(View())
    {
      ghost var s := View();
      Dial();
      RunOneEvent(m, s, Dialled);
      DialInv(m, s);
      ok, trace := Listen(turn);
      RunConcat(m, s, [Dialled], trace);
      assert ([Dialled] + trace)[1..] == trace;
      trace := [Dialled] + trace;
    }

    /** An announce: the addresses of its reply are learned; a round that leaves nobody to talk to is counted. */
    method AskTracker(reply: Option<seq<Addr>>) returns (starved: bool)
      requires Valid() && Inv(m, View())
      modifies this`known, this`queue, this`emptyRounds
      ensures Valid() && Inv(m, View()) && starved == Starved()
      ensures View() == if reply.Some? then EngineModel.Learn(old(View()), reply.value) else old(View())
      ensures emptyRounds == if starved then old(emptyRounds) + 1 else if reply.Some? then 0 else old(emptyRounds)
    {
      ghost var s := View();
      if reply.Some? {
        Learn(reply.value);
        LearnInv(m, s, reply.value);
      }
      starved := Starved();
      if starved {
        emptyRounds := emptyRounds + 1;
      } else if reply.Some? {
        emptyRounds := 0;
      }
    }

    /** One turn; `None` when the loop goes on. */
    method TakeTurn(turn: Turn) returns (ending: Option<Ending>, ghost trace: seq<Event>)
      requires Valid() && Sound(m) && Inv(m, View())
      modifies this, ours.bits, storage, rotor
      ensures Valid() && PlaysTurn(m, old(View()), old(emptyRounds), turn, trace, ending, emptyRounds)
      ensures EngineModel.Run(m, old(View()), trace) == if ending == Some(IoError) then Failed(View()) else Going(View())
      ensures ending.Some? && !ending.value.IoError? ==> Starved() && emptyRounds >= MAX_EMPTY_ROUNDS
    {
      ghost var s := View();
      trace := Announced(s, turn);
      if turn.announceDue || Starved() {
        var starved := AskTracker(turn.reply);
        if turn.reply.Some? {
          RunOneEvent(m, s, Learned(turn.reply.value));
        }
        if starved {
          StarvedTurn(m, s, old(emptyRounds), turn);
          if emptyRounds >= MAX_EMPTY_ROUNDS {
            return Some(if turn.reply.Some? then NoPeers else AnnounceFailed), trace;
          }
          return None, trace;
        }
      }
      ghost var t, steps := View(), [];
      var ok: bool;
      ok, steps := Advance(turn);
      RunConcat(m, s, trace, steps);
      BusyTurn(m, s, t, old(emptyRounds), turn, steps, !ok);
      trace := trace + steps;
      ending := if ok then None else Some(IoError);
    }

    method AllThere() returns (complete: bool)
      requires Valid()
      ensures complete == Complete(m, View())
    {
      complete := ours.IsComplete();
      CompleteIff(ours.Contents(), |m.hashes|);
    }

    /**
     The main loop over the turns the environment plays. Ids count from zero in every call; from a state
     that this leaves sound it is a run of the step machine, turn by turn. It ends well only with every
     piece, and gives up only after enough rounds without peers.
     */
    method Run(turns: seq<Turn>) returns (ending: Ending, ghost trace: seq<Event>)
      requires Valid() && Sound(m) && Inv(m, Restarted(View()))
      modifies this, ours.bits, storage, rotor
      ensures Valid()
      ensures PlaysLoop(m, Restarted(old(View())), old(emptyRounds), turns, trace, ending, emptyRounds)
      ensures EngineModel.Run(m, Restarted(old(View())), trace) == if ending.IoError? then Failed(View()) else Going(View())
      ensures Fine(m, if ending.IoError? then Failed(View()) else Going(View()))
      ensures ending.Finished? ==> Complete(m, View())
      ensures ending.NoPeers? || ending.AnnounceFailed? ==> Starved() && emptyRounds >= MAX_EMPTY_ROUNDS
    {
      nextId := 0;
      ghost var s, rounds := View(), emptyRounds;
      trace := [];
      for i := 0 to |turns|
        invariant Valid() && Inv(m, View())
        invariant EngineModel.Run(m, s, trace) == Going(View())
        invariant Played(m, s, rounds, turns[..i], trace, emptyRounds)
      {
        LoopEnds(m, s, rounds, turns, i, trace, emptyRounds);
        var complete := AllThere();
        if complete {
          return Finished, trace;
        }
        ghost var before, r := View(), emptyRounds;
        var stop: Option<Ending>;
        ghost var steps;
        stop, steps := TakeTurn(turns[i]);
        RunConcat(m, s, trace, steps);
        RunFine(m, before, steps);
        TurnPlayed(m, s, rounds, turns, i, trace, r, steps, stop, emptyRounds);
        trace := trace + steps;
        if stop.Some? {
          return stop.value, trace;
        }
      }
      assert turns[..|turns|] == turns;
      LoopEnds(m, s, rounds, turns, |turns|, trace, emptyRounds);
      var complete := AllThere();
      ending := if complete then Finished else Interrupted;
    }

    /** Before the loop: the first addresses are learned, and the saved pieces that verify are taken over. */
    method Prepare(saved: Option<Bitfield>, bootstrap: seq<Addr>, ghost start: nat)
      requires Valid() && Sound(m) && View() == Initial(m, storage.Image(), start)
      requires saved.Some? ==>
        saved.value.Valid() && saved.value != ours && saved.value.bits != ours.bits && saved.value.pieces == |m.hashes|
      modifies this`known, this`queue, this`downloaded, ours.bits
      ensures Valid() && Inv(m, View()) && View().nextId == 0
      ensures var learned := EngineModel.Learn(old(View()), bootstrap);
        View() == if saved.Some? then ResumeTo(m, learned, old(saved.value.Contents()), |m.hashes|) else learned
    {
      InitialInv(m, storage.Image(), start);
      ghost var first := View();
      Learn(bootstrap);
      LearnInv(m, first, bootstrap);
      LearnKeeps(first, bootstrap);
      if saved.Some? {
        ResumeInv(m, View(), saved.value.Contents(), |m.hashes|);
        Resume(saved.value);
      }
    }

    /**
     A whole download with only the engine writing the files: the first addresses are learned, the saved
     pieces that verify are taken over, and the loop runs. When it ends well every piece verifies on disk,
     so the final check finds nothing and no recheck follows.
     */
    method Download(saved: Option<Bitfield>, bootstrap: seq<Addr>, turns: seq<Turn>, ghost start: nat)
        returns (ending: Ending, bad: nat, ghost trace: seq<Event>)
      requires Valid() && Sound(m) && View() == Initial(m, storage.Image(), start)
      requires saved.Some? ==>
        saved.value.Valid() && saved.value != ours && saved.value.bits != ours.bits && saved.value.pieces == |m.hashes|
      modifies this, ours.bits, storage, rotor
      ensures Valid() && bad == 0
      ensures var learned := EngineModel.Learn(old(View()), bootstrap);
              var s := if saved.Some? then ResumeTo(m, learned, old(saved.value.Contents()), |m.hashes|) else learned;
        && PlaysLoop(m, s, old(emptyRounds), turns, trace, ending, emptyRounds)
        && EngineModel.Run(m, s, trace) == if ending.IoError? then Failed(View()) else Going(View())
      ensures ending.Finished? ==> Complete(m, View()) && forall i :: 0 <= i < |m.hashes| ==> GoodOnDisk(m, View().disk, i)
      ensures !ending.Finished? ==> forall i :: i in View().ours ==> i < |m.hashes| && GoodOnDisk(m, View().disk, i)
    {
      Prepare(saved, bootstrap, start);
      assert Restarted(View()) == View();
      ending, trace := Run(turns);
      bad := 0;
      ghost var last := View();
      if ending.Finished? {
        CheckFindsNothing(m, last, |m.hashes|);
        CompleteIff(last.ours, |m.hashes|);
        assert Holds(OwnedVerifiesOnDisk, m, last);
        bad := FinalCheck();
      } else if !ending.IoError? {
        assert Holds(OwnedVerifiesOnDisk, m, last);
      }
    }
  }

  lemma CheckNext(m: Meta, s: State, n: nat, c: Check)
    requires n < |m.hashes| && CheckTo(m, s, n) == c && c.state.disk == s.disk
    ensures CheckTo(m, s, n + 1)
         == if GoodOnDisk(m, c.state.disk, n) then c
            else Check(c.state.(ours := c.state.ours - {n}, downloaded := Monus(c.state.downloaded, Size(m, n))), c.bad + 1)
  {}

  lemma VisitNext(m: Meta, s: State, order: seq<nat>, now: nat, id: nat)
    requires NoDup(order) && (forall x :: x in order ==> x in s.peers) && id in s.peers && id !in order
    ensures NoDup(order + [id])
    ensures VisitAll(m, s, order + [id], now) == EngineModel.VisitPeer(m, VisitAll(m, s, order, now), id, now)
  {
    assert (order + [id])[..|order|] == order;
  }

  lemma RunOneEvent(m: Meta, s: State, e: Event)
    ensures EngineModel.Run(m, s, [e]) == Step(m, s, e)
  {
    assert [e][..0] == [];
  }

  /** A finite set can be listed. */
  ghost function SomeOrder(keys: set<nat>): (order: seq<nat>)
    ensures IsOrder(order, keys)
  {
    if keys == {} then []
    else
      var id :| id in keys;
      SomeOrder(keys - {id}) + [id]
  }
}
