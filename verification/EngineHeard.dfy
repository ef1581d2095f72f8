/** What the peers have told us: what we keep about each is what it said on its connection. */
module EngineHeard {
  import opened Common
  import opened Messages
  import opened Requests
  import opened Pieces
  import opened EngineModel
  import opened EngineInvariant
  import opened EngineMessages
  import opened EngineHousekeeping
  import opened EngineTheorems

  // ------------------------------------------------------------- a connection so far

  datatype Delivery = Delivery(length: nat, at: nat)

  /** When the peer connected, every message read from it since, and the asked-for blocks among them. */
  datatype Contact = Contact(since: nat, said: seq<Message>, took: seq<Delivery>)

  /** The message carries a block that was asked of the peer and not answered yet. */
  predicate Answers(p: Peer, message: Message) {
    message.Piece? && WorksOn(p, message.index)
    && BlockRequest(message.index, message.begin, |message.data|) in Sent(p.inFlight)
  }

  /** What an event in state `s` adds to the contact with peer `id`. */
  function Noted(s: State, c: Contact, id: nat, e: Event): Contact {
    match e
    case Answered(other, _, at) => if other == id && id in s.dialing then Contact(at, [], []) else c
    case Received(other, message, at, _) =>
      if other != id || id !in s.peers then c
      else if Answers(s.peers[id], message) then
        Contact(c.since, c.said + [message], c.took + [Delivery(|message.data|, at)])
      else c.(said := c.said + [message])
    case _ => c
  }

  /** The contact with peer `id` after a run from `s`. */
  function ContactOf(m: Meta, s: State, events: seq<Event>, id: nat): Contact {
    if events == [] then Contact(0, [], [])
    else
      var init := events[..|events| - 1];
      var before := ContactOf(m, s, init, id);
      match Run(m, s, init)
      case Failed(_) => before
      case Going(t) => Noted(t, before, id, events[|events| - 1])
  }

  // ------------------------------------------------------------- what messages mean

  function Added(pieces: nat, before: set<nat>, message: Message): set<nat> {
    match message
    case Bitfield(bits) => if WellFormed(bits, pieces) then Members(bits, pieces) else before
    case Have(index) => if index < pieces then before + {index} else before
    case _ => before
  }

  /** The last bitfield that is one, and the Haves of pieces there are since. */
  function Offered(pieces: nat, said: seq<Message>): set<nat> {
    if said == [] then {} else Added(pieces, Offered(pieces, said[..|said| - 1]), said[|said| - 1])
  }

  predicate Tells(pieces: nat, message: Message) {
    message.Have? || (message.Bitfield? && WellFormed(message.bits, pieces))
  }

  predicate ToldUs(pieces: nat, said: seq<Message>) {
    exists i :: 0 <= i < |said| && Tells(pieces, said[i])
  }

  function Delivered(took: seq<Delivery>): nat {
    if took == [] then 0 else Delivered(took[..|took| - 1]) + took[|took| - 1].length
  }

  function LastDelivery(c: Contact): nat {
    if c.took == [] then c.since else c.took[|c.took| - 1].at
  }

  /** What the engine keeps of a peer's side is what the peer said. */
  predicate Reflects(pieces: nat, p: Peer, c: Contact) {
    && p.theirs == Offered(pieces, c.said)
    && (p.theirsKnown <==> ToldUs(pieces, c.said))
    && (!p.theirsKnown ==> p.theirs == {})
    && p.state.peerChoking == SaidChoke(c.said)
    && p.state.peerInterested == SaidInterested(c.said)
    && p.downloadedFrom == Delivered(c.took)
    && p.lastUseful == LastDelivery(c)
  }

  // ---------------------------------------------------- steps that learn nothing new

  predicate SameFace(p: Peer, q: Peer) {
    && p.theirs == q.theirs && p.theirsKnown == q.theirsKnown
    && p.state.peerChoking == q.state.peerChoking && p.state.peerInterested == q.state.peerInterested
    && p.downloadedFrom == q.downloadedFrom && p.lastUseful == q.lastUseful
  }

  ghost predicate SameFaces(peers: map<nat, Peer>, after: map<nat, Peer>) {
    forall id :: id in after ==> id in peers && SameFace(peers[id], after[id])
  }

  lemma {:induction false} FillFace(p: Peer, now: nat)
    ensures SameFace(p, Fill(p, now).peer)
    decreases if p.job.Some? then |p.job.value.pending| else 0
  {
    if p.job.Some? && |p.inFlight| < PIPELINE_DEPTH && p.job.value.pending != [] {
      var job := p.job.value;
      var b := job.pending[0];
      var popped := p.(job := Some(job.(pending := job.pending[1..])));
      var request := BlockRequest(job.index, b.begin, b.length);
      if request in Sent(p.inFlight) {
        FillFace(popped, now);
      } else {
        FillFace(popped.(inFlight := p.inFlight + [Issued(request, now)],
                         tx := Send(p.tx, Message.Request(job.index, b.begin, b.length))), now);
      }
    }
  }

  lemma DriveFace(p: Peer, complete: bool, now: nat)
    ensures SameFace(p, Drive(p, complete, now).peer)
  {
    var q :=
      if p.state.amInterested then p
      else p.(tx := Send(p.tx, Message.Interested), state := p.state.(amInterested := true));
    FillFace(q, now);
  }

  lemma VisitFace(m: Meta, r: Round, id: nat, now: nat)
    requires id in r.state.peers
    ensures SameFaces(r.state.peers, VisitPeer(m, r, id, now).state.peers)
  {
    var s := Assign(m, SetPeer(r.state, id, Expire(r.state.peers[id], now)), id);
    DriveFace(s.peers[id], Complete(m, s), now);
  }

  lemma {:induction false} VisitAllFace(m: Meta, s: State, order: seq<nat>, now: nat)
    requires forall id :: id in order ==> id in s.peers
    ensures SameFaces(s.peers, VisitAll(m, s, order, now).state.peers)
  {
    if order != [] {
      var init, last := order[..|order| - 1], order[|order| - 1];
      VisitAllFace(m, s, init, now);
      VisitFace(m, VisitAll(m, s, init, now), last, now);
    }
  }

  lemma HousekeepingFace(m: Meta, s: State, order: seq<nat>, again: seq<nat>, now: nat)
    requires PassesOk(m, s, order, again, now)
    ensures SameFaces(s.peers, Housekeeping(m, s, order, again, now).peers)
  {
    VisitAllFace(m, s, order, now);
    var r := VisitAll(m, s, order, now);
    RemoveAllKeeps(r.state, r.dead);
    var u := RemoveAll(r.state, r.dead);
    assert SameFaces(s.peers, u.peers);
    RebalanceFace(u.(lastChoke := now), again, now);
  }

  lemma RebalanceFace(s: State, order: seq<nat>, now: nat)
    requires forall id :: id in order ==> id in s.peers
    ensures SameFaces(s.peers, Rebalance(s, order, now).peers)
  {}

  lemma FinishFace(m: Meta, s: State, id: nat, job: PieceJob, fault: Option<nat>)
    ensures SameFaces(s.peers, FinishPiece(m, s, id, job, fault).state.peers)
  {}

  // -------------------------------------------------------- messages that teach us

  lemma OfferedAfter(pieces: nat, said: seq<Message>, message: Message)
    ensures Offered(pieces, said + [message]) == Added(pieces, Offered(pieces, said), message)
  {
    assert (said + [message])[..|said|] == said;
  }

  lemma ToldAfter(pieces: nat, said: seq<Message>, message: Message)
    ensures ToldUs(pieces, said + [message]) <==> ToldUs(pieces, said) || Tells(pieces, message)
  {
    var all := said + [message];
    if ToldUs(pieces, said) {
      var i :| 0 <= i < |said| && Tells(pieces, said[i]);
      assert Tells(pieces, all[i]);
    }
    if Tells(pieces, message) {
      assert Tells(pieces, all[|said|]);
    }
    if ToldUs(pieces, all) {
      var i :| 0 <= i < |all| && Tells(pieces, all[i]);
      assert i < |said| ==> said[i] == all[i];
    }
  }

  lemma TookAfter(took: seq<Delivery>, d: Delivery)
    ensures Delivered(took + [d]) == Delivered(took) + d.length
  {
    assert (took + [d])[..|took|] == took;
  }

  /** What a message that brings no block changes about its sender. */
  predicate Learns(pieces: nat, p: Peer, q: Peer, message: Message) {
    && q.theirs == Added(pieces, p.theirs, message)
    && (q.theirsKnown <==> p.theirsKnown || Tells(pieces, message))
    && q.state.peerChoking == Heard(p.state, message).peerChoking
    && q.state.peerInterested == Heard(p.state, message).peerInterested
    && q.downloadedFrom == p.downloadedFrom && q.lastUseful == p.lastUseful
  }

  lemma LearnsFace(pieces: nat, p: Peer, q: Peer, message: Message, c: Contact)
    requires Reflects(pieces, p, c) && Learns(pieces, p, q, message)
    ensures Reflects(pieces, q, c.(said := c.said + [message]))
  {
    SaidAfter(c.said, message);
    OfferedAfter(pieces, c.said, message);
    ToldAfter(pieces, c.said, message);
  }

  /** A bitfield that is one replaces what was known; any other costs the peer its connection. */
  lemma BitfieldOutcome(m: Meta, s: State, id: nat, bits: seq<bv8>)
    requires id in s.peers
    ensures OnBitfield(m, s, id, bits).peers
         == if WellFormed(bits, |m.hashes|) then s.peers[id := s.peers[id].(theirs := Members(bits, |m.hashes|), theirsKnown := true)]
            else s.peers - {id}
  {
    ParseBitsIff(bits, |m.hashes|);
  }

  lemma HaveFace(m: Meta, s: State, id: nat, index: nat)
    requires id in s.peers && (!s.peers[id].theirsKnown ==> s.peers[id].theirs == {})
    ensures var t := OnHave(m, s, id, index);
      id in t.peers && (s.peers[id].theirs <= Below(|m.hashes|) ==> Learns(|m.hashes|, s.peers[id], t.peers[id], Message.Have(index)))
  {}

  lemma KindFace(m: Meta, s: State, id: nat, message: Message, at: nat, fault: Option<nat>)
    requires id in s.peers && PeerOk(m, s.peers[id]) && !message.Piece?
    ensures var t := OnMessage(m, s, id, message, at, fault).state;
      id in t.peers ==> Learns(|m.hashes|, s.peers[id], t.peers[id], message)
  {
    var p := s.peers[id];
    var t := s.(peers := s.peers[id := p.(state := Heard(p.state, message))]);
    match message
    case Bitfield(bits) => BitfieldOutcome(m, t, id, bits);
    case Have(index) => HaveFace(m, t, id, index);
    case _ =>
  }

  lemma NotedIs(s: State, c: Contact, id: nat, message: Message, at: nat, fault: Option<nat>)
    requires id in s.peers
    ensures Noted(s, c, id, Received(id, message, at, fault))
         == if Answers(s.peers[id], message) then Contact(c.since, c.said + [message], c.took + [Delivery(|message.data|, at)])
            else c.(said := c.said + [message])
  {}

  lemma BlockFace(m: Meta, s: State, id: nat, message: Message, at: nat, fault: Option<nat>, c: Contact)
    requires id in s.peers && Reflects(|m.hashes|, s.peers[id], c) && message.Piece?
    ensures var t := OnMessage(m, s, id, message, at, fault).state;
      id in t.peers ==> Reflects(|m.hashes|, t.peers[id],
        if Answers(s.peers[id], message) then Contact(c.since, c.said + [message], c.took + [Delivery(|message.data|, at)])
        else c.(said := c.said + [message]))
  {
    var p := s.peers[id];
    var u := s.(peers := s.peers[id := p.(state := Heard(p.state, message))]);
    var t := OnMessage(m, s, id, message, at, fault).state;
    PieceFace(m, u, id, message.index, message.begin, message.data, at, fault);
    if id in t.peers {
      TookFace(|m.hashes|, p, t.peers[id], message, at, c);
    }
  }

  /** A message of the peer, and the contact with it once it is noted. */
  lemma MessageFace(m: Meta, s: State, id: nat, message: Message, at: nat, fault: Option<nat>, c: Contact)
    requires id in s.peers && PeerOk(m, s.peers[id]) && Reflects(|m.hashes|, s.peers[id], c)
    ensures var t := OnMessage(m, s, id, message, at, fault).state;
      id in t.peers ==> Reflects(|m.hashes|, t.peers[id], Noted(s, c, id, Received(id, message, at, fault)))
  {
    NotedIs(s, c, id, message, at, fault);
    if message.Piece? {
      BlockFace(m, s, id, message, at, fault, c);
    } else {
      KindFace(m, s, id, message, at, fault);
      var t := OnMessage(m, s, id, message, at, fault).state;
      if id in t.peers {
        LearnsFace(|m.hashes|, s.peers[id], t.peers[id], message, c);
      }
    }
  }

  lemma TookFace(pieces: nat, p: Peer, q: Peer, message: Message, at: nat, c: Contact)
    requires message.Piece? && Reflects(pieces, p, c)
    requires if Answers(p, message) then SameFace(p.(downloadedFrom := p.downloadedFrom + |message.data|, lastUseful := at), q)
             else SameFace(p, q)
    ensures Reflects(pieces, q, if Answers(p, message)
                                then Contact(c.since, c.said + [message], c.took + [Delivery(|message.data|, at)])
                                else c.(said := c.said + [message]))
  {
    TookAfter(c.took, Delivery(|message.data|, at));
    LearnsFace(pieces, p, p, message, c);
  }

  lemma AskedIff(p: Peer, index: nat, begin: nat, data: seq<byte>)
    ensures Asked(p, index, begin, data) <==> Answers(p, Message.Piece(index, begin, data))
  {
    var request := BlockRequest(index, begin, |data|);
    var at := IndexOf(p.inFlight, request);
    if at < |p.inFlight| {
      assert Sent(p.inFlight)[at] == request;
    } else {
      forall i | 0 <= i < |p.inFlight| ensures Sent(p.inFlight)[i] != request {}
    }
  }

  lemma PieceFace(m: Meta, s: State, id: nat, index: nat, begin: nat, data: seq<byte>, at: nat, fault: Option<nat>)
    requires id in s.peers
    ensures var t := OnPiece(m, s, id, index, begin, data, at, fault).state;
      id in t.peers ==>
        var p, q := s.peers[id], t.peers[id];
        if Answers(p, Message.Piece(index, begin, data))
        then SameFace(p.(downloadedFrom := p.downloadedFrom + |data|, lastUseful := at), q)
        else SameFace(p, q)
  {
    PieceWays(m, s, id, index, begin, data, at, fault);
    AskedIff(s.peers[id], index, begin, data);
    if Asked(s.peers[id], index, begin, data) {
      var t := s.(peers := s.peers[id := Receive(s.peers[id], begin, data, at)]);
      FinishFace(m, Taken(t, id), id, t.peers[id].job.value, fault);
    }
  }

  lemma OthersFace(m: Meta, s: State, id: nat, message: Message, at: nat, fault: Option<nat>, other: nat)
    requires other != id
    ensures var t := OnMessage(m, s, id, message, at, fault).state;
      other in t.peers ==> other in s.peers && SameFace(s.peers[other], t.peers[other])
  {
    if id in s.peers && message.Piece? {
      var t := s.(peers := s.peers[id := s.peers[id].(state := Heard(s.peers[id].state, message))]);
      PieceWays(m, t, id, message.index, message.begin, message.data, at, fault);
      if Asked(t.peers[id], message.index, message.begin, message.data) {
        var u := t.(peers := t.peers[id := Receive(t.peers[id], message.begin, message.data, at)]);
        FinishFace(m, Taken(u, id), id, u.peers[id].job.value, fault);
      }
    }
  }

  // -------------------------------------------------------------------- every run

  /** What the step did to peer `id` is what the event told us of it. */
  lemma StepHeard(m: Meta, s: State, e: Event, id: nat, c: Contact)
    requires Inv(m, s) && (id in s.peers ==> Reflects(|m.hashes|, s.peers[id], c))
    ensures var t := Step(m, s, e).state;
      id in t.peers ==> Reflects(|m.hashes|, t.peers[id], Noted(s, c, id, e))
  {
    assert Holds(ConnectionsAreCounted, m, s);
    if Possible(m, s, e) {
      match e
      case Learned(addrs) => LearnKeeps(s, addrs);
      case Dialled => DialKeeps(m, s);
      case Received(other, message, at, fault) =>
        if other == id && id in s.peers {
          CoreFromInv(m, s);
          PeerFromCore(m, s, id);
          MessageFace(m, s, id, message, at, fault, c);
        } else if other != id {
          OthersFace(m, s, other, message, at, fault, id);
        }
      case Kept(order, again, at) => HousekeepingFace(m, s, order, again, at);
      case _ =>
    }
  }

  lemma {:induction false} RunHeard(m: Meta, s: State, events: seq<Event>, id: nat)
    requires Sound(m) && Inv(m, s) && s.peers == map[]
    ensures var t := Run(m, s, events).state;
      id in t.peers ==> Reflects(|m.hashes|, t.peers[id], ContactOf(m, s, events, id))
  {
    if events != [] {
      var init := events[..|events| - 1];
      RunHeard(m, s, init, id);
      RunFine(m, s, init);
      var o := Run(m, s, init);
      if o.Going? {
        StepHeard(m, o.state, events[|events| - 1], id, ContactOf(m, s, init, id));
      }
    }
  }

  /**
   In every reachable state the pieces of a peer are what it offered, it counts as known exactly if it
   sent a bitfield or a Have, its two flags are what it said last, and what it delivered is the sum and
   the time of the asked-for blocks it sent, all of it since it connected.
   */
  lemma PeersAreHeard(m: Meta, disk: seq<byte>, start: nat, saved: set<nat>, events: seq<Event>, s: State, id: nat)
    requires Sound(m) && |disk| == m.total && Reachable(m, disk, start, saved, events, s) && id in s.peers
    ensures Reflects(|m.hashes|, s.peers[id], ContactOf(m, Resumed(m, disk, start, saved), events, id))
  {
    InitialInv(m, disk, start);
    ResumeInv(m, Initial(m, disk, start), saved, |m.hashes|);
    RunHeard(m, Resumed(m, disk, start, saved), events, id);
  }

  lemma RequestOutcome(m: Meta, s: State, id: nat, index: nat, begin: nat, length: nat, at: nat, fault: Option<nat>)
    requires id in s.peers
    ensures var p := s.peers[id];
            var place := index * m.pieceLength + begin;
            var o := Step(m, s, Received(id, Message.Request(index, begin, length), at, fault));
      && o.Going? && id in o.state.peers
      && if MayUpload(p.state) && index in s.ours && 0 < length <= MAX_SERVED_BLOCK && place + length <= |s.disk| && Open(p.tx)
         then o.state.uploaded == s.uploaded + length
              && o.state.peers[id].tx.sent == p.tx.sent + [Message.Piece(index, begin, s.disk[place..place + length])]
         else o.state.uploaded == s.uploaded && o.state.peers[id].tx == p.tx
  {}

  /**
   A request is answered, with the bytes on disk, exactly if the peer was last told that it is unchoked,
   last said that it is interested, asks for a piece we have, for a length that is served, inside the
   torrent, and its channel takes the answer.
   */
  lemma ServedIff(m: Meta, disk: seq<byte>, start: nat, saved: set<nat>, events: seq<Event>, s: State, id: nat,
                  index: nat, begin: nat, length: nat, at: nat, fault: Option<nat>)
    requires Sound(m) && |disk| == m.total && Reachable(m, disk, start, saved, events, s) && id in s.peers
    ensures var said := ContactOf(m, Resumed(m, disk, start, saved), events, id).said;
            var p := s.peers[id];
            var place := index * m.pieceLength + begin;
            var o := Step(m, s, Received(id, Message.Request(index, begin, length), at, fault));
      && o.Going? && id in o.state.peers
      && if !SaidChoke(p.tx.sent) && SaidInterested(said) && index in s.ours && 0 < length <= MAX_SERVED_BLOCK
            && place + length <= m.total && Open(p.tx)
         then place + length <= |s.disk| && o.state.uploaded == s.uploaded + length
              && o.state.peers[id].tx.sent == p.tx.sent + [Message.Piece(index, begin, s.disk[place..place + length])]
         else o.state.uploaded == s.uploaded && o.state.peers[id].tx == p.tx
  {
    PeersAreHeard(m, disk, start, saved, events, s, id);
    ReachableInv(m, disk, start, saved, events, s);
    CoreFromInv(m, s);
    PeerFromCore(m, s, id);
    assert Holds(OwnedVerifiesOnDisk, m, s);
    RequestOutcome(m, s, id, index, begin, length, at, fault);
  }
}
