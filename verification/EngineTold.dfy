/** What the peers have been told of our pieces: every open channel knows exactly what we have. */
module EngineTold {
  import opened Common
  import opened Messages
  import opened Requests
  import opened Pieces
  import opened EngineModel
  import opened EngineInvariant
  import opened EngineMessages
  import opened EngineHousekeeping
  import opened EngineTheorems

  // ---------------------------------------------------------------- what was said

  /** What a listener believes we have after one more message. */
  function Heeded(pieces: nat, before: set<nat>, message: Message): set<nat> {
    match message
    case Bitfield(bits) => Members(bits, pieces)
    case Have(index) => before + {index}
    case _ => before
  }

  /** The pieces that someone who read all of `sent` takes us to have. */
  function Told(pieces: nat, sent: seq<Message>): set<nat> {
    if sent == [] then {} else Heeded(pieces, Told(pieces, sent[..|sent| - 1]), sent[|sent| - 1])
  }

  /** The peer was told of nothing we lack, and while its channel takes messages of everything we have. */
  predicate Informed(pieces: nat, ours: set<nat>, tx: Channel) {
    && Told(pieces, tx.sent) <= ours
    && (Open(tx) ==> Told(pieces, tx.sent) == ours)
  }

  ghost predicate ToldOk(m: Meta, ours: set<nat>, peers: map<nat, Peer>) {
    forall id :: id in peers ==> Informed(|m.hashes|, ours, peers[id].tx)
  }

  // -------------------------------------------------- steps that say nothing of pieces

  predicate Silent(message: Message) {
    !message.Have? && !message.Bitfield?
  }

  /** The channel got more messages, none of them about our pieces. */
  predicate Quiet(pieces: nat, before: Channel, after: Channel) {
    && Told(pieces, after.sent) == Told(pieces, before.sent)
    && (Open(after) ==> Open(before))
  }

  ghost predicate AllQuiet(pieces: nat, peers: map<nat, Peer>, after: map<nat, Peer>) {
    forall id :: id in after ==> id in peers && Quiet(pieces, peers[id].tx, after[id].tx)
  }

  lemma ToldAfter(pieces: nat, sent: seq<Message>, message: Message)
    ensures Told(pieces, sent + [message]) == Heeded(pieces, Told(pieces, sent), message)
  {
    assert (sent + [message])[..|sent|] == sent;
  }

  lemma SendQuiet(pieces: nat, tx: Channel, message: Message)
    requires Silent(message)
    ensures Quiet(pieces, tx, Send(tx, message))
  {
    ToldAfter(pieces, tx.sent, message);
  }

  lemma {:induction false} SendAllQuiet(pieces: nat, tx: Channel, messages: seq<Message>)
    requires forall x :: x in messages ==> Silent(x)
    ensures Quiet(pieces, tx, SendAll(tx, messages))
  {
    if messages != [] {
      var n := |messages| - 1;
      SendAllQuiet(pieces, tx, messages[..n]);
      SendQuiet(pieces, SendAll(tx, messages[..n]), messages[n]);
    }
  }

  lemma {:induction false} FillQuiet(pieces: nat, p: Peer, now: nat)
    ensures Quiet(pieces, p.tx, Fill(p, now).peer.tx)
    decreases if p.job.Some? then |p.job.value.pending| else 0
  {
    if p.job.Some? && |p.inFlight| < PIPELINE_DEPTH && p.job.value.pending != [] {
      var job := p.job.value;
      var b := job.pending[0];
      var popped := p.(job := Some(job.(pending := job.pending[1..])));
      var request := BlockRequest(job.index, b.begin, b.length);
      if request in Sent(p.inFlight) {
        FillQuiet(pieces, popped, now);
      } else {
        SendQuiet(pieces, p.tx, Message.Request(job.index, b.begin, b.length));
        FillQuiet(pieces, popped.(inFlight := p.inFlight + [Issued(request, now)],
                                  tx := Send(p.tx, Message.Request(job.index, b.begin, b.length))), now);
      }
    }
  }

  lemma DriveQuiet(pieces: nat, p: Peer, complete: bool, now: nat)
    ensures Quiet(pieces, p.tx, Drive(p, complete, now).peer.tx)
  {
    var q :=
      if p.state.amInterested then p
      else p.(tx := Send(p.tx, Message.Interested), state := p.state.(amInterested := true));
    SendQuiet(pieces, p.tx, Message.Interested);
    FillQuiet(pieces, q, now);
  }

  lemma VisitQuiet(m: Meta, r: Round, id: nat, now: nat)
    requires id in r.state.peers
    ensures var t := VisitPeer(m, r, id, now).state;
      t.ours == r.state.ours && AllQuiet(|m.hashes|, r.state.peers, t.peers)
  {
    var s := Assign(m, SetPeer(r.state, id, Expire(r.state.peers[id], now)), id);
    DriveQuiet(|m.hashes|, s.peers[id], Complete(m, s), now);
  }

  lemma {:induction false} VisitAllQuiet(m: Meta, s: State, order: seq<nat>, now: nat)
    requires forall id :: id in order ==> id in s.peers
    ensures var t := VisitAll(m, s, order, now).state;
      t.ours == s.ours && AllQuiet(|m.hashes|, s.peers, t.peers)
  {
    if order != [] {
      var init, last := order[..|order| - 1], order[|order| - 1];
      VisitAllQuiet(m, s, init, now);
      VisitQuiet(m, VisitAll(m, s, init, now), last, now);
    }
  }

  lemma RechokeQuiet(pieces: nat, p: Peer, unchoke: bool)
    ensures Quiet(pieces, p.tx, Rechoke(p, unchoke).tx)
  {
    SendQuiet(pieces, p.tx, Message.Unchoke);
    SendQuiet(pieces, p.tx, Message.Choke);
  }

  lemma RebalanceQuiet(pieces: nat, s: State, order: seq<nat>, now: nat)
    requires forall id :: id in order ==> id in s.peers
    ensures AllQuiet(pieces, s.peers, Rebalance(s, order, now).peers)
  {
    var chosen := Chosen(s, order, now);
    forall id | id in s.peers ensures Quiet(pieces, s.peers[id].tx, Rechoke(s.peers[id], id in chosen).tx) {
      RechokeQuiet(pieces, s.peers[id], id in chosen);
    }
  }

  /** Housekeeping, of any length and in any order, says nothing of our pieces. */
  lemma HousekeepingQuiet(m: Meta, s: State, order: seq<nat>, again: seq<nat>, now: nat)
    requires PassesOk(m, s, order, again, now)
    ensures var t := Housekeeping(m, s, order, again, now);
      t.ours == s.ours && AllQuiet(|m.hashes|, s.peers, t.peers)
  {
    VisitAllQuiet(m, s, order, now);
    var r := VisitAll(m, s, order, now);
    RemoveAllKeeps(r.state, r.dead);
    var u := RemoveAll(r.state, r.dead);
    if Monus(now, u.lastChoke) >= CHOKE_INTERVAL {
      RebalanceQuiet(|m.hashes|, u.(lastChoke := now), again, now);
    }
  }

  // --------------------------------------------------------- steps that tell something

  /** The greeting tells a new peer all we have. */
  lemma ConnectedTold(m: Meta, s: State, id: nat, capacity: nat, now: nat)
    requires s.ours <= Below(|m.hashes|) && ToldOk(m, s.ours, s.peers)
    ensures var t := Connected(m, s, id, capacity, now);
      t.ours == s.ours && ToldOk(m, t.ours, t.peers)
  {
    PackMembers(s.ours, |m.hashes|);
    ToldAfter(|m.hashes|, [], Message.Bitfield(Pack(s.ours, |m.hashes|)));
  }

  lemma CancelsQuiet(pieces: nat, tx: Channel, inFlight: seq<Issued>)
    ensures Quiet(pieces, tx, SendAll(tx, Cancels(inFlight)))
  {
    forall x | x in Cancels(inFlight) ensures Silent(x) {
      var i :| 0 <= i < |inFlight| && Cancels(inFlight)[i] == x;
    }
    SendAllQuiet(pieces, tx, Cancels(inFlight));
  }

  lemma AnnounceTold(pieces: nat, ours: set<nat>, p: Peer, finisher: bool, index: nat)
    requires Informed(pieces, ours, p.tx)
    ensures Informed(pieces, ours + {index}, Announce(p, finisher, index).tx)
  {
    ToldAfter(pieces, p.tx.sent, Message.Have(index));
    CancelsQuiet(pieces, Send(p.tx, Message.Have(index)), p.inFlight);
  }

  /** Whichever way a full job ends, also in a failed write, the peers know what we have. */
  lemma FinishTold(m: Meta, s: State, id: nat, job: PieceJob, fault: Option<nat>)
    requires ToldOk(m, s.ours, s.peers)
    ensures var t := FinishPiece(m, s, id, job, fault).state; ToldOk(m, t.ours, t.peers)
  {
    forall other | other in s.peers
      ensures Informed(|m.hashes|, s.ours + {job.index}, Announce(s.peers[other], other == id, job.index).tx)
    {
      AnnounceTold(|m.hashes|, s.ours, s.peers[other], other == id, job.index);
    }
  }

  lemma RequestTold(m: Meta, s: State, id: nat, index: nat, begin: nat, length: nat)
    requires ToldOk(m, s.ours, s.peers) && id in s.peers
    ensures var t := OnRequest(m, s, id, index, begin, length); t.ours == s.ours && ToldOk(m, t.ours, t.peers)
  {
    var offset := index * m.pieceLength + begin;
    if offset + length <= |s.disk| {
      SendQuiet(|m.hashes|, s.peers[id].tx, Message.Piece(index, begin, s.disk[offset..offset + length]));
    }
  }

  lemma PieceTold(m: Meta, s: State, id: nat, index: nat, begin: nat, data: seq<byte>, now: nat, fault: Option<nat>)
    requires ToldOk(m, s.ours, s.peers) && id in s.peers
    ensures var t := OnPiece(m, s, id, index, begin, data, now, fault).state; ToldOk(m, t.ours, t.peers)
  {
    PieceWays(m, s, id, index, begin, data, now, fault);
    if Asked(s.peers[id], index, begin, data) {
      var t := s.(peers := s.peers[id := Receive(s.peers[id], begin, data, now)]);
      FinishTold(m, Taken(t, id), id, t.peers[id].job.value, fault);
    }
  }

  lemma BitfieldTold(m: Meta, s: State, id: nat, bits: seq<bv8>)
    requires ToldOk(m, s.ours, s.peers) && id in s.peers
    ensures var t := OnBitfield(m, s, id, bits); t.ours == s.ours && ToldOk(m, t.ours, t.peers)
  {}

  lemma HaveTold(m: Meta, s: State, id: nat, index: nat)
    requires ToldOk(m, s.ours, s.peers) && id in s.peers
    ensures var t := OnHave(m, s, id, index); t.ours == s.ours && ToldOk(m, t.ours, t.peers)
  {}

  lemma SameTold(m: Meta, s: State, id: nat, q: Peer)
    requires ToldOk(m, s.ours, s.peers) && id in s.peers && q.tx == s.peers[id].tx
    ensures ToldOk(m, s.ours, s.peers[id := q])
  {}

  lemma MessageTold(m: Meta, s: State, id: nat, message: Message, now: nat, fault: Option<nat>)
    requires ToldOk(m, s.ours, s.peers)
    ensures var t := OnMessage(m, s, id, message, now, fault).state; ToldOk(m, t.ours, t.peers)
  {
    if id in s.peers {
      var p := s.peers[id].(state := Heard(s.peers[id].state, message));
      var t := s.(peers := s.peers[id := p]);
      SameTold(m, s, id, p);
      match message
      case Bitfield(bits) => BitfieldTold(m, t, id, bits);
      case Have(index) => HaveTold(m, t, id, index);
      case Request(index, begin, length) => RequestTold(m, t, id, index, begin, length);
      case Piece(index, begin, data) => PieceTold(m, t, id, index, begin, data, now, fault);
      case _ =>
    }
  }

  // -------------------------------------------------------------------- every run

  lemma StepTold(m: Meta, s: State, e: Event)
    requires s.ours <= Below(|m.hashes|) && ToldOk(m, s.ours, s.peers)
    ensures var t := Step(m, s, e).state; ToldOk(m, t.ours, t.peers)
  {
    if Possible(m, s, e) {
      match e
      case Learned(addrs) => LearnKeeps(s, addrs);
      case Dialled => DialKeeps(m, s);
      case Answered(id, capacity, at) => ConnectedTold(m, s, id, capacity, at);
      case Received(id, message, at, fault) => MessageTold(m, s, id, message, at, fault);
      case Kept(order, again, at) => HousekeepingQuiet(m, s, order, again, at);
      case _ =>
    }
  }

  lemma {:induction false} RunTold(m: Meta, s: State, events: seq<Event>)
    requires Sound(m) && Inv(m, s) && ToldOk(m, s.ours, s.peers)
    ensures var t := Run(m, s, events).state; ToldOk(m, t.ours, t.peers)
  {
    if events != [] {
      var init := events[..|events| - 1];
      RunTold(m, s, init);
      RunFine(m, s, init);
      var o := Run(m, s, init);
      if o.Going? {
        assert Holds(OwnedVerifiesOnDisk, m, o.state);
        StepTold(m, o.state, events[|events| - 1]);
      }
    }
  }

  /**
   In every reachable state a connected peer was told of no piece we lack, and one whose channel still
   takes messages was told of exactly the pieces we have: by its greeting and the Haves since.
   */
  lemma PeersKnowOurs(m: Meta, disk: seq<byte>, start: nat, saved: set<nat>, events: seq<Event>, s: State, id: nat)
    requires Sound(m) && |disk| == m.total && Reachable(m, disk, start, saved, events, s) && id in s.peers
    ensures Told(|m.hashes|, s.peers[id].tx.sent) <= s.ours
    ensures Open(s.peers[id].tx) ==> Told(|m.hashes|, s.peers[id].tx.sent) == s.ours
  {
    InitialInv(m, disk, start);
    ResumeInv(m, Initial(m, disk, start), saved, |m.hashes|);
    RunTold(m, Resumed(m, disk, start, saved), events);
  }
}
