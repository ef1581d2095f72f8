/** When chokes change: not before ten seconds are over, and then exactly as the slots say. */
module EngineChokes {
  import opened Common
  import opened Messages
  import opened Requests
  import opened EngineModel
  import opened EngineInvariant
  import opened EngineMessages
  import opened EngineHousekeeping
  import opened EngineTheorems
  import opened EngineSteps
  import Choke

  // ------------------------------------------------------------------ between rebalances

  predicate SaysNoChoke(before: seq<Message>, after: seq<Message>) {
    before <= after && forall i :: |before| <= i < |after| ==> !after[i].Choke? && !after[i].Unchoke?
  }

  /** The peer's choke state is as it was, and it was told nothing about it. */
  predicate SameChoke(p: Peer, q: Peer) {
    q.state.amChoking == p.state.amChoking && SaysNoChoke(p.tx.sent, q.tx.sent)
  }

  ghost predicate SameChokes(peers: map<nat, Peer>, after: map<nat, Peer>) {
    forall id :: id in after && id in peers ==> SameChoke(peers[id], after[id])
  }

  lemma UpToSaysNoChoke(tx: Channel, messages: seq<Message>)
    requires forall x :: x in messages ==> !x.Choke? && !x.Unchoke?
    ensures SaysNoChoke(tx.sent, SentUpTo(tx, messages).sent)
  {
    var after := SentUpTo(tx, messages).sent;
    forall i | |tx.sent| <= i < |after| ensures !after[i].Choke? && !after[i].Unchoke? {
      assert after[i] == messages[i - |tx.sent|];
    }
  }

  lemma DriveSameChoke(m: Meta, p: Peer, complete: bool, now: nat)
    requires PeerOk(m, p)
    ensures SameChoke(p, Drive(p, complete, now).peer)
  {
    if p.job.Some? {
      var k := DriveSends(m, p, complete, now);
      UpToSaysNoChoke(p.tx, Hello(p));
      UpToSaysNoChoke(p.tx, Hello(p) + Asking(p.job.value.index, p.job.value.pending[..k]));
    }
  }

  lemma VisitSameChoke(m: Meta, s: State, order: seq<nat>, now: nat, id: nat)
    requires Sound(m) && Inv(m, s) && NoDup(order) && (forall x :: x in order ==> x in s.peers) && id in order
    ensures SameChoke(s.peers[id], VisitAll(m, s, order, now).state.peers[id])
  {
    var before := VisitedOnce(m, s, order, now, id);
    ReadyOk(m, before, id, now);
    DriveSameChoke(m, Ready(m, before, id, now), Complete(m, before.state), now);
  }

  lemma VisitsSameChokes(m: Meta, s: State, order: seq<nat>, now: nat)
    requires Sound(m) && Inv(m, s) && IsOrder(order, s.peers.Keys)
    ensures var r := VisitAll(m, s, order, now);
            var u := RemoveAll(r.state, r.dead);
      SameChokes(s.peers, u.peers) && u.rotor == s.rotor && u.lastChoke == s.lastChoke
  {
    var r := VisitAll(m, s, order, now);
    VisitAllInv(m, s, order, now);
    RemoveAllKeeps(r.state, r.dead);
    forall id | id in RemoveAll(r.state, r.dead).peers ensures SameChoke(s.peers[id], r.state.peers[id]) {
      VisitSameChoke(m, s, order, now, id);
    }
  }

  /**
   A pass before the choke interval is over leaves the rotor, the choke clock and every remaining peer's
   choke state alone and tells nobody about chokes; a pass after it sets the clock to now.
   */
  lemma PassChokes(m: Meta, s: State, order: seq<nat>, again: seq<nat>, now: nat)
    requires Sound(m) && Inv(m, s) && PassesOk(m, s, order, again, now)
    ensures var t := Housekeeping(m, s, order, again, now);
      if Monus(now, s.lastChoke) < CHOKE_INTERVAL
      then SameChokes(s.peers, t.peers) && t.rotor == s.rotor && t.lastChoke == s.lastChoke
      else t.lastChoke == now
  {
    VisitsSameChokes(m, s, order, now);
  }

  /** An event other than a due pass. */
  predicate Early(s: State, e: Event) {
    e.Kept? ==> Monus(e.at, s.lastChoke) < CHOKE_INTERVAL
  }

  lemma NewsKinds(index: nat, inFlight: seq<Issued>, news: seq<Message>)
    requires News(index, inFlight, news)
    ensures forall x :: x in news ==> x.Have? || x.Cancel?
  {
    forall x | x in news ensures x.Have? || x.Cancel? {
      var i :| 0 <= i < |news| && news[i] == x;
      if i > 0 {
        var r := inFlight[i - 1].request;
        assert news[(i - 1) + 1] == Message.Cancel(r.piece, r.begin, r.length);
      }
    }
  }

  lemma AnnounceChokes(p: Peer, finisher: bool, index: nat)
    ensures SameChoke(p, Announce(p, finisher, index))
  {
    var news := AnnounceIs(p, finisher, index);
    if !finisher && WorksOn(p, index) {
      NewsKinds(index, p.inFlight, news);
    }
    UpToSaysNoChoke(p.tx, news);
  }

  /** What finishing a piece does to a peer: the news, at most a job, or nothing. */
  lemma FinishPeers(m: Meta, s: State, id: nat, job: PieceJob, fault: Option<nat>)
    ensures var t := FinishPiece(m, s, id, job, fault).state;
      && t.rotor == s.rotor && t.lastChoke == s.lastChoke
      && forall other :: other in t.peers ==>
           && other in s.peers
           && (t.peers[other] == Announce(s.peers[other], other == id, job.index)
               || t.peers[other] == s.peers[other].(job := t.peers[other].job))
  {}

  lemma FinishChokes(m: Meta, s: State, id: nat, job: PieceJob, fault: Option<nat>)
    ensures var t := FinishPiece(m, s, id, job, fault).state;
      SameChokes(s.peers, t.peers) && t.rotor == s.rotor && t.lastChoke == s.lastChoke
  {
    FinishPeers(m, s, id, job, fault);
    forall other | other in s.peers ensures SameChoke(s.peers[other], Announce(s.peers[other], other == id, job.index)) {
      AnnounceChokes(s.peers[other], other == id, job.index);
    }
  }

  lemma PieceChokes(m: Meta, s: State, id: nat, index: nat, begin: nat, data: seq<byte>, at: nat, fault: Option<nat>)
    requires id in s.peers
    ensures var t := OnPiece(m, s, id, index, begin, data, at, fault).state;
      SameChokes(s.peers, t.peers) && t.rotor == s.rotor && t.lastChoke == s.lastChoke
  {
    PieceWays(m, s, id, index, begin, data, at, fault);
    if Asked(s.peers[id], index, begin, data) {
      var t := s.(peers := s.peers[id := Receive(s.peers[id], begin, data, at)]);
      FinishChokes(m, Taken(t, id), id, t.peers[id].job.value, fault);
    }
  }

  lemma MessageChokes(m: Meta, s: State, id: nat, message: Message, at: nat, fault: Option<nat>)
    ensures var t := OnMessage(m, s, id, message, at, fault).state;
      SameChokes(s.peers, t.peers) && t.rotor == s.rotor && t.lastChoke == s.lastChoke
  {
    if id in s.peers {
      var p := s.peers[id].(state := Heard(s.peers[id].state, message));
      var t := s.(peers := s.peers[id := p]);
      match message
      case Request(index, begin, length) => RequestChokes(m, t, id, index, begin, length);
      case Piece(index, begin, data) => PieceChokes(m, t, id, index, begin, data, at, fault);
      case _ =>
    }
  }

  lemma RequestChokes(m: Meta, s: State, id: nat, index: nat, begin: nat, length: nat)
    requires id in s.peers
    ensures var t := OnRequest(m, s, id, index, begin, length);
      SameChokes(s.peers, t.peers) && t.rotor == s.rotor && t.lastChoke == s.lastChoke
  {}

  /** Between due passes nothing about chokes changes, whatever happens. */
  lemma NoEarlyChoke(m: Meta, s: State, e: Event)
    requires Sound(m) && Inv(m, s) && Early(s, e)
    ensures var t := Step(m, s, e).state;
      SameChokes(s.peers, t.peers) && t.rotor == s.rotor && t.lastChoke == s.lastChoke
  {
    assert Holds(ConnectionsAreCounted, m, s);
    if Possible(m, s, e) {
      match e
      case Learned(addrs) => LearnKeeps(s, addrs);
      case Dialled => DialKeeps(m, s);
      case Received(id, message, at, fault) => MessageChokes(m, s, id, message, at, fault);
      case Kept(order, again, at) => PassChokes(m, s, order, again, at);
      case _ =>
    }
  }

  /** The event changes the optimistic choice or some peer's choke state. */
  predicate Rechokes(s: State, t: State) {
    s.rotor != t.rotor
    || exists id :: id in s.peers && id in t.peers && s.peers[id].state.amChoking != t.peers[id].state.amChoking
  }

  /** Only a due pass rechokes, and it sets the clock. */
  lemma RechokesAreDue(m: Meta, s: State, e: Event)
    requires Sound(m) && Inv(m, s)
    ensures var t := Step(m, s, e).state;
      && (Rechokes(s, t) ==> e.Kept? && e.at >= s.lastChoke + CHOKE_INTERVAL && t.lastChoke == e.at)
      && t.lastChoke >= s.lastChoke
  {
    if Early(s, e) {
      NoEarlyChoke(m, s, e);
    } else if Possible(m, s, e) {
      PassChokes(m, s, e.order, e.again, e.at);
    }
  }

  lemma {:induction false} ClockGrows(m: Meta, s: State, events: seq<Event>)
    requires Sound(m) && Inv(m, s)
    ensures Run(m, s, events).state.lastChoke >= s.lastChoke
  {
    if events != [] {
      var init := events[..|events| - 1];
      ClockGrows(m, s, init);
      RunFine(m, s, init);
      var o := Run(m, s, init);
      if o.Going? {
        RechokesAreDue(m, o.state, events[|events| - 1]);
      }
    }
  }

  /** Over any run, whatever happens between, two events that rechoke lie at least ten seconds apart. */
  lemma RechokesApart(m: Meta, s: State, first: Event, between: seq<Event>, last: Event)
    requires Sound(m) && Inv(m, s) && Step(m, s, first).Going?
    requires Run(m, Step(m, s, first).state, between).Going?
    ensures var t := Step(m, s, first).state;
            var u := Run(m, t, between).state;
      Rechokes(s, t) && Rechokes(u, Step(m, u, last).state) ==>
        first.Kept? && last.Kept? && last.at >= first.at + CHOKE_INTERVAL
  {
    var t := Step(m, s, first).state;
    StepFine(m, s, first);
    RunFine(m, t, between);
    RechokesAreDue(m, s, first);
    ClockGrows(m, t, between);
    RechokesAreDue(m, Run(m, t, between).state, last);
  }

  // --------------------------------------------------------------------- a rebalance

  /**
   A rebalance leaves a peer that can be told unchoked exactly if it has a regular slot or is the
   rotor's choice, and says so in one message if that is a change.
   */
  lemma UnchokedIff(m: Meta, s: State, order: seq<nat>, now: nat, id: nat)
    requires Inv(m, s) && IsOrder(order, s.peers.Keys) && id in s.peers
    ensures var t := Rebalance(s, order, now);
            var p, q := s.peers[id], t.peers[id];
      && (Open(q.tx) ==> (!q.state.amChoking <==> id in Choke.Regular(Rates(s.peers), REGULAR_UNCHOKE_SLOTS) || t.rotor.current == Some(id)))
      && q == p.(tx := q.tx, state := p.state.(amChoking := q.state.amChoking))
      && q.tx == if q.state.amChoking == p.state.amChoking then p.tx
                 else SentUpTo(p.tx, [if q.state.amChoking then Message.Choke else Message.Unchoke])
  {
    assert RateOf(id, s.peers[id]) in Rates(s.peers);
    assert [Message.Choke][..1] == [Message.Choke] && [Message.Unchoke][..1] == [Message.Unchoke];
  }
}
