/** What every run of the engine guarantees, and where a promise of its parts fails. */
module EngineTheorems {
  import opened Common
  import opened Messages
  import opened Requests
  import opened Pieces
  import opened Picker
  import opened Storage
  import opened EngineModel
  import opened JobInvariant
  import opened EngineInvariant
  import opened EngineMessages
  import opened EngineHousekeeping
  import Choke

  // ---------------------------------------------------------------- start and resume

  lemma {:induction false} EmptySum(m: Meta, n: nat)
    ensures SumOver(m, {}, n) == 0
  {
    if n > 0 {
      EmptySum(m, n - 1);
    }
  }

  lemma InitialInv(m: Meta, disk: seq<byte>, start: nat)
    requires |disk| == m.total
    ensures Inv(m, Initial(m, disk, start))
  {
    var s := Initial(m, disk, start);
    EmptySum(m, |m.hashes|);
    forall piece: nat ensures Workers(s.peers, piece) == {} && Havers(s.peers, piece) == {} {}
    assert Unchoked(s.peers) == {};
    forall c: Claim ensures Holds(c, m, s) {
      match c
      case PickerCountsWorkers =>
        forall piece: nat ensures ActiveCount(s.active, piece) == |Workers(s.peers, piece)| {
          assert Workers(s.peers, piece) == {};
        }
      case AvailabilityCountsPeers =>
        forall i | 0 <= i < |s.counts| ensures s.counts[i] == |Havers(s.peers, i)| {
          assert Havers(s.peers, i) == {};
        }
      case _ =>
    }
  }

  /** With no peers about, a piece that verifies may be claimed. */
  lemma ClaimInv(m: Meta, s: State, index: nat)
    requires Inv(m, s) && s.peers == map[] && index < |m.hashes| && index !in s.ours && GoodOnDisk(m, s.disk, index)
    ensures Inv(m, s.(ours := s.ours + {index}, downloaded := s.downloaded + Size(m, index)))
  {
    SumAdd(m, s.ours, index, |m.hashes|);
    var t := s.(ours := s.ours + {index}, downloaded := s.downloaded + Size(m, index));
    forall c: Claim ensures Holds(c, m, t) {
      assert Holds(c, m, s);
    }
  }

  /** Resume claims exactly the saved pieces that verify on disk. */
  lemma {:induction false} ResumeInv(m: Meta, s: State, saved: set<nat>, n: nat)
    requires Inv(m, s) && s.peers == map[] && s.ours == {} && n <= |m.hashes|
    ensures var t := ResumeTo(m, s, saved, n);
      && Inv(m, t) && t == s.(ours := t.ours, downloaded := t.downloaded)
      && (forall i :: i in t.ours <==> i < n && i in saved && GoodOnDisk(m, s.disk, i))
  {
    if n > 0 {
      ResumeInv(m, s, saved, n - 1);
      var t := ResumeTo(m, s, saved, n - 1);
      if n - 1 in saved && GoodOnDisk(m, t.disk, n - 1) {
        ClaimInv(m, t, n - 1);
      }
    }
  }

  // -------------------------------------------------------------------- every run

  lemma StepFine(m: Meta, s: State, e: Event)
    requires Sound(m) && Inv(m, s)
    ensures Fine(m, Step(m, s, e))
  {
    if Possible(m, s, e) {
      match e
      case Learned(addrs) => LearnInv(m, s, addrs);
      case Dialled => DialInv(m, s);
      case Answered(id, capacity, at) => ConnectedInv(m, s, id, capacity, at);
      case Refused(id) => ConnectFailedInv(m, s, id);
      case Received(id, message, at, fault) => MessageFine(m, s, id, message, at, fault);
      case Died(id) => RemoveInv(m, s, id);
      case Kept(order, again, at) => HousekeepingInv(m, s, order, again, at);
    }
  }

  /** Over every run, whatever the events and their order, the state stays sound. */
  lemma {:induction false} RunFine(m: Meta, s: State, events: seq<Event>)
    requires Sound(m) && Inv(m, s)
    ensures Fine(m, Run(m, s, events))
  {
    if events != [] {
      var init := events[..|events| - 1];
      RunFine(m, s, init);
      var o := Run(m, s, init);
      if o.Going? {
        StepFine(m, o.state, events[|events| - 1]);
      }
    }
  }

  /** Runs compose. */
  lemma {:induction false} RunConcat(m: Meta, s: State, first: seq<Event>, second: seq<Event>)
    requires Run(m, s, first).Going?
    ensures Run(m, s, first + second) == Run(m, Run(m, s, first).state, second)
  {
    if second == [] {
      assert first + second == first;
    } else {
      var n := |second| - 1;
      RunConcat(m, s, first, second[..n]);
      assert (first + second)[..|first + second| - 1] == first + second[..n];
    }
  }

  /** The state a download starts in: the saved pieces that verify are taken over. */
  function Resumed(m: Meta, disk: seq<byte>, start: nat, saved: set<nat>): State {
    ResumeTo(m, Initial(m, disk, start), saved, |m.hashes|)
  }

  ghost predicate Reachable(m: Meta, disk: seq<byte>, start: nat, saved: set<nat>, events: seq<Event>, s: State) {
    Run(m, Resumed(m, disk, start, saved), events) == Going(s)
  }

  lemma ReachableInv(m: Meta, disk: seq<byte>, start: nat, saved: set<nat>, events: seq<Event>, s: State)
    requires Sound(m) && |disk| == m.total && Reachable(m, disk, start, saved, events, s)
    ensures Inv(m, s)
  {
    InitialInv(m, disk, start);
    ResumeInv(m, Initial(m, disk, start), saved, |m.hashes|);
    RunFine(m, Resumed(m, disk, start, saved), events);
  }

  /** In every reachable state each job's blocks are partitioned and a peer without a job is quiet. */
  lemma BlocksPartitioned(m: Meta, disk: seq<byte>, start: nat, saved: set<nat>, events: seq<Event>, s: State, id: nat)
    requires Sound(m) && |disk| == m.total && Reachable(m, disk, start, saved, events, s) && id in s.peers
    ensures var p := s.peers[id];
      && (p.job.None? ==> p.inFlight == [])
      && (p.job.Some? ==>
            var job := p.job.value;
            && job.index < |m.hashes| && |job.data| == Size(m, job.index)
            && multiset(job.pending) + multiset(Ranges(p.inFlight)) + multiset(Filled(job.accepted))
               == multiset(PieceBlocks(Size(m, job.index)))
            && job.received == Bytes(Filled(job.accepted)) < |job.data|
            && (forall x :: x in job.accepted ==> Landed(job.data, x))
            && (job.pending != [] || p.inFlight != [])
            && (forall b :: b in job.pending ==> BlockRequest(job.index, b.begin, b.length) !in Sent(p.inFlight)))
  {
    ReachableInv(m, disk, start, saved, events, s);
    CoreFromInv(m, s);
    PeerFromCore(m, s, id);
    var p := s.peers[id];
    if p.job.Some? {
      DoneIff(p.job.value, p.inFlight);
      forall b | b in p.job.value.pending ensures BlockRequest(p.job.value.index, b.begin, b.length) !in Sent(p.inFlight) {
        PendingNotInFlight(p.job.value, p.inFlight, b);
      }
    }
  }

  /**
   In every reachable state the picker's counts are the numbers of peers at work, within the
   endgame cap, never for a piece we have; with all pieces there is no work left.
   */
  lemma PickerCounts(m: Meta, disk: seq<byte>, start: nat, saved: set<nat>, events: seq<Event>, s: State)
    requires Sound(m) && |disk| == m.total && Reachable(m, disk, start, saved, events, s)
    ensures forall piece: nat :: ActiveCount(s.active, piece) == |Workers(s.peers, piece)| <= ENDGAME_DUP
    ensures forall piece :: piece in s.active ==> s.active[piece] > 0 && piece !in s.ours
    ensures Complete(m, s) ==> s.active == map[] && forall id :: id in s.peers ==> s.peers[id].job.None?
  {
    ReachableInv(m, disk, start, saved, events, s);
    CoreFromInv(m, s);
    assert Holds(PickerCountsWorkers, m, s);
    assert Holds(OwnedVerifiesOnDisk, m, s);
    forall piece: nat ensures ActiveCount(s.active, piece) == |Workers(s.peers, piece)| <= ENDGAME_DUP {}
    forall piece | piece in s.active ensures s.active[piece] > 0 && piece !in s.ours && piece < |m.hashes| {
      assert ActiveCount(s.active, piece) == |Workers(s.peers, piece)|;
      assert Workers(s.peers, piece) != {};
      var id :| id in Workers(s.peers, piece);
      PeerFromCore(m, s, id);
    }
    if Complete(m, s) {
      CompleteIff(s.ours, |m.hashes|);
      forall id | id in s.peers ensures s.peers[id].job.None? {
        PeerFromCore(m, s, id);
      }
      assert s.active.Keys == {};
    }
  }

  predicate Counted(counts: seq<nat>, pieces: set<nat>) {
    forall i :: i in pieces ==> i < |counts| && counts[i] > 0
  }

  /**
   In every reachable state the availability of a piece is the number of connected peers that
   have it, so taking a peer's set out of the counts never meets a zero.
   */
  lemma AvailabilityExact(m: Meta, disk: seq<byte>, start: nat, saved: set<nat>, events: seq<Event>, s: State)
    requires Sound(m) && |disk| == m.total && Reachable(m, disk, start, saved, events, s)
    ensures |s.counts| == |m.hashes| && forall i :: 0 <= i < |m.hashes| ==> s.counts[i] == |Havers(s.peers, i)|
    ensures forall id :: id in s.peers ==> Counted(s.counts, s.peers[id].theirs)
  {
    ReachableInv(m, disk, start, saved, events, s);
    CoreFromInv(m, s);
    assert Holds(AvailabilityCountsPeers, m, s);
    forall id | id in s.peers ensures Counted(s.counts, s.peers[id].theirs) {
      PeerFromCore(m, s, id);
      forall i | i in s.peers[id].theirs ensures i < |s.counts| && s.counts[i] > 0 {
        assert id in Havers(s.peers, i);
      }
    }
  }

  /** In every reachable state every piece we claim reads back from disk as bytes that verify. */
  lemma OwnedOnDisk(m: Meta, disk: seq<byte>, start: nat, saved: set<nat>, events: seq<Event>, s: State, index: nat)
    requires Sound(m) && |disk| == m.total && Reachable(m, disk, start, saved, events, s) && index in s.ours
    ensures index < |m.hashes| && |s.disk| == m.total && GoodOnDisk(m, s.disk, index)
  {
    ReachableInv(m, disk, start, saved, events, s);
    assert Holds(OwnedVerifiesOnDisk, m, s);
  }

  /** Connector threads and peers together never exceed the limit, and no address is dialled twice. */
  lemma DialledOnce(m: Meta, disk: seq<byte>, start: nat, saved: set<nat>, events: seq<Event>, s: State)
    requires Sound(m) && |disk| == m.total && Reachable(m, disk, start, saved, events, s)
    ensures s.connecting == |s.dialing| && s.connecting + |s.peers| <= m.maxPeers
    ensures s.dialing.Keys !! s.peers.Keys
    ensures NoDup(s.dialed)
  {
    ReachableInv(m, disk, start, saved, events, s);
    assert Holds(ConnectionsAreCounted, m, s);
    forall i, j | 0 <= i < j < |s.dialed| ensures s.dialed[i] != s.dialed[j] {
      assert (s.dialed + s.queue)[i] != (s.dialed + s.queue)[j];
    }
  }

  /** At most the regular slots plus one of the reachable peers are unchoked, and each was told so. */
  lemma FewUnchoked(m: Meta, disk: seq<byte>, start: nat, saved: set<nat>, events: seq<Event>, s: State)
    requires Sound(m) && |disk| == m.total && Reachable(m, disk, start, saved, events, s)
    ensures |Unchoked(s.peers)| <= REGULAR_UNCHOKE_SLOTS + 1
    ensures forall id :: id in s.peers ==> s.peers[id].state.amChoking == SaidChoke(s.peers[id].tx.sent)
    ensures forall id :: id in s.peers ==> s.peers[id].state.amInterested == SaidInterested(s.peers[id].tx.sent)
  {
    ReachableInv(m, disk, start, saved, events, s);
    CoreFromInv(m, s);
    assert Holds(SlotsAreBounded, m, s);
    forall id | id in s.peers ensures Mirrors(s.peers[id]) {
      PeerFromCore(m, s, id);
    }
  }

  // ----------------------------------------------------------------------- progress

  /** The parts of a peer that a rebalance leaves alone. */
  predicate SameWork(p: Peer, q: Peer) {
    && p.job == q.job && p.inFlight == q.inFlight
    && p.theirs == q.theirs && p.theirsKnown == q.theirsKnown && p.lastUseful == q.lastUseful
    && (CanRequest(p.state) <==> CanRequest(q.state))
  }

  lemma RebalanceSameWork(s: State, again: seq<nat>, now: nat)
    requires forall id :: id in again ==> id in s.peers
    ensures var t := Rebalance(s, again, now);
      && t.peers.Keys == s.peers.Keys && t.ours == s.ours && t.active == s.active
      && forall id :: id in t.peers ==> SameWork(s.peers[id], t.peers[id])
  {}

  lemma TailOfHousekeeping(m: Meta, s: State, order: seq<nat>, again: seq<nat>, now: nat)
    requires PassesOk(m, s, order, again, now)
    ensures var r := VisitAll(m, s, order, now);
            var u := RemoveAll(r.state, r.dead);
            var t := Housekeeping(m, s, order, again, now);
      && t.peers.Keys == u.peers.Keys && t.ours == u.ours && t.active == u.active
      && forall id :: id in t.peers ==> SameWork(u.peers[id], t.peers[id])
  {
    var r := VisitAll(m, s, order, now);
    var u := RemoveAll(r.state, r.dead);
    if Monus(now, u.lastChoke) >= CHOKE_INTERVAL {
      RebalanceSameWork(u.(lastChoke := now), again, now);
    }
  }

  /** What a peer that remains after housekeeping owes to its visit. */
  lemma AfterHousekeeping(m: Meta, s: State, order: seq<nat>, again: seq<nat>, now: nat, id: nat)
    requires Sound(m) && Inv(m, s) && PassesOk(m, s, order, again, now)
    requires id in Housekeeping(m, s, order, again, now).peers
    ensures var r := VisitAll(m, s, order, now);
            var t := Housekeeping(m, s, order, again, now);
      && id in r.state.peers && Driven(r.state.peers[id]) && Settled(m, r.state, r.state.peers[id])
      && SameWork(r.state.peers[id], t.peers[id])
      && t.ours == r.state.ours
  {
    TailOfHousekeeping(m, s, order, again, now);
    VisitAllInv(m, s, order, now);
    var r := VisitAll(m, s, order, now);
    RemoveAllKeeps(r.state, r.dead);
    assert id in order && Served(m, r, id);
  }

  /**
   After housekeeping no unfinished job stalls unrequested: a remaining peer that may be asked
   has a full pipeline or nothing queued, and something in flight that was really sent.
   */
  lemma NoStall(m: Meta, s: State, order: seq<nat>, again: seq<nat>, now: nat, t: State, id: nat)
    requires Sound(m) && Inv(m, s) && PassesOk(m, s, order, again, now) && t == Housekeeping(m, s, order, again, now)
    requires id in t.peers && t.peers[id].job.Some? && CanRequest(t.peers[id].state)
    ensures var p := t.peers[id];
      && (|p.inFlight| == PIPELINE_DEPTH || p.job.value.pending == [])
      && p.inFlight != []
      && (Open(p.tx) ==> forall e :: e in p.inFlight ==>
            Message.Request(e.request.piece, e.request.begin, e.request.length) in p.tx.sent)
  {
    AfterHousekeeping(m, s, order, again, now, id);
    HousekeepingInv(m, s, order, again, now);
    CoreFromInv(m, t);
    PeerFromCore(m, t, id);
    DoneIff(t.peers[id].job.value, t.peers[id].inFlight);
  }

  /** After housekeeping a piece is fetched by those who fetched it after the visits, without the dropped. */
  lemma WorkersAfter(m: Meta, s: State, order: seq<nat>, again: seq<nat>, now: nat, piece: nat)
    requires PassesOk(m, s, order, again, now)
    ensures var r := VisitAll(m, s, order, now);
      Workers(Housekeeping(m, s, order, again, now).peers, piece) == Workers(r.state.peers, piece) - (set id | id in r.dead)
  {
    TailOfHousekeeping(m, s, order, again, now);
    var r := VisitAll(m, s, order, now);
    RemoveAllKeeps(r.state, r.dead);
    var t := Housekeeping(m, s, order, again, now);
    forall id ensures id in Workers(t.peers, piece) <==> id in Workers(r.state.peers, piece) && id !in r.dead {
      assert id in t.peers ==> SameWork(RemoveAll(r.state, r.dead).peers[id], t.peers[id]);
    }
  }

  /**
   After housekeeping a peer is idle only if its pieces are unknown or every missing piece it has
   was being fetched from as many peers as the cap allows, some of which may just have been dropped.
   */
  lemma NoIdleHelper(m: Meta, s: State, order: seq<nat>, again: seq<nat>, now: nat, t: State, id: nat, piece: nat)
    requires Sound(m) && Inv(m, s) && PassesOk(m, s, order, again, now) && t == Housekeeping(m, s, order, again, now)
    requires id in t.peers && t.peers[id].job.None? && t.peers[id].theirsKnown
    requires piece < |m.hashes| && piece in t.peers[id].theirs && piece !in t.ours
    ensures var r := VisitAll(m, s, order, now);
      && |Workers(r.state.peers, piece)| == ENDGAME_DUP
      && Workers(t.peers, piece) == Workers(r.state.peers, piece) - (set id | id in r.dead)
  {
    AfterHousekeeping(m, s, order, again, now, id);
    VisitAllInv(m, s, order, now);
    WorkersAfter(m, s, order, again, now, piece);
    var r := VisitAll(m, s, order, now);
    assert Candidate(t.ours, r.state.peers[id].theirs, piece);
    assert Holds(PickerCountsWorkers, m, r.state);
    assert ActiveCount(r.state.active, piece) == |Workers(r.state.peers, piece)|;
  }

  /** No request of the peer is overdue, and a peer that works has been useful lately. */
  predicate Timely(p: Peer, complete: bool, now: nat) {
    && (forall e :: e in p.inFlight ==> Monus(now, e.at) < BLOCK_TIMEOUT)
    && (p.job.Some? && !complete ==> Monus(now, p.lastUseful) <= SNUB_TIMEOUT)
  }

  predicate Prompt(inFlight: seq<Issued>, now: nat) {
    forall e :: e in inFlight ==> Monus(now, e.at) < BLOCK_TIMEOUT
  }

  lemma {:induction false} FillPrompt(p: Peer, now: nat)
    requires Prompt(p.inFlight, now)
    ensures Prompt(Fill(p, now).peer.inFlight, now) && Fill(p, now).peer.lastUseful == p.lastUseful
    decreases if p.job.Some? then |p.job.value.pending| else 0
  {
    if p.job.Some? && |p.inFlight| < PIPELINE_DEPTH && p.job.value.pending != [] {
      var job := p.job.value;
      var b := job.pending[0];
      var popped := p.(job := Some(job.(pending := job.pending[1..])));
      var request := BlockRequest(job.index, b.begin, b.length);
      if request in Sent(p.inFlight) {
        FillPrompt(popped, now);
      } else {
        FillPrompt(popped.(inFlight := p.inFlight + [Issued(request, now)],
                           tx := Send(p.tx, Message.Request(job.index, b.begin, b.length))), now);
      }
    }
  }

  lemma DriveTimely(p: Peer, complete: bool, now: nat)
    requires Prompt(p.inFlight, now) && (p.job.None? ==> p.inFlight == [])
    ensures var v := Drive(p, complete, now); !v.dead ==> Timely(v.peer, complete, now)
  {
    var q :=
      if p.state.amInterested then p
      else p.(tx := Send(p.tx, Message.Interested), state := p.state.(amInterested := true));
    FillPrompt(q, now);
  }

  lemma VisitTimely(m: Meta, r: Round, id: nat, now: nat)
    requires Inv(m, r.state) && id in r.state.peers
    ensures var after := VisitPeer(m, r, id, now);
      id in after.dead || Timely(after.state.peers[id], Complete(m, r.state), now)
  {
    CoreFromInv(m, r.state);
    PeerFromCore(m, r.state, id);
    var p := Expire(r.state.peers[id], now);
    ExpiryMembers(r.state.peers[id].inFlight, now, BLOCK_TIMEOUT);
    var s := Assign(m, SetPeer(r.state, id, p), id);
    assert s.peers[id].inFlight == p.inFlight;
    DriveTimely(s.peers[id], Complete(m, s), now);
  }

  lemma {:induction false} VisitAllTimely(m: Meta, s: State, order: seq<nat>, now: nat)
    requires Sound(m) && Inv(m, s) && NoDup(order) && forall id :: id in order ==> id in s.peers
    ensures var r := VisitAll(m, s, order, now);
      forall id :: id in order && id !in r.dead ==> Timely(r.state.peers[id], Complete(m, s), now)
  {
    if order != [] {
      var init, last := order[..|order| - 1], order[|order| - 1];
      assert order == init + [last];
      NoDupInit(order);
      VisitAllTimely(m, s, init, now);
      VisitAllInv(m, s, init, now);
      var r := VisitAll(m, s, init, now);
      VisitTimely(m, r, last, now);
    }
  }

  /**
   After housekeeping nothing is overdue: every request in flight is younger than the block
   timeout, and until the download is complete every remaining peer with a job delivered
   something within the snub timeout.
   */
  lemma NothingOverdue(m: Meta, s: State, order: seq<nat>, again: seq<nat>, now: nat, t: State, id: nat)
    requires Sound(m) && Inv(m, s) && PassesOk(m, s, order, again, now) && t == Housekeeping(m, s, order, again, now)
    requires id in t.peers
    ensures Timely(t.peers[id], Complete(m, t), now)
  {
    AfterHousekeeping(m, s, order, again, now, id);
    VisitAllTimely(m, s, order, now);
    VisitAllInv(m, s, order, now);
    TailOfHousekeeping(m, s, order, again, now);
    var r := VisitAll(m, s, order, now);
    RemoveAllKeeps(r.state, r.dead);
  }

  // ------------------------------------------------------------------ who is unchoked

  /**
   After a rebalance every unchoked peer that can still be reached, but the rotor's choice,
   has delivered more than every reachable interested peer left choked, or as much with a lower id.
   */
  lemma UnchokedDominate(m: Meta, s: State, order: seq<nat>, now: nat, t: State, a: nat, b: nat)
    requires Inv(m, s) && IsOrder(order, s.peers.Keys) && t == Rebalance(s, order, now)
    requires a in t.peers && Open(t.peers[a].tx) && !t.peers[a].state.amChoking && t.rotor.current != Some(a)
    requires b in t.peers && Open(t.peers[b].tx) && t.peers[b].state.amChoking && t.peers[b].state.peerInterested
    ensures t.peers[a].downloadedFrom > t.peers[b].downloadedFrom
         || (t.peers[a].downloadedFrom == t.peers[b].downloadedFrom && a < b)
  {
    var rates := RatesInOrder(s.peers, order);
    var x, y := RateOf(a, s.peers[a]), RateOf(b, s.peers[b]);
    assert x in Rates(s.peers) && y in Rates(s.peers);
    assert x in Choke.Elements(rates) && y in Choke.Elements(rates);
    Choke.RegularDominates(rates, REGULAR_UNCHOKE_SLOTS, x, y);
  }

  // ------------------------------------------------------------------- byte counter

  lemma {:induction false} SumSplit(m: Meta, have: set<nat>, n: nat)
    ensures SumOver(m, have, n) + SumOver(m, Below(n) - have, n) == SizeOfFirst(m.pieceLength, m.total, n)
  {
    if n > 0 {
      SumSplit(m, have, n - 1);
      SumAgree(m, Below(n) - have, Below(n - 1) - have, n - 1);
    }
  }

  lemma {:induction false} SumAgree(m: Meta, a: set<nat>, b: set<nat>, n: nat)
    requires forall i :: 0 <= i < n ==> (i in a <==> i in b)
    ensures SumOver(m, a, n) == SumOver(m, b, n)
  {
    if n > 0 {
      SumAgree(m, a, b, n - 1);
    }
  }

  lemma {:induction false} SumZero(m: Meta, have: set<nat>, n: nat, i: nat)
    requires Sound(m) && n <= |m.hashes| && i < n && i in have
    ensures SumOver(m, have, n) > 0
  {
    PieceInside(m.pieceLength, m.total, |m.hashes|, n - 1);
    if i < n - 1 {
      SumZero(m, have, n - 1, i);
    }
  }

  /** What the engine announces as left to download (bt/src/engine.rs:336). */
  function Left(m: Meta, s: State): nat {
    Monus(m.total, s.downloaded)
  }

  /** The announced `left` is the size of the missing pieces, and zero exactly when all are there. */
  lemma LeftIsMissing(m: Meta, s: State)
    requires Sound(m) && Inv(m, s)
    ensures Left(m, s) == SumOver(m, Below(|m.hashes|) - s.ours, |m.hashes|)
    ensures Left(m, s) == 0 <==> Complete(m, s)
  {
    assert Holds(BytesAreOwned, m, s);
    assert Holds(OwnedVerifiesOnDisk, m, s);
    var n := |m.hashes|;
    PiecesSum(m.pieceLength, m.total, n);
    SumSplit(m, s.ours, n);
    CompleteIff(s.ours, n);
    var missing := Below(n) - s.ours;
    if missing == {} {
      EmptySum(m, n);
    } else {
      var i :| i in missing;
      SumZero(m, missing, n, i);
    }
  }

  // --------------------------------------------------------------------- final check

  /** After a run with only the engine writing the files, the final check finds nothing bad. */
  lemma {:induction false} CheckFindsNothing(m: Meta, s: State, n: nat)
    requires Sound(m) && Inv(m, s) && Complete(m, s) && n <= |m.hashes|
    ensures CheckTo(m, s, n) == Check(s, 0)
  {
    if n > 0 {
      CheckFindsNothing(m, s, n - 1);
      assert Holds(OwnedVerifiesOnDisk, m, s);
      CompleteIff(s.ours, |m.hashes|);
      assert n - 1 in s.ours;
    }
  }

  /** The pieces below `n` that verify on disk. */
  function GoodBelow(m: Meta, disk: seq<byte>, n: nat): set<nat>
    requires n <= |m.hashes|
  {
    set i | i in Below(n) && GoodOnDisk(m, disk, i)
  }

  lemma {:induction false} SumRemove(m: Meta, have: set<nat>, index: nat, n: nat)
    requires index in have && index < n
    ensures SumOver(m, have, n) == SumOver(m, have - {index}, n) + Size(m, index)
  {
    SumAdd(m, have - {index}, index, n);
    assert have - {index} + {index} == have;
  }

  lemma GoodStep(m: Meta, disk: seq<byte>, n: nat)
    requires n < |m.hashes|
    ensures GoodBelow(m, disk, n + 1) == if GoodOnDisk(m, disk, n) then GoodBelow(m, disk, n) + {n} else GoodBelow(m, disk, n)
    ensures Below(n + 1) == Below(n) + {n}
    ensures |GoodBelow(m, disk, n + 1)| == |GoodBelow(m, disk, n)| + One(GoodOnDisk(m, disk, n))
  {
    assert n !in GoodBelow(m, disk, n);
  }

  /** What the check has done to a complete state after looking at the first `n` pieces. */
  ghost predicate Checked(m: Meta, s: State, c: Check, n: nat)
    requires n <= |m.hashes|
  {
    && c.state == s.(ours := c.state.ours, downloaded := c.state.downloaded)
    && c.state.ours == Below(|m.hashes|) - (Below(n) - GoodBelow(m, s.disk, n))
    && BytesOk(m, c.state.ours, c.state.downloaded)
    && c.bad + |GoodBelow(m, s.disk, n)| == n
  }

  lemma CheckStep(m: Meta, s: State, n: nat)
    requires n < |m.hashes| && Checked(m, s, CheckTo(m, s, n), n)
    ensures Checked(m, s, CheckTo(m, s, n + 1), n + 1)
  {
    GoodStep(m, s.disk, n);
    if !GoodOnDisk(m, s.disk, n) {
      SumRemove(m, CheckTo(m, s, n).state.ours, n, |m.hashes|);
    }
  }

  lemma {:induction false} CheckExact(m: Meta, s: State, n: nat)
    requires s.ours == Below(|m.hashes|) && BytesOk(m, s.ours, s.downloaded) && n <= |m.hashes|
    ensures Checked(m, s, CheckTo(m, s, n), n)
  {
    if n == 0 {
      assert GoodBelow(m, s.disk, 0) == {} && Below(0) == {};
    } else {
      CheckExact(m, s, n - 1);
      CheckStep(m, s, n - 1);
    }
  }

  /**
   Whatever bytes the files hold after a complete run, and wherever they end, the final check keeps
   exactly the pieces that read and verify, counts the others, and leaves the byte counter right; with
   files of full length it leaves the invariant right too.
   */
  lemma FinalCheckRepairs(m: Meta, s: State, disk: seq<byte>)
    requires Sound(m) && Inv(m, s) && Complete(m, s)
    ensures var c := FinalCheck(m, s.(disk := disk));
      && c.state == s.(disk := disk, ours := c.state.ours, downloaded := c.state.downloaded)
      && c.state.ours == GoodBelow(m, disk, |m.hashes|)
      && c.bad == |m.hashes| - |c.state.ours|
      && BytesOk(m, c.state.ours, c.state.downloaded)
      && (|disk| == m.total ==> Inv(m, c.state))
  {
    var t := s.(disk := disk);
    var n := |m.hashes|;
    assert Holds(OwnedVerifiesOnDisk, m, s);
    assert Holds(BytesAreOwned, m, s);
    CompleteIff(s.ours, n);
    CheckExact(m, t, n);
    var c := FinalCheck(m, t);
    assert c.state.ours == GoodBelow(m, disk, n);
    if |disk| == m.total {
      forall claim: Claim ensures Holds(claim, m, c.state) {
        assert Holds(claim, m, s);
      }
    }
  }
}
