/** Every message from a peer keeps the engine's invariant. */
module EngineMessages {
  import opened Common
  import opened Messages
  import opened Pieces
  import opened Picker
  import opened Storage
  import opened EngineModel
  import opened JobInvariant
  import opened EngineInvariant

  // ------------------------------------------------------------------- channels

  /** Messages that tell the peer nothing about choking or interest. */
  predicate Neutral(message: Message) {
    !message.Choke? && !message.Unchoke? && !message.Interested? && !message.NotInterested?
  }

  lemma SaidAfter(sent: seq<Message>, message: Message)
    ensures SaidChoke(sent + [message]) == if message.Choke? then true else if message.Unchoke? then false else SaidChoke(sent)
    ensures SaidInterested(sent + [message])
         == if message.Interested? then true else if message.NotInterested? then false else SaidInterested(sent)
  {
    assert (sent + [message])[..|sent|] == sent;
  }

  /** The channel got more messages, none of them about choking or interest. */
  predicate Extends(before: Channel, after: Channel) {
    && before.capacity == after.capacity && before.sent <= after.sent
    && SaidChoke(before.sent) == SaidChoke(after.sent) && SaidInterested(before.sent) == SaidInterested(after.sent)
  }

  lemma SendExtends(tx: Channel, message: Message)
    requires Neutral(message)
    ensures Extends(tx, Send(tx, message))
  {
    SaidAfter(tx.sent, message);
  }

  lemma {:induction false} SendAllExtends(tx: Channel, messages: seq<Message>)
    requires forall x :: x in messages ==> Neutral(x)
    ensures Extends(tx, SendAll(tx, messages))
  {
    if messages != [] {
      SendAllExtends(tx, messages[..|messages| - 1]);
      SendExtends(SendAll(tx, messages[..|messages| - 1]), messages[|messages| - 1]);
    }
  }

  // ------------------------------------------------------------------- messages

  lemma HeardInv(m: Meta, s: State, id: nat, message: Message)
    requires Inv(m, s) && id in s.peers
    ensures Inv(m, s.(peers := s.peers[id := s.peers[id].(state := Heard(s.peers[id].state, message))]))
  {
    CoreFromInv(m, s);
    PeerFromCore(m, s, id);
    KeepInv(m, s, id, s.peers[id].(state := Heard(s.peers[id].state, message)));
  }

  lemma ChokeInv(m: Meta, s: State, id: nat)
    requires Inv(m, s) && id in s.peers
    ensures Inv(m, s.(peers := s.peers[id := Requeue(s.peers[id], s.peers[id].inFlight, [])]))
  {
    CoreFromInv(m, s);
    PeerFromCore(m, s, id);
    ChokedOk(m, s.peers[id]);
    KeepInv(m, s, id, Requeue(s.peers[id], s.peers[id].inFlight, []));
  }

  /** The upload counter and the choke clock are not part of what must agree. */
  lemma CountersInv(m: Meta, s: State, uploaded: nat, lastChoke: int)
    requires Inv(m, s)
    ensures Inv(m, s.(uploaded := uploaded, lastChoke := lastChoke))
  {
    forall c: Claim ensures Holds(c, m, s.(uploaded := uploaded, lastChoke := lastChoke)) {
      assert Holds(c, m, s);
    }
  }

  lemma RequestInv(m: Meta, s: State, id: nat, index: nat, begin: nat, length: nat)
    requires Inv(m, s) && id in s.peers
    ensures Inv(m, OnRequest(m, s, id, index, begin, length))
  {
    var p := s.peers[id];
    var t := OnRequest(m, s, id, index, begin, length);
    var offset := index * m.pieceLength + begin;
    if offset + length <= |s.disk| && t != s {
      var reply := Message.Piece(index, begin, s.disk[offset..offset + length]);
      CoreFromInv(m, s);
      PeerFromCore(m, s, id);
      SendExtends(p.tx, reply);
      KeepInv(m, s, id, p.(tx := Send(p.tx, reply)));
      CountersInv(m, s.(peers := s.peers[id := p.(tx := Send(p.tx, reply))]), t.uploaded, s.lastChoke);
    }
  }

  lemma TheirsActive(active: Active, peers: map<nat, Peer>, id: nat, q: Peer)
    requires ActiveOk(active, peers) && id in peers && q.job == peers[id].job
    ensures ActiveOk(active, peers[id := q])
  {
    forall piece: nat ensures ActiveCount(active, piece) == |Workers(peers[id := q], piece)| {
      SetWorkers(peers, id, q, piece);
      assert Workers(peers[id := q], piece) == Workers(peers, piece);
    }
  }

  lemma TheirsCounts(m: Meta, counts: seq<nat>, peers: map<nat, Peer>, id: nat, q: Peer, after: seq<nat>)
    requires CountsOk(m, counts, peers) && id in peers && |after| == |counts|
    requires forall i :: 0 <= i < |counts| ==> after[i] + One(i in peers[id].theirs) == counts[i] + One(i in q.theirs)
    ensures CountsOk(m, after, peers[id := q])
  {
    forall i | 0 <= i < |after| ensures after[i] == |Havers(peers[id := q], i)| {
      SetHavers(peers, id, q, i);
      assert i in peers[id].theirs <==> id in Havers(peers, i);
    }
  }

  /** Only the peer's piece set changes, and the counts with it. */
  lemma TheirsInv(m: Meta, s: State, id: nat, theirs: set<nat>, counts: seq<nat>)
    requires Inv(m, s) && id in s.peers && theirs <= Below(|m.hashes|)
    requires |counts| == |s.counts|
    requires forall i :: 0 <= i < |counts| ==>
      counts[i] + One(i in s.peers[id].theirs) == s.counts[i] + One(i in theirs)
    ensures Inv(m, s.(counts := counts, peers := s.peers[id := s.peers[id].(theirs := theirs, theirsKnown := true)]))
  {
    var q := s.peers[id].(theirs := theirs, theirsKnown := true);
    var t := s.(counts := counts, peers := s.peers[id := q]);
    forall c: Claim ensures Holds(c, m, t) {
      assert Holds(c, m, s);
      match c
      case PickerCountsWorkers => TheirsActive(s.active, s.peers, id, q);
      case AvailabilityCountsPeers => TheirsCounts(m, s.counts, s.peers, id, q, counts);
      case SlotsAreBounded => KeepSlots(s.peers, id, q);
      case _ =>
    }
  }

  /** The old set is in the counts, so taking it out saturates nowhere. */
  lemma RemoveExact(m: Meta, s: State, id: nat, i: nat)
    requires Inv(m, s) && id in s.peers && i < |s.counts|
    ensures RemoveBitfield(s.counts, s.peers[id].theirs)[i] + One(i in s.peers[id].theirs) == s.counts[i]
  {
    assert Holds(AvailabilityCountsPeers, m, s);
    if i in s.peers[id].theirs {
      assert id in Havers(s.peers, i);
    }
  }

  lemma BitfieldInv(m: Meta, s: State, id: nat, bits: seq<bv8>)
    requires Inv(m, s) && id in s.peers
    ensures Inv(m, OnBitfield(m, s, id, bits))
  {
    var p := s.peers[id];
    var parsed := ParseBits(bits, |m.hashes|);
    CoreFromInv(m, s);
    PeerFromCore(m, s, id);
    if parsed.Ok? {
      forall i | 0 <= i < |s.counts|
        ensures RemoveBitfield(s.counts, p.theirs)[i] + One(i in p.theirs) == s.counts[i]
      {
        RemoveExact(m, s, id, i);
      }
      var counts := if p.theirsKnown then RemoveBitfield(s.counts, p.theirs) else s.counts;
      TheirsInv(m, s, id, parsed.value, AddBitfield(counts, parsed.value));
    } else {
      RemoveInv(m, s, id);
    }
  }

  lemma HaveInv(m: Meta, s: State, id: nat, index: nat)
    requires Inv(m, s) && id in s.peers
    ensures Inv(m, OnHave(m, s, id, index))
  {
    var p := s.peers[id];
    CoreFromInv(m, s);
    PeerFromCore(m, s, id);
    assert Holds(AvailabilityCountsPeers, m, s);
    if index !in p.theirs {
      var theirs := if index < |m.hashes| then p.theirs + {index} else p.theirs;
      TheirsInv(m, s, id, theirs, AddHave(s.counts, index));
    }
  }

  // ------------------------------------------------------------------ a new block

  lemma ReceiveCore(m: Meta, s: State, id: nat, begin: nat, data: seq<byte>, now: nat)
    requires Core(m, s) && id in s.peers && s.peers[id].job.Some?
    ensures var q := Receive(s.peers[id], begin, data, now);
      PeerOk(m, q) && Still(s.peers[id], q) && Core(m, s.(peers := s.peers[id := q]))
  {
    var p := s.peers[id];
    var q := Receive(p, begin, data, now);
    PeerFromCore(m, s, id);
    ReceiveParts(p, begin, data, now);
    assert forall e :: e in q.inFlight ==> e in p.inFlight;
    KeepCore(m, s, id, q);
  }

  /** A finished job has an empty pipeline, so taking it off leaves an idle peer. */
  lemma TakenOk(m: Meta, p: Peer)
    requires PeerOk(m, p) && p.job.Some? && Done(p.job.value)
    ensures p.inFlight == [] && PeerOk(m, p.(job := None))
  {
    DoneIff(p.job.value, p.inFlight);
  }

  // --------------------------------------------------------- the hash does not match

  /** Second failure: as if the peer had been dropped with its job in hand. */
  lemma DropIsRemove(s: State, id: nat)
    requires id in s.peers && s.peers[id].job.Some?
    ensures var index := s.peers[id].job.value.index;
      RemovePeer(s.(active := Abandoned(s.active, index), peers := s.peers[id := s.peers[id].(job := None)]), id)
      == RemovePeer(s, id)
  {
    assert s.peers[id := s.peers[id].(job := None)] - {id} == s.peers - {id};
  }

  lemma RestartInv(m: Meta, s: State, id: nat)
    requires Core(m, s) && id in s.peers && s.peers[id].job.Some? && Done(s.peers[id].job.value)
    requires s.peers[id].job.value.failures + 1 < MAX_VERIFY_FAILURES
    requires OthersBusy(s, id)
    ensures Inv(m, s.(peers := s.peers[id := s.peers[id].(job := Some(Restart(s.peers[id].job.value)))]))
  {
    var p := s.peers[id];
    var q := p.(job := Some(Restart(p.job.value)));
    PeerFromCore(m, s, id);
    TakenOk(m, p);
    RestartParts(p.job.value, p.inFlight);
    KeepCore(m, s, id, q);
    InvFromCore(m, s.(peers := s.peers[id := q]));
  }

  // ------------------------------------------------------------- the hash matches

  /** What the news of a finished piece does to a peer `p` that may have been fetching it. */
  ghost predicate Relieved(m: Meta, ours: set<nat>, index: nat, p: Peer, q: Peer) {
    && PeerOk(m, q) && Unfinished(q)
    && q.theirs == p.theirs && q.state == p.state && (Open(q.tx) ==> Open(p.tx))
    && !WorksOn(q, index)
    && (q.job.Some? ==> q.job.value.index !in ours && WorksOn(p, q.job.value.index))
    && (p.job.Some? && p.job.value.index != index ==> WorksOn(q, p.job.value.index))
  }

  lemma OtherRelieved(m: Meta, ours: set<nat>, index: nat, p: Peer)
    requires PeerOk(m, p) && Unfinished(p) && (p.job.Some? ==> p.job.value.index !in ours)
    ensures Relieved(m, ours, index, p, Announce(p, false, index))
  {
    SendExtends(p.tx, Message.Have(index));
    var told := p.(tx := Send(p.tx, Message.Have(index)));
    SendAllExtends(told.tx, Cancels(p.inFlight));
  }

  lemma FinisherRelieved(m: Meta, ours: set<nat>, index: nat, p: Peer)
    requires PeerOk(m, p) && WorksOn(p, index) && Done(p.job.value)
    ensures Relieved(m, ours, index, p, Announce(p.(job := None), true, index))
  {
    TakenOk(m, p);
    SendExtends(p.tx, Message.Have(index));
  }

  /** The state once the finished piece is on disk; `s` still has the job on the finisher. */
  function Stored(m: Meta, s: State, id: nat): State
    requires id in s.peers && s.peers[id].job.Some?
    requires s.peers[id].job.value.index * m.pieceLength + |s.peers[id].job.value.data| <= |s.disk|
  {
    var job := s.peers[id].job.value;
    var taken := s.peers[id := s.peers[id].(job := None)];
    s.(disk := Splice(s.disk, job.index * m.pieceLength, job.data),
       ours := s.ours + {job.index},
       downloaded := s.downloaded + |job.data|,
       active := Completed(s.active, job.index),
       peers := map other | other in taken :: Announce(taken[other], other == id, job.index))
  }

  /** The finished piece's job, and the place it goes to. */
  ghost predicate Finishing(m: Meta, s: State, id: nat) {
    id in s.peers && s.peers[id].job.Some? && s.peers[id].job.value.index < |m.hashes| && Done(s.peers[id].job.value)
  }

  ghost predicate OthersBusy(s: State, id: nat) {
    forall other :: other in s.peers && other != id ==> Unfinished(s.peers[other])
  }

  /** Writing one piece leaves every other piece as it was. */
  lemma OtherPieces(m: Meta, disk: seq<byte>, index: nat, data: seq<byte>, other: nat)
    requires Sound(m) && |disk| == m.total && index < |m.hashes| && other < |m.hashes| && other != index
    requires |data| <= Size(m, index)
    ensures index * m.pieceLength + |data| <= |disk|
    ensures PieceOnDisk(m, Splice(disk, index * m.pieceLength, data), other) == PieceOnDisk(m, disk, other)
  {
    PieceInside(m.pieceLength, m.total, |m.hashes|, index);
    PieceInside(m.pieceLength, m.total, |m.hashes|, other);
    if index < other {
      PiecesApart(m.pieceLength, m.total, index, other);
    } else {
      PiecesApart(m.pieceLength, m.total, other, index);
    }
    SpliceApart(disk, index * m.pieceLength, data, other * m.pieceLength, Size(m, other));
  }

  /** A write into a piece we lack, even a torn one, leaves the pieces we have readable. */
  lemma WriteKeepsDisk(m: Meta, ours: set<nat>, disk: seq<byte>, index: nat, data: seq<byte>)
    requires Sound(m) && DiskOk(m, ours, disk) && index < |m.hashes| && index !in ours
    requires |data| <= Size(m, index)
    ensures index * m.pieceLength + |data| <= |disk|
    ensures DiskOk(m, ours, Splice(disk, index * m.pieceLength, data))
    ensures |data| == Size(m, index) && Verifies(m, data, index) ==>
      DiskOk(m, ours + {index}, Splice(disk, index * m.pieceLength, data))
  {
    PieceInside(m.pieceLength, m.total, |m.hashes|, index);
    var offset := index * m.pieceLength;
    var after := Splice(disk, offset, data);
    forall i | i in ours ensures GoodOnDisk(m, after, i) {
      OtherPieces(m, disk, index, data, i);
    }
    if |data| == Size(m, index) {
      assert after[offset..offset + Size(m, index)] == data;
    }
  }

  lemma {:induction false} SumAdd(m: Meta, have: set<nat>, index: nat, n: nat)
    requires index !in have
    ensures SumOver(m, have + {index}, n) == SumOver(m, have, n) + if index < n then Size(m, index) else 0
  {
    if n > 0 {
      SumAdd(m, have, index, n - 1);
    }
  }

  ghost predicate AllRelieved(m: Meta, ours: set<nat>, index: nat, peers: map<nat, Peer>, after: map<nat, Peer>) {
    && after.Keys == peers.Keys
    && forall id :: id in after ==> Relieved(m, ours, index, peers[id], after[id])
  }

  lemma StoredRelieves(m: Meta, s: State, id: nat)
    requires Core(m, s) && Finishing(m, s, id) && OthersBusy(s, id)
    requires s.peers[id].job.value.index * m.pieceLength + |s.peers[id].job.value.data| <= |s.disk|
    ensures AllRelieved(m, s.ours, s.peers[id].job.value.index, s.peers, Stored(m, s, id).peers)
  {
    var index := s.peers[id].job.value.index;
    var t := Stored(m, s, id);
    forall other | other in s.peers ensures Relieved(m, s.ours, index, s.peers[other], t.peers[other]) {
      PeerFromCore(m, s, other);
      if other == id {
        FinisherRelieved(m, s.ours, index, s.peers[id]);
      } else {
        OtherRelieved(m, s.ours, index, s.peers[other]);
      }
    }
  }

  lemma RelievedActive(m: Meta, ours: set<nat>, index: nat, active: Active, peers: map<nat, Peer>, after: map<nat, Peer>)
    requires ActiveOk(active, peers) && AllRelieved(m, ours, index, peers, after)
    ensures ActiveOk(Completed(active, index), after)
  {
    forall piece: nat ensures ActiveCount(Completed(active, index), piece) == |Workers(after, piece)| {
      if piece == index {
        assert Workers(after, piece) == {};
      } else {
        assert Workers(after, piece) == Workers(peers, piece);
      }
    }
  }

  lemma RelievedCounts(m: Meta, ours: set<nat>, index: nat, counts: seq<nat>, peers: map<nat, Peer>, after: map<nat, Peer>)
    requires CountsOk(m, counts, peers) && AllRelieved(m, ours, index, peers, after)
    ensures CountsOk(m, counts, after)
  {
    forall i | 0 <= i < |counts| ensures counts[i] == |Havers(after, i)| {
      assert Havers(after, i) == Havers(peers, i);
    }
  }

  lemma RelievedSlots(m: Meta, ours: set<nat>, index: nat, peers: map<nat, Peer>, after: map<nat, Peer>)
    requires SlotsOk(peers) && AllRelieved(m, ours, index, peers, after)
    ensures SlotsOk(after)
  {
    SubsetSize(Unchoked(after), Unchoked(peers));
  }

  lemma RelievedOwned(m: Meta, ours: set<nat>, index: nat, peers: map<nat, Peer>, after: map<nat, Peer>)
    requires AllRelieved(m, ours, index, peers, after)
    ensures NoOwnedJobs(ours + {index}, after)
  {
    forall id | id in after && after[id].job.Some? ensures after[id].job.value.index !in ours + {index} {
      assert Relieved(m, ours, index, peers[id], after[id]);
    }
  }

  /** A job is for a piece we lack and has the piece's size. */
  lemma JobFits(m: Meta, s: State, id: nat)
    requires Sound(m) && Core(m, s) && Finishing(m, s, id)
    ensures var job := s.peers[id].job.value;
      && DiskOk(m, s.ours, s.disk) && BytesOk(m, s.ours, s.downloaded)
      && job.index < |m.hashes| && job.index !in s.ours && |job.data| == Size(m, job.index)
      && job.index * m.pieceLength + |job.data| <= |s.disk|
  {
    PeerFromCore(m, s, id);
    assert Holds(OwnedVerifiesOnDisk, m, s);
    assert Holds(BytesAreOwned, m, s);
    PieceInside(m.pieceLength, m.total, |m.hashes|, s.peers[id].job.value.index);
  }

  /** The finished piece is on disk and ours; nobody works on it any more; all sums agree again. */
  lemma StoredInv(m: Meta, s: State, id: nat)
    requires Sound(m) && Core(m, s) && Finishing(m, s, id) && OthersBusy(s, id)
    requires Verifies(m, s.peers[id].job.value.data, s.peers[id].job.value.index)
    ensures s.peers[id].job.value.index * m.pieceLength + |s.peers[id].job.value.data| <= |s.disk|
    ensures Inv(m, Stored(m, s, id))
  {
    var job := s.peers[id].job.value;
    JobFits(m, s, id);
    var t := Stored(m, s, id);
    StoredRelieves(m, s, id);
    forall c: Claim ensures Holds(c, m, t) {
      assert c.JobsAreUnfinished? || Holds(c, m, s);
      match c
      case PickerCountsWorkers => RelievedActive(m, s.ours, job.index, s.active, s.peers, t.peers);
      case AvailabilityCountsPeers => RelievedCounts(m, s.ours, job.index, s.counts, s.peers, t.peers);
      case SlotsAreBounded => RelievedSlots(m, s.ours, job.index, s.peers, t.peers);
      case OwnedVerifiesOnDisk => WriteKeepsDisk(m, s.ours, s.disk, job.index, job.data);
      case BytesAreOwned => SumAdd(m, s.ours, job.index, |m.hashes|);
      case OwnedIsNotFetched => RelievedOwned(m, s.ours, job.index, s.peers, t.peers);
      case _ =>
    }
  }

  // ------------------------------------------------------------------ all messages

  /** What an i/o error leaves behind: the pieces we claim are still good on disk. */
  ghost predicate Salvage(m: Meta, s: State) {
    DiskOk(m, s.ours, s.disk) && BytesOk(m, s.ours, s.downloaded)
  }

  ghost predicate Fine(m: Meta, o: Outcome) {
    match o
    case Going(s) => Inv(m, s)
    case Failed(s) => Salvage(m, s)
  }

  /** The state that `finish_piece` is called in: the job is already off its peer. */
  function Taken(s: State, id: nat): State
    requires id in s.peers
  {
    s.(peers := s.peers[id := s.peers[id].(job := None)])
  }

  lemma FinishGood(m: Meta, s: State, id: nat, fault: Option<nat>)
    requires Sound(m) && Core(m, s) && Finishing(m, s, id) && OthersBusy(s, id)
    requires Verifies(m, s.peers[id].job.value.data, s.peers[id].job.value.index)
    ensures Fine(m, FinishPiece(m, Taken(s, id), id, s.peers[id].job.value, fault))
  {
    var job := s.peers[id].job.value;
    JobFits(m, s, id);
    StoredInv(m, s, id);
    if fault.Some? && fault.value < |job.data| {
      WriteKeepsDisk(m, s.ours, s.disk, job.index, job.data[..fault.value]);
    } else {
      assert FinishPiece(m, Taken(s, id), id, job, fault).state == Stored(m, s, id);
    }
  }

  lemma FinishBad(m: Meta, s: State, id: nat, fault: Option<nat>)
    requires Sound(m) && Core(m, s) && Finishing(m, s, id) && OthersBusy(s, id)
    requires !Verifies(m, s.peers[id].job.value.data, s.peers[id].job.value.index)
    ensures Fine(m, FinishPiece(m, Taken(s, id), id, s.peers[id].job.value, fault))
  {
    var job := s.peers[id].job.value;
    if job.failures + 1 >= MAX_VERIFY_FAILURES {
      DropIsRemove(s, id);
      RemoveCore(m, s, id);
      InvFromCore(m, RemovePeer(s, id));
    } else {
      RestartInv(m, s, id);
      var t := Taken(s, id);
      assert t.peers[id := t.peers[id].(job := Some(Restart(job)))] == s.peers[id := s.peers[id].(job := Some(Restart(job)))];
    }
  }

  lemma FinishFine(m: Meta, s: State, id: nat, fault: Option<nat>)
    requires Sound(m) && Core(m, s) && Finishing(m, s, id) && OthersBusy(s, id)
    ensures Fine(m, FinishPiece(m, Taken(s, id), id, s.peers[id].job.value, fault))
  {
    if Verifies(m, s.peers[id].job.value.data, s.peers[id].job.value.index) {
      FinishGood(m, s, id, fault);
    } else {
      FinishBad(m, s, id, fault);
    }
  }

  /** The three ways a piece message goes: not asked for, one block of several, the last block. */
  lemma PieceWays(m: Meta, s: State, id: nat, index: nat, begin: nat, data: seq<byte>, now: nat, fault: Option<nat>)
    requires id in s.peers
    ensures !Asked(s.peers[id], index, begin, data) ==> OnPiece(m, s, id, index, begin, data, now, fault) == Going(s)
    ensures Asked(s.peers[id], index, begin, data) ==>
      var q := Receive(s.peers[id], begin, data, now);
      var t := s.(peers := s.peers[id := q]);
      OnPiece(m, s, id, index, begin, data, now, fault)
      == if Done(q.job.value) then FinishPiece(m, Taken(t, id), id, q.job.value, fault) else Going(t)
  {
    if Asked(s.peers[id], index, begin, data) {
      var q := Receive(s.peers[id], begin, data, now);
      assert s.peers[id := q][id := q.(job := None)] == s.peers[id := q.(job := None)];
    }
  }

  lemma PieceFine(m: Meta, s: State, id: nat, index: nat, begin: nat, data: seq<byte>, now: nat, fault: Option<nat>)
    requires Sound(m) && Inv(m, s) && id in s.peers
    ensures Fine(m, OnPiece(m, s, id, index, begin, data, now, fault))
  {
    var p := s.peers[id];
    CoreFromInv(m, s);
    PieceWays(m, s, id, index, begin, data, now, fault);
    if Asked(p, index, begin, data) {
      var q := Receive(p, begin, data, now);
      ReceiveCore(m, s, id, begin, data, now);
      var t := s.(peers := s.peers[id := q]);
      if Done(q.job.value) {
        FinishFine(m, t, id, fault);
      } else {
        InvFromCore(m, t);
      }
    }
  }

  /** Whatever a peer sends, the engine's parts agree afterwards. */
  lemma MessageFine(m: Meta, s: State, id: nat, message: Message, now: nat, fault: Option<nat>)
    requires Sound(m) && Inv(m, s)
    ensures Fine(m, OnMessage(m, s, id, message, now, fault))
  {
    if id in s.peers {
      HeardInv(m, s, id, message);
      var t := s.(peers := s.peers[id := s.peers[id].(state := Heard(s.peers[id].state, message))]);
      match message
      case Bitfield(bits) => BitfieldInv(m, t, id, bits);
      case Have(index) => HaveInv(m, t, id, index);
      case Choke => ChokeInv(m, t, id);
      case Request(index, begin, length) => RequestInv(m, t, id, index, begin, length);
      case Piece(index, begin, data) => PieceFine(m, t, id, index, begin, data, now, fault);
      case _ =>
    }
  }
}
