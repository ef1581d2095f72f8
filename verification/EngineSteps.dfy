/** What each event achieves, from any sound state: who comes and goes, what becomes of a block, when chokes change. */
module EngineSteps {
  import opened Common
  import opened Messages
  import opened Requests
  import opened Pieces
  import opened Picker
  import opened Storage
  import opened EngineModel
  import opened JobInvariant
  import opened EngineInvariant
  import opened EngineMessages
  import opened EngineHousekeeping
  import opened EngineTheorems
  import opened EngineHeard

  // ------------------------------------------------------------------- a block arrives

  /** A piece message that answers no request changes nothing. */
  lemma BlockIgnored(m: Meta, s: State, id: nat, index: nat, begin: nat, data: seq<byte>, at: nat, fault: Option<nat>)
    requires id in s.peers && !Answers(s.peers[id], Message.Piece(index, begin, data))
    ensures Step(m, s, Received(id, Message.Piece(index, begin, data), at, fault)) == Going(s)
  {
    var p := s.peers[id];
    var t := s.(peers := s.peers[id := p.(state := Heard(p.state, Message.Piece(index, begin, data)))]);
    assert t == s;
    PieceWays(m, s, id, index, begin, data, at, fault);
    AskedIff(p, index, begin, data);
  }

  /** The peer's job with the block in it. */
  function Filling(p: Peer, begin: nat, data: seq<byte>): PieceJob
    requires p.job.Some? && begin + |data| <= |p.job.value.data|
  {
    Take(p.job.value, Payload(begin, data))
  }

  predicate LastOne(p: Peer, data: seq<byte>)
    requires p.job.Some?
  {
    p.job.value.received + |data| == |p.job.value.data|
  }

  lemma ArrivalStep(m: Meta, s: State, id: nat, index: nat, begin: nat, data: seq<byte>, at: nat, fault: Option<nat>)
    requires id in s.peers && Answers(s.peers[id], Message.Piece(index, begin, data))
    ensures var q := Receive(s.peers[id], begin, data, at);
            var t := s.(peers := s.peers[id := q]);
      Step(m, s, Received(id, Message.Piece(index, begin, data), at, fault))
      == if Done(q.job.value) then FinishPiece(m, Taken(t, id), id, q.job.value, fault) else Going(t)
  {
    var p := s.peers[id];
    assert s.peers[id := p.(state := Heard(p.state, Message.Piece(index, begin, data)))] == s.peers;
    AskedIff(p, index, begin, data);
    PieceWays(m, s, id, index, begin, data, at, fault);
  }

  /** An asked-for block lands in the job; the last one finishes it. */
  lemma BlockLands(m: Meta, s: State, id: nat, index: nat, begin: nat, data: seq<byte>, at: nat, fault: Option<nat>)
    requires Sound(m) && Inv(m, s) && id in s.peers && Answers(s.peers[id], Message.Piece(index, begin, data))
    ensures s.peers[id].job.Some? && begin + |data| <= |s.peers[id].job.value.data|
    ensures var p := s.peers[id];
            var q := Receive(p, begin, data, at);
            var t := s.(peers := s.peers[id := q]);
      && q.job == Some(Filling(p, begin, data)) && Core(m, t) && OthersBusy(t, id)
      && (Done(q.job.value) <==> LastOne(p, data))
      && q == p.(inFlight := q.inFlight, downloadedFrom := q.downloadedFrom, lastUseful := q.lastUseful, job := q.job)
      && q.inFlight == RemoveAt(p.inFlight, IndexOf(p.inFlight, BlockRequest(index, begin, |data|)))
      && Step(m, s, Received(id, Message.Piece(index, begin, data), at, fault))
         == if LastOne(p, data) then FinishPiece(m, Taken(t, id), id, q.job.value, fault) else Going(t)
  {
    var p := s.peers[id];
    AskedIff(p, index, begin, data);
    CoreFromInv(m, s);
    PeerFromCore(m, s, id);
    ReceiveParts(p, begin, data, at);
    ReceiveCore(m, s, id, begin, data, at);
    ArrivalStep(m, s, id, index, begin, data, at, fault);
  }

  /** A block that is not the last of its piece: one request is answered, the bytes are in the job, nothing else changes. */
  lemma BlockTaken(m: Meta, s: State, id: nat, index: nat, begin: nat, data: seq<byte>, at: nat, fault: Option<nat>)
      returns (i: nat)
    requires Sound(m) && Inv(m, s) && id in s.peers && Answers(s.peers[id], Message.Piece(index, begin, data))
    requires !LastOne(s.peers[id], data)
    ensures var p := s.peers[id];
      && i < |p.inFlight| && p.inFlight[i].request == BlockRequest(index, begin, |data|)
      && begin + |data| <= |p.job.value.data|
      && Step(m, s, Received(id, Message.Piece(index, begin, data), at, fault)) == Going(s.(peers := s.peers[id := p.(
           inFlight := p.inFlight[..i] + p.inFlight[i + 1..],
           downloadedFrom := p.downloadedFrom + |data|,
           lastUseful := at,
           job := Some(p.job.value.(
             data := Splice(p.job.value.data, begin, data),
             received := p.job.value.received + |data|,
             accepted := p.job.value.accepted + [Payload(begin, data)])))]))
  {
    BlockLands(m, s, id, index, begin, data, at, fault);
    AskedIff(s.peers[id], index, begin, data);
    i := IndexOf(s.peers[id].inFlight, BlockRequest(index, begin, |data|));
  }

  /** The bytes of the piece once the block is in. */
  function Whole(p: Peer, begin: nat, data: seq<byte>): seq<byte>
    requires p.job.Some? && begin + |data| <= |p.job.value.data|
  {
    Splice(p.job.value.data, begin, data)
  }

  /** The message completes the peer's job, which has failed `failures` times, with bytes that verify or not. */
  ghost predicate Completes(m: Meta, s: State, id: nat, index: nat, begin: nat, data: seq<byte>, good: bool, failures: nat) {
    && id in s.peers && Answers(s.peers[id], Message.Piece(index, begin, data)) && LastOne(s.peers[id], data)
    && index < |m.hashes| && begin + |data| <= |s.peers[id].job.value.data|
    && s.peers[id].job.value.failures == failures
    && (Verifies(m, Whole(s.peers[id], begin, data), index) <==> good)
  }

  lemma LastBlockLands(m: Meta, s: State, id: nat, index: nat, begin: nat, data: seq<byte>, at: nat, fault: Option<nat>)
    requires Sound(m) && Inv(m, s) && id in s.peers && Answers(s.peers[id], Message.Piece(index, begin, data))
    requires LastOne(s.peers[id], data)
    ensures var p := s.peers[id];
      && index < |m.hashes| && begin + |data| <= |p.job.value.data| == Size(m, index)
      && p.job.value.failures < MAX_VERIFY_FAILURES
      && var done := p.(inFlight := [], downloadedFrom := p.downloadedFrom + |data|, lastUseful := at,
                        job := Some(Filling(p, begin, data)));
         var t := s.(peers := s.peers[id := done]);
         && Core(m, t) && OthersBusy(t, id) && Finishing(m, t, id)
         && Step(m, s, Received(id, Message.Piece(index, begin, data), at, fault))
            == FinishPiece(m, Taken(t, id), id, done.job.value, fault)
  {
    CoreFromInv(m, s);
    PeerFromCore(m, s, id);
    BlockLands(m, s, id, index, begin, data, at, fault);
    var q := Receive(s.peers[id], begin, data, at);
    var t := s.(peers := s.peers[id := q]);
    PeerFromCore(m, t, id);
    TakenOk(m, q);
  }

  /**
   The first bad copy: the peer stays, with the same piece to fetch from the start, nothing received,
   every block queued once, nothing in flight and one failure; nothing else changes.
   */
  lemma FirstBadCopy(m: Meta, s: State, id: nat, index: nat, begin: nat, data: seq<byte>, at: nat, fault: Option<nat>)
    requires Sound(m) && Inv(m, s) && Completes(m, s, id, index, begin, data, false, 0)
    ensures var p := s.peers[id];
      Step(m, s, Received(id, Message.Piece(index, begin, data), at, fault)) == Going(s.(peers := s.peers[id := p.(
        inFlight := [],
        downloadedFrom := p.downloadedFrom + |data|,
        lastUseful := at,
        job := Some(PieceJob(index, Whole(p, begin, data), 0, PieceBlocks(Size(m, index)), 1, [])))]))
  {
    LastBlockLands(m, s, id, index, begin, data, at, fault);
    var p := s.peers[id];
    var done := p.(inFlight := [], downloadedFrom := p.downloadedFrom + |data|, lastUseful := at, job := Some(Filling(p, begin, data)));
    var again := done.(job := Some(Restart(done.job.value)));
    assert s.peers[id := done][id := done.(job := None)][id := again] == s.peers[id := again];
  }

  /** The second bad copy costs the peer its connection; the counts then fit the peers that are left. */
  lemma SecondBadCopy(m: Meta, s: State, id: nat, index: nat, begin: nat, data: seq<byte>, at: nat, fault: Option<nat>)
    requires Sound(m) && Inv(m, s) && Completes(m, s, id, index, begin, data, false, 1)
    ensures var o := Step(m, s, Received(id, Message.Piece(index, begin, data), at, fault));
      && o.Going? && Inv(m, o.state)
      && o.state == s.(peers := s.peers - {id}, counts := o.state.counts, active := o.state.active)
  {
    LastBlockLands(m, s, id, index, begin, data, at, fault);
    StepFine(m, s, Received(id, Message.Piece(index, begin, data), at, fault));
    var t := Step(m, s, Received(id, Message.Piece(index, begin, data), at, fault)).state;
    assert t.peers == s.peers - {id};
  }

  // ------------------------------------------------------------------ a piece is good

  /** The channel after `messages`, as many of them as it still takes. */
  function SentUpTo(tx: Channel, messages: seq<Message>): Channel {
    tx.(sent := tx.sent + messages[..Min(|messages|, Monus(tx.capacity, |tx.sent|))])
  }

  lemma {:induction false} SendAllIs(tx: Channel, messages: seq<Message>)
    ensures SendAll(tx, messages) == SentUpTo(tx, messages)
  {
    if messages == [] {
      assert tx.sent + [] == tx.sent;
    } else {
      var n := |messages| - 1;
      SendAllIs(tx, messages[..n]);
      var room := Monus(tx.capacity, |tx.sent|);
      if n < room {
        assert messages[..n][..n] + [messages[n]] == messages;
        assert tx.sent + messages[..n][..n] + [messages[n]] == tx.sent + messages;
      } else {
        assert messages[..n][..room] == messages[..room];
      }
    }
  }

  /** The news of a finished piece to a peer that was fetching it: the piece, and a cancel for each request, oldest first. */
  predicate News(index: nat, inFlight: seq<Issued>, news: seq<Message>) {
    && |news| == 1 + |inFlight| && news[0] == Message.Have(index)
    && forall i :: 0 <= i < |inFlight| ==>
         var r := inFlight[i].request; news[i + 1] == Message.Cancel(r.piece, r.begin, r.length)
  }

  lemma AnnounceIs(p: Peer, finisher: bool, index: nat) returns (news: seq<Message>)
    ensures if !finisher && WorksOn(p, index) then
              News(index, p.inFlight, news)
              && Announce(p, finisher, index) == p.(tx := SentUpTo(p.tx, news), inFlight := [], job := None)
            else news == [Message.Have(index)] && Announce(p, finisher, index) == p.(tx := SentUpTo(p.tx, news))
  {
    var first := [Message.Have(index)];
    SendAllIs(p.tx, first);
    assert first[..0] == [] && SendAll(p.tx, first) == Send(p.tx, Message.Have(index));
    if !finisher && WorksOn(p, index) {
      var stops := Cancels(p.inFlight);
      news := first + stops;
      SendAllIs(Send(p.tx, Message.Have(index)), stops);
      SentTwice(p.tx, first, stops);
    } else {
      news := first;
    }
  }

  lemma SentTwice(tx: Channel, a: seq<Message>, b: seq<Message>)
    ensures SentUpTo(SentUpTo(tx, a), b) == SentUpTo(tx, a + b)
  {
    var room := Monus(tx.capacity, |tx.sent|);
    if |a| <= room {
      var k := Min(|b|, room - |a|);
      assert (a + b)[..|a| + k] == a + b[..k];
      assert tx.sent + a + b[..k] == tx.sent + (a + b[..k]);
      assert a[..|a|] == a;
    } else {
      assert (a + b)[..room] == a[..room];
      assert tx.sent + a[..room] + b[..0] == tx.sent + a[..room];
    }
  }

  /**
   A good copy: the piece is on disk and ours, every other piece is as it was, its bytes are counted, nobody
   is noted as fetching it, and every peer has heard; a torn write instead stops the engine with nothing claimed.
   */
  lemma GoodCopy(m: Meta, s: State, id: nat, index: nat, begin: nat, data: seq<byte>, at: nat, fault: Option<nat>)
    requires Sound(m) && Inv(m, s) && exists f :: Completes(m, s, id, index, begin, data, true, f)
    ensures var o := Step(m, s, Received(id, Message.Piece(index, begin, data), at, fault));
            var t := o.state;
      && (o.Failed? <==> fault.Some? && fault.value < Size(m, index))
      && (o.Failed? ==> t.ours == s.ours && t.downloaded == s.downloaded)
      && (o.Going? ==>
            && t.ours == s.ours + {index} && index !in s.ours && t.downloaded == s.downloaded + Size(m, index)
            && PieceOnDisk(m, t.disk, index) == Some(Whole(s.peers[id], begin, data))
            && (forall other :: 0 <= other < |m.hashes| && other != index ==> PieceOnDisk(m, t.disk, other) == PieceOnDisk(m, s.disk, other))
            && t.active == s.active - {index} && t.peers.Keys == s.peers.Keys)
  {
    var p := s.peers[id];
    LastBlockLands(m, s, id, index, begin, data, at, fault);
    GoodSizes(m, s, id, index, begin, data);
    var job := Filling(p, begin, data);
    var done := p.(inFlight := [], downloadedFrom := p.downloadedFrom + |data|, lastUseful := at, job := Some(job));
    GoodDisk(m, s.disk, index, job.data);
    GoodFinish(m, Taken(s.(peers := s.peers[id := done]), id), id, job, fault);
  }

  lemma GoodSizes(m: Meta, s: State, id: nat, index: nat, begin: nat, data: seq<byte>)
    requires Sound(m) && Inv(m, s) && exists f :: Completes(m, s, id, index, begin, data, true, f)
    ensures index !in s.ours && |s.disk| == m.total && index * m.pieceLength + Size(m, index) <= |s.disk|
    ensures |Whole(s.peers[id], begin, data)| == Size(m, index)
  {
    CoreFromInv(m, s);
    PeerFromCore(m, s, id);
    DiskSize(m, s);
    PieceInside(m.pieceLength, m.total, |m.hashes|, index);
  }

  lemma DiskSize(m: Meta, s: State)
    requires Inv(m, s)
    ensures |s.disk| == m.total && s.ours <= Below(|m.hashes|)
  {
    assert Holds(OwnedVerifiesOnDisk, m, s);
  }

  lemma GoodFinish(m: Meta, s: State, id: nat, job: PieceJob, fault: Option<nat>)
    requires job.index < |m.hashes| && Verifies(m, job.data, job.index) && job.index * m.pieceLength + |job.data| <= |s.disk|
    ensures var o := FinishPiece(m, s, id, job, fault);
            var t := o.state;
      && (o.Failed? <==> fault.Some? && fault.value < |job.data|)
      && (o.Failed? ==> t.ours == s.ours && t.downloaded == s.downloaded)
      && (o.Going? ==>
            && t.ours == s.ours + {job.index} && t.downloaded == s.downloaded + |job.data|
            && t.disk == Splice(s.disk, job.index * m.pieceLength, job.data)
            && t.active == s.active - {job.index} && t.peers.Keys == s.peers.Keys)
  {}

  lemma GoodDisk(m: Meta, disk: seq<byte>, index: nat, data: seq<byte>)
    requires Sound(m) && |disk| == m.total && index < |m.hashes| && |data| == Size(m, index)
    ensures index * m.pieceLength + |data| <= |disk|
    ensures var after := Splice(disk, index * m.pieceLength, data);
      && PieceOnDisk(m, after, index) == Some(data)
      && forall other :: 0 <= other < |m.hashes| && other != index ==> PieceOnDisk(m, after, other) == PieceOnDisk(m, disk, other)
  {
    PieceInside(m.pieceLength, m.total, |m.hashes|, index);
    PieceReadsBack(m, disk, index, data);
    forall other | 0 <= other < |m.hashes| && other != index
      ensures PieceOnDisk(m, Splice(disk, index * m.pieceLength, data), other) == PieceOnDisk(m, disk, other)
    {
      OtherPieces(m, disk, index, data, other);
    }
  }

  lemma PieceReadsBack(m: Meta, disk: seq<byte>, index: nat, data: seq<byte>)
    requires index * m.pieceLength + |data| <= |disk| && |data| == Size(m, index)
    ensures PieceOnDisk(m, Splice(disk, index * m.pieceLength, data), index) == Some(data)
  {
    var at := index * m.pieceLength;
    assert Splice(disk, at, data)[at..at + |data|] == data;
  }

  /** What a peer is sent when a piece is stored, and what becomes of its job. */
  lemma GoodCopyHeard(m: Meta, s: State, id: nat, index: nat, begin: nat, data: seq<byte>, at: nat, other: nat)
      returns (news: seq<Message>)
    requires Sound(m) && Inv(m, s) && other in s.peers && exists f :: Completes(m, s, id, index, begin, data, true, f)
    ensures var o := Step(m, s, Received(id, Message.Piece(index, begin, data), at, None));
            var p := s.peers[other];
      && o.Going? && other in o.state.peers
      && if other == id then
           o.state.peers[id] == p.(tx := SentUpTo(p.tx, [Message.Have(index)]), inFlight := [], job := None,
                                   downloadedFrom := p.downloadedFrom + |data|, lastUseful := at)
         else if WorksOn(p, index) then
           News(index, p.inFlight, news)
           && o.state.peers[other] == p.(tx := SentUpTo(p.tx, news), inFlight := [], job := None)
         else o.state.peers[other] == p.(tx := SentUpTo(p.tx, [Message.Have(index)]))
  {
    LastBlockLands(m, s, id, index, begin, data, at, None);
    GoodCopy(m, s, id, index, begin, data, at, None);
    var p := s.peers[id];
    var done := p.(inFlight := [], downloadedFrom := p.downloadedFrom + |data|, lastUseful := at, job := Some(Filling(p, begin, data)));
    news := AnnounceIs(if other == id then done.(job := None) else s.peers[other], other == id, index);
  }

  // ------------------------------------------------------------------------ requests

  /** A Choke takes everything in flight back into the queue, behind what is there, oldest first. */
  lemma ChokedRequeues(m: Meta, s: State, id: nat, at: nat, fault: Option<nat>)
    requires Inv(m, s) && id in s.peers
    ensures var p := s.peers[id];
      Step(m, s, Received(id, Message.Choke, at, fault)) == Going(s.(peers := s.peers[id := p.(
        state := p.state.(peerChoking := true),
        inFlight := [],
        job := if p.job.None? then None
               else Some(p.job.value.(pending := p.job.value.pending + Ranges(p.inFlight))))]))
  {
    CoreFromInv(m, s);
    PeerFromCore(m, s, id);
  }

  function Asking(index: nat, blocks: seq<Block>): (r: seq<Message>)
    ensures |r| == |blocks|
  {
    seq(|blocks|, i requires 0 <= i < |blocks| => Message.Request(index, blocks[i].begin, blocks[i].length))
  }

  function IssuedAt(index: nat, blocks: seq<Block>, now: nat): (r: seq<Issued>)
    ensures |r| == |blocks|
  {
    seq(|blocks|, i requires 0 <= i < |blocks| => Issued(BlockRequest(index, blocks[i].begin, blocks[i].length), now))
  }

  function Space(tx: Channel): nat {
    Monus(tx.capacity, |tx.sent|)
  }

  /** The first `k` queued blocks have been asked for, in order. */
  function Issuing(p: Peer, k: nat, now: nat): Peer
    requires p.job.Some? && k <= |p.job.value.pending|
  {
    var job := p.job.value;
    p.(job := Some(job.(pending := job.pending[k..])),
       inFlight := p.inFlight + IssuedAt(job.index, job.pending[..k], now),
       tx := SentUpTo(p.tx, Asking(job.index, job.pending[..k])))
  }

  lemma IssuingNone(p: Peer, now: nat)
    requires p.job.Some?
    ensures Issuing(p, 0, now) == p
  {
    assert p.inFlight + [] == p.inFlight && p.tx.sent + [] == p.tx.sent;
  }

  lemma IssuingMore(p: Peer, k: nat, now: nat)
    requires p.job.Some? && k < |p.job.value.pending| && Open(p.tx)
    ensures var one := Issuing(p, 1, now);
      && one.job.value.pending == p.job.value.pending[1..]
      && Issuing(one, k, now) == Issuing(p, k + 1, now) && Space(one.tx) == Space(p.tx) - 1
  {
    var job := p.job.value;
    var one := Issuing(p, 1, now);
    var a, b := Asking(job.index, job.pending[..1]), Asking(job.index, job.pending[1..][..k]);
    assert job.pending[1..][k..] == job.pending[k + 1..];
    assert IssuedAt(job.index, job.pending[..1], now) + IssuedAt(job.index, job.pending[1..][..k], now)
        == IssuedAt(job.index, job.pending[..k + 1], now);
    assert a + b == Asking(job.index, job.pending[..k + 1]);
    SentTwice(p.tx, a, b);
  }

  /**
   Filling the pipeline asks for the first `k` queued blocks, in order: until the pipeline is full,
   the queue empty, or the channel has refused one.
   */
  lemma {:induction false} FillIsPrefix(m: Meta, p: Peer, now: nat) returns (k: nat)
    requires JobOk(m, p) && p.job.Some?
    ensures k <= |p.job.value.pending| && Fill(p, now) == Visit(Issuing(p, k, now), k > Space(p.tx)) && k <= Space(p.tx) + 1
    ensures k <= Space(p.tx) ==> |p.inFlight| + k == PIPELINE_DEPTH || k == |p.job.value.pending|
    decreases |p.job.value.pending|
  {
    var job := p.job.value;
    if |p.inFlight| >= PIPELINE_DEPTH || job.pending == [] {
      k := 0;
      IssuingNone(p, now);
    } else {
      FillStep(m, p, now);
      if Open(p.tx) {
        var more := FillIsPrefix(m, Issuing(p, 1, now), now);
        k := more + 1;
        IssuingMore(p, more, now);
      } else {
        k := 1;
      }
    }
  }

  lemma FillStep(m: Meta, p: Peer, now: nat)
    requires JobOk(m, p) && p.job.Some? && |p.inFlight| < PIPELINE_DEPTH && p.job.value.pending != []
    ensures var one := Issuing(p, 1, now);
      && JobOk(m, one) && one.job.Some? && one.job.value.pending == p.job.value.pending[1..]
      && |one.inFlight| == |p.inFlight| + 1
      && Fill(p, now) == if Open(p.tx) then Fill(one, now) else Visit(one, true)
  {
    PendingNotInFlight(p.job.value, p.inFlight, p.job.value.pending[0]);
    IssueParts(p.job.value, p.inFlight, now);
    OneRequest(p, now);
  }

  lemma OneRequest(p: Peer, now: nat)
    requires p.job.Some? && p.job.value.pending != []
    ensures var job := p.job.value;
            var b := job.pending[0];
      Issuing(p, 1, now) == p.(
        job := Some(job.(pending := job.pending[1..])),
        inFlight := p.inFlight + [Issued(BlockRequest(job.index, b.begin, b.length), now)],
        tx := Send(p.tx, Message.Request(job.index, b.begin, b.length)))
  {
    var job := p.job.value;
    assert Asking(job.index, job.pending[..1]) == [Message.Request(job.index, job.pending[0].begin, job.pending[0].length)];
    assert IssuedAt(job.index, job.pending[..1], now)
        == [Issued(BlockRequest(job.index, job.pending[0].begin, job.pending[0].length), now)];
    if !Open(p.tx) {
      assert p.tx.sent + [] == p.tx.sent;
    }
  }

  function Hello(p: Peer): seq<Message> {
    if p.state.amInterested then [] else [Message.Interested]
  }

  predicate Late(p: Peer, complete: bool, now: nat) {
    Monus(now, p.lastUseful) > SNUB_TIMEOUT && !complete
  }

  /**
   What a visit sends a peer with a job: nothing if it is late, which costs it the connection; else our
   interest, once, and, if it takes requests, its first queued blocks in order. Besides the late ones,
   exactly the peers whose channel refuses one of these are dropped.
   */
  lemma DriveSends(m: Meta, p: Peer, complete: bool, now: nat) returns (k: nat)
    requires PeerOk(m, p) && p.job.Some?
    ensures k <= |p.job.value.pending|
    ensures var v := Drive(p, complete, now);
            var told := p.(state := p.state.(amInterested := true));
      if Late(p, complete, now) then v == Visit(p, true)
      else if |Hello(p)| > Space(p.tx) then v == Visit(p, true)
      else if p.state.peerChoking then v == Visit(told.(tx := SentUpTo(p.tx, Hello(p))), false)
      else
        && v.peer == Issuing(told, k, now).(tx := SentUpTo(p.tx, Hello(p) + Asking(p.job.value.index, p.job.value.pending[..k])))
        && (v.dead <==> |Hello(p)| + k > Space(p.tx))
        && (!v.dead ==> |p.inFlight| + k == PIPELINE_DEPTH || k == |p.job.value.pending|)
  {
    k := 0;
    if !Late(p, complete, now) && |Hello(p)| <= Space(p.tx) {
      var q := p.(tx := SentUpTo(p.tx, Hello(p)), state := p.state.(amInterested := true));
      if p.state.amInterested {
        assert p.tx.sent + [] == p.tx.sent;
        assert q == p;
      } else {
        assert [Message.Interested][..1] == [Message.Interested];
        assert q.tx == Send(p.tx, Message.Interested);
      }
      if !p.state.peerChoking {
        k := FillIsPrefix(m, q, now);
        SentTwice(p.tx, Hello(p), Asking(p.job.value.index, p.job.value.pending[..k]));
      }
    }
  }

  // ------------------------------------------------------------------- one pass

  lemma {:induction false} OthersUnvisited(m: Meta, s: State, order: seq<nat>, now: nat, id: nat)
    requires (forall x :: x in order ==> x in s.peers) && id !in order && id in s.peers
    ensures var r := VisitAll(m, s, order, now);
      r.state.peers[id] == s.peers[id] && id !in r.dead
  {
    if order != [] {
      var init, last := order[..|order| - 1], order[|order| - 1];
      assert order == init + [last];
      OthersUnvisited(m, s, init, now, id);
    }
  }

  /** Each peer is visited once, as it was before the pass. */
  lemma {:induction false} VisitedOnce(m: Meta, s: State, order: seq<nat>, now: nat, id: nat) returns (before: Round)
    requires Sound(m) && Inv(m, s) && NoDup(order) && (forall x :: x in order ==> x in s.peers) && id in order
    ensures Inv(m, before.state) && before.state.ours == s.ours
    ensures id in before.state.peers && before.state.peers[id] == s.peers[id] && id !in before.dead
    ensures var r := VisitAll(m, s, order, now);
            var one := VisitPeer(m, before, id, now);
      r.state.peers[id] == one.state.peers[id] && (id in r.dead <==> id in one.dead)
  {
    var init, last := order[..|order| - 1], order[|order| - 1];
    assert order == init + [last];
    NoDupInit(order);
    if last == id {
      OthersUnvisited(m, s, init, now, id);
      VisitAllInv(m, s, init, now);
      before := VisitAll(m, s, init, now);
    } else {
      before := VisitedOnce(m, s, init, now, id);
    }
  }

  /** The peer as a visit drives it: overdue requests back in the queue, and a piece to fetch if it had none. */
  function Ready(m: Meta, r: Round, id: nat, now: nat): Peer
    requires id in r.state.peers
  {
    Assign(m, SetPeer(r.state, id, Expire(r.state.peers[id], now)), id).peers[id]
  }

  lemma ReadyOk(m: Meta, r: Round, id: nat, now: nat)
    requires Sound(m) && Inv(m, r.state) && id in r.state.peers
    ensures var p, q := r.state.peers[id], Ready(m, r, id, now);
            var t := Assign(m, SetPeer(r.state, id, Expire(p, now)), id);
      && PeerOk(m, q) && q.tx == p.tx && q.state == p.state && q.lastUseful == p.lastUseful && (p.job.Some? ==> q.job.Some?)
      && q.inFlight == (if p.job.Some? then Alive(p.inFlight, now, BLOCK_TIMEOUT) else [])
      && (p.job.Some? ==>
            q.job.value == p.job.value.(pending := p.job.value.pending + Ranges(Dead(p.inFlight, now, BLOCK_TIMEOUT))))
      && Complete(m, t) == Complete(m, r.state)
      && VisitPeer(m, r, id, now).state.peers[id] == Drive(q, Complete(m, t), now).peer
      && (id !in r.dead ==> (id in VisitPeer(m, r, id, now).dead <==> Drive(q, Complete(m, t), now).dead))
  {
    CoreFromInv(m, r.state);
    PeerFromCore(m, r.state, id);
    var p := r.state.peers[id];
    ExpirePeer(m, p, now);
    KeepInv(m, r.state, id, Expire(p, now));
    var s1 := SetPeer(r.state, id, Expire(p, now));
    AssignInv(m, s1, id);
    CoreFromInv(m, Assign(m, s1, id));
    PeerFromCore(m, Assign(m, s1, id), id);
  }

  /** A request in flight that is not overdue stays in flight. */
  predicate KeepsYoung(p: Peer, q: Peer, now: nat) {
    forall e :: e in p.inFlight && Monus(now, e.at) < BLOCK_TIMEOUT ==> e in q.inFlight
  }

  lemma {:induction false} YoungAreAlive(inFlight: seq<Issued>, now: nat, e: Issued)
    requires e in inFlight && Monus(now, e.at) < BLOCK_TIMEOUT
    ensures e in Alive(inFlight, now, BLOCK_TIMEOUT)
  {
    var n := |inFlight| - 1;
    assert inFlight == inFlight[..n] + [inFlight[n]];
    if e in inFlight[..n] {
      YoungAreAlive(inFlight[..n], now, e);
    }
  }

  /** What driving decides: who is dropped, and that what was in flight stays. */
  lemma DriveDecides(m: Meta, p: Peer, complete: bool, now: nat)
    requires PeerOk(m, p)
    ensures var v := Drive(p, complete, now);
      && (v.dead ==> p.job.Some? && (Late(p, complete, now) || !Open(v.peer.tx)))
      && (p.job.Some? && Late(p, complete, now) ==> v.dead)
      && p.inFlight <= v.peer.inFlight && v.peer.job.Some? == p.job.Some?
  {
    if p.job.Some? {
      var k := DriveSends(m, p, complete, now);
    }
  }

  lemma AliveKept(p: Peer, q: Peer, visited: Peer, now: nat)
    requires q.inFlight == (if p.job.Some? then Alive(p.inFlight, now, BLOCK_TIMEOUT) else [])
    requires (p.job.None? ==> p.inFlight == []) && q.inFlight <= visited.inFlight
    ensures KeepsYoung(p, visited, now)
  {
    forall e | e in p.inFlight && Monus(now, e.at) < BLOCK_TIMEOUT ensures e in visited.inFlight {
      YoungAreAlive(p.inFlight, now, e);
      assert e in visited.inFlight[..|q.inFlight|];
    }
  }

  lemma VisitDecides(m: Meta, s: State, order: seq<nat>, now: nat, id: nat)
    requires Sound(m) && Inv(m, s) && NoDup(order) && (forall x :: x in order ==> x in s.peers) && id in order
    ensures var r := VisitAll(m, s, order, now);
            var p, visited := s.peers[id], r.state.peers[id];
      && (visited.job.Some? && Late(p, Complete(m, s), now) ==> id in r.dead)
      && (id in r.dead ==> visited.job.Some? && (Late(p, Complete(m, s), now) || !Open(visited.tx)))
      && KeepsYoung(p, visited, now)
  {
    var before := VisitedOnce(m, s, order, now, id);
    ReadyOk(m, before, id, now);
    var q := Ready(m, before, id, now);
    DriveDecides(m, q, Complete(m, before.state), now);
    CoreFromInv(m, s);
    PeerFromCore(m, s, id);
    AliveKept(s.peers[id], q, Drive(q, Complete(m, before.state), now).peer, now);
  }

  /**
   A pass drops a peer only if it is late with a piece to fetch, or its channel has closed, and it drops
   every peer that is late with a piece to fetch. The others keep what is in flight and not overdue.
   */
  lemma DroppedFor(m: Meta, s: State, order: seq<nat>, again: seq<nat>, now: nat, id: nat)
    requires Sound(m) && Inv(m, s) && PassesOk(m, s, order, again, now) && id in s.peers
    ensures var p := s.peers[id];
            var visited := VisitAll(m, s, order, now).state.peers[id];
            var t := Housekeeping(m, s, order, again, now);
      && (visited.job.Some? && Late(p, Complete(m, s), now) ==> id !in t.peers)
      && (id !in t.peers ==> visited.job.Some? && (Late(p, Complete(m, s), now) || !Open(visited.tx)))
      && (id in t.peers ==> KeepsYoung(p, t.peers[id], now))
  {
    VisitDecides(m, s, order, now, id);
    var r := VisitAll(m, s, order, now);
    TailOfHousekeeping(m, s, order, again, now);
    RemoveAllKeeps(r.state, r.dead);
  }

  /** No peer-held, missing piece under the cap would have been a better choice than `piece`. */
  predicate BestChoice(m: Meta, s: State, theirs: set<nat>, piece: nat)
    requires |s.counts| == |m.hashes|
  {
    && piece < |m.hashes| && Candidate(s.ours, theirs, piece) && ActiveCount(s.active, piece) < ENDGAME_DUP
    && forall other :: 0 <= other < |m.hashes| && other != piece && Candidate(s.ours, theirs, other)
                       && ActiveCount(s.active, other) < ENDGAME_DUP ==>
         var (a, b) := (ActiveCount(s.active, piece), ActiveCount(s.active, other));
         a < b || (a == b && (s.counts[piece] < s.counts[other] || (s.counts[piece] == s.counts[other] && piece < other)))
  }

  /**
   An idle peer whose pieces are known is given the piece fetched by the fewest, then the rarest, then the
   first among those it has, we lack and the cap allows, to be fetched from the start; none if there is none.
   */
  lemma HiredForBest(m: Meta, r: Round, id: nat, now: nat)
    requires Sound(m) && Inv(m, r.state) && id in r.state.peers && r.state.peers[id].job.None? && r.state.peers[id].theirsKnown
    ensures |r.state.counts| == |m.hashes|
    ensures var p, q := r.state.peers[id], Ready(m, r, id, now);
      if q.job.Some? then
        && BestChoice(m, r.state, p.theirs, q.job.value.index)
        && var size := Size(m, q.job.value.index);
           q.job.value == PieceJob(q.job.value.index, seq(size, _ => 0), 0, PieceBlocks(size), 0, [])
      else forall other :: 0 <= other < |m.hashes| && Candidate(r.state.ours, p.theirs, other) ==>
             ActiveCount(r.state.active, other) >= ENDGAME_DUP
  {
    var s, p := r.state, r.state.peers[id];
    ChooseMeaning(s.active, ENDGAME_DUP, s.ours, p.theirs, s.counts, |m.hashes|);
    assert Holds(PickerCountsWorkers, m, s) && Holds(AvailabilityCountsPeers, m, s);
    var choice := Choose(s.active, ENDGAME_DUP, s.ours, p.theirs, s.counts, |m.hashes|);
    if choice.Some? {
      ChoiceIsBest(m, s, p.theirs, choice.value);
    }
  }

  lemma ChoiceIsBest(m: Meta, s: State, theirs: set<nat>, piece: nat)
    requires ActiveOk(s.active, s.peers) && |s.counts| == |m.hashes|
    requires Choose(s.active, ENDGAME_DUP, s.ours, theirs, s.counts, |m.hashes|) == Some(piece)
    ensures BestChoice(m, s, theirs, piece)
  {
    ChooseMeaning(s.active, ENDGAME_DUP, s.ours, theirs, s.counts, |m.hashes|);
  }
}
