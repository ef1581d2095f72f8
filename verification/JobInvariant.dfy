/**
 One peer's download job: at every moment its blocks are split between the
 job's queue, the peer's pipeline and the accepted payloads.
 */
module JobInvariant {
  import opened Common
  import opened Messages
  import opened Requests
  import opened EngineModel

  /** The byte ranges of accepted payloads. */
  function Filled(accepted: seq<Payload>): (r: seq<Block>)
    ensures |r| == |accepted|
  {
    seq(|accepted|, i requires 0 <= i < |accepted| => Block(accepted[i].begin, |accepted[i].bytes|))
  }

  /** Queue, pipeline and accepted payloads are exactly the piece's blocks, each once. */
  predicate Partition(job: PieceJob, inFlight: seq<Issued>) {
    multiset(job.pending) + multiset(Ranges(inFlight)) + multiset(Filled(job.accepted)) == multiset(PieceBlocks(|job.data|))
  }

  predicate Landed(data: seq<byte>, p: Payload) {
    p.begin + |p.bytes| <= |data| && data[p.begin..p.begin + |p.bytes|] == p.bytes
  }

  predicate JobParts(job: PieceJob, inFlight: seq<Issued>) {
    && 0 < |job.data| <= U32
    && Partition(job, inFlight)
    && job.received == Bytes(Filled(job.accepted))
    && Bytes(job.pending) + Bytes(Ranges(inFlight)) + job.received == |job.data|
    && (forall e :: e in inFlight ==> e.request.piece == job.index)
    && (forall p :: p in job.accepted ==> Landed(job.data, p))
    && |inFlight| <= PIPELINE_DEPTH
  }

  lemma StartParts(index: nat, size: nat)
    requires 0 < size <= U32
    ensures JobParts(StartJob(index, size), []) && !Done(StartJob(index, size))
  {
    BlocksFromBytes(0, size);
    assert Ranges([]) == [] && Filled([]) == [];
  }

  lemma RestartParts(job: PieceJob, inFlight: seq<Issued>)
    requires JobParts(job, inFlight)
    ensures JobParts(Restart(job), []) && !Done(Restart(job))
  {
    BlocksFromBytes(0, |job.data|);
    assert Ranges([]) == [] && Filled([]) == [];
  }

  lemma RequeueParts(job: PieceJob, inFlight: seq<Issued>, back: seq<Issued>, kept: seq<Issued>)
    requires JobParts(job, inFlight) && Splits(inFlight, back, kept)
    requires (forall e :: e in kept ==> e in inFlight) && |kept| <= |inFlight|
    ensures JobParts(job.(pending := job.pending + Ranges(back)), kept)
  {
    BytesConcat(job.pending, Ranges(back));
  }

  /** Every block of a job is a block of the piece, and none occurs twice. */
  lemma InPiece(job: PieceJob, inFlight: seq<Issued>, b: Block)
    requires JobParts(job, inFlight)
    ensures multiset(PieceBlocks(|job.data|))[b] <= 1
    ensures b in job.pending || b in Ranges(inFlight) || b in Filled(job.accepted) ==>
      b in PieceBlocks(|job.data|) && 0 < b.length && b.begin + b.length <= |job.data|
  {
    var blocks := PieceBlocks(|job.data|);
    BlocksDisjoint(|job.data|);
    NoDupMultiset(blocks, b);
    if b in job.pending || b in Ranges(inFlight) || b in Filled(job.accepted) {
      assert b in multiset(job.pending) || b in multiset(Ranges(inFlight)) || b in multiset(Filled(job.accepted));
      assert b in multiset(blocks);
      var i :| 0 <= i < |blocks| && blocks[i] == b;
      BlockAt(|job.data|, i);
    }
  }

  /** A queued block is never in flight, so the pipeline cannot refuse it as a duplicate. */
  lemma PendingNotInFlight(job: PieceJob, inFlight: seq<Issued>, b: Block)
    requires JobParts(job, inFlight) && b in job.pending
    ensures BlockRequest(job.index, b.begin, b.length) !in Sent(inFlight)
  {
    InPiece(job, inFlight, b);
    assert b in multiset(job.pending);
    assert b !in multiset(Ranges(inFlight));
    forall i | 0 <= i < |inFlight| ensures Sent(inFlight)[i] != BlockRequest(job.index, b.begin, b.length) {
      assert Ranges(inFlight)[i] in multiset(Ranges(inFlight));
    }
  }

  lemma IssueParts(job: PieceJob, inFlight: seq<Issued>, now: nat)
    requires JobParts(job, inFlight) && job.pending != [] && |inFlight| < PIPELINE_DEPTH
    ensures var b := job.pending[0];
      JobParts(job.(pending := job.pending[1..]), inFlight + [Issued(BlockRequest(job.index, b.begin, b.length), now)])
  {
    var b := job.pending[0];
    var rest := job.pending[1..];
    assert job.pending == [b] + rest;
    BytesConcat([b], rest);
    assert Bytes([b]) == b.length;
    RangesAppend(inFlight, Issued(BlockRequest(job.index, b.begin, b.length), now));
  }

  lemma Untouched(data: seq<byte>, begin: nat, bytes: seq<byte>, p: Payload)
    requires Landed(data, p) && begin + |bytes| <= |data|
    requires !Overlap(Block(begin, |bytes|), Block(p.begin, |p.bytes|))
    ensures Landed(Splice(data, begin, bytes), p)
  {
    var after := Splice(data, begin, bytes);
    forall k | p.begin <= k < p.begin + |p.bytes| ensures after[k] == data[k] {}
    assert after[p.begin..p.begin + |p.bytes|] == data[p.begin..p.begin + |p.bytes|];
  }

  /** A block taken from the pipeline fits the piece and overlaps nothing accepted before. */
  lemma ArrivalFits(job: PieceJob, inFlight: seq<Issued>, at: nat, p: Payload)
    requires JobParts(job, inFlight) && at < |inFlight|
    ensures RangeOf(inFlight[at]).begin + RangeOf(inFlight[at]).length <= |job.data|
    ensures p in job.accepted ==> !Overlap(RangeOf(inFlight[at]), Block(p.begin, |p.bytes|))
  {
    var b := RangeOf(inFlight[at]);
    assert Ranges(inFlight)[at] == b;
    assert b in multiset(Ranges(inFlight));
    InPiece(job, inFlight, b);
    if p in job.accepted {
      var k :| 0 <= k < |job.accepted| && job.accepted[k] == p;
      var a := Filled(job.accepted)[k];
      assert a in multiset(Filled(job.accepted));
      InPiece(job, inFlight, a);
      var blocks := PieceBlocks(|job.data|);
      BlocksDisjoint(|job.data|);
      var i :| 0 <= i < |blocks| && blocks[i] == a;
      var j :| 0 <= j < |blocks| && blocks[j] == b;
      assert a != b;
    }
  }

  lemma FilledAppend(accepted: seq<Payload>, p: Payload)
    ensures multiset(Filled(accepted + [p])) == multiset(Filled(accepted)) + multiset{Block(p.begin, |p.bytes|)}
    ensures Bytes(Filled(accepted + [p])) == Bytes(Filled(accepted)) + |p.bytes|
  {
    assert Filled(accepted + [p]) == Filled(accepted) + [Block(p.begin, |p.bytes|)];
    assert (Filled(accepted) + [Block(p.begin, |p.bytes|)])[..|accepted|] == Filled(accepted);
  }

  lemma ArrivalRanges(inFlight: seq<Issued>, at: nat)
    requires at < |inFlight|
    ensures multiset(Ranges(RemoveAt(inFlight, at))) + multiset{RangeOf(inFlight[at])} == multiset(Ranges(inFlight))
    ensures Bytes(Ranges(RemoveAt(inFlight, at))) + RangeOf(inFlight[at]).length == Bytes(Ranges(inFlight))
  {
    RangesRemoveAt(inFlight, at);
    MultisetRemoveAt(Ranges(inFlight), at);
    BytesRemoveAt(Ranges(inFlight), at);
  }

  function Take(job: PieceJob, p: Payload): PieceJob
    requires p.begin + |p.bytes| <= |job.data|
  {
    job.(data := Splice(job.data, p.begin, p.bytes),
         received := job.received + |p.bytes|,
         accepted := job.accepted + [p])
  }

  lemma TakeLanded(job: PieceJob, inFlight: seq<Issued>, at: nat, p: Payload)
    requires JobParts(job, inFlight) && at < |inFlight| && RangeOf(inFlight[at]) == Block(p.begin, |p.bytes|)
    ensures p.begin + |p.bytes| <= |job.data|
    ensures forall x :: x in job.accepted + [p] ==> Landed(Splice(job.data, p.begin, p.bytes), x)
  {
    ArrivalFits(job, inFlight, at, p);
    forall x | x in job.accepted + [p] ensures Landed(Splice(job.data, p.begin, p.bytes), x) {
      if x in job.accepted {
        ArrivalFits(job, inFlight, at, x);
        Untouched(job.data, p.begin, p.bytes, x);
      }
    }
  }

  lemma MoveOne<T>(others: multiset<T>, from: multiset<T>, less: multiset<T>, to: multiset<T>, x: T)
    requires less + multiset{x} == from
    ensures others + less + (to + multiset{x}) == others + from + to
  {}

  lemma TakePartition(job: PieceJob, inFlight: seq<Issued>, at: nat, p: Payload)
    requires Partition(job, inFlight) && at < |inFlight| && RangeOf(inFlight[at]) == Block(p.begin, |p.bytes|)
    requires p.begin + |p.bytes| <= |job.data|
    ensures Partition(Take(job, p), RemoveAt(inFlight, at))
  {
    ArrivalRanges(inFlight, at);
    FilledAppend(job.accepted, p);
    MoveOne(multiset(job.pending), multiset(Ranges(inFlight)), multiset(Ranges(RemoveAt(inFlight, at))),
            multiset(Filled(job.accepted)), RangeOf(inFlight[at]));
  }

  lemma TakeBytes(job: PieceJob, inFlight: seq<Issued>, at: nat, p: Payload)
    requires at < |inFlight| && RangeOf(inFlight[at]) == Block(p.begin, |p.bytes|) && p.begin + |p.bytes| <= |job.data|
    ensures Bytes(Ranges(RemoveAt(inFlight, at))) + Take(job, p).received == Bytes(Ranges(inFlight)) + job.received
    ensures Bytes(Filled(Take(job, p).accepted)) == Bytes(Filled(job.accepted)) + |p.bytes|
  {
    ArrivalRanges(inFlight, at);
    FilledAppend(job.accepted, p);
  }

  lemma TakeParts(job: PieceJob, inFlight: seq<Issued>, at: nat, p: Payload)
    requires JobParts(job, inFlight) && at < |inFlight| && RangeOf(inFlight[at]) == Block(p.begin, |p.bytes|)
    ensures p.begin + |p.bytes| <= |job.data|
    ensures JobParts(Take(job, p), RemoveAt(inFlight, at))
  {
    TakeLanded(job, inFlight, at, p);
    TakePartition(job, inFlight, at, p);
    TakeBytes(job, inFlight, at, p);
  }

  /** An asked-for block that fits is taken from the pipeline into the job. */
  lemma ReceiveTakes(p: Peer, begin: nat, data: seq<byte>, now: nat)
    requires p.job.Some? && begin + |data| <= |p.job.value.data|
    ensures var q := Receive(p, begin, data, now);
            var at := IndexOf(p.inFlight, BlockRequest(p.job.value.index, begin, |data|));
      at < |p.inFlight| ==>
        q.job == Some(Take(p.job.value, Payload(begin, data))) && q.inFlight == RemoveAt(p.inFlight, at)
  {}

  /** Receiving keeps the split: the bounds check passes, and what was accepted stays in place. */
  lemma ReceiveParts(p: Peer, begin: nat, data: seq<byte>, now: nat)
    requires p.job.Some? && JobParts(p.job.value, p.inFlight)
    ensures var q := Receive(p, begin, data, now);
            var at := IndexOf(p.inFlight, BlockRequest(p.job.value.index, begin, |data|));
            if at == |p.inFlight| then q == p
            else
              && begin + |data| <= |p.job.value.data|
              && q.job == Some(Take(p.job.value, Payload(begin, data)))
              && q.inFlight == RemoveAt(p.inFlight, at)
              && JobParts(q.job.value, q.inFlight)
  {
    var at := IndexOf(p.inFlight, BlockRequest(p.job.value.index, begin, |data|));
    if at < |p.inFlight| {
      TakeParts(p.job.value, p.inFlight, at, Payload(begin, data));
      ReceiveTakes(p, begin, data, now);
    }
  }

  lemma {:induction false} NoBytes(s: seq<Block>)
    requires forall b :: b in s ==> b.length > 0
    ensures Bytes(s) == 0 <==> s == []
  {}

  /** A job is done exactly when nothing is queued and nothing is in flight. */
  lemma DoneIff(job: PieceJob, inFlight: seq<Issued>)
    requires JobParts(job, inFlight)
    ensures Done(job) <==> job.pending == [] && inFlight == []
  {
    forall b | b in job.pending || b in Ranges(inFlight) ensures b.length > 0 {
      InPiece(job, inFlight, b);
    }
    NoBytes(job.pending);
    NoBytes(Ranges(inFlight));
  }

  /** When a job is done every byte of its data is the byte some accepted payload carried there. */
  lemma DoneCovers(job: PieceJob, inFlight: seq<Issued>, k: nat) returns (p: Payload)
    requires JobParts(job, inFlight) && Done(job) && k < |job.data|
    ensures p in job.accepted && p.begin <= k < p.begin + |p.bytes| && job.data[k] == p.bytes[k - p.begin]
  {
    DoneIff(job, inFlight);
    assert Ranges(inFlight) == [];
    var i := BlocksCover(|job.data|, k);
    var b := PieceBlocks(|job.data|)[i];
    assert b in multiset(PieceBlocks(|job.data|));
    assert b in multiset(Filled(job.accepted));
    var n :| 0 <= n < |job.accepted| && Filled(job.accepted)[n] == b;
    p := job.accepted[n];
    assert Landed(job.data, p);
    assert job.data[p.begin..p.begin + |p.bytes|][k - p.begin] == p.bytes[k - p.begin];
  }

  // ------------------------------------------------------------------- the peer

  /** A peer's job is in parts; a peer without a job has nothing in flight. */
  predicate JobOk(m: Meta, p: Peer) {
    && (p.job.None? ==> p.inFlight == [])
    && (p.job.Some? ==>
          && p.job.value.index < |m.hashes|
          && |p.job.value.data| == Size(m, p.job.value.index)
          && p.job.value.failures < MAX_VERIFY_FAILURES
          && JobParts(p.job.value, p.inFlight))
  }

  predicate Unfinished(p: Peer) {
    p.job.Some? ==> !Done(p.job.value)
  }

  lemma RequeueOk(m: Meta, p: Peer, back: seq<Issued>, kept: seq<Issued>)
    requires JobOk(m, p) && Splits(p.inFlight, back, kept)
    requires (forall e :: e in kept ==> e in p.inFlight) && |kept| <= |p.inFlight|
    ensures JobOk(m, Requeue(p, back, kept))
  {
    if p.job.Some? {
      RequeueParts(p.job.value, p.inFlight, back, kept);
    }
  }

  lemma ExpireOk(m: Meta, p: Peer, now: nat)
    requires JobOk(m, p)
    ensures JobOk(m, Expire(p, now))
  {
    ExpirySplits(p.inFlight, now, BLOCK_TIMEOUT);
    ExpiryMembers(p.inFlight, now, BLOCK_TIMEOUT);
    RequeueOk(m, p, Dead(p.inFlight, now, BLOCK_TIMEOUT), Alive(p.inFlight, now, BLOCK_TIMEOUT));
  }

  lemma ChokedOk(m: Meta, p: Peer)
    requires JobOk(m, p)
    ensures JobOk(m, Requeue(p, p.inFlight, []))
  {
    assert Ranges([]) == [];
    assert Splits(p.inFlight, p.inFlight, []);
    RequeueOk(m, p, p.inFlight, []);
  }

  /** Everything of a peer but its job, pipeline and channel. */
  predicate SameButJob(p: Peer, q: Peer) {
    && p.theirs == q.theirs && p.theirsKnown == q.theirsKnown
    && p.downloadedFrom == q.downloadedFrom && p.lastUseful == q.lastUseful
    && p.state == q.state && p.tx.capacity == q.tx.capacity && p.tx.sent <= q.tx.sent
    && (p.job.Some? <==> q.job.Some?)
    && (p.job.Some? ==>
          && p.job.value.index == q.job.value.index
          && p.job.value.data == q.job.value.data
          && p.job.value.received == q.job.value.received
          && p.job.value.accepted == q.job.value.accepted)
  }

  /** Every request in flight went out on the channel, unless the channel has closed. */
  predicate Requested(p: Peer) {
    Open(p.tx) ==> forall e :: e in p.inFlight ==>
      Message.Request(e.request.piece, e.request.begin, e.request.length) in p.tx.sent
  }

  /**
   The issue loop keeps the split. When it ends on an open channel the pipeline
   is full or the queue is empty.
   */
  lemma {:induction false} FillOk(m: Meta, p: Peer, now: nat)
    requires JobOk(m, p) && Requested(p)
    ensures var v := Fill(p, now);
      && JobOk(m, v.peer) && Requested(v.peer) && SameButJob(p, v.peer)
      && (v.dead ==> !Open(v.peer.tx))
      && (!v.dead && p.job.Some? ==> |v.peer.inFlight| == PIPELINE_DEPTH || v.peer.job.value.pending == [])
    decreases if p.job.Some? then |p.job.value.pending| else 0
  {
    if p.job.Some? && |p.inFlight| < PIPELINE_DEPTH && p.job.value.pending != [] {
      var job := p.job.value;
      var b := job.pending[0];
      PendingNotInFlight(job, p.inFlight, b);
      IssueParts(job, p.inFlight, now);
      var issued := p.(
        job := Some(job.(pending := job.pending[1..])),
        inFlight := p.inFlight + [Issued(BlockRequest(job.index, b.begin, b.length), now)],
        tx := Send(p.tx, Message.Request(job.index, b.begin, b.length)));
      if Open(p.tx) {
        FillOk(m, issued, now);
      }
    }
  }
}
