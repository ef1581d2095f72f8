/**
 Cutting a piece into blocks and tracking the blocks asked of one peer
 (bt/src/requests.rs).
 */
module Requests {
  import opened Common

  const BLOCK_SIZE: nat := 16384

  datatype Block = Block(begin: nat, length: nat)

  datatype BlockRequest = BlockRequest(piece: nat, begin: nat, length: nat)

  datatype Issued = Issued(request: BlockRequest, at: nat)

  // ---------------------------------------------------------------- piece_blocks

  /** The blocks from `begin` to the end of the piece; offsets are cast to 32 bits. */
  function BlocksFrom(begin: nat, length: nat): seq<Block>
    requires begin <= length
    decreases length - begin
  {
    if begin == length then []
    else
      var take := Min(BLOCK_SIZE, length - begin);
      [Block(begin % U32, take)] + BlocksFrom(begin + take, length)
  }

  function PieceBlocks(length: nat): seq<Block> {
    BlocksFrom(0, length)
  }

  method CutPiece(length: nat) returns (out: seq<Block>)
    ensures out == PieceBlocks(length)
  {
    out := [];
    var begin := 0;
    while begin < length
      invariant begin <= length
      invariant out + BlocksFrom(begin, length) == PieceBlocks(length)
    {
      var take := Min(BLOCK_SIZE, length - begin);
      out := out + [Block(begin % U32, take)];
      begin := begin + take;
    }
  }

  lemma {:induction false} BlocksFromAt(begin: nat, length: nat, i: nat)
    requires begin <= length && i < |BlocksFrom(begin, length)|
    ensures begin + i * BLOCK_SIZE < length
    ensures BlocksFrom(begin, length)[i]
         == Block((begin + i * BLOCK_SIZE) % U32, Min(BLOCK_SIZE, length - begin - i * BLOCK_SIZE))
    decreases i
  {
    if i > 0 {
      var take := Min(BLOCK_SIZE, length - begin);
      BlocksFromAt(begin + take, length, i - 1);
    }
  }

  lemma {:induction false} BlocksFromCount(begin: nat, length: nat)
    requires begin <= length
    ensures length <= begin + |BlocksFrom(begin, length)| * BLOCK_SIZE
    decreases length - begin
  {
    if begin < length {
      BlocksFromCount(begin + Min(BLOCK_SIZE, length - begin), length);
    }
  }

  /** Block `i` starts at `i * BLOCK_SIZE`, is not empty and stops at the piece's end. */
  lemma BlockAt(length: nat, i: nat)
    requires length <= U32 && i < |PieceBlocks(length)|
    ensures i * BLOCK_SIZE < length
    ensures PieceBlocks(length)[i] == Block(i * BLOCK_SIZE, Min(BLOCK_SIZE, length - i * BLOCK_SIZE))
  {
    BlocksFromAt(0, length, i);
  }

  /** Every byte of the piece lies in a block. */
  lemma BlocksCover(length: nat, k: nat) returns (i: nat)
    requires length <= U32 && k < length
    ensures i < |PieceBlocks(length)|
    ensures PieceBlocks(length)[i].begin <= k < PieceBlocks(length)[i].begin + PieceBlocks(length)[i].length
  {
    i := k / BLOCK_SIZE;
    BlocksFromCount(0, length);
    BlockAt(length, i);
  }

  predicate Overlap(a: Block, b: Block) {
    a.begin < b.begin + b.length && b.begin < a.begin + a.length
  }

  /** No two blocks of a piece overlap, so no block occurs twice. */
  lemma BlocksDisjoint(length: nat)
    requires length <= U32
    ensures forall i, j :: 0 <= i < j < |PieceBlocks(length)| ==> !Overlap(PieceBlocks(length)[i], PieceBlocks(length)[j])
    ensures NoDup(PieceBlocks(length))
  {
    forall i, j | 0 <= i < j < |PieceBlocks(length)|
      ensures !Overlap(PieceBlocks(length)[i], PieceBlocks(length)[j])
      ensures PieceBlocks(length)[i] != PieceBlocks(length)[j]
    {
      BlockAt(length, i);
      BlockAt(length, j);
      assert (j - i) * BLOCK_SIZE >= BLOCK_SIZE;
    }
  }

  /** The cast of the offset to 32 bits is harmless exactly up to 4 GiB. */
  lemma OffsetsExactIff(length: nat)
    ensures (forall i :: 0 <= i < |PieceBlocks(length)| ==> PieceBlocks(length)[i].begin == i * BLOCK_SIZE)
       <==> length <= U32
  {
    if length <= U32 {
      forall i | 0 <= i < |PieceBlocks(length)| ensures PieceBlocks(length)[i].begin == i * BLOCK_SIZE {
        BlockAt(length, i);
      }
    } else {
      var i := U32 / BLOCK_SIZE;
      BlocksFromCount(0, length);
      BlocksFromAt(0, length, i);
      assert PieceBlocks(length)[i].begin != i * BLOCK_SIZE;
    }
  }

  function Bytes(blocks: seq<Block>): nat {
    if blocks == [] then 0 else Bytes(blocks[..|blocks| - 1]) + blocks[|blocks| - 1].length
  }

  lemma {:induction false} BytesConcat(a: seq<Block>, b: seq<Block>)
    ensures Bytes(a + b) == Bytes(a) + Bytes(b)
    decreases |b|
  {
    if b == [] {
      assert a + b == a;
    } else {
      var n := |b| - 1;
      BytesConcat(a, b[..n]);
      assert (a + b)[..|a + b| - 1] == a + b[..n];
    }
  }

  lemma BytesRemoveAt(s: seq<Block>, i: nat)
    requires i < |s|
    ensures Bytes(s[..i] + s[i + 1..]) + s[i].length == Bytes(s)
  {
    var before, after := s[..i + 1], s[i + 1..];
    assert s == before + after;
    BytesConcat(before, after);
    assert before[..|before| - 1] == s[..i];
    BytesConcat(s[..i], after);
  }

  /** The blocks of a piece hold as many bytes as the piece. */
  lemma {:induction false} BlocksFromBytes(begin: nat, length: nat)
    requires begin <= length
    ensures Bytes(BlocksFrom(begin, length)) == length - begin
    decreases length - begin
  {
    if begin < length {
      var take := Min(BLOCK_SIZE, length - begin);
      BlocksFromBytes(begin + take, length);
      BytesConcat([Block(begin % U32, take)], BlocksFrom(begin + take, length));
      assert Bytes([Block(begin % U32, take)]) == take;
    }
  }

  // ------------------------------------------------------------ RequestPipeline

  function Sent(inFlight: seq<Issued>): seq<BlockRequest> {
    seq(|inFlight|, i requires 0 <= i < |inFlight| => inFlight[i].request)
  }

  /** The byte ranges in flight, whatever piece they belong to. */
  function Ranges(inFlight: seq<Issued>): (r: seq<Block>)
    ensures |r| == |inFlight|
  {
    seq(|inFlight|, i requires 0 <= i < |inFlight| => RangeOf(inFlight[i]))
  }

  function IndexOf(inFlight: seq<Issued>, request: BlockRequest): (i: nat)
    ensures i <= |inFlight|
    ensures forall j :: 0 <= j < i ==> inFlight[j].request != request
    ensures i < |inFlight| ==> inFlight[i].request == request
  {
    if inFlight == [] then 0
    else if inFlight[0].request == request then 0
    else 1 + IndexOf(inFlight[1..], request)
  }

  function RemoveAt(inFlight: seq<Issued>, i: nat): seq<Issued>
    requires i < |inFlight|
  {
    inFlight[..i] + inFlight[i + 1..]
  }

  /** The entries issued at least `timeout` ago, oldest position first. */
  function Dead(inFlight: seq<Issued>, now: nat, timeout: nat): seq<Issued> {
    if inFlight == [] then []
    else
      var n := |inFlight| - 1;
      Dead(inFlight[..n], now, timeout) + (if Monus(now, inFlight[n].at) >= timeout then [inFlight[n]] else [])
  }

  function Alive(inFlight: seq<Issued>, now: nat, timeout: nat): seq<Issued> {
    if inFlight == [] then []
    else
      var n := |inFlight| - 1;
      Alive(inFlight[..n], now, timeout) + (if Monus(now, inFlight[n].at) >= timeout then [] else [inFlight[n]])
  }

  lemma RangesRemoveAt(s: seq<Issued>, i: nat)
    requires i < |s|
    ensures Ranges(RemoveAt(s, i)) == Ranges(s)[..i] + Ranges(s)[i + 1..]
  {}

  lemma {:induction false} ExpiryMembers(s: seq<Issued>, now: nat, timeout: nat)
    ensures forall e :: e in Dead(s, now, timeout) ==> e in s && Monus(now, e.at) >= timeout
    ensures forall e :: e in Alive(s, now, timeout) ==> e in s && Monus(now, e.at) < timeout
    ensures |Alive(s, now, timeout)| <= |s|
  {
    if s != [] {
      ExpiryMembers(s[..|s| - 1], now, timeout);
    }
  }

  function RangeOf(e: Issued): Block {
    Block(e.request.begin, e.request.length)
  }

  lemma RangesAppend(s: seq<Issued>, e: Issued)
    ensures Ranges(s + [e]) == Ranges(s) + [RangeOf(e)]
    ensures multiset(Ranges(s + [e])) == multiset(Ranges(s)) + multiset{RangeOf(e)}
    ensures Bytes(Ranges(s + [e])) == Bytes(Ranges(s)) + e.request.length
  {
    assert Ranges(s + [e]) == Ranges(s) + [RangeOf(e)];
    assert (Ranges(s) + [RangeOf(e)])[..|s|] == Ranges(s);
  }

  /** `whole` holds the ranges of `a` and of `b`, and nothing else. */
  predicate Splits(whole: seq<Issued>, a: seq<Issued>, b: seq<Issued>) {
    && multiset(Ranges(a)) + multiset(Ranges(b)) == multiset(Ranges(whole))
    && Bytes(Ranges(a)) + Bytes(Ranges(b)) == Bytes(Ranges(whole))
  }

  lemma SplitsAppend(whole: seq<Issued>, a: seq<Issued>, b: seq<Issued>, e: Issued)
    requires Splits(whole, a, b)
    ensures Splits(whole + [e], a + [e], b) && Splits(whole + [e], a, b + [e])
  {
    RangesAppend(whole, e);
    RangesAppend(a, e);
    RangesAppend(b, e);
  }

  /** Expiry splits the pipeline: nothing is lost, nothing is duplicated. */
  lemma {:induction false} ExpirySplits(s: seq<Issued>, now: nat, timeout: nat)
    ensures Splits(s, Dead(s, now, timeout), Alive(s, now, timeout))
  {
    if s != [] {
      var init, last := s[..|s| - 1], s[|s| - 1];
      ExpirySplits(init, now, timeout);
      SplitsAppend(init, Dead(init, now, timeout), Alive(init, now, timeout), last);
      assert s == init + [last];
      assert Dead(init, now, timeout) + [] == Dead(init, now, timeout);
      assert Alive(init, now, timeout) + [] == Alive(init, now, timeout);
    }
  }

  class RequestPipeline {
    const capacity: nat
    const timeout: nat
    var inFlight: seq<Issued>

    constructor (capacity: nat, timeout: nat)
      ensures this.capacity == capacity && this.timeout == timeout && inFlight == []
    {
      this.capacity := capacity;
      this.timeout := timeout;
      inFlight := [];
    }

    predicate HasSlot()
      reads this
    {
      |inFlight| < capacity
    }

    method Contains(request: BlockRequest) returns (found: bool)
      ensures found <==> request in Sent(inFlight)
    {
      found := false;
      var i := 0;
      while i < |inFlight|
        invariant i <= |inFlight|
        invariant found <==> exists j :: 0 <= j < i && inFlight[j].request == request
      {
        if inFlight[i].request == request {
          found := true;
        }
        i := i + 1;
      }
      if found {
        var j :| 0 <= j < |inFlight| && inFlight[j].request == request;
        assert Sent(inFlight)[j] == request;
      }
    }

    /** Refuses exactly when full or when the same request is already in flight. */
    method Issue(request: BlockRequest, now: nat) returns (ok: bool)
      modifies this
      ensures ok <==> |old(inFlight)| < capacity && request !in Sent(old(inFlight))
      ensures inFlight == if ok then old(inFlight) + [Issued(request, now)] else old(inFlight)
      ensures |old(inFlight)| <= capacity ==> |inFlight| <= capacity
    {
      var present := Contains(request);
      if !HasSlot() || present {
        return false;
      }
      inFlight := inFlight + [Issued(request, now)];
      ok := true;
    }

    /** Takes out the first entry that matches on piece, offset and length. */
    method Complete(piece: nat, begin: nat, length: nat) returns (r: Option<BlockRequest>)
      modifies this
      ensures var request := BlockRequest(piece, begin, length);
              var i := IndexOf(old(inFlight), request);
              if i < |old(inFlight)|
              then r == Some(request) && inFlight == RemoveAt(old(inFlight), i)
              else r == None && inFlight == old(inFlight)
    {
      var request := BlockRequest(piece, begin, length);
      var i := 0;
      while i < |inFlight| && inFlight[i].request != request
        invariant i <= |inFlight|
        invariant forall j :: 0 <= j < i ==> inFlight[j].request != request
      {
        i := i + 1;
      }
      assert i == IndexOf(inFlight, request);
      if i == |inFlight| {
        return None;
      }
      r := Some(inFlight[i].request);
      inFlight := RemoveAt(inFlight, i);
    }

    method Expired(now: nat) returns (dead: seq<BlockRequest>)
      modifies this
      ensures inFlight == Alive(old(inFlight), now, timeout)
      ensures dead == Sent(Dead(old(inFlight), now, timeout))
    {
      var gone, alive: seq<Issued> := [], [];
      var i := 0;
      while i < |inFlight|
        invariant i <= |inFlight| && inFlight == old(inFlight)
        invariant gone == Dead(inFlight[..i], now, timeout)
        invariant alive == Alive(inFlight[..i], now, timeout)
      {
        assert inFlight[..i + 1][..i] == inFlight[..i];
        if Monus(now, inFlight[i].at) >= timeout {
          gone := gone + [inFlight[i]];
        } else {
          alive := alive + [inFlight[i]];
        }
        i := i + 1;
      }
      assert inFlight[..i] == inFlight;
      inFlight := alive;
      dead := Sent(gone);
    }

    method Drain() returns (all: seq<BlockRequest>)
      modifies this
      ensures inFlight == [] && all == Sent(old(inFlight))
    {
      all := Sent(inFlight);
      inFlight := [];
    }
  }
}
