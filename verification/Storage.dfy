/**
 Pieces laid over a list of files (bt/src/storage.rs). The files, cut to their
 declared lengths and put end to end, are one flat array of `total` bytes; the
 loops over file segments read and write that array.
 */
module Storage {
  import opened Common

  // ------------------------------------------------------------- piece geometry

  function PieceSize(pieceLength: nat, total: nat, index: nat): nat {
    Min(pieceLength, Monus(total, index * pieceLength))
  }

  /** The piece count that an accepted torrent must have. */
  predicate PieceCount(pieceLength: nat, total: nat, pieces: nat) {
    && 0 < pieceLength && 0 < total && 0 < pieces
    && (pieces - 1) * pieceLength < total <= pieces * pieceLength
  }

  function SizeOfFirst(pieceLength: nat, total: nat, n: nat): nat {
    if n == 0 then 0 else SizeOfFirst(pieceLength, total, n - 1) + PieceSize(pieceLength, total, n - 1)
  }

  /** A piece is never empty and ends inside the torrent. */
  lemma PieceInside(pieceLength: nat, total: nat, pieces: nat, index: nat)
    requires PieceCount(pieceLength, total, pieces) && index < pieces
    ensures 0 < PieceSize(pieceLength, total, index) <= pieceLength
    ensures index * pieceLength + PieceSize(pieceLength, total, index) <= total
    ensures PieceSize(pieceLength, total, index) < pieceLength ==> index == pieces - 1
  {
    MulMono(index, pieces - 1, pieceLength);
    if index < pieces - 1 {
      MulMono(index + 1, pieces - 1, pieceLength);
      assert (index + 1) * pieceLength == index * pieceLength + pieceLength;
    }
  }

  /** Two pieces never share a byte. */
  lemma PiecesApart(pieceLength: nat, total: nat, i: nat, j: nat)
    requires i < j
    ensures i * pieceLength + PieceSize(pieceLength, total, i) <= j * pieceLength
  {
    MulMono(i + 1, j, pieceLength);
    assert (i + 1) * pieceLength == i * pieceLength + pieceLength;
  }

  lemma {:induction false} FirstPieces(pieceLength: nat, total: nat, n: nat)
    ensures SizeOfFirst(pieceLength, total, n) == Min(total, n * pieceLength)
  {
    if n > 0 {
      FirstPieces(pieceLength, total, n - 1);
      assert n * pieceLength == (n - 1) * pieceLength + pieceLength;
    }
  }

  /** Piece sizes sum to the total length. */
  lemma PiecesSum(pieceLength: nat, total: nat, pieces: nat)
    requires PieceCount(pieceLength, total, pieces)
    ensures SizeOfFirst(pieceLength, total, pieces) == total
  {
    FirstPieces(pieceLength, total, pieces);
  }

  // ------------------------------------------------------------- the flat array

  /** Where file `n` starts in the flat array. */
  function Start(lengths: seq<nat>, n: nat): nat
    requires n <= |lengths|
  {
    if n == 0 then 0 else Start(lengths, n - 1) + lengths[n - 1]
  }

  /** Files may be longer than declared, never shorter. */
  predicate Allocated(files: seq<seq<byte>>, lengths: seq<nat>) {
    && |files| == |lengths|
    && forall i :: 0 <= i < |files| ==> lengths[i] <= |files[i]|
  }

  function FlatTo(files: seq<seq<byte>>, lengths: seq<nat>, n: nat): (r: seq<byte>)
    requires Allocated(files, lengths) && n <= |files|
    ensures |r| == Start(lengths, n)
  {
    if n == 0 then [] else FlatTo(files, lengths, n - 1) + files[n - 1][..lengths[n - 1]]
  }

  function Flat(files: seq<seq<byte>>, lengths: seq<nat>): (r: seq<byte>)
    requires Allocated(files, lengths)
    ensures |r| == Start(lengths, |lengths|)
  {
    FlatTo(files, lengths, |files|)
  }

  lemma {:induction false} StartMono(lengths: seq<nat>, m: nat, n: nat)
    requires m <= n <= |lengths|
    ensures Start(lengths, m) <= Start(lengths, n)
  {
    if m < n {
      StartMono(lengths, m, n - 1);
    }
  }

  lemma {:induction false} FlatRange(files: seq<seq<byte>>, lengths: seq<nat>, f: nat, offset: nat, length: nat, n: nat)
    requires Allocated(files, lengths) && f < n <= |files| && offset + length <= lengths[f]
    ensures Start(lengths, f) + offset + length <= Start(lengths, n)
    ensures FlatTo(files, lengths, n)[Start(lengths, f) + offset..Start(lengths, f) + offset + length]
         == files[f][offset..offset + length]
  {
    if f < n - 1 {
      FlatRange(files, lengths, f, offset, length, n - 1);
    }
  }

  lemma SpliceParts<T>(a: seq<T>, b: seq<T>, at: nat, d: seq<T>)
    ensures at + |d| <= |a| ==> Splice(a + b, at, d) == Splice(a, at, d) + b
    ensures at + |d| <= |b| ==> Splice(a + b, |a| + at, d) == a + Splice(b, at, d)
  {
    if at + |d| <= |a| {
      assert (a + b)[..at] == a[..at] && (a + b)[at + |d|..] == a[at + |d|..] + b;
    }
    if at + |d| <= |b| {
      assert (a + b)[..|a| + at] == a + b[..at] && (a + b)[|a| + at + |d|..] == b[at + |d|..];
    }
  }

  lemma WriteLastFile(files: seq<seq<byte>>, lengths: seq<nat>, f: nat, offset: nat, d: seq<byte>)
    requires Allocated(files, lengths) && f < |files| && offset + |d| <= lengths[f]
    requires var after := files[f := Splice(files[f], offset, d)];
      Allocated(after, lengths) && FlatTo(after, lengths, f) == FlatTo(files, lengths, f)
    ensures FlatTo(files[f := Splice(files[f], offset, d)], lengths, f + 1)
         == Splice(FlatTo(files, lengths, f + 1), Start(lengths, f) + offset, d)
  {
    var after := files[f := Splice(files[f], offset, d)];
    assert after[f][..lengths[f]] == Splice(files[f][..lengths[f]], offset, d);
    assert FlatTo(after, lengths, f + 1) == FlatTo(files, lengths, f) + Splice(files[f][..lengths[f]], offset, d);
    SpliceParts(FlatTo(files, lengths, f), files[f][..lengths[f]], offset, d);
  }

  lemma WriteEarlierFile(files: seq<seq<byte>>, lengths: seq<nat>, f: nat, offset: nat, d: seq<byte>, n: nat)
    requires Allocated(files, lengths) && f < n - 1 && n <= |files| && offset + |d| <= lengths[f]
    requires Start(lengths, f) + offset + |d| <= Start(lengths, n - 1)
    requires var after := files[f := Splice(files[f], offset, d)];
      Allocated(after, lengths)
      && FlatTo(after, lengths, n - 1) == Splice(FlatTo(files, lengths, n - 1), Start(lengths, f) + offset, d)
    ensures FlatTo(files[f := Splice(files[f], offset, d)], lengths, n)
         == Splice(FlatTo(files, lengths, n), Start(lengths, f) + offset, d)
  {
    SpliceParts(FlatTo(files, lengths, n - 1), files[n - 1][..lengths[n - 1]], Start(lengths, f) + offset, d);
  }

  /** Writing inside one file writes the same bytes at the file's place in the flat array. */
  lemma {:induction false} FlatWrite(files: seq<seq<byte>>, lengths: seq<nat>, f: nat, offset: nat, d: seq<byte>, n: nat)
    requires Allocated(files, lengths) && f < |files| && n <= |files| && offset + |d| <= lengths[f]
    ensures Allocated(files[f := Splice(files[f], offset, d)], lengths)
    ensures f < n ==> Start(lengths, f) + offset + |d| <= Start(lengths, n)
    ensures FlatTo(files[f := Splice(files[f], offset, d)], lengths, n)
         == if f < n then Splice(FlatTo(files, lengths, n), Start(lengths, f) + offset, d) else FlatTo(files, lengths, n)
  {
    if n > 0 {
      FlatWrite(files, lengths, f, offset, d, n - 1);
      if f == n - 1 {
        WriteLastFile(files, lengths, f, offset, d);
      } else if f < n - 1 {
        WriteEarlierFile(files, lengths, f, offset, d, n);
      }
    }
  }

  // ------------------------------------------------------------------- segments

  datatype Segment = Segment(file: nat, offset: nat, length: nat)

  function Length(segments: seq<Segment>): nat {
    if segments == [] then 0 else Length(segments[..|segments| - 1]) + segments[|segments| - 1].length
  }

  lemma {:induction false} LengthMono(segments: seq<Segment>, k: nat)
    requires k <= |segments|
    ensures Length(segments[..k]) <= Length(segments)
    decreases |segments|
  {
    if k == |segments| {
      assert segments[..k] == segments;
    } else {
      var init := segments[..|segments| - 1];
      LengthMono(init, k);
      assert init[..k] == segments[..k];
    }
  }

  /** Segment `k` is a non-empty range of its file, next in the flat array after segments `0..k`. */
  predicate InPlace(lengths: seq<nat>, segments: seq<Segment>, offset: nat, k: nat)
    requires k < |segments|
  {
    var s := segments[k];
    && s.file < |lengths|
    && 0 < s.length && s.offset + s.length <= lengths[s.file]
    && Start(lengths, s.file) + s.offset == offset + Length(segments[..k])
  }

  /** The segments cut `[offset, offset + Length)` of the flat array along file borders. */
  predicate Tiles(lengths: seq<nat>, segments: seq<Segment>, offset: nat) {
    && (forall k :: 0 <= k < |segments| ==> InPlace(lengths, segments, offset, k))
    && (forall j, k :: 0 <= j < k < |segments| ==> segments[j].file < segments[k].file)
  }

  /** Segment by segment: each starts where the one before stopped, in a later file. */
  predicate Chain(lengths: seq<nat>, segments: seq<Segment>, offset: nat)
    decreases |segments|
  {
    if segments == [] then true
    else
      var n := |segments| - 1;
      && Chain(lengths, segments[..n], offset) && InPlace(lengths, segments, offset, n)
      && (n > 0 ==> segments[n - 1].file < segments[n].file)
  }

  lemma {:induction false} ChainTiles(lengths: seq<nat>, segments: seq<Segment>, offset: nat)
    requires Chain(lengths, segments, offset)
    ensures Tiles(lengths, segments, offset)
    decreases |segments|
  {
    if segments != [] {
      var n := |segments| - 1;
      var init := segments[..n];
      ChainTiles(lengths, init, offset);
      forall k | 0 <= k < n ensures InPlace(lengths, segments, offset, k) {
        assert InPlace(lengths, init, offset, k);
        assert init[..k] == segments[..k];
      }
      forall j | 0 <= j < n ensures segments[j].file < segments[n].file {
        assert init[j] == segments[j] && init[n - 1] == segments[n - 1];
      }
      forall j, k | 0 <= j < k < |segments| ensures segments[j].file < segments[k].file {
        assert k < n ==> init[j].file < init[k].file;
      }
    }
  }

  lemma ChainAppend(lengths: seq<nat>, segments: seq<Segment>, s: Segment, offset: nat)
    requires Chain(lengths, segments, offset)
    requires s.file < |lengths| && 0 < s.length && s.offset + s.length <= lengths[s.file]
    requires Start(lengths, s.file) + s.offset == offset + Length(segments)
    requires segments != [] ==> segments[|segments| - 1].file < s.file
    ensures Chain(lengths, segments + [s], offset)
    ensures Length(segments + [s]) == Length(segments) + s.length
  {
    assert (segments + [s])[..|segments|] == segments;
  }

  /** Where the cut of `[offset, offset + length)` stands before file `index`. */
  predicate Cut(lengths: seq<nat>, out: seq<Segment>, offset: nat, length: nat, index: nat, cursor: nat, remaining: nat)
    requires index <= |lengths|
  {
    && cursor == offset + Length(out) && Length(out) + remaining == length
    && (remaining != 0 ==> Start(lengths, index) <= cursor)
    && (out != [] && remaining != 0 ==> cursor == Start(lengths, index))
    && (out != [] ==> cursor <= Start(lengths, |lengths|) && out[|out| - 1].file < index)
    && Chain(lengths, out, offset)
  }

  lemma CutTake(lengths: seq<nat>, out: seq<Segment>, offset: nat, length: nat, index: nat, cursor: nat, remaining: nat, take: nat)
    requires index < |lengths| && Cut(lengths, out, offset, length, index, cursor, remaining)
    requires 0 < take <= remaining && Start(lengths, index) <= cursor && cursor + take <= Start(lengths, index) + lengths[index]
    requires take == remaining || cursor + take == Start(lengths, index) + lengths[index]
    ensures Cut(lengths, out + [Segment(index, cursor - Start(lengths, index), take)], offset, length, index + 1, cursor + take, remaining - take)
  {
    StartMono(lengths, index + 1, |lengths|);
    ChainAppend(lengths, out, Segment(index, cursor - Start(lengths, index), take), offset);
  }

  lemma CutSkip(lengths: seq<nat>, out: seq<Segment>, offset: nat, length: nat, index: nat, cursor: nat, remaining: nat)
    requires index < |lengths| && remaining != 0 && Cut(lengths, out, offset, length, index, cursor, remaining)
    requires cursor >= Start(lengths, index) + lengths[index]
    ensures Cut(lengths, out, offset, length, index + 1, cursor, remaining)
  {}

  /** What file `index` adds to the cut: a segment if the range reaches into it. */
  lemma CutFile(lengths: seq<nat>, out: seq<Segment>, offset: nat, length: nat, index: nat, cursor: nat, remaining: nat, fileStart: nat)
    requires index < |lengths| && fileStart == Start(lengths, index) && remaining != 0
    requires Cut(lengths, out, offset, length, index, cursor, remaining) == true
    ensures var fileEnd := fileStart + lengths[index];
            var take := Min(remaining, fileEnd - cursor);
      && fileEnd == Start(lengths, index + 1) && fileStart <= cursor
      && if cursor < fileEnd then
           Cut(lengths, out + [Segment(index, cursor - fileStart, take)], offset, length, index + 1, cursor + take, remaining - take) == true
         else Cut(lengths, out, offset, length, index + 1, cursor, remaining) == true
  {
    if cursor < fileStart + lengths[index] {
      CutTake(lengths, out, offset, length, index, cursor, remaining, Min(remaining, fileStart + lengths[index] - cursor));
    } else {
      CutSkip(lengths, out, offset, length, index, cursor, remaining);
    }
  }

  lemma CutDone(lengths: seq<nat>, out: seq<Segment>, offset: nat, length: nat, index: nat, cursor: nat, remaining: nat)
    requires index <= |lengths| && Cut(lengths, out, offset, length, index, cursor, remaining)
    requires index == |lengths| || remaining == 0
    ensures Tiles(lengths, out, offset) && Length(out) == Min(length, Monus(Start(lengths, |lengths|), offset))
  {
    ChainTiles(lengths, out, offset);
  }

  /** What one segment of a cut reads from its file. */
  lemma SegmentBytes(files: seq<seq<byte>>, lengths: seq<nat>, segments: seq<Segment>, offset: nat, i: nat)
    requires Allocated(files, lengths) && Tiles(lengths, segments, offset) && i < |segments|
    ensures var s, at := segments[i], offset + Length(segments[..i]);
      && s.file < |lengths| && s.offset + s.length <= |files[s.file]|
      && Length(segments[..i + 1]) == Length(segments[..i]) + s.length <= Length(segments)
      && at + s.length <= |Flat(files, lengths)|
      && Flat(files, lengths)[at..at + s.length] == files[s.file][s.offset..s.offset + s.length]
  {
    assert InPlace(lengths, segments, offset, i);
    assert segments[..i + 1][..i] == segments[..i];
    LengthMono(segments, i + 1);
    FlatRange(files, lengths, segments[i].file, segments[i].offset, segments[i].length, |files|);
  }

  datatype IoError = PastEnd | Device

  class Storage {
    const lengths: seq<nat>
    const pieceLength: nat
    const total: nat
    var files: seq<seq<byte>>

    ghost predicate Valid()
      reads this
    {
      Allocated(files, lengths) && total == Start(lengths, |lengths|)
    }

    /** The torrent's bytes as one array. */
    ghost function Image(): (r: seq<byte>)
      requires Valid()
      reads this
      ensures |r| == total
    {
      Flat(files, lengths)
    }

    /** Missing or short files are extended with zeros; nothing is truncated. */
    constructor (lengths: seq<nat>, pieceLength: nat, found: seq<seq<byte>>)
      requires |found| == |lengths|
      ensures this.lengths == lengths && this.pieceLength == pieceLength
      ensures Valid()
      ensures forall i :: 0 <= i < |found| ==>
        |files[i]| == (if |found[i]| < lengths[i] then lengths[i] else |found[i]|) && found[i] <= files[i]
      ensures forall i, j :: 0 <= i < |found| && |found[i]| <= j < |files[i]| ==> files[i][j] == 0
    {
      this.lengths := lengths;
      this.pieceLength := pieceLength;
      this.total := Start(lengths, |lengths|);
      files := found;
      new;
      for i := 0 to |found|
        invariant |files| == |found|
        invariant forall j :: i <= j < |found| ==> files[j] == found[j]
        invariant forall j :: 0 <= j < i ==> found[j] <= files[j]
        invariant forall j, k :: 0 <= j < i && |found[j]| <= k < |files[j]| ==> files[j][k] == 0
        invariant forall j :: 0 <= j < i ==> |files[j]| == if |found[j]| < lengths[j] then lengths[j] else |found[j]|
      {
        if |files[i]| < lengths[i] {
          files := files[i := files[i] + seq(lengths[i] - |files[i]|, _ => 0)];
        }
      }
    }

    /** The cut of any range, even one that runs past the end. */
    method Segments(offset: nat, length: nat) returns (out: seq<Segment>)
      ensures Tiles(lengths, out, offset)
      ensures Length(out) == Min(length, Monus(Start(lengths, |lengths|), offset))
    {
      out := [];
      var remaining: nat, cursor: nat, fileStart: nat := length, offset, 0;
      var index := 0;
      while index < |lengths| && remaining != 0
        invariant index <= |lengths| && fileStart == Start(lengths, index)
        invariant Cut(lengths, out, offset, length, index, cursor, remaining) == true  // one fact for the solver
      {
        CutFile(lengths, out, offset, length, index, cursor, remaining, fileStart);
        var fileEnd := fileStart + lengths[index];
        if cursor < fileEnd {
          var take := Min(remaining, fileEnd - cursor);
          out := out + [Segment(index, cursor - fileStart, take)];
          cursor := cursor + take;
          remaining := remaining - take;
        }
        fileStart := fileEnd;
        index := index + 1;
      }
      CutDone(lengths, out, offset, length, index, cursor, remaining);
    }

    /** The bytes of each file past its declared length, and all file sizes, are as in `was`. */
    ghost predicate TailsKept(was: seq<seq<byte>>)
      reads this
    {
      && |files| == |was| == |lengths|
      && forall i :: 0 <= i < |files| ==> lengths[i] <= |files[i]| == |was[i]| && files[i][lengths[i]..] == was[i][lengths[i]..]
    }

    method WriteInFile(file: nat, offset: nat, chunk: seq<byte>)
      requires Valid() && file < |lengths| && offset + |chunk| <= lengths[file]
      modifies this
      ensures Valid() && TailsKept(old(files))
      ensures Start(lengths, file) + offset + |chunk| <= total
      ensures Image() == Splice(old(Image()), Start(lengths, file) + offset, chunk)
    {
      FlatWrite(files, lengths, file, offset, chunk, |files|);
      files := files[file := Splice(files[file], offset, chunk)];
    }

    /** With `data[..written]` already in place, puts `data[written..upTo]` where it belongs. */
    method WriteNext(file: nat, inside: nat, offset: nat, data: seq<byte>, written: nat, upTo: nat, ghost before: seq<byte>)
      requires Valid() && written <= upTo <= |data| && |before| == total && offset + |data| <= total
      requires file < |lengths| && inside + (upTo - written) <= lengths[file]
      requires Start(lengths, file) + inside == offset + written
      requires Image() == Splice(before, offset, data[..written])
      modifies this
      ensures Valid() && TailsKept(old(files))
      ensures Image() == Splice(before, offset, data[..upTo])
    {
      WriteInFile(file, inside, data[written..upTo]);
      SpliceSplice(before, offset, data[..written], data[written..upTo]);
      assert data[..written] + data[written..upTo] == data[..upTo];
    }

    /**
     Writes `data` into a piece. `fault` is the device: `Some(k)` takes only the
     first `k` bytes and then fails.
     */
    method WriteBlock(piece: nat, begin: nat, data: seq<byte>, fault: Option<nat>) returns (r: Result<(), IoError>)
      requires Valid()
      modifies this
      ensures Valid() && TailsKept(old(files))
      ensures var offset := piece * pieceLength + begin;
              if offset + |data| > total then r == Err(PastEnd) && Image() == old(Image())
              else if fault.Some? && fault.value < |data| then
                r == Err(Device) && Image() == Splice(old(Image()), offset, data[..fault.value])
              else r == Ok(()) && Image() == Splice(old(Image()), offset, data)
    {
      var offset := piece * pieceLength + begin;
      if offset + |data| > total {
        return Err(PastEnd);
      }
      var written := 0;
      ghost var before := Image();
      var segments := Segments(offset, |data|);
      assert before == Splice(before, offset, data[..0]);
      for i := 0 to |segments|
        invariant Valid() && TailsKept(old(files))
        invariant written == Length(segments[..i]) <= |data|
        invariant fault.Some? && fault.value < |data| ==> written <= fault.value
        invariant Image() == Splice(before, offset, data[..written])
      {
        var segment := segments[i];
        assert InPlace(lengths, segments, offset, i);
        assert segments[..i + 1][..i] == segments[..i];
        LengthMono(segments, i + 1);
        var failing := fault.Some? && fault.value < written + segment.length;
        var upTo := if failing then fault.value else written + segment.length;
        WriteNext(segment.file, segment.offset, offset, data, written, upTo, before);
        if failing {
          return Err(Device);
        }
        written := upTo;
      }
      assert segments[..|segments|] == segments;
      assert data[..written] == data;
      r := Ok(());
    }

    method ReadBlock(piece: nat, begin: nat, length: nat) returns (r: Result<seq<byte>, IoError>)
      requires Valid()
      ensures var offset := piece * pieceLength + begin;
              r == if offset + length > total then Err(PastEnd) else Ok(Image()[offset..offset + length])
    {
      var offset := piece * pieceLength + begin;
      if offset + length > total {
        return Err(PastEnd);
      }
      var out: seq<byte> := [];
      var segments := Segments(offset, length);
      for i := 0 to |segments|
        invariant |out| == Length(segments[..i]) <= length
        invariant out == Image()[offset..offset + |out|]
      {
        var segment := segments[i];
        SegmentBytes(files, lengths, segments, offset, i);
        assert Image()[offset..offset + |out| + segment.length]
            == Image()[offset..offset + |out|] + Image()[offset + |out|..offset + |out| + segment.length];
        out := out + files[segment.file][segment.offset..segment.offset + segment.length];
      }
      assert segments[..|segments|] == segments;
      r := Ok(out);
    }

    method ReadPiece(piece: nat) returns (r: Result<seq<byte>, IoError>)
      requires Valid()
      ensures var size := PieceSize(pieceLength, total, piece);
              var offset := piece * pieceLength;
              r == if offset + size > total then Err(PastEnd) else Ok(Image()[offset..offset + size])
    {
      r := ReadBlock(piece, 0, PieceSize(pieceLength, total, piece));
    }
  }
}
