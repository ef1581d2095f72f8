/** The resume file (bt/src/resume.rs): the saved bitfield, bound to its torrent. */
module Resume {
  import opened Common
  import opened Bencode
  import opened BencodeProofs
  import opened Pieces
  import BencodeParser
  import Wire

  const HASH: seq<byte> := [104, 97, 115, 104]
  const HAVE: seq<byte> := [104, 97, 118, 101]
  const PIECES: seq<byte> := [112, 105, 101, 99, 101, 115]

  function Saved(infoHash: seq<byte>, have: set<nat>, pieces: nat): seq<Entry> {
    [Entry(HASH, Bytes(infoHash)), Entry(HAVE, Bytes(Wire.ToBytes(Pack(have, pieces)))), Entry(PIECES, Int(pieces))]
  }

  method Save(infoHash: seq<byte>, have: Bitfield) returns (file: seq<byte>)
    requires have.Valid()
    ensures file == Encode(Dict(Saved(infoHash, have.Contents(), have.pieces)))
  {
    PackMembers(have.Contents(), have.pieces);
    PackingUnique(Pack(have.Contents(), have.pieces), have.bits[..], have.pieces);
    var top: seq<Entry> := Insert([], Entry(HASH, Bytes(infoHash)));
    InsertLast(top, Entry(HAVE, Bytes(Wire.ToBytes(have.bits[..]))));
    top := Insert(top, Entry(HAVE, Bytes(Wire.ToBytes(have.bits[..]))));
    InsertLast(top, Entry(PIECES, Int(have.pieces)));
    top := Insert(top, Entry(PIECES, Int(have.pieces)));
    assert top == Saved(infoHash, have.Contents(), have.pieces);
    file := BencodeParser.EncodeInto(Dict(top), []);
  }

  /** The pieces a file claims, if it is the file of this torrent. */
  function Load(file: seq<byte>, infoHash: seq<byte>, pieces: nat): Option<set<nat>> {
    match Decode(file, true)
    case Ok(Dict(top)) =>
      if Lookup(top, HASH) != Some(Bytes(infoHash)) || Lookup(top, PIECES) != Some(Int(pieces)) then None
      else
        (match Lookup(top, HAVE)
         case Some(Bytes(bits)) =>
           (match ParseBits(Wire.FromBytes(bits), pieces)
            case Ok(have) => Some(have)
            case Err(_) => None)
         case _ => None)
    case _ => None
  }

  lemma SavedLookup(infoHash: seq<byte>, have: set<nat>, pieces: nat)
    ensures var top := Saved(infoHash, have, pieces);
      && Lookup(top, HASH) == Some(Bytes(infoHash)) && Lookup(top, PIECES) == Some(Int(pieces))
      && Lookup(top, HAVE) == Some(Bytes(Wire.ToBytes(Pack(have, pieces))))
  {
    var top := Saved(infoHash, have, pieces);
    assert HASH[2] != HAVE[2] && HASH[0] != PIECES[0] && HAVE[0] != PIECES[0];
    assert Lookup(top, HAVE) == Lookup(top[1..], HAVE);
    assert Lookup(top, PIECES) == Lookup(top[1..], PIECES) == Lookup(top[1..][1..], PIECES);
  }

  lemma SavedDecodes(infoHash: seq<byte>, have: set<nat>, pieces: nat)
    requires |infoHash| < U64 && pieces < U32
    ensures Decode(Encode(Dict(Saved(infoHash, have, pieces))), true) == Ok(Dict(Saved(infoHash, have, pieces)))
  {
    var v := Dict(Saved(infoHash, have, pieces));
    assert Valid(v) && Fits(v, MAX_DEPTH);
    DecodeIff(Encode(v), v);
  }

  /** A saved bitfield is read back exactly when the torrent and its piece count are the ones it was saved for. */
  lemma SaveLoadIff(infoHash: seq<byte>, have: set<nat>, pieces: nat, other: seq<byte>, count: nat)
    requires |infoHash| < U64 && pieces < U32 && have <= Below(pieces)
    ensures Load(Encode(Dict(Saved(infoHash, have, pieces))), other, count)
         == if other == infoHash && count == pieces then Some(have) else None
  {
    SavedDecodes(infoHash, have, pieces);
    SavedLookup(infoHash, have, pieces);
    Wire.BitsBack(Pack(have, pieces));
    PackParses(have, pieces);
  }

  /**
   A file loads as `have` exactly if it is the canonical encoding of a dictionary that holds this torrent's
   hash, its piece count and the packed form of `have`, whatever else it holds.
   */
  lemma LoadIff(file: seq<byte>, infoHash: seq<byte>, pieces: nat, have: set<nat>)
    ensures Load(file, infoHash, pieces) == Some(have)
       <==> exists top ::
              && file == Encode(Dict(top)) && Valid(Dict(top)) && Fits(Dict(top), MAX_DEPTH)
              && Lookup(top, HASH) == Some(Bytes(infoHash)) && Lookup(top, PIECES) == Some(Int(pieces))
              && have <= Below(pieces) && Lookup(top, HAVE) == Some(Bytes(Wire.ToBytes(Pack(have, pieces))))
  {
    if Load(file, infoHash, pieces) == Some(have) {
      var top := Decode(file, true).value.entries;
      DecodeIff(file, Dict(top));
      LoadedBits(Lookup(top, HAVE).value.bytes, pieces, have);
    }
    if top :| && file == Encode(Dict(top)) && Valid(Dict(top)) && Fits(Dict(top), MAX_DEPTH)
              && Lookup(top, HASH) == Some(Bytes(infoHash)) && Lookup(top, PIECES) == Some(Int(pieces))
              && have <= Below(pieces) && Lookup(top, HAVE) == Some(Bytes(Wire.ToBytes(Pack(have, pieces))))
    {
      DecodeIff(file, Dict(top));
      Wire.BitsBack(Pack(have, pieces));
      PackParses(have, pieces);
    }
  }

  lemma LoadedBits(bytes: seq<byte>, pieces: nat, have: set<nat>)
    requires ParseBits(Wire.FromBytes(bytes), pieces) == Ok(have)
    ensures have <= Below(pieces) && bytes == Wire.ToBytes(Pack(have, pieces))
  {
    var bits := Wire.FromBytes(bytes);
    ParseBitsIff(bits, pieces);
    forall i | i in have ensures i in Below(pieces) {
      assert Within(i, pieces);
    }
    PackMembers(have, pieces);
    PackingUnique(bits, Pack(have, pieces), pieces);
    Wire.BytesBack(bytes);
  }
}
