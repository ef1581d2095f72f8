/**
 The have-bitfield, packed eight pieces to a byte, and the count of peers
 that have each piece (bt/src/pieces.rs).
 */
module Pieces {
  import opened Common

  // ------------------------------------------------------------------- one byte

  /** The bit of piece `k` of a byte: the high bit comes first. */
  function Mask(k: nat): bv8
    requires k < 8
  {
    (0x80 as bv8) >> k
  }

  lemma MaskValues()
    ensures Mask(0) == 0x80 && Mask(1) == 0x40 && Mask(2) == 0x20 && Mask(3) == 0x10
    ensures Mask(4) == 0x08 && Mask(5) == 0x04 && Mask(6) == 0x02 && Mask(7) == 0x01
  {}

  predicate Bit(b: bv8, k: nat)
    requires k < 8
  {
    b & Mask(k) != 0
  }

  lemma BitAfterSet(b: bv8, k: nat, j: nat)
    requires k < 8 && j < 8
    ensures Bit(b | Mask(k), j) <==> j == k || Bit(b, j)
  {
    MaskValues();
  }

  lemma BitAfterClear(b: bv8, k: nat, j: nat)
    requires k < 8 && j < 8
    ensures Bit(b & !Mask(k), j) <==> j != k && Bit(b, j)
  {
    MaskValues();
  }

  function One(c: bool): nat {
    if c then 1 else 0
  }

  /** The set bits among the first `k` of a byte; all eight make `u8::count_ones`. */
  function OnesIn(b: bv8, k: nat): nat
    requires k <= 8
  {
    if k == 0 then 0 else OnesIn(b, k - 1) + One(Bit(b, k - 1))
  }

  /** The spare low bits of the last byte: `(1 << spare) - 1`. */
  function SpareMask(spare: nat): bv8
    requires spare < 8
  {
    ((1 as bv8) << spare) - 1
  }

  lemma SpareMaskBits(b: bv8, spare: nat)
    requires spare < 8
    ensures b & SpareMask(spare) == 0 <==> forall k :: 8 - spare <= k < 8 ==> !Bit(b, k)
  {
    MaskValues();
    assert SpareMask(0) == 0 && SpareMask(1) == 1 && SpareMask(2) == 3 && SpareMask(3) == 7;
    assert SpareMask(4) == 15 && SpareMask(5) == 31 && SpareMask(6) == 63 && SpareMask(7) == 127;
    assert b & SpareMask(spare) == 0 ==> forall k :: 8 - spare <= k < 8 ==> !Bit(b, k);
    if forall k :: 8 - spare <= k < 8 ==> !Bit(b, k) {
      assert spare >= 1 ==> !Bit(b, 7);
      assert spare >= 2 ==> !Bit(b, 6);
      assert spare >= 3 ==> !Bit(b, 5);
      assert spare >= 4 ==> !Bit(b, 4);
      assert spare >= 5 ==> !Bit(b, 3);
      assert spare >= 6 ==> !Bit(b, 2);
      assert spare >= 7 ==> !Bit(b, 1);
    }
  }

  // --------------------------------------------------------------- packed bytes

  function BytesFor(pieces: nat): nat {
    (pieces + 7) / 8
  }

  predicate HasBit(bits: seq<bv8>, i: nat) {
    i / 8 < |bits| && Bit(bits[i / 8], i % 8)
  }

  /** The set of piece indices that packed bytes stand for. */
  function Members(bits: seq<bv8>, pieces: nat): set<nat> {
    set i: nat | 0 <= i < pieces && HasBit(bits, i)
  }

  /** Right length, and every spare bit zero. */
  predicate WellFormed(bits: seq<bv8>, pieces: nat) {
    && |bits| == BytesFor(pieces)
    && forall i: nat :: pieces <= i < 8 * |bits| ==> !HasBit(bits, i)
  }

  datatype BitfieldError = WrongLength | SpareBitsSet

  function SpareCount(pieces: nat): nat {
    (8 - pieces % 8) % 8
  }

  /** What `Bitfield::from_bytes` makes of a peer's bytes. */
  function ParseBits(bytes: seq<bv8>, pieces: nat): Result<set<nat>, BitfieldError> {
    if |bytes| != BytesFor(pieces) then Err(WrongLength)
    else
      var spare := SpareCount(pieces);
      if spare > 0 && bytes[|bytes| - 1] & SpareMask(spare) != 0 then Err(SpareBitsSet)
      else Ok(Members(bytes, pieces))
  }

  /** Testing the last byte against the mask tests every bit behind the last piece. */
  lemma SpareBits(bytes: seq<bv8>, pieces: nat)
    requires |bytes| == BytesFor(pieces) && SpareCount(pieces) > 0
    ensures bytes[|bytes| - 1] & SpareMask(SpareCount(pieces)) == 0 <==> WellFormed(bytes, pieces)
  {
    var n, spare := |bytes| - 1, SpareCount(pieces);
    SpareMaskBits(bytes[n], spare);
    assert pieces == 8 * n + 8 - spare;
    if forall k :: 8 - spare <= k < 8 ==> !Bit(bytes[n], k) {
      forall i: nat | pieces <= i < 8 * |bytes| ensures !HasBit(bytes, i) {
        assert i / 8 == n && i % 8 == i - 8 * n;
      }
    } else {
      var k :| 8 - spare <= k < 8 && Bit(bytes[n], k);
      assert (8 * n + k) / 8 == n && (8 * n + k) % 8 == k;
      assert HasBit(bytes, 8 * n + k);
    }
  }

  /** Accepted are exactly the well-formed byte strings. */
  lemma ParseBitsIff(bytes: seq<bv8>, pieces: nat)
    ensures ParseBits(bytes, pieces).Ok? <==> WellFormed(bytes, pieces)
    ensures ParseBits(bytes, pieces).Ok? ==> ParseBits(bytes, pieces).value == Members(bytes, pieces)
  {
    if |bytes| == BytesFor(pieces) {
      if SpareCount(pieces) > 0 {
        SpareBits(bytes, pieces);
      } else {
        assert 8 * |bytes| == pieces;
      }
    }
  }

  lemma {:induction false} SameBits(a: seq<bv8>, b: seq<bv8>, n: nat)
    requires |a| == |b| && n < |a|
    requires forall i: nat :: i < 8 * |a| ==> (HasBit(a, i) <==> HasBit(b, i))
    ensures a[n] == b[n]
  {
    forall k | 0 <= k < 8 ensures Bit(a[n], k) <==> Bit(b[n], k) {
      assert (8 * n + k) / 8 == n && (8 * n + k) % 8 == k;
      assert HasBit(a, 8 * n + k) <==> HasBit(b, 8 * n + k);
    }
    MaskValues();
    assert Bit(a[n], 0) <==> Bit(b[n], 0);
    assert Bit(a[n], 1) <==> Bit(b[n], 1);
    assert Bit(a[n], 2) <==> Bit(b[n], 2);
    assert Bit(a[n], 3) <==> Bit(b[n], 3);
    assert Bit(a[n], 4) <==> Bit(b[n], 4);
    assert Bit(a[n], 5) <==> Bit(b[n], 5);
    assert Bit(a[n], 6) <==> Bit(b[n], 6);
    assert Bit(a[n], 7) <==> Bit(b[n], 7);
  }

  /** Packing is canonical: a set of pieces has one well-formed byte string. */
  lemma PackingUnique(a: seq<bv8>, b: seq<bv8>, pieces: nat)
    requires WellFormed(a, pieces) && WellFormed(b, pieces)
    requires Members(a, pieces) == Members(b, pieces)
    ensures a == b
  {
    forall i: nat | i < 8 * |a| ensures HasBit(a, i) <==> HasBit(b, i) {
      if i < pieces {
        assert i in Members(a, pieces) <==> HasBit(a, i);
        assert i in Members(b, pieces) <==> HasBit(b, i);
      }
    }
    forall n | 0 <= n < |a| ensures a[n] == b[n] {
      SameBits(a, b, n);
    }
  }

  predicate Within(i: nat, pieces: nat) {
    i < pieces
  }

  function Below(pieces: nat): set<nat> {
    set i: nat | 0 <= i < pieces && Within(i, pieces)
  }

  /** The byte of the pieces from `base` on, with its first `k` bits set as they should be. */
  function PackByte(have: set<nat>, base: nat, k: nat): bv8
    requires k <= 8
  {
    if k == 0 then 0
    else if base + k - 1 in have then PackByte(have, base, k - 1) | Mask(k - 1)
    else PackByte(have, base, k - 1)
  }

  /** The packed bytes of a set of pieces, as sent to a peer. */
  function Pack(have: set<nat>, pieces: nat): seq<bv8> {
    seq(BytesFor(pieces), (k: nat) => PackByte(have, 8 * k, 8))
  }

  lemma {:induction false} PackByteBit(have: set<nat>, base: nat, k: nat, j: nat)
    requires k <= 8 && j < 8
    ensures Bit(PackByte(have, base, k), j) <==> j < k && base + j in have
  {
    if k == 0 {
      NoBit(j);
    } else {
      PackByteBit(have, base, k - 1, j);
      BitAfterSet(PackByte(have, base, k - 1), k - 1, j);
    }
  }

  lemma NoBit(j: nat)
    requires j < 8
    ensures !Bit(0, j)
  {}

  lemma PackMembers(have: set<nat>, pieces: nat)
    requires have <= Below(pieces)
    ensures WellFormed(Pack(have, pieces), pieces) && Members(Pack(have, pieces), pieces) == have
  {
    var bits := Pack(have, pieces);
    forall i: nat | i < 8 * |bits| ensures HasBit(bits, i) <==> i in have {
      PackByteBit(have, 8 * (i / 8), 8, i % 8);
    }
  }

  /** What is sent reads back as the same set. */
  lemma PackParses(have: set<nat>, pieces: nat)
    requires have <= Below(pieces)
    ensures ParseBits(Pack(have, pieces), pieces) == Ok(have)
  {
    PackMembers(have, pieces);
    ParseBitsIff(Pack(have, pieces), pieces);
  }

  function Ones(bits: seq<bv8>): nat {
    if bits == [] then 0 else Ones(bits[..|bits| - 1]) + OnesIn(bits[|bits| - 1], 8)
  }

  lemma MembersStep(bits: seq<bv8>, i: nat)
    ensures |Members(bits, i + 1)| == |Members(bits, i)| + One(HasBit(bits, i))
  {
    if HasBit(bits, i) {
      assert Members(bits, i + 1) == Members(bits, i) + {i};
    } else {
      assert Members(bits, i + 1) == Members(bits, i);
    }
  }

  lemma {:induction false} ByteCount(bits: seq<bv8>, m: nat, k: nat)
    requires m < |bits| && k <= 8
    ensures |Members(bits, 8 * m + k)| == |Members(bits, 8 * m)| + OnesIn(bits[m], k)
  {
    if k > 0 {
      ByteCount(bits, m, k - 1);
      MembersStep(bits, 8 * m + k - 1);
      assert (8 * m + k - 1) / 8 == m && (8 * m + k - 1) % 8 == k - 1;
    }
  }

  lemma {:induction false} OnesCount(bits: seq<bv8>, n: nat)
    requires n <= |bits|
    ensures Ones(bits[..n]) == |Members(bits, 8 * n)|
  {
    if n == 0 {
      assert Members(bits, 0) == {};
    } else {
      OnesCount(bits, n - 1);
      ByteCount(bits, n - 1, 8);
      assert bits[..n][..n - 1] == bits[..n - 1];
    }
  }

  /** Without spare bits the population count is the number of pieces held. */
  lemma PopulationIsSize(bits: seq<bv8>, pieces: nat)
    requires WellFormed(bits, pieces)
    ensures Ones(bits) == |Members(bits, pieces)|
  {
    OnesCount(bits, |bits|);
    assert bits[..|bits|] == bits;
    assert Members(bits, 8 * |bits|) == Members(bits, pieces);
  }

  lemma {:induction false} BelowSize(pieces: nat)
    ensures |Below(pieces)| == pieces
  {
    if pieces == 0 {
      assert Below(0) == {};
    } else {
      BelowSize(pieces - 1);
      assert Below(pieces) == Below(pieces - 1) + {pieces - 1};
    }
  }

  lemma SubsetSize<T>(a: set<T>, b: set<T>)
    requires a <= b
    ensures |a| <= |b| && (|a| == |b| ==> a == b)
  {
    assert b == a + (b - a);
    if a != b {
      var x :| x in b - a;
      assert |b - a| > 0;
    }
  }

  /** A set of pieces is complete, by count, exactly when nothing is missing. */
  lemma CompleteIff(have: set<nat>, pieces: nat)
    requires have <= Below(pieces)
    ensures |have| == pieces <==> have == Below(pieces)
    ensures have == Below(pieces) <==> Below(pieces) - have == {}
  {
    BelowSize(pieces);
    SubsetSize(have, Below(pieces));
    if Below(pieces) - have == {} {
      forall i | i in Below(pieces) ensures i in have {
        assert i !in Below(pieces) - have;
      }
    }
  }

  class Bitfield {
    const pieces: nat
    const bits: array<bv8>

    ghost predicate Valid()
      reads bits
    {
      WellFormed(bits[..], pieces)
    }

    ghost function Contents(): (r: set<nat>)
      reads bits
      ensures r <= Below(pieces)
    {
      Members(bits[..], pieces)
    }

    constructor (pieces: nat)
      ensures this.pieces == pieces && fresh(bits)
      ensures Valid() && Contents() == {}
    {
      this.pieces := pieces;
      bits := new bv8[BytesFor(pieces)](_ => 0);
    }

    constructor FromPacked(bytes: seq<bv8>, pieces: nat)
      requires WellFormed(bytes, pieces)
      ensures this.pieces == pieces && fresh(bits) && bits[..] == bytes
      ensures Valid() && Contents() == Members(bytes, pieces)
    {
      this.pieces := pieces;
      bits := new bv8[|bytes|](i requires 0 <= i < |bytes| => bytes[i]);
      new;
      assert bits[..] == bytes;
    }

    static method FromBytes(bytes: seq<bv8>, pieces: nat) returns (r: Result<Bitfield, BitfieldError>)
      ensures r.Ok? <==> ParseBits(bytes, pieces).Ok?
      ensures r.Err? ==> ParseBits(bytes, pieces) == Err(r.error)
      ensures r.Ok? ==> fresh(r.value) && fresh(r.value.bits) && r.value.pieces == pieces && r.value.Valid()
      ensures r.Ok? ==> r.value.bits[..] == bytes && ParseBits(bytes, pieces) == Ok(r.value.Contents())
    {
      ParseBitsIff(bytes, pieces);
      if |bytes| != BytesFor(pieces) {
        return Err(WrongLength);
      }
      var spare := SpareCount(pieces);
      if spare > 0 {
        var last := bytes[|bytes| - 1];
        if last & SpareMask(spare) != 0 {
          return Err(SpareBitsSet);
        }
      }
      var b := new Bitfield.FromPacked(bytes, pieces);
      r := Ok(b);
    }

    method Has(index: nat) returns (r: bool)
      requires Valid()
      ensures r <==> index in Contents()
    {
      if index >= pieces {
        return false;
      }
      r := Bit(bits[index / 8], index % 8);
    }

    method Set(index: nat)
      requires Valid()
      modifies bits
      ensures Valid()
      ensures Contents() == old(Contents()) + (if index < pieces then {index} else {})
    {
      if index < pieces {
        bits[index / 8] := bits[index / 8] | Mask(index % 8);
        SetMembers(old(bits[..]), bits[..], index);
      }
    }

    method Clear(index: nat)
      requires Valid()
      modifies bits
      ensures Valid()
      ensures Contents() == old(Contents()) - {index}
    {
      if index < pieces {
        bits[index / 8] := bits[index / 8] & !Mask(index % 8);
        ClearMembers(old(bits[..]), bits[..], index);
      }
    }

    method CountSet() returns (n: nat)
      requires Valid()
      ensures n == |Contents()|
    {
      n := 0;
      for i := 0 to bits.Length
        invariant n == Ones(bits[..i])
      {
        assert bits[..i + 1][..i] == bits[..i];
        n := n + OnesIn(bits[i], 8);
      }
      assert bits[..bits.Length] == bits[..];
      PopulationIsSize(bits[..], pieces);
    }

    method IsComplete() returns (r: bool)
      requires Valid()
      ensures r <==> Contents() == Below(pieces)
    {
      var n := CountSet();
      r := n == pieces;
      CompleteIff(Contents(), pieces);
    }

    /** The pieces not held, in ascending order. */
    method Missing() returns (out: seq<nat>)
      requires Valid()
      ensures forall i :: i in out <==> i in Below(pieces) - Contents()
      ensures forall i, j :: 0 <= i < j < |out| ==> out[i] < out[j]
    {
      out := [];
      for index := 0 to pieces
        invariant forall i :: i in out <==> i < index && i in Below(pieces) - Contents()
        invariant forall j :: 0 <= j < |out| ==> out[j] < index
        invariant forall i, j :: 0 <= i < j < |out| ==> out[i] < out[j]
      {
        var has := Has(index);
        if !has {
          out := out + [index];
        }
      }
    }
  }

  lemma SamePlace(i: nat, j: nat)
    requires i / 8 == j / 8
    ensures i % 8 == j % 8 <==> i == j
  {
    assert i == i / 8 * 8 + i % 8 && j == j / 8 * 8 + j % 8;
  }

  lemma SetMembers(was: seq<bv8>, now: seq<bv8>, index: nat)
    requires index / 8 < |was| && now == was[index / 8 := was[index / 8] | Mask(index % 8)]
    ensures forall i: nat :: HasBit(now, i) <==> i == index || HasBit(was, i)
  {
    forall i: nat ensures HasBit(now, i) <==> i == index || HasBit(was, i) {
      if i / 8 == index / 8 {
        BitAfterSet(was[index / 8], index % 8, i % 8);
        SamePlace(i, index);
      }
    }
  }

  lemma ClearMembers(was: seq<bv8>, now: seq<bv8>, index: nat)
    requires index / 8 < |was| && now == was[index / 8 := was[index / 8] & !Mask(index % 8)]
    ensures forall i: nat :: HasBit(now, i) <==> i != index && HasBit(was, i)
  {
    forall i: nat ensures HasBit(now, i) <==> i != index && HasBit(was, i) {
      if i / 8 == index / 8 {
        BitAfterClear(was[index / 8], index % 8, i % 8);
        SamePlace(i, index);
      }
    }
  }

  // --------------------------------------------------------------- availability

  function AddHave(counts: seq<nat>, index: nat): seq<nat> {
    if index < |counts| then counts[index := counts[index] + 1] else counts
  }

  function AddBitfield(counts: seq<nat>, has: set<nat>): seq<nat> {
    seq(|counts|, i requires 0 <= i < |counts| => if i in has then counts[i] + 1 else counts[i])
  }

  function RemoveBitfield(counts: seq<nat>, has: set<nat>): seq<nat> {
    seq(|counts|, i requires 0 <= i < |counts| => if i in has then Monus(counts[i], 1) else counts[i])
  }

  function CountAt(counts: seq<nat>, index: nat): nat {
    if index < |counts| then counts[index] else 0
  }

  class Availability {
    var counts: seq<nat>

    constructor (pieces: nat)
      ensures counts == seq(pieces, _ => 0)
    {
      counts := seq(pieces, _ => 0);
    }

    method Have(index: nat)
      modifies this
      ensures counts == AddHave(old(counts), index)
    {
      if index < |counts| {
        counts := counts[index := counts[index] + 1];
      }
    }

    method Add(bitfield: Bitfield)
      requires bitfield.Valid()
      modifies this
      ensures counts == AddBitfield(old(counts), bitfield.Contents())
    {
      for index := 0 to bitfield.pieces
        invariant |counts| == |old(counts)|
        invariant forall i :: 0 <= i < |counts| ==>
          counts[i] == if i < index && i in bitfield.Contents() then old(counts)[i] + 1 else old(counts)[i]
      {
        var has := bitfield.Has(index);
        if has {
          Have(index);
        }
      }
    }

    method Remove(bitfield: Bitfield)
      requires bitfield.Valid()
      modifies this
      ensures counts == RemoveBitfield(old(counts), bitfield.Contents())
    {
      for index := 0 to bitfield.pieces
        invariant |counts| == |old(counts)|
        invariant forall i :: 0 <= i < |counts| ==>
          counts[i] == if i < index && i in bitfield.Contents() then Monus(old(counts)[i], 1) else old(counts)[i]
      {
        var has := bitfield.Has(index);
        if has && index < |counts| {
          counts := counts[index := Monus(counts[index], 1)];
        }
      }
    }
  }
}
