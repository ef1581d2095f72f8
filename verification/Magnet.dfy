/**
 The topic of a magnet link (bt/src/magnet.rs; RFC 4648, section 6): base 32
 through a 64-bit accumulator that is never masked, and the two spellings of a hash.
 */
module Magnet {
  import opened Common

  // ------------------------------------------------------------------ characters

  const UPPER_A: byte := 65
  const UPPER_Z: byte := 90
  const LOWER_A: byte := 97
  const LOWER_Z: byte := 122
  const TWO: byte := 50
  const SEVEN: byte := 55

  function Digit32(c: byte): (r: Option<nat>)
    ensures r.Some? ==> r.value < 32
  {
    if UPPER_A <= c <= UPPER_Z then Some(c - UPPER_A)
    else if LOWER_A <= c <= LOWER_Z then Some(c - LOWER_A)
    else if TWO <= c <= SEVEN then Some(c - TWO + 26)
    else None
  }

  predicate Base32(text: seq<byte>) {
    forall i :: 0 <= i < |text| ==> Digit32(text[i]).Some?
  }

  function Value32(text: seq<byte>): nat
    requires Base32(text)
  {
    if text == [] then 0 else Value32(text[..|text| - 1]) * 32 + Digit32(text[|text| - 1]).value
  }

  function BigEndian(bytes: seq<byte>): nat {
    if bytes == [] then 0 else BigEndian(bytes[..|bytes| - 1]) * 256 + bytes[|bytes| - 1]
  }

  function Pow2(n: nat): (r: nat)
    ensures r > 0
  {
    if n == 0 then 1 else 2 * Pow2(n - 1)
  }

  // ------------------------------------------------------------ the accumulator

  lemma Powers()
    ensures Pow2(0) == 1 && Pow2(1) == 2 && Pow2(2) == 4 && Pow2(3) == 8
    ensures Pow2(4) == 16 && Pow2(5) == 32 && Pow2(6) == 64 && Pow2(7) == 128
  {}

  lemma WordWindow(v: nat, word: nat, high: nat, m: nat, k: nat)
    requires m > 0 && v == high * k * 256 * m + word
    ensures word / m % 256 == v / m % 256
  {
    ShiftOut(high * k * 256, word, m);
    AddMultiple(high * k, word / m, 256);
  }

  /** How many byte windows a word holds above its low `n` bits. */
  function Windows(n: nat): nat
    requires n < 8
  {
    if n == 0 then 0x100_0000_0000_0000
    else Windows(n - 1) / 2
  }

  lemma WindowsFill(n: nat)
    requires n < 8
    ensures Windows(n) * 256 * Pow2(n) == U64
  {
    Powers();
    assert Windows(1) == 0x80_0000_0000_0000 && Windows(2) == 0x40_0000_0000_0000 && Windows(3) == 0x20_0000_0000_0000;
    assert Windows(4) == 0x10_0000_0000_0000 && Windows(5) == 0x8_0000_0000_0000 && Windows(6) == 0x4_0000_0000_0000;
    assert Windows(7) == 0x2_0000_0000_0000;
  }

  /** The bits that fell off never reach a byte that is still to come. */
  lemma ByteOfWord(v: nat, word: nat, n: nat)
    requires n < 8 && word == v % U64
    ensures word / Pow2(n) % 256 == v / Pow2(n) % 256
  {
    WindowsFill(n);
    var high := v / U64;
    assert v == high * U64 + word;
    Regroup(high, Windows(n), Pow2(n));
    WordWindow(v, word, high, Pow2(n), Windows(n));
  }

  lemma Regroup(a: nat, b: nat, c: nat)
    ensures a * (b * 256 * c) == a * b * 256 * c
  {}

  lemma ShiftOut(q: nat, r: nat, m: nat)
    requires m > 0
    ensures (q * m + r) / m == q + r / m
  {
    DivUnique(q * m + r, m, q + r / m, r % m);
  }

  lemma AddMultiple(q: nat, r: nat, m: nat)
    requires m > 0
    ensures (q * m + r) % m == r % m
  {
    ShiftOut(q, r, m);
    assert (q * m + r) == (q * m + r) / m * m + (q * m + r) % m;
    assert r == r / m * m + r % m;
    assert (q + r / m) * m == q * m + r / m * m;
  }

  lemma DivUnique(a: nat, m: nat, q: nat, r: nat)
    requires m > 0 && a == q * m + r && r < m
    ensures a / m == q
  {
    var p := a / m;
    assert a == p * m + a % m;
    if p < q {
      MulMono(p + 1, q, m);
      MulSplit(p, 1, m);
    } else if p > q {
      MulMono(q + 1, p, m);
      MulSplit(q, 1, m);
    }
  }

  lemma Doubled(n: nat)
    ensures Pow2(n + 5) == 32 * Pow2(n) && Pow2(n + 8) == 256 * Pow2(n)
  {
    assert Pow2(n + 2) == 2 * Pow2(n + 1) && Pow2(n + 3) == 2 * Pow2(n + 2) && Pow2(n + 4) == 2 * Pow2(n + 3);
    assert Pow2(n + 5) == 2 * Pow2(n + 4) && Pow2(n + 6) == 2 * Pow2(n + 5) && Pow2(n + 7) == 2 * Pow2(n + 6);
  }

  /** Five more bits leave the finished bytes as they were. */
  lemma FiveBits(v: nat, digit: nat, n: nat)
    requires n < 8 && digit < 32
    ensures (v * 32 + digit) / Pow2(n + 5) == v / Pow2(n)
  {
    var m := Pow2(n);
    Doubled(n);
    var q, r := v / m, v % m;
    assert v == q * m + r;
    MulScale(q, 32, m);
    DivUnique(v * 32 + digit, 32 * m, q, r * 32 + digit);
  }

  lemma WindowSplit(v: nat, m: nat)
    requires m > 0
    ensures v / m == v / (256 * m) * 256 + v / m % 256
  {
    var q, r, low := v / m / 256, v / m % 256, v % m;
    assert v == v / m * m + low && v / m == q * 256 + r;
    MulSplit(q * 256, r, m);
    MulScale(q, 256, m);
    MulMono(r, 255, m);
    DivUnique(v, 256 * m, q, r * m + low);
  }

  /** Taking out a byte: what lies above it, then the byte. */
  lemma OneByte(v: nat, n: nat)
    ensures v / Pow2(n) == v / Pow2(n + 8) * 256 + v / Pow2(n) % 256
  {
    Doubled(n);
    WindowSplit(v, Pow2(n));
  }

  /** Where the loop stands after some characters. */
  predicate Decoded(text: seq<byte>, bits: nat, bitCount: nat, out: seq<byte>)
    requires Base32(text)
  {
    && bits == Value32(text) % U64
    && bitCount < 8 && 5 * |text| == 8 * |out| + bitCount
    && BigEndian(out) == Value32(text) / Pow2(bitCount)
  }

  lemma WordStep(v: nat, bits: nat, digit: nat)
    requires bits == v % U64 && digit < 32
    ensures bits * 32 % U64 + digit == (v * 32 + digit) % U64
  {
    var q := v / U64;
    assert v == q * U64 + bits;
    assert v * 32 + digit == q * 32 * U64 + (bits * 32 + digit);
    AddMultiple(q * 32, bits * 32 + digit, U64);
    RoomForDigit(bits, digit);
  }

  /** The low five bits of a shifted word are free. */
  lemma RoomForDigit(bits: nat, digit: nat)
    requires digit < 32
    ensures (bits * 32 + digit) % U64 == bits * 32 % U64 + digit < U64
  {
    var q, r := bits * 32 / U64, bits * 32 % U64;
    assert bits * 32 == q * U64 + r;
    assert r == 32 * (bits - q * 0x800_0000_0000_0000);
    DivUnique(bits * 32 + digit, U64, q, r + digit);
  }

  lemma TextStep(text: seq<byte>, c: byte)
    requires Base32(text) && Digit32(c).Some?
    ensures Base32(text + [c]) && Value32(text + [c]) == Value32(text) * 32 + Digit32(c).value
  {
    assert (text + [c])[..|text|] == text;
  }

  lemma BytesStep(out: seq<byte>, b: byte)
    ensures BigEndian(out + [b]) == BigEndian(out) * 256 + b
  {
    assert (out + [b])[..|out|] == out;
  }

  /** Five more bits, of which a byte is due: what was put out, then that byte. */
  lemma ByteDue(v: nat, digit: nat, word: nat, bitCount: nat)
    requires digit < 32 && 3 <= bitCount < 8 && word == (v * 32 + digit) % U64
    ensures v / Pow2(bitCount) * 256 + word / Pow2(bitCount - 3) % 256 == (v * 32 + digit) / Pow2(bitCount - 3)
  {
    FiveBits(v, digit, bitCount);
    ByteOfWord(v * 32 + digit, word, bitCount - 3);
    OneByte(v * 32 + digit, bitCount - 3);
  }

  lemma DecodedStep(text: seq<byte>, bits: nat, bitCount: nat, out: seq<byte>, c: byte)
    requires Base32(text) && Decoded(text, bits, bitCount, out) && Digit32(c).Some?
    ensures var word := bits * 32 % U64 + Digit32(c).value;
            var n := bitCount + 5;
      && Base32(text + [c]) && word < U64
      && if n < 8 then Decoded(text + [c], word, n, out)
         else Decoded(text + [c], word, n - 8, out + [word / Pow2(n - 8) % 256])
  {
    var v, digit := Value32(text), Digit32(c).value;
    var word := bits * 32 % U64 + digit;
    TextStep(text, c);
    WordStep(v, bits, digit);
    if bitCount < 3 {
      FiveBits(v, digit, bitCount);
    } else {
      ByteDue(v, digit, word, bitCount);
      BytesStep(out, word / Pow2(bitCount - 3) % 256);
    }
  }

  lemma DecodedNext(text: seq<byte>, i: nat, bits: nat, bitCount: nat, out: seq<byte>)
    requires i < |text| && Base32(text[..i]) && Decoded(text[..i], bits, bitCount, out) && Digit32(text[i]).Some?
    ensures var word := bits * 32 % U64 + Digit32(text[i]).value;
            var n := bitCount + 5;
      && Base32(text[..i + 1])
      && if n < 8 then Decoded(text[..i + 1], word, n, out)
         else Decoded(text[..i + 1], word, n - 8, out + [word / Pow2(n - 8) % 256])
  {
    DecodedStep(text[..i], bits, bitCount, out, text[i]);
    assert text[..i + 1] == text[..i] + [text[i]];
  }

  lemma BitTotals(characters: nat, bytes: nat, rest: nat)
    requires rest < 8 && 5 * characters == 8 * bytes + rest
    ensures 5 * characters % 8 == rest && (bytes == 20 <==> 160 <= 5 * characters < 168)
  {}

  lemma DecodedAll(text: seq<byte>, bits: nat, bitCount: nat, out: seq<byte>)
    requires Base32(text[..|text|]) && Decoded(text[..|text|], bits, bitCount, out)
    ensures Base32(text) && (|out| == 20 <==> 160 <= 5 * |text| < 168)
    ensures BigEndian(out) == Value32(text) / Pow2(5 * |text| % 8)
  {
    assert text[..|text|] == text;
    BitTotals(|text|, |out|, bitCount);
  }

  /**
   Twenty bytes come out exactly of 32 or 33 valid characters; they are the
   value of the text, without its last five bits when there are 33.
   */
  method Base32Decode(text: seq<byte>) returns (r: Option<seq<byte>>)
    ensures r.Some? <==> Base32(text) && 160 <= 5 * |text| < 168
    ensures r.Some? ==> |r.value| == 20 && BigEndian(r.value) == Value32(text) / Pow2(5 * |text| % 8)
  {
    var bits: nat, bitCount: nat, out: seq<byte> := 0, 0, [];
    for i := 0 to |text|
      invariant Base32(text[..i]) && Decoded(text[..i], bits, bitCount, out)
    {
      var value := Digit32(text[i]);
      if value.None? {
        return None;
      }
      DecodedNext(text, i, bits, bitCount, out);
      bits := bits * 32 % U64 + value.value;
      bitCount := bitCount + 5;
      if bitCount >= 8 {
        bitCount := bitCount - 8;
        out := out + [bits / Pow2(bitCount) % 256];
      }
    }
    DecodedAll(text, bits, bitCount, out);
    r := if |out| == 20 then Some(out) else None;
  }

  // --------------------------------------------------------------- both spellings

  lemma {:induction false} BigEndianInjective(a: seq<byte>, b: seq<byte>)
    requires |a| == |b| && BigEndian(a) == BigEndian(b)
    ensures a == b
  {
    if a != [] {
      BigEndianInjective(a[..|a| - 1], b[..|b| - 1]);
      assert a == a[..|a| - 1] + [a[|a| - 1]] && b == b[..|b| - 1] + [b[|b| - 1]];
    }
  }

  /** RFC 4648's upper-case alphabet. */
  function Letter32(d: nat): (c: byte)
    requires d < 32
    ensures Digit32(c) == Some(d)
  {
    if d < 26 then UPPER_A + d else TWO + (d - 26)
  }

  function Text32(v: nat, length: nat): (t: seq<byte>)
    ensures |t| == length && Base32(t)
  {
    if length == 0 then [] else Text32(v / 32, length - 1) + [Letter32(v % 32)]
  }

  function Pow32(n: nat): (r: nat)
    ensures r > 0
  {
    if n == 0 then 1 else 32 * Pow32(n - 1)
  }

  lemma {:induction false} Text32Value(v: nat, length: nat)
    requires v < Pow32(length)
    ensures Value32(Text32(v, length)) == v
  {
    if length > 0 {
      Text32Value(v / 32, length - 1);
      var t := Text32(v, length);
      assert t[..|t| - 1] == Text32(v / 32, length - 1);
    }
  }

  lemma {:induction false} BigEndianBound(bytes: seq<byte>)
    ensures BigEndian(bytes) < Pow256(|bytes|)
  {
    if bytes != [] {
      BigEndianBound(bytes[..|bytes| - 1]);
    }
  }

  lemma {:induction false} SameRange(n: nat)
    ensures Pow256(5 * n) == Pow32(8 * n)
  {
    if n > 0 {
      SameRange(n - 1);
      FiveBytes(5 * n - 5);
      EightLetters(8 * n - 8);
    }
  }

  lemma FiveBytes(n: nat)
    ensures Pow256(n + 5) == 0x100_0000_0000 * Pow256(n)
  {
    assert Pow256(n + 5) == 256 * Pow256(n + 4) && Pow256(n + 4) == 256 * Pow256(n + 3);
    assert Pow256(n + 3) == 256 * Pow256(n + 2) && Pow256(n + 2) == 256 * Pow256(n + 1);
  }

  lemma EightLetters(n: nat)
    ensures Pow32(n + 8) == 0x100_0000_0000 * Pow32(n)
  {
    assert Pow32(n + 8) == 32 * Pow32(n + 7) && Pow32(n + 7) == 32 * Pow32(n + 6);
    assert Pow32(n + 6) == 32 * Pow32(n + 5) && Pow32(n + 5) == 32 * Pow32(n + 4);
    assert Pow32(n + 4) == 32 * Pow32(n + 3) && Pow32(n + 3) == 32 * Pow32(n + 2);
    assert Pow32(n + 2) == 32 * Pow32(n + 1);
  }

  /** Five bytes are eight characters. */
  lemma SpellingValue(bytes: seq<byte>, n: nat, length: nat)
    requires |bytes| == 5 * n && length == 8 * n
    ensures Value32(Text32(BigEndian(bytes), length)) == BigEndian(bytes)
  {
    BigEndianBound(bytes);
    SameRange(n);
    Text32Value(BigEndian(bytes), length);
  }

  /** Every hash has a 32-character spelling, and what has its value is the hash. */
  lemma SpellingDecodes(hash: seq<byte>, decoded: seq<byte>)
    requires |hash| == 20 && |decoded| == 20
    requires BigEndian(decoded) == Value32(Text32(BigEndian(hash), 32))
    ensures decoded == hash
  {
    SpellingValue(hash, 4, 32);
    BigEndianInjective(decoded, hash);
  }

  // -------------------------------------------------------------------------- hex

  function Digit16(c: byte): (r: Option<nat>)
    ensures r.Some? ==> r.value < 16
  {
    if 48 <= c <= 57 then Some(c - 48)
    else if 97 <= c <= 102 then Some(c - 87)
    else if 65 <= c <= 70 then Some(c - 55)
    else None
  }

  function Letter16(d: nat): (c: byte)
    requires d < 16
    ensures Digit16(c) == Some(d)
  {
    if d < 10 then 48 + d else 87 + d
  }

  function ToHex(bytes: seq<byte>): (t: seq<byte>)
    ensures |t| == 2 * |bytes|
  {
    if bytes == [] then [] else [Letter16(bytes[0] / 16), Letter16(bytes[0] % 16)] + ToHex(bytes[1..])
  }

  function HexPairs(text: seq<byte>): Option<seq<byte>> {
    if |text| < 2 then Some([])
    else
      var hi, lo, rest := Digit16(text[0]), Digit16(text[1]), HexPairs(text[2..]);
      if hi.None? || lo.None? || rest.None? then None else Some([hi.value * 16 + lo.value] + rest.value)
  }

  lemma HexStep(b: byte, text: seq<byte>, bytes: seq<byte>)
    requires HexPairs(text) == Some(bytes)
    ensures HexPairs([Letter16(b / 16), Letter16(b % 16)] + text) == Some([b] + bytes)
  {
    var all := [Letter16(b / 16), Letter16(b % 16)] + text;
    assert all[2..] == text;
    assert b / 16 * 16 + b % 16 == b;
  }

  lemma {:induction false} HexRoundTrip(bytes: seq<byte>)
    ensures HexPairs(ToHex(bytes)) == Some(bytes)
  {
    if bytes != [] {
      HexRoundTrip(bytes[1..]);
      HexStep(bytes[0], ToHex(bytes[1..]), bytes[1..]);
      assert bytes == [bytes[0]] + bytes[1..];
    }
  }

  /** The same letter in lower case. */
  function Lower(c: byte): byte {
    if UPPER_A <= c <= UPPER_Z then c + 32 else c
  }

  function Lowered(text: seq<byte>): (t: seq<byte>)
    ensures |t| == |text|
  {
    seq(|text|, i requires 0 <= i < |text| => Lower(text[i]))
  }

  /** The characters of a digit are its printed letter in either case, and no others. */
  lemma Alphabets(c: byte, d: nat)
    ensures d < 32 ==> (Digit32(c) == Some(d) <==> Lower(c) == Lower(Letter32(d)))
    ensures d < 16 ==> (Digit16(c) == Some(d) <==> Lower(c) == Letter16(d))
    ensures d >= 32 ==> Digit32(c) != Some(d)
  {}

  /** Upper and lower case letters are the same digits, in hexadecimal and in base 32. */
  lemma {:induction false} CaseIgnored(text: seq<byte>)
    ensures HexPairs(Lowered(text)) == HexPairs(text)
    ensures Base32(Lowered(text)) <==> Base32(text)
  {
    forall i | 0 <= i < |text| ensures Digit32(Lowered(text)[i]) == Digit32(text[i]) {}
    if |text| >= 2 {
      assert Lowered(text)[2..] == Lowered(text[2..]);
      CaseIgnored(text[2..]);
    }
  }

  lemma {:induction false} ValueIgnoresCase(text: seq<byte>)
    requires Base32(text)
    ensures Base32(Lowered(text)) && Value32(Lowered(text)) == Value32(text)
  {
    CaseIgnored(text);
    if text != [] {
      var n := |text| - 1;
      assert Lowered(text)[..n] == Lowered(text[..n]);
      ValueIgnoresCase(text[..n]);
    }
  }

  /** `decode_btih`: forty hexadecimal digits or 32 base-32 characters, nothing else. */
  method DecodeBtih(text: seq<byte>) returns (r: Option<seq<byte>>)
    ensures |text| == 40 ==> r == HexPairs(text)
    ensures |text| == 32 ==> (r.Some? <==> Base32(text))
    ensures |text| == 32 && r.Some? ==> |r.value| == 20 && BigEndian(r.value) == Value32(text)
    ensures |text| != 40 && |text| != 32 ==> r == None
  {
    if |text| == 40 {
      r := HexPairs(text);
    } else if |text| == 32 {
      r := Base32Decode(text);
      Powers();
    } else {
      r := None;
    }
  }

  /** Both spellings of a hash lead to it. */
  method BothSpellings(hash: seq<byte>) returns (hex: Option<seq<byte>>, base32: Option<seq<byte>>)
    requires |hash| == 20
    ensures hex == Some(hash) && base32 == Some(hash)
  {
    HexRoundTrip(hash);
    hex := DecodeBtih(ToHex(hash));
    base32 := DecodeBtih(Text32(BigEndian(hash), 32));
    SpellingDecodes(hash, base32.value);
  }
}
