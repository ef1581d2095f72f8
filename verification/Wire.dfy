/** Peer messages on the wire (bt/src/peer.rs; BEP 3, "peer messages"; BEP 10, "extension message"). */
module Wire {
  import opened Common
  import opened Messages

  const MAX_FRAME: nat := 1048576

  datatype WireError = EndOfStream | UnknownId(id: byte) | BadFrame | FrameTooLong(length: nat)

  // -------------------------------------------------------------------- integers

  function Be32(n: nat): (r: seq<byte>)
    requires n < U32
    ensures |r| == 4
  {
    [n / 0x100_0000, n / 0x1_0000 % 256, n / 0x100 % 256, n % 256]
  }

  function U32At(b: seq<byte>, at: nat): (r: nat)
    requires at + 4 <= |b|
    ensures r < U32
  {
    0x100_0000 * (b[at] as int) + 0x1_0000 * (b[at + 1] as int) + 0x100 * (b[at + 2] as int) + b[at + 3]
  }

  /** The lowest byte of what is left of `n` without its low bits. */
  lemma NextByte(n: nat, low: nat)
    requires low == 1 || low == 0x100 || low == 0x1_0000
    ensures n / low == n / (256 * low) * 256 + n / low % 256
  {}

  lemma Be32Value(n: nat)
    requires n < U32
    ensures U32At(Be32(n), 0) == n
  {
    NextByte(n, 1);
    NextByte(n, 0x100);
    NextByte(n, 0x1_0000);
  }

  /** Four bytes are the number they spell, and only that. */
  lemma U32Iff(b: seq<byte>, at: nat, n: nat)
    requires at + 4 <= |b| && n < U32
    ensures U32At(b, at) == n <==> b[at..at + 4] == Be32(n)
  {
    Be32Value(n);
    if U32At(b, at) == n {
      var h, i, j: int := b[at], b[at + 1], b[at + 2];
      assert n / 0x100_0000 == h && n / 0x1_0000 == 256 * h + i && n / 256 == 0x1_0000 * h + 256 * i + j;
    }
  }

  // ----------------------------------------------------------------------- bodies

  function ToBytes(bits: seq<bv8>): (r: seq<byte>)
    ensures |r| == |bits|
  {
    seq(|bits|, i requires 0 <= i < |bits| => bits[i] as int)
  }

  function FromBytes(b: seq<byte>): (r: seq<bv8>)
    ensures |r| == |b|
  {
    seq(|b|, i requires 0 <= i < |b| => b[i] as bv8)
  }

  lemma ByteBack(b: byte)
    ensures (b as bv8) as int == b
  {
    assert b as int == b as int % 256;
  }

  lemma BitBack(b: bv8)
    ensures (b as int) as bv8 == b
  {}

  lemma BytesBack(b: seq<byte>)
    ensures ToBytes(FromBytes(b)) == b
  {
    forall i | 0 <= i < |b| ensures ToBytes(FromBytes(b))[i] == b[i] {
      ByteBack(b[i]);
    }
  }

  lemma BitsBack(bits: seq<bv8>)
    ensures FromBytes(ToBytes(bits)) == bits
  {
    forall i | 0 <= i < |bits| ensures FromBytes(ToBytes(bits))[i] == bits[i] {
      BitBack(bits[i]);
    }
  }

  /** The fields fit the widths the source's types give them. */
  predicate Encodable(m: Message) {
    match m
    case Have(index) => index < U32
    case Request(index, begin, length) => index < U32 && begin < U32 && length < U32
    case Piece(index, begin, _) => index < U32 && begin < U32
    case Cancel(index, begin, length) => index < U32 && begin < U32 && length < U32
    case Port(port) => port < 0x1_0000
    case _ => true
  }

  function Body(m: Message): seq<byte>
    requires Encodable(m)
  {
    match m
    case KeepAlive => []
    case Choke => [0]
    case Unchoke => [1]
    case Interested => [2]
    case NotInterested => [3]
    case Have(index) => [4] + Be32(index)
    case Bitfield(bits) => [5] + ToBytes(bits)
    case Request(index, begin, length) => [6] + (Be32(index) + Be32(begin) + Be32(length))
    case Piece(index, begin, data) => [7] + (Be32(index) + Be32(begin) + data)
    case Cancel(index, begin, length) => [8] + (Be32(index) + Be32(begin) + Be32(length))
    case Port(port) => [9, port / 256, port % 256]
    case Extended(ext, payload) => [20, ext] + payload
  }

  function Empty(payload: seq<byte>, m: Message): Result<Message, WireError> {
    if payload == [] then Ok(m) else Err(BadFrame)
  }

  function ParseFrame(body: seq<byte>): Result<Message, WireError> {
    if body == [] then Ok(KeepAlive)
    else
      var id, p := body[0], body[1..];
      if id == 0 then Empty(p, Choke)
      else if id == 1 then Empty(p, Unchoke)
      else if id == 2 then Empty(p, Interested)
      else if id == 3 then Empty(p, NotInterested)
      else if id == 4 then if |p| == 4 then Ok(Have(U32At(p, 0))) else Err(BadFrame)
      else if id == 5 then Ok(Bitfield(FromBytes(p)))
      else if id == 6 then if |p| == 12 then Ok(Request(U32At(p, 0), U32At(p, 4), U32At(p, 8))) else Err(BadFrame)
      else if id == 7 then if |p| >= 8 then Ok(Piece(U32At(p, 0), U32At(p, 4), p[8..])) else Err(BadFrame)
      else if id == 8 then if |p| == 12 then Ok(Cancel(U32At(p, 0), U32At(p, 4), U32At(p, 8))) else Err(BadFrame)
      else if id == 9 then if |p| == 2 then Ok(Port(256 * (p[0] as int) + p[1])) else Err(BadFrame)
      else if id == 20 then if p != [] then Ok(Extended(p[0], p[1..])) else Err(BadFrame)
      else Err(UnknownId(id))
  }

  // -------------------------------------------------------------- both directions

  lemma TripleIff(p: seq<byte>, a: nat, b: nat, c: nat)
    requires a < U32 && b < U32 && c < U32
    ensures |p| == 12 && U32At(p, 0) == a && U32At(p, 4) == b && U32At(p, 8) == c <==> p == Be32(a) + Be32(b) + Be32(c)
  {
    var whole := Be32(a) + Be32(b) + Be32(c);
    assert whole[0..4] == Be32(a) && whole[4..8] == Be32(b) && whole[8..12] == Be32(c);
    if |p| == 12 {
      U32Iff(p, 0, a);
      U32Iff(p, 4, b);
      U32Iff(p, 8, c);
      assert p == p[0..4] + p[4..8] + p[8..12];
    }
  }

  lemma PieceIff(p: seq<byte>, a: nat, b: nat, data: seq<byte>)
    requires a < U32 && b < U32
    ensures |p| >= 8 && U32At(p, 0) == a && U32At(p, 4) == b && p[8..] == data <==> p == Be32(a) + Be32(b) + data
  {
    var whole := Be32(a) + Be32(b) + data;
    assert whole[0..4] == Be32(a) && whole[4..8] == Be32(b) && whole[8..] == data;
    if |p| >= 8 {
      U32Iff(p, 0, a);
      U32Iff(p, 4, b);
      assert p == p[0..4] + p[4..8] + p[8..];
    }
  }

  lemma HaveIff(p: seq<byte>, a: nat)
    requires a < U32
    ensures |p| == 4 && U32At(p, 0) == a <==> p == Be32(a)
  {
    if |p| == 4 {
      U32Iff(p, 0, a);
      assert p[0..4] == p;
    }
  }

  lemma PortIff(p: seq<byte>, port: nat)
    requires port < 0x1_0000
    ensures |p| == 2 && 256 * (p[0] as int) + p[1] == port <==> p == [port / 256, port % 256]
  {}

  lemma Tail(body: seq<byte>, id: byte, p: seq<byte>)
    ensures body == [id] + p <==> body != [] && body[0] == id && body[1..] == p
  {}

  lemma NumbersFrameIff(body: seq<byte>, m: Message)
    requires Encodable(m) && (m.Have? || m.Request? || m.Piece? || m.Cancel?)
    ensures ParseFrame(body) == Ok(m) <==> body == Body(m)
  {
    var p: seq<byte> := if body == [] then [] else body[1..];
    match m {
      case Have(index) =>
        HaveIff(p, index);
        Tail(body, 4, Be32(index));
      case Request(a, b, c) =>
        TripleIff(p, a, b, c);
        Tail(body, 6, Be32(a) + Be32(b) + Be32(c));
      case Piece(a, b, data) =>
        PieceIff(p, a, b, data);
        Tail(body, 7, Be32(a) + Be32(b) + data);
      case Cancel(a, b, c) =>
        TripleIff(p, a, b, c);
        Tail(body, 8, Be32(a) + Be32(b) + Be32(c));
    }
  }

  lemma OtherFrameIff(body: seq<byte>, m: Message)
    requires Encodable(m) && !(m.Have? || m.Request? || m.Piece? || m.Cancel?)
    ensures ParseFrame(body) == Ok(m) <==> body == Body(m)
  {
    var p: seq<byte> := if body == [] then [] else body[1..];
    match m {
      case Bitfield(bits) =>
        BytesBack(p);
        BitsBack(bits);
        Tail(body, 5, ToBytes(bits));
      case Port(port) =>
        PortIff(p, port);
        Tail(body, 9, [port / 256, port % 256]);
        assert [9, port / 256, port % 256] == [9] + [port / 256, port % 256];
      case Extended(ext, payload) =>
        Tail(p, ext, payload);
        Tail(body, 20, [ext] + payload);
        assert [20, ext] + payload == [20] + ([ext] + payload);
      case KeepAlive =>
      case Choke => Tail(body, 0, []);
      case Unchoke => Tail(body, 1, []);
      case Interested => Tail(body, 2, []);
      case NotInterested => Tail(body, 3, []);
    }
  }

  lemma ParsedEncodable(body: seq<byte>, m: Message)
    requires ParseFrame(body) == Ok(m)
    ensures Encodable(m)
  {}

  /** A frame parses to a message exactly when it is that message's body. */
  lemma FrameIff(body: seq<byte>, m: Message)
    ensures ParseFrame(body) == Ok(m) <==> Encodable(m) && body == Body(m)
  {
    if ParseFrame(body) == Ok(m) {
      ParsedEncodable(body, m);
    }
    if Encodable(m) {
      if m.Have? || m.Request? || m.Piece? || m.Cancel? {
        NumbersFrameIff(body, m);
      } else {
        OtherFrameIff(body, m);
      }
    }
  }

  // ---------------------------------------------------------------------- streams

  /** A length prefix, cut to 32 bits, and the body. */
  function Framed(body: seq<byte>): seq<byte> {
    Be32(|body| % U32) + body
  }

  function EncodeMessage(m: Message): seq<byte>
    requires Encodable(m)
  {
    Framed(Body(m))
  }

  /** The body of the next frame of a stream and what follows it. */
  function NextFrame(stream: seq<byte>): Result<(seq<byte>, seq<byte>), WireError> {
    if |stream| < 4 then Err(EndOfStream)
    else
      var length := U32At(stream, 0);
      if length > MAX_FRAME then Err(FrameTooLong(length))
      else if |stream| < 4 + length then Err(EndOfStream)
      else Ok((stream[4..4 + length], stream[4 + length..]))
  }

  /** The next message of a stream and what follows it. */
  function NextMessage(stream: seq<byte>): Result<(Message, seq<byte>), WireError> {
    match NextFrame(stream)
    case Err(e) => Err(e)
    case Ok((body, rest)) =>
      match ParseFrame(body)
      case Err(e) => Err(e)
      case Ok(m) => Ok((m, rest))
  }

  class Reader {
    var rest: seq<byte>

    constructor (stream: seq<byte>)
      ensures rest == stream
    {
      rest := stream;
    }

    /** `read_exact`: all of `n` bytes, or an error. */
    method Take(n: nat) returns (r: Option<seq<byte>>)
      modifies this
      ensures r.Some? <==> n <= |old(rest)|
      ensures r.Some? ==> r.value == old(rest)[..n] && rest == old(rest)[n..]
    {
      if n > |rest| {
        rest := [];
        return None;
      }
      r := Some(rest[..n]);
      rest := rest[n..];
    }

    method ReadMessage() returns (r: Result<Message, WireError>)
      modifies this
      ensures match NextMessage(old(rest)) {
        case Ok((m, tail)) => r == Ok(m) && rest == tail
        case Err(e) => r == Err(e)
      }
    {
      ghost var stream := rest;
      var prefix := Take(4);
      if prefix.None? {
        return Err(EndOfStream);
      }
      var length := U32At(prefix.value, 0);
      assert length == U32At(stream, 0);
      if length > MAX_FRAME {
        return Err(FrameTooLong(length));
      }
      var body := Take(length);
      if body.None? {
        return Err(EndOfStream);
      }
      assert body.value == stream[4..4 + length] && rest == stream[4 + length..];
      r := ParseFrame(body.value);
    }
  }

  lemma FitsPrefix(n: nat)
    requires n < U32
    ensures n % U32 == n
  {}

  lemma PrefixedParts(prefix: seq<byte>, body: seq<byte>, rest: seq<byte>)
    requires |prefix| == 4
    ensures var stream := prefix + body + rest;
      && U32At(stream, 0) == U32At(prefix, 0)
      && stream[4..4 + |body|] == body && stream[4 + |body|..] == rest
  {}

  lemma FramedParts(body: seq<byte>, rest: seq<byte>)
    requires |body| < U32
    ensures var stream := Framed(body) + rest;
      && |stream| == 4 + |body| + |rest| && U32At(stream, 0) == |body|
      && stream[4..4 + |body|] == body && stream[4 + |body|..] == rest
  {
    FitsPrefix(|body|);
    Be32Value(|body|);
    PrefixedParts(Be32(|body|), body, rest);
  }

  lemma FrameAt(stream: seq<byte>, body: seq<byte>, rest: seq<byte>)
    requires |stream| == 4 + |body| + |rest| && U32At(stream, 0) == |body|
    requires stream[4..4 + |body|] == body && stream[4 + |body|..] == rest
    ensures NextFrame(stream) == if |body| <= MAX_FRAME then Ok((body, rest)) else Err(FrameTooLong(|body|))
  {}

  lemma FramedNext(body: seq<byte>, rest: seq<byte>)
    requires |body| < U32
    ensures NextFrame(Framed(body) + rest)
         == if |body| <= MAX_FRAME then Ok((body, rest)) else Err(FrameTooLong(|body|))
  {
    FramedParts(body, rest);
    FrameAt(Framed(body) + rest, body, rest);
  }

  lemma ParsedNext(stream: seq<byte>, body: seq<byte>, rest: seq<byte>, m: Message)
    requires NextFrame(stream) == Ok((body, rest)) && ParseFrame(body) == Ok(m)
    ensures NextMessage(stream) == Ok((m, rest))
  {}

  lemma FramedMessage(body: seq<byte>, m: Message, rest: seq<byte>)
    requires |body| < U32 && ParseFrame(body) == Ok(m)
    ensures NextMessage(Framed(body) + rest)
         == if |body| <= MAX_FRAME then Ok((m, rest)) else Err(FrameTooLong(|body|))
  {
    FramedNext(body, rest);
    if |body| <= MAX_FRAME {
      ParsedNext(Framed(body) + rest, body, rest, m);
    }
  }

  lemma CutLength(body: seq<byte>, rest: seq<byte>)
    requires |body| >= U32
    ensures var r := NextFrame(Framed(body) + rest);
      r.Ok? ==> |r.value.1| > |rest|
  {}

  /**
   Reading what was written gives the message and leaves what follows, exactly
   when its body is no longer than the reader's limit; the writer has none.
   */
  lemma ReadsBackIff(m: Message, rest: seq<byte>)
    requires Encodable(m)
    ensures NextMessage(EncodeMessage(m) + rest) == Ok((m, rest)) <==> |Body(m)| <= MAX_FRAME
    ensures MAX_FRAME < |Body(m)| < U32 ==> NextMessage(EncodeMessage(m) + rest) == Err(FrameTooLong(|Body(m)|))
  {
    FrameIff(Body(m), m);
    if |Body(m)| < U32 {
      FramedMessage(Body(m), m, rest);
    } else {
      CutLength(Body(m), rest);
      LongerRest(EncodeMessage(m) + rest, m, rest);
    }
  }

  lemma LongerRest(stream: seq<byte>, m: Message, rest: seq<byte>)
    requires var r := NextFrame(stream); r.Ok? ==> |r.value.1| > |rest|
    ensures NextMessage(stream) != Ok((m, rest))
  {}

  function EncodeAll(messages: seq<Message>): seq<byte>
    requires forall m :: m in messages ==> Encodable(m)
  {
    if messages == [] then [] else EncodeMessage(messages[0]) + EncodeAll(messages[1..])
  }

  /** The messages read until the stream ends, and the error that ended it. */
  function ReadAll(stream: seq<byte>): (seq<Message>, WireError)
    decreases |stream|
  {
    match NextMessage(stream)
    case Err(e) => ([], e)
    case Ok((m, rest)) =>
      if |rest| < |stream| then
        var (more, e) := ReadAll(rest);
        ([m] + more, e)
      else ([m], EndOfStream)
  }

  /** Any messages written one after the other are read back in order, and then the stream ends. */
  lemma {:induction false} StreamRoundTrip(messages: seq<Message>)
    requires forall m :: m in messages ==> Encodable(m) && |Body(m)| <= MAX_FRAME
    ensures ReadAll(EncodeAll(messages)) == (messages, EndOfStream)
  {
    if messages != [] {
      var rest := EncodeAll(messages[1..]);
      ReadsBackIff(messages[0], rest);
      StreamRoundTrip(messages[1..]);
      assert messages == [messages[0]] + messages[1..];
    }
  }

  lemma ThreeParts<T>(s: seq<T>, a: nat, b: nat)
    requires a + b <= |s|
    ensures s == s[0..a] + s[a..a + b] + s[a + b..]
  {}

  lemma FrameBytes(stream: seq<byte>)
    requires NextFrame(stream).Ok?
    ensures var (body, rest) := NextFrame(stream).value;
      |body| <= MAX_FRAME && stream == Framed(body) + rest
  {
    var (body, rest) := NextFrame(stream).value;
    U32Iff(stream, 0, |body|);
    ThreeParts(stream, 4, |body|);
    FitsPrefix(|body|);
  }

  /** What is read is what was written: a message and the rest are the bytes they were read from. */
  lemma ReadIsWritten(stream: seq<byte>, m: Message, rest: seq<byte>)
    requires NextMessage(stream) == Ok((m, rest))
    ensures Encodable(m) && |Body(m)| <= MAX_FRAME && stream == EncodeMessage(m) + rest
  {
    FrameBytes(stream);
    FrameIff(NextFrame(stream).value.0, m);
  }

  /** The messages read from any stream, written again, are the part of it that was read. */
  lemma {:induction false} ReadAllIsWritten(stream: seq<byte>)
    ensures var messages := ReadAll(stream).0;
      && (forall m :: m in messages ==> Encodable(m) && |Body(m)| <= MAX_FRAME)
      && EncodeAll(messages) <= stream
    decreases |stream|
  {
    if NextMessage(stream).Ok? {
      var (m, rest) := NextMessage(stream).value;
      ReadIsWritten(stream, m, rest);
      ReadAllIsWritten(rest);
      var more := ReadAll(rest).0;
      assert ([m] + more)[1..] == more;
      assert EncodeAll([m] + more) == EncodeMessage(m) + EncodeAll(more);
    }
  }
}
