/**
 Extension messages (bt/src/extensions.rs; BEP 9 and BEP 10, "extension message"):
 a scanner that finds the end of a leading dictionary, and the messages read behind it.
 */
module Extensions {
  import opened Common
  import opened Bencode
  import opened BencodeProofs
  import opened BencodeLoose
  import BencodeParser

  datatype ExtError = NotADict | BadPayload

  const MSG_TYPE: seq<byte> := [109, 115, 103, 95, 116, 121, 112, 101]
  const PIECE: seq<byte> := [112, 105, 101, 99, 101]
  const TOTAL_SIZE: seq<byte> := [116, 111, 116, 97, 108, 95, 115, 105, 122, 101]
  const M: seq<byte> := [109]
  const METADATA_SIZE: seq<byte> := [109, 101, 116, 97, 100, 97, 116, 97, 95, 115, 105, 122, 101]
  const UT_METADATA: seq<byte> := [117, 116, 95, 109, 101, 116, 97, 100, 97, 116, 97]

  // -------------------------------------------------------------------- scanning

  /** The first place from `i` on that holds `b`, or the end. */
  function FirstFrom(payload: seq<byte>, i: nat, b: byte): (r: nat)
    requires i <= |payload|
    ensures i <= r <= |payload|
    ensures forall j :: i <= j < r ==> payload[j] != b
    ensures r < |payload| ==> payload[r] == b
    decreases |payload| - i
  {
    if i < |payload| && payload[i] != b then FirstFrom(payload, i + 1, b) else i
  }

  /** Where the string whose length starts at `i` ends. */
  function SkipString(payload: seq<byte>, i: nat): (r: Option<nat>)
    requires i < |payload| && IsDigit(payload[i])
    ensures r.Some? ==> i < r.value <= |payload|
  {
    var colon := FirstFrom(payload, i, COLON);
    if colon == |payload| then None
    else
      var digits := payload[i..colon];
      if !AllDigits(digits) || Number(digits) >= U64 || colon + 1 + Number(digits) >= U64 then None
      else if colon + 1 + Number(digits) > |payload| then None
      else Some(colon + 1 + Number(digits))
  }

  /** The scanner from place `i` on, inside `depth` open lists and dictionaries. */
  function Scan(payload: seq<byte>, i: nat, depth: nat): (r: Option<nat>)
    requires i <= |payload|
    ensures r.Some? ==> i < r.value <= |payload|
    decreases |payload| - i
  {
    if i == |payload| then None
    else if payload[i] == DICT || payload[i] == LIST then Scan(payload, i + 1, depth + 1)
    else if payload[i] == INT then
      var end := FirstFrom(payload, i, END);
      if end == |payload| then None else Scan(payload, end + 1, depth)
    else if IsDigit(payload[i]) then
      match SkipString(payload, i)
      case None => None
      case Some(next) => Scan(payload, next, depth)
    else if payload[i] == END then
      if depth == 0 then None
      else if depth == 1 then Some(i + 1)
      else Scan(payload, i + 1, depth - 1)
    else None
  }

  function DictEnd(payload: seq<byte>): (r: Option<nat>)
    ensures r.Some? ==> r.value <= |payload|
  {
    if payload == [] || payload[0] != DICT then None else Scan(payload, 0, 0)
  }

  /** The scan once the value that was open at `depth` has closed. */
  function After(payload: seq<byte>, next: nat, depth: nat): Option<nat>
    requires next <= |payload|
  {
    if depth == 0 then Some(next) else Scan(payload, next, depth)
  }

  method FindDictEnd(payload: seq<byte>) returns (r: Option<nat>)
    ensures r == DictEnd(payload)
  {
    if payload == [] || payload[0] != DICT {
      return None;
    }
    var depth: nat, i: nat := 0, 0;
    ghost var found := Scan(payload, 0, 0);
    while i < |payload|
      invariant i <= |payload| && Scan(payload, i, depth) == found
    {
      var b := payload[i];
      if b == DICT || b == LIST {
        depth := depth + 1;
        i := i + 1;
      } else if b == INT {
        var end := Position(payload, i, END);
        if end == |payload| {
          return None;
        }
        i := end + 1;
      } else if IsDigit(b) {
        var next := SkipString(payload, i);
        if next.None? {
          return None;
        }
        i := next.value;
      } else if b == END {
        if depth == 0 {
          return None;
        }
        depth := depth - 1;
        i := i + 1;
        if depth == 0 {
          return Some(i);
        }
      } else {
        return None;
      }
    }
    return None;
  }

  method Position(payload: seq<byte>, from: nat, b: byte) returns (r: nat)
    requires from <= |payload|
    ensures r == FirstFrom(payload, from, b)
  {
    r := from;
    while r < |payload| && payload[r] != b
      invariant from <= r <= |payload|
      invariant FirstFrom(payload, r, b) == FirstFrom(payload, from, b)
    {
      r := r + 1;
    }
  }

  // ----------------------------------------- the scanner agrees with the grammar

  /** The first mark `e` behind an accepted integer's start is its own. */
  lemma IntScan(input: seq<byte>, payload: seq<byte>, pos: nat, strict: bool)
    requires input <= payload && pos < |input| && input[pos] == INT && ParseInt(input, pos, strict).Done?
    ensures FirstFrom(payload, pos, END) == ParseInt(input, pos, strict).pos - 1
  {
    var end := ParseInt(input, pos, strict).pos - 1;
    assert input[end] == END;
    forall j | pos <= j < end ensures payload[j] != END {
      assert payload[j] == input[j];
    }
  }

  lemma StringScan(input: seq<byte>, payload: seq<byte>, pos: nat, strict: bool)
    requires input <= payload && |payload| < U64
    requires pos < |input| && IsDigit(input[pos]) && ParseBytes(input, pos, strict).Done?
    ensures SkipString(payload, pos) == Some(ParseBytes(input, pos, strict).pos)
  {
    var end := DigitsEnd(input, pos);
    forall j | pos <= j < end ensures payload[j] != COLON {
      assert payload[j] == input[j];
    }
    assert payload[end] == input[end] == COLON;
    assert FirstFrom(payload, pos, COLON) == end;
    assert payload[pos..end] == input[pos..end];
  }

  /** The scanner steps over every value the parser accepts. */
  lemma {:induction false} ScanValue(input: seq<byte>, payload: seq<byte>, pos: nat, depth: nat, strict: bool, open: nat)
    requires input <= payload && |payload| < U64 && pos <= |input| && ParseValue(input, pos, depth, strict).Done?
    requires open > 0 || (pos < |input| && input[pos] == DICT)
    ensures Scan(payload, pos, open) == After(payload, ParseValue(input, pos, depth, strict).pos, open)
    decreases |input| - pos, 0
  {
    assert payload[pos] == input[pos];
    if input[pos] == INT {
      IntScan(input, payload, pos, strict);
    } else if input[pos] == LIST {
      ScanItems(input, payload, pos + 1, depth, strict, [], open);
    } else if input[pos] == DICT {
      ScanEntries(input, payload, pos + 1, depth, strict, [], None, open);
    } else {
      StringScan(input, payload, pos, strict);
    }
  }

  lemma {:induction false} ScanItems(input: seq<byte>, payload: seq<byte>, pos: nat, depth: nat, strict: bool, acc: seq<Value>, open: nat)
    requires input <= payload && |payload| < U64 && pos <= |input| && ParseItems(input, pos, depth, strict, acc).Done?
    ensures Scan(payload, pos, open + 1) == After(payload, ParseItems(input, pos, depth, strict, acc).pos, open)
    decreases |input| - pos, 1
  {
    assert payload[pos] == input[pos];
    if input[pos] != END {
      var one := ParseValue(input, pos, depth + 1, strict);
      ScanValue(input, payload, pos, depth + 1, strict, open + 1);
      ScanItems(input, payload, one.pos, depth, strict, acc + [one.value], open);
    }
  }

  lemma {:induction false} ScanEntry(input: seq<byte>, payload: seq<byte>, pos: nat, depth: nat, strict: bool, last: Option<seq<byte>>, open: nat)
    requires input <= payload && |payload| < U64 && pos <= |input| && ParseEntry(input, pos, depth, strict, last).Done?
    ensures Scan(payload, pos, open + 1) == Scan(payload, ParseEntry(input, pos, depth, strict, last).pos, open + 1)
    decreases |input| - pos, 1
  {
    ScanValue(input, payload, pos, depth + 1, strict, open + 1);
    ScanValue(input, payload, ParseValue(input, pos, depth + 1, strict).pos, depth + 1, strict, open + 1);
  }

  lemma {:induction false} ScanEntries(input: seq<byte>, payload: seq<byte>, pos: nat, depth: nat, strict: bool, acc: seq<Entry>, last: Option<seq<byte>>, open: nat)
    requires input <= payload && |payload| < U64 && pos <= |input| && ParseEntries(input, pos, depth, strict, acc, last).Done?
    ensures Scan(payload, pos, open + 1) == After(payload, ParseEntries(input, pos, depth, strict, acc, last).pos, open)
    decreases |input| - pos, 2
  {
    assert payload[pos] == input[pos];
    if input[pos] != END {
      var one := ParseEntry(input, pos, depth, strict, last);
      ScanEntry(input, payload, pos, depth, strict, last, open);
      ScanEntries(input, payload, one.pos, depth, strict, Insert(acc, one.value), Some(one.value.key), open);
    }
  }

  /** Whatever bytes follow, a prefix that decodes as a dictionary is the prefix the scanner finds. */
  lemma ScannerFindsDict(payload: seq<byte>, k: nat, strict: bool)
    requires k <= |payload| < U64
    requires Decode(payload[..k], strict).Ok? && Decode(payload[..k], strict).value.Dict?
    ensures DictEnd(payload) == Some(k)
  {
    var input := payload[..k];
    assert input[0] == DICT;
    ScanValue(input, payload, 0, 0, strict, 0);
  }

  // ------------------------------------------------------------- prefix decoding

  function DecodePrefix(payload: seq<byte>): Result<(seq<Entry>, nat), ExtError> {
    match DictEnd(payload)
    case None => Err(BadPayload)
    case Some(k) =>
      match Decode(payload[..k], false)
      case Err(_) => Err(BadPayload)
      case Ok(v) => if v.Dict? then Ok((v.entries, k)) else Err(NotADict)
  }

  /**
   Prefix decoding finds exactly the prefix that decodes leniently as a
   dictionary; a payload without one is a bad payload, never "not a dictionary".
   */
  lemma DecodePrefixIff(payload: seq<byte>, entries: seq<Entry>, k: nat)
    requires |payload| < U64
    ensures DecodePrefix(payload) == Ok((entries, k)) <==> k <= |payload| && Decode(payload[..k], false) == Ok(Dict(entries))
    ensures DecodePrefix(payload) != Err(NotADict)
  {
    if k <= |payload| && Decode(payload[..k], false) == Ok(Dict(entries)) {
      ScannerFindsDict(payload, k, false);
    }
    if DictEnd(payload).Some? {
      assert payload[..DictEnd(payload).value][0] == DICT;
    }
  }

  // ------------------------------------------------------------------- messages

  datatype MetadataMessage =
    | Request(piece: nat)
    | Data(piece: nat, totalSize: Option<nat>, data: seq<byte>)
    | Reject(piece: nat)

  datatype ExtHandshake = ExtHandshake(utMetadata: Option<nat>, metadataSize: Option<nat>)

  /** The cast of a `u64` to an `i64`. */
  function AsI64(u: nat): int {
    if u <= I64_MAX then u else u - U64
  }

  function IntAt(entries: seq<Entry>, key: seq<byte>): Option<int> {
    match Lookup(entries, key)
    case Some(Int(n)) => Some(n)
    case _ => None
  }

  /** A number that is there and positive. */
  function PositiveAt(entries: seq<Entry>, key: seq<byte>): Option<nat> {
    match IntAt(entries, key)
    case Some(n) => if n > 0 then Some(n) else None
    case None => None
  }

  function MessageOf(top: seq<Entry>, rest: seq<byte>): Result<MetadataMessage, ExtError> {
    var kind, piece := IntAt(top, MSG_TYPE), IntAt(top, PIECE);
    if kind.None? || piece.None? || piece.value < 0 then Err(BadPayload)
    else if kind.value == 0 then Ok(Request(piece.value))
    else if kind.value == 1 then Ok(Data(piece.value, PositiveAt(top, TOTAL_SIZE), rest))
    else if kind.value == 2 then Ok(Reject(piece.value))
    else Err(BadPayload)
  }

  function ParseMetadataMessage(payload: seq<byte>): Result<MetadataMessage, ExtError> {
    match DecodePrefix(payload)
    case Err(e) => Err(e)
    case Ok((top, consumed)) => MessageOf(top, if consumed <= |payload| then payload[consumed..] else [])
  }

  function ParseExtHandshake(payload: seq<byte>): Result<ExtHandshake, ExtError> {
    match DecodePrefix(payload)
    case Err(e) => Err(e)
    case Ok((top, _)) =>
      var id := match Lookup(top, M) {
        case Some(Dict(m)) => PositiveAt(m, UT_METADATA)
        case _ => None
      };
      Ok(ExtHandshake(if id.Some? && id.value <= 255 then id else None, PositiveAt(top, METADATA_SIZE)))
  }

  /** The dictionary of a metadata message, keys in order. */
  function MetadataTop(kind: int, piece: nat, totalSize: Option<nat>): seq<Entry> {
    [Entry(MSG_TYPE, Int(kind)), Entry(PIECE, Int(AsI64(piece)))]
    + if totalSize.Some? then [Entry(TOTAL_SIZE, Int(AsI64(totalSize.value)))] else []
  }

  function HandshakeTop(metadataSize: Option<nat>): seq<Entry> {
    [Entry(M, Dict([Entry(UT_METADATA, Int(1))]))]
    + if metadataSize.Some? then [Entry(METADATA_SIZE, Int(AsI64(metadataSize.value)))] else []
  }

  method BuildMetadata(kind: int, piece: nat, totalSize: Option<nat>, data: seq<byte>) returns (out: seq<byte>)
    ensures out == Encode(Dict(MetadataTop(kind, piece, totalSize))) + data
  {
    var top: seq<Entry> := Insert([], Entry(MSG_TYPE, Int(kind)));
    InsertLast(top, Entry(PIECE, Int(AsI64(piece))));
    top := Insert(top, Entry(PIECE, Int(AsI64(piece))));
    if totalSize.Some? {
      InsertLast(top, Entry(TOTAL_SIZE, Int(AsI64(totalSize.value))));
      top := Insert(top, Entry(TOTAL_SIZE, Int(AsI64(totalSize.value))));
    }
    assert top == MetadataTop(kind, piece, totalSize);
    out := BencodeParser.EncodeInto(Dict(top), []);
    out := out + data;
  }

  method BuildExtHandshake(metadataSize: Option<nat>) returns (out: seq<byte>)
    ensures out == Encode(Dict(HandshakeTop(metadataSize)))
  {
    var m: seq<Entry> := Insert([], Entry(UT_METADATA, Int(1)));
    assert m == [Entry(UT_METADATA, Int(1))];
    var top: seq<Entry> := Insert([], Entry(M, Dict(m)));
    if metadataSize.Some? {
      assert Before(M, METADATA_SIZE);
      InsertLast(top, Entry(METADATA_SIZE, Int(AsI64(metadataSize.value))));
      top := Insert(top, Entry(METADATA_SIZE, Int(AsI64(metadataSize.value))));
    }
    assert top == HandshakeTop(metadataSize);
    out := BencodeParser.EncodeInto(Dict(top), []);
  }

  // -------------------------------------------------------------- what peers may send

  /** A dictionary text with anything behind it is split where it was joined, and means its last values. */
  lemma PrefixOfText(entries: seq<LooseEntry>, junk: seq<byte>)
    requires Allowed(Mapping(entries), MAX_DEPTH) && |Written(Mapping(entries)) + junk| < U64
    ensures DecodePrefix(Written(Mapping(entries)) + junk) == Ok((Merge([], entries), |Written(Mapping(entries))|))
  {
    var l := Mapping(entries);
    var head := Written(l);
    assert (head + junk)[..|head|] == head;
    LenientIff(head, Meaning(l));
    DecodePrefixIff(head + junk, Merge([], entries), |head|);
  }

  /** The message id a handshake offers: the last `m` is a dictionary that maps `ut_metadata` to 1 up to 255. */
  predicate Offers(entries: seq<LooseEntry>, id: nat) {
    var m := LastValue(entries, M);
    1 <= id <= 255 && m.Some? && m.value.Dict? && Lookup(m.value.entries, UT_METADATA) == Some(Int(id))
  }

  /**
   Any dictionary a peer may send as its handshake, however written, gives exactly the id it offers and its
   last positive metadata size.
   */
  lemma HandshakeMeans(entries: seq<LooseEntry>, junk: seq<byte>, id: nat, size: nat)
    requires Allowed(Mapping(entries), MAX_DEPTH) && |Written(Mapping(entries)) + junk| < U64
    ensures var r := ParseExtHandshake(Written(Mapping(entries)) + junk);
      && r.Ok?
      && (r.value.utMetadata == Some(id) <==> Offers(entries, id))
      && (r.value.metadataSize == Some(size) <==> size > 0 && LastValue(entries, METADATA_SIZE) == Some(Int(size)))
  {
    PrefixOfText(entries, junk);
    MergeMeaning([], entries, M);
    MergeMeaning([], entries, METADATA_SIZE);
  }

  /**
   Any dictionary a peer may send as a metadata message, with `rest` behind it: a request, piece or rejection
   exactly if its last `msg_type` is 0, 1 or 2 and its last `piece` a number that is not negative.
   */
  lemma MetadataMeans(entries: seq<LooseEntry>, rest: seq<byte>, kind: int, piece: int)
    requires Allowed(Mapping(entries), MAX_DEPTH) && |Written(Mapping(entries)) + rest| < U64
    requires LastValue(entries, MSG_TYPE) == Some(Int(kind)) && LastValue(entries, PIECE) == Some(Int(piece))
    ensures var r := ParseMetadataMessage(Written(Mapping(entries)) + rest);
            var total := LastValue(entries, TOTAL_SIZE);
      if piece < 0 || !(0 <= kind <= 2) then r == Err(BadPayload)
      else if kind == 0 then r == Ok(Request(piece))
      else if kind == 2 then r == Ok(Reject(piece))
      else
        && r.Ok? && r.value.Data? && r.value.piece == piece && r.value.data == rest
        && forall n: nat :: r.value.totalSize == Some(n) <==> n > 0 && total == Some(Int(n))
  {
    PrefixOfText(entries, rest);
    AfterPrefix(Written(Mapping(entries)), rest);
    MergeMeaning([], entries, MSG_TYPE);
    MergeMeaning([], entries, PIECE);
    MergeMeaning([], entries, TOTAL_SIZE);
  }

  /** Without a number under `msg_type` or under `piece` it is a bad payload. */
  lemma MetadataNeeds(entries: seq<LooseEntry>, rest: seq<byte>, key: seq<byte>)
    requires Allowed(Mapping(entries), MAX_DEPTH) && |Written(Mapping(entries)) + rest| < U64
    requires key == MSG_TYPE || key == PIECE
    requires LastValue(entries, key).None? || !LastValue(entries, key).value.Int?
    ensures ParseMetadataMessage(Written(Mapping(entries)) + rest) == Err(BadPayload)
  {
    PrefixOfText(entries, rest);
    MergeMeaning([], entries, key);
  }

  // ----------------------------------------------------------------- round trips

  /** An encoded dictionary with anything behind it is split where it was joined. */
  lemma PrefixOfEncoding(entries: seq<Entry>, data: seq<byte>)
    requires Valid(Dict(entries)) && Fits(Dict(entries), MAX_DEPTH) && |Encode(Dict(entries)) + data| < U64
    ensures DecodePrefix(Encode(Dict(entries)) + data) == Ok((entries, |Encode(Dict(entries))|))
  {
    var head := Encode(Dict(entries));
    assert (head + data)[..|head|] == head;
    DecodeIff(head, Dict(entries));
    LenientAgrees(head, Dict(entries));
    DecodePrefixIff(head + data, entries, |head|);
  }

  lemma AfterPrefix<T>(a: seq<T>, b: seq<T>)
    ensures (a + b)[|a|..] == b
  {}

  lemma MetadataTopValid(kind: nat, piece: nat, totalSize: Option<nat>)
    requires kind < 128 && piece < U64 && (totalSize.Some? ==> totalSize.value < U64)
    ensures Valid(Dict(MetadataTop(kind, piece, totalSize))) && Fits(Dict(MetadataTop(kind, piece, totalSize)), MAX_DEPTH)
  {
    var top := MetadataTop(kind, piece, totalSize);
    assert Before(MSG_TYPE, PIECE) && Before(PIECE, TOTAL_SIZE) && Before(MSG_TYPE, TOTAL_SIZE);
    assert Ascending(top);
    forall e | e in top ensures |e.key| < U64 && Valid(e.value) && Fits(e.value, MAX_DEPTH - 1) {
      assert e == top[0] || e == top[1] || e == top[|top| - 1];
    }
  }

  lemma MetadataTopLookup(kind: int, piece: nat, totalSize: Option<nat>)
    ensures var top := MetadataTop(kind, piece, totalSize);
      && IntAt(top, MSG_TYPE) == Some(kind) && IntAt(top, PIECE) == Some(AsI64(piece))
      && IntAt(top, TOTAL_SIZE) == if totalSize.Some? then Some(AsI64(totalSize.value)) else None
  {
    var top := MetadataTop(kind, piece, totalSize);
    assert MSG_TYPE[0] != PIECE[0] && MSG_TYPE[0] != TOTAL_SIZE[0] && PIECE[0] != TOTAL_SIZE[0];
    assert Lookup(top, PIECE) == Lookup(top[1..], PIECE);
    assert Lookup(top, TOTAL_SIZE) == Lookup(top[1..], TOTAL_SIZE) == Lookup(top[1..][1..], TOTAL_SIZE);
  }

  /**
   A piece of metadata reads back as it was built, for every piece number an
   `i64` holds; a larger number is refused. The total size is lost exactly when
   it is zero or larger than an `i64` holds.
   */
  lemma DataRoundTrip(piece: nat, totalSize: nat, data: seq<byte>)
    requires piece < U64 && totalSize < U64
    requires |Encode(Dict(MetadataTop(1, piece, Some(totalSize)))) + data| < U64
    ensures ParseMetadataMessage(Encode(Dict(MetadataTop(1, piece, Some(totalSize)))) + data)
         == if piece <= I64_MAX then Ok(Data(piece, if 0 < totalSize <= I64_MAX then Some(totalSize) else None, data))
            else Err(BadPayload)
  {
    var top := MetadataTop(1, piece, Some(totalSize));
    MetadataTopValid(1, piece, Some(totalSize));
    PrefixOfEncoding(top, data);
    MetadataTopLookup(1, piece, Some(totalSize));
    AfterPrefix(Encode(Dict(top)), data);
  }

  /** Requests and rejections read back, whatever follows them, exactly when an `i64` holds the piece number. */
  lemma RequestRoundTrip(piece: nat, reject: bool, junk: seq<byte>)
    requires piece < U64 && |Encode(Dict(MetadataTop(if reject then 2 else 0, piece, None))) + junk| < U64
    ensures ParseMetadataMessage(Encode(Dict(MetadataTop(if reject then 2 else 0, piece, None))) + junk)
         == if piece > I64_MAX then Err(BadPayload) else Ok(if reject then Reject(piece) else Request(piece))
  {
    var kind := if reject then 2 else 0;
    MetadataTopValid(kind, piece, None);
    PrefixOfEncoding(MetadataTop(kind, piece, None), junk);
    MetadataTopLookup(kind, piece, None);
  }

  lemma HandshakeTopValid(metadataSize: Option<nat>)
    requires metadataSize.Some? ==> metadataSize.value < U64
    ensures Valid(Dict(HandshakeTop(metadataSize))) && Fits(Dict(HandshakeTop(metadataSize)), MAX_DEPTH)
  {
    var top := HandshakeTop(metadataSize);
    assert Before(M, METADATA_SIZE);
    assert Ascending(top);
    forall e | e in top ensures |e.key| < U64 && Valid(e.value) && Fits(e.value, MAX_DEPTH - 1) {
      assert e == top[0] || e == top[|top| - 1];
    }
  }

  /** A handshake reads back with the metadata size it was built with, unless that is zero or beyond an `i64`. */
  lemma HandshakeRoundTrip(metadataSize: Option<nat>, junk: seq<byte>)
    requires metadataSize.Some? ==> metadataSize.value < U64
    requires |Encode(Dict(HandshakeTop(metadataSize))) + junk| < U64
    ensures ParseExtHandshake(Encode(Dict(HandshakeTop(metadataSize))) + junk)
         == Ok(ExtHandshake(Some(1), if metadataSize.Some? && 0 < metadataSize.value <= I64_MAX then metadataSize else None))
  {
    var top := HandshakeTop(metadataSize);
    HandshakeTopValid(metadataSize);
    PrefixOfEncoding(top, junk);
    assert Lookup(top, M) == Some(Dict([Entry(UT_METADATA, Int(1))]));
    assert top != [] && Lookup(top, METADATA_SIZE) == Lookup(top[1..], METADATA_SIZE);
  }
}
