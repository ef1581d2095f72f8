/**
 Bencoding (bt/src/bencode.rs; BEP 3, "bencoding"): the values, their canonical
 encoding, and the strict and lenient grammar the parser follows.
 */
module Bencode {
  import opened Common

  const MAX_DEPTH: nat := 128
  const I64_MIN: int := -0x8000_0000_0000_0000
  const I64_MAX: int := 0x7fff_ffff_ffff_ffff

  /** A dictionary is the list of its entries in ascending key order. */
  datatype Value =
    | Bytes(bytes: seq<byte>)
    | Int(number: int)
    | List(items: seq<Value>)
    | Dict(entries: seq<Entry>)

  datatype Entry = Entry(key: seq<byte>, value: Value)

  datatype Error =
    | UnexpectedEnd
    | UnexpectedByte(b: byte)
    | BadInteger
    | BadLength
    | NonStringKey
    | UnsortedOrDuplicateKey
    | TrailingData
    | TooDeep

  const COLON: byte := 58
  const MINUS: byte := 45
  const ZERO: byte := 48
  const INT: byte := 105
  const LIST: byte := 108
  const DICT: byte := 100
  const END: byte := 101

  predicate IsDigit(b: byte) {
    48 <= b <= 57
  }

  // --------------------------------------------------------------------- numbers

  /** Decimal digits without leading zeros, as `to_string` prints them. */
  function Digits(n: nat): (d: seq<byte>)
    ensures |d| > 0
  {
    if n < 10 then [48 + n] else Digits(n / 10) + [48 + n % 10]
  }

  function DigitValue(b: byte): nat {
    if IsDigit(b) then b - 48 else 0
  }

  function Number(d: seq<byte>): nat {
    if d == [] then 0 else Number(d[..|d| - 1]) * 10 + DigitValue(d[|d| - 1])
  }

  predicate AllDigits(d: seq<byte>) {
    forall i :: 0 <= i < |d| ==> IsDigit(d[i])
  }

  /** Digits as printed: some, and a leading zero only for zero itself. */
  predicate Canonical(d: seq<byte>) {
    |d| > 0 && AllDigits(d) && (|d| > 1 ==> d[0] != ZERO)
  }

  lemma {:induction false} DigitsNumber(n: nat)
    ensures Canonical(Digits(n)) && Number(Digits(n)) == n
    ensures n > 0 ==> Digits(n)[0] != ZERO
  {
    if n >= 10 {
      DigitsNumber(n / 10);
      assert Digits(n)[..|Digits(n)| - 1] == Digits(n / 10);
    }
  }

  lemma {:induction false} NumberPositive(d: seq<byte>)
    requires Canonical(d) && d[0] != ZERO
    ensures Number(d) > 0
  {
    if |d| > 1 {
      NumberPositive(d[..|d| - 1]);
    }
  }

  lemma {:induction false} NumberDigits(d: seq<byte>)
    requires Canonical(d)
    ensures Digits(Number(d)) == d
  {
    var init, last := d[..|d| - 1], d[|d| - 1];
    assert d == init + [last];
    if |d| > 1 {
      NumberDigits(init);
      NumberPositive(init);
    } else {
      assert Number(d) == last - 48;
    }
  }

  // -------------------------------------------------------------------- encoding

  function EncodeBytes(b: seq<byte>): (r: seq<byte>)
    ensures |r| > |b|
  {
    Digits(|b|) + ([COLON] + b)
  }

  function Sign(negative: bool): seq<byte> {
    if negative then [MINUS] else []
  }

  function EncodeInt(i: int): seq<byte> {
    [INT] + (Sign(i < 0) + (Digits(if i < 0 then -i else i) + [END]))
  }

  function Encode(v: Value): seq<byte>
    decreases v, 1
  {
    match v
    case Bytes(b) => EncodeBytes(b)
    case Int(i) => EncodeInt(i)
    case List(items) => [LIST] + EncodeItems(items)
    case Dict(entries) => [DICT] + EncodeEntries(entries)
  }

  /** The items of a list and its end mark. */
  function EncodeItems(items: seq<Value>): seq<byte>
    decreases items, 0
  {
    if items == [] then [END] else Encode(items[0]) + EncodeItems(items[1..])
  }

  /** The entries of a dictionary and its end mark. */
  function EncodeEntries(entries: seq<Entry>): seq<byte>
    decreases entries, 0
  {
    if entries == [] then [END]
    else EncodeBytes(entries[0].key) + (Encode(entries[0].value) + EncodeEntries(entries[1..]))
  }

  // ------------------------------------------------------------------ well-formed

  /** The order of byte strings. */
  predicate Before(a: seq<byte>, b: seq<byte>) {
    if b == [] then false
    else if a == [] then true
    else if a[0] != b[0] then a[0] < b[0]
    else Before(a[1..], b[1..])
  }

  predicate Ascending(entries: seq<Entry>) {
    forall i, j :: 0 <= i < j < |entries| ==> Before(entries[i].key, entries[j].key)
  }

  /** What the source's types guarantee: 64-bit integers and lengths, sorted distinct keys. */
  predicate Valid(v: Value) {
    match v
    case Bytes(b) => |b| < U64
    case Int(i) => I64_MIN <= i <= I64_MAX
    case List(items) => forall x :: x in items ==> Valid(x)
    case Dict(entries) => Ascending(entries) && forall e :: e in entries ==> |e.key| < U64 && Valid(e.value)
  }

  /** `v` fits under `room` levels of nesting; a dictionary's keys count one level down. */
  predicate Fits(v: Value, room: int) {
    match v
    case Bytes(_) => room >= 0
    case Int(_) => room >= 0
    case List(items) => room >= 0 && forall x :: x in items ==> Fits(x, room - 1)
    case Dict(entries) => room >= 0 && forall e :: e in entries ==> room >= 1 && Fits(e.value, room - 1)
  }

  // --------------------------------------------------------------------- parsing

  datatype Parse<+T> = Done(value: T, pos: nat) | Fail(error: Error)

  /** The end of the run of digits that starts at `pos`. */
  function DigitsEnd(input: seq<byte>, pos: nat): (r: nat)
    requires pos <= |input|
    ensures pos <= r <= |input|
    ensures forall i :: pos <= i < r ==> IsDigit(input[i])
    ensures r < |input| ==> !IsDigit(input[r])
    decreases |input| - pos
  {
    if pos < |input| && IsDigit(input[pos]) then DigitsEnd(input, pos + 1) else pos
  }

  function IntOf(digits: seq<byte>, negative: bool, strict: bool): Result<Value, Error> {
    if digits == [] then Err(BadInteger)
    else if strict && ((|digits| > 1 && digits[0] == ZERO) || (negative && digits == [ZERO])) then Err(BadInteger)
    else
      var signed: int := if negative then -(Number(digits) as int) else Number(digits);
      if I64_MIN <= signed <= I64_MAX then Ok(Int(signed)) else Err(BadInteger)
  }

  /** The digits and the end mark of an integer whose sign was read. */
  function IntBody(input: seq<byte>, start: nat, negative: bool, strict: bool): (r: Parse<Value>)
    requires start <= |input|
    ensures r.Done? ==> start < r.pos <= |input|
  {
    var end := DigitsEnd(input, start);
    if end >= |input| then Fail(UnexpectedEnd)
    else if input[end] != END then Fail(BadInteger)
    else
      match IntOf(input[start..end], negative, strict)
      case Err(e) => Fail(e)
      case Ok(v) => Done(v, end + 1)
  }

  function ParseInt(input: seq<byte>, pos: nat, strict: bool): (r: Parse<Value>)
    requires pos < |input|
    ensures r.Done? ==> pos < r.pos <= |input|
  {
    if pos + 1 >= |input| then Fail(UnexpectedEnd)
    else if input[pos + 1] == MINUS then IntBody(input, pos + 2, true, strict)
    else IntBody(input, pos + 1, false, strict)
  }

  /** A length prefix: it must fit a 64-bit `usize`. */
  function LengthOf(digits: seq<byte>, strict: bool): Result<nat, Error> {
    if strict && |digits| > 1 && digits[0] == ZERO then Err(BadLength)
    else if Number(digits) >= U64 then Err(BadLength)
    else Ok(Number(digits))
  }

  function ParseBytes(input: seq<byte>, pos: nat, strict: bool): (r: Parse<Value>)
    requires pos < |input| && IsDigit(input[pos])
    ensures r.Done? ==> pos < r.pos <= |input| && r.value.Bytes?
  {
    var end := DigitsEnd(input, pos);
    if end >= |input| then Fail(UnexpectedEnd)
    else if input[end] != COLON then Fail(BadLength)
    else
      match LengthOf(input[pos..end], strict)
      case Err(e) => Fail(e)
      case Ok(length) =>
        if |input| - (end + 1) < length then Fail(UnexpectedEnd)
        else Done(Bytes(input[end + 1..end + 1 + length]), end + 1 + length)
  }

  /** `BTreeMap::insert`: in key order, replacing an equal key. */
  function Insert(entries: seq<Entry>, e: Entry): seq<Entry> {
    if entries == [] || Before(e.key, entries[0].key) then [e] + entries
    else if e.key == entries[0].key then [e] + entries[1..]
    else [entries[0]] + Insert(entries[1..], e)
  }

  /** `BTreeMap::get`. */
  function Lookup(entries: seq<Entry>, key: seq<byte>): Option<Value> {
    if entries == [] then None
    else if entries[0].key == key then Some(entries[0].value)
    else Lookup(entries[1..], key)
  }

  function ParseValue(input: seq<byte>, pos: nat, depth: nat, strict: bool): (r: Parse<Value>)
    requires pos <= |input|
    ensures r.Done? ==> pos < r.pos <= |input|
    decreases |input| - pos, 0
  {
    if depth > MAX_DEPTH then Fail(TooDeep)
    else if pos >= |input| then Fail(UnexpectedEnd)
    else if input[pos] == INT then ParseInt(input, pos, strict)
    else if input[pos] == LIST then ParseItems(input, pos + 1, depth, strict, [])
    else if input[pos] == DICT then ParseEntries(input, pos + 1, depth, strict, [], None)
    else if IsDigit(input[pos]) then ParseBytes(input, pos, strict)
    else Fail(UnexpectedByte(input[pos]))
  }

  /** The items of a list up to its end, after the items `acc`. */
  function ParseItems(input: seq<byte>, pos: nat, depth: nat, strict: bool, acc: seq<Value>): (r: Parse<Value>)
    requires pos <= |input|
    ensures r.Done? ==> pos < r.pos <= |input| && r.value.List?
    decreases |input| - pos, 1
  {
    if pos >= |input| then Fail(UnexpectedEnd)
    else if input[pos] == END then Done(List(acc), pos + 1)
    else
      match ParseValue(input, pos, depth + 1, strict)
      case Fail(e) => Fail(e)
      case Done(v, next) => ParseItems(input, next, depth, strict, acc + [v])
  }

  /** A key and its value; in strict mode the key must lie behind the key `last`. */
  function ParseEntry(input: seq<byte>, pos: nat, depth: nat, strict: bool, last: Option<seq<byte>>): (r: Parse<Entry>)
    requires pos <= |input|
    ensures r.Done? ==> pos < r.pos <= |input|
    decreases |input| - pos, 1
  {
    match ParseValue(input, pos, depth + 1, strict)
    case Fail(e) => Fail(e)
    case Done(k, middle) =>
      if !k.Bytes? then Fail(NonStringKey)
      else if strict && last.Some? && !Before(last.value, k.bytes) then Fail(UnsortedOrDuplicateKey)
      else
        match ParseValue(input, middle, depth + 1, strict)
        case Fail(e) => Fail(e)
        case Done(v, next) => Done(Entry(k.bytes, v), next)
  }

  /** The entries of a dictionary up to its end, after the entries `acc`. */
  function ParseEntries(input: seq<byte>, pos: nat, depth: nat, strict: bool, acc: seq<Entry>, last: Option<seq<byte>>): (r: Parse<Value>)
    requires pos <= |input|
    ensures r.Done? ==> pos < r.pos <= |input| && r.value.Dict?
    decreases |input| - pos, 2
  {
    if pos >= |input| then Fail(UnexpectedEnd)
    else if input[pos] == END then Done(Dict(acc), pos + 1)
    else
      match ParseEntry(input, pos, depth, strict, last)
      case Fail(e) => Fail(e)
      case Done(e, next) => ParseEntries(input, next, depth, strict, Insert(acc, e), Some(e.key))
  }

  function Decode(input: seq<byte>, strict: bool): Result<Value, Error> {
    match ParseValue(input, 0, 0, strict)
    case Fail(e) => Err(e)
    case Done(v, pos) => if pos == |input| then Ok(v) else Err(TrailingData)
  }
}
