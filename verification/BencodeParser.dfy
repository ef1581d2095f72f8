/** The recursive parser and the encoder as the source runs them (bt/src/bencode.rs). */
module BencodeParser {
  import opened Common
  import opened Bencode
  import opened BencodeProofs

  /** The method's answer and the cursor are what the grammar says. */
  predicate Agrees<T(==)>(r: Result<T, Error>, pos: nat, p: Parse<T>) {
    match p
    case Done(v, next) => r == Ok(v) && pos == next
    case Fail(e) => r == Err(e)
  }

  class Parser {
    const input: seq<byte>
    const strict: bool
    var pos: nat

    constructor (input: seq<byte>, strict: bool)
      ensures this.input == input && this.strict == strict && pos == 0
    {
      this.input := input;
      this.strict := strict;
      pos := 0;
    }

    /** Moves over a run of digits and returns it; `None` when the input ends first. */
    method TakeDigits() returns (digits: Option<seq<byte>>)
      requires pos <= |input|
      modifies this
      ensures pos == DigitsEnd(input, old(pos))
      ensures digits == if pos < |input| then Some(input[old(pos)..pos]) else None
    {
      var start := pos;
      while pos < |input| && IsDigit(input[pos])
        invariant start <= pos <= |input|
        invariant DigitsEnd(input, pos) == DigitsEnd(input, old(pos))
      {
        pos := pos + 1;
      }
      digits := if pos < |input| then Some(input[start..pos]) else None;
    }

    /** Digits and the end mark, once the sign is read. */
    method Digits(negative: bool) returns (r: Result<Value, Error>)
      requires pos <= |input|
      modifies this
      ensures pos <= |input| && Agrees(r, pos, IntBody(input, old(pos), negative, strict))
    {
      var digits := TakeDigits();
      if digits.None? {
        return Err(UnexpectedEnd);
      }
      pos := pos + 1;
      if input[pos - 1] != END {
        return Err(BadInteger);
      }
      r := IntOf(digits.value, negative, strict);
    }

    method Integer() returns (r: Result<Value, Error>)
      requires pos < |input|
      modifies this
      ensures pos <= |input| && Agrees(r, pos, ParseInt(input, old(pos), strict))
    {
      pos := pos + 1;
      if pos >= |input| {
        return Err(UnexpectedEnd);
      }
      var negative := input[pos] == MINUS;
      if negative {
        pos := pos + 1;
      }
      r := Digits(negative);
    }

    method String() returns (r: Result<Value, Error>)
      requires pos < |input| && IsDigit(input[pos])
      modifies this
      ensures pos <= |input| && Agrees(r, pos, ParseBytes(input, old(pos), strict))
    {
      var digits := TakeDigits();
      if digits.None? {
        return Err(UnexpectedEnd);
      }
      pos := pos + 1;
      if input[pos - 1] != COLON {
        return Err(BadLength);
      }
      var length := LengthOf(digits.value, strict);
      if length.Err? {
        return Err(length.error);
      }
      if |input| - pos < length.value {
        return Err(UnexpectedEnd);
      }
      r := Ok(Bytes(input[pos..pos + length.value]));
      pos := pos + length.value;
    }

    method Value(depth: nat) returns (r: Result<Bencode.Value, Error>)
      requires pos <= |input|
      modifies this
      ensures pos <= |input| && Agrees(r, pos, ParseValue(input, old(pos), depth, strict))
      decreases |input| - pos, 1
    {
      if depth > MAX_DEPTH {
        return Err(TooDeep);
      }
      if pos >= |input| {
        return Err(UnexpectedEnd);
      }
      var b := input[pos];
      if b == INT {
        r := Integer();
      } else if b == LIST {
        r := Items(depth);
      } else if b == DICT {
        r := Entries(depth);
      } else if IsDigit(b) {
        r := String();
      } else {
        r := Err(UnexpectedByte(b));
      }
    }

    method Items(depth: nat) returns (r: Result<Bencode.Value, Error>)
      requires pos < |input| && input[pos] == LIST && depth <= MAX_DEPTH
      modifies this
      ensures pos <= |input| && Agrees(r, pos, ParseItems(input, old(pos) + 1, depth, strict, []))
      decreases |input| - pos, 0
    {
      pos := pos + 1;
      var items: seq<Bencode.Value> := [];
      while true
        invariant old(pos) < pos <= |input|
        invariant ParseItems(input, pos, depth, strict, items) == ParseItems(input, old(pos) + 1, depth, strict, [])
        decreases |input| - pos
      {
        if pos >= |input| {
          return Err(UnexpectedEnd);
        }
        if input[pos] == END {
          pos := pos + 1;
          return Ok(List(items));
        }
        var item := Value(depth + 1);
        if item.Err? {
          return item;
        }
        items := items + [item.value];
      }
    }

    /** A key and its value, following the key `last`. */
    method NextEntry(depth: nat, last: Option<seq<byte>>) returns (r: Result<Entry, Error>)
      requires pos < |input| && depth <= MAX_DEPTH
      modifies this
      ensures pos <= |input| && Agrees(r, pos, ParseEntry(input, old(pos), depth, strict, last))
      decreases |input| - pos, 2
    {
      var key := Value(depth + 1);
      if key.Err? {
        return Err(key.error);
      }
      if !key.value.Bytes? {
        return Err(NonStringKey);
      }
      if strict && last.Some? && !Before(last.value, key.value.bytes) {
        return Err(UnsortedOrDuplicateKey);
      }
      var item := Value(depth + 1);
      if item.Err? {
        return Err(item.error);
      }
      r := Ok(Entry(key.value.bytes, item.value));
    }

    method Entries(depth: nat) returns (r: Result<Bencode.Value, Error>)
      requires pos < |input| && input[pos] == DICT && depth <= MAX_DEPTH
      modifies this
      ensures pos <= |input| && Agrees(r, pos, ParseEntries(input, old(pos) + 1, depth, strict, [], None))
      decreases |input| - pos, 0
    {
      pos := pos + 1;
      var entries: seq<Entry> := [];
      var last: Option<seq<byte>> := None;
      while true
        invariant old(pos) < pos <= |input|
        invariant ParseEntries(input, pos, depth, strict, entries, last) == ParseEntries(input, old(pos) + 1, depth, strict, [], None)
        decreases |input| - pos
      {
        if pos >= |input| {
          return Err(UnexpectedEnd);
        }
        if input[pos] == END {
          pos := pos + 1;
          return Ok(Dict(entries));
        }
        var entry := NextEntry(depth, last);
        if entry.Err? {
          return Err(entry.error);
        }
        last := Some(entry.value.key);
        entries := Insert(entries, entry.value);
      }
    }
  }

  method DecodeWith(input: seq<byte>, strict: bool) returns (r: Result<Value, Error>)
    ensures r == Decode(input, strict)
  {
    var parser := new Parser(input, strict);
    r := parser.Value(0);
    if r.Ok? && parser.pos != |input| {
      r := Err(TrailingData);
    }
  }

  /** Appends a byte string and its length prefix to a buffer. */
  method AppendBytes(b: seq<byte>, buffer: seq<byte>) returns (out: seq<byte>)
    ensures out == buffer + EncodeBytes(b)
  {
    out := buffer + Digits(|b|);
    out := out + [COLON];
    out := out + b;
  }

  /** Appends an integer to a buffer. */
  method AppendInt(i: int, buffer: seq<byte>) returns (out: seq<byte>)
    ensures out == buffer + EncodeInt(i)
  {
    out := buffer + [INT];
    if i < 0 {
      out := out + [MINUS];
    }
    out := out + Digits(if i < 0 then -i else i);
    out := out + [END];
  }

  /** Appends the items of a list and its end mark to a buffer. */
  method AppendItems(items: seq<Value>, buffer: seq<byte>) returns (out: seq<byte>)
    ensures out == buffer + EncodeItems(items)
    decreases items, 0
  {
    out := buffer;
    assert items[0..] == items;
    for n := 0 to |items|
      invariant out + EncodeItems(items[n..]) == buffer + EncodeItems(items)
    {
      out := EncodeInto(items[n], out);
    }
    out := out + [END];
  }

  /** Appends the entries of a dictionary and its end mark to a buffer. */
  method AppendEntries(entries: seq<Entry>, buffer: seq<byte>) returns (out: seq<byte>)
    ensures out == buffer + EncodeEntries(entries)
    decreases entries, 0
  {
    out := buffer;
    assert entries[0..] == entries;
    for n := 0 to |entries|
      invariant out + EncodeEntries(entries[n..]) == buffer + EncodeEntries(entries)
    {
      var key, value := entries[n].key, entries[n].value;
      ghost var tail := EncodeEntries(entries[n + 1..]);
      EntriesUnfold(entries, n);
      out := AppendBytes(key, out);
      out := EncodeInto(value, out);
    }
    out := out + [END];
  }

  /** Appends the encoding of a value to a buffer. */
  method EncodeInto(v: Value, buffer: seq<byte>) returns (out: seq<byte>)
    ensures out == buffer + Encode(v)
    decreases v, 1
  {
    match v {
      case Bytes(b) => out := AppendBytes(b, buffer);
      case Int(i) => out := AppendInt(i, buffer);
      case List(items) =>
        out := AppendItems(items, buffer + [LIST]);
      case Dict(entries) =>
        out := AppendEntries(entries, buffer + [DICT]);
    }
  }
}
