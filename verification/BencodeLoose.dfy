/**
 What lenient decoding accepts, said without the parser: texts with leading zeros,
 minus zero, and dictionary keys in any order and more than once. Peers' extension
 messages are read this way (bt/src/extensions.rs).
 */
module BencodeLoose {
  import opened Common
  import opened Bencode
  import opened BencodeProofs

  // ----------------------------------------------------------------------- texts

  /** A text of a value: every choice the lenient grammar leaves open. */
  datatype Loose =
    | Text(zeros: nat, bytes: seq<byte>)
    | Count(minus: bool, zeros: nat, magnitude: nat)
    | Sequence(items: seq<Loose>)
    | Mapping(entries: seq<LooseEntry>)

  datatype LooseEntry = LooseEntry(zeros: nat, key: seq<byte>, value: Loose)

  function Zeros(n: nat): (d: seq<byte>)
    ensures |d| == n
  {
    seq(n, _ => ZERO)
  }

  function Padded(zeros: nat, n: nat): (d: seq<byte>)
    ensures |d| > 0
  {
    Zeros(zeros) + Digits(n)
  }

  function WrittenBytes(zeros: nat, b: seq<byte>): (r: seq<byte>)
    ensures |r| > |b|
  {
    Padded(zeros, |b|) + ([COLON] + b)
  }

  function WrittenInt(minus: bool, zeros: nat, magnitude: nat): seq<byte> {
    [INT] + (Sign(minus) + (Padded(zeros, magnitude) + [END]))
  }

  function Written(l: Loose): seq<byte>
    decreases l, 1
  {
    match l
    case Text(zeros, b) => WrittenBytes(zeros, b)
    case Count(minus, zeros, magnitude) => WrittenInt(minus, zeros, magnitude)
    case Sequence(items) => [LIST] + WrittenItems(items)
    case Mapping(entries) => [DICT] + WrittenEntries(entries)
  }

  function WrittenItems(items: seq<Loose>): seq<byte>
    decreases items, 0
  {
    if items == [] then [END] else Written(items[0]) + WrittenItems(items[1..])
  }

  function WrittenEntries(entries: seq<LooseEntry>): seq<byte>
    decreases entries, 0
  {
    if entries == [] then [END]
    else WrittenBytes(entries[0].zeros, entries[0].key) + (Written(entries[0].value) + WrittenEntries(entries[1..]))
  }

  // -------------------------------------------------------------------- meanings

  function Signed(minus: bool, magnitude: nat): int {
    if minus then -(magnitude as int) else magnitude
  }

  function Meaning(l: Loose): Value
    decreases l, 1
  {
    match l
    case Text(_, b) => Bytes(b)
    case Count(minus, _, magnitude) => Int(Signed(minus, magnitude))
    case Sequence(items) => List(Meanings(items))
    case Mapping(entries) => Dict(Merge([], entries))
  }

  function Meanings(items: seq<Loose>): (r: seq<Value>)
    ensures |r| == |items|
    decreases items, 0
  {
    if items == [] then [] else [Meaning(items[0])] + Meanings(items[1..])
  }

  /** The dictionary `acc` after the entries of a text, one by one. */
  function Merge(acc: seq<Entry>, entries: seq<LooseEntry>): seq<Entry>
    decreases entries, 0
  {
    if entries == [] then acc
    else Merge(Insert(acc, Entry(entries[0].key, Meaning(entries[0].value))), entries[1..])
  }

  /** What the last entry under `key` means. */
  function LastValue(entries: seq<LooseEntry>, key: seq<byte>): Option<Value> {
    if entries == [] then None
    else
      var later := LastValue(entries[1..], key);
      if later.Some? then later
      else if entries[0].key == key then Some(Meaning(entries[0].value))
      else None
  }

  /** 64-bit integers and lengths, and no more than `room` levels of nesting. */
  predicate Allowed(l: Loose, room: int) {
    room >= 0
    && match l
       case Text(_, b) => |b| < U64
       case Count(minus, _, magnitude) => I64_MIN <= Signed(minus, magnitude) <= I64_MAX
       case Sequence(items) => forall x :: x in items ==> Allowed(x, room - 1)
       case Mapping(entries) => forall e :: e in entries ==> |e.key| < U64 && Allowed(e.value, room - 1)
  }

  predicate ItemsAllowed(items: seq<Loose>, room: int) {
    forall x :: x in items ==> Allowed(x, room)
  }

  predicate EntriesAllowed(entries: seq<LooseEntry>, room: int) {
    forall e :: e in entries ==> |e.key| < U64 && Allowed(e.value, room)
  }

  // --------------------------------------------------------------------- numbers

  lemma {:induction false} ZerosCount(zeros: nat)
    ensures Number(Zeros(zeros)) == 0
  {
    if zeros > 0 {
      assert Zeros(zeros)[..zeros - 1] == Zeros(zeros - 1);
      ZerosCount(zeros - 1);
    }
  }

  /** Leading zeros do not change a number. */
  lemma {:induction false} LeadingZeros(zeros: nat, d: seq<byte>)
    ensures Number(Zeros(zeros) + d) == Number(d)
  {
    if d == [] {
      assert Zeros(zeros) + d == Zeros(zeros);
      ZerosCount(zeros);
    } else {
      var n := |d| - 1;
      assert (Zeros(zeros) + d)[..zeros + n] == Zeros(zeros) + d[..n];
      LeadingZeros(zeros, d[..n]);
    }
  }

  lemma PaddedNumber(zeros: nat, n: nat)
    ensures AllDigits(Padded(zeros, n)) && Number(Padded(zeros, n)) == n
  {
    DigitsNumber(n);
    LeadingZeros(zeros, Digits(n));
  }

  /** Every digit string is a printed number behind some zeros. */
  lemma {:induction false} PaddedOf(d: seq<byte>) returns (zeros: nat)
    requires AllDigits(d) && d != []
    ensures d == Padded(zeros, Number(d))
  {
    if |d| > 1 && d[0] == ZERO {
      var rest := d[1..];
      zeros := PaddedOf(rest);
      assert d == Zeros(1) + rest;
      LeadingZeros(1, rest);
      assert Zeros(1) + Zeros(zeros) == Zeros(zeros + 1);
      zeros := zeros + 1;
    } else {
      zeros := 0;
      NumberDigits(d);
    }
  }

  // ------------------------------------------------------------- texts are accepted

  lemma BytesAccepted(input: seq<byte>, pos: nat, zeros: nat, b: seq<byte>)
    requires |b| < U64 && At(input, pos, WrittenBytes(zeros, b))
    ensures pos < |input| && IsDigit(input[pos])
    ensures ParseBytes(input, pos, false) == Done(Bytes(b), pos + |WrittenBytes(zeros, b)|)
  {
    var d := Padded(zeros, |b|);
    PaddedNumber(zeros, |b|);
    AtParts(input, pos, d, [COLON] + b);
    AtParts(input, pos + |d|, [COLON], b);
    RunAt(input, pos, d, COLON);
    AtOne(input, pos + |d|, COLON);
    assert d[0] == input[pos];
    AtSlice(input, pos, d);
    AtSlice(input, pos + |d| + 1, b);
  }

  lemma IntBodyAccepted(input: seq<byte>, start: nat, minus: bool, zeros: nat, magnitude: nat)
    requires I64_MIN <= Signed(minus, magnitude) <= I64_MAX && At(input, start, Padded(zeros, magnitude) + [END])
    ensures IntBody(input, start, minus, false)
         == Done(Int(Signed(minus, magnitude)), start + |Padded(zeros, magnitude)| + 1)
    ensures start < |input| && input[start] != MINUS
  {
    var d := Padded(zeros, magnitude);
    PaddedNumber(zeros, magnitude);
    AtParts(input, start, d, [END]);
    AtOne(input, start + |d|, END);
    RunAt(input, start, d, END);
    AtSlice(input, start, d);
    assert d[0] == input[start];
  }

  lemma IntAccepted(input: seq<byte>, pos: nat, minus: bool, zeros: nat, magnitude: nat)
    requires I64_MIN <= Signed(minus, magnitude) <= I64_MAX && At(input, pos, WrittenInt(minus, zeros, magnitude))
    ensures pos < |input| && input[pos] == INT
    ensures ParseInt(input, pos, false) == Done(Int(Signed(minus, magnitude)), pos + |WrittenInt(minus, zeros, magnitude)|)
  {
    var body := Padded(zeros, magnitude) + [END];
    StartsWith(input, pos, INT, Sign(minus) + body);
    AtParts(input, pos + 1, Sign(minus), body);
    AtOne(input, pos + 1, MINUS);
    IntBodyAccepted(input, pos + 1 + |Sign(minus)|, minus, zeros, magnitude);
  }

  lemma AtThree(input: seq<byte>, pos: nat, a: seq<byte>, b: seq<byte>, c: seq<byte>)
    ensures At(input, pos, a + (b + c)) <==> At(input, pos, a + b) && At(input, pos + |a + b|, c)
    ensures At(input, pos, a + (b + c)) <==> At(input, pos, a) && At(input, pos + |a|, b) && At(input, pos + |a| + |b|, c)
  {
    AtParts(input, pos, a, b);
    AtParts(input, pos, a, b + c);
    AtParts(input, pos + |a|, b, c);
  }

  lemma FirstWritten(l: Loose)
    ensures |Written(l)| > 0 && Written(l)[0] != END
  {
    if l.Text? {
      PaddedNumber(l.zeros, |l.bytes|);
    }
  }

  /** A text anywhere in the input, at any depth it fits, reads as its meaning. */
  lemma {:induction false} LooseAccepted(input: seq<byte>, pos: nat, depth: nat, l: Loose)
    requires Allowed(l, MAX_DEPTH - depth) && At(input, pos, Written(l))
    ensures ParseValue(input, pos, depth, false) == Done(Meaning(l), pos + |Written(l)|)
    decreases l, 1
  {
    match l
    case Text(zeros, b) => BytesAccepted(input, pos, zeros, b);
    case Count(minus, zeros, magnitude) => IntAccepted(input, pos, minus, zeros, magnitude);
    case Sequence(items) =>
      StartsWith(input, pos, LIST, WrittenItems(items));
      ItemsAccepted(input, pos + 1, depth, items, []);
      assert [] + Meanings(items) == Meanings(items);
    case Mapping(entries) =>
      StartsWith(input, pos, DICT, WrittenEntries(entries));
      EntriesAccepted(input, pos + 1, depth, entries, [], None);
  }

  lemma {:induction false} ItemsAccepted(input: seq<byte>, pos: nat, depth: nat, items: seq<Loose>, acc: seq<Value>)
    requires At(input, pos, WrittenItems(items)) && ItemsAllowed(items, MAX_DEPTH - depth - 1)
    ensures ParseItems(input, pos, depth, false, acc) == Done(List(acc + Meanings(items)), pos + |WrittenItems(items)|)
    decreases items, 0
  {
    if items == [] {
      AtOne(input, pos, END);
      assert acc + Meanings(items) == acc;
    } else {
      var one, rest := Written(items[0]), items[1..];
      AtParts(input, pos, one, WrittenItems(rest));
      FirstWritten(items[0]);
      assert one[0] == input[pos];
      assert items[0] in items;
      LooseAccepted(input, pos, depth + 1, items[0]);
      ItemsAccepted(input, pos + |one|, depth, rest, acc + [Meaning(items[0])]);
      assert acc + [Meaning(items[0])] + Meanings(rest) == acc + Meanings(items);
    }
  }

  lemma {:induction false} EntryAccepted(input: seq<byte>, pos: nat, depth: nat, e: LooseEntry, rest: seq<byte>, last: Option<seq<byte>>)
    requires |e.key| < U64 && MAX_DEPTH - depth >= 1 && Allowed(e.value, MAX_DEPTH - depth - 1)
    requires At(input, pos, WrittenBytes(e.zeros, e.key) + (Written(e.value) + rest))
    ensures var next := pos + |WrittenBytes(e.zeros, e.key)| + |Written(e.value)|;
      && pos < |input| && input[pos] != END && At(input, next, rest)
      && ParseEntry(input, pos, depth, false, last) == Done(Entry(e.key, Meaning(e.value)), next)
    decreases e, 0
  {
    AtThree(input, pos, WrittenBytes(e.zeros, e.key), Written(e.value), rest);
    BytesAccepted(input, pos, e.zeros, e.key);
    LooseAccepted(input, pos + |WrittenBytes(e.zeros, e.key)|, depth + 1, e.value);
  }

  lemma {:induction false} EntriesAccepted(input: seq<byte>, pos: nat, depth: nat, entries: seq<LooseEntry>, acc: seq<Entry>, last: Option<seq<byte>>)
    requires At(input, pos, WrittenEntries(entries))
    requires EntriesAllowed(entries, MAX_DEPTH - depth - 1)
    ensures ParseEntries(input, pos, depth, false, acc, last) == Done(Dict(Merge(acc, entries)), pos + |WrittenEntries(entries)|)
    decreases entries, 0
  {
    if entries == [] {
      AtOne(input, pos, END);
    } else {
      var e, rest := entries[0], entries[1..];
      assert e in entries;
      EntryAccepted(input, pos, depth, e, WrittenEntries(rest), last);
      var next := pos + |WrittenBytes(e.zeros, e.key)| + |Written(e.value)|;
      EntriesAccepted(input, next, depth, rest, Insert(acc, Entry(e.key, Meaning(e.value))), Some(e.key));
    }
  }

  // ------------------------------------------------------- what is accepted is a text

  lemma BytesStand(input: seq<byte>, pos: nat, end: nat, b: seq<byte>)
    requires pos <= end < |input| && input[end] == COLON && end + 1 + |b| <= |input| && input[end + 1..end + 1 + |b|] == b
    ensures At(input, pos, input[pos..end] + ([COLON] + b))
  {
    AtSlice(input, pos, input[pos..end]);
    AtSlice(input, end + 1, b);
    AtOne(input, end, COLON);
    AtParts(input, end, [COLON], b);
    AtParts(input, pos, input[pos..end], [COLON] + b);
  }

  lemma BytesParts(input: seq<byte>, pos: nat) returns (end: nat, b: seq<byte>)
    requires pos < |input| && IsDigit(input[pos]) && ParseBytes(input, pos, false).Done?
    ensures pos < end < |input| && AllDigits(input[pos..end]) && input[end] == COLON
    ensures end + 1 + |b| <= |input| && input[end + 1..end + 1 + |b|] == b && |b| == Number(input[pos..end]) < U64
    ensures ParseBytes(input, pos, false) == Done(Bytes(b), end + 1 + |b|)
  {
    end := DigitsEnd(input, pos);
    var length := Number(input[pos..end]);
    b := input[end + 1..end + 1 + length];
    assert |b| == length;
  }

  lemma BytesText(input: seq<byte>, pos: nat) returns (zeros: nat, b: seq<byte>)
    requires pos < |input| && IsDigit(input[pos]) && ParseBytes(input, pos, false).Done?
    ensures |b| < U64 && At(input, pos, WrittenBytes(zeros, b))
    ensures ParseBytes(input, pos, false) == Done(Bytes(b), pos + |WrittenBytes(zeros, b)|)
  {
    var end: nat;
    end, b := BytesParts(input, pos);
    zeros := PaddedOf(input[pos..end]);
    BytesStand(input, pos, end, b);
  }

  lemma IntStand(input: seq<byte>, pos: nat, minus: bool, end: nat)
    requires pos + 1 + |Sign(minus)| <= end < |input| && input[pos] == INT && input[end] == END
    requires minus ==> input[pos + 1] == MINUS
    ensures At(input, pos, [INT] + (Sign(minus) + (input[pos + 1 + |Sign(minus)|..end] + [END])))
  {
    var start := pos + 1 + |Sign(minus)|;
    var digits := input[start..end];
    AtSlice(input, start, digits);
    AtOne(input, end, END);
    AtParts(input, start, digits, [END]);
    AtOne(input, pos + 1, MINUS);
    AtParts(input, pos + 1, Sign(minus), digits + [END]);
    AtOne(input, pos, INT);
    AtParts(input, pos, [INT], Sign(minus) + (digits + [END]));
  }

  lemma IntText(input: seq<byte>, pos: nat, depth: nat) returns (l: Loose)
    requires pos < |input| && input[pos] == INT && depth <= MAX_DEPTH && ParseInt(input, pos, false).Done?
    ensures ReadsText(input, pos, depth, ParseInt(input, pos, false), l)
  {
    var minus := input[pos + 1] == MINUS;
    var start := pos + 1 + |Sign(minus)|;
    var end := DigitsEnd(input, start);
    var zeros := PaddedOf(input[start..end]);
    IntStand(input, pos, minus, end);
    l := Count(minus, zeros, Number(input[start..end]));
  }

  /** A result that is the meaning of a text `depth` levels down. */
  predicate ReadsText(input: seq<byte>, pos: nat, depth: nat, r: Parse<Value>, l: Loose) {
    && r.Done? && Allowed(l, MAX_DEPTH - depth) && At(input, pos, Written(l))
    && r.pos == pos + |Written(l)| && r.value == Meaning(l)
  }

  predicate ReadsItems(input: seq<byte>, pos: nat, depth: nat, acc: seq<Value>, r: Parse<Value>, items: seq<Loose>) {
    && r.Done? && ItemsAllowed(items, MAX_DEPTH - depth - 1)
    && At(input, pos, WrittenItems(items)) && r.pos == pos + |WrittenItems(items)|
    && r.value == List(acc + Meanings(items))
  }

  predicate ReadsEntry(input: seq<byte>, pos: nat, depth: nat, r: Parse<Entry>, e: LooseEntry) {
    && r.Done? && |e.key| < U64 && Allowed(e.value, MAX_DEPTH - depth - 1)
    && At(input, pos, WrittenBytes(e.zeros, e.key) + Written(e.value))
    && r.pos == pos + |WrittenBytes(e.zeros, e.key) + Written(e.value)|
    && r.value == Entry(e.key, Meaning(e.value))
  }

  predicate ReadsEntries(input: seq<byte>, pos: nat, depth: nat, acc: seq<Entry>, r: Parse<Value>, entries: seq<LooseEntry>) {
    && r.Done? && EntriesAllowed(entries, MAX_DEPTH - depth - 1)
    && At(input, pos, WrittenEntries(entries)) && r.pos == pos + |WrittenEntries(entries)|
    && r.value == Dict(Merge(acc, entries))
  }

  /** Whatever the lenient parser accepts is a text, and its value is what the text means. */
  lemma {:induction false} AcceptedIsText(input: seq<byte>, pos: nat, depth: nat) returns (l: Loose)
    requires pos <= |input| && ParseValue(input, pos, depth, false).Done?
    ensures ReadsText(input, pos, depth, ParseValue(input, pos, depth, false), l)
    decreases |input| - pos, 0
  {
    if input[pos] == INT {
      l := IntText(input, pos, depth);
    } else if input[pos] == LIST {
      var items := AcceptedItems(input, pos + 1, depth, []);
      assert [] + Meanings(items) == Meanings(items);
      AtOne(input, pos, LIST);
      AtParts(input, pos, [LIST], WrittenItems(items));
      l := Sequence(items);
    } else if input[pos] == DICT {
      var entries := AcceptedEntries(input, pos + 1, depth, [], None);
      AtOne(input, pos, DICT);
      AtParts(input, pos, [DICT], WrittenEntries(entries));
      l := Mapping(entries);
    } else {
      var zeros, b := BytesText(input, pos);
      l := Text(zeros, b);
    }
  }

  lemma {:induction false} AcceptedItems(input: seq<byte>, pos: nat, depth: nat, acc: seq<Value>) returns (items: seq<Loose>)
    requires pos <= |input| && ParseItems(input, pos, depth, false, acc).Done?
    ensures ReadsItems(input, pos, depth, acc, ParseItems(input, pos, depth, false, acc), items)
    decreases |input| - pos, 1
  {
    if input[pos] == END {
      items := [];
      AtOne(input, pos, END);
      assert acc + Meanings([]) == acc;
    } else {
      var one := ParseValue(input, pos, depth + 1, false);
      var l := AcceptedIsText(input, pos, depth + 1);
      var rest := AcceptedItems(input, one.pos, depth, acc + [one.value]);
      items := [l] + rest;
      MoreItems(input, pos, depth, acc, l, rest);
    }
  }

  lemma MoreItems(input: seq<byte>, pos: nat, depth: nat, acc: seq<Value>, l: Loose, rest: seq<Loose>)
    requires pos < |input| && input[pos] != END
    requires ReadsText(input, pos, depth + 1, ParseValue(input, pos, depth + 1, false), l)
    requires var one := ParseValue(input, pos, depth + 1, false);
      ReadsItems(input, one.pos, depth, acc + [one.value], ParseItems(input, one.pos, depth, false, acc + [one.value]), rest)
    ensures ReadsItems(input, pos, depth, acc, ParseItems(input, pos, depth, false, acc), [l] + rest)
  {
    var items := [l] + rest;
    assert items[1..] == rest;
    AtParts(input, pos, Written(l), WrittenItems(rest));
    assert acc + [Meaning(l)] + Meanings(rest) == acc + Meanings(items);
  }

  lemma {:induction false} AcceptedEntry(input: seq<byte>, pos: nat, depth: nat, last: Option<seq<byte>>) returns (e: LooseEntry)
    requires pos <= |input| && ParseEntry(input, pos, depth, false, last).Done?
    ensures ReadsEntry(input, pos, depth, ParseEntry(input, pos, depth, false, last), e)
    decreases |input| - pos, 1
  {
    var key := ParseValue(input, pos, depth + 1, false);
    var k := AcceptedIsText(input, pos, depth + 1);
    var l := AcceptedIsText(input, key.pos, depth + 1);
    AtParts(input, pos, Written(k), Written(l));
    e := LooseEntry(k.zeros, k.bytes, l);
  }

  lemma {:induction false} AcceptedEntries(input: seq<byte>, pos: nat, depth: nat, acc: seq<Entry>, last: Option<seq<byte>>) returns (entries: seq<LooseEntry>)
    requires pos <= |input| && ParseEntries(input, pos, depth, false, acc, last).Done?
    ensures ReadsEntries(input, pos, depth, acc, ParseEntries(input, pos, depth, false, acc, last), entries)
    decreases |input| - pos, 2
  {
    if input[pos] == END {
      entries := [];
      AtOne(input, pos, END);
    } else {
      var one := ParseEntry(input, pos, depth, false, last);
      var e := AcceptedEntry(input, pos, depth, last);
      var rest := AcceptedEntries(input, one.pos, depth, Insert(acc, one.value), Some(one.value.key));
      entries := [e] + rest;
      MoreEntries(input, pos, depth, acc, last, e, rest);
    }
  }

  lemma MoreEntries(input: seq<byte>, pos: nat, depth: nat, acc: seq<Entry>, last: Option<seq<byte>>, e: LooseEntry, rest: seq<LooseEntry>)
    requires pos < |input| && input[pos] != END && ReadsEntry(input, pos, depth, ParseEntry(input, pos, depth, false, last), e)
    requires var one := ParseEntry(input, pos, depth, false, last);
             var more := Insert(acc, one.value);
      ReadsEntries(input, one.pos, depth, more, ParseEntries(input, one.pos, depth, false, more, Some(one.value.key)), rest)
    ensures ReadsEntries(input, pos, depth, acc, ParseEntries(input, pos, depth, false, acc, last), [e] + rest)
  {
    assert ([e] + rest)[1..] == rest;
    AtThree(input, pos, WrittenBytes(e.zeros, e.key), Written(e.value), WrittenEntries(rest));
  }

  // ---------------------------------------------------------------- dictionaries

  lemma {:induction false} BeforeTotal(a: seq<byte>, b: seq<byte>)
    ensures a == b || Before(a, b) || Before(b, a)
  {
    if a != [] && b != [] && a[0] == b[0] {
      BeforeTotal(a[1..], b[1..]);
      assert a == [a[0]] + a[1..] && b == [b[0]] + b[1..];
    }
  }

  lemma {:induction false} NotBehind(entries: seq<Entry>, key: seq<byte>)
    requires forall e :: e in entries ==> Before(key, e.key)
    ensures Lookup(entries, key) == None
  {
    if entries != [] {
      assert entries[0] in entries;
      BeforeIrreflexive(key);
      NotBehind(entries[1..], key);
    }
  }

  /** Every key of a list but the first lies behind the first. */
  lemma AscendingTail(entries: seq<Entry>)
    requires entries != [] && Ascending(entries)
    ensures Ascending(entries[1..]) && forall e :: e in entries[1..] ==> Before(entries[0].key, e.key)
  {
    forall e | e in entries[1..] ensures Before(entries[0].key, e.key) {
      var i :| 0 <= i < |entries[1..]| && entries[1..][i] == e;
      assert entries[i + 1] == e;
    }
  }

  lemma AscendingFront(first: Entry, rest: seq<Entry>)
    requires Ascending(rest) && forall e :: e in rest ==> Before(first.key, e.key)
    ensures Ascending([first] + rest)
  {
    var all := [first] + rest;
    forall i, j | 0 <= i < j < |all| ensures Before(all[i].key, all[j].key) {
      assert all[j] == rest[j - 1];
      assert i > 0 ==> all[i] == rest[i - 1];
    }
  }

  /** Inserting keeps the order, sets one key and no other. */
  lemma {:induction false} InsertSets(entries: seq<Entry>, e: Entry, key: seq<byte>)
    requires Ascending(entries)
    ensures Ascending(Insert(entries, e))
    ensures forall x :: x in Insert(entries, e) ==> x == e || x in entries
    ensures Lookup(Insert(entries, e), key) == if key == e.key then Some(e.value) else Lookup(entries, key)
  {
    if entries == [] {
      AscendingFront(e, []);
    } else {
      var first, rest := entries[0], entries[1..];
      AscendingTail(entries);
      BeforeTotal(e.key, first.key);
      if Before(e.key, first.key) {
        InsertFirst(entries, e, key);
      } else if e.key == first.key {
        AscendingFront(e, rest);
        assert ([e] + rest)[1..] == rest;
      } else {
        InsertSets(rest, e, key);
        AscendingFront(first, Insert(rest, e));
        assert ([first] + Insert(rest, e))[1..] == Insert(rest, e);
        BeforeIrreflexive(first.key);
      }
    }
  }

  lemma InsertFirst(entries: seq<Entry>, e: Entry, key: seq<byte>)
    requires entries != [] && Ascending(entries) && Before(e.key, entries[0].key)
    ensures Ascending([e] + entries)
    ensures Lookup([e] + entries, key) == if key == e.key then Some(e.value) else Lookup(entries, key)
  {
    AscendingTail(entries);
    forall x | x in entries ensures Before(e.key, x.key) {
      if x != entries[0] {
        assert x in entries[1..];
        BeforeTransitive(e.key, entries[0].key, x.key);
      }
    }
    AscendingFront(e, entries);
    assert ([e] + entries)[1..] == entries;
  }

  /** A dictionary text means the ascending dictionary that holds the last value of each of its keys. */
  lemma {:induction false} MergeMeaning(acc: seq<Entry>, entries: seq<LooseEntry>, key: seq<byte>)
    requires Ascending(acc)
    ensures Ascending(Merge(acc, entries))
    ensures Lookup(Merge(acc, entries), key) == if LastValue(entries, key).Some? then LastValue(entries, key) else Lookup(acc, key)
    decreases |entries|
  {
    if entries != [] {
      var e := Entry(entries[0].key, Meaning(entries[0].value));
      InsertSets(acc, e, key);
      MergeMeaning(Insert(acc, e), entries[1..], key);
    }
  }

  // ----------------------------------------------------------------- main results

  /** Lenient decoding accepts exactly the texts within depth and 64 bits, and gives what they mean. */
  lemma LenientIff(input: seq<byte>, v: Value)
    ensures Decode(input, false) == Ok(v)
       <==> exists l :: Allowed(l, MAX_DEPTH) && Written(l) == input && Meaning(l) == v
  {
    assert input[0..|input|] == input;
    if Decode(input, false) == Ok(v) {
      var l := AcceptedIsText(input, 0, 0);
      AtSlice(input, 0, Written(l));
      assert Allowed(l, MAX_DEPTH) && Written(l) == input && Meaning(l) == v;
    }
    if exists l :: Allowed(l, MAX_DEPTH) && Written(l) == input && Meaning(l) == v {
      var l :| Allowed(l, MAX_DEPTH) && Written(l) == input && Meaning(l) == v;
      LooseAccepted(input, 0, 0, l);
    }
  }

  /** A dictionary text, keys in any order and repeated, decodes to the last value of each key. */
  lemma LenientDict(entries: seq<LooseEntry>, key: seq<byte>)
    requires Allowed(Mapping(entries), MAX_DEPTH)
    ensures var r := Decode([DICT] + WrittenEntries(entries), false);
      && r.Ok? && r.value.Dict? && Ascending(r.value.entries)
      && Lookup(r.value.entries, key) == LastValue(entries, key)
  {
    var l := Mapping(entries);
    AtSlice(Written(l), 0, Written(l));
    LooseAccepted(Written(l), 0, 0, l);
    MergeMeaning([], entries, key);
  }
}
