/** Strict decoding accepts exactly the canonical encodings, and lenient decoding agrees with it. */
module BencodeProofs {
  import opened Common
  import opened Bencode

  /** `part` stands in `input` at `pos`. */
  predicate At(input: seq<byte>, pos: nat, part: seq<byte>) {
    pos + |part| <= |input| && forall i :: 0 <= i < |part| ==> part[i] == input[pos + i]
  }

  lemma AtSlice(input: seq<byte>, pos: nat, part: seq<byte>)
    ensures At(input, pos, part) <==> pos + |part| <= |input| && input[pos..pos + |part|] == part
  {
    if pos + |part| <= |input| && input[pos..pos + |part|] == part {
      forall i | 0 <= i < |part| ensures part[i] == input[pos + i] {
        assert input[pos..pos + |part|][i] == input[pos + i];
      }
    }
  }

  lemma AtParts(input: seq<byte>, pos: nat, a: seq<byte>, b: seq<byte>)
    ensures At(input, pos, a + b) <==> At(input, pos, a) && At(input, pos + |a|, b)
  {
    if At(input, pos, a + b) {
      forall i | 0 <= i < |b| ensures b[i] == input[pos + |a| + i] {
        assert (a + b)[|a| + i] == b[i];
      }
      forall i | 0 <= i < |a| ensures a[i] == input[pos + i] {
        assert (a + b)[i] == a[i];
      }
    }
  }

  lemma AtOne(input: seq<byte>, pos: nat, b: byte)
    ensures At(input, pos, [b]) <==> pos < |input| && input[pos] == b
  {
    assert [b][0] == b;
  }

  // -------------------------------------------------------------------- numbers

  /** The digit run over printed digits ends where they end. */
  lemma {:induction false} RunEnds(input: seq<byte>, pos: nat, end: nat)
    requires pos <= end < |input| && !IsDigit(input[end])
    requires forall i :: pos <= i < end ==> IsDigit(input[i])
    ensures DigitsEnd(input, pos) == end
    decreases end - pos
  {
    if pos < end {
      RunEnds(input, pos + 1, end);
    }
  }

  lemma RunAt(input: seq<byte>, pos: nat, d: seq<byte>, stop: byte)
    requires AllDigits(d) && At(input, pos, d) && At(input, pos + |d|, [stop]) && !IsDigit(stop)
    ensures DigitsEnd(input, pos) == pos + |d|
  {
    AtOne(input, pos + |d|, stop);
    forall i | pos <= i < pos + |d| ensures IsDigit(input[i]) {
      assert d[i - pos] == input[i];
    }
    RunEnds(input, pos, pos + |d|);
  }

  lemma LengthComplete(n: nat, strict: bool)
    requires n < U64
    ensures LengthOf(Digits(n), strict) == Ok(n)
  {
    DigitsNumber(n);
  }

  lemma LengthSound(digits: seq<byte>)
    requires AllDigits(digits) && digits != [] && LengthOf(digits, true).Ok?
    ensures digits == Digits(LengthOf(digits, true).value) && LengthOf(digits, true).value < U64
  {
    NumberDigits(digits);
  }

  lemma IntComplete(i: int, strict: bool)
    requires I64_MIN <= i <= I64_MAX
    ensures IntOf(Digits(if i < 0 then -i else i), i < 0, strict) == Ok(Int(i))
  {
    DigitsNumber(if i < 0 then -i else i);
  }

  lemma IntSound(digits: seq<byte>, negative: bool)
    requires AllDigits(digits) && IntOf(digits, negative, true).Ok?
    ensures var v := IntOf(digits, negative, true).value;
      Valid(v) && EncodeInt(v.number) == [INT] + (Sign(negative) + (digits + [END]))
  {
    NumberDigits(digits);
    if negative && digits[0] != ZERO {
      NumberPositive(digits);
    }
  }

  lemma ParseBytesComplete(input: seq<byte>, pos: nat, b: seq<byte>, strict: bool)
    requires |b| < U64 && At(input, pos, EncodeBytes(b))
    ensures pos < |input| && IsDigit(input[pos])
    ensures ParseBytes(input, pos, strict) == Done(Bytes(b), pos + |EncodeBytes(b)|)
  {
    var d := Digits(|b|);
    DigitsNumber(|b|);
    AtParts(input, pos, d, [COLON] + b);
    AtParts(input, pos + |d|, [COLON], b);
    RunAt(input, pos, d, COLON);
    AtOne(input, pos + |d|, COLON);
    LengthComplete(|b|, strict);
    assert d[0] == input[pos];
    AtSlice(input, pos, d);
    AtSlice(input, pos + |d| + 1, b);
  }

  lemma IntBodyComplete(input: seq<byte>, start: nat, i: int, strict: bool)
    requires I64_MIN <= i <= I64_MAX && At(input, start, Digits(if i < 0 then -i else i) + [END])
    ensures IntBody(input, start, i < 0, strict) == Done(Int(i), start + |Digits(if i < 0 then -i else i)| + 1)
    ensures start < |input| && input[start] != MINUS
  {
    var d := Digits(if i < 0 then -i else i);
    DigitsNumber(if i < 0 then -i else i);
    AtParts(input, start, d, [END]);
    AtOne(input, start + |d|, END);
    RunAt(input, start, d, END);
    AtSlice(input, start, d);
    assert d[0] == input[start];
    IntComplete(i, strict);
  }

  lemma ParseIntComplete(input: seq<byte>, pos: nat, i: int, strict: bool)
    requires I64_MIN <= i <= I64_MAX && At(input, pos, EncodeInt(i))
    ensures pos < |input| && input[pos] == INT
    ensures ParseInt(input, pos, strict) == Done(Int(i), pos + |EncodeInt(i)|)
  {
    var body := Digits(if i < 0 then -i else i) + [END];
    AtParts(input, pos, [INT], Sign(i < 0) + body);
    AtOne(input, pos, INT);
    AtParts(input, pos + 1, Sign(i < 0), body);
    AtOne(input, pos + 1, MINUS);
    IntBodyComplete(input, pos + 1 + |Sign(i < 0)|, i, strict);
  }

  lemma ParseBytesSound(input: seq<byte>, pos: nat)
    requires pos < |input| && IsDigit(input[pos]) && ParseBytes(input, pos, true).Done?
    ensures var r := ParseBytes(input, pos, true);
      Valid(r.value) && At(input, pos, Encode(r.value)) && r.pos == pos + |Encode(r.value)|
  {
    var end := DigitsEnd(input, pos);
    var digits := input[pos..end];
    LengthSound(digits);
    var b := ParseBytes(input, pos, true).value.bytes;
    AtSlice(input, pos, digits);
    AtSlice(input, end + 1, b);
    AtOne(input, end, COLON);
    AtParts(input, end, [COLON], b);
    AtParts(input, pos, digits, [COLON] + b);
  }

  lemma IntBodySound(input: seq<byte>, start: nat, negative: bool)
    requires start <= |input| && IntBody(input, start, negative, true).Done?
    ensures var r := IntBody(input, start, negative, true);
            var digits := input[start..r.pos - 1];
      && Valid(r.value) && r.value.Int? && EncodeInt(r.value.number) == [INT] + (Sign(negative) + (digits + [END]))
      && At(input, start, digits + [END]) && r.pos == start + |digits| + 1
  {
    var end := DigitsEnd(input, start);
    var digits := input[start..end];
    IntSound(digits, negative);
    AtSlice(input, start, digits);
    AtOne(input, end, END);
    AtParts(input, start, digits, [END]);
  }

  lemma ParseIntSound(input: seq<byte>, pos: nat)
    requires pos < |input| && input[pos] == INT && ParseInt(input, pos, true).Done?
    ensures var r := ParseInt(input, pos, true);
      Valid(r.value) && r.value.Int? && At(input, pos, EncodeInt(r.value.number)) && r.pos == pos + |EncodeInt(r.value.number)|
  {
    var negative := input[pos + 1] == MINUS;
    var start := pos + 1 + |Sign(negative)|;
    IntBodySound(input, start, negative);
  }

  // ------------------------------------------------------- encodings are accepted

  lemma FirstByte(v: Value)
    ensures |Encode(v)| > 0 && Encode(v)[0] != END
  {
    if v.Bytes? {
      DigitsNumber(|v.bytes|);
    }
  }

  lemma StartsWith(input: seq<byte>, pos: nat, b: byte, rest: seq<byte>)
    requires At(input, pos, [b] + rest)
    ensures pos < |input| && input[pos] == b && At(input, pos + 1, rest)
  {
    AtParts(input, pos, [b], rest);
    AtOne(input, pos, b);
  }

  /** Strict or lenient, the parser reads an encoding back and stops right behind it. */
  lemma {:induction false} ParseComplete(input: seq<byte>, pos: nat, depth: nat, strict: bool, v: Value)
    requires Valid(v) && Fits(v, MAX_DEPTH - depth) && At(input, pos, Encode(v))
    ensures ParseValue(input, pos, depth, strict) == Done(v, pos + |Encode(v)|)
    decreases v, 1
  {
    match v
    case Bytes(b) => ParseBytesComplete(input, pos, b, strict);
    case Int(i) => ParseIntComplete(input, pos, i, strict);
    case List(items) =>
      StartsWith(input, pos, LIST, EncodeItems(items));
      ItemsComplete(input, pos + 1, depth, strict, items, []);
      assert [] + items == items;
    case Dict(entries) =>
      StartsWith(input, pos, DICT, EncodeEntries(entries));
      DictComplete(input, pos + 1, depth, strict, entries);
  }

  lemma ItemsStop(input: seq<byte>, pos: nat, depth: nat, strict: bool, acc: seq<Value>)
    requires At(input, pos, EncodeItems([]))
    ensures ParseItems(input, pos, depth, strict, acc) == Done(List(acc), pos + |EncodeItems([])|)
  {
    AtOne(input, pos, END);
  }

  lemma ItemStart(input: seq<byte>, pos: nat, v: Value, tail: seq<byte>)
    requires At(input, pos, Encode(v) + tail)
    ensures pos < |input| && input[pos] != END
    ensures At(input, pos, Encode(v)) && At(input, pos + |Encode(v)|, tail)
  {
    AtParts(input, pos, Encode(v), tail);
    FirstByte(v);
    assert Encode(v)[0] == input[pos];
  }

  lemma ItemsStart(input: seq<byte>, pos: nat, items: seq<Value>)
    requires items != [] && At(input, pos, EncodeItems(items))
    ensures var next := pos + |Encode(items[0])|;
      && pos < |input| && input[pos] != END && next <= |input|
      && At(input, pos, Encode(items[0])) && At(input, next, EncodeItems(items[1..]))
      && |EncodeItems(items)| == |Encode(items[0])| + |EncodeItems(items[1..])|
  {
    ItemStart(input, pos, items[0], EncodeItems(items[1..]));
  }

  lemma Regrouped<T>(a: seq<T>, b: seq<T>)
    requires b != []
    ensures a + [b[0]] + b[1..] == a + b
  {}

  predicate ItemsOk(items: seq<Value>, depth: nat) {
    forall x :: x in items ==> Valid(x) && Fits(x, MAX_DEPTH - depth - 1)
  }

  lemma {:induction false} ItemsComplete(input: seq<byte>, pos: nat, depth: nat, strict: bool, items: seq<Value>, acc: seq<Value>)
    requires At(input, pos, EncodeItems(items)) && ItemsOk(items, depth)
    ensures ParseItems(input, pos, depth, strict, acc) == Done(List(acc + items), pos + |EncodeItems(items)|)
    decreases items, 0
  {
    if items == [] {
      ItemsStop(input, pos, depth, strict, acc);
      assert acc + items == acc;
    } else {
      var v, rest := items[0], items[1..];
      var next := pos + |Encode(v)|;
      ItemsStart(input, pos, items);
      ParseComplete(input, pos, depth + 1, strict, v);
      ItemsComplete(input, next, depth, strict, rest, acc + [v]);
      Regrouped(acc, items);
    }
  }

  lemma {:induction false} BeforeIrreflexive(a: seq<byte>)
    ensures !Before(a, a)
  {
    if a != [] {
      BeforeIrreflexive(a[1..]);
    }
  }

  lemma {:induction false} BeforeAsymmetric(a: seq<byte>, b: seq<byte>)
    requires Before(a, b)
    ensures !Before(b, a)
    decreases |a|
  {
    if a != [] && a[0] == b[0] {
      BeforeAsymmetric(a[1..], b[1..]);
    }
  }

  lemma {:induction false} BeforeTransitive(a: seq<byte>, b: seq<byte>, c: seq<byte>)
    requires Before(a, b) && Before(b, c)
    ensures Before(a, c)
    decreases |a|
  {
    if a != [] && a[0] == b[0] && b[0] == c[0] {
      BeforeTransitive(a[1..], b[1..], c[1..]);
    }
  }

  /** A key behind all others is inserted at the end. */
  lemma {:induction false} InsertLast(entries: seq<Entry>, e: Entry)
    requires forall x :: x in entries ==> Before(x.key, e.key)
    ensures Insert(entries, e) == entries + [e]
  {
    if entries != [] {
      assert entries[0] in entries;
      BeforeAsymmetric(entries[0].key, e.key);
      BeforeIrreflexive(e.key);
      InsertLast(entries[1..], e);
      assert [entries[0]] + (entries[1..] + [e]) == entries + [e];
    }
  }

  function LastKey(entries: seq<Entry>): Option<seq<byte>> {
    if entries == [] then None else Some(entries[|entries| - 1].key)
  }

  lemma AppendAscending(acc: seq<Entry>, e: Entry)
    requires Ascending(acc) && (acc == [] || Before(acc[|acc| - 1].key, e.key))
    ensures Ascending(acc + [e]) && Insert(acc, e) == acc + [e]
  {
    forall i | 0 <= i < |acc| ensures Before(acc[i].key, e.key) {
      if i < |acc| - 1 {
        BeforeTransitive(acc[i].key, acc[|acc| - 1].key, e.key);
      }
    }
    InsertLast(acc, e);
  }

  /** The map after inserting the first `n` entries. */
  function Inserted(all: seq<Entry>, n: nat): seq<Entry>
    requires n <= |all|
  {
    if n == 0 then [] else Insert(Inserted(all, n - 1), all[n - 1])
  }

  function KeyBefore(all: seq<Entry>, n: nat): Option<seq<byte>>
    requires n <= |all|
  {
    if n == 0 then None else Some(all[n - 1].key)
  }

  lemma {:induction false} InsertedAll(all: seq<Entry>, n: nat)
    requires Ascending(all) && n <= |all|
    ensures Inserted(all, n) == all[..n]
  {
    if n > 0 {
      InsertedAll(all, n - 1);
      InsertLast(all[..n - 1], all[n - 1]);
      assert all[..n - 1] + [all[n - 1]] == all[..n];
    }
  }

  /** What the entries of a valid dictionary satisfy `depth` levels down. */
  predicate EntryOk(e: Entry, depth: nat) {
    |e.key| < U64 && Valid(e.value) && Fits(e.value, MAX_DEPTH - depth - 1) && MAX_DEPTH - depth >= 1
  }

  lemma {:induction false} EntryComplete(input: seq<byte>, pos: nat, depth: nat, strict: bool, last: Option<seq<byte>>, e: Entry, rest: seq<byte>)
    requires EntryOk(e, depth) && (last.Some? ==> Before(last.value, e.key))
    requires At(input, pos, EncodeBytes(e.key) + (Encode(e.value) + rest))
    ensures var next := pos + |EncodeBytes(e.key)| + |Encode(e.value)|;
      && pos < |input| && input[pos] != END && At(input, next, rest)
      && ParseEntry(input, pos, depth, strict, last) == Done(e, next)
    decreases e, 0
  {
    AtParts(input, pos, EncodeBytes(e.key), Encode(e.value) + rest);
    AtParts(input, pos + |EncodeBytes(e.key)|, Encode(e.value), rest);
    ParseBytesComplete(input, pos, e.key, strict);
    ParseComplete(input, pos + |EncodeBytes(e.key)|, depth + 1, strict, e.value);
  }

  lemma EntriesUnfold(all: seq<Entry>, n: nat)
    requires n < |all|
    ensures EncodeEntries(all[n..]) == EncodeBytes(all[n].key) + (Encode(all[n].value) + EncodeEntries(all[n + 1..]))
    ensures |EncodeEntries(all[n..])| == |EncodeBytes(all[n].key)| + |Encode(all[n].value)| + |EncodeEntries(all[n + 1..])|
  {
    assert all[n..][1..] == all[n + 1..];
  }

  lemma EntriesStop(input: seq<byte>, pos: nat, depth: nat, strict: bool, acc: seq<Entry>, last: Option<seq<byte>>)
    requires At(input, pos, EncodeEntries([]))
    ensures ParseEntries(input, pos, depth, strict, acc, last) == Done(Dict(acc), pos + |EncodeEntries([])|)
  {
    AtOne(input, pos, END);
  }

  /** The entries of a valid dictionary, nested `depth` levels down. */
  predicate AllOk(entries: seq<Entry>, depth: nat) {
    Ascending(entries) && forall e :: e in entries ==> EntryOk(e, depth)
  }

  lemma OneOk(all: seq<Entry>, depth: nat, n: nat)
    requires AllOk(all, depth) && n < |all|
    ensures EntryOk(all[n], depth) && (n > 0 ==> Before(all[n - 1].key, all[n].key))
  {}

  lemma EntryAt(input: seq<byte>, pos: nat, all: seq<Entry>, n: nat)
    requires n < |all| && At(input, pos, EncodeEntries(all[n..]))
    ensures At(input, pos, EncodeBytes(all[n].key) + (Encode(all[n].value) + EncodeEntries(all[n + 1..])))
  {
    EntriesUnfold(all, n);
  }

  /** One entry, then the rest. */
  lemma EntriesStep(input: seq<byte>, pos: nat, depth: nat, strict: bool, all: seq<Entry>, n: nat, next: nat, end: nat)
    requires n < |all| && pos < |input| && input[pos] != END && next <= |input|
    requires ParseEntry(input, pos, depth, strict, KeyBefore(all, n)) == Done(all[n], next)
    requires ParseEntries(input, next, depth, strict, Inserted(all, n + 1), KeyBefore(all, n + 1)) == Done(Dict(Inserted(all, |all|)), end)
    ensures ParseEntries(input, pos, depth, strict, Inserted(all, n), KeyBefore(all, n)) == Done(Dict(Inserted(all, |all|)), end)
  {}

  lemma {:induction false} EntriesComplete(input: seq<byte>, pos: nat, depth: nat, strict: bool, all: seq<Entry>, n: nat)
    requires n <= |all| && At(input, pos, EncodeEntries(all[n..])) && AllOk(all, depth)
    ensures ParseEntries(input, pos, depth, strict, Inserted(all, n), KeyBefore(all, n))
         == Done(Dict(Inserted(all, |all|)), pos + |EncodeEntries(all[n..])|)
    decreases all, |all| - n
  {
    if n == |all| {
      assert all[n..] == [];
      EntriesStop(input, pos, depth, strict, Inserted(all, n), KeyBefore(all, n));
    } else {
      var tail := EncodeEntries(all[n + 1..]);
      var next := pos + |EncodeBytes(all[n].key)| + |Encode(all[n].value)|;
      OneOk(all, depth, n);
      EntryAt(input, pos, all, n);
      EntryComplete(input, pos, depth, strict, KeyBefore(all, n), all[n], tail);
      EntriesComplete(input, next, depth, strict, all, n + 1);
      EntriesUnfold(all, n);
      EntriesStep(input, pos, depth, strict, all, n, next, next + |tail|);
    }
  }

  lemma {:induction false} DictComplete(input: seq<byte>, pos: nat, depth: nat, strict: bool, entries: seq<Entry>)
    requires At(input, pos, EncodeEntries(entries)) && AllOk(entries, depth)
    ensures ParseEntries(input, pos, depth, strict, [], None) == Done(Dict(entries), pos + |EncodeEntries(entries)|)
    decreases entries, |entries| + 1
  {
    assert entries[0..] == entries && entries[..|entries|] == entries;
    EntriesComplete(input, pos, depth, strict, entries, 0);
    InsertedAll(entries, |entries|);
  }

  // --------------------------------------------- strict acceptance means encoding

  /** A result that is the valid encoding of the bytes it was read from. */
  predicate Reads(input: seq<byte>, pos: nat, depth: nat, r: Parse<Value>) {
    && r.Done? && depth <= MAX_DEPTH
    && Valid(r.value) && Fits(r.value, MAX_DEPTH - depth)
    && At(input, pos, Encode(r.value)) && r.pos == pos + |Encode(r.value)|
  }

  /** What the strict parser accepts is the encoding of what it returns, and not too deep. */
  lemma {:induction false} ParseSound(input: seq<byte>, pos: nat, depth: nat)
    requires pos <= |input| && ParseValue(input, pos, depth, true).Done?
    ensures Reads(input, pos, depth, ParseValue(input, pos, depth, true))
    decreases |input| - pos, 0
  {
    if input[pos] == INT {
      ParseIntSound(input, pos);
    } else if input[pos] == LIST {
      ItemsSound(input, pos + 1, depth, []);
      var items := ParseItems(input, pos + 1, depth, true, []).value.items;
      assert items[0..] == items;
      AtParts(input, pos, [LIST], EncodeItems(items));
    } else if input[pos] == DICT {
      EntriesSound(input, pos + 1, depth, []);
      var entries := ParseEntries(input, pos + 1, depth, true, [], None).value.entries;
      assert entries[0..] == entries;
      AtParts(input, pos, [DICT], EncodeEntries(entries));
    } else {
      ParseBytesSound(input, pos);
    }
  }

  predicate ItemsRead(input: seq<byte>, pos: nat, depth: nat, items: seq<Value>, end: nat) {
    && ItemsOk(items, depth) && At(input, pos, EncodeItems(items)) && end == pos + |EncodeItems(items)|
  }

  lemma ItemsReadMore(input: seq<byte>, pos: nat, depth: nat, next: nat, all: seq<Value>, skip: nat, end: nat)
    requires skip < |all| && Reads(input, pos, depth + 1, Done(all[skip], next))
    requires ItemsRead(input, next, depth, all[skip + 1..], end)
    ensures ItemsRead(input, pos, depth, all[skip..], end)
  {
    assert all[skip..] == [all[skip]] + all[skip + 1..];
    assert all[skip..][1..] == all[skip + 1..];
    AtParts(input, pos, Encode(all[skip]), EncodeItems(all[skip + 1..]));
  }

  /** A list that holds the items `acc` and those read from `pos` on. */
  predicate ListRead(input: seq<byte>, pos: nat, depth: nat, acc: seq<Value>, r: Parse<Value>) {
    && r.Done? && r.value.List? && acc <= r.value.items
    && ItemsRead(input, pos, depth, r.value.items[|acc|..], r.pos)
  }

  lemma ListReadMore(input: seq<byte>, pos: nat, depth: nat, next: nat, acc: seq<Value>, v: Value, r: Parse<Value>)
    requires Reads(input, pos, depth + 1, Done(v, next)) && ListRead(input, next, depth, acc + [v], r)
    ensures ListRead(input, pos, depth, acc, r)
  {
    assert (acc + [v])[|acc|] == v;
    assert acc == (acc + [v])[..|acc|];
    ItemsReadMore(input, pos, depth, next, r.value.items, |acc|, r.pos);
  }

  lemma {:induction false} ItemsSound(input: seq<byte>, pos: nat, depth: nat, acc: seq<Value>)
    requires pos <= |input| && depth <= MAX_DEPTH && ParseItems(input, pos, depth, true, acc).Done?
    ensures ListRead(input, pos, depth, acc, ParseItems(input, pos, depth, true, acc))
    decreases |input| - pos, 1
  {
    if input[pos] != END {
      var one := ParseValue(input, pos, depth + 1, true);
      ParseSound(input, pos, depth + 1);
      ItemsSound(input, one.pos, depth, acc + [one.value]);
      ListReadMore(input, pos, depth, one.pos, acc, one.value, ParseItems(input, pos, depth, true, acc));
    }
  }

  predicate EntriesRead(input: seq<byte>, pos: nat, depth: nat, entries: seq<Entry>, end: nat) {
    && (forall e :: e in entries ==> EntryOk(e, depth))
    && At(input, pos, EncodeEntries(entries)) && end == pos + |EncodeEntries(entries)|
  }

  predicate EntryRead(input: seq<byte>, pos: nat, depth: nat, e: Entry, end: nat) {
    && EntryOk(e, depth) && At(input, pos, EncodeBytes(e.key) + Encode(e.value))
    && end == pos + |EncodeBytes(e.key) + Encode(e.value)|
  }

  lemma EntriesReadMore(input: seq<byte>, pos: nat, depth: nat, next: nat, all: seq<Entry>, skip: nat, end: nat)
    requires skip < |all| && EntryRead(input, pos, depth, all[skip], next)
    requires EntriesRead(input, next, depth, all[skip + 1..], end)
    ensures EntriesRead(input, pos, depth, all[skip..], end)
  {
    var e, tail := all[skip], EncodeEntries(all[skip + 1..]);
    EntriesUnfold(all, skip);
    AtParts(input, pos, EncodeBytes(e.key) + Encode(e.value), tail);
    assert EncodeBytes(e.key) + Encode(e.value) + tail == EncodeBytes(e.key) + (Encode(e.value) + tail);
    assert all[skip..] == [e] + all[skip + 1..];
  }

  lemma {:induction false} EntrySound(input: seq<byte>, pos: nat, depth: nat, last: Option<seq<byte>>)
    requires pos <= |input| && ParseEntry(input, pos, depth, true, last).Done?
    ensures var r := ParseEntry(input, pos, depth, true, last);
      EntryRead(input, pos, depth, r.value, r.pos) && (last.Some? ==> Before(last.value, r.value.key))
    decreases |input| - pos, 1
  {
    var key := ParseValue(input, pos, depth + 1, true);
    ParseSound(input, pos, depth + 1);
    ParseSound(input, key.pos, depth + 1);
  }

  /** A dictionary that holds the entries `acc` and those read from `pos` on. */
  predicate DictRead(input: seq<byte>, pos: nat, depth: nat, acc: seq<Entry>, r: Parse<Value>) {
    && r.Done? && r.value.Dict? && acc <= r.value.entries && Ascending(r.value.entries)
    && EntriesRead(input, pos, depth, r.value.entries[|acc|..], r.pos)
  }

  lemma DictReadMore(input: seq<byte>, pos: nat, depth: nat, next: nat, acc: seq<Entry>, e: Entry, r: Parse<Value>)
    requires EntryRead(input, pos, depth, e, next) && DictRead(input, next, depth, acc + [e], r)
    ensures DictRead(input, pos, depth, acc, r)
  {
    assert (acc + [e])[|acc|] == e;
    assert acc == (acc + [e])[..|acc|];
    EntriesReadMore(input, pos, depth, next, r.value.entries, |acc|, r.pos);
  }

  lemma {:induction false} EntriesSound(input: seq<byte>, pos: nat, depth: nat, acc: seq<Entry>)
    requires pos <= |input| && depth <= MAX_DEPTH && Ascending(acc)
    requires ParseEntries(input, pos, depth, true, acc, LastKey(acc)).Done?
    ensures DictRead(input, pos, depth, acc, ParseEntries(input, pos, depth, true, acc, LastKey(acc)))
    decreases |input| - pos, 2
  {
    if input[pos] != END {
      var one := ParseEntry(input, pos, depth, true, LastKey(acc));
      EntrySound(input, pos, depth, LastKey(acc));
      AppendAscending(acc, one.value);
      EntriesSound(input, one.pos, depth, acc + [one.value]);
      DictReadMore(input, pos, depth, one.pos, acc, one.value, ParseEntries(input, pos, depth, true, acc, LastKey(acc)));
    }
  }

  // ------------------------------------------------------------------ main results

  /** Strict decoding accepts exactly the canonical encodings of values that are not too deep. */
  lemma DecodeIff(input: seq<byte>, v: Value)
    ensures Decode(input, true) == Ok(v) <==> input == Encode(v) && Valid(v) && Fits(v, MAX_DEPTH)
  {
    if Decode(input, true) == Ok(v) {
      ParseSound(input, 0, 0);
      assert input[0..|input|] == input;
    }
    if input == Encode(v) && Valid(v) && Fits(v, MAX_DEPTH) {
      assert input[0..|input|] == input;
      ParseComplete(input, 0, 0, true, v);
    }
  }

  /** Whatever strict decoding accepts, lenient decoding accepts with the same value. */
  lemma LenientAgrees(input: seq<byte>, v: Value)
    requires Decode(input, true) == Ok(v)
    ensures Decode(input, false) == Ok(v)
  {
    DecodeIff(input, v);
    assert input[0..|input|] == input;
    ParseComplete(input, 0, 0, false, v);
  }
}
