/**
 Torrent files (bt/src/metainfo.rs; BEP 3, "metainfo files"): which files are
 accepted, what they mean, and which bytes are hashed. SHA-1 and the UTF-8 check
 are parameters; strings stay byte strings.
 */
module Metainfo {
  import opened Common
  import Bencode
  import opened BencodeProofs
  import Storage
  import EngineModel

  type Value = Bencode.Value
  type Entry = Bencode.Entry

  datatype Error =
    | Bencode(error: Bencode.Error)
    | NotADict
    | MissingKey(name: string)
    | WrongType(name: string)
    | BadPieces
    | BadPath
    | BadName
    | BadLength
    | PieceCountMismatch
    | BothLengthAndFiles
    | NoFiles

  datatype FileEntry = FileEntry(path: seq<seq<byte>>, length: nat)

  datatype Metainfo = Metainfo(
    trackers: seq<seq<seq<byte>>>,
    infoHash: seq<byte>,
    name: seq<byte>,
    pieceLength: nat,
    pieces: seq<seq<byte>>,
    files: seq<FileEntry>,
    totalLength: nat)

  /** The two foreign functions the parser calls. */
  datatype Env = Env(digest: seq<byte> -> seq<byte>, utf8: seq<byte> -> bool)

  function Key(name: string): seq<byte> {
    seq(|name|, i requires 0 <= i < |name| => name[i] as int % 256)
  }

  function ReqBytes(info: seq<Entry>, name: string): Result<seq<byte>, Error> {
    match Bencode.Lookup(info, Key(name))
    case Some(Bytes(b)) => Ok(b)
    case Some(_) => Err(WrongType(name))
    case None => Err(MissingKey(name))
  }

  function ReqU64(info: seq<Entry>, name: string): (r: Result<nat, Error>) {
    match Bencode.Lookup(info, Key(name))
    case Some(Int(n)) => if n >= 0 then Ok(n) else Err(WrongType(name))
    case Some(_) => Err(WrongType(name))
    case None => Err(MissingKey(name))
  }

  // ----------------------------------------------------------------------- paths

  const SLASH: byte := 47
  const BACKSLASH: byte := 92
  const DOT: byte := 46
  const NUL: byte := 0

  predicate SafeComponent(c: seq<byte>) {
    c != [] && c != [DOT] && c != [DOT, DOT] && SLASH !in c && BACKSLASH !in c && NUL !in c
  }

  function Component(env: Env, item: Value): (r: Result<seq<byte>, Error>)
    ensures r.Ok? ==> SafeComponent(r.value)
  {
    if !item.Bytes? then Err(WrongType("path component"))
    else if !env.utf8(item.bytes) || !SafeComponent(item.bytes) then Err(BadPath)
    else Ok(item.bytes)
  }

  function Components(env: Env, items: seq<Value>): (r: Result<seq<seq<byte>>, Error>)
    ensures r.Ok? ==> |r.value| == |items| && forall c :: c in r.value ==> SafeComponent(c)
  {
    if items == [] then Ok([])
    else
      match Component(env, items[0])
      case Err(e) => Err(e)
      case Ok(c) =>
        match Components(env, items[1..])
        case Err(e) => Err(e)
        case Ok(rest) => Ok([c] + rest)
  }

  function FileOf(env: Env, value: Value): (r: Result<FileEntry, Error>)
    ensures r.Ok? ==> r.value.path != [] && forall c :: c in r.value.path ==> SafeComponent(c)
  {
    if !value.Dict? then Err(WrongType("files entry"))
    else
      match ReqU64(value.entries, "length")
      case Err(e) => Err(e)
      case Ok(length) =>
        match Bencode.Lookup(value.entries, Key("path"))
        case None => Err(MissingKey("path"))
        case Some(List(items)) =>
          if items == [] then Err(BadPath)
          else
            (match Components(env, items)
             case Err(e) => Err(e)
             case Ok(path) => Ok(FileEntry(path, length)))
        case Some(_) => Err(WrongType("path"))
  }

  function FilesOf(env: Env, items: seq<Value>): (r: Result<seq<FileEntry>, Error>)
    ensures r.Ok? ==> |r.value| == |items|
    ensures r.Ok? ==> forall f, c :: f in r.value && c in f.path ==> SafeComponent(c)
  {
    if items == [] then Ok([])
    else
      match FileOf(env, items[0])
      case Err(e) => Err(e)
      case Ok(f) =>
        match FilesOf(env, items[1..])
        case Err(e) => Err(e)
        case Ok(rest) => Ok([f] + rest)
  }

  function ParseFiles(env: Env, info: seq<Entry>): (r: Result<seq<FileEntry>, Error>)
    ensures r.Ok? ==> r.value != []
    ensures r.Ok? ==> forall f, c :: f in r.value && c in f.path ==> SafeComponent(c)
  {
    var length, files := Bencode.Lookup(info, Key("length")), Bencode.Lookup(info, Key("files"));
    if length.Some? && files.Some? then Err(BothLengthAndFiles)
    else if length.Some? then
      match length.value
      case Int(n) => if n > 0 then Ok([FileEntry([], n)]) else Err(WrongType("length"))
      case _ => Err(WrongType("length"))
    else if files.Some? then
      match files.value
      case List(items) => if items == [] then Err(NoFiles) else FilesOf(env, items)
      case _ => Err(WrongType("files"))
    else Err(MissingKey("length"))
  }

  // --------------------------------------------------------------------- geometry

  function TotalLength(files: seq<FileEntry>): nat {
    if files == [] then 0 else TotalLength(files[..|files| - 1]) + files[|files| - 1].length
  }

  function Chunks(raw: seq<byte>): seq<seq<byte>> {
    seq(|raw| / 20, i requires 0 <= i < |raw| / 20 => raw[20 * i..20 * i + 20])
  }

  function DivCeil(a: nat, b: nat): nat
    requires b > 0
  {
    (a + b - 1) / b
  }

  lemma TotalGrows(files: seq<FileEntry>, n: nat)
    requires n <= |files|
    ensures TotalLength(files[..n]) <= TotalLength(files)
    decreases |files| - n
  {
    if n < |files| {
      assert files[..n + 1][..n] == files[..n];
      TotalGrows(files, n + 1);
    } else {
      assert files[..n] == files;
    }
  }

  /** The sum of the file lengths, when 64 bits hold it. */
  method SumLengths(files: seq<FileEntry>) returns (total: Option<nat>)
    ensures total == if TotalLength(files) < U64 then Some(TotalLength(files)) else None
  {
    var sum := 0;
    for n := 0 to |files|
      invariant sum == TotalLength(files[..n]) && sum < U64
    {
      assert files[..n + 1][..n] == files[..n];
      TotalGrows(files, n + 1);
      if sum + files[n].length >= U64 {
        return None;
      }
      sum := sum + files[n].length;
    }
    assert files[..|files|] == files;
    return Some(sum);
  }

  /** Components read before those of `r`. */
  function Behind(read: seq<seq<byte>>, r: Result<seq<seq<byte>>, Error>): Result<seq<seq<byte>>, Error> {
    match r
    case Err(e) => Err(e)
    case Ok(rest) => Ok(read + rest)
  }

  lemma BehindStep(env: Env, items: seq<Value>, n: nat, read: seq<seq<byte>>)
    requires n < |items|
    ensures Behind(read, Components(env, items[n..])) ==
      match Component(env, items[n]) {
        case Err(e) => Err(e)
        case Ok(c) => Behind(read + [c], Components(env, items[n + 1..]))
      }
  {
    assert items[n..][1..] == items[n + 1..];
    var one, more := Component(env, items[n]), Components(env, items[n + 1..]);
    if one.Ok? && more.Ok? {
      assert read + ([one.value] + more.value) == read + [one.value] + more.value;
    }
  }

  /** The components of a path, all of them valid, or the first error. */
  method ReadPath(env: Env, items: seq<Value>) returns (path: Result<seq<seq<byte>>, Error>)
    ensures path == Components(env, items)
  {
    var read: seq<seq<byte>> := [];
    assert items[0..] == items && forall c: seq<seq<byte>> :: [] + c == c;
    for n := 0 to |items|
      invariant Behind(read, Components(env, items[n..])) == Components(env, items)
    {
      BehindStep(env, items, n, read);
      var component := Component(env, items[n]);
      if component.Err? {
        return Err(component.error);
      }
      read := read + [component.value];
    }
    assert items[|items|..] == [] && read + [] == read;
    return Ok(read);
  }

  // ---------------------------------------------------------------------- parsing

  function Build(env: Env, info: seq<Entry>, infoBytes: seq<byte>, trackers: seq<seq<seq<byte>>>): Result<Metainfo, Error> {
    var name := ReqBytes(info, "name");
    if name.Err? then Err(name.error)
    else if !env.utf8(name.value) then Err(BadName)
    else if !SafeComponent(name.value) then Err(BadPath)
    else
      var pieceLength := ReqU64(info, "piece length");
      if pieceLength.Err? then Err(pieceLength.error)
      else if pieceLength.value == 0 || pieceLength.value > EngineModel.MAX_PIECE_LENGTH then Err(BadLength)
      else
        var raw := ReqBytes(info, "pieces");
        if raw.Err? then Err(raw.error)
        else if raw.value == [] || |raw.value| % 20 != 0 then Err(BadPieces)
        else
          var files := ParseFiles(env, info);
          if files.Err? then Err(files.error)
          else
            var total := TotalLength(files.value);
            if total >= U64 || total == 0 then Err(BadLength)
            else if DivCeil(total, pieceLength.value) != |Chunks(raw.value)| then Err(PieceCountMismatch)
            else Ok(Metainfo(trackers, env.digest(infoBytes), name.value, pieceLength.value, Chunks(raw.value), files.value, total))
  }

  /** The valid strings among the URLs of a tier. */
  function Urls(env: Env, items: seq<Value>): seq<seq<byte>> {
    if items == [] then []
    else (if items[0].Bytes? && env.utf8(items[0].bytes) then [items[0].bytes] else []) + Urls(env, items[1..])
  }

  function Tiers(env: Env, tiers: seq<Value>): seq<seq<seq<byte>>> {
    if tiers == [] then []
    else (if tiers[0].List? && Urls(env, tiers[0].items) != [] then [Urls(env, tiers[0].items)] else []) + Tiers(env, tiers[1..])
  }

  function Trackers(env: Env, top: seq<Entry>): seq<seq<seq<byte>>> {
    var list := match Bencode.Lookup(top, Key("announce-list")) {
      case Some(List(tiers)) => Tiers(env, tiers)
      case _ => []
    };
    if list != [] then list
    else
      match Bencode.Lookup(top, Key("announce"))
      case Some(Bytes(b)) => if env.utf8(b) then [[b]] else []
      case _ => []
  }

  function Parse(env: Env, input: seq<byte>): Result<Metainfo, Error> {
    match Bencode.Decode(input, true)
    case Err(e) => Err(Bencode(e))
    case Ok(v) =>
      if !v.Dict? then Err(NotADict)
      else
        match Bencode.Lookup(v.entries, Key("info"))
        case None => Err(MissingKey("info"))
        case Some(info) =>
          if !info.Dict? then Err(WrongType("info"))
          else Build(env, info.entries, Bencode.Encode(info), Trackers(env, v.entries))
  }

  function ParseInfoDict(env: Env, infoBytes: seq<byte>, trackers: seq<seq<seq<byte>>>): Result<Metainfo, Error> {
    match Bencode.Decode(infoBytes, true)
    case Err(e) => Err(Bencode(e))
    case Ok(v) => if v.Dict? then Build(env, v.entries, infoBytes, trackers) else Err(NotADict)
  }

  // ----------------------------------------------------------------- main results

  function Lengths(files: seq<FileEntry>): seq<nat> {
    seq(|files|, i requires 0 <= i < |files| => files[i].length)
  }

  lemma {:induction false} TotalIsStart(files: seq<FileEntry>, n: nat)
    requires n <= |files|
    ensures Storage.Start(Lengths(files), n) == TotalLength(files[..n])
  {
    if n > 0 {
      TotalIsStart(files, n - 1);
      assert files[..n][..n - 1] == files[..n - 1];
    }
  }

  /** What the engine reads of an accepted torrent. */
  function ToMeta(m: Metainfo, env: Env, maxPeers: nat): EngineModel.Meta {
    EngineModel.Meta(m.pieceLength, m.totalLength, m.pieces, env.digest, maxPeers)
  }

  /** Geometry and names every consumer of a torrent relies on. */
  ghost predicate WellFormed(m: Metainfo) {
    && Storage.PieceCount(m.pieceLength, m.totalLength, |m.pieces|)
    && m.pieceLength <= EngineModel.MAX_PIECE_LENGTH && m.totalLength < U64
    && (forall i :: 0 <= i < |m.pieces| ==> |m.pieces[i]| == 20)
    && m.files != [] && m.totalLength == Storage.Start(Lengths(m.files), |m.files|)
    && SafeComponent(m.name) && (forall f, c :: f in m.files && c in f.path ==> SafeComponent(c))
  }

  lemma BuildWellFormed(env: Env, info: seq<Entry>, infoBytes: seq<byte>, trackers: seq<seq<seq<byte>>>)
    requires Build(env, info, infoBytes, trackers).Ok?
    ensures WellFormed(Build(env, info, infoBytes, trackers).value)
  {
    var m := Build(env, info, infoBytes, trackers).value;
    TotalIsStart(m.files, |m.files|);
    assert m.files[..|m.files|] == m.files;
  }

  /** Every accepted torrent has a geometry the engine and the storage can work with. */
  lemma AcceptedSound(env: Env, input: seq<byte>, trackers: seq<seq<seq<byte>>>, magnet: bool, maxPeers: nat)
    requires (if magnet then ParseInfoDict(env, input, trackers) else Parse(env, input)).Ok?
    ensures var m := (if magnet then ParseInfoDict(env, input, trackers) else Parse(env, input)).value;
      WellFormed(m) && EngineModel.Sound(ToMeta(m, env, maxPeers))
      && Storage.SizeOfFirst(m.pieceLength, Storage.Start(Lengths(m.files), |m.files|), |m.pieces|) == m.totalLength
  {
    var m := (if magnet then ParseInfoDict(env, input, trackers) else Parse(env, input)).value;
    var v := Bencode.Decode(input, true).value;
    if magnet {
      BuildWellFormed(env, v.entries, input, trackers);
    } else {
      var info := Bencode.Lookup(v.entries, Key("info")).value;
      BuildWellFormed(env, info.entries, Bencode.Encode(info), Trackers(env, v.entries));
    }
    Storage.PiecesSum(m.pieceLength, m.totalLength, |m.pieces|);
  }

  lemma {:induction false} FitsMore(v: Value, room: int, more: int)
    requires Bencode.Fits(v, room) && room <= more
    ensures Bencode.Fits(v, more)
    decreases v
  {
    match v {
      case List(items) =>
        forall x | x in items ensures Bencode.Fits(x, more - 1) {
          FitsMore(x, room - 1, more - 1);
        }
      case Dict(entries) =>
        forall e | e in entries ensures Bencode.Fits(e.value, more - 1) {
          FitsMore(e.value, room - 1, more - 1);
        }
      case _ =>
    }
  }

  /** Where the value of a key starts in the encoded entries. */
  function PlaceOf(entries: seq<Entry>, key: seq<byte>): nat {
    if entries == [] then 0
    else if entries[0].key == key then |Bencode.EncodeBytes(key)|
    else |Bencode.EncodeBytes(entries[0].key)| + |Bencode.Encode(entries[0].value)| + PlaceOf(entries[1..], key)
  }

  lemma {:induction false} LookupPlace(input: seq<byte>, pos: nat, entries: seq<Entry>, key: seq<byte>)
    requires At(input, pos, Bencode.EncodeEntries(entries)) && Bencode.Lookup(entries, key).Some?
    ensures var v := Bencode.Lookup(entries, key).value;
      && (exists e :: e in entries && e.key == key && e.value == v)
      && At(input, pos + PlaceOf(entries, key), Bencode.Encode(v))
    decreases |entries|
  {
    var e, tail := entries[0], Bencode.EncodeEntries(entries[1..]);
    var middle := pos + |Bencode.EncodeBytes(e.key)|;
    AtParts(input, pos, Bencode.EncodeBytes(e.key), Bencode.Encode(e.value) + tail);
    AtParts(input, middle, Bencode.Encode(e.value), tail);
    if e.key != key {
      LookupPlace(input, middle + |Bencode.Encode(e.value)|, entries[1..], key);
    }
  }

  /** The entries and the end mark of a dictionary that strict decoding accepted stand behind its first byte. */
  lemma DecodedDict(input: seq<byte>, top: Value)
    requires Bencode.Decode(input, true) == Ok(top) && top.Dict?
    ensures At(input, 1, Bencode.EncodeEntries(top.entries))
    ensures Bencode.Valid(top) && Bencode.Fits(top, Bencode.MAX_DEPTH)
  {
    DecodeIff(input, top);
    StartsWith(input, 0, Bencode.DICT, Bencode.EncodeEntries(top.entries));
  }

  /** A value of an accepted dictionary stands in the file, and its bytes decode to it. */
  lemma DecodedEntry(input: seq<byte>, top: Value, key: seq<byte>)
    requires Bencode.Decode(input, true) == Ok(top) && top.Dict? && Bencode.Lookup(top.entries, key).Some?
    ensures var v := Bencode.Lookup(top.entries, key).value;
      && At(input, 1 + PlaceOf(top.entries, key), Bencode.Encode(v))
      && Bencode.Decode(Bencode.Encode(v), true) == Ok(v)
  {
    DecodedDict(input, top);
    LookupPlace(input, 1, top.entries, key);
    var v := Bencode.Lookup(top.entries, key).value;
    FitsMore(v, Bencode.MAX_DEPTH - 1, Bencode.MAX_DEPTH);
    DecodeIff(Bencode.Encode(v), v);
  }

  /**
   The hashed bytes of an accepted torrent stand as they are in the file, and
   on their own, with the same trackers, they parse to the identical torrent.
   */
  lemma HashedBytes(env: Env, input: seq<byte>)
    requires Parse(env, input).Ok?
    ensures var m := Parse(env, input).value;
            var top := Bencode.Decode(input, true).value.entries;
            var infoBytes := Bencode.Encode(Bencode.Lookup(top, Key("info")).value);
            var place := 1 + PlaceOf(top, Key("info"));
      && place + |infoBytes| <= |input| && input[place..place + |infoBytes|] == infoBytes
      && m.infoHash == env.digest(infoBytes)
      && ParseInfoDict(env, infoBytes, m.trackers) == Ok(m)
  {
    var top := Bencode.Decode(input, true).value;
    DecodedEntry(input, top, Key("info"));
    var info := Bencode.Lookup(top.entries, Key("info")).value;
    AtSlice(input, 1 + PlaceOf(top.entries, Key("info")), Bencode.Encode(info));
  }

  /** A torrent file that holds nothing but the info dictionary. */
  function Wrapped(info: Value): Value {
    Bencode.Dict([Bencode.Entry(Key("info"), info)])
  }

  lemma WrappedBytes(info: Value)
    ensures Bencode.Encode(Wrapped(info))
         == [Bencode.DICT] + (Bencode.EncodeBytes(Key("info")) + (Bencode.Encode(info) + [Bencode.END]))
    ensures |Key("info")| == 4
  {
    var entries := Wrapped(info).entries;
    var e := Bencode.Entry(Key("info"), info);
    assert entries == [e] && entries[1..] == [];
    assert Bencode.EncodeEntries(entries[1..]) == [Bencode.END];
    assert Bencode.EncodeEntries(entries) == Bencode.EncodeBytes(e.key) + (Bencode.Encode(e.value) + Bencode.EncodeEntries(entries[1..]));
  }

  /** Two values that stand at the same place are one value. */
  lemma SameAt(input: seq<byte>, pos: nat, v: Value, w: Value)
    requires Bencode.Valid(v) && Bencode.Fits(v, Bencode.MAX_DEPTH) && At(input, pos, Bencode.Encode(v))
    requires Bencode.Valid(w) && Bencode.Fits(w, Bencode.MAX_DEPTH) && At(input, pos, Bencode.Encode(w))
    ensures v == w
  {
    ParseComplete(input, pos, 0, true, v);
    ParseComplete(input, pos, 0, true, w);
  }

  lemma SameKey(input: seq<byte>, pos: nat, key: seq<byte>, other: seq<byte>, rest: seq<byte>, tail: seq<byte>)
    requires |key| < U64 && |other| < U64
    requires At(input, pos, Bencode.EncodeBytes(key) + rest) && At(input, pos, Bencode.EncodeBytes(other) + tail)
    ensures key == other
  {
    AtParts(input, pos, Bencode.EncodeBytes(key), rest);
    AtParts(input, pos, Bencode.EncodeBytes(other), tail);
    ParseBytesComplete(input, pos, key, true);
    ParseBytesComplete(input, pos, other, true);
  }

  /** Two entries that stand at the same place are one entry. */
  lemma SameEntry(input: seq<byte>, pos: nat, e: Entry, f: Entry, rest: seq<byte>, tail: seq<byte>)
    requires EntryOk(e, 0) && |f.key| < U64 && Bencode.Valid(f.value) && Bencode.Fits(f.value, Bencode.MAX_DEPTH)
    requires At(input, pos, Bencode.EncodeBytes(e.key) + (Bencode.Encode(e.value) + rest))
    requires At(input, pos, Bencode.EncodeBytes(f.key) + (Bencode.Encode(f.value) + tail))
    ensures e == f
  {
    var next := pos + |Bencode.EncodeBytes(e.key)|;
    SameKey(input, pos, e.key, f.key, Bencode.Encode(e.value) + rest, Bencode.Encode(f.value) + tail);
    AtParts(input, pos, Bencode.EncodeBytes(e.key), Bencode.Encode(e.value) + rest);
    AtParts(input, pos, Bencode.EncodeBytes(f.key), Bencode.Encode(f.value) + tail);
    AtParts(input, next, Bencode.Encode(e.value), rest);
    AtParts(input, next, Bencode.Encode(f.value), tail);
    FitsMore(e.value, Bencode.MAX_DEPTH - 1, Bencode.MAX_DEPTH);
    SameAt(input, next, e.value, f.value);
  }

  lemma NotEmpty(input: seq<byte>, pos: nat, key: seq<byte>, rest: seq<byte>, entries: seq<Entry>)
    requires At(input, pos, Bencode.EncodeBytes(key) + rest) && At(input, pos, Bencode.EncodeEntries(entries))
    ensures entries != []
  {
    AtParts(input, pos, Bencode.EncodeBytes(key), rest);
    FirstByte(Bencode.Bytes(key));
    AtOne(input, pos, Bencode.END);
    assert Bencode.EncodeBytes(key)[0] == input[pos];
  }

  /** Whatever a wrapped dictionary decodes to holds it one level down. */
  lemma WrappedDecodes(info: Value, other: Value)
    requires Bencode.Valid(info) && Bencode.Fits(info, Bencode.MAX_DEPTH)
    requires Bencode.Decode(Bencode.Encode(Wrapped(info)), true) == Ok(other)
    ensures Bencode.Fits(info, Bencode.MAX_DEPTH - 1)
  {
    var input := Bencode.Encode(Wrapped(info));
    var rest := Bencode.Encode(info) + [Bencode.END];
    WrappedBytes(info);
    assert At(input, 0, input);
    StartsWith(input, 0, Bencode.DICT, Bencode.EncodeBytes(Key("info")) + rest);
    assert other.Dict? by {
      AtOne(input, 0, Bencode.DICT);
    }
    DecodedDict(input, other);
    NotEmpty(input, 1, Key("info"), rest, other.entries);
    var e := other.entries[0];
    assert e in other.entries;
    SameEntry(input, 1, e, Bencode.Entry(Key("info"), info), Bencode.EncodeEntries(other.entries[1..]), [Bencode.END]);
  }

  lemma WrappedFits(info: Value)
    requires Bencode.Valid(info) && Bencode.Fits(info, Bencode.MAX_DEPTH - 1)
    ensures Bencode.Decode(Bencode.Encode(Wrapped(info)), true) == Ok(Wrapped(info))
  {
    assert |Key("info")| == 4;
    DecodeIff(Bencode.Encode(Wrapped(info)), Wrapped(info));
  }

  /**
   An info dictionary that a peer delivers is accepted as a torrent file too,
   with the same meaning, exactly when it is not nested to the last level.
   */
  lemma WrapIff(env: Env, info: Value, m: Metainfo)
    requires Bencode.Valid(info) && info.Dict? && Bencode.Fits(info, Bencode.MAX_DEPTH)
    requires ParseInfoDict(env, Bencode.Encode(info), []) == Ok(m)
    ensures Parse(env, Bencode.Encode(Wrapped(info))) == Ok(m) <==> Bencode.Fits(info, Bencode.MAX_DEPTH - 1)
  {
    var input := Bencode.Encode(Wrapped(info));
    if Bencode.Fits(info, Bencode.MAX_DEPTH - 1) {
      WrappedFits(info);
      DecodeIff(Bencode.Encode(info), info);
      NoTrackers(env, info);
    } else if Parse(env, input).Ok? {
      WrappedDecodes(info, Bencode.Decode(input, true).value);
    }
  }

  lemma NoTrackers(env: Env, info: Value)
    ensures var top := Wrapped(info).entries;
      Trackers(env, top) == [] && Bencode.Lookup(top, Key("info")) == Some(info)
  {
    var top := Wrapped(info).entries;
    assert |Key("info")| == 4 && |Key("announce")| == 8 && |Key("announce-list")| == 13;
    assert top[0].key == Key("info") && top[1..] == [];
    assert Bencode.Lookup(top, Key("announce")) == Bencode.Lookup(top[1..], Key("announce")) == None;
    assert Bencode.Lookup(top, Key("announce-list")) == Bencode.Lookup(top[1..], Key("announce-list")) == None;
  }

  // ----------------------------------------------- a dictionary at the last level

  /** An empty list inside `n` lists. */
  function Nest(n: nat): Value {
    if n == 0 then Bencode.List([]) else Bencode.List([Nest(n - 1)])
  }

  lemma {:induction false} NestFits(n: nat, room: int)
    ensures Bencode.Valid(Nest(n)) && (Bencode.Fits(Nest(n), room) <==> room >= n)
  {
    if n > 0 {
      NestFits(n - 1, room - 1);
      assert Nest(n - 1) in [Nest(n - 1)];
    }
  }

  /** One piece of one byte, and a key the parser ignores whose value is `n` lists deep. */
  function Odd(n: nat): seq<Entry> {
    [Bencode.Entry(Key("a"), Nest(n)),
     Bencode.Entry(Key("length"), Bencode.Int(1)),
     Bencode.Entry(Key("name"), Bencode.Bytes([120])),
     Bencode.Entry(Key("piece length"), Bencode.Int(1)),
     Bencode.Entry(Key("pieces"), Bencode.Bytes(seq(20, _ => 0)))]
  }

  lemma OddKeys()
    ensures Key("a") == [97] && Key("name")[0] == 110 && Key("length")[0] == 108 && Key("files")[0] == 102
    ensures Key("pieces") == [112, 105, 101, 99, 101, 115]
    ensures Key("piece length") == [112, 105, 101, 99, 101, 32, 108, 101, 110, 103, 116, 104]
    ensures |Key("length")| == 6 && |Key("name")| == 4 && |Key("files")| == 5
  {}

  lemma {:induction false} ApartAt(a: seq<byte>, b: seq<byte>, n: nat)
    requires n < |a| && n < |b| && a[..n] == b[..n] && a[n] < b[n]
    ensures Bencode.Before(a, b)
  {
    if n > 0 {
      assert a[0] == a[..n][0] == b[..n][0] == b[0];
      assert a[1..][..n - 1] == a[..n][1..] && b[1..][..n - 1] == b[..n][1..];
      ApartAt(a[1..], b[1..], n - 1);
    }
  }

  lemma FiveAscending(e: seq<Entry>)
    requires |e| == 5 && Bencode.Before(e[3].key, e[4].key)
    requires forall i :: 0 <= i < 5 ==> e[i].key != []
    requires e[0].key[0] < e[1].key[0] < e[2].key[0] < e[3].key[0] && e[2].key[0] < e[4].key[0]
    ensures Bencode.Ascending(e)
  {}

  lemma OddAscending(n: nat)
    ensures Bencode.Ascending(Odd(n))
  {
    OddKeys();
    ApartAt(Key("piece length"), Key("pieces"), 5);
    FiveAscending(Odd(n));
  }

  lemma OddValid(n: nat)
    ensures Bencode.Valid(Bencode.Dict(Odd(n)))
  {
    OddKeys();
    OddAscending(n);
    NestFits(n, 0);
    forall e | e in Odd(n) ensures |e.key| < U64 && Bencode.Valid(e.value) {
      assert e == Odd(n)[0] || e == Odd(n)[1] || e == Odd(n)[2] || e == Odd(n)[3] || e == Odd(n)[4];
    }
  }

  lemma OddFits(n: nat, room: nat)
    requires room >= 1
    ensures Bencode.Fits(Bencode.Dict(Odd(n)), room) <==> room - 1 >= n
  {
    NestFits(n, room - 1);
    assert Odd(n)[0] in Odd(n);
    forall e | e in Odd(n) && room - 1 >= n ensures Bencode.Fits(e.value, room - 1) {
      assert e == Odd(n)[0] || e == Odd(n)[1] || e == Odd(n)[2] || e == Odd(n)[3] || e == Odd(n)[4];
    }
  }

  lemma {:induction false} LookupAt(entries: seq<Entry>, k: nat)
    requires k < |entries| && forall i :: 0 <= i < k ==> entries[i].key != entries[k].key
    ensures Bencode.Lookup(entries, entries[k].key) == Some(entries[k].value)
  {
    if k > 0 {
      LookupAt(entries[1..], k - 1);
    }
  }

  lemma {:induction false} LookupNone(entries: seq<Entry>, key: seq<byte>)
    requires forall i :: 0 <= i < |entries| ==> entries[i].key != key
    ensures Bencode.Lookup(entries, key) == None
  {
    if entries != [] {
      LookupNone(entries[1..], key);
    }
  }

  lemma OddLookup(n: nat)
    ensures var info := Odd(n);
      && Bencode.Lookup(info, Key("length")) == Some(Bencode.Int(1))
      && Bencode.Lookup(info, Key("name")) == Some(Bencode.Bytes([120]))
      && Bencode.Lookup(info, Key("piece length")) == Some(Bencode.Int(1))
      && Bencode.Lookup(info, Key("pieces")) == Some(Bencode.Bytes(seq(20, _ => 0)))
      && Bencode.Lookup(info, Key("files")) == None
  {
    OddKeys();
    LookupAt(Odd(n), 1);
    LookupAt(Odd(n), 2);
    LookupAt(Odd(n), 3);
    LookupAt(Odd(n), 4);
    LookupNone(Odd(n), Key("files"));
  }

  /**
   Such a dictionary exists: with the surplus lists one level short of the limit it is accepted from
   a peer, and the torrent file that holds nothing else is refused.
   */
  lemma WrapWitness(env: Env)
    requires env.utf8([120])
    ensures var info := Bencode.Dict(Odd(Bencode.MAX_DEPTH - 1));
      && ParseInfoDict(env, Bencode.Encode(info), []).Ok?
      && Parse(env, Bencode.Encode(Wrapped(info))).Err?
  {
    var n := Bencode.MAX_DEPTH - 1;
    var info := Bencode.Dict(Odd(n));
    OddValid(n);
    OddFits(n, Bencode.MAX_DEPTH);
    OddFits(n, Bencode.MAX_DEPTH - 1);
    DecodeIff(Bencode.Encode(info), info);
    OddLookup(n);
    OddBuilds(env, n, Bencode.Encode(info));
    if Parse(env, Bencode.Encode(Wrapped(info))).Ok? {
      WrappedDecodes(info, Bencode.Decode(Bencode.Encode(Wrapped(info)), true).value);
    }
  }

  lemma OddBuilds(env: Env, n: nat, bytes: seq<byte>)
    requires env.utf8([120])
    ensures Build(env, Odd(n), bytes, []).Ok?
  {
    OddLookup(n);
    var files := [FileEntry([], 1)];
    assert files[..0] == [] && TotalLength(files[..0]) == 0;
    assert TotalLength(files) == 1;
    assert DivCeil(1, 1) == 1;
  }
}
