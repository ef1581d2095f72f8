/**
 What an accepted torrent says, field by field, and that every torrent can be written
 down: an info dictionary is accepted exactly if it describes a well-formed torrent.
 */
module MetainfoText {
  import opened Common
  import Bencode
  import opened BencodeProofs
  import opened Metainfo
  import Storage

  // ---------------------------------------------------------------- piece hashes

  function Joined(pieces: seq<seq<byte>>): seq<byte> {
    if pieces == [] then [] else Joined(pieces[..|pieces| - 1]) + pieces[|pieces| - 1]
  }

  predicate Twenties(pieces: seq<seq<byte>>) {
    forall i :: 0 <= i < |pieces| ==> |pieces[i]| == 20
  }

  lemma {:induction false} JoinedAt(pieces: seq<seq<byte>>, i: nat)
    requires Twenties(pieces)
    ensures |Joined(pieces)| == 20 * |pieces|
    ensures i < |pieces| ==> Joined(pieces)[20 * i..20 * i + 20] == pieces[i]
  {
    if pieces != [] {
      var n := |pieces| - 1;
      JoinedAt(pieces[..n], i);
    }
  }

  /** Cutting joined hashes gives them back. */
  lemma ChunksOfJoined(pieces: seq<seq<byte>>)
    requires Twenties(pieces)
    ensures |Joined(pieces)| == 20 * |pieces| && Chunks(Joined(pieces)) == pieces
  {
    JoinedAt(pieces, 0);
    forall i | 0 <= i < |pieces| ensures Chunks(Joined(pieces))[i] == pieces[i] {
      JoinedAt(pieces, i);
    }
  }

  /** Joining cut hashes gives the string back. */
  lemma JoinedChunks(raw: seq<byte>)
    requires |raw| % 20 == 0
    ensures Joined(Chunks(raw)) == raw
  {
    var pieces := Chunks(raw);
    JoinedAt(pieces, 0);
    forall k | 0 <= k < |raw| ensures Joined(pieces)[k] == raw[k] {
      var i := k / 20;
      JoinedAt(pieces, i);
      assert pieces[i][k - 20 * i] == raw[k];
    }
  }

  // ----------------------------------------------------------------------- files

  function PathItems(path: seq<seq<byte>>): seq<Value> {
    seq(|path|, i requires 0 <= i < |path| => Bencode.Bytes(path[i]))
  }

  predicate Usable(env: Env, c: seq<byte>) {
    SafeComponent(c) && env.utf8(c)
  }

  predicate AllUsable(env: Env, path: seq<seq<byte>>) {
    forall c :: c in path ==> Usable(env, c)
  }

  lemma {:induction false} ComponentsIff(env: Env, items: seq<Value>, path: seq<seq<byte>>)
    ensures Components(env, items) == Ok(path) <==> items == PathItems(path) && AllUsable(env, path)
    decreases |items|
  {
    if items != [] && path != [] {
      var rest, tail := items[1..], path[1..];
      ComponentsIff(env, rest, tail);
      assert PathItems(path) == [Bencode.Bytes(path[0])] + PathItems(tail);
      assert items == [items[0]] + rest && path == [path[0]] + tail;
      assert AllUsable(env, path) <==> Usable(env, path[0]) && AllUsable(env, tail);
    }
  }

  /** The entry of a file list says the length and the path of `f`, whatever else it holds. */
  predicate FileDescribed(env: Env, value: Value, f: FileEntry) {
    && value.Dict? && f.path != [] && AllUsable(env, f.path)
    && Bencode.Lookup(value.entries, Key("length")) == Some(Bencode.Int(f.length))
    && Bencode.Lookup(value.entries, Key("path")) == Some(Bencode.List(PathItems(f.path)))
  }

  lemma FileOfIff(env: Env, value: Value, f: FileEntry)
    ensures FileOf(env, value) == Ok(f) <==> FileDescribed(env, value, f)
  {
    if value.Dict? {
      var path := Bencode.Lookup(value.entries, Key("path"));
      if path.Some? && path.value.List? {
        ComponentsIff(env, path.value.items, f.path);
      }
    }
  }

  predicate FilesDescribed(env: Env, items: seq<Value>, files: seq<FileEntry>) {
    |items| == |files| && forall i :: 0 <= i < |files| ==> FileDescribed(env, items[i], files[i])
  }

  lemma {:induction false} FilesOfIff(env: Env, items: seq<Value>, files: seq<FileEntry>)
    ensures FilesOf(env, items) == Ok(files) <==> FilesDescribed(env, items, files)
    decreases |items|
  {
    if items != [] && files != [] {
      FileOfIff(env, items[0], files[0]);
      FilesOfIff(env, items[1..], files[1..]);
      assert files == [files[0]] + files[1..];
      assert FilesDescribed(env, items, files)
        <==> FileDescribed(env, items[0], files[0]) && FilesDescribed(env, items[1..], files[1..]) by {
        if FileDescribed(env, items[0], files[0]) && FilesDescribed(env, items[1..], files[1..]) {
          forall i | 0 <= i < |files| ensures FileDescribed(env, items[i], files[i]) {
            assert i > 0 ==> items[i] == items[1..][i - 1] && files[i] == files[1..][i - 1];
          }
        }
        if FilesDescribed(env, items, files) {
          forall i | 0 <= i < |files| - 1 ensures FileDescribed(env, items[1..][i], files[1..][i]) {
            assert items[1..][i] == items[i + 1] && files[1..][i] == files[i + 1];
          }
        }
      }
    }
  }

  predicate OneFile(info: seq<Entry>, files: seq<FileEntry>) {
    && |files| == 1 && files[0].path == [] && files[0].length > 0
    && Bencode.Lookup(info, Key("length")) == Some(Bencode.Int(files[0].length))
    && Bencode.Lookup(info, Key("files")) == None
  }

  predicate ManyFiles(env: Env, info: seq<Entry>, files: seq<FileEntry>) {
    var list := Bencode.Lookup(info, Key("files"));
    && Bencode.Lookup(info, Key("length")) == None
    && list.Some? && list.value.List? && files != [] && FilesDescribed(env, list.value.items, files)
  }

  lemma ParseFilesIff(env: Env, info: seq<Entry>, files: seq<FileEntry>)
    ensures ParseFiles(env, info) == Ok(files) <==> OneFile(info, files) || ManyFiles(env, info, files)
  {
    var list := Bencode.Lookup(info, Key("files"));
    if list.Some? && list.value.List? {
      FilesOfIff(env, list.value.items, files);
    }
    if |files| == 1 {
      assert files == [files[0]];
    }
  }

  // ------------------------------------------------------------------ the dictionary

  /** The dictionary says what the torrent is, whatever other keys it has. */
  ghost predicate Describes(env: Env, info: seq<Entry>, m: Metainfo) {
    && WellFormed(m) && env.utf8(m.name)
    && Bencode.Lookup(info, Key("name")) == Some(Bencode.Bytes(m.name))
    && Bencode.Lookup(info, Key("piece length")) == Some(Bencode.Int(m.pieceLength))
    && Bencode.Lookup(info, Key("pieces")) == Some(Bencode.Bytes(Joined(m.pieces)))
    && (OneFile(info, m.files) || ManyFiles(env, info, m.files))
  }

  lemma CeilIff(total: nat, size: nat, pieces: nat)
    requires size > 0 && total > 0
    ensures DivCeil(total, size) == pieces <==> pieces > 0 && (pieces - 1) * size < total <= pieces * size
  {
    var q := DivCeil(total, size);
    assert total + size - 1 == q * size + (total + size - 1) % size;
    assert (q - 1) * size == q * size - size;
    if pieces < q {
      MulMono(pieces, q - 1, size);
    } else if pieces > q {
      MulMono(q, pieces - 1, size);
    }
  }

  lemma BuildDescribes(env: Env, info: seq<Entry>, infoBytes: seq<byte>, trackers: seq<seq<seq<byte>>>)
    requires Build(env, info, infoBytes, trackers).Ok?
    ensures Describes(env, info, Build(env, info, infoBytes, trackers).value)
  {
    var m := Build(env, info, infoBytes, trackers).value;
    BuildWellFormed(env, info, infoBytes, trackers);
    JoinedChunks(ReqBytes(info, "pieces").value);
    ParseFilesIff(env, info, m.files);
  }

  lemma DescribedBuilds(env: Env, info: seq<Entry>, infoBytes: seq<byte>, trackers: seq<seq<seq<byte>>>, m: Metainfo)
    requires Describes(env, info, m)
    ensures Build(env, info, infoBytes, trackers) == Ok(m.(trackers := trackers, infoHash := env.digest(infoBytes)))
  {
    ChunksOfJoined(m.pieces);
    ParseFilesIff(env, info, m.files);
    TotalIsStart(m.files, |m.files|);
    assert m.files[..|m.files|] == m.files;
    CeilIff(m.totalLength, m.pieceLength, |m.pieces|);
  }

  /**
   Bytes are accepted as an info dictionary, with meaning `m`, exactly if they are the canonical
   encoding of a dictionary, not too deep, that describes `m`; the hash is the digest of those bytes.
   */
  lemma InfoIff(env: Env, infoBytes: seq<byte>, trackers: seq<seq<seq<byte>>>, m: Metainfo)
    ensures ParseInfoDict(env, infoBytes, trackers) == Ok(m)
       <==> exists info ::
              && infoBytes == Bencode.Encode(Bencode.Dict(info))
              && Bencode.Valid(Bencode.Dict(info)) && Bencode.Fits(Bencode.Dict(info), Bencode.MAX_DEPTH)
              && Describes(env, info, m) && m.trackers == trackers && m.infoHash == env.digest(infoBytes)
  {
    if ParseInfoDict(env, infoBytes, trackers) == Ok(m) {
      var info := Bencode.Decode(infoBytes, true).value.entries;
      DecodeIff(infoBytes, Bencode.Dict(info));
      BuildDescribes(env, info, infoBytes, trackers);
    }
    if info :| && infoBytes == Bencode.Encode(Bencode.Dict(info))
               && Bencode.Valid(Bencode.Dict(info)) && Bencode.Fits(Bencode.Dict(info), Bencode.MAX_DEPTH)
               && Describes(env, info, m) && m.trackers == trackers && m.infoHash == env.digest(infoBytes)
    {
      DecodeIff(infoBytes, Bencode.Dict(info));
      DescribedBuilds(env, info, infoBytes, trackers, m);
    }
  }

  // ------------------------------------------------------------- writing a torrent

  function FileValue(f: FileEntry): Value {
    Bencode.Dict([Bencode.Entry(Key("length"), Bencode.Int(f.length)), Bencode.Entry(Key("path"), Bencode.List(PathItems(f.path)))])
  }

  function FileValues(files: seq<FileEntry>): seq<Value> {
    seq(|files|, i requires 0 <= i < |files| => FileValue(files[i]))
  }

  predicate SingleFile(m: Metainfo) {
    |m.files| == 1 && m.files[0].path == []
  }

  /** The info dictionary of a torrent, keys in order. */
  function InfoEntries(m: Metainfo): seq<Entry> {
    [if SingleFile(m) then Bencode.Entry(Key("length"), Bencode.Int(m.files[0].length))
     else Bencode.Entry(Key("files"), Bencode.List(FileValues(m.files))),
     Bencode.Entry(Key("name"), Bencode.Bytes(m.name)),
     Bencode.Entry(Key("piece length"), Bencode.Int(m.pieceLength)),
     Bencode.Entry(Key("pieces"), Bencode.Bytes(Joined(m.pieces)))]
  }

  /** Names are text, a file list names every file, and lengths fit the integers and strings of bencoding. */
  ghost predicate Writable(env: Env, m: Metainfo) {
    && WellFormed(m) && env.utf8(m.name) && |m.name| < U64 && 20 * |m.pieces| < U64
    && (SingleFile(m) || forall i :: 0 <= i < |m.files| ==> m.files[i].path != [])
    && forall i :: 0 <= i < |m.files| ==> FileWritable(env, m.files[i])
  }

  predicate FileWritable(env: Env, f: FileEntry) {
    f.length <= Bencode.I64_MAX && AllUsable(env, f.path) && forall c :: c in f.path ==> |c| < U64
  }

  lemma MoreKeys()
    ensures Key("path") == [112, 97, 116, 104] && Key("length") == [108, 101, 110, 103, 116, 104]
    ensures Key("files") == [102, 105, 108, 101, 115] && Key("name") == [110, 97, 109, 101]
    ensures Key("info") == [105, 110, 102, 111] && Key("announce-list")[0] == 97 && |Key("announce-list")| == 13
    ensures Key("announce")[0] == 97 && Key("announce") < Key("announce-list")
  {}

  lemma FileValueMeans(env: Env, f: FileEntry)
    requires FileWritable(env, f) && f.path != []
    ensures FileDescribed(env, FileValue(f), f)
    ensures Bencode.Valid(FileValue(f)) && Bencode.Fits(FileValue(f), 2)
  {
    MoreKeys();
    var entries := FileValue(f).entries;
    LookupAt(entries, 0);
    LookupAt(entries, 1);
    var items := PathItems(f.path);
    forall x | x in items ensures Bencode.Valid(x) && Bencode.Fits(x, 0) {
      var i :| 0 <= i < |items| && items[i] == x;
      assert f.path[i] in f.path;
    }
    assert Bencode.Before(Key("length"), Key("path"));
    forall e | e in entries ensures |e.key| < U64 && Bencode.Valid(e.value) && Bencode.Fits(e.value, 1) {
      assert e == entries[0] || e == entries[1];
    }
  }

  lemma FileListMeans(env: Env, files: seq<FileEntry>)
    requires forall i :: 0 <= i < |files| ==> FileWritable(env, files[i]) && files[i].path != []
    ensures FilesDescribed(env, FileValues(files), files)
    ensures Bencode.Valid(Bencode.List(FileValues(files))) && Bencode.Fits(Bencode.List(FileValues(files)), 3)
  {
    var items := FileValues(files);
    forall i | 0 <= i < |files| ensures FileDescribed(env, items[i], files[i]) {
      FileValueMeans(env, files[i]);
    }
    forall x | x in items ensures Bencode.Valid(x) && Bencode.Fits(x, 2) {
      var i :| 0 <= i < |items| && items[i] == x;
      FileValueMeans(env, files[i]);
    }
  }

  lemma FirstValid(env: Env, m: Metainfo)
    requires Writable(env, m)
    ensures var first := InfoEntries(m)[0].value;
      Bencode.Valid(first) && Bencode.Fits(first, 3)
  {
    if !SingleFile(m) {
      FileListMeans(env, m.files);
    }
  }

  lemma FourAscending(e: seq<Entry>)
    requires |e| == 4 && Bencode.Before(e[2].key, e[3].key)
    requires forall i :: 0 <= i < 4 ==> e[i].key != []
    requires e[0].key[0] < e[1].key[0] < e[2].key[0] && e[1].key[0] < e[3].key[0]
    ensures Bencode.Ascending(e)
  {}

  lemma InfoAscending(m: Metainfo)
    ensures Bencode.Ascending(InfoEntries(m))
  {
    MoreKeys();
    OddKeys();
    ApartAt(Key("piece length"), Key("pieces"), 5);
    FourAscending(InfoEntries(m));
  }

  lemma InfoValid(env: Env, m: Metainfo)
    requires Writable(env, m)
    ensures Bencode.Valid(Bencode.Dict(InfoEntries(m))) && Bencode.Fits(Bencode.Dict(InfoEntries(m)), 4)
  {
    InfoAscending(m);
    FirstValid(env, m);
    MoreKeys();
    OddKeys();
    ChunksOfJoined(m.pieces);
    var e := InfoEntries(m);
    forall x | x in e ensures |x.key| < U64 && Bencode.Valid(x.value) && Bencode.Fits(x.value, 3) {
      assert x == e[0] || x == e[1] || x == e[2] || x == e[3];
    }
  }

  lemma InfoDescribes(env: Env, m: Metainfo)
    requires Writable(env, m)
    ensures Describes(env, InfoEntries(m), m)
  {
    MoreKeys();
    OddKeys();
    var e := InfoEntries(m);
    LookupAt(e, 0);
    LookupAt(e, 1);
    LookupAt(e, 2);
    LookupAt(e, 3);
    if SingleFile(m) {
      assert Storage.Start(Lengths(m.files), 1) == Storage.Start(Lengths(m.files), 0) + m.files[0].length;
      LookupNone(e, Key("files"));
    } else {
      LookupNone(e, Key("length"));
      FileListMeans(env, m.files);
    }
  }

  /** Every writable torrent, written as an info dictionary, is read back; its hash is the digest of those bytes. */
  lemma InfoRoundTrip(env: Env, m: Metainfo, trackers: seq<seq<seq<byte>>>)
    requires Writable(env, m)
    ensures var bytes := Bencode.Encode(Bencode.Dict(InfoEntries(m)));
      ParseInfoDict(env, bytes, trackers) == Ok(m.(trackers := trackers, infoHash := env.digest(bytes)))
  {
    var info := InfoEntries(m);
    var bytes := Bencode.Encode(Bencode.Dict(info));
    InfoValid(env, m);
    InfoDescribes(env, m);
    FitsMore(Bencode.Dict(info), 4, Bencode.MAX_DEPTH);
    DecodeIff(bytes, Bencode.Dict(info));
    DescribedBuilds(env, info, bytes, trackers, m);
  }

  // -------------------------------------------------------------------- trackers

  function TierItems(trackers: seq<seq<seq<byte>>>): seq<Value> {
    seq(|trackers|, i requires 0 <= i < |trackers| => Bencode.List(PathItems(trackers[i])))
  }

  /** Tiers as the parser returns them: none empty, every URL text. */
  predicate TiersWritable(env: Env, trackers: seq<seq<seq<byte>>>) {
    forall i :: 0 <= i < |trackers| ==> trackers[i] != [] && forall u :: u in trackers[i] ==> env.utf8(u) && |u| < U64
  }

  lemma {:induction false} UrlsRead(env: Env, urls: seq<seq<byte>>)
    requires forall u :: u in urls ==> env.utf8(u)
    ensures Urls(env, PathItems(urls)) == urls
  {
    if urls != [] {
      assert PathItems(urls)[1..] == PathItems(urls[1..]);
      UrlsRead(env, urls[1..]);
      assert urls == [urls[0]] + urls[1..];
    }
  }

  lemma {:induction false} TiersRead(env: Env, trackers: seq<seq<seq<byte>>>)
    requires TiersWritable(env, trackers)
    ensures Tiers(env, TierItems(trackers)) == trackers
  {
    if trackers != [] {
      assert TierItems(trackers)[1..] == TierItems(trackers[1..]);
      UrlsRead(env, trackers[0]);
      TiersRead(env, trackers[1..]);
      assert trackers == [trackers[0]] + trackers[1..];
    }
  }

  lemma TierItemsValid(env: Env, trackers: seq<seq<seq<byte>>>)
    requires TiersWritable(env, trackers)
    ensures Bencode.Valid(Bencode.List(TierItems(trackers))) && Bencode.Fits(Bencode.List(TierItems(trackers)), 2)
  {
    var items := TierItems(trackers);
    forall x | x in items ensures Bencode.Valid(x) && Bencode.Fits(x, 1) {
      var i :| 0 <= i < |items| && items[i] == x;
      forall y | y in x.items ensures Bencode.Valid(y) && Bencode.Fits(y, 0) {
        var j :| 0 <= j < |x.items| && x.items[j] == y;
        assert trackers[i][j] in trackers[i];
      }
    }
  }

  /** A whole torrent file: perhaps a single announce URL, the tiers of trackers, and the info dictionary. */
  function TorrentEntries(announce: Option<seq<byte>>, m: Metainfo): seq<Entry> {
    (if announce.Some? then [Bencode.Entry(Key("announce"), Bencode.Bytes(announce.value))] else [])
    + [Bencode.Entry(Key("announce-list"), Bencode.List(TierItems(m.trackers))),
       Bencode.Entry(Key("info"), Bencode.Dict(InfoEntries(m)))]
  }

  lemma {:induction false} PrefixBefore(a: seq<byte>, b: seq<byte>)
    requires a < b
    ensures Bencode.Before(a, b)
  {
    if a != [] {
      PrefixBefore(a[1..], b[1..]);
    }
  }

  lemma TorrentAscending(announce: Option<seq<byte>>, m: Metainfo)
    ensures Bencode.Ascending(TorrentEntries(announce, m))
  {
    MoreKeys();
    PrefixBefore(Key("announce"), Key("announce-list"));
    assert Bencode.Before(Key("announce-list"), Key("info")) && Bencode.Before(Key("announce"), Key("info"));
  }

  lemma TorrentValid(env: Env, announce: Option<seq<byte>>, m: Metainfo)
    requires Writable(env, m) && TiersWritable(env, m.trackers) && (announce.Some? ==> |announce.value| < U64)
    ensures var top := Bencode.Dict(TorrentEntries(announce, m)); Bencode.Valid(top) && Bencode.Fits(top, 5)
  {
    var e := TorrentEntries(announce, m);
    MoreKeys();
    InfoValid(env, m);
    TierItemsValid(env, m.trackers);
    FitsMore(Bencode.List(TierItems(m.trackers)), 2, 4);
    TorrentAscending(announce, m);
    forall x | x in e ensures |x.key| < U64 && Bencode.Valid(x.value) && Bencode.Fits(x.value, 4) {
      assert x == e[0] || x == e[1] || x == e[|e| - 1];
    }
  }

  lemma TorrentLookups(env: Env, announce: Option<seq<byte>>, m: Metainfo)
    ensures var e := TorrentEntries(announce, m);
      && Bencode.Lookup(e, Key("info")) == Some(Bencode.Dict(InfoEntries(m)))
      && Bencode.Lookup(e, Key("announce-list")) == Some(Bencode.List(TierItems(m.trackers)))
      && Bencode.Lookup(e, Key("announce")) == if announce.Some? then Some(Bencode.Bytes(announce.value)) else None
  {
    var e := TorrentEntries(announce, m);
    MoreKeys();
    LookupAt(e, |e| - 1);
    LookupAt(e, |e| - 2);
    if announce.Some? {
      LookupAt(e, 0);
    } else {
      LookupNone(e, Key("announce"));
    }
  }

  /**
   Every writable torrent, written as a file, is read back with all its trackers; without any,
   the announce URL of the file, if it is text, is the only one.
   */
  lemma TorrentRoundTrip(env: Env, announce: Option<seq<byte>>, m: Metainfo)
    requires Writable(env, m) && TiersWritable(env, m.trackers) && (announce.Some? ==> |announce.value| < U64)
    ensures Parse(env, Bencode.Encode(Bencode.Dict(TorrentEntries(announce, m))))
         == Ok(m.(trackers := if m.trackers == [] && announce.Some? && env.utf8(announce.value) then [[announce.value]] else m.trackers,
                  infoHash := env.digest(Bencode.Encode(Bencode.Dict(InfoEntries(m))))))
  {
    var e := TorrentEntries(announce, m);
    var top, info := Bencode.Dict(e), Bencode.Dict(InfoEntries(m));
    TorrentValid(env, announce, m);
    FitsMore(top, 5, Bencode.MAX_DEPTH);
    DecodeIff(Bencode.Encode(top), top);
    TorrentLookups(env, announce, m);
    TiersRead(env, m.trackers);
    InfoDescribes(env, m);
    DescribedBuilds(env, InfoEntries(m), Bencode.Encode(info), Trackers(env, e), m);
  }
}
