/**
 The routing table (bt/src/dht.rs; BEP 5, "Overview"): node ids under the XOR
 metric, buckets by shared prefix, and the nodes closest to a target.
 */
module Dht {
  import opened Common
  import opened Pieces

  const K: nat := 8
  const BUCKETS: nat := 160

  type NodeId = s: seq<bv8> | |s| == 20 witness seq(20, _ => 0)

  datatype NodeEntry = NodeEntry(id: NodeId, addr: nat)

  // -------------------------------------------------------------------- distance

  function Distance(a: NodeId, b: NodeId): NodeId {
    seq(20, i requires 0 <= i < 20 => a[i] ^ b[i])
  }

  /** How the source compares distances: byte arrays in lexicographic order. */
  predicate Lex(a: seq<bv8>, b: seq<bv8>) {
    if a == [] || b == [] then a == [] && b != []
    else if a[0] != b[0] then a[0] < b[0]
    else Lex(a[1..], b[1..])
  }

  /** The big-endian number BEP 5 reads from an id. */
  function Magnitude(s: seq<bv8>): (r: nat)
    ensures r < Pow256(|s|)
  {
    if s == [] then 0
    else
      HigherByte(s[0] as int, 256, Pow256(|s| - 1));
      (s[0] as int) * Pow256(|s| - 1) + Magnitude(s[1..])
  }

  lemma HigherByte(a: nat, b: nat, unit: nat)
    requires a < b
    ensures a * unit + unit <= b * unit
  {
    MulMono(a + 1, b, unit);
    MulSplit(a, 1, unit);
  }

  lemma ByteOrder(a: bv8, b: bv8)
    ensures a < b <==> a as int < b as int
    ensures a == b <==> a as int == b as int
  {}

  lemma Weigh(a: nat, b: nat, unit: nat, low: nat, lower: nat)
    requires low < unit && lower < unit
    ensures a * unit + low < b * unit + lower <==> a < b || (a == b && low < lower)
    ensures a * unit + low == b * unit + lower <==> a == b && low == lower
  {
    if a < b {
      HigherByte(a, b, unit);
    } else if b < a {
      HigherByte(b, a, unit);
    }
  }

  lemma LexHead(a: seq<bv8>, b: seq<bv8>)
    requires |a| == |b| && a != []
    ensures Lex(a, b) <==> a[0] as int < b[0] as int || (a[0] as int == b[0] as int && Lex(a[1..], b[1..]))
    ensures a == b <==> a[0] as int == b[0] as int && a[1..] == b[1..]
  {
    ByteOrder(a[0], b[0]);
    Head(a, b);
  }

  lemma Head<T>(a: seq<T>, b: seq<T>)
    requires a != [] && b != []
    ensures a == b <==> a[0] == b[0] && a[1..] == b[1..]
  {
    assert a == [a[0]] + a[1..] && b == [b[0]] + b[1..];
  }

  /** Comparing the arrays is comparing the numbers. */
  lemma {:induction false} LexIsNumeric(a: seq<bv8>, b: seq<bv8>)
    requires |a| == |b|
    ensures Lex(a, b) <==> Magnitude(a) < Magnitude(b)
    ensures a == b <==> Magnitude(a) == Magnitude(b)
  {
    if a != [] {
      LexIsNumeric(a[1..], b[1..]);
      LexHead(a, b);
      Weigh(a[0] as int, b[0] as int, Pow256(|a| - 1), Magnitude(a[1..]), Magnitude(b[1..]));
    }
  }

  function Apart(a: NodeId, b: NodeId): nat {
    Magnitude(Distance(a, b))
  }

  /** The metric: zero only for equal ids, symmetric, and one id at each distance. */
  lemma Metric(a: NodeId, b: NodeId, target: NodeId)
    ensures Apart(a, b) == 0 <==> a == b
    ensures Apart(a, b) == Apart(b, a)
    ensures Apart(a, target) == Apart(b, target) ==> a == b
  {
    assert Distance(a, b) == Distance(b, a);
    LexIsNumeric(Distance(a, target), Distance(b, target));
    if Distance(a, target) == Distance(b, target) {
      OneAtEach(a, b, target);
    }
    LexIsNumeric(Distance(a, b), Distance(b, b));
    ZeroDistance(b);
    if Distance(a, b) == Distance(b, b) {
      OneAtEach(a, b, b);
    }
  }

  lemma OneAtEach(a: NodeId, b: NodeId, target: NodeId)
    requires Distance(a, target) == Distance(b, target)
    ensures a == b
  {
    forall i | 0 <= i < 20 ensures a[i] == b[i] {
      DistanceBack(a, target, i);
      DistanceBack(b, target, i);
    }
  }

  /** The distance and one id give the other id. */
  lemma DistanceBack(a: NodeId, b: NodeId, i: nat)
    requires i < 20
    ensures a[i] == Distance(a, b)[i] ^ b[i]
  {
    XorTwice(a[i], b[i]);
  }

  lemma XorTwice(a: bv8, b: bv8)
    ensures (a ^ b) ^ b == a
  {}

  lemma DistanceAt(a: NodeId, b: NodeId, i: nat)
    requires i < 20
    ensures Distance(a, b)[i] == a[i] ^ b[i]
    ensures Distance(a, b)[i] == 0 <==> a[i] == b[i]
  {
    XorZero(a[i], b[i]);
  }

  lemma XorZero(a: bv8, b: bv8)
    ensures a ^ b == 0 <==> a == b
  {}

  lemma {:induction false} ZeroMagnitude(s: seq<bv8>)
    requires forall i :: 0 <= i < |s| ==> s[i] == 0
    ensures Magnitude(s) == 0
  {
    if s != [] {
      ZeroMagnitude(s[1..]);
    }
  }

  lemma ZeroDistance(a: NodeId)
    ensures Magnitude(Distance(a, a)) == 0
  {
    ZeroMagnitude(Distance(a, a));
  }

  // --------------------------------------------------------------------- buckets

  /** `u8::leading_zeros`. */
  function LeadingZeros(b: bv8): nat {
    if b >= 0x80 then 0
    else if b >= 0x40 then 1
    else if b >= 0x20 then 2
    else if b >= 0x10 then 3
    else if b >= 0x08 then 4
    else if b >= 0x04 then 5
    else if b >= 0x02 then 6
    else if b >= 0x01 then 7
    else 8
  }

  function FirstNonZero(d: seq<bv8>, i: nat): (r: nat)
    requires i <= |d|
    ensures i <= r <= |d| && (forall j :: i <= j < r ==> d[j] == 0) && (r < |d| ==> d[r] != 0)
    decreases |d| - i
  {
    if i < |d| && d[i] == 0 then FirstNonZero(d, i + 1) else i
  }

  function BucketOf(a: NodeId, b: NodeId): nat {
    var d := Distance(a, b);
    var n := FirstNonZero(d, 0);
    if n < 20 then n * 8 + LeadingZeros(d[n]) else 159
  }

  method BucketIndex(a: NodeId, b: NodeId) returns (r: nat)
    ensures r == BucketOf(a, b)
  {
    var distance := Distance(a, b);
    for n := 0 to 20
      invariant FirstNonZero(distance, n) == FirstNonZero(distance, 0)
    {
      if distance[n] != 0 {
        return n * 8 + LeadingZeros(distance[n]);
      }
    }
    return 159;
  }

  predicate IdBit(a: NodeId, n: nat)
    requires n < BUCKETS
  {
    Bit(a[n / 8], n % 8)
  }

  /** The ids agree on the first `n` bits and on no more. */
  predicate SharesExactly(a: NodeId, b: NodeId, n: nat) {
    n < BUCKETS && IdBit(a, n) != IdBit(b, n) && forall k :: 0 <= k < n ==> IdBit(a, k) == IdBit(b, k)
  }

  lemma XorMask(a: bv8, b: bv8, m: bv8)
    requires m & (m - 1) == 0
    ensures (a ^ b) & m != 0 <==> (a & m != 0) != (b & m != 0)
  {}

  lemma OneBit(k: nat)
    requires k < 8
    ensures Mask(k) & (Mask(k) - 1) == 0
  {
    MaskValues();
  }

  lemma XorBit(a: bv8, b: bv8, k: nat)
    requires k < 8
    ensures Bit(a ^ b, k) <==> Bit(a, k) != Bit(b, k)
  {
    OneBit(k);
    XorMask(a, b, Mask(k));
  }

  lemma ZeroBitsBefore(x: bv8, k: nat)
    requires k < LeadingZeros(x) && k < 8
    ensures !Bit(x, k)
  {
    MaskValues();
  }

  lemma FirstBitSet(x: bv8)
    requires x != 0
    ensures LeadingZeros(x) < 8 && Bit(x, LeadingZeros(x))
  {
    MaskValues();
  }

  lemma LeadingZerosBits(a: bv8, b: bv8)
    requires a != b
    ensures var z := LeadingZeros(a ^ b);
      z < 8 && Bit(a, z) != Bit(b, z) && forall k :: 0 <= k < z ==> Bit(a, k) == Bit(b, k)
  {
    var z := LeadingZeros(a ^ b);
    XorZero(a, b);
    FirstBitSet(a ^ b);
    XorBit(a, b, z);
    forall k | 0 <= k < z ensures Bit(a, k) == Bit(b, k) {
      ZeroBitsBefore(a ^ b, k);
      XorBit(a, b, k);
    }
  }

  lemma LeadingZerosOrder(a: bv8, b: bv8)
    requires LeadingZeros(a) < LeadingZeros(b)
    ensures b < a
  {}

  lemma BucketShares(a: NodeId, b: NodeId)
    requires a != b
    ensures SharesExactly(a, b, BucketOf(a, b))
  {
    var d := Distance(a, b);
    var first := FirstNonZero(d, 0);
    var bucket := BucketOf(a, b);
    NotZero(a, b);
    assert bucket / 8 == first && bucket % 8 == LeadingZeros(d[first]);
    DistanceAt(a, b, first);
    LeadingZerosBits(a[first], b[first]);
    forall k | 0 <= k < bucket ensures IdBit(a, k) == IdBit(b, k) {
      if k / 8 < first {
        DistanceAt(a, b, k / 8);
      }
    }
  }

  /** The bucket is the length of the shared prefix, and only that. */
  lemma BucketIff(a: NodeId, b: NodeId, n: nat)
    requires a != b
    ensures n == BucketOf(a, b) <==> SharesExactly(a, b, n)
  {
    BucketShares(a, b);
    var bucket := BucketOf(a, b);
    assert IdBit(a, bucket) != IdBit(b, bucket);
  }

  lemma {:induction false} LexAt(a: seq<bv8>, b: seq<bv8>, n: nat)
    requires |a| == |b| && n < |a| && a[n] < b[n] && forall i :: 0 <= i < n ==> a[i] == b[i]
    ensures Lex(a, b)
  {
    if n > 0 {
      LexAt(a[1..], b[1..], n - 1);
    }
  }

  /** A lower bucket is strictly farther away. */
  lemma LowerBucketFarther(own: NodeId, a: NodeId, b: NodeId)
    requires a != own && b != own && BucketOf(own, a) < BucketOf(own, b)
    ensures Apart(own, b) < Apart(own, a)
  {
    var da, db := Distance(own, a), Distance(own, b);
    var n := FirstNonZero(da, 0);
    NotZero(own, a);
    NotZero(own, b);
    if n == FirstNonZero(db, 0) {
      LeadingZerosOrder(da[n], db[n]);
    }
    LexAt(db, da, n);
    LexIsNumeric(db, da);
  }

  lemma NotZero(a: NodeId, b: NodeId)
    requires a != b
    ensures FirstNonZero(Distance(a, b), 0) < 20
    ensures LeadingZeros(Distance(a, b)[FirstNonZero(Distance(a, b), 0)]) < 8
  {
    if FirstNonZero(Distance(a, b), 0) == 20 {
      AllZero(a, b);
    }
  }

  lemma AllZero(a: NodeId, b: NodeId)
    requires forall i :: 0 <= i < 20 ==> Distance(a, b)[i] == 0
    ensures a == b
  {
    forall i | 0 <= i < 20 ensures a[i] == b[i] {
      DistanceAt(a, b, i);
    }
  }

  // --------------------------------------------------------------- routing table

  /** Every entry sits in the bucket of its shared prefix, ids are distinct, buckets are bounded. */
  predicate TableOk(own: NodeId, buckets: seq<seq<NodeEntry>>) {
    && |buckets| == BUCKETS
    && (forall b :: 0 <= b < BUCKETS ==> BucketOk(own, buckets[b], b))
  }

  predicate BucketOk(own: NodeId, bucket: seq<NodeEntry>, b: nat) {
    && |bucket| <= K
    && (forall i :: 0 <= i < |bucket| ==> bucket[i].id != own && BucketOf(own, bucket[i].id) == b)
    && (forall i, j :: 0 <= i < j < |bucket| ==> bucket[i].id != bucket[j].id)
  }

  /** The buckets one after the other. */
  function Flatten(buckets: seq<seq<NodeEntry>>): seq<NodeEntry> {
    if buckets == [] then [] else Flatten(buckets[..|buckets| - 1]) + buckets[|buckets| - 1]
  }

  predicate DistinctIds(s: seq<NodeEntry>) {
    forall i, j :: 0 <= i < j < |s| ==> s[i].id != s[j].id
  }

  predicate HasId(s: seq<NodeEntry>, id: NodeId) {
    exists i :: 0 <= i < |s| && s[i].id == id
  }

  lemma {:induction false} FlattenContains(buckets: seq<seq<NodeEntry>>, e: NodeEntry)
    ensures e in Flatten(buckets) <==> exists b :: 0 <= b < |buckets| && e in buckets[b]
  {
    if buckets != [] {
      var n := |buckets| - 1;
      FlattenContains(buckets[..n], e);
      if e in Flatten(buckets[..n]) {
        var b :| 0 <= b < n && e in buckets[..n][b];
        assert e in buckets[b];
      }
      if exists b :: 0 <= b < |buckets| && e in buckets[b] {
        var b :| 0 <= b < |buckets| && e in buckets[b];
        assert b < n ==> e in buckets[..n][b];
      }
    }
  }

  lemma {:induction false} FlattenPrefix(buckets: seq<seq<NodeEntry>>, n: nat, e: NodeEntry)
    requires n <= |buckets| && e in Flatten(buckets[..n])
    ensures exists b :: 0 <= b < n && e in buckets[b]
  {
    FlattenContains(buckets[..n], e);
    var b :| 0 <= b < n && e in buckets[..n][b];
    assert e in buckets[b];
  }

  /** Ids are distinct across the whole table. */
  lemma {:induction false} FlattenDistinct(own: NodeId, buckets: seq<seq<NodeEntry>>, n: nat)
    requires TableOk(own, buckets) && n <= BUCKETS
    ensures DistinctIds(Flatten(buckets[..n]))
  {
    if n > 0 {
      FlattenDistinct(own, buckets, n - 1);
      assert buckets[..n][..n - 1] == buckets[..n - 1];
      var low, top := Flatten(buckets[..n - 1]), buckets[n - 1];
      assert BucketOk(own, top, n - 1);
      forall i, j | 0 <= i < |low| && 0 <= j < |top| ensures low[i].id != top[j].id {
        FlattenPrefix(buckets, n - 1, low[i]);
        var b :| 0 <= b < n - 1 && low[i] in buckets[b];
        assert BucketOk(own, buckets[b], b);
      }
      JoinDistinct(low, top);
    }
  }

  lemma JoinDistinct(a: seq<NodeEntry>, b: seq<NodeEntry>)
    requires DistinctIds(a) && DistinctIds(b)
    requires forall i, j :: 0 <= i < |a| && 0 <= j < |b| ==> a[i].id != b[j].id
    ensures DistinctIds(a + b)
  {}

  /** A known id can only be in the bucket it belongs to. */
  lemma OnlyInItsBucket(own: NodeId, buckets: seq<seq<NodeEntry>>, id: NodeId)
    requires TableOk(own, buckets) && id != own
    ensures BucketOf(own, id) < BUCKETS
    ensures HasId(Flatten(buckets), id) <==> HasId(buckets[BucketOf(own, id)], id)
  {
    BucketShares(own, id);
    var n := BucketOf(own, id);
    if HasId(Flatten(buckets), id) {
      var i :| 0 <= i < |Flatten(buckets)| && Flatten(buckets)[i].id == id;
      FlattenContains(buckets, Flatten(buckets)[i]);
      var b :| 0 <= b < |buckets| && Flatten(buckets)[i] in buckets[b];
      assert BucketOk(own, buckets[b], b);
    }
    if HasId(buckets[n], id) {
      var i :| 0 <= i < |buckets[n]| && buckets[n][i].id == id;
      FlattenContains(buckets, buckets[n][i]);
    }
  }

  lemma InsertKeeps(own: NodeId, buckets: seq<seq<NodeEntry>>, e: NodeEntry)
    requires TableOk(own, buckets) && e.id != own && BucketOf(own, e.id) < BUCKETS
    requires !HasId(buckets[BucketOf(own, e.id)], e.id) && |buckets[BucketOf(own, e.id)]| < K
    ensures var n := BucketOf(own, e.id);
      TableOk(own, buckets[n := buckets[n] + [e]])
  {
    var n := BucketOf(own, e.id);
    assert BucketOk(own, buckets[n], n);
  }

  // --------------------------------------------------------------------- closest

  predicate Nearer(target: NodeId, a: NodeEntry, b: NodeEntry) {
    Apart(a.id, target) < Apart(b.id, target)
  }

  predicate Sorted(target: NodeId, s: seq<NodeEntry>) {
    forall i, j :: 0 <= i < j < |s| ==> Nearer(target, s[i], s[j])
  }

  /** The nearest `count` of the entries `all`, nearest first, with nothing nearer left out. */
  ghost predicate Nearest(target: NodeId, all: seq<NodeEntry>, count: nat, r: seq<NodeEntry>) {
    && |r| == Min(count, |all|) && Sorted(target, r)
    && (forall e :: e in r ==> e in all)
    && (forall e, f :: e in all && e !in r && f in r ==> Nearer(target, f, e))
  }

  /** `e` put behind every entry of a sorted list that is not farther. */
  function Placed(target: NodeId, s: seq<NodeEntry>, e: NodeEntry): seq<NodeEntry> {
    if s == [] || Lex(Distance(e.id, target), Distance(s[0].id, target)) then [e] + s
    else [s[0]] + Placed(target, s[1..], e)
  }

  lemma NearerOrFarther(target: NodeId, a: NodeEntry, b: NodeEntry)
    requires a.id != b.id
    ensures Lex(Distance(a.id, target), Distance(b.id, target)) <==> Nearer(target, a, b)
    ensures !Nearer(target, a, b) ==> Nearer(target, b, a)
  {
    LexIsNumeric(Distance(a.id, target), Distance(b.id, target));
    Metric(a.id, b.id, target);
  }

  lemma {:induction false} PlacedElements(target: NodeId, s: seq<NodeEntry>, e: NodeEntry)
    ensures |Placed(target, s, e)| == |s| + 1
    ensures forall x :: x in Placed(target, s, e) <==> x in s || x == e
  {
    if s != [] && !Lex(Distance(e.id, target), Distance(s[0].id, target)) {
      PlacedElements(target, s[1..], e);
      assert s == [s[0]] + s[1..];
    }
  }

  lemma SortedCons(target: NodeId, first: NodeEntry, s: seq<NodeEntry>)
    requires Sorted(target, s) && forall x :: x in s ==> Nearer(target, first, x)
    ensures Sorted(target, [first] + s)
  {}

  lemma {:induction false} PlacedSorted(target: NodeId, s: seq<NodeEntry>, e: NodeEntry)
    requires Sorted(target, s) && !HasId(s, e.id)
    ensures Sorted(target, Placed(target, s, e))
  {
    if s != [] {
      NearerOrFarther(target, e, s[0]);
      assert forall i :: 0 < i < |s| ==> Nearer(target, s[0], s[i]);
      if Nearer(target, e, s[0]) {
        SortedCons(target, e, s);
      } else {
        assert forall i :: 0 <= i < |s[1..]| ==> s[1..][i] == s[i + 1];
        PlacedSorted(target, s[1..], e);
        PlacedElements(target, s[1..], e);
        SortedCons(target, s[0], Placed(target, s[1..], e));
      }
    }
  }

  /** Cutting a sorted list keeps the nearest. */
  lemma CutIsNearest(target: NodeId, all: seq<NodeEntry>, sorted: seq<NodeEntry>, count: nat)
    requires Sorted(target, sorted) && |sorted| == |all| && forall x :: x in sorted <==> x in all
    ensures Nearest(target, all, count, sorted[..Min(count, |all|)])
  {
    var n := Min(count, |all|);
    var r := sorted[..n];
    assert forall i :: 0 <= i < n ==> sorted[i] == r[i];
    forall e, f | e in all && e !in r && f in r ensures Nearer(target, f, e) {
      assert e in sorted;
      var i :| 0 <= i < |sorted| && sorted[i] == e;
      var j :| 0 <= j < n && sorted[j] == f;
      assert i >= n;
    }
  }

  /** The answer is determined: two lists of the nearest entries are one list. */
  lemma {:induction false} NearestUnique(target: NodeId, all: seq<NodeEntry>, count: nat, r: seq<NodeEntry>, q: seq<NodeEntry>, n: nat)
    requires Nearest(target, all, count, r) && Nearest(target, all, count, q) && n <= |r|
    ensures r[..n] == q[..n]
  {
    if n > 0 {
      NearestUnique(target, all, count, r, q, n - 1);
      if r[n - 1] != q[n - 1] {
        NotLater(target, all, count, r, q, n - 1);
        NotLater(target, all, count, q, r, n - 1);
      }
      assert r[..n] == r[..n - 1] + [r[n - 1]] && q[..n] == q[..n - 1] + [q[n - 1]];
    }
  }

  lemma NotLater(target: NodeId, all: seq<NodeEntry>, count: nat, r: seq<NodeEntry>, q: seq<NodeEntry>, n: nat)
    requires Nearest(target, all, count, r) && Nearest(target, all, count, q)
    requires n < |r| && r[..n] == q[..n] && r[n] != q[n]
    ensures Nearer(target, r[n], q[n])
  {
    forall i | 0 <= i < n ensures Nearer(target, r[i], q[n]) {
      assert r[..n][i] == q[..n][i];
      assert Nearer(target, q[i], q[n]);
    }
    if q[n] in r {
      var i :| 0 <= i < |r| && r[i] == q[n];
      assert i > n;
    }
  }

  class RoutingTable {
    const own: NodeId
    var buckets: seq<seq<NodeEntry>>

    ghost predicate Valid()
      reads this
    {
      TableOk(own, buckets)
    }

    constructor (own: NodeId)
      ensures Valid() && this.own == own && buckets == seq(BUCKETS, _ => [])
    {
      this.own := own;
      buckets := seq(BUCKETS, _ => []);
    }

    /**
     Adds an entry at the end of its bucket; refuses our own id, an id that is
     anywhere in the table, and a full bucket.
     */
    method Insert(entry: NodeEntry) returns (added: bool)
      requires Valid()
      modifies this
      ensures Valid()
      ensures added <==> entry.id != own && !HasId(Flatten(old(buckets)), entry.id) && |old(buckets)[BucketOf(own, entry.id)]| < K
      ensures var n := BucketOf(own, entry.id);
        buckets == if added then old(buckets)[n := old(buckets)[n] + [entry]] else old(buckets)
    {
      if entry.id == own {
        return false;
      }
      var n := BucketIndex(own, entry.id);
      OnlyInItsBucket(own, buckets, entry.id);
      var bucket := buckets[n];
      for i := 0 to |bucket|
        invariant forall j :: 0 <= j < i ==> bucket[j].id != entry.id
      {
        if bucket[i].id == entry.id {
          return false;
        }
      }
      if |bucket| >= K {
        return false;
      }
      InsertKeeps(own, buckets, entry);
      buckets := buckets[n := bucket + [entry]];
      return true;
    }

    method Len() returns (n: nat)
      requires Valid()
      ensures n == |Flatten(buckets)| && n <= BUCKETS * K
    {
      n := 0;
      for b := 0 to BUCKETS
        invariant n == |Flatten(buckets[..b])| && n <= b * K
      {
        assert buckets[..b + 1][..b] == buckets[..b];
        assert BucketOk(own, buckets[b], b);
        n := n + |buckets[b]|;
      }
      assert buckets[..BUCKETS] == buckets;
    }

    method Closest(target: NodeId, count: nat) returns (r: seq<NodeEntry>)
      requires Valid()
      ensures Nearest(target, Flatten(buckets), count, r)
    {
      var all := Flatten(buckets);
      assert buckets[..BUCKETS] == buckets;
      FlattenDistinct(own, buckets, BUCKETS);
      r := [];
      for n := 0 to |all|
        invariant |r| == n && Sorted(target, r)
        invariant forall x :: x in r <==> x in all[..n]
      {
        PlacedElements(target, r, all[n]);
        forall i | 0 <= i < |r| ensures r[i].id != all[n].id {
          assert r[i] in r;
          var k :| 0 <= k < n && all[..n][k] == r[i];
        }
        PlacedSorted(target, r, all[n]);
        assert all[..n + 1] == all[..n] + [all[n]];
        r := Placed(target, r, all[n]);
      }
      assert all[..|all|] == all;
      CutIsNearest(target, all, r, count);
      r := r[..Min(count, |all|)];
    }
  }
}
