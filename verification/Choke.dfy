/**
 Whom to upload to: the best few interested peers, plus one optimistic slot
 that rotates (bt/src/choke.rs).
 */
module Choke {
  import opened Common

  datatype Rate = Rate(id: nat, downloadedFrom: nat, interested: bool)

  /** More bytes received from, then the lower id. */
  predicate Better(a: Rate, b: Rate) {
    a.downloadedFrom > b.downloadedFrom || (a.downloadedFrom == b.downloadedFrom && a.id < b.id)
  }

  // ------------------------------------------------ what the selection should be

  function Betters(all: set<Rate>, r: Rate): set<Rate> {
    set x | x in all && x.interested && Better(x, r)
  }

  /** The interested peers with fewer than `slots` interested peers above them. */
  function Regular(all: set<Rate>, slots: nat): set<nat> {
    set r | r in all && r.interested && |Betters(all, r)| < slots :: r.id
  }

  function Optimistic(all: set<Rate>, optimistic: Option<nat>): set<nat> {
    if optimistic.Some? && exists r :: r in all && r.id == optimistic.value then {optimistic.value} else {}
  }

  function Unchoked(all: set<Rate>, slots: nat, optimistic: Option<nat>): set<nat> {
    Regular(all, slots) + Optimistic(all, optimistic)
  }

  function Elements(s: seq<Rate>): set<Rate> {
    set r | r in s
  }

  predicate DistinctIds(s: seq<Rate>) {
    forall i, j :: 0 <= i < j < |s| ==> s[i].id != s[j].id
  }

  // --------------------------------------------------- filter, sort, take the top

  function Interested(s: seq<Rate>): seq<Rate> {
    if s == [] then []
    else Interested(s[..|s| - 1]) + (if s[|s| - 1].interested then [s[|s| - 1]] else [])
  }

  function Insert(sorted: seq<Rate>, r: Rate): seq<Rate> {
    if sorted == [] || Better(r, sorted[0]) then [r] + sorted
    else [sorted[0]] + Insert(sorted[1..], r)
  }

  /** A stable sort by `Better`: later equals go last. */
  function Sort(s: seq<Rate>): seq<Rate> {
    if s == [] then [] else Insert(Sort(s[..|s| - 1]), s[|s| - 1])
  }

  function TopIds(sorted: seq<Rate>, slots: nat): set<nat> {
    set i | 0 <= i < |sorted| && i < slots :: sorted[i].id
  }

  predicate Descending(s: seq<Rate>) {
    forall i, j :: 0 <= i < j < |s| ==> Better(s[i], s[j])
  }

  lemma {:induction false} InterestedElements(s: seq<Rate>)
    ensures forall r :: r in Interested(s) <==> r in s && r.interested
    ensures DistinctIds(s) ==> DistinctIds(Interested(s))
  {
    if s != [] {
      var init, last := s[..|s| - 1], s[|s| - 1];
      InterestedElements(init);
      assert s == init + [last];
      if DistinctIds(s) {
        forall i | 0 <= i < |Interested(init)| ensures Interested(init)[i].id != last.id {
          assert Interested(init)[i] in init;
        }
      }
    }
  }

  lemma {:induction false} InsertSorted(sorted: seq<Rate>, r: Rate)
    requires Descending(sorted) && forall x :: x in sorted ==> x.id != r.id
    ensures Descending(Insert(sorted, r))
    ensures forall x :: x in Insert(sorted, r) <==> x == r || x in sorted
  {
    if sorted != [] {
      assert sorted == [sorted[0]] + sorted[1..];
      if !Better(r, sorted[0]) {
        var rest := Insert(sorted[1..], r);
        InsertSorted(sorted[1..], r);
        forall i | 0 <= i < |rest| ensures Better(sorted[0], rest[i]) {
          assert rest[i] in rest;
        }
      }
    }
  }

  lemma {:induction false} SortSorts(s: seq<Rate>)
    requires DistinctIds(s)
    ensures Descending(Sort(s))
    ensures forall x :: x in Sort(s) <==> x in s
  {
    if s != [] {
      var init, last := s[..|s| - 1], s[|s| - 1];
      SortSorts(init);
      assert s == init + [last];
      InsertSorted(Sort(init), last);
    }
  }

  lemma ElementsStep(s: seq<Rate>, k: nat)
    requires Descending(s) && k < |s|
    ensures s[k] !in Elements(s[..k]) && Elements(s[..k + 1]) == Elements(s[..k]) + {s[k]}
  {
    assert s[..k + 1] == s[..k] + [s[k]];
    forall i | 0 <= i < k ensures s[..k][i] != s[k] {
      assert Better(s[i], s[k]);
    }
  }

  lemma SizeStep(s: seq<Rate>, k: nat)
    requires Descending(s) && k < |s|
    ensures |Elements(s[..k + 1])| == |Elements(s[..k])| + 1
  {
    ElementsStep(s, k);
  }

  lemma {:induction false} PrefixSize(s: seq<Rate>, k: nat)
    requires Descending(s) && k <= |s|
    ensures |Elements(s[..k])| == k
  {
    if k > 0 {
      PrefixSize(s, k - 1);
      SizeStep(s, k - 1);
    }
  }

  /** In the sorted list, exactly the first `k` entries beat entry `k`. */
  lemma RankIsPosition(all: set<Rate>, sorted: seq<Rate>, k: nat)
    requires Descending(sorted) && k < |sorted|
    requires forall x :: x in sorted <==> x in all && x.interested
    ensures |Betters(all, sorted[k])| == k
  {
    PrefixSize(sorted, k);
    forall x ensures x in Betters(all, sorted[k]) <==> x in Elements(sorted[..k]) {
      if x in Betters(all, sorted[k]) {
        assert x in sorted;
        var i :| 0 <= i < |sorted| && sorted[i] == x;
        assert i < k;
        assert sorted[..k][i] == x;
      }
      if x in Elements(sorted[..k]) {
        var i :| 0 <= i < k && sorted[i] == x;
      }
    }
    assert Betters(all, sorted[k]) == Elements(sorted[..k]);
  }

  lemma SortedRanks(s: seq<Rate>)
    requires DistinctIds(s)
    ensures var sorted := Sort(Interested(s));
      && (forall x :: x in sorted <==> x in Elements(s) && x.interested)
      && (forall k :: 0 <= k < |sorted| ==> |Betters(Elements(s), sorted[k])| == k)
  {
    var sorted := Sort(Interested(s));
    InterestedElements(s);
    SortSorts(Interested(s));
    forall k | 0 <= k < |sorted| ensures |Betters(Elements(s), sorted[k])| == k {
      RankIsPosition(Elements(s), sorted, k);
    }
  }

  /** Sorting and taking the first `slots` picks the peers by rank, in whatever order they came. */
  lemma TopIsRegular(s: seq<Rate>, slots: nat)
    requires DistinctIds(s)
    ensures TopIds(Sort(Interested(s)), slots) == Regular(Elements(s), slots)
  {
    var sorted, all := Sort(Interested(s)), Elements(s);
    SortedRanks(s);
    forall id | id in TopIds(sorted, slots) ensures id in Regular(all, slots) {
      var i :| 0 <= i < |sorted| && i < slots && sorted[i].id == id;
      assert sorted[i] in sorted;
    }
    forall id | id in Regular(all, slots) ensures id in TopIds(sorted, slots) {
      var r :| r in all && r.interested && |Betters(all, r)| < slots && r.id == id;
      assert r in sorted;
      var i :| 0 <= i < |sorted| && sorted[i] == r;
    }
  }

  lemma {:induction false} TopSize(sorted: seq<Rate>, slots: nat)
    ensures |TopIds(sorted, slots)| <= slots
  {
    if slots == 0 {
      assert TopIds(sorted, 0) == {};
    } else if slots > |sorted| {
      TopSize(sorted, slots - 1);
      assert TopIds(sorted, slots) == TopIds(sorted, slots - 1);
    } else {
      TopSize(sorted, slots - 1);
      assert TopIds(sorted, slots) == TopIds(sorted, slots - 1) + {sorted[slots - 1].id};
    }
  }

  /** At most the regular slots plus one are unchoked. */
  lemma UnchokedSize(s: seq<Rate>, slots: nat, optimistic: Option<nat>)
    requires DistinctIds(s)
    ensures |Unchoked(Elements(s), slots, optimistic)| <= slots + 1
  {
    TopIsRegular(s, slots);
    TopSize(Sort(Interested(s)), slots);
  }

  /** A peer in a regular slot beats every interested peer left out of them. */
  lemma RegularDominates(s: seq<Rate>, slots: nat, a: Rate, b: Rate)
    requires DistinctIds(s) && a in s && b in s && b.interested
    requires a.id in Regular(Elements(s), slots) && b.id !in Regular(Elements(s), slots)
    ensures Better(a, b)
  {
    InterestedElements(s);
    SortSorts(Interested(s));
    TopIsRegular(s, slots);
    var sorted := Sort(Interested(s));
    var i :| 0 <= i < |sorted| && i < slots && sorted[i].id == a.id;
    assert sorted[i] in s && sorted[i] == a by {
      assert sorted[i] in sorted;
      var j :| 0 <= j < |s| && s[j] == sorted[i];
      var k :| 0 <= k < |s| && s[k] == a;
      assert j == k;
    }
    assert b in sorted;
    var j :| 0 <= j < |sorted| && sorted[j] == b;
    assert j >= slots;
  }

  /** The interested peers, best first. */
  method SortInterested(peers: seq<Rate>) returns (sorted: seq<Rate>)
    ensures sorted == Sort(Interested(peers))
  {
    var interested: seq<Rate> := [];
    sorted := [];
    for i := 0 to |peers|
      invariant interested == Interested(peers[..i]) && sorted == Sort(interested)
    {
      assert peers[..i + 1][..i] == peers[..i];
      if peers[i].interested {
        assert (interested + [peers[i]])[..|interested|] == interested;
        interested := interested + [peers[i]];
        sorted := Insert(sorted, peers[i]);
      }
    }
    assert peers[..|peers|] == peers;
  }

  /** The ids of the first `slots` of a list. */
  method TakeIds(sorted: seq<Rate>, slots: nat) returns (out: set<nat>)
    ensures out == TopIds(sorted, slots)
  {
    out := {};
    for i := 0 to if |sorted| < slots then |sorted| else slots
      invariant out == TopIds(sorted, i)
    {
      assert TopIds(sorted, i + 1) == TopIds(sorted, i) + {sorted[i].id};
      out := out + {sorted[i].id};
    }
  }

  method SelectUnchoked(peers: seq<Rate>, slots: nat, optimistic: Option<nat>) returns (out: set<nat>)
    ensures out == TopIds(Sort(Interested(peers)), slots) + Optimistic(Elements(peers), optimistic)
  {
    var sorted := SortInterested(peers);
    out := TakeIds(sorted, slots);
    if optimistic.Some? && exists r :: r in peers && r.id == optimistic.value {
      out := out + {optimistic.value};
    }
  }

  /** What is unchoked: the peers of the regular ranks and the optimistic one, never more than the slots and one. */
  lemma SelectionMeaning(peers: seq<Rate>, slots: nat, optimistic: Option<nat>)
    requires DistinctIds(peers)
    ensures var out := TopIds(Sort(Interested(peers)), slots) + Optimistic(Elements(peers), optimistic);
      out == Unchoked(Elements(peers), slots, optimistic) && |out| <= slots + 1
  {
    TopIsRegular(peers, slots);
    UnchokedSize(peers, slots, optimistic);
  }

  // ------------------------------------------------------------ the optimistic slot

  datatype Rotor = Rotor(current: Option<nat>, rotatedAt: Option<nat>)

  predicate Due(rotor: Rotor, interval: nat, now: nat) {
    rotor.rotatedAt.None? || Monus(now, rotor.rotatedAt.value) >= interval
  }

  predicate CurrentGone(rotor: Rotor, candidates: seq<nat>) {
    rotor.current.None? || rotor.current.value !in candidates
  }

  function PositionOf(candidates: seq<nat>, id: nat): (i: nat)
    ensures i <= |candidates|
    ensures i < |candidates| ==> candidates[i] == id
    ensures forall j :: 0 <= j < i ==> candidates[j] != id
  {
    if candidates == [] || candidates[0] == id then 0 else 1 + PositionOf(candidates[1..], id)
  }

  /** The candidate after the current one, wrapping round; the first if there is no current one. */
  function NextCandidate(current: Option<nat>, candidates: seq<nat>): nat
    requires candidates != []
  {
    if current.None? || PositionOf(candidates, current.value) == |candidates| then candidates[0]
    else candidates[(PositionOf(candidates, current.value) + 1) % |candidates|]
  }

  function Rotate(rotor: Rotor, interval: nat, candidates: seq<nat>, now: nat): Rotor {
    if !Due(rotor, interval, now) && !CurrentGone(rotor, candidates) then rotor
    else if candidates == [] then rotor.(current := None)
    else Rotor(Some(NextCandidate(rotor.current, candidates)), Some(now))
  }

  /** Before the interval is over the slot keeps its peer exactly while that peer is a candidate. */
  lemma HoldsIff(rotor: Rotor, interval: nat, candidates: seq<nat>, now: nat)
    requires rotor.current.Some? && !Due(rotor, interval, now)
    ensures Rotate(rotor, interval, candidates, now).current == rotor.current <==> rotor.current.value in candidates
  {}

  /**
   A rotation that chose somebody starts a new interval: until it is over, and while the choice stays a
   candidate, no rotation changes anything; from then on the next one chooses again.
   */
  lemma HeldForInterval(rotor: Rotor, interval: nat, candidates: seq<nat>, at: nat, later: seq<nat>, now: nat)
    requires candidates != [] && Rotate(rotor, interval, candidates, at) != rotor
    ensures var next := Rotate(rotor, interval, candidates, at);
      && next.current.Some? && next.current.value in candidates
      && (Monus(now, at) < interval && next.current.value in later ==> Rotate(next, interval, later, now) == next)
      && (Monus(now, at) >= interval && later != [] ==>
            Rotate(next, interval, later, now).rotatedAt == Some(now) && Rotate(next, interval, later, now).current.value in later)
  {}

  /** The peers chosen by rotations at the given times over fixed candidates. */
  function Visits(rotor: Rotor, interval: nat, candidates: seq<nat>, times: seq<nat>): seq<nat>
    requires candidates != []
    decreases |times|
  {
    if times == [] then []
    else
      var next := Rotate(rotor, interval, candidates, times[0]);
      (if next.current.Some? then [next.current.value] else []) + Visits(next, interval, candidates, times[1..])
  }

  predicate AllDue(rotor: Rotor, interval: nat, candidates: seq<nat>, times: seq<nat>)
    decreases |times|
  {
    times != [] ==>
      && Due(rotor, interval, times[0])
      && AllDue(Rotate(rotor, interval, candidates, times[0]), interval, candidates, times[1..])
  }

  /** Position `i`, counted past the end once. */
  function Wrap(i: nat, n: nat): nat
    requires i < 2 * n
  {
    if i < n then i else i - n
  }

  lemma WrapMod(i: nat, n: nat)
    requires 0 < i <= n
    ensures i % n == Wrap(i, n)
  {
    if i == n {
      assert n % n == 0;
    }
  }

  lemma DueStep(rotor: Rotor, interval: nat, candidates: seq<nat>, now: nat, p: nat)
    requires NoDup(candidates) && p < |candidates| && rotor.current == Some(candidates[p])
    requires Due(rotor, interval, now)
    ensures Rotate(rotor, interval, candidates, now).current == Some(candidates[Wrap(p + 1, |candidates|)])
  {
    assert PositionOf(candidates, candidates[p]) == p;
    WrapMod(p + 1, |candidates|);
  }

  lemma {:induction false} VisitsInTurn(rotor: Rotor, interval: nat, candidates: seq<nat>, times: seq<nat>, p: nat, k: nat)
    requires NoDup(candidates) && p < |candidates| && rotor.current == Some(candidates[p])
    requires AllDue(rotor, interval, candidates, times) && k < |times| && k < |candidates|
    ensures candidates[Wrap(p + 1 + k, |candidates|)] in Visits(rotor, interval, candidates, times)
    decreases k
  {
    DueStep(rotor, interval, candidates, times[0], p);
    if k > 0 {
      var next := Rotate(rotor, interval, candidates, times[0]);
      VisitsInTurn(next, interval, candidates, times[1..], Wrap(p + 1, |candidates|), k - 1);
    }
  }

  /** With fixed distinct candidates, as many due rotations as candidates visit every one of them. */
  lemma RotationsVisitAll(rotor: Rotor, interval: nat, candidates: seq<nat>, times: seq<nat>, j: nat)
    requires candidates != [] && NoDup(candidates) && |times| == |candidates|
    requires AllDue(rotor, interval, candidates, times) && j < |candidates|
    ensures candidates[j] in Visits(rotor, interval, candidates, times)
  {
    var n := |candidates|;
    var next := Rotate(rotor, interval, candidates, times[0]);
    var p :| 0 <= p < n && next.current == Some(candidates[p]);
    if p != j {
      VisitsInTurn(next, interval, candidates, times[1..], p, if j > p then j - p - 1 else j + n - p - 1);
    }
  }

  class OptimisticRotor {
    var current: Option<nat>
    var rotatedAt: Option<nat>
    const interval: nat

    constructor (interval: nat)
      ensures View() == Rotor(None, None) && this.interval == interval
    {
      current, rotatedAt := None, None;
      this.interval := interval;
    }

    ghost function View(): Rotor
      reads this
    {
      Rotor(current, rotatedAt)
    }

    method MaybeRotate(candidates: seq<nat>, now: nat) returns (r: Option<nat>)
      modifies this
      ensures View() == Rotate(old(View()), interval, candidates, now) && r == current
    {
      var due := rotatedAt.None? || Monus(now, rotatedAt.value) >= interval;
      var currentGone := current.None? || current.value !in candidates;
      if !due && !currentGone {
        return current;
      }
      if candidates == [] {
        current := None;
        return None;
      }
      var next := candidates[0];
      if current.Some? {
        var i := 0;
        while i < |candidates| && candidates[i] != current.value
          invariant i <= |candidates| && forall j :: 0 <= j < i ==> candidates[j] != current.value
        {
          i := i + 1;
        }
        assert i == PositionOf(candidates, current.value);
        if i < |candidates| {
          next := candidates[(i + 1) % |candidates|];
        }
      }
      current := Some(next);
      rotatedAt := Some(now);
      r := current;
    }
  }
}
