/**
 Choosing the piece to ask a peer for: rarest unstarted piece first, then, up
 to a cap, pieces already being fetched from others (bt/src/picker.rs).
 */
module Picker {
  import opened Common
  import opened Pieces

  type Active = map<nat, nat>

  function ActiveCount(active: Active, piece: nat): nat {
    if piece in active then active[piece] else 0
  }

  /** A piece we lack and the peer has. */
  predicate Candidate(ours: set<nat>, theirs: set<nat>, i: nat) {
    i !in ours && i in theirs
  }

  datatype Key = Key(active: nat, availability: nat, index: nat)

  /** The lexicographic order of the tuples that `min_by_key` compares. */
  predicate Less(a: Key, b: Key) {
    || a.active < b.active
    || (a.active == b.active && a.availability < b.availability)
    || (a.active == b.active && a.availability == b.availability && a.index < b.index)
  }

  function FreshKey(counts: seq<nat>, i: nat): Key {
    Key(0, CountAt(counts, i), i)
  }

  function SharedKey(active: Active, counts: seq<nat>, i: nat): Key {
    Key(ActiveCount(active, i), CountAt(counts, i), i)
  }

  /** The least unstarted candidate below `n`, by (availability, index). */
  function Fresh(active: Active, ours: set<nat>, theirs: set<nat>, counts: seq<nat>, n: nat): Option<nat> {
    if n == 0 then None
    else
      var best := Fresh(active, ours, theirs, counts, n - 1);
      var i := n - 1;
      if Candidate(ours, theirs, i) && i !in active
         && (best.None? || Less(FreshKey(counts, i), FreshKey(counts, best.value)))
      then Some(i) else best
  }

  /** The least candidate under the cap below `n`, by (active, availability, index). */
  function Shared(active: Active, cap: nat, ours: set<nat>, theirs: set<nat>, counts: seq<nat>, n: nat): Option<nat> {
    if n == 0 then None
    else
      var best := Shared(active, cap, ours, theirs, counts, n - 1);
      var i := n - 1;
      if Candidate(ours, theirs, i) && ActiveCount(active, i) < cap
         && (best.None? || Less(SharedKey(active, counts, i), SharedKey(active, counts, best.value)))
      then Some(i) else best
  }

  function Choose(active: Active, cap: nat, ours: set<nat>, theirs: set<nat>, counts: seq<nat>, pieces: nat): Option<nat> {
    var unstarted := Fresh(active, ours, theirs, counts, pieces);
    if unstarted.Some? then unstarted else Shared(active, cap, ours, theirs, counts, pieces)
  }

  function Started(active: Active, piece: nat): Active {
    active[piece := ActiveCount(active, piece) + 1]
  }

  function Completed(active: Active, piece: nat): Active {
    active - {piece}
  }

  function Abandoned(active: Active, piece: nat): Active {
    if piece !in active then active
    else if active[piece] <= 1 then active - {piece}
    else active[piece := active[piece] - 1]
  }

  lemma {:induction false} FreshLeast(active: Active, ours: set<nat>, theirs: set<nat>, counts: seq<nat>, n: nat)
    ensures var r := Fresh(active, ours, theirs, counts, n);
      && (r.Some? ==> r.value < n && Candidate(ours, theirs, r.value) && r.value !in active)
      && (forall j :: 0 <= j < n && Candidate(ours, theirs, j) && j !in active ==>
            r.Some? && (j == r.value || Less(FreshKey(counts, r.value), FreshKey(counts, j))))
  {
    if n > 0 {
      FreshLeast(active, ours, theirs, counts, n - 1);
    }
  }

  lemma {:induction false} SharedLeast(active: Active, cap: nat, ours: set<nat>, theirs: set<nat>, counts: seq<nat>, n: nat)
    ensures var r := Shared(active, cap, ours, theirs, counts, n);
      && (r.Some? ==> r.value < n && Candidate(ours, theirs, r.value) && ActiveCount(active, r.value) < cap)
      && (forall j :: 0 <= j < n && Candidate(ours, theirs, j) && ActiveCount(active, j) < cap ==>
            r.Some? && (j == r.value || Less(SharedKey(active, counts, r.value), SharedKey(active, counts, j))))
  {
    if n > 0 {
      SharedLeast(active, cap, ours, theirs, counts, n - 1);
    }
  }

  /**
   What a choice means: nothing is chosen exactly when every missing piece the
   peer has is at the cap; an unstarted piece wins over a started one; among
   equals the rarest wins, then the lowest index.
   */
  lemma ChooseMeaning(active: Active, cap: nat, ours: set<nat>, theirs: set<nat>, counts: seq<nat>, pieces: nat)
    ensures var r := Choose(active, cap, ours, theirs, counts, pieces);
      && (r.None? <==> forall j :: 0 <= j < pieces && Candidate(ours, theirs, j) ==> j in active && active[j] >= cap)
      && (r.Some? ==> r.value < pieces && Candidate(ours, theirs, r.value))
      && (r.Some? && r.value !in active ==>
            forall j :: 0 <= j < pieces && Candidate(ours, theirs, j) && j !in active && j != r.value ==>
              Less(FreshKey(counts, r.value), FreshKey(counts, j)))
      && (r.Some? && r.value in active ==>
            && active[r.value] < cap
            && (forall j :: 0 <= j < pieces && Candidate(ours, theirs, j) ==> j in active)
            && (forall j :: 0 <= j < pieces && Candidate(ours, theirs, j) && active[j] < cap && j != r.value ==>
                  Less(SharedKey(active, counts, r.value), SharedKey(active, counts, j))))
  {
    FreshLeast(active, ours, theirs, counts, pieces);
    SharedLeast(active, cap, ours, theirs, counts, pieces);
  }

  class PiecePicker {
    var active: Active
    const endgameCap: nat

    constructor (cap: nat)
      ensures active == map[] && endgameCap == cap
    {
      active := map[];
      endgameCap := cap;
    }

    /** The rarest missing piece the peer has that nobody fetches yet. */
    method FindUnstarted(ours: Bitfield, theirs: Bitfield, counts: seq<nat>) returns (r: Option<nat>)
      requires ours.Valid() && theirs.Valid()
      ensures r == Fresh(active, ours.Contents(), theirs.Contents(), counts, ours.pieces)
    {
      r := None;
      for i := 0 to ours.pieces
        invariant r == Fresh(active, ours.Contents(), theirs.Contents(), counts, i)
      {
        var mine := ours.Has(i);
        var offered := theirs.Has(i);
        if !mine && offered && i !in active && (r.None? || Less(FreshKey(counts, i), FreshKey(counts, r.value))) {
          r := Some(i);
        }
      }
    }

    /** The least fetched, then rarest, missing piece the peer has below the cap. */
    method FindShared(ours: Bitfield, theirs: Bitfield, counts: seq<nat>) returns (r: Option<nat>)
      requires ours.Valid() && theirs.Valid()
      ensures r == Shared(active, endgameCap, ours.Contents(), theirs.Contents(), counts, ours.pieces)
    {
      r := None;
      for i := 0 to ours.pieces
        invariant r == Shared(active, endgameCap, ours.Contents(), theirs.Contents(), counts, i)
      {
        var mine := ours.Has(i);
        var offered := theirs.Has(i);
        if !mine && offered && ActiveCount(active, i) < endgameCap
           && (r.None? || Less(SharedKey(active, counts, i), SharedKey(active, counts, r.value))) {
          r := Some(i);
        }
      }
    }

    method Pick(ours: Bitfield, theirs: Bitfield, availability: Availability) returns (r: Option<nat>)
      requires ours.Valid() && theirs.Valid()
      modifies this
      ensures r == Choose(old(active), endgameCap, ours.Contents(), theirs.Contents(), availability.counts, ours.pieces)
      ensures active == if r.Some? then Started(old(active), r.value) else old(active)
    {
      r := FindUnstarted(ours, theirs, availability.counts);
      if r.None? {
        r := FindShared(ours, theirs, availability.counts);
      }
      if r.Some? {
        active := Started(active, r.value);
      }
    }

    method Complete(piece: nat)
      modifies this
      ensures active == Completed(old(active), piece)
    {
      active := active - {piece};
    }

    /** Without zero entries the decrement never goes below zero. */
    method Abandon(piece: nat)
      requires forall i :: i in active ==> active[i] > 0
      modifies this
      ensures active == Abandoned(old(active), piece)
      ensures forall i :: i in active ==> active[i] > 0
    {
      if piece in active {
        active := active[piece := active[piece] - 1];
        if active[piece] == 0 {
          active := active - {piece};
        }
      }
    }

    /** Endgame: every piece still missing is being fetched. */
    method InEndgame(ours: Bitfield) returns (r: bool)
      requires ours.Valid()
      ensures r <==> Below(ours.pieces) - ours.Contents() <= active.Keys
    {
      var missing := ours.Missing();
      r := true;
      for i := 0 to |missing|
        invariant r <==> forall j :: 0 <= j < i ==> missing[j] in active
      {
        if missing[i] !in active {
          r := false;
        }
      }
      if r {
        forall i | i in Below(ours.pieces) - ours.Contents() ensures i in active {
          assert i in missing;
        }
      } else {
        var j :| 0 <= j < |missing| && missing[j] !in active;
        assert missing[j] in Below(ours.pieces) - ours.Contents();
      }
    }
  }
}
