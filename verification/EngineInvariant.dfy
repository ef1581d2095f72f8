/**
 What holds between any two steps of the engine, and why each step keeps it:
 the redundant parts of the state agree.
 */
module EngineInvariant {
  import opened Common
  import opened Messages
  import opened Pieces
  import opened Picker
  import opened EngineModel
  import opened JobInvariant

  // ------------------------------------------------------------------ one peer

  /** Whether the peer was last told that it is choked; every connection starts choked. */
  predicate SaidChoke(sent: seq<Message>) {
    if sent == [] then true
    else
      var last := sent[|sent| - 1];
      if last.Choke? then true else if last.Unchoke? then false else SaidChoke(sent[..|sent| - 1])
  }

  predicate SaidInterested(sent: seq<Message>) {
    if sent == [] then false
    else
      var last := sent[|sent| - 1];
      if last.Interested? then true else if last.NotInterested? then false else SaidInterested(sent[..|sent| - 1])
  }

  /** What we record of our own side is what the peer was last told. */
  predicate Mirrors(p: Peer) {
    p.state.amChoking == SaidChoke(p.tx.sent) && p.state.amInterested == SaidInterested(p.tx.sent)
  }

  ghost predicate PeerOk(m: Meta, p: Peer) {
    && JobOk(m, p)
    && Requested(p)
    && Mirrors(p)
    && p.theirs <= Below(|m.hashes|)
    && (!p.theirsKnown ==> p.theirs == {})
  }

  ghost predicate PeersOk(m: Meta, peers: map<nat, Peer>) {
    forall id :: id in peers ==> PeerOk(m, peers[id])
  }

  /** No job waits for nothing: a finished job is taken off its peer in the step that finishes it. */
  ghost predicate Busy(peers: map<nat, Peer>) {
    forall id :: id in peers ==> Unfinished(peers[id])
  }

  // ------------------------------------------------------------ sums over peers

  function Workers(peers: map<nat, Peer>, piece: nat): set<nat> {
    set id | id in peers && WorksOn(peers[id], piece)
  }

  function Havers(peers: map<nat, Peer>, piece: nat): set<nat> {
    set id | id in peers && piece in peers[id].theirs
  }

  /** Unchoked peers whose channel still takes messages. */
  function Unchoked(peers: map<nat, Peer>): set<nat> {
    set id | id in peers && !peers[id].state.amChoking && Open(peers[id].tx)
  }

  /** The picker's reference count of a piece is the number of peers fetching it, never above the cap. */
  ghost predicate ActiveOk(active: Active, peers: map<nat, Peer>) {
    && (forall piece: nat :: ActiveCount(active, piece) == |Workers(peers, piece)|)
    && (forall piece :: piece in active ==> 0 < active[piece] <= ENDGAME_DUP)
  }

  ghost predicate NoOwnedJobs(ours: set<nat>, peers: map<nat, Peer>) {
    forall id :: id in peers && peers[id].job.Some? ==> peers[id].job.value.index !in ours
  }

  /** The availability of a piece is the number of connected peers that have it. */
  ghost predicate CountsOk(m: Meta, counts: seq<nat>, peers: map<nat, Peer>) {
    |counts| == |m.hashes| && forall i :: 0 <= i < |counts| ==> counts[i] == |Havers(peers, i)|
  }

  // --------------------------------------------------------------- disk and bytes

  /** Every piece we claim reads back from disk as bytes that verify. */
  ghost predicate DiskOk(m: Meta, ours: set<nat>, disk: seq<byte>) {
    && |disk| == m.total
    && ours <= Below(|m.hashes|)
    && forall i :: i in ours ==> GoodOnDisk(m, disk, i)
  }

  function SumOver(m: Meta, have: set<nat>, n: nat): nat {
    if n == 0 then 0 else SumOver(m, have, n - 1) + (if n - 1 in have then Size(m, n - 1) else 0)
  }

  ghost predicate BytesOk(m: Meta, ours: set<nat>, downloaded: nat) {
    downloaded == SumOver(m, ours, |m.hashes|)
  }

  // ------------------------------------------------------------------ connections

  ghost predicate DialOk(m: Meta, s: State) {
    && s.connecting == |s.dialing|
    && s.connecting + |s.peers| <= m.maxPeers
    && s.dialing.Keys !! s.peers.Keys
    && (forall id :: id in s.dialing ==> id < s.nextId)
    && (forall id :: id in s.peers ==> id < s.nextId)
    && NoDup(s.dialed + s.queue)
    && (forall a :: a in s.dialed + s.queue ==> a in s.known)
  }

  ghost predicate SlotsOk(peers: map<nat, Peer>) {
    |Unchoked(peers)| <= REGULAR_UNCHOKE_SLOTS + 1
  }

  /** The optimistic peer, while connected and reachable, has been unchoked. */
  ghost predicate RotorOk(s: State) {
    s.rotor.current.Some? ==>
      var id := s.rotor.current.value;
      && id < s.nextId && id !in s.dialing
      && (id in s.peers ==> !s.peers[id].state.amChoking || !Open(s.peers[id].tx))
  }

  /** The parts of the state that must agree, by name. */
  datatype Claim =
    | PeersAreSound
    | PickerCountsWorkers
    | OwnedIsNotFetched
    | AvailabilityCountsPeers
    | OwnedVerifiesOnDisk
    | BytesAreOwned
    | ConnectionsAreCounted
    | SlotsAreBounded
    | OptimisticIsUnchoked
    | JobsAreUnfinished

  ghost predicate Holds(c: Claim, m: Meta, s: State) {
    match c
    case PeersAreSound => PeersOk(m, s.peers)
    case PickerCountsWorkers => ActiveOk(s.active, s.peers)
    case OwnedIsNotFetched => NoOwnedJobs(s.ours, s.peers)
    case AvailabilityCountsPeers => CountsOk(m, s.counts, s.peers)
    case OwnedVerifiesOnDisk => DiskOk(m, s.ours, s.disk)
    case BytesAreOwned => BytesOk(m, s.ours, s.downloaded)
    case ConnectionsAreCounted => DialOk(m, s)
    case SlotsAreBounded => SlotsOk(s.peers)
    case OptimisticIsUnchoked => RotorOk(s)
    case JobsAreUnfinished => Busy(s.peers)
  }

  /** All claims but the last, which fails between the last block of a piece and its hash check. */
  ghost predicate Core(m: Meta, s: State) {
    forall c: Claim :: c.JobsAreUnfinished? || Holds(c, m, s)
  }

  /** The invariant of the engine: what holds between any two steps. */
  ghost predicate Inv(m: Meta, s: State) {
    forall c: Claim :: Holds(c, m, s)
  }

  lemma InvFromCore(m: Meta, s: State)
    requires Core(m, s) && Busy(s.peers)
    ensures Inv(m, s)
  {
    forall c: Claim ensures Holds(c, m, s) {
      if c.JobsAreUnfinished? {
        assert Holds(JobsAreUnfinished, m, s);
      }
    }
  }

  lemma CoreFromInv(m: Meta, s: State)
    requires Inv(m, s)
    ensures Core(m, s) && Busy(s.peers)
  {
    assert Holds(JobsAreUnfinished, m, s);
  }

  /** The sound state of one peer. */
  lemma PeerFromCore(m: Meta, s: State, id: nat)
    requires Core(m, s) && id in s.peers
    ensures PeerOk(m, s.peers[id])
    ensures s.peers[id].job.Some? ==> s.peers[id].job.value.index !in s.ours
  {
    assert Holds(PeersAreSound, m, s);
    assert Holds(OwnedIsNotFetched, m, s);
  }

  // ---------------------------------------------------------- changing one peer

  lemma SetWorkers(peers: map<nat, Peer>, id: nat, q: Peer, piece: nat)
    ensures Workers(peers[id := q], piece)
         == if WorksOn(q, piece) then Workers(peers, piece) + {id} else Workers(peers, piece) - {id}
    ensures Workers(peers - {id}, piece) == Workers(peers, piece) - {id}
  {}

  lemma SetHavers(peers: map<nat, Peer>, id: nat, q: Peer, piece: nat)
    ensures Havers(peers[id := q], piece)
         == if piece in q.theirs then Havers(peers, piece) + {id} else Havers(peers, piece) - {id}
    ensures Havers(peers - {id}, piece) == Havers(peers, piece) - {id}
  {}

  lemma MapSize<K, V>(m: map<K, V>, k: K, v: V)
    ensures |m[k := v]| == if k in m then |m| else |m| + 1
    ensures |m - {k}| == if k in m then |m| - 1 else |m|
  {
    if k in m {
      assert m[k := v].Keys == m.Keys;
      assert (m - {k}).Keys == m.Keys - {k};
    } else {
      assert m[k := v].Keys == m.Keys + {k};
      assert (m - {k}) == m;
    }
  }

  /** `q` may take the place of `p` without the rest of the state noticing. */
  predicate Still(p: Peer, q: Peer) {
    && (p.job.Some? <==> q.job.Some?)
    && (p.job.Some? ==> p.job.value.index == q.job.value.index)
    && p.theirs == q.theirs
    && p.state.amChoking == q.state.amChoking
    && (Open(q.tx) ==> Open(p.tx))
  }

  lemma KeepActive(active: Active, peers: map<nat, Peer>, id: nat, q: Peer)
    requires ActiveOk(active, peers) && id in peers && Still(peers[id], q)
    ensures ActiveOk(active, peers[id := q])
  {
    forall piece: nat ensures ActiveCount(active, piece) == |Workers(peers[id := q], piece)| {
      SetWorkers(peers, id, q, piece);
      assert Workers(peers[id := q], piece) == Workers(peers, piece);
    }
  }

  lemma KeepCounts(m: Meta, counts: seq<nat>, peers: map<nat, Peer>, id: nat, q: Peer)
    requires CountsOk(m, counts, peers) && id in peers && Still(peers[id], q)
    ensures CountsOk(m, counts, peers[id := q])
  {
    forall i | 0 <= i < |counts| ensures counts[i] == |Havers(peers[id := q], i)| {
      SetHavers(peers, id, q, i);
      assert Havers(peers[id := q], i) == Havers(peers, i);
    }
  }

  lemma KeepSlots(peers: map<nat, Peer>, id: nat, q: Peer)
    requires SlotsOk(peers) && (!q.state.amChoking && Open(q.tx) ==> id in Unchoked(peers))
    ensures SlotsOk(peers[id := q])
  {
    SubsetSize(Unchoked(peers[id := q]), Unchoked(peers));
  }

  /** Replacing a peer by one that is `Still` the same keeps everything. */
  lemma KeepCore(m: Meta, s: State, id: nat, q: Peer)
    requires Core(m, s) && id in s.peers && Still(s.peers[id], q) && PeerOk(m, q)
    ensures Core(m, s.(peers := s.peers[id := q]))
  {
    var t := s.(peers := s.peers[id := q]);
    forall c: Claim | !c.JobsAreUnfinished? ensures Holds(c, m, t) {
      assert Holds(c, m, s);
      match c
      case PickerCountsWorkers => KeepActive(s.active, s.peers, id, q);
      case AvailabilityCountsPeers => KeepCounts(m, s.counts, s.peers, id, q);
      case SlotsAreBounded => KeepSlots(s.peers, id, q);
      case _ =>
    }
  }

  lemma KeepInv(m: Meta, s: State, id: nat, q: Peer)
    requires Inv(m, s) && id in s.peers && Still(s.peers[id], q) && PeerOk(m, q) && Unfinished(q)
    ensures Inv(m, s.(peers := s.peers[id := q]))
  {
    CoreFromInv(m, s);
    KeepCore(m, s, id, q);
    InvFromCore(m, s.(peers := s.peers[id := q]));
  }

  // ------------------------------------------------------------- removing a peer

  lemma RemoveActive(active: Active, peers: map<nat, Peer>, id: nat)
    requires ActiveOk(active, peers) && id in peers
    ensures ActiveOk(if peers[id].job.Some? then Abandoned(active, peers[id].job.value.index) else active, peers - {id})
  {
    var p := peers[id];
    var after := if p.job.Some? then Abandoned(active, p.job.value.index) else active;
    forall piece: nat ensures ActiveCount(after, piece) == |Workers(peers - {id}, piece)| {
      SetWorkers(peers, id, p, piece);
      if WorksOn(p, piece) {
        assert id in Workers(peers, piece);
        assert ActiveCount(active, piece) > 0;
      } else {
        assert Workers(peers - {id}, piece) == Workers(peers, piece);
      }
    }
  }

  lemma RemoveCounts(m: Meta, counts: seq<nat>, peers: map<nat, Peer>, id: nat)
    requires CountsOk(m, counts, peers) && id in peers && PeerOk(m, peers[id])
    ensures CountsOk(m, if peers[id].theirsKnown then RemoveBitfield(counts, peers[id].theirs) else counts, peers - {id})
  {
    var p := peers[id];
    forall i | 0 <= i < |counts|
      ensures |Havers(peers - {id}, i)| + One(i in p.theirs) == counts[i]
    {
      SetHavers(peers, id, p, i);
      if i in p.theirs {
        assert id in Havers(peers, i);
      } else {
        assert Havers(peers - {id}, i) == Havers(peers, i);
      }
    }
  }

  lemma RemoveSlots(peers: map<nat, Peer>, id: nat)
    requires SlotsOk(peers) && id in peers
    ensures SlotsOk(peers - {id})
  {
    SubsetSize(Unchoked(peers - {id}), Unchoked(peers));
  }

  lemma RemoveCore(m: Meta, s: State, id: nat)
    requires Core(m, s)
    ensures Core(m, RemovePeer(s, id))
  {
    if id in s.peers {
      forall c: Claim | !c.JobsAreUnfinished? ensures Holds(c, m, RemovePeer(s, id)) {
        assert Holds(c, m, s);
        match c
        case PickerCountsWorkers => RemoveActive(s.active, s.peers, id);
        case AvailabilityCountsPeers =>
          PeerFromCore(m, s, id);
          RemoveCounts(m, s.counts, s.peers, id);
        case SlotsAreBounded => RemoveSlots(s.peers, id);
        case _ =>
      }
    }
  }

  lemma RemoveInv(m: Meta, s: State, id: nat)
    requires Inv(m, s)
    ensures Inv(m, RemovePeer(s, id))
  {
    CoreFromInv(m, s);
    RemoveCore(m, s, id);
    InvFromCore(m, RemovePeer(s, id));
  }

  lemma {:induction false} RemoveAllInv(m: Meta, s: State, ids: seq<nat>)
    requires Inv(m, s)
    ensures Inv(m, RemoveAll(s, ids))
  {
    if ids != [] {
      RemoveAllInv(m, s, ids[..|ids| - 1]);
      RemoveInv(m, RemoveAll(s, ids[..|ids| - 1]), ids[|ids| - 1]);
    }
  }
}
