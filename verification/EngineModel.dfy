/**
 The download engine as a step machine (bt/src/engine.rs): its state and what
 each handler does to it. The environment picks the next event, the clock, the
 iteration order of the peer map, and how long each channel stays open.
 */
module EngineModel {
  import opened Common
  import opened Messages
  import opened Requests
  import opened Pieces
  import opened Picker
  import opened Storage
  import Choke

  const PIPELINE_DEPTH: nat := 32
  const MAX_EMPTY_ROUNDS: nat := 5
  const MAX_VERIFY_FAILURES: nat := 2
  const ENDGAME_DUP: nat := 2
  const REGULAR_UNCHOKE_SLOTS: nat := 3
  const MAX_SERVED_BLOCK: nat := 131072
  const MAX_PIECE_LENGTH: nat := 33554432

  // Durations in milliseconds.
  const BLOCK_TIMEOUT: nat := 30000
  const CHOKE_INTERVAL: nat := 10000
  const OPTIMISTIC_INTERVAL: nat := 30000
  const SNUB_TIMEOUT: nat := 90000

  type Hash = seq<byte>

  type Addr = nat

  /** What the engine reads of the torrent and the configuration; `digest` is SHA-1, left open. */
  datatype Meta = Meta(pieceLength: nat, total: nat, hashes: seq<Hash>, digest: seq<byte> -> Hash, maxPeers: nat)

  /** The geometry of every torrent that the metainfo parser accepts. */
  predicate Sound(m: Meta) {
    PieceCount(m.pieceLength, m.total, |m.hashes|) && m.pieceLength <= MAX_PIECE_LENGTH
  }

  function Size(m: Meta, index: nat): nat {
    PieceSize(m.pieceLength, m.total, index)
  }

  predicate Verifies(m: Meta, data: seq<byte>, index: nat)
    requires index < |m.hashes|
  {
    m.digest(data) == m.hashes[index]
  }

  /** What `read_piece` returns: an error when the piece lies past the end. */
  function PieceOnDisk(m: Meta, disk: seq<byte>, index: nat): Option<seq<byte>> {
    var offset := index * m.pieceLength;
    if offset + Size(m, index) <= |disk| then Some(disk[offset..offset + Size(m, index)]) else None
  }

  predicate GoodOnDisk(m: Meta, disk: seq<byte>, index: nat)
    requires index < |m.hashes|
  {
    var data := PieceOnDisk(m, disk, index);
    data.Some? && Verifies(m, data.value, index)
  }

  // ----------------------------------------------------------------------- peers

  /**
   The sending half of a peer's channel. `capacity` is how many messages it takes
   before its writer thread goes away; every later send fails.
   */
  datatype Channel = Channel(sent: seq<Message>, capacity: nat)

  predicate Open(tx: Channel) {
    |tx.sent| < tx.capacity
  }

  function Send(tx: Channel, message: Message): Channel {
    if Open(tx) then tx.(sent := tx.sent + [message]) else tx
  }

  datatype PeerState = PeerState(amChoking: bool, amInterested: bool, peerChoking: bool, peerInterested: bool)

  function Heard(state: PeerState, message: Message): PeerState {
    match message
    case Choke => state.(peerChoking := true)
    case Unchoke => state.(peerChoking := false)
    case Interested => state.(peerInterested := true)
    case NotInterested => state.(peerInterested := false)
    case _ => state
  }

  predicate CanRequest(state: PeerState) {
    state.amInterested && !state.peerChoking
  }

  predicate MayUpload(state: PeerState) {
    !state.amChoking && state.peerInterested
  }

  datatype Payload = Payload(begin: nat, bytes: seq<byte>)

  /** `accepted` records the payloads copied into `data` since the job (re)started; the source keeps only their sum. */
  datatype PieceJob = PieceJob(
    index: nat,
    data: seq<byte>,
    received: nat,
    pending: seq<Block>,
    failures: nat,
    accepted: seq<Payload>)

  function StartJob(index: nat, size: nat): PieceJob {
    PieceJob(index, seq(size, _ => 0), 0, PieceBlocks(size), 0, [])
  }

  function Restart(job: PieceJob): PieceJob {
    job.(received := 0, pending := PieceBlocks(|job.data|), failures := job.failures + 1, accepted := [])
  }

  predicate Done(job: PieceJob) {
    job.received == |job.data|
  }

  datatype Peer = Peer(
    tx: Channel,
    state: PeerState,
    theirs: set<nat>,
    theirsKnown: bool,
    job: Option<PieceJob>,
    inFlight: seq<Issued>,
    downloadedFrom: nat,
    lastUseful: nat)

  function NewPeer(capacity: nat, now: nat): Peer {
    Peer(Channel([], capacity), PeerState(true, false, true, false), {}, false, None, [], 0, now)
  }

  predicate WorksOn(p: Peer, index: nat) {
    p.job.Some? && p.job.value.index == index
  }

  /** Blocks taken out of the pipeline go back to the job's queue. */
  function Requeue(p: Peer, back: seq<Issued>, kept: seq<Issued>): Peer {
    if p.job.None? then p
    else p.(job := Some(p.job.value.(pending := p.job.value.pending + Ranges(back))), inFlight := kept)
  }

  // ----------------------------------------------------------------------- state

  /** `dialing` and `dialed` describe the connector threads: those unanswered, and every address ever dialled. */
  datatype State = State(
    ours: set<nat>,
    counts: seq<nat>,
    active: Active,
    peers: map<nat, Peer>,
    queue: seq<Addr>,
    known: set<Addr>,
    connecting: nat,
    downloaded: nat,
    uploaded: nat,
    rotor: Choke.Rotor,
    lastChoke: int,
    disk: seq<byte>,
    nextId: nat,
    dialing: map<nat, Addr>,
    dialed: seq<Addr>)

  datatype Outcome = Going(state: State) | Failed(state: State)

  function Initial(m: Meta, disk: seq<byte>, start: nat): State {
    State({}, seq(|m.hashes|, _ => 0), map[], map[], [], {}, 0, 0, 0,
          Choke.Rotor(None, None), start - CHOKE_INTERVAL, disk, 0, map[], [])
  }

  predicate Complete(m: Meta, s: State) {
    |s.ours| == |m.hashes|
  }

  // --------------------------------------------------------------- peers coming and going

  function Learn(s: State, addrs: seq<Addr>): State {
    if addrs == [] then s
    else
      var t := Learn(s, addrs[..|addrs| - 1]);
      var addr := addrs[|addrs| - 1];
      if addr in t.known then t else t.(known := t.known + {addr}, queue := t.queue + [addr])
  }

  function DialOne(s: State): State
    requires s.queue != []
  {
    s.(queue := s.queue[1..],
       dialing := s.dialing[s.nextId := s.queue[0]],
       dialed := s.dialed + [s.queue[0]],
       nextId := s.nextId + 1,
       connecting := s.connecting + 1)
  }

  function Dial(m: Meta, s: State): State
    decreases |s.queue|
  {
    if s.connecting + |s.peers| < m.maxPeers && s.queue != [] then Dial(m, DialOne(s)) else s
  }

  function Connected(m: Meta, s: State, id: nat, capacity: nat, now: nat): State {
    var peer := NewPeer(capacity, now);
    var greeted :=
      if s.ours != {} then peer.(tx := Send(peer.tx, Message.Bitfield(Pack(s.ours, |m.hashes|)))) else peer;
    s.(connecting := Monus(s.connecting, 1), dialing := s.dialing - {id}, peers := s.peers[id := greeted])
  }

  function ConnectFailed(s: State, id: nat): State {
    s.(connecting := Monus(s.connecting, 1), dialing := s.dialing - {id})
  }

  function RemovePeer(s: State, id: nat): State {
    if id !in s.peers then s
    else
      var p := s.peers[id];
      s.(peers := s.peers - {id},
         counts := if p.theirsKnown then RemoveBitfield(s.counts, p.theirs) else s.counts,
         active := if p.job.Some? then Abandoned(s.active, p.job.value.index) else s.active)
  }

  // -------------------------------------------------------------------- messages

  function OnBitfield(m: Meta, s: State, id: nat, bits: seq<bv8>): State
    requires id in s.peers
  {
    var p := s.peers[id];
    match ParseBits(bits, |m.hashes|)
    case Ok(theirs) =>
      var counts := if p.theirsKnown then RemoveBitfield(s.counts, p.theirs) else s.counts;
      s.(counts := AddBitfield(counts, theirs), peers := s.peers[id := p.(theirs := theirs, theirsKnown := true)])
    case Err(_) => RemovePeer(s, id)
  }

  function OnHave(m: Meta, s: State, id: nat, index: nat): State
    requires id in s.peers
  {
    var p := s.peers[id];
    if index in p.theirs then s
    else
      var theirs := if index < |m.hashes| then p.theirs + {index} else p.theirs;
      s.(counts := AddHave(s.counts, index), peers := s.peers[id := p.(theirs := theirs, theirsKnown := true)])
  }

  function OnRequest(m: Meta, s: State, id: nat, index: nat, begin: nat, length: nat): State
    requires id in s.peers
  {
    var p := s.peers[id];
    var offset := index * m.pieceLength + begin;
    if MayUpload(p.state) && index in s.ours && 0 < length <= MAX_SERVED_BLOCK && offset + length <= |s.disk| then
      var reply := Message.Piece(index, begin, s.disk[offset..offset + length]);
      s.(peers := s.peers[id := p.(tx := Send(p.tx, reply))],
         uploaded := if Open(p.tx) then s.uploaded + length else s.uploaded)
    else s
  }

  /** Copies an asked-for block into the job; the bounds check is the source's. */
  function Receive(p: Peer, begin: nat, data: seq<byte>, now: nat): Peer
    requires p.job.Some?
  {
    var job := p.job.value;
    var at := IndexOf(p.inFlight, BlockRequest(job.index, begin, |data|));
    if at == |p.inFlight| then p
    else
      var filled :=
        if begin + |data| <= |job.data| then
          job.(data := Splice(job.data, begin, data),
               received := job.received + |data|,
               accepted := job.accepted + [Payload(begin, data)])
        else job;
      p.(inFlight := RemoveAt(p.inFlight, at),
         downloadedFrom := p.downloadedFrom + |data|,
         lastUseful := now,
         job := Some(filled))
  }

  predicate Asked(p: Peer, index: nat, begin: nat, data: seq<byte>) {
    && WorksOn(p, index)
    && IndexOf(p.inFlight, BlockRequest(index, begin, |data|)) < |p.inFlight|
  }

  function OnPiece(m: Meta, s: State, id: nat, index: nat, begin: nat, data: seq<byte>, now: nat, fault: Option<nat>): Outcome
    requires id in s.peers
  {
    var p := s.peers[id];
    if !Asked(p, index, begin, data) then Going(s)
    else
      var q := Receive(p, begin, data, now);
      if Done(q.job.value) then FinishPiece(m, s.(peers := s.peers[id := q.(job := None)]), id, q.job.value, fault)
      else Going(s.(peers := s.peers[id := q]))
  }

  function Cancels(inFlight: seq<Issued>): seq<Message> {
    seq(|inFlight|, i requires 0 <= i < |inFlight| =>
      Message.Cancel(inFlight[i].request.piece, inFlight[i].request.begin, inFlight[i].request.length))
  }

  function SendAll(tx: Channel, messages: seq<Message>): Channel {
    if messages == [] then tx
    else Send(SendAll(tx, messages[..|messages| - 1]), messages[|messages| - 1])
  }

  /** Tells a peer that a piece is done; another peer still fetching it is told to stop. */
  function Announce(p: Peer, finisher: bool, index: nat): Peer {
    var told := p.(tx := Send(p.tx, Message.Have(index)));
    if !finisher && WorksOn(p, index) then
      told.(tx := SendAll(told.tx, Cancels(p.inFlight)), inFlight := [], job := None)
    else told
  }

  /** `fault`: the write fails after that many bytes. */
  function FinishPiece(m: Meta, s: State, id: nat, job: PieceJob, fault: Option<nat>): Outcome {
    var index := job.index;
    if index < |m.hashes| && Verifies(m, job.data, index) then
      var offset := index * m.pieceLength;
      if offset + |job.data| > |s.disk| then Failed(s)
      else if fault.Some? && fault.value < |job.data| then
        Failed(s.(disk := Splice(s.disk, offset, job.data[..fault.value])))
      else
        Going(s.(
          disk := Splice(s.disk, offset, job.data),
          ours := s.ours + {index},
          downloaded := s.downloaded + |job.data|,
          active := Completed(s.active, index),
          peers := map other | other in s.peers :: Announce(s.peers[other], other == id, index)))
    else if job.failures + 1 >= MAX_VERIFY_FAILURES then
      Going(RemovePeer(s.(active := Abandoned(s.active, index)), id))
    else if id in s.peers then
      Going(s.(peers := s.peers[id := s.peers[id].(job := Some(Restart(job)))]))
    else
      Going(s.(active := Abandoned(s.active, index)))
  }

  function OnMessage(m: Meta, s: State, id: nat, message: Message, now: nat, fault: Option<nat>): Outcome {
    if id !in s.peers then Going(s)
    else
      var p := s.peers[id];
      var t := s.(peers := s.peers[id := p.(state := Heard(p.state, message))]);
      match message
      case Bitfield(bits) => Going(OnBitfield(m, t, id, bits))
      case Have(index) => Going(OnHave(m, t, id, index))
      case Choke => Going(t.(peers := t.peers[id := Requeue(t.peers[id], t.peers[id].inFlight, [])]))
      case Request(index, begin, length) => Going(OnRequest(m, t, id, index, begin, length))
      case Piece(index, begin, data) => OnPiece(m, t, id, index, begin, data, now, fault)
      case _ => Going(t)
  }

  // ---------------------------------------------------------------- housekeeping

  datatype Visit = Visit(peer: Peer, dead: bool)

  /** Moves queued blocks into the pipeline until it is full, the queue is empty or the channel closes. */
  function Fill(p: Peer, now: nat): Visit
    decreases if p.job.Some? then |p.job.value.pending| else 0
  {
    if p.job.None? || |p.inFlight| >= PIPELINE_DEPTH || p.job.value.pending == [] then Visit(p, false)
    else
      var job := p.job.value;
      var block := job.pending[0];
      var request := BlockRequest(job.index, block.begin, block.length);
      var popped := p.(job := Some(job.(pending := job.pending[1..])));
      if request in Sent(p.inFlight) then Fill(popped, now)
      else
        var issued := popped.(
          inFlight := p.inFlight + [Issued(request, now)],
          tx := Send(p.tx, Message.Request(job.index, block.begin, block.length)));
        if Open(p.tx) then Fill(issued, now) else Visit(issued, true)
  }

  function Expire(p: Peer, now: nat): Peer {
    Requeue(p, Dead(p.inFlight, now, BLOCK_TIMEOUT), Alive(p.inFlight, now, BLOCK_TIMEOUT))
  }

  /** What a visit does once the peer has its job, if any. */
  function Drive(p: Peer, complete: bool, now: nat): Visit {
    if p.job.None? then Visit(p, false)
    else if Monus(now, p.lastUseful) > SNUB_TIMEOUT && !complete then Visit(p, true)
    else if !p.state.amInterested && !Open(p.tx) then Visit(p, true)
    else
      var q :=
        if p.state.amInterested then p
        else p.(tx := Send(p.tx, Message.Interested), state := p.state.(amInterested := true));
      if CanRequest(q.state) then Fill(q, now) else Visit(q, false)
  }

  datatype Round = Round(state: State, dead: seq<nat>)

  function SetPeer(s: State, id: nat, p: Peer): State {
    s.(peers := s.peers[id := p])
  }

  /** Gives an idle peer whose pieces are known a piece to fetch, if the picker finds one. */
  function Assign(m: Meta, s: State, id: nat): State
    requires id in s.peers
  {
    var p := s.peers[id];
    if p.job.Some? || !p.theirsKnown then s
    else
      match Choose(s.active, ENDGAME_DUP, s.ours, p.theirs, s.counts, |m.hashes|)
      case None => s
      case Some(index) =>
        SetPeer(s.(active := Started(s.active, index)), id, p.(job := Some(StartJob(index, Size(m, index)))))
  }

  function VisitPeer(m: Meta, r: Round, id: nat, now: nat): Round
    requires id in r.state.peers
  {
    var s := Assign(m, SetPeer(r.state, id, Expire(r.state.peers[id], now)), id);
    var v := Drive(s.peers[id], Complete(m, s), now);
    Round(SetPeer(s, id, v.peer), if v.dead then r.dead + [id] else r.dead)
  }

  function VisitAll(m: Meta, s: State, order: seq<nat>, now: nat): (r: Round)
    requires forall id :: id in order ==> id in s.peers
    ensures r.state.peers.Keys == s.peers.Keys
  {
    if order == [] then Round(s, [])
    else VisitPeer(m, VisitAll(m, s, order[..|order| - 1], now), order[|order| - 1], now)
  }

  function RemoveAll(s: State, ids: seq<nat>): State {
    if ids == [] then s else RemovePeer(RemoveAll(s, ids[..|ids| - 1]), ids[|ids| - 1])
  }

  /** `order` lists every key of the map once: a pass over the peers. */
  predicate IsOrder(order: seq<nat>, keys: set<nat>) {
    NoDup(order) && (forall id :: id in order ==> id in keys) && (forall id :: id in keys ==> id in order)
  }

  predicate WantsSlot(p: Peer) {
    p.state.peerInterested && p.state.amChoking
  }

  function Candidates(peers: map<nat, Peer>, order: seq<nat>): seq<nat>
    requires forall id :: id in order ==> id in peers
  {
    if order == [] then []
    else
      var n := |order| - 1;
      Candidates(peers, order[..n]) + (if WantsSlot(peers[order[n]]) then [order[n]] else [])
  }

  function RateOf(id: nat, p: Peer): Choke.Rate {
    Choke.Rate(id, p.downloadedFrom, p.state.peerInterested)
  }

  function Rates(peers: map<nat, Peer>): set<Choke.Rate> {
    set id | id in peers :: RateOf(id, peers[id])
  }

  /** Brings one peer's choke state in line; a state changes only when its message was sent. */
  function Rechoke(p: Peer, unchoke: bool): Peer {
    if unchoke && p.state.amChoking && Open(p.tx) then
      p.(tx := Send(p.tx, Message.Unchoke), state := p.state.(amChoking := false))
    else if !unchoke && !p.state.amChoking && Open(p.tx) then
      p.(tx := Send(p.tx, Message.Choke), state := p.state.(amChoking := true))
    else p
  }

  function Rebalance(s: State, order: seq<nat>, now: nat): State
    requires forall id :: id in order ==> id in s.peers
  {
    var rotor := Choke.Rotate(s.rotor, OPTIMISTIC_INTERVAL, Candidates(s.peers, order), now);
    var unchoked := Choke.Unchoked(Rates(s.peers), REGULAR_UNCHOKE_SLOTS, rotor.current);
    s.(rotor := rotor, peers := map id | id in s.peers :: Rechoke(s.peers[id], id in unchoked))
  }

  /** `order` is the pass over the peers, `again` the pass of the rebalance that may follow. */
  predicate PassesOk(m: Meta, s: State, order: seq<nat>, again: seq<nat>, now: nat) {
    && IsOrder(order, s.peers.Keys)
    && var r := VisitAll(m, s, order, now);
       IsOrder(again, RemoveAll(r.state, r.dead).peers.Keys)
  }

  function Housekeeping(m: Meta, s: State, order: seq<nat>, again: seq<nat>, now: nat): State
    requires PassesOk(m, s, order, again, now)
  {
    var r := VisitAll(m, s, order, now);
    var t := RemoveAll(r.state, r.dead);
    if Monus(now, t.lastChoke) >= CHOKE_INTERVAL then Rebalance(t.(lastChoke := now), again, now) else t
  }

  // ------------------------------------------------------------ resume and final check

  /** The state after the first `n` pieces of a saved bitfield were checked on disk. */
  function ResumeTo(m: Meta, s: State, saved: set<nat>, n: nat): State
    requires n <= |m.hashes|
  {
    if n == 0 then s
    else
      var t := ResumeTo(m, s, saved, n - 1);
      if n - 1 in saved && GoodOnDisk(m, t.disk, n - 1)
      then t.(ours := t.ours + {n - 1}, downloaded := t.downloaded + Size(m, n - 1))
      else t
  }

  datatype Check = Check(state: State, bad: nat)

  function CheckTo(m: Meta, s: State, n: nat): Check
    requires n <= |m.hashes|
  {
    if n == 0 then Check(s, 0)
    else
      var c := CheckTo(m, s, n - 1);
      if GoodOnDisk(m, s.disk, n - 1) then c
      else Check(c.state.(ours := c.state.ours - {n - 1}, downloaded := Monus(c.state.downloaded, Size(m, n - 1))), c.bad + 1)
  }

  function FinalCheck(m: Meta, s: State): Check {
    CheckTo(m, s, |m.hashes|)
  }

  /** What starting the main loop once more does: ids count from zero again, peers and connectors stay. */
  function Restarted(s: State): State {
    s.(nextId := 0)
  }

  // ------------------------------------------------------------------------- runs

  datatype Event =
    | Learned(addrs: seq<Addr>)
    | Dialled
    | Answered(id: nat, capacity: nat, at: nat)
    | Refused(id: nat)
    | Received(id: nat, message: Message, at: nat, fault: Option<nat>)
    | Died(id: nat)
    | Kept(order: seq<nat>, again: seq<nat>, at: nat)

  /** What the threads can deliver: connectors answer once, passes cover the peers. */
  predicate Possible(m: Meta, s: State, e: Event) {
    match e
    case Answered(id, _, _) => id in s.dialing
    case Refused(id) => id in s.dialing
    case Kept(order, again, at) => PassesOk(m, s, order, again, at)
    case _ => true
  }

  function Step(m: Meta, s: State, e: Event): Outcome {
    if !Possible(m, s, e) then Going(s)
    else
      match e
      case Learned(addrs) => Going(Learn(s, addrs))
      case Dialled => Going(Dial(m, s))
      case Answered(id, capacity, at) => Going(Connected(m, s, id, capacity, at))
      case Refused(id) => Going(ConnectFailed(s, id))
      case Received(id, message, at, fault) => OnMessage(m, s, id, message, at, fault)
      case Died(id) => Going(RemovePeer(s, id))
      case Kept(order, again, at) => Going(Housekeeping(m, s, order, again, at))
  }

  /** A run stops at the first i/o error. */
  function Run(m: Meta, s: State, events: seq<Event>): Outcome {
    if events == [] then Going(s)
    else
      var o := Run(m, s, events[..|events| - 1]);
      if o.Failed? then o else Step(m, o.state, events[|events| - 1])
  }
}
