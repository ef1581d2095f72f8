# btget, modelled and proved

This Dafny project models the deterministic core of btget, a BitTorrent
downloader written in Rust, and proves properties of it. `dafny verify
dfyconfig.toml` checks everything.

## What is modelled

* **The download engine** (`EngineModel`, `EngineInvariant`, `JobInvariant`,
  `EngineMessages`, `EngineHousekeeping`, `EngineTheorems`, `EngineTold`,
  `EngineHeard`, `EngineSteps`, `EngineChokes`, `EnginePeers`, `EngineLimits`,
  `EngineLoop`, `Engine`). One thread owns the state and consumes events. `EngineModel` gives each handler as a function
  on the whole state, `Run` plays any sequence of events, and the invariant names the
  ten places where redundant state must agree: jobs, picker, availability, bitfield,
  disk, byte counter, connectors, choke slots. `EngineTold` and `EngineHeard` tie the
  state to what peers were told and have said, `EngineSteps`, `EngineChokes` and
  `EnginePeers` say what each event achieves. `Engine` is the imperative engine:
  its methods update fields in place and are proved equal to the steps, up to the
  main loop, whose schedule `EngineLoop` states, and a whole download.
* **Its components**, each as a class whose methods are proved against functions on
  values: `Storage` (file segments refine one flat byte array), `Pieces` (packed
  bits refine a set), `Requests` (blocks and pipeline), `Picker`, `Choke`.
* **Bencode and what is built on it**: `Bencode` (values, printer, grammar),
  `BencodeParser` (the parser with its cursor and the printer with its buffer),
  `BencodeProofs`, `BencodeLoose` (what lenient decoding accepts), `Extensions` (a second, iterative scanner and the messages read
  behind it), `Metainfo` and `MetainfoText` (torrent files), `Resume` (the resume file).
* **Independent cores**: `Wire` (peer messages), `Dht` (routing table), `Magnet`
  (base 32 and hexadecimal topics).

## How the environment is modelled

* Time is a natural number in milliseconds. The environment chooses the next event,
  the clock and, for every pass over the peer map, the order of iteration.
* A channel to a peer is the list of messages sent and a capacity: the number of
  sends that succeed before the writer thread is gone. The environment picks the
  capacity when the peer connects; a send fails exactly when it is used up.
* A write may fail at the device after any number of bytes.
* SHA-1 and the UTF-8 check are arbitrary functions. Strings are byte strings.
* A connector answers once, under the id it was started with. That is what the
  counter guarantees inside one call of the main loop. A turn that carries an answer
  nobody waits for is played as a turn without an answer.
* `PieceJob.accepted`, the payloads accepted since a job started, is the one history
  variable; nothing branches on it.

## What the code does not keep

Where a promise does not hold, the code is modelled as it is and the exact
condition is proved.

* The optimistic slot is meant to be held for 30 seconds and to move along the
  candidates. In the engine it moves at every rebalance, every 10 seconds, because
  the peer it unchoked is no longer a candidate, and for the same reason it starts
  over at the first candidate each time. The fairness proved of the rotor alone
  (`Choke.RotationsVisitAll`) needs fixed candidates and so says nothing of the engine
  while channels stay open (`EngineLimits.OptimisticHeldIff`, `OptimisticStartsOver`,
  `OptimisticDropped`, and the run `OptimisticLost`).
* Ids start again at 0 when the files are rechecked while peers stay connected. That
  keeps the invariant exactly when there are no peers, no connectors and no rotor
  choice (`EngineLimits.RestartIff`; for peers and connectors it is the clause that every
  id in use is below the counter that fails, the harm itself comes later); otherwise an
  answer under an id in use breaks the counts (`ReusedIdIff`, and the run
  `RecheckBreaksCounts`). `CollisionIff` says when one pass of the dial loop after the
  restart starts a connector under the id of a peer; later passes may too. A connector
  still unanswered at the restart may come to share its id with a new one: `dialing` is a
  map, in which the two are then one entry, so the model says nothing of that case.
* The final check gives up pieces without telling anyone, so a peer that stays connected
  over a recheck goes on believing that we have them (`EngineLimits.RecheckToldIff`, and the run
  `LossUntold`). Until then every open channel knows exactly what we have
  (`EngineTold.PeersKnowOurs`).
* A request is checked against the end of the torrent, not of its piece, so a peer can be
  sent bytes of a piece that we lack (`EngineLimits.UploadIff`, `ServesUnowned`).
* A peer that was idle for more than 90 seconds is dropped as snubbing in the very
  visit that gives it a job, before it was asked for anything
  (`EngineLimits.HiredAndDroppedIff`, and the run `DroppedUnasked`).
* Piece numbers and sizes of 2^63 and more do not survive the metadata messages
  (`Extensions.DataRoundTrip`, `RequestRoundTrip`, `HandshakeRoundTrip`).
* The writer of peer messages has no frame limit, the reader has
  (`Wire.ReadsBackIff`).
* An info dictionary nested exactly 128 deep is accepted from a peer, not in a
  torrent file (`Metainfo.WrapIff`, `WrapWitness`).
* `Error::NotADict` is never returned by prefix decoding
  (`Extensions.DecodePrefixIff`).

## Model

| member | source | states |
|---|---|---|
| `EngineTheorems.RunFine` | bt/src/engine.rs:242-311 | From a state whose parts agree, every sequence of events, in any order and with any clock, leads to a state whose parts agree, or to a write error that leaves every claimed piece good on disk and the byte counter right |
| `EngineTheorems.StepFine` | bt/src/engine.rs:450-763 | One event (addresses learned, dialling, a connector that answers or fails, a message, a death, housekeeping) keeps the engine invariant |
| `EngineTheorems.RunConcat` | bt/src/engine.rs:242-311 | A run followed by a run is a run |
| `EngineTheorems.InitialInv` | bt/src/engine.rs:160-181 | A fresh download satisfies the engine invariant |
| `EngineTheorems.ResumeInv` | bt/src/engine.rs:188-198 | Resume claims exactly the saved pieces that verify on disk, and keeps the invariant |
| `EngineTheorems.BlocksPartitioned` | bt/src/engine.rs:83-111 | In every reachable state the pending, in-flight and received blocks of a job are, as a multiset, exactly the blocks of its piece; `received` is the byte sum of the received ones, each received payload stands in `data`, a pending block is never in flight (so `issue` never refuses), the job is unfinished and has work left; a peer without a job has nothing in flight |
| `JobInvariant.DoneIff` | bt/src/engine.rs:108-110 | A job is done exactly when nothing is pending and nothing in flight |
| `JobInvariant.DoneCovers` | bt/src/engine.rs:570-579 | Every byte of a finished piece was delivered by one accepted payload and still stands in `data` |
| `JobInvariant.ArrivalFits` | bt/src/engine.rs:572-576 | An asked-for block always fits its job, so the bounds check before the copy never fails, and it overwrites no earlier payload |
| `JobInvariant.PendingNotInFlight` | bt/src/engine.rs:677-682 | A pending block is not in flight |
| `EngineTheorems.PickerCounts` | bt/src/engine.rs:604-635 | In every reachable state the picker counts, for each piece, the peers whose job it is, within the endgame cap, with no zero entry and none for an owned piece; with all pieces owned there are no jobs and no entries |
| `EngineTheorems.AvailabilityExact` | bt/src/engine.rs:516-536 | In every reachable state the availability of a piece is the number of connected peers that have it, through replaced bitfields, repeated or out-of-range Have and removals; taking a peer out never meets a zero |
| `EngineTheorems.OwnedOnDisk` | bt/src/engine.rs:598-603 | In every reachable state each owned piece reads back from disk as bytes that verify |
| `EngineMessages.OtherPieces` | bt/src/engine.rs:598-601 | Writing a piece leaves the bytes of every other piece as they were |
| `EngineMessages.StoredInv` | bt/src/engine.rs:598-625 | Storing a verified piece, announcing it and taking the job from every other peer that was fetching it keeps the invariant |
| `EngineMessages.FinishFine` | bt/src/engine.rs:591-637 | A full job, good or bad, stored, restarted or given up, leaves the invariant; a failed write leaves every owned piece good on disk |
| `EngineMessages.MessageFine` | bt/src/engine.rs:503-589 | Whatever a peer sends, at any time, keeps the invariant |
| `EngineMessages.BitfieldInv` | bt/src/engine.rs:516-529 | A first or a replacing bitfield, or a malformed one, which removes the peer, keeps the availability exact |
| `EngineMessages.HaveInv` | bt/src/engine.rs:530-536 | A Have, repeated or out of range, keeps the availability exact |
| `EngineMessages.WriteKeepsDisk` | bt/src/engine.rs:598-602 | After the write the owned pieces and the new one verify on disk |
| `EngineHousekeeping.HousekeepingInv` | bt/src/engine.rs:639-712 | Housekeeping keeps the invariant for every order of the peer map |
| `EngineHousekeeping.RebalanceInv` | bt/src/engine.rs:732-763 | Rebalancing the chokes keeps the invariant |
| `EngineHousekeeping.ConnectedInv` | bt/src/engine.rs:452-476 | A connector that answers with an unused id keeps the invariant |
| `EngineHousekeeping.DialInv` | bt/src/engine.rs:290-297 | Dialling as far as the peer limit allows keeps the connection count exact and never repeats an address |
| `EngineInvariant.RemoveInv` | bt/src/engine.rs:491-501 | Removing a peer, with or without a job, keeps the invariant |
| `EngineTheorems.DialledOnce` | bt/src/engine.rs:355-432 | In every reachable state `connecting` is the number of unanswered connectors, connectors and peers together stay within the limit, they share no id, and no address is dialled twice |
| `EngineTheorems.FewUnchoked` | bt/src/engine.rs:732-763 | In every reachable state at most the regular slots and one of the peers whose channel is open are unchoked (a peer whose channel closed keeps its last state and is not counted), and our choke and interest flags mirror the last message each peer was sent |
| `EngineTold.PeersKnowOurs` | bt/src/engine.rs:471-473 | In every reachable state what a connected peer was told of our pieces, by its greeting bitfield and the Haves since, is never more than we have, and is exactly what we have while its channel takes messages |
| `EngineTold.StepTold` | bt/src/engine.rs:450-763 | Every event keeps that, one that ends in a write error included |
| `EngineTold.AnnounceTold` | bt/src/engine.rs:605-619 | Hearing of a finished piece, a peer that knew exactly what we had knows exactly what we have now; the cancels that may follow say nothing of our pieces |
| `EngineHeard.PeersAreHeard` | bt/src/engine.rs:503-589 | In every reachable state what we keep of a peer is what it said since it connected: its pieces are its last well-formed bitfield and the in-range Haves after it, they count as known exactly after a well-formed bitfield or a Have, its choke and interest flags are its last word on each, and the bytes and the time of its deliveries are the sum and the last of the asked-for blocks |
| `EngineHeard.StepHeard` | bt/src/engine.rs:503-763 | Every event, for every peer, changes that by what the event told us and by nothing else |
| `EngineHeard.BitfieldOutcome` | bt/src/engine.rs:516-529 | A well-formed bitfield replaces what was known; any other ends the connection |
| `EngineHeard.ServedIff` | bt/src/engine.rs:544-560 | A request is answered, with the bytes on disk and counted, exactly if the peer was last told Unchoke and last said Interested, asks for a piece we have and a served length inside the torrent, and its channel takes the answer |
| `EngineSteps.BlockIgnored` | bt/src/engine.rs:561-568 | A block that answers no request changes nothing |
| `EngineSteps.BlockTaken` | bt/src/engine.rs:569-586 | A block that is not the last of its piece takes exactly its request out of the pipeline and puts its bytes in the job; nothing else changes |
| `EngineSteps.FirstBadCopy` | bt/src/engine.rs:628-630 | A first copy that does not verify leaves the peer connected with the same piece to fetch from the start: nothing received, every block queued once, nothing in flight, one failure; nothing else changes |
| `EngineSteps.SecondBadCopy` | bt/src/engine.rs:625-627 | A second one removes the peer, and the counts fit the peers that are left |
| `EngineSteps.GoodCopy` | bt/src/engine.rs:597-604 | A copy that verifies is on disk and ours, every other piece is as it was, its bytes are counted and the picker forgets it; a torn write stops the engine and claims nothing |
| `EngineSteps.GoodCopyHeard` | bt/src/engine.rs:605-619 | Every peer is sent Have; another peer at work on the piece is also sent one Cancel for each request in flight, in order, and becomes idle; every other peer keeps its job |
| `EngineSteps.ChokedRequeues` | bt/src/engine.rs:537-543 | Choke moves everything in flight behind the queue, oldest first |
| `EngineSteps.FillIsPrefix` | bt/src/engine.rs:674-697 | The pipeline is filled with the first queued blocks, in order, until it is full, the queue is empty or the channel has refused one |
| `EngineSteps.DriveSends` | bt/src/engine.rs:660-697 | What one visit sends: nothing to a late peer, else our interest once and the first queued blocks; dropped are exactly the late peers and those whose channel refuses one of these |
| `EngineSteps.ReadyOk` | bt/src/engine.rs:644-659 | Before that the overdue requests go back behind the queue and the others stay in flight |
| `EngineSteps.HiredForBest` | bt/src/engine.rs:651-659 | An idle peer whose pieces are known gets, from the start, the piece fetched by the fewest, then the rarest, then the first of those it has, we lack and the cap allows, and none exactly if there is none |
| `EngineSteps.DroppedFor` | bt/src/engine.rs:660-702 | A pass drops a peer only if it is late with a piece to fetch or its channel has closed, and drops all that are late; the others keep every request that is not overdue |
| `EngineChokes.PassChokes` | bt/src/engine.rs:703-706 | A pass less than ten seconds after the last rebalance leaves the rotor, the clock and every remaining choke state alone and says nothing about chokes; a later one sets the clock to now |
| `EngineChokes.NoEarlyChoke` | bt/src/engine.rs:503-712 | Nor does any other event change anything about chokes |
| `EngineChokes.RechokesApart` | bt/src/engine.rs:703-706 | Over any run two events that change the optimistic choice or some choke state are passes at least ten seconds apart |
| `EngineChokes.UnchokedIff` | bt/src/engine.rs:749-762 | After a rebalance a peer that can be told is unchoked exactly if it has a regular slot or is the optimistic choice; a change is told in one message |
| `EnginePeers.DialledInOrder` | bt/src/engine.rs:260-264 | In every reachable state the addresses dialled and then those waiting are all the addresses ever named, each once, in the order first named |
| `EnginePeers.DialMeaning` | bt/src/engine.rs:290-297 | One pass of the dial loop starts a connector under the next id for each address at the front of the queue, as many as there is room for |
| `EnginePeers.ConnectorEnds` | bt/src/engine.rs:452-480 | A connector is outstanding until it answers or fails, and only then is counted off |
| `EnginePeers.ConnectedIff` | bt/src/engine.rs:450-702 | A peer is connected exactly from the answer of its connector until its connection dies, it sends a malformed bitfield or a second bad copy, or a pass drops it |
| `EngineTheorems.NoStall` | bt/src/engine.rs:644-702 | After housekeeping a remaining peer with a job that may be asked has a full pipeline or nothing pending, and at least one request in flight, sent unless the channel has closed |
| `EngineTheorems.NoIdleHelper` | bt/src/engine.rs:651-658 | After housekeeping a peer is idle only if each missing piece it has was fetched, at the end of the visits, by as many peers as the cap allows; who fetches it then are those less the dropped ones |
| `EngineTheorems.LeftIsMissing` | bt/src/engine.rs:336-336 | The announced `left` is the size of the missing pieces, and zero exactly when the download is complete |
| `EngineTheorems.CheckFindsNothing` | bt/src/engine.rs:714-730 | When only the engine writes the files, the final check of a complete run finds no bad piece and changes nothing |
| `EngineTheorems.FinalCheckRepairs` | bt/src/engine.rs:714-730 | Whatever bytes the files hold and wherever the last one ends, the final check keeps exactly the pieces that read and verify, counts the rest and leaves the byte counter right; with files of full length it keeps the invariant |
| `EngineTheorems.NothingOverdue` | bt/src/engine.rs:646-664 | After housekeeping every request in flight is younger than the block timeout, and until the download is complete every remaining peer with a job was useful within the snub timeout |
| `EngineTheorems.UnchokedDominate` | bt/src/engine.rs:732-763 | After a rebalance every reachable unchoked peer but the rotor's choice has delivered more than every reachable interested peer left choked, or as much with a lower id |
| `EngineLimits.ReusedIdIff` | bt/src/engine.rs:452-475 | An answer under an id in use keeps the availability right exactly when the overwritten peer had no pieces, and the picker right exactly when it had no job |
| `EngineLimits.RestartIff` | bt/src/engine.rs:247-247 | Starting the main loop once more, with ids from 0, keeps the invariant exactly when there are no peers, no connectors and no rotor choice |
| `EngineLimits.RecheckIff` | bt/src/engine.rs:208-222 | So does going round again after a final check of files of full length, whatever is in them |
| `EngineLimits.CollisionIff` | bt/src/engine.rs:290-297 | After a restart a connector gets the id of a connected peer exactly if some peer has an id below the number of connectors dialled |
| `EngineLimits.RecheckBreaksCounts` | bt/src/engine.rs:208-297 | A run into that collision, for every digest that tells two files apart: the only peer delivers the only piece, the file is changed, the check fails, an address dialled under id 0 answers, and the availability counts a piece nobody has |
| `EngineLimits.RecheckToldIff` | bt/src/engine.rs:714-730 | After a complete run the final check leaves every open channel knowing what we have exactly if no piece was bad or no channel is open |
| `EngineLimits.LossUntold` | bt/src/engine.rs:208-222 | In that run the peer, still connected, goes on believing that we have the piece |
| `EngineLimits.OptimisticHeldIff` | bt/src/engine.rs:732-739 | Before its 30 seconds are over the optimistic slot keeps its peer exactly while that is connected, interested and choked, which is only ever a peer whose channel has closed |
| `EngineLimits.OptimisticStartsOver` | bt/src/engine.rs:732-739 | While its channel is open the rotor starts at the first candidate in map order at every rebalance, due or not |
| `EngineLimits.OptimisticDropped` | bt/src/engine.rs:749-762 | A peer that only the optimistic slot unchoked is choked again by the next rebalance |
| `EngineLimits.OptimisticLost` | bt/src/engine.rs:703-739 | A run, for every digest, in which the slot is empty 10 seconds after it was given to a peer that is still connected, interested and reachable |
| `EngineLimits.TwoBadCopies` | bt/src/engine.rs:591-637 | A run, for every digest that tells two blocks apart, in which a peer delivers two bad copies: after the first it is there and asked again, after the second it is gone |
| `EngineLimits.HiredAndDroppedIff` | bt/src/engine.rs:651-664 | A reachable peer without a job is given one and dropped in the same visit, unasked, exactly if the picker has a piece for it, the download is not complete and it last connected or delivered longer ago than the snub timeout |
| `EngineLimits.DroppedUnasked` | bt/src/engine.rs:651-664 | A run to such a peer: it told its pieces when it connected, and the next visit, 90.001 seconds later, hires and drops it without a message |
| `EngineLimits.UploadIff` | bt/src/engine.rs:544-560 | An upload that stays inside its piece is a slice of bytes that verify; one that runs past it, which the source allows, reaches into the pieces behind |
| `EngineLimits.ServesUnowned` | bt/src/engine.rs:544-560 | A peer that may be served and asks for the byte behind our piece 0 is sent the first byte of piece 1, which we lack |
| `Engine.Engine.Run` | bt/src/engine.rs:242-311 | From a state that restarting the ids leaves sound, the main loop is a run of the step machine: the turns one by one while the download is incomplete, and then the ending it returns; it ends well only when complete, and gives up only when starved for enough rounds |
| `Engine.Engine.Download` | bt/src/engine.rs:148-222 | A whole download with only the engine writing: the first addresses are learned, the saved pieces that verify taken over and the turns played from there; the final check returns 0, so there is no recheck, and after a good end every piece verifies on disk; after any other end every claimed piece does |
| `Engine.Engine.TakeTurn` | bt/src/engine.rs:249-310 | One turn plays exactly these events: the addresses of an announce, if one is due or nobody is left and it succeeds; then, unless still nobody is left, which is counted, dialling, the message if there is one, and a pass of housekeeping, which a write error prevents |
| `Engine.Engine.AskTracker` | bt/src/engine.rs:253-288 | A successful announce is learned; a round that leaves nobody is counted, a fruitful one ends the count |
| `Engine.Engine.Handle` | bt/src/engine.rs:450-489 | Each input is one step of the machine; an answer under an id that nobody dials, which the source would insert, is passed over as a step that does nothing |
| `Engine.Engine.OnMessage` | bt/src/engine.rs:503-589 | The handler's in-place updates are the message step |
| `Engine.Engine.TakeBlock` | bt/src/engine.rs:561-586 | A piece message: pipeline, copy, completion and finish, as the step says |
| `Engine.Engine.FinishPiece` | bt/src/engine.rs:591-637 | The three outcomes of a full job on the engine's own fields |
| `Engine.Engine.StorePiece` | bt/src/engine.rs:598-620 | Write, claim, count, clear the picker and tell everyone; a failed write stops before any of that |
| `Engine.Engine.Broadcast` | bt/src/engine.rs:605-619 | Every peer hears of the piece; other peers at work on it are cancelled block by block |
| `Engine.Engine.RemovePeer` | bt/src/engine.rs:491-501 | The peer leaves the availability, the picker and the map |
| `Engine.Engine.Housekeeping` | bt/src/engine.rs:639-712 | The loop over the peers in any order, the removals and the rebalance are the housekeeping step |
| `Engine.Engine.VisitPeer` | bt/src/engine.rs:644-697 | One peer's visit: expiry, assignment, snub check, interest and requests |
| `Engine.Engine.FillPipeline` | bt/src/engine.rs:674-697 | Requests go out oldest pending block first until the pipeline is full, nothing is pending or the send fails |
| `Engine.Engine.RebalanceChokes` | bt/src/engine.rs:732-763 | Candidates, rates, rotation, selection and messages are the rebalance step |
| `Engine.Engine.Dial` | bt/src/engine.rs:290-297 | The dial loop starts a connector for queued addresses while there is room |
| `Engine.Engine.PeerConnected` | bt/src/engine.rs:452-476 | A new peer is greeted with our bitfield if we have anything |
| `Engine.Engine.Serve` | bt/src/engine.rs:544-560 | A request is answered only to an unchoked, interested peer, for a piece we have and an acceptable length, and counted only if sent |
| `Engine.Engine.Resume` | bt/src/engine.rs:188-198 | The resume loop reaches the state that claims the saved pieces that verify |
| `Engine.Engine.FinalCheck` | bt/src/engine.rs:714-730 | The check loop is the check of the step machine |
| `Engine.Engine.Learn` | bt/src/engine.rs:260-264 | Addresses enter the queue once |
| `Storage.Storage.Segments` | bt/src/storage.rs:57-81 | The segments of any range are non-empty, in file order, inside their files, and tile the part of the range that lies in the torrent |
| `Storage.Storage.WriteBlock` | bt/src/storage.rs:122-137 | A write replaces exactly its range of the flat array, or is refused past the end; a device fault leaves a prefix of it written; bytes of a file past its declared length stay |
| `Storage.Storage.ReadBlock` | bt/src/storage.rs:139-153 | A read returns exactly its range of the flat array, or is refused past the end |
| `Storage.Storage.ReadPiece` | bt/src/storage.rs:155-157 | A piece reads as its range of the flat array |
| `Storage.Storage.constructor` | bt/src/storage.rs:83-99 | Allocation extends short files with zeros, keeps what they held and shortens none |
| `Storage.FlatWrite` | bt/src/storage.rs:128-135 | Writing inside one file writes the same bytes at that file's place in the flat array and nowhere else |
| `Storage.FlatRange` | bt/src/storage.rs:146-151 | A range of one file is the range at its place in the flat array |
| `Storage.PieceInside` | bt/src/storage.rs:52-55 | A piece is not empty, ends inside the torrent, and only the last may be short |
| `Storage.PiecesApart` | bt/src/storage.rs:52-55 | Two pieces share no byte |
| `Storage.PiecesSum` | bt/src/storage.rs:52-55 | The piece sizes sum to the total length |
| `Requests.CutPiece` | bt/src/requests.rs:12-21 | The loop cuts a piece into its blocks |
| `Requests.BlockAt` | bt/src/requests.rs:12-21 | Block `i` starts at `i` block sizes and is full except for the last |
| `Requests.BlocksCover` | bt/src/requests.rs:12-21 | Every byte of a piece lies in a block |
| `Requests.BlocksDisjoint` | bt/src/requests.rs:12-21 | No two blocks share a byte |
| `Requests.OffsetsExactIff` | bt/src/requests.rs:17-17 | The 32-bit casts keep every offset and length exactly when the piece is no longer than 2^32 bytes |
| `Requests.RequestPipeline.Issue` | bt/src/requests.rs:51-57 | A request is refused exactly when the pipeline is full or already holds it, and otherwise appended |
| `Requests.RequestPipeline.Complete` | bt/src/requests.rs:59-65 | The first matching request, and only it, is taken out; none if there is none |
| `Requests.RequestPipeline.Expired` | bt/src/requests.rs:67-75 | The overdue requests leave in order and the others stay in order |
| `JobInvariant.RequeueParts` | bt/src/requests.rs:67-79 | Whatever split of the pipeline is taken out by `drain` or `expired` and put back in the queue, no block is lost or doubled and the received ones stay |
| `Requests.ExpirySplits` | bt/src/requests.rs:67-75 | Expiry splits the pipeline: every request is on exactly one side |
| `Pieces.ParseBitsIff` | bt/src/pieces.rs:21-36 | Accepted are exactly the byte strings of the right length whose spare bits are zero, and they stand for their set bits |
| `Pieces.PackParses` | bt/src/pieces.rs:42-44 | The packed bytes of a set read back as the set |
| `Pieces.PackingUnique` | bt/src/pieces.rs:21-44 | A set has only one accepted byte string, so parsing and packing again gives the bytes back |
| `Pieces.PopulationIsSize` | bt/src/pieces.rs:65-67 | Counting bits over whole bytes gives the size of the set |
| `Pieces.CompleteIff` | bt/src/pieces.rs:69-71 | The count reaches the number of pieces exactly when every piece is there |
| `Pieces.Bitfield.Set` | bt/src/pieces.rs:53-57 | Adds the piece if there is such a piece; spare bits stay zero |
| `Pieces.Bitfield.Clear` | bt/src/pieces.rs:59-63 | Removes the piece; spare bits stay zero |
| `Pieces.Bitfield.CountSet` | bt/src/pieces.rs:65-67 | The size of the set |
| `Pieces.Bitfield.IsComplete` | bt/src/pieces.rs:69-71 | True exactly when every piece is there |
| `Pieces.Bitfield.Missing` | bt/src/pieces.rs:73-75 | The missing pieces in order |
| `Pieces.Availability.Add` | bt/src/pieces.rs:100-106 | Each piece of the bitfield is counted once more |
| `Pieces.Availability.Remove` | bt/src/pieces.rs:108-116 | Each piece of the bitfield is counted once less, stopping at zero |
| `Picker.ChooseMeaning` | bt/src/picker.rs:28-46 | Nothing is chosen exactly when every missing piece the peer has is at the cap; an unstarted piece wins over a started one, then the rarest, then the lowest index; started pieces go by fewest fetchers first |
| `Picker.PiecePicker.Pick` | bt/src/picker.rs:22-49 | The choice, counted once more |
| `Picker.PiecePicker.Abandon` | bt/src/picker.rs:55-62 | One fetcher less; the entry goes with the last one, and no zero entry arises |
| `EngineMessages.RelievedActive` | bt/src/picker.rs:51-53 | Forgetting a finished piece is right: with its job taken off every peer, the counts that remain are the numbers of peers at work |
| `Picker.PiecePicker.InEndgame` | bt/src/picker.rs:64-66 | True exactly when every missing piece is being fetched |
| `Choke.TopIsRegular` | bt/src/choke.rs:16-22 | Sorting and taking the first slots picks the interested peers by rank, whatever order the map gave them in |
| `Choke.RegularDominates` | bt/src/choke.rs:17-22 | A peer in a regular slot has delivered more than every interested peer outside them, or as much with a lower id |
| `Choke.SelectionMeaning` | bt/src/choke.rs:11-29 | The unchoked peers are those of the regular ranks and the optimistic one, never more than the slots and one |
| `Choke.SelectUnchoked` | bt/src/choke.rs:11-29 | Filter, sort, take and the optimistic addition |
| `Choke.RotationsVisitAll` | bt/src/choke.rs:51-80 | With fixed distinct candidates, as many due rotations as candidates visit every one |
| `EngineTheorems.WorkersAfter` | bt/src/engine.rs:699-702 | After housekeeping a piece is fetched by exactly those who fetched it after the visits and were not dropped |
| `Choke.HoldsIff` | bt/src/choke.rs:52-62 | Before the interval is over the rotor keeps its peer exactly while that is a candidate |
| `Choke.HeldForInterval` | bt/src/choke.rs:51-80 | A rotation that chooses somebody starts a new interval, during which a choice that stays a candidate is kept and after which the next rotation chooses again |
| `Choke.OptimisticRotor.MaybeRotate` | bt/src/choke.rs:51-80 | The in-place rotation |
| `Resume.SaveLoadIff` | bt/src/resume.rs:11-37 | A saved bitfield is read back exactly when the info hash and the piece count are those it was saved for |
| `Resume.LoadIff` | bt/src/resume.rs:19-37 | A file loads as a set exactly if it is the canonical encoding of a dictionary that holds the hash, the piece count and the packed set |
| `Resume.Save` | bt/src/resume.rs:11-17 | The file holds the hash, the packed bitfield and the piece count |
| `BencodeProofs.DecodeIff` | bt/src/bencode.rs:25-40 | Strict decoding accepts exactly the canonical encodings of values nested at most 128 deep, dictionary keys counted one level down |
| `BencodeProofs.LenientAgrees` | bt/src/bencode.rs:29-31 | What strict decoding accepts, lenient decoding accepts with the same value |
| `BencodeLoose.LenientIff` | bt/src/bencode.rs:29-40 | Lenient decoding accepts exactly the texts with leading zeros, minus zero and dictionary keys in any order and repeated, within 64 bits and 128 levels, and gives what they mean |
| `BencodeLoose.LenientDict` | bt/src/bencode.rs:175-199 | A dictionary text in any order decodes leniently to the ascending dictionary that holds the last value of each key |
| `BencodeLoose.LooseAccepted` | bt/src/bencode.rs:97-199 | So it reads such a text anywhere in the input and stops right behind it |
| `BencodeLoose.AcceptedIsText` | bt/src/bencode.rs:97-199 | Whatever it accepts at any place and depth is such a text |
| `BencodeProofs.ParseComplete` | bt/src/bencode.rs:97-108 | Strict or lenient, the parser reads an encoding that stands anywhere in the input and stops right behind it |
| `BencodeProofs.ParseSound` | bt/src/bencode.rs:97-199 | What the strict parser accepts at any place and depth is the encoding of what it returns |
| `Bencode.NumberDigits` | bt/src/bencode.rs:110-139 | Digits without leading zeros are the digits of their number |
| `BencodeParser.Parser.Value` | bt/src/bencode.rs:97-108 | The parser with its cursor follows the grammar at every depth, errors included |
| `BencodeParser.Parser.Integer` | bt/src/bencode.rs:110-139 | Sign, digits, end mark and the 64-bit range, with the error of the first thing wrong |
| `BencodeParser.Parser.String` | bt/src/bencode.rs:141-161 | Length prefix and bytes, with the error of the first thing wrong |
| `BencodeParser.Parser.Items` | bt/src/bencode.rs:163-173 | The list loop |
| `BencodeParser.Parser.Entries` | bt/src/bencode.rs:175-199 | The dictionary loop with its key checks and insertions |
| `BencodeParser.DecodeWith` | bt/src/bencode.rs:33-40 | One value and nothing behind it |
| `BencodeParser.EncodeInto` | bt/src/bencode.rs:48-78 | The printer appends the encoding to the buffer |
| `Extensions.ScannerFindsDict` | bt/src/extensions.rs:124-160 | If a prefix of the payload decodes as a dictionary, the depth-counting scanner returns the length of that prefix, whatever follows |
| `Extensions.ScanValue` | bt/src/extensions.rs:131-158 | The scanner steps over every value the recursive parser accepts |
| `Extensions.DecodePrefixIff` | bt/src/extensions.rs:113-122 | Prefix decoding succeeds with a dictionary and a length exactly when the prefix of that length decodes leniently to it; "not a dictionary" is never reported |
| `Extensions.HandshakeMeans` | bt/src/extensions.rs:31-48 | Any dictionary a peer may send as handshake, however written and whatever follows, gives exactly the message id from 1 to 255 that its last `m` holds and its last positive size |
| `Extensions.MetadataMeans` | bt/src/extensions.rs:81-107 | Any metadata dictionary is a request, piece or rejection exactly if its last `msg_type` is 0, 1 or 2 and its last `piece` is not negative; what follows is the data |
| `Extensions.MetadataNeeds` | bt/src/extensions.rs:81-90 | Without a number under either key it is refused |
| `Extensions.DataRoundTrip` | bt/src/extensions.rs:64-107 | A metadata piece reads back with its number and data exactly when an `i64` holds the number; the total size survives exactly when it is positive and an `i64` holds it |
| `Extensions.RequestRoundTrip` | bt/src/extensions.rs:57-107 | Requests and rejections read back, whatever follows, exactly when an `i64` holds the piece number |
| `Extensions.HandshakeRoundTrip` | bt/src/extensions.rs:20-48 | A handshake reads back with message id 1 and, when positive and within `i64`, its metadata size |
| `Extensions.FindDictEnd` | bt/src/extensions.rs:124-160 | The loop over depth and place is the scanner |
| `Extensions.BuildExtHandshake` | bt/src/extensions.rs:20-29 | The handshake built key by key is the encoding of the dictionary that reads back |
| `Extensions.BuildMetadata` | bt/src/extensions.rs:57-79 | The builder's dictionary is in key order and the data stands behind it |
| `Metainfo.AcceptedSound` | bt/src/metainfo.rs:92-141 | Every accepted torrent has non-empty 20-byte-hashed pieces that tile its files exactly, a bounded piece length, a 64-bit total equal to the sum of its files, and safe path components: the geometry the engine theorems start from |
| `MetainfoText.InfoIff` | bt/src/metainfo.rs:79-141 | Bytes are accepted as info dictionary with a given meaning exactly if they are the canonical encoding of a dictionary that describes it: name, piece length, the hashes joined in order, and one length or the list of lengths and paths in order; the hash is the digest of those bytes |
| `MetainfoText.InfoRoundTrip` | bt/src/metainfo.rs:79-176 | Every well-formed torrent, single file or many, written as an info dictionary is read back |
| `MetainfoText.TorrentRoundTrip` | bt/src/metainfo.rs:67-77 | Every such torrent written as a file is read back with all its tracker tiers; without any, with its announce URL |
| `MetainfoText.JoinedChunks` | bt/src/metainfo.rs:113-120 | The hashes are the string cut into twenties, in order and without rest |
| `Metainfo.HashedBytes` | bt/src/metainfo.rs:67-90 | The bytes hashed are a contiguous slice of the file, and on their own, with the same trackers, they parse to the identical torrent |
| `Metainfo.WrapIff` | bt/src/metainfo.rs:67-90 | An info dictionary accepted on its own is accepted in a torrent file with the same meaning exactly when it is not nested to the last level |
| `Metainfo.WrapWitness` | bt/src/metainfo.rs:67-90 | Such a dictionary exists, for every UTF-8 check that accepts the name "x": nested to the last level, accepted from a peer and refused in a torrent file |
| `Metainfo.SumLengths` | bt/src/metainfo.rs:119-124 | The checked sum fails exactly when the total does not fit 64 bits |
| `Metainfo.ReadPath` | bt/src/metainfo.rs:178-186 | The components in order, or the first error |
| `Metainfo.Components` | bt/src/metainfo.rs:178-200 | Accepted components are safe: not empty, no dots alone, no separator, no NUL |
| `Dht.BucketIff` | bt/src/dht.rs:21-29 | The bucket of an id is the number of leading bits it shares with ours, and only that |
| `Dht.LowerBucketFarther` | bt/src/dht.rs:13-29 | A lower bucket is strictly farther away |
| `Dht.LexIsNumeric` | bt/src/dht.rs:75-78 | Comparing distances as byte arrays is comparing them as numbers |
| `Dht.Metric` | bt/src/dht.rs:13-19 | The distance is zero only to itself, symmetric, and one id sits at each distance |
| `Dht.BucketIndex` | bt/src/dht.rs:21-29 | The loop finds the bucket |
| `Dht.RoutingTable.Insert` | bt/src/dht.rs:52-65 | Refused exactly for our own id, an id anywhere in the table, or a full bucket; otherwise appended to its bucket; every entry stays in the bucket of its prefix, at most eight to a bucket |
| `Dht.RoutingTable.Closest` | bt/src/dht.rs:75-80 | The nearest `count` entries, nearest first, with nothing nearer left out |
| `Dht.NearestUnique` | bt/src/dht.rs:75-80 | Two such answers are equal, so the unspecified sort does not matter |
| `Dht.RoutingTable.Len` | bt/src/dht.rs:67-69 | The number of entries, at most eight in each of 160 buckets |
| `Dht.FlattenDistinct` | bt/src/dht.rs:52-65 | Ids are distinct across the whole table |
| `Magnet.Base32Decode` | bt/src/magnet.rs:58-82 | Twenty bytes come out exactly of 32 or 33 valid characters; their big-endian value is the base-32 value of the text without the surplus bits, though the accumulator drops its high bits |
| `Magnet.DecodedStep` | bt/src/magnet.rs:69-74 | One character more: the accumulator holds the value modulo 2^64 and the bytes hold its high part |
| `Magnet.ByteOfWord` | bt/src/magnet.rs:73-73 | The bits that fell off the accumulator never reach a byte that is still to come |
| `Magnet.SpellingDecodes` | bt/src/magnet.rs:58-82 | Every hash has a 32-character spelling, and 20 bytes with its value are that hash |
| `Magnet.HexRoundTrip` | bt/src/metainfo.rs:11-26 | Hexadecimal digits read back as the bytes they were printed from |
| `Magnet.Alphabets` | bt/src/magnet.rs:66-72 | The characters of a digit are its letter in either case and no others, in base 32 and in hexadecimal |
| `Magnet.CaseIgnored` | bt/src/magnet.rs:50-72 | Decoding does not depend on the case of the text |
| `Magnet.ValueIgnoresCase` | bt/src/magnet.rs:66-72 | Nor does the value of a base-32 text |
| `Magnet.DecodeBtih` | bt/src/magnet.rs:50-56 | Forty characters are read as hexadecimal, 32 as base 32, anything else is refused |
| `Magnet.BothSpellings` | bt/src/magnet.rs:50-82 | Both spellings of a hash lead to it |
| `Wire.FrameIff` | bt/src/peer.rs:88-185 | A frame parses to a message exactly when it is that message's body |
| `Wire.ReadsBackIff` | bt/src/peer.rs:218-228 | A written message is read back, whatever follows and however long it is, exactly when its body is within the frame limit, which the writer does not check; a longer one is refused, unless its length prefix was cut to 32 bits |
| `Wire.StreamRoundTrip` | bt/src/peer.rs:88-228 | Any messages within the limit, written one after the other, are read back in order, and then the stream ends |
| `Wire.ReadIsWritten` | bt/src/peer.rs:138-228 | A message that is read can be written, and what was read is its written form and the rest |
| `Wire.ReadAllIsWritten` | bt/src/peer.rs:138-228 | The messages read from any bytes, written again, are the part of the bytes that was read |
| `Wire.Reader.ReadMessage` | bt/src/peer.rs:218-228 | The reader consumes exactly one frame |
| `Wire.U32Iff` | bt/src/peer.rs:195-205 | Four bytes are the big-endian number they spell, and only that |

## Left out

- Sockets, threads and timeouts: connectors, readers and writers appear only as the events they deliver and the capacity of a channel.
- Trackers, the announce timer and its failover: an announce is the addresses it returns, or a failure; each turn of the main loop is told whether one is due.
- Saving the resume file during a run and after it, user-visible events: they change nothing the engine reads again in the same download.
- The peers of `Engine.Engine` and the pipelines, bitfields and availability counts it holds are values, not objects: `Requests.RequestPipeline`, `Picker.PiecePicker`, `Pieces.Bitfield` and `Pieces.Availability` are proved to implement those values, so aliasing between them is not modelled inside the engine; storage, our own bitfield and the rotor are objects there.
- Engine.Engine.Download: does not model files changed by others during a download, so its recheck loop never runs; `EngineTheorems.FinalCheckRepairs` covers the check itself, and `EngineLimits.RecheckIff` says exactly when the loop may go round again.
- Engine.Engine.Run: is proved from states that the restart of the ids leaves sound, `EngineLimits.RestartIff` says which; `EngineLimits.RecheckBreaksCounts` shows what may follow otherwise.
- Engine.Engine.Serve: what is uploaded is tied to the requested range of the torrent, not to the piece, because the source checks only the end of the torrent.
- 64-bit overflow of the byte counters and the count of uploaded bytes: they are unbounded.
- Storage.Storage.constructor: does not model paths, symbolic links or directories, because they are file-system calls.
- EngineTheorems.FinalCheckRepairs: does not model a file other than the last that was cut short from outside, whose pieces the source counts as bad; `Storage` keeps every file at its full length.
- Engine.Engine.Handle: passes over an answer under an id that is not being dialled, because a connector answers once, under its own id.
- Magnet.Base32Decode: writes the shift and the or on a 64-bit word as multiplication by 32 modulo 2^64 and addition, not as bit operations.
- Sorting is the library's in the source; here an insertion sort stands in, and the results are proved independent of how the order was reached (`Choke.TopIsRegular`, `Dht.NearestUnique`).
- Handshake bytes, the writer's buffer, percent-decoding and the query string of magnet links: short fixed layouts.
- Which error a refused torrent or bencoded input gives: the functions follow the source, and the theorems say only what is accepted.
- The DHT's network rounds, replies and compact address lists: input and output.
- User interface, options, tracker URLs and UDP tracker layouts.
