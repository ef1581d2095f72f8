/** The main loop's schedule: which events a turn plays, and how the loop ends. */
module EngineLoop {
  import opened Common
  import opened Messages
  import opened EngineModel

  /** What the reader and connector threads send to the engine. */
  datatype Input =
    | Connected(id: nat, capacity: nat)
    | ConnectFailed(id: nat)
    | Msg(id: nat, message: Message)
    | Died(id: nat)

  /** One turn of the main loop, as the environment plays it. */
  datatype Turn = Turn(
    announceDue: bool,
    reply: Option<seq<Addr>>,
    input: Option<Input>,
    now: nat,
    fault: Option<nat>)

  datatype Ending = Finished | NoPeers | AnnounceFailed | IoError | Interrupted

  /** Nobody connected, nobody being dialled, nobody left to dial. */
  predicate Alone(s: State) {
    s.peers == map[] && s.connecting == 0 && s.queue == []
  }

  /** The event of a thread's message; an answer that nobody waits for is none, played as learning nothing. */
  function EventOf(s: State, input: Input, now: nat, fault: Option<nat>): Event {
    match input
    case Connected(id, capacity) => if id in s.dialing then Answered(id, capacity, now) else Learned([])
    case ConnectFailed(id) => if id in s.dialing then Refused(id) else Learned([])
    case Msg(id, message) => Received(id, message, now, fault)
    case Died(id) => Event.Died(id)
  }

  predicate Asks(s: State, turn: Turn) {
    turn.announceDue || Alone(s)
  }

  /** The addresses an announce brings, when the turn makes one and it succeeds. */
  function Announced(s: State, turn: Turn): seq<Event> {
    if Asks(s, turn) && turn.reply.Some? then [Learned(turn.reply.value)] else []
  }

  /** The count of fruitless announces: one more when the loop is still alone, none after a fruitful one. */
  function RoundsAfter(s: State, t: State, rounds: nat, turn: Turn): nat {
    if !Asks(s, turn) then rounds
    else if Alone(t) then rounds + 1
    else if turn.reply.Some? then 0
    else rounds
  }

  function HeardIn(s: State, turn: Turn): seq<Event> {
    if turn.input.Some? then [EventOf(s, turn.input.value, turn.now, turn.fault)] else []
  }

  /** The message of the turn, if there is one, and then one pass of housekeeping; a write error comes before the pass. */
  ghost predicate Listened(m: Meta, s: State, turn: Turn, trace: seq<Event>, failed: bool) {
    var heard := HeardIn(s, turn);
    var o := Run(m, s, heard);
    if o.Failed? then failed && trace == heard
    else
      && !failed && |trace| == |heard| + 1 && trace[..|heard|] == heard
      && var kept := trace[|heard|];
         kept.Kept? && kept.at == turn.now && PassesOk(m, o.state, kept.order, kept.again, kept.at)
  }

  /** One turn: announce if that is due or nobody is there; if somebody is, dial, hear and keep house. */
  ghost predicate PlaysTurn(m: Meta, s: State, rounds: nat, turn: Turn, trace: seq<Event>, ending: Option<Ending>, after: nat) {
    var announced := Announced(s, turn);
    var t := Run(m, s, announced).state;
    && after == RoundsAfter(s, t, rounds, turn)
    && if Asks(s, turn) && Alone(t) then
         && trace == announced
         && ending == if after < MAX_EMPTY_ROUNDS then None else Some(if turn.reply.Some? then NoPeers else AnnounceFailed)
       else
         && announced + [Dialled] <= trace
         && ending in {None, Some(IoError)}
         && Listened(m, Dial(m, t), turn, trace[|announced| + 1..], ending == Some(IoError))
  }

  function LastOf(turns: seq<Turn>): Turn
    requires turns != []
  {
    turns[|turns| - 1]
  }

  /** All of `turns` were played, the download incomplete before each. */
  ghost predicate Played(m: Meta, s: State, rounds: nat, turns: seq<Turn>, trace: seq<Event>, after: nat)
    decreases |turns|
  {
    if turns == [] then trace == [] && after == rounds
    else
      exists k: nat, r: nat ::
        && k <= |trace| && Played(m, s, rounds, turns[..|turns| - 1], trace[..k], r)
        && PlayedInto(m, s, r, LastOf(turns), trace, k, None, after)
  }

  /** After the first `k` events the download was incomplete, and the turn played the rest. */
  ghost predicate PlayedInto(m: Meta, s: State, rounds: nat, turn: Turn, trace: seq<Event>, k: nat, ending: Option<Ending>, after: nat)
    requires k <= |trace|
  {
    var o := Run(m, s, trace[..k]);
    o.Going? && !Complete(m, o.state) && PlaysTurn(m, o.state, rounds, turn, trace[k..], ending, after)
  }

  /** The loop ended as it says: with every piece, out of turns, or in the turn after those played. */
  ghost predicate PlaysLoop(m: Meta, s: State, rounds: nat, turns: seq<Turn>, trace: seq<Event>, ending: Ending, after: nat) {
    exists n: nat, k: nat, r: nat ::
      && n <= |turns| && k <= |trace| && Played(m, s, rounds, turns[..n], trace[..k], r)
      && Ends(m, s, turns, n, trace, k, r, ending, after)
  }

  ghost predicate Ends(m: Meta, s: State, turns: seq<Turn>, n: nat, trace: seq<Event>, k: nat, rounds: nat, ending: Ending, after: nat)
    requires n <= |turns| && k <= |trace|
  {
    match ending
    case Finished => k == |trace| && after == rounds && Run(m, s, trace).Going? && Complete(m, Run(m, s, trace).state)
    case Interrupted =>
      n == |turns| && k == |trace| && after == rounds && Run(m, s, trace).Going? && !Complete(m, Run(m, s, trace).state)
    case _ => n < |turns| && PlayedInto(m, s, rounds, turns[n], trace, k, Some(ending), after)
  }

  /** A message heard, or none, and then a pass. */
  lemma ListenedAndKept(m: Meta, s: State, turn: Turn, u: State, order: seq<nat>, again: seq<nat>)
    requires Run(m, s, HeardIn(s, turn)) == Going(u) && PassesOk(m, u, order, again, turn.now)
    ensures var trace := HeardIn(s, turn) + [Kept(order, again, turn.now)];
      Listened(m, s, turn, trace, false) && Run(m, s, trace) == Going(Housekeeping(m, u, order, again, turn.now))
  {
    var heard := HeardIn(s, turn);
    assert (heard + [Kept(order, again, turn.now)])[..|heard|] == heard;
  }

  lemma StarvedTurn(m: Meta, s: State, rounds: nat, turn: Turn)
    requires Asks(s, turn) && Alone(Run(m, s, Announced(s, turn)).state)
    ensures var given := if turn.reply.Some? then NoPeers else AnnounceFailed;
      PlaysTurn(m, s, rounds, turn, Announced(s, turn), if rounds + 1 < MAX_EMPTY_ROUNDS then None else Some(given), rounds + 1)
  {}

  lemma BusyTurn(m: Meta, s: State, t: State, rounds: nat, turn: Turn, steps: seq<Event>, failed: bool)
    requires Run(m, s, Announced(s, turn)) == Going(t) && !(Asks(s, turn) && Alone(t))
    requires [Dialled] <= steps && Listened(m, Dial(m, t), turn, steps[1..], failed)
    ensures PlaysTurn(m, s, rounds, turn, Announced(s, turn) + steps, if failed then Some(IoError) else None, RoundsAfter(s, t, rounds, turn))
  {
    SecondPart(Announced(s, turn), steps, Dialled);
  }

  lemma SecondPart<T>(a: seq<T>, b: seq<T>, first: T)
    requires [first] <= b
    ensures a + [first] <= a + b && (a + b)[|a| + 1..] == b[1..]
  {
    assert a + b == a + [first] + b[1..];
  }

  lemma PlayedMore(m: Meta, s: State, rounds: nat, turns: seq<Turn>, i: nat, trace: seq<Event>, r: nat, more: seq<Event>, after: nat)
    requires i < |turns| && Played(m, s, rounds, turns[..i], trace, r)
    requires Run(m, s, trace).Going? && !Complete(m, Run(m, s, trace).state)
    requires PlaysTurn(m, Run(m, s, trace).state, r, turns[i], more, None, after)
    ensures Played(m, s, rounds, turns[..i + 1], trace + more, after)
  {
    var all, k := trace + more, |trace|;
    assert turns[..i + 1][..i] == turns[..i] && all[..k] == trace && all[k..] == more;
    assert PlayedInto(m, s, r, LastOf(turns[..i + 1]), all, k, None, after);
  }

  lemma LoopStops(m: Meta, s: State, rounds: nat, turns: seq<Turn>, i: nat, trace: seq<Event>, r: nat, more: seq<Event>, ending: Ending, after: nat)
    requires i < |turns| && Played(m, s, rounds, turns[..i], trace, r) && !ending.Finished? && !ending.Interrupted?
    requires Run(m, s, trace).Going? && !Complete(m, Run(m, s, trace).state)
    requires PlaysTurn(m, Run(m, s, trace).state, r, turns[i], more, Some(ending), after)
    ensures PlaysLoop(m, s, rounds, turns, trace + more, ending, after)
  {
    var all, k := trace + more, |trace|;
    assert all[..k] == trace && all[k..] == more;
    assert PlayedInto(m, s, r, turns[i], all, k, Some(ending), after);
    assert Played(m, s, rounds, turns[..i], all[..k], r) && Ends(m, s, turns, i, all, k, r, ending, after);
  }

  /** A turn after those played: the loop goes on or stops in it. */
  lemma TurnPlayed(m: Meta, s: State, rounds: nat, turns: seq<Turn>, i: nat, trace: seq<Event>, r: nat, more: seq<Event>,
                   ending: Option<Ending>, after: nat)
    requires i < |turns| && Played(m, s, rounds, turns[..i], trace, r)
    requires Run(m, s, trace).Going? && !Complete(m, Run(m, s, trace).state)
    requires PlaysTurn(m, Run(m, s, trace).state, r, turns[i], more, ending, after)
    ensures if ending.None? then Played(m, s, rounds, turns[..i + 1], trace + more, after)
            else PlaysLoop(m, s, rounds, turns, trace + more, ending.value, after)
  {
    if ending.None? {
      PlayedMore(m, s, rounds, turns, i, trace, r, more, after);
    } else {
      LoopStops(m, s, rounds, turns, i, trace, r, more, ending.value, after);
    }
  }

  lemma LoopEnds(m: Meta, s: State, rounds: nat, turns: seq<Turn>, i: nat, trace: seq<Event>, after: nat)
    requires i <= |turns| && Played(m, s, rounds, turns[..i], trace, after) && Run(m, s, trace).Going?
    ensures Complete(m, Run(m, s, trace).state) ==> PlaysLoop(m, s, rounds, turns, trace, Finished, after)
    ensures i == |turns| && !Complete(m, Run(m, s, trace).state) ==> PlaysLoop(m, s, rounds, turns, trace, Interrupted, after)
  {
    assert trace[..|trace|] == trace;
    if Complete(m, Run(m, s, trace).state) {
      assert Ends(m, s, turns, i, trace, |trace|, after, Finished, after);
    } else if i == |turns| {
      assert Ends(m, s, turns, i, trace, |trace|, after, Interrupted, after);
    }
  }
}
