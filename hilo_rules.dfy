/** The rules of one Hi-Lo match, as values.

    The session's players are `Seat`s and the session itself is a `Table`; the
    turn loop of `HiLoGame.StartGame` is the function `Run`, one input line at a
    time (`Step`). The classes in module HiLo are proved against these
    functions, and module HiLoProperties proves what the game promises about
    them. */
module HiLoRules {

  datatype Option<T> = None | Some(value: T)

  /** The fixed guessing range a session is created with. */
  const MIN: int := 1
  const MAX: int := 100

  /** What the turn loop reads of a `PlayerInfo`: its ordinal, its mystery
      number and its attempt counter (the display name plays no part). */
  datatype Seat = Seat(ordinal: int, secret: int, attempts: nat)

  /** A session: the range, the mandatory first player, the optional second. */
  datatype Table = Table(min: int, max: int, first: Seat, second: Option<Seat>)

  /** Whose turn it is. */
  datatype Who = First | Second

  /** What the loop reports for one input line. `Win` carries what the win
      message prints besides the name: ordinal, mystery number, attempts. */
  datatype Event = Invalid | OutOfRange | Hi | Lo | Win(ordinal: int, secret: int, attempts: nat)

  /** One line's effect: the players afterwards, whose turn is next, and the
      event reported. */
  datatype Turn = Turn(table: Table, next: Who, event: Event)

  /** Where a run of the turn loop stops: the players afterwards, the events
      it reported, and whether it stopped on a win (else the input ran out). */
  datatype Outcome = Outcome(table: Table, events: seq<Event>, won: bool)

  predicate InRange(t: Table, v: int) {
    t.min <= v <= t.max
  }

  /** What a session keeps true: a non-empty range, player 1 has ordinal 1,
      player 2 (when present) ordinal 2, and every mystery number lies in the
      range. */
  predicate WellFormed(t: Table) {
    && t.min <= t.max
    && t.first.ordinal == 1
    && InRange(t, t.first.secret)
    && (t.second.Some? ==> t.second.value.ordinal == 2 && InRange(t, t.second.value.secret))
  }

  /** `t'` is `t` with at most the attempt counters changed. */
  predicate SameButAttempts(t: Table, t': Table) {
    && t'.min == t.min && t'.max == t.max
    && t'.first.ordinal == t.first.ordinal && t'.first.secret == t.first.secret
    && t'.second.Some? == t.second.Some?
    && (t.second.Some? ==>
          t'.second.value.ordinal == t.second.value.ordinal &&
          t'.second.value.secret == t.second.value.secret)
  }

  /** `who` names a player that is actually in the session. */
  predicate Seated(t: Table, who: Who) {
    who == First || t.second.Some?
  }

  function SeatOf(t: Table, who: Who): Seat
    requires Seated(t, who)
  {
    if who == First then t.first else t.second.value
  }

  /** The other player, whether or not one is seated. */
  function Other(who: Who): Who {
    if who == First then Second else First
  }

  /** `AddAttempt` on the current player: one more attempt for `who`. */
  function Bump(t: Table, who: Who): (t': Table)
    requires Seated(t, who)
    ensures Seated(t', who)
    ensures SeatOf(t', who) == SeatOf(t, who).(attempts := SeatOf(t, who).attempts + 1)
    ensures t'.min == t.min && t'.max == t.max && t'.second.Some? == t.second.Some?
    ensures Seated(t, Other(who)) ==> SeatOf(t', Other(who)) == SeatOf(t, Other(who))
  {
    if who == First then t.(first := t.first.(attempts := t.first.attempts + 1))
    else t.(second := Some(t.second.value.(attempts := t.second.value.attempts + 1)))
  }

  /** The verdict on a parsed guess of player `s` (whose counter already
      includes this guess): out of range first, then HI (the mystery number
      is higher), LO (it is lower), or the win report. */
  function Classify(guess: int, min: int, max: int, s: Seat): (e: Event)
    ensures e != Invalid
    ensures e.Win? ==> guess == s.secret && e == Win(s.ordinal, s.secret, s.attempts)
  {
    if guess < min || guess > max then OutOfRange
    else if guess < s.secret then Hi
    else if guess > s.secret then Lo
    else Win(s.ordinal, s.secret, s.attempts)
  }

  /** Whose turn follows a non-winning guess: the second player when the
      current one has player 1's ordinal and a second player exists, else
      player 1. */
  function Next(t: Table, who: Who): (w: Who)
    requires Seated(t, who)
    ensures Seated(t, w)
  {
    if SeatOf(t, who).ordinal == t.first.ordinal && t.second.Some? then Second else First
  }

  /** One input line of the turn loop. An unparsable line reports `Invalid`
      and changes nothing; a parsed guess counts an attempt for the current
      player, is classified against that player's mystery number, and unless
      it wins passes the turn by `Next`. */
  function Step(t: Table, who: Who, input: Option<int>): (r: Turn)
    requires Seated(t, who)
    ensures Seated(r.table, r.next)
  {
    match input
    case None => Turn(t, who, Invalid)
    case Some(guess) =>
      var t' := Bump(t, who);
      var e := Classify(guess, t.min, t.max, SeatOf(t', who));
      Turn(t', if e.Win? then who else Next(t', who), e)
  }

  /** `evs` reported before the run `o`. */
  function Then(evs: seq<Event>, o: Outcome): Outcome {
    Outcome(o.table, evs + o.events, o.won)
  }

  function Last(evs: seq<Event>): Event
    requires evs != []
  {
    evs[|evs| - 1]
  }

  /** The turn loop on a finite sequence of input lines: it stops at the first
      winning guess of either player, or when the lines run out. One event is
      reported per line read. */
  function Run(t: Table, who: Who, inputs: seq<Option<int>>): (r: Outcome)
    requires Seated(t, who)
    ensures |r.events| <= |inputs|
    ensures r.won <==> r.events != [] && Last(r.events).Win?
    ensures !r.won ==> |r.events| == |inputs|
    decreases |inputs|
  {
    if inputs == [] then Outcome(t, [], false)
    else
      var s := Step(t, who, inputs[0]);
      if s.event.Win? then Outcome(s.table, [s.event], true)
      else
        var rest := Run(s.table, s.next, inputs[1..]);
        Outcome(rest.table, [s.event] + rest.events, rest.won)
  }

  /** One more line of a run already under way: `events` reported so far,
      the rest of the run from `t` on the lines from `i`. */
  lemma RunAdvance(goal: Outcome, events: seq<Event>, t: Table, who: Who, inputs: seq<Option<int>>, i: nat)
    requires Seated(t, who) && i < |inputs|
    requires goal == Then(events, Run(t, who, inputs[i..]))
    ensures var s := Step(t, who, inputs[i]);
      if s.event.Win? then goal == Outcome(s.table, events + [s.event], true)
      else goal == Then(events + [s.event], Run(s.table, s.next, inputs[i + 1..]))
  {
    var rest := inputs[i..];
    assert rest[0] == inputs[i] && rest[1..] == inputs[i + 1..];
    var s := Step(t, who, inputs[i]);
    if !s.event.Win? {
      var r := Run(s.table, s.next, inputs[i + 1..]);
      assert Run(t, who, rest) == Then([s.event], r);
      ThenThen(events, [s.event], r);
    }
  }

  lemma ThenThen(a: seq<Event>, b: seq<Event>, o: Outcome)
    ensures Then(a, Then(b, o)) == Then(a + b, o)
  {
  }

  /** The number of input lines that parsed as integers. */
  function Parsed(inputs: seq<Option<int>>): nat {
    if inputs == [] then 0
    else (if inputs[0].Some? then 1 else 0) + Parsed(inputs[1..])
  }

  /** `AddSecondPlayer` with a new player whose mystery number is `secret`:
      refused (capacity exceeded, nothing changes) when a second player is
      already there; otherwise the player joins with the ordinal after
      player 1's. */
  function Join(t: Table, secret: int): (r: (Table, bool))
    ensures r.1 <==> t.second.Some?
    ensures r.0.min == t.min && r.0.max == t.max && r.0.first == t.first
    ensures r.0.second.Some?
  {
    if t.second.Some? then (t, true)
    else (t.(second := Some(Seat(t.first.ordinal + 1, secret, 0))), false)
  }

  /** The state effect of a restart as the session performs it: a new player 1
      (ordinal 1, fresh counter, new mystery number); player 2 is kept. */
  function Restart(t: Table, secret: int): (r: Table)
    ensures WellFormed(t) && InRange(t, secret) ==> WellFormed(r)
    ensures r.first.attempts == 0 && r.min == t.min && r.max == t.max
  {
    t.(first := Seat(1, secret, 0))
  }

  /** A restart that starts a clean match: new player 1 and no player 2, so
      that a second player must join afresh. */
  function RestartFresh(t: Table, secret: int): (r: Table)
    ensures t.min <= t.max && InRange(t, secret) ==> WellFormed(r)
    ensures r.first.attempts == 0 && r.second.None?
  {
    Table(t.min, t.max, Seat(1, secret, 0), None)
  }
}
