/** The two classes of the game: `PlayerInfo`, a mutable player record, and
    `HiLoGame`, the session that owns one or two players and runs the turn
    loop. Console input arrives already parsed (`None` for a line that is not
    an integer), console output is a sequence of `Event`s, and the random draw
    is a nondeterministic choice within the range. */
module HiLo {
  import opened HiLoRules

  class PlayerInfo {
    /** Position in the game: 1 or 2 once the session has seated the player. */
    var numberInGame: int
    /** Set once, by the constructor. */
    const name: string
    /** The number this player has to discover. */
    var mysteryNumber: int
    /** Guesses this player has made in the match. */
    var attempts: nat

    constructor ()
      ensures name == "Player" && attempts == 0
      ensures numberInGame == 0 && mysteryNumber == 0
    {
      name := "Player";
      attempts := 0;
      numberInGame := 0;
      mysteryNumber := 0;
    }

    /** Draws the mystery number from `min` to `max`, both included. */
    method GenerateMysteryNumber(min: int, max: int)
      requires min <= max
      modifies this`mysteryNumber
      ensures min <= mysteryNumber <= max
    {
      var drawn :| min <= drawn <= max;
      mysteryNumber := drawn;
    }

    /** Counts one more attempt. */
    method AddAttempt()
      modifies this`attempts
      ensures attempts == old(attempts) + 1
    {
      attempts := attempts + 1;
    }
  }

  class HiLoGame {
    const min: int
    const max: int
    var player1: PlayerInfo
    var player2: PlayerInfo?

    /** The session's state as the rules see it. */
    function Snapshot(): Table
      reads this, player1, player2
    {
      Table(min, max, SeatFor(player1),
            if player2 == null then None else Some(SeatFor(player2)))
    }

    static function SeatFor(p: PlayerInfo): Seat
      reads p
    {
      Seat(p.numberInGame, p.mysteryNumber, p.attempts)
    }

    /** The range is [1, 100], the two players are distinct objects, and the
        ordinals and mystery numbers are as `WellFormed` demands. */
    ghost predicate Valid()
      reads this, player1, player2
    {
      && min == MIN && max == MAX
      && player1 != player2
      && WellFormed(Snapshot())
    }

    constructor (player1: PlayerInfo)
      modifies player1
      ensures Valid()
      ensures this.player1 == player1 && player2 == null
      ensures Snapshot() == Table(MIN, MAX, Seat(1, player1.mysteryNumber, old(player1.attempts)), None)
    {
      min := MIN;
      max := MAX;
      this.player1 := player1;
      player2 := null;
      new;
      AddFirstPlayer(player1);
    }

    /** When another person plays, a new second player is added; `exceeded`
        reports the capacity warning. */
    method WelcomeMessage(anotherPersonPlays: bool) returns (exceeded: bool)
      requires Valid()
      modifies this`player2
      ensures Valid() && player1 == old(player1)
      ensures !anotherPersonPlays ==> !exceeded && player2 == old(player2)
      ensures anotherPersonPlays ==>
        (exceeded <==> old(player2) != null) &&
        (exceeded ==> player2 == old(player2)) &&
        (!exceeded ==> fresh(player2)) &&
        (player2 != null && Snapshot() == Join(old(Snapshot()), player2.mysteryNumber).0) &&
        exceeded == Join(old(Snapshot()), player2.mysteryNumber).1
    {
      exceeded := false;
      if anotherPersonPlays {
        var p := new PlayerInfo();
        exceeded := AddSecondPlayer(p);
      }
    }

    /** The restart step: when the players want another match, player 1 is
        replaced by a new player. Player 2 stays as it is. */
    method EndGame(shouldWeStartItAgain: bool)
      requires Valid()
      modifies this`player1
      ensures Valid() && player2 == old(player2)
      ensures !shouldWeStartItAgain ==> player1 == old(player1)
      ensures shouldWeStartItAgain ==>
        fresh(player1) && player1.name == "Player" &&
        Snapshot() == Restart(old(Snapshot()), player1.mysteryNumber)
    {
      if shouldWeStartItAgain {
        var p := new PlayerInfo();
        AddFirstPlayer(p);
      }
    }

    /** The turn loop, fed with the input lines one by one. It stops at the
        first winning guess (`won`) or when the lines run out, and does what
        `Run` says, starting with player 1. */
    method StartGame(inputs: seq<Option<int>>) returns (events: seq<Event>, won: bool)
      requires Valid()
      modifies player1, player2
      ensures Valid() && player1 == old(player1) && player2 == old(player2)
      ensures var r := Run(old(Snapshot()), First, inputs);
        Snapshot() == r.table && events == r.events && won == r.won
    {
      ghost var goal := Run(Snapshot(), First, inputs);
      ghost var table := Snapshot();
      ghost var who := First;
      var currentPlayer := player1;
      events, won := [], false;
      var i := 0;
      while i < |inputs|
        invariant 0 <= i <= |inputs|
        invariant Valid() && table == Snapshot()
        invariant player1 == old(player1) && player2 == old(player2)
        invariant Seated(table, who)
        invariant who == First ==> currentPlayer == player1
        invariant who == Second ==> player2 != null && currentPlayer == player2
        invariant goal == Then(events, Run(table, who, inputs[i..]))
      {
        var input := inputs[i];
        ghost var step := Step(table, who, input);
        RunAdvance(goal, events, table, who, inputs, i);
        i := i + 1;
        if input.None? {
          assert step == Turn(table, who, Invalid);
          events := events + [Invalid];
          continue;
        }
        var event := Evaluate(currentPlayer, input.value, who);
        table := step.table;
        assert currentPlayer.numberInGame == SeatOf(table, who).ordinal;
        events := events + [event];
        if event.Win? {
          won := true;
          break;
        }
        currentPlayer := if currentPlayer.numberInGame == player1.numberInGame && player2 != null then player2 else player1;
        who := step.next;
      }
    }

    /** The body of the turn loop for a parsed guess by `currentPlayer`
        (player `who`): count the attempt, then classify the guess. */
    method Evaluate(currentPlayer: PlayerInfo, guess: int, ghost who: Who) returns (event: Event)
      requires Valid() && Seated(Snapshot(), who)
      requires currentPlayer == if who == First then player1 else player2
      modifies currentPlayer`attempts
      ensures Valid()
      ensures var step := Step(old(Snapshot()), who, Some(guess));
        Snapshot() == step.table && event == step.event
    {
      ghost var table := Snapshot();
      ghost var seat := SeatFor(currentPlayer);
      currentPlayer.AddAttempt();
      assert SeatFor(currentPlayer) == seat.(attempts := seat.attempts + 1);
      if who == First {
        assert Snapshot() == table.(first := seat.(attempts := seat.attempts + 1));
      } else {
        assert Snapshot() == table.(second := Some(seat.(attempts := seat.attempts + 1)));
      }
      event := Classify(guess, min, max, SeatFor(currentPlayer));
    }

    /** Seats `player` as player 1: ordinal 1 and a mystery number drawn from
        the session's range. Any previous player 1 is dropped. */
    method AddFirstPlayer(player: PlayerInfo)
      requires min == MIN && max == MAX
      requires player != player2
      requires player2 != null ==> player2.numberInGame == 2 && min <= player2.mysteryNumber <= max
      modifies this`player1, player`numberInGame, player`mysteryNumber
      ensures Valid()
      ensures player1 == player && player2 == old(player2)
      ensures player.numberInGame == 1 && min <= player.mysteryNumber <= max
      ensures player.attempts == old(player.attempts)
    {
      player1 := player;
      player1.numberInGame := 1;
      player1.GenerateMysteryNumber(min, max);
    }

    /** Seats `player` as player 2 (ordinal after player 1's, a mystery number
        from the range) unless a second player is already there, in which case
        it reports `exceeded` and changes nothing. */
    method AddSecondPlayer(player: PlayerInfo) returns (exceeded: bool)
      requires Valid()
      requires player != player1
      modifies this`player2, player`numberInGame, player`mysteryNumber
      ensures Valid() && player1 == old(player1)
      ensures exceeded <==> old(player2) != null
      ensures exceeded ==> player2 == old(player2) && unchanged(player)
      ensures !exceeded ==>
        player2 == player && player.numberInGame == 2 && min <= player.mysteryNumber <= max &&
        Snapshot() == old(Snapshot()).(second := Some(Seat(2, player.mysteryNumber, player.attempts)))
      ensures player.attempts == old(player.attempts)
    {
      if player2 != null {
        exceeded := true;
        return;
      }
      exceeded := false;
      player2 := player;
      player2.numberInGame := player1.numberInGame + 1;
      player2.GenerateMysteryNumber(min, max);
    }
  }
}
