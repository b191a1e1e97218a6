/** Concrete matches on the session's range [1, 100], worked out from the
    rules. They pin down the three behaviours of the turn loop that a reader
    is most likely to expect otherwise. */
module HiLoScenarios {
  import opened HiLoRules

  /** A two-player session with mystery numbers 7 and 50, nobody has guessed. */
  function Pair(): Table {
    Table(MIN, MAX, Seat(1, 7, 0), Some(Seat(2, 50, 0)))
  }

  /** An unparsable line costs nothing: player 1, alone with mystery number
      5, wins on the next line with one attempt. */
  lemma InvalidLineIsFree()
    ensures Run(Table(MIN, MAX, Seat(1, 5, 0), None), First, [None, Some(5)])
         == Outcome(Table(MIN, MAX, Seat(1, 5, 1), None), [Invalid, Win(1, 5, 1)], true)
  {
  }

  /** The loop ends at the first win by either player: player 1 finds 7 at
      once, and player 2's lines are never read. */
  lemma FirstWinEndsTheMatch()
    ensures Run(Pair(), First, [Some(7), Some(40), Some(50)])
         == Outcome(Pair().(first := Seat(1, 7, 1)), [Win(1, 7, 1)], true)
  {
  }

  /** An out-of-range guess counts as an attempt and passes the turn: after
      player 1 guesses 0, player 2 plays and wins with one attempt. */
  lemma OutOfRangePassesTheTurn()
    ensures Run(Pair(), First, [Some(0), Some(50)])
         == Outcome(Table(MIN, MAX, Seat(1, 7, 1), Some(Seat(2, 50, 1))), [OutOfRange, Win(2, 50, 1)], true)
  {
  }
}
