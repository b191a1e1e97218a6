/** Restarting keeps the second player (HiLo/HiLo/Program.cs:108-114 replaces
    only player 1). The kept player enters the next match with the mystery
    number already found and the attempt counter of the previous match, and
    cannot be replaced, because a second `AddSecondPlayer` is refused. The
    evident intent is a clean match: `RestartFresh`. */
module RestartFinding {
  import opened HiLoRules
  import opened HiLoProperties

  /** Both restarts seat a new player 1 (ordinal 1, no attempts, the new
      mystery number) and keep the session well formed; they differ only in
      player 2, which `Restart` keeps and `RestartFresh` removes. */
  lemma RestartSeatsNewFirstPlayer(t: Table, secret: int)
    requires WellFormed(t) && InRange(t, secret)
    ensures WellFormed(Restart(t, secret)) && WellFormed(RestartFresh(t, secret))
    ensures Restart(t, secret).first == RestartFresh(t, secret).first == Seat(1, secret, 0)
    ensures Restart(t, secret).second == t.second && RestartFresh(t, secret).second.None?
    ensures Restart(t, secret).min == RestartFresh(t, secret).min == t.min
    ensures Restart(t, secret).max == RestartFresh(t, secret).max == t.max
  {
  }

  /** As written: the second player survives a restart unchanged, and asking
      for another player afterwards only reports that capacity is exceeded. */
  lemma RestartKeepsSecondPlayer(t: Table, secret: int, other: int)
    requires t.second.Some?
    ensures Restart(t, secret).second == t.second
    ensures Join(Restart(t, secret), other) == (Restart(t, secret), true)
  {
  }

  /** As written, a match after a restart: player 2 made one guess in the first
      match (which player 1 won), and in the second match the win report gives
      player 2 two attempts for one guess, on the same mystery number 50. */
  lemma RestartCarriesOverAttempts()
    ensures var first := Run(Table(MIN, MAX, Seat(1, 7, 0), Some(Seat(2, 50, 0))), First,
                             [Some(1), Some(2), Some(7)]);
      && first.won && first.table.second == Some(Seat(2, 50, 1))
      && Run(Restart(first.table, 30), First, [Some(1), Some(50)]).events == [Hi, Win(2, 50, 2)]
  {
  }

  /** Corrected: after a fresh restart a second player may join again, and in
      the next match every win report counts only that match's guesses by the
      winner. */
  lemma FreshRestartCountsThisMatchOnly(t: Table, secret1: int, secret2: int, join: bool, inputs: seq<Option<int>>)
    requires t.min <= secret1 <= t.max && t.min <= secret2 <= t.max
    ensures !Join(RestartFresh(t, secret1), secret2).1
    ensures var t' := if join then Join(RestartFresh(t, secret1), secret2).0 else RestartFresh(t, secret1);
      var r := Run(t', First, inputs); var p := Parsed(inputs[..|r.events|]);
      r.won ==>
        Last(r.events).attempts ==
          if !join then p
          else if Last(r.events).ordinal == 1 then (p + 1) / 2
          else p / 2
  {
    var t' := if join then Join(RestartFresh(t, secret1), secret2).0 else RestartFresh(t, secret1);
    FreshMatchWinAttempts(t', inputs);
  }
}
