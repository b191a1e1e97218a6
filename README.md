# Hi-Lo number guessing game — a verified model

This project models the gameplay engine of the HiLo console game: the mutable
player record `PlayerInfo` and the session `HiLoGame`. The session has a fixed
range [1, 100], a mandatory player 1 and an optional player 2. Its turn loop
reads guesses, answers each with out of range, HI (the mystery number is
higher), LO (it is lower) or a win report, counts attempts, and decides whose
turn is next.

Layout:

- `hilo_game.dfy`, module `HiLo`: the two classes. They keep the source's
  fields and update them in place. `StartGame` is a loop over a finite sequence
  of already-parsed input lines (`None` for a line that is not an integer). It
  returns the events it reports and whether it stopped on a win. The random
  draw is a nondeterministic choice within the range.
- `hilo_rules.dfy`, module `HiLoRules`: the same rules written as values.
  `Seat` is a player, `Table` is a session, `Step` handles one input line and
  `Run` is the whole turn loop. `StartGame` is proved to do exactly what `Run`
  says.
- `hilo_properties.dfy`, module `HiLoProperties`: what the game promises, proved
  about `Run` and `Step`. This covers classification, attempt counting, turn
  alternation, where the loop stops and what the win report says.
- `hilo_scenarios.dfy`, module `HiLoScenarios`: concrete matches for the three
  behaviours most easily misread.
- `restart_finding.dfy`, module `RestartFinding`: the restart defect described
  under Findings.

Three behaviours of the code are easy to misread; the model follows the code:

- The loop stops at the first correct guess by either player. It does not wait
  for every player to win (HiLo/HiLo/Program.cs:153).
- An out-of-range guess counts as an attempt and then reaches the turn switch,
  so it passes the turn when there is a second player (HiLo/HiLo/Program.cs:156).
- A restart replaces player 1 only and keeps player 2 (HiLo/HiLo/Program.cs:110).

## Model

| member | source | states |
|---|---|---|
| `HiLo.PlayerInfo.constructor` | HiLo/HiLo/Program.cs:33-37 | a new player is named "Player" and has 0 attempts; the ordinal and the mystery number keep their defaults (0) |
| `HiLo.PlayerInfo.GenerateMysteryNumber` | HiLo/HiLo/Program.cs:44-45 | for min <= max the stored mystery number lies in [min, max], both ends included; nothing else changes |
| `HiLo.PlayerInfo.AddAttempt` | HiLo/HiLo/Program.cs:50-51 | the attempt counter goes up by exactly one and nothing else changes |
| `HiLo.HiLoGame.constructor` | HiLo/HiLo/Program.cs:74-80 | the range is [1, 100] for the whole life of the session; player 1 is seated with ordinal 1, its counter untouched and a mystery number in range; there is no player 2 |
| `HiLo.HiLoGame.WelcomeMessage` | HiLo/HiLo/Program.cs:85-96 | when another person plays, a new player is offered as player 2 (table effect `Join`); the capacity warning is reported exactly when a player 2 already exists, and then the existing player 2 is kept; otherwise nothing changes |
| `HiLo.HiLoGame.EndGame` | HiLo/HiLo/Program.cs:101-116 | when a restart is requested, player 1 becomes a new player with ordinal 1, 0 attempts and a new mystery number, and player 2 is kept as it is (`Restart`); otherwise nothing changes |
| `HiLo.HiLoGame.StartGame` | HiLo/HiLo/Program.cs:121-158 | the loop starts with player 1 and reports, for the given lines, exactly the events, final counters and win flag of `Run`; ordinals, mystery numbers and the range are unchanged |
| `HiLo.HiLoGame.Evaluate` | HiLo/HiLo/Program.cs:136-154 | a parsed guess adds one attempt to the current player and is classified against that player's mystery number, as `Step` says |
| `HiLo.HiLoGame.AddFirstPlayer` | HiLo/HiLo/Program.cs:164-169 | the given player becomes player 1 with ordinal 1 and a mystery number in range; its counter and player 2 are unchanged |
| `HiLo.HiLoGame.AddSecondPlayer` | HiLo/HiLo/Program.cs:175-186 | with a player 2 present it reports capacity exceeded and changes nothing; otherwise the player becomes player 2 with ordinal player 1's + 1 (= 2) and a mystery number in range |
| `HiLoRules.Bump` | HiLo/HiLo/Program.cs:136 | counting an attempt raises the current player's counter by one and leaves the other player, the range and who is seated unchanged |
| `HiLoRules.Classify` | HiLo/HiLo/Program.cs:138-154 | a guess is never reported as invalid; a win report is given only when the guess is the mystery number, and it carries the player's ordinal, mystery number and attempts |
| `HiLoRules.Next` | HiLo/HiLo/Program.cs:156 | the next player is always a seated one |
| `HiLoRules.Step` | HiLo/HiLo/Program.cs:130-156 | after one line, the player whose turn it is is a seated one |
| `HiLoRules.Run` | HiLo/HiLo/Program.cs:121-158 | the loop reads at most the lines given; it has won exactly when its last event is a win; when it has not won it has read every line |
| `HiLoRules.RunAdvance` | HiLo/HiLo/Program.cs:125-157 | one more line of a run already under way either ends it with a win or continues the run from the new state and the next player |
| `HiLoRules.Join` | HiLo/HiLo/Program.cs:175-186 | adding a player reports capacity exceeded exactly when a player 2 is already there; player 1 and the range are never touched, and afterwards a player 2 is always present |
| `HiLoRules.Restart` | HiLo/HiLo/Program.cs:108-110 | a restart as written seats a player 1 with a fresh counter, keeps the range, and keeps a well-formed session well formed when the new number is in range |
| `HiLoRules.RestartFresh` | HiLo/HiLo/Program.cs:108-114 | the corrected restart seats a player 1 with a fresh counter and no player 2, and the result is well formed when the new number is in range |
| `HiLoProperties.ClassifyExactlyOne` | HiLo/HiLo/Program.cs:138-154 | with the mystery number in range, a guess is out of range iff outside [min, max], HI iff in range and below the number, LO iff above it and in range, and a win iff equal to it |
| `HiLoProperties.NextTurnRule` | HiLo/HiLo/Program.cs:156 | alone, player 1 always plays next; with two players the turn alternates 1 → 2 → 1 |
| `HiLoProperties.StepAccounting` | HiLo/HiLo/Program.cs:130-156 | an unparsable line changes no counter and keeps the player; a parsed guess of any verdict, out of range included, adds exactly one attempt to the current player and none to the other; unless it wins it passes the turn by the turn rule; only counters change |
| `HiLoProperties.JoinCapacity` | HiLo/HiLo/Program.cs:175-186 | adding a player is refused and changes nothing iff player 2 exists; otherwise the new player becomes player 2 with ordinal 2, 0 attempts and its mystery number, and player 1 is untouched |
| `HiLoProperties.RunStopsAtFirstWin` | HiLo/HiLo/Program.cs:125-157 | one event per line read, `Invalid` exactly for the unparsable lines, and no win before the last event: the loop ends at the first win by either player |
| `HiLoProperties.RunKeepsPlayers` | HiLo/HiLo/Program.cs:121-157 | a run keeps the session well formed and changes only the attempt counters |
| `HiLoProperties.RunAttempts` | HiLo/HiLo/Program.cs:136-156 | with p parsed lines read: alone, player 1 gains exactly p attempts; with two players, the starting player gains (p + 1) / 2 and the other p / 2 (strict alternation of parsed guesses) |
| `HiLoProperties.RunWinReport` | HiLo/HiLo/Program.cs:150-153 | a win report names the winner (ordinal 1 or 2) with its mystery number and final attempt counter, and its number is the last line read |
| `HiLoProperties.FreshMatchWinAttempts` | HiLo/HiLo/Program.cs:150-152 | from fresh counters, the reported attempts equal the winner's own parsed guesses, the winning one included |
| `HiLoProperties.SoloAnswers` | HiLo/HiLo/Program.cs:130-154 | a single player's every line is answered against its number: invalid iff unparsable, out of range, HI for guesses below, LO above, win on the number |
| `HiLoProperties.SoloEndsAtFirstHit` | HiLo/HiLo/Program.cs:125-157 | a single player's match is won iff some line is the mystery number, and it ends exactly at the first such line |
| `HiLoScenarios.InvalidLineIsFree` | HiLo/HiLo/Program.cs:130-153 | one player with number 5: an unparsable line then 5 gives Invalid, then a win with 1 attempt |
| `HiLoScenarios.FirstWinEndsTheMatch` | HiLo/HiLo/Program.cs:150-153 | numbers 7 and 50: player 1 guesses 7 and the match ends; player 2's lines are never read |
| `HiLoScenarios.OutOfRangePassesTheTurn` | HiLo/HiLo/Program.cs:138-156 | numbers 7 and 50: player 1's out-of-range 0 costs an attempt and passes the turn; player 2 then wins with 1 attempt |
| `RestartFinding.RestartSeatsNewFirstPlayer` | HiLo/HiLo/Program.cs:108-110 | a restart, as written or corrected, seats a new player 1 with ordinal 1, 0 attempts and the new number, keeps the range, and keeps the session well formed; only the corrected one removes player 2 |
| `RestartFinding.RestartKeepsSecondPlayer` | HiLo/HiLo/Program.cs:108-114 | as written, a restart keeps player 2 unchanged, and adding a player afterwards only reports capacity exceeded |
| `RestartFinding.RestartCarriesOverAttempts` | HiLo/HiLo/Program.cs:108-114 | as written, player 2 guesses once in the first match; after a restart it wins the second match on the same number 50 and is reported with 2 attempts after one guess |
| `RestartFinding.FreshRestartCountsThisMatchOnly` | HiLo/HiLo/Program.cs:108-114 | corrected restart: a player 2 can join again, and every later win report counts only that match's guesses by the winner |

## Findings

| source | as written | input that shows it | evidently intended | confidence | as-written member | corrected member |
|---|---|---|---|---|---|---|
| HiLo/HiLo/Program.cs:108-114 | a restart replaces player 1 but keeps player 2 with its attempt counter and its mystery number; asking for another player then fails with the capacity warning | two players, numbers 7 and 50; player 1 guesses 1, player 2 guesses 2, player 1 guesses 7; restart; player 1 guesses 1, player 2 guesses 50: "guessed ... 50 in 2 attempts" after one guess in that match | a restart starts a clean match with fresh players, so each win report counts only that match's guesses | medium, not executed | `RestartFinding.RestartCarriesOverAttempts` | `RestartFinding.FreshRestartCountsThisMatchOnly` |

The class method `HiLo.HiLoGame.EndGame` follows the code as written (`Restart`).
The corrected behaviour is `HiLoRules.RestartFresh` (player 2 cleared, so that
`WelcomeMessage` can seat a new one). The lemma about it covers both the one-player
and the two-player case.

## Left out

- Console output and its message text: events are the abstract `Event` values. The display name in the win message is not part of `Win`; it is always "Player".
- Console input: `int.TryParse` is replaced by lines that arrive already parsed (`Option<int>`). The Y/N answers of `WelcomeMessage` and `EndGame` are boolean parameters.
- `System.Random` is replaced by a nondeterministic choice of a value in [min, max]. No distribution is modelled.
- HiLo.PlayerInfo.GenerateMysteryNumber: requires min <= max. For min > max, `Random.Next(min, max + 1)` throws, or returns min when min == max + 1. The only calls pass 1 and 100.
- HiLo.PlayerInfo.AddAttempt: does not model the 32-bit wrap-around of `Attempts++`. It would take 2^31 - 1 guesses to reach.
- The recursion of restart (`EndGame` calling `WelcomeMessage`, `StartGame` and `EndGame` again) is not modelled. `EndGame` models one restart step's state change; a driver composes the steps.
- The `while (true)` loop runs over a finite sequence of lines. When the lines run out without a win, `StartGame` returns `won == false`. Endless input is not modelled.
- HiLo.HiLoGame.AddFirstPlayer and HiLo.HiLoGame.AddSecondPlayer require that the new player is not the other seated player. The program always passes a newly created player, so aliasing of the two players is not modelled.
- The top-level statements (HiLo/HiLo/Program.cs:1-6) are driver glue.
