/** What the game promises about a match, proved of the rules in HiLoRules:
    how a guess is classified, how attempts are counted, whose turn follows,
    and where the turn loop stops. */
module HiLoProperties {
  import opened HiLoRules

  /** Given a mystery number in the range, every parsed guess gets exactly one
      verdict: out of range, HI (the number is higher), LO (it is lower), or a
      win exactly when the guess is the number. */
  lemma ClassifyExactlyOne(guess: int, min: int, max: int, s: Seat)
    requires min <= s.secret <= max
    ensures var e := Classify(guess, min, max, s);
      && (e == OutOfRange <==> guess < min || guess > max)
      && (e == Hi <==> min <= guess < s.secret)
      && (e == Lo <==> s.secret < guess <= max)
      && (e.Win? <==> guess == s.secret)
      && (e.Win? ==> e == Win(s.ordinal, s.secret, s.attempts))
  {
  }

  /** Turn rule: alone, player 1 always plays next; with two players the
      turn alternates. */
  lemma NextTurnRule(t: Table, who: Who)
    requires WellFormed(t) && Seated(t, who)
    ensures t.second.None? ==> Next(t, who) == First
    ensures t.second.Some? ==> Next(t, who) == Other(who)
  {
  }

  /** One input line. An unparsable line changes no counter and keeps the
      player. A parsed guess, whatever its verdict (out of range included),
      adds exactly one attempt to the current player and none to the other,
      and unless it wins, passes the turn by the turn rule. Nothing but the
      counters ever changes. */
  lemma StepAccounting(t: Table, who: Who, input: Option<int>)
    requires WellFormed(t) && Seated(t, who)
    ensures var s := Step(t, who, input);
      && WellFormed(s.table) && SameButAttempts(t, s.table)
      && (input.None? ==> s == Turn(t, who, Invalid))
      && (input.Some? ==>
            && SeatOf(s.table, who).attempts == SeatOf(t, who).attempts + 1
            && (Seated(t, Other(who)) ==> SeatOf(s.table, Other(who)) == SeatOf(t, Other(who)))
            && s.event == Classify(input.value, t.min, t.max, SeatOf(s.table, who))
            && (!s.event.Win? ==> s.next == if t.second.Some? then Other(who) else First))
  {
  }

  /** Capacity two: adding a player when player 2 exists is refused and
      changes nothing; otherwise the new player becomes player 2 with ordinal
      2, a fresh counter and its mystery number, and player 1 is untouched. */
  lemma JoinCapacity(t: Table, secret: int)
    requires WellFormed(t) && InRange(t, secret)
    ensures var (t', exceeded) := Join(t, secret);
      && (exceeded <==> t.second.Some?)
      && (exceeded ==> t' == t)
      && (!exceeded ==> WellFormed(t') && t'.first == t.first && t'.second == Some(Seat(2, secret, 0)))
  {
  }

  /** One event per line read: `Invalid` exactly for the unparsable lines,
      and no win before the last event. */
  lemma {:induction false} RunStopsAtFirstWin(t: Table, who: Who, inputs: seq<Option<int>>)
    requires Seated(t, who)
    ensures var r := Run(t, who, inputs);
      && (forall i :: 0 <= i < |r.events| ==> (r.events[i] == Invalid <==> inputs[i].None?))
      && (forall i :: 0 <= i < |r.events| - 1 ==> !r.events[i].Win?)
    decreases |inputs|
  {
    if inputs != [] {
      var s := Step(t, who, inputs[0]);
      if !s.event.Win? {
        var rest := Run(s.table, s.next, inputs[1..]);
        RunStopsAtFirstWin(s.table, s.next, inputs[1..]);
        var r := Run(t, who, inputs);
        assert r.events == [s.event] + rest.events;
        forall i | 0 < i < |r.events|
          ensures r.events[i] == rest.events[i - 1] && inputs[i] == inputs[1..][i - 1]
        {
        }
      }
    }
  }

  /** A run changes nothing but the attempt counters. */
  lemma {:induction false} RunKeepsPlayers(t: Table, who: Who, inputs: seq<Option<int>>)
    requires WellFormed(t) && Seated(t, who)
    ensures WellFormed(Run(t, who, inputs).table)
    ensures SameButAttempts(t, Run(t, who, inputs).table)
    decreases |inputs|
  {
    if inputs != [] {
      var s := Step(t, who, inputs[0]);
      StepAccounting(t, who, inputs[0]);
      if !s.event.Win? {
        RunKeepsPlayers(s.table, s.next, inputs[1..]);
      }
    }
  }

  lemma ParsedPrefix(inputs: seq<Option<int>>, k: nat)
    requires 0 < k <= |inputs|
    ensures Parsed(inputs[..k]) == (if inputs[0].Some? then 1 else 0) + Parsed(inputs[1..][..k - 1])
  {
    assert inputs[..k][0] == inputs[0];
    assert inputs[..k][1..] == inputs[1..][..k - 1];
  }

  /** Attempt accounting over a run. With `p` the number of parsed lines the
      run read: alone, player 1 gains exactly `p` attempts; with two players
      the parsed guesses alternate strictly, so the player who starts gains
      (p + 1) / 2 of them and the other p / 2. */
  lemma {:induction false} RunAttempts(t: Table, who: Who, inputs: seq<Option<int>>)
    requires WellFormed(t) && Seated(t, who)
    ensures var r := Run(t, who, inputs); var p := Parsed(inputs[..|r.events|]);
      && SameButAttempts(t, r.table)
      && (t.second.None? ==> r.table.first.attempts == t.first.attempts + p)
      && (t.second.Some? ==>
            && SeatOf(r.table, who).attempts == SeatOf(t, who).attempts + (p + 1) / 2
            && SeatOf(r.table, Other(who)).attempts == SeatOf(t, Other(who)).attempts + p / 2)
    decreases |inputs|
  {
    RunKeepsPlayers(t, who, inputs);
    if inputs != [] {
      var r := Run(t, who, inputs);
      var s := Step(t, who, inputs[0]);
      StepAccounting(t, who, inputs[0]);
      ParsedPrefix(inputs, |r.events|);
      if s.event.Win? {
        assert r == Outcome(s.table, [s.event], true);
        assert inputs[1..][..0] == [];
      } else {
        var rest := Run(s.table, s.next, inputs[1..]);
        assert r == Then([s.event], rest);
        RunAttempts(s.table, s.next, inputs[1..]);
      }
    }
  }

  /** The win report names the winner and carries the winner's counter as it
      stands at the end of the run; its mystery number is the last line read. */
  lemma {:induction false} RunWinReport(t: Table, who: Who, inputs: seq<Option<int>>)
    requires WellFormed(t) && Seated(t, who)
    ensures var r := Run(t, who, inputs);
      r.won ==>
        && inputs[|r.events| - 1] == Some(Last(r.events).secret)
        && ((Last(r.events).ordinal == 1 && Last(r.events) == Win(1, r.table.first.secret, r.table.first.attempts))
            || (r.table.second.Some? && Last(r.events).ordinal == 2 &&
                Last(r.events) == Win(2, r.table.second.value.secret, r.table.second.value.attempts)))
    decreases |inputs|
  {
    if inputs != [] {
      var s := Step(t, who, inputs[0]);
      StepAccounting(t, who, inputs[0]);
      if !s.event.Win? {
        RunWinReport(s.table, s.next, inputs[1..]);
        var r := Run(t, who, inputs);
        var rest := Run(s.table, s.next, inputs[1..]);
        if r.won {
          assert Last(r.events) == Last(rest.events);
          assert inputs[|r.events| - 1] == inputs[1..][|rest.events| - 1];
        }
      }
    }
  }

  /** In a fresh match (both counters at 0, player 1 to play), the attempt
      count in the win report is the number of parsed guesses the winner made,
      the winning one included: all of them alone, otherwise the winner's
      share of the alternating guesses. */
  lemma FreshMatchWinAttempts(t: Table, inputs: seq<Option<int>>)
    requires WellFormed(t)
    requires t.first.attempts == 0 && (t.second.Some? ==> t.second.value.attempts == 0)
    ensures var r := Run(t, First, inputs); var p := Parsed(inputs[..|r.events|]);
      r.won ==>
        Last(r.events).attempts ==
          if t.second.None? then p
          else if Last(r.events).ordinal == 1 then (p + 1) / 2
          else p / 2
  {
    RunAttempts(t, First, inputs);
    RunWinReport(t, First, inputs);
  }

  /** How a line is answered when the mystery number in play is `secret`. */
  predicate Answers(input: Option<int>, e: Event, min: int, max: int, secret: int) {
    && (input.None? <==> e == Invalid)
    && (input.Some? ==>
          && (e == OutOfRange <==> input.value < min || input.value > max)
          && (e == Hi <==> min <= input.value < secret)
          && (e == Lo <==> secret < input.value <= max)
          && (e.Win? <==> input.value == secret))
  }

  /** A single player with mystery number `S`: every line the match reads is
      answered against `S`. */
  lemma {:induction false} SoloAnswers(t: Table, inputs: seq<Option<int>>)
    requires WellFormed(t) && t.second.None?
    ensures var r := Run(t, First, inputs);
      forall i :: 0 <= i < |r.events| ==> Answers(inputs[i], r.events[i], t.min, t.max, t.first.secret)
    decreases |inputs|
  {
    if inputs != [] {
      var s := Step(t, First, inputs[0]);
      StepAccounting(t, First, inputs[0]);
      if inputs[0].Some? {
        ClassifyExactlyOne(inputs[0].value, t.min, t.max, SeatOf(s.table, First));
      }
      var r := Run(t, First, inputs);
      if !s.event.Win? {
        SoloAnswers(s.table, inputs[1..]);
        var rest := Run(s.table, First, inputs[1..]);
        assert r == Then([s.event], rest);
        forall i | 0 < i < |r.events|
          ensures r.events[i] == rest.events[i - 1] && inputs[i] == inputs[1..][i - 1]
        {
        }
      }
    }
  }

  /** A single player with mystery number `S`: the match ends exactly at the
      first line that reads `S`, or runs out of lines if no line does. */
  lemma {:induction false} SoloEndsAtFirstHit(t: Table, inputs: seq<Option<int>>)
    requires WellFormed(t) && t.second.None?
    ensures var r := Run(t, First, inputs); var S := t.first.secret;
      && (r.won <==> Some(S) in inputs)
      && (r.won ==> inputs[|r.events| - 1] == Some(S) && Some(S) !in inputs[..|r.events| - 1])
    decreases |inputs|
  {
    if inputs != [] {
      var s := Step(t, First, inputs[0]);
      StepAccounting(t, First, inputs[0]);
      var r := Run(t, First, inputs);
      if s.event.Win? {
        assert r == Outcome(s.table, [s.event], true);
        assert inputs[..0] == [];
      } else {
        SoloEndsAtFirstHit(s.table, inputs[1..]);
        var rest := Run(s.table, First, inputs[1..]);
        assert r == Then([s.event], rest);
        assert inputs == [inputs[0]] + inputs[1..];
        if r.won {
          assert inputs[|r.events| - 1] == inputs[1..][|rest.events| - 1];
          assert inputs[..|r.events| - 1] == [inputs[0]] + inputs[1..][..|rest.events| - 1];
        }
      }
    }
  }
}
