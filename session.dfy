/**
 * The game-session state machine of the score counter: setup (player count and
 * names), a timed round in which each tap scores a point, and the finished round
 * with its winners (lowest score wins) and the leaderboard.
 */
module Game {

  import opened Wrappers
  import opened Text
  import opened Scores

  /** `gameState`: 'setup', 'playing' or 'finished'. */
  datatype Phase = Setup | Playing | Finished

  /** `playerNames.some(name => name.trim() === '')`. */
  function AnyBlank(names: seq<string>): (b: bool)
    ensures b <==> exists i :: 0 <= i < |names| && IsBlank(names[i])
  {
    if names == [] then false
    else if IsBlank(names[0]) then true
    else
      var rest := AnyBlank(names[1..]);
      assert rest ==> exists i :: 1 <= i < |names| && IsBlank(names[i]) by {
        if rest {
          var j :| 0 <= j < |names[1..]| && IsBlank(names[1..][j]);
          assert names[j + 1] == names[1..][j];
        }
      }
      rest
  }

  /** The players a round starts with, `playerNames.map(name => ({ name: name.trim(),
      score: 0 }))`: one per name, in entry order, named by the trimmed text, at score 0. */
  function InitialPlayers(names: seq<string>): (r: seq<Player>)
    ensures |r| == |names|
    ensures forall i :: 0 <= i < |r| ==> r[i] == Player(Trim(names[i]), 0)
  {
    if names == [] then [] else [Player(Trim(names[0]), 0)] + InitialPlayers(names[1..])
  }

  /** `players.map(p => p.name)`: the names of the players, in their order. */
  function NamesOf(ps: seq<Player>): seq<string>
  {
    if ps == [] then [] else [ps[0].name] + NamesOf(ps[1..])
  }

  /** `names.map(name => name.trim())`: every name trimmed, in entry order. */
  function TrimAll(names: seq<string>): seq<string>
  {
    if names == [] then [] else [Trim(names[0])] + TrimAll(names[1..])
  }

  lemma {:induction false} NamesOfCorrect(ps: seq<Player>)
    ensures |NamesOf(ps)| == |ps| && forall i :: 0 <= i < |ps| ==> NamesOf(ps)[i] == ps[i].name
  {
    if ps != [] {
      NamesOfCorrect(ps[1..]);
    }
  }

  lemma {:induction false} TrimAllCorrect(names: seq<string>)
    ensures |TrimAll(names)| == |names| && forall i :: 0 <= i < |names| ==> TrimAll(names)[i] == Trim(names[i])
  {
    if names != [] {
      TrimAllCorrect(names[1..]);
    }
  }

  /** While a round is played, the players stand in entry order, each named by the
      trimmed name entered for them. */
  lemma PlayersNamedInOrder(ps: seq<Player>, names: seq<string>)
    requires NamesOf(ps) == TrimAll(names)
    ensures |ps| == |names| && forall i :: 0 <= i < |ps| ==> ps[i].name == Trim(names[i])
  {
    NamesOfCorrect(ps);
    TrimAllCorrect(names);
  }

  /** None of the names A, " B ", C and D is blank, while an empty one is. */
  lemma AnyBlankExample()
    ensures !AnyBlank(["A", " B ", "C", "D"]) && AnyBlank(["A", ""])
  {
    TrimExamples();
  }

  /** The names A, " B ", C and D start a round of A, B, C and D at score 0. */
  lemma InitialPlayersExample()
    ensures InitialPlayers(["A", " B ", "C", "D"])
      == [Player("A", 0), Player("B", 0), Player("C", 0), Player("D", 0)]
  {
    TrimExamples();
  }

  /** The state of the `App` component. */
  class Session {
    var phase: Phase
    var numPlayers: int
    var playerNames: seq<string>
    var players: seq<Player>
    var timer: nat
    var winner: Option<seq<Player>>

    /** What every handler keeps true: the count is 2 to 10 and the name list that
        long; setup has no players and no time; a started round has one player per
        name, named by non-empty trimmed text, and while it is played they stand in
        entry order, each named by the trimmed name entered for them; the winners
        are set exactly when the round is finished, and then they are the players at
        the lowest score. */
    ghost predicate Valid()
      reads this
    {
      && 2 <= numPlayers <= 10
      && |playerNames| == numPlayers
      && (phase == Setup ==> players == [] && timer == 0)
      && (phase != Setup ==> |players| == numPlayers)
      && (phase == Playing ==> NamesOf(players) == TrimAll(playerNames))
      && (forall p :: p in players ==> p.name != "" && Trim(p.name) == p.name)
      && (winner.Some? <==> phase == Finished)
      && (phase == Finished ==> winner == Some(Winners(players)))
    }

    /** The initial state: setup, two players with empty names, no score, no time. */
    constructor ()
      ensures Valid()
      ensures phase == Setup && numPlayers == 2 && playerNames == ["", ""]
      ensures players == [] && timer == 0 && winner == None
    {
      phase := Setup;
      numPlayers := 2;
      playerNames := ["", ""];
      players := [];
      timer := 0;
      winner := None;
    }

    /** `handleNumPlayersChange` followed by the effect that resizes the name list: a
        count of 2 to 10 is taken and the list padded with empty names or cut to it;
        any other count is ignored. The count input is on the setup screen only. */
    method SetPlayerCount(value: int)
      requires Valid() && phase == Setup
      modifies this
      ensures Valid()
      ensures numPlayers == if 2 <= value <= 10 then value else old(numPlayers)
      ensures |playerNames| == numPlayers
      ensures forall i :: 0 <= i < |playerNames| && i < |old(playerNames)| ==> playerNames[i] == old(playerNames)[i]
      ensures forall i :: |old(playerNames)| <= i < |playerNames| ==> playerNames[i] == ""
      ensures phase == old(phase) && players == old(players)
      ensures timer == old(timer) && winner == old(winner)
    {
      if 2 <= value <= 10 {
        numPlayers := value;
        var names := playerNames;
        while |names| < numPlayers
          invariant |playerNames| <= |names|
          invariant names[..|playerNames|] == playerNames
          invariant forall i :: |playerNames| <= i < |names| ==> names[i] == ""
        {
          names := names + [""];
        }
        playerNames := names[..numPlayers];
      }
    }

    /** `handlePlayerNameChange`: stores the raw text as the name at `index`. The name
        inputs are on the setup screen only, one per entry of the list. */
    method SetPlayerName(index: nat, value: string)
      requires Valid() && phase == Setup && index < |playerNames|
      modifies this
      ensures Valid()
      ensures playerNames == old(playerNames)[index := value]
      ensures phase == old(phase) && numPlayers == old(numPlayers) && players == old(players)
      ensures timer == old(timer) && winner == old(winner)
    {
      playerNames := playerNames[index := value];
    }

    /** `startGame`: refused, with nothing changed, while some name is blank; otherwise
        the round starts with one player per name at score 0 and the timer at 0. */
    method StartGame() returns (started: bool)
      requires Valid() && phase == Setup
      modifies this
      ensures Valid()
      ensures started <==> forall i :: 0 <= i < |playerNames| ==> !IsBlank(playerNames[i])
      ensures started == !AnyBlank(playerNames)
      ensures !started ==> phase == Setup && players == old(players) && timer == old(timer)
      ensures started ==> phase == Playing && timer == 0 && |players| == |playerNames|
      ensures started ==> forall i :: 0 <= i < |players| ==> players[i] == Player(Trim(playerNames[i]), 0)
      ensures started ==> players == InitialPlayers(playerNames)
      ensures numPlayers == old(numPlayers) && playerNames == old(playerNames) && winner == old(winner)
    {
      if AnyBlank(playerNames) {
        return false;
      }
      forall i | 0 <= i < |playerNames| ensures Trim(Trim(playerNames[i])) == Trim(playerNames[i]) {
        TrimIdempotent(playerNames[i]);
      }
      players := InitialPlayers(playerNames);
      NamesOfCorrect(players);
      TrimAllCorrect(playerNames);
      assert NamesOf(players) == TrimAll(playerNames);
      timer := 0;
      phase := Playing;
      started := true;
    }

    /** `handlePlayerButtonClick(index)`: one more point for that player, nothing else
        changes. */
    method RecordPoint(index: nat)
      requires Valid() && phase == Playing && index < |players|
      modifies this
      ensures Valid()
      ensures |players| == |old(players)|
      ensures players[index] == Player(old(players[index].name), old(players[index].score) + 1)
      ensures forall j :: 0 <= j < |players| && j != index ==> players[j] == old(players[j])
      ensures phase == old(phase) && timer == old(timer) && winner == old(winner)
      ensures numPlayers == old(numPlayers) && playerNames == old(playerNames)
    {
      var p := players[index];
      assert p in players;
      players := players[index := p.(score := p.score + 1)];
      NamesOfCorrect(players);
      NamesOfCorrect(old(players));
      assert NamesOf(players) == NamesOf(old(players));
    }

    /** One firing of the one-second interval, which runs only during a round. */
    method Tick()
      requires Valid() && phase == Playing
      modifies this
      ensures Valid()
      ensures timer == old(timer) + 1
      ensures phase == old(phase) && players == old(players) && winner == old(winner)
      ensures numPlayers == old(numPlayers) && playerNames == old(playerNames)
    {
      timer := timer + 1;
    }

    /** `endGame`: the round is over and the winners are the players at the lowest
        score, in entry order; nobody scored less than they did. */
    method EndGame()
      requires Valid() && phase == Playing
      modifies this
      ensures Valid()
      ensures phase == Finished && winner == Some(Winners(players))
      ensures |winner.value| > 0
      ensures forall i :: 0 <= i < |winner.value| ==> winner.value[i].score == MinScore(players)
      ensures players == old(players) && timer == old(timer)
      ensures numPlayers == old(numPlayers) && playerNames == old(playerNames)
    {
      var lowest := MinScore(players);
      WinnersCorrect(players);
      var w := WithScore(players, lowest);
      assert w == Winners(players);
      winner := Some(w);
      phase := Finished;
    }

    /** `resetGame`: back to setup with no players, no time and no winners, and as many
        empty names as the player count, which stays. */
    method ResetGame()
      requires Valid()
      modifies this
      ensures Valid()
      ensures phase == Setup && players == [] && timer == 0 && winner == None
      ensures numPlayers == old(numPlayers) && |playerNames| == numPlayers
      ensures forall i :: 0 <= i < |playerNames| ==> playerNames[i] == ""
    {
      phase := Setup;
      players := [];
      timer := 0;
      winner := None;
      playerNames := seq(numPlayers, _ => "");
    }

    /** The final-scores list: `players.sort((a, b) => a.score - b.score)`, which
        reorders the players themselves, here by insertion in entry order. The list
        is shown on the finished screen only. */
    method SortFinalScores() returns (board: seq<Player>)
      requires Valid() && phase == Finished
      modifies this
      ensures Valid()
      ensures players == SortByScore(old(players)) && board == players
      ensures SortedByScore(players) && multiset(players) == multiset(old(players))
      ensures phase == old(phase) && timer == old(timer) && winner == old(winner)
      ensures numPlayers == old(numPlayers) && playerNames == old(playerNames)
    {
      var ps := players;
      var sorted := SortPlayers(ps);
      SortByScoreSorted(ps);
      SortByScorePermutes(ps);
      LeaderboardKeeps(ps);
      players := sorted;
      board := sorted;
    }
  }

  /** A round driven through the handlers alone, as a client sees them: four players
      named A to D are set up, score 3, 1, 1 and 5 points, B and C win and lead the
      final scores, and a reset clears the names. This part picks the count: 11 is
      ignored, 4 is taken, and a start with the names still empty is refused. */
  method ChooseCount() returns (s: Session)
    ensures fresh(s)
    ensures s.Valid() && s.phase == Setup && s.numPlayers == 4
    ensures s.playerNames == ["", "", "", ""] && s.players == [] && s.timer == 0
  {
    s := new Session();
    s.SetPlayerCount(11);
    assert s.numPlayers == 2;
    s.SetPlayerCount(4);
    assert s.playerNames == ["", "", "", ""];
    assert IsBlank(s.playerNames[0]);
    var started := s.StartGame();
    assert !started && s.phase == Setup;
  }

  /** The names are entered, one with spaces around it. */
  method EnterNames() returns (s: Session)
    ensures fresh(s)
    ensures s.Valid() && s.phase == Setup && s.numPlayers == 4
    ensures s.playerNames == ["A", " B ", "C", "D"]
  {
    s := ChooseCount();
    s.SetPlayerName(0, "A");
    s.SetPlayerName(1, " B ");
    s.SetPlayerName(2, "C");
    s.SetPlayerName(3, "D");
  }

  /** With every name filled in, the round starts, the spaces trimmed away. */
  method SetUpRound() returns (s: Session)
    ensures fresh(s)
    ensures s.Valid() && s.phase == Playing && s.timer == 0 && s.numPlayers == 4
    ensures s.players == [Player("A", 0), Player("B", 0), Player("C", 0), Player("D", 0)]
  {
    s := EnterNames();
    AnyBlankExample();
    InitialPlayersExample();
    var started := s.StartGame();
    assert started;
  }

  /** `count` taps on the button of the player at `index`. */
  method Tap(s: Session, index: nat, count: nat)
    requires s.Valid() && s.phase == Playing && index < |s.players|
    modifies s
    ensures s.Valid() && s.phase == Playing
    ensures s.players == old(s.players)[index := Player(old(s.players[index].name), old(s.players[index].score) + count)]
    ensures s.timer == old(s.timer) && s.numPlayers == old(s.numPlayers)
  {
    var k := 0;
    while k < count
      invariant k <= count
      invariant s.Valid() && s.phase == Playing
      invariant s.players == old(s.players)[index := Player(old(s.players[index].name), old(s.players[index].score) + k)]
      invariant s.timer == old(s.timer) && s.numPlayers == old(s.numPlayers)
    {
      s.RecordPoint(index);
      k := k + 1;
    }
  }

  /** A round's taps, `taps[i]` of them on the button of the player at `i`. */
  method PlayTaps(s: Session, taps: seq<nat>)
    requires s.Valid() && s.phase == Playing && |taps| == |s.players|
    modifies s
    ensures s.Valid() && s.phase == Playing && |s.players| == |old(s.players)|
    ensures forall j :: 0 <= j < |taps| ==> s.players[j] == Player(old(s.players[j].name), old(s.players[j].score) + taps[j])
    ensures s.timer == old(s.timer) && s.numPlayers == old(s.numPlayers)
  {
    var i := 0;
    while i < |taps|
      invariant i <= |taps|
      invariant s.Valid() && s.phase == Playing && |s.players| == |taps|
      invariant forall j :: 0 <= j < i ==> s.players[j] == Player(old(s.players[j].name), old(s.players[j].score) + taps[j])
      invariant forall j :: i <= j < |taps| ==> s.players[j] == old(s.players[j])
      invariant s.timer == old(s.timer) && s.numPlayers == old(s.numPlayers)
    {
      Tap(s, i, taps[i]);
      i := i + 1;
    }
  }

  /** The round itself: a second passes, A, B, C and D tap 3, 1, 1 and 5 times, and
      another second passes. */
  method PlayRound(s: Session)
    requires s.Valid() && s.phase == Playing && s.timer == 0 && s.numPlayers == 4
    requires s.players == [Player("A", 0), Player("B", 0), Player("C", 0), Player("D", 0)]
    modifies s
    ensures s.Valid() && s.phase == Playing && s.timer == 2 && s.numPlayers == 4
    ensures s.players == [Player("A", 3), Player("B", 1), Player("C", 1), Player("D", 5)]
  {
    s.Tick();
    ghost var before := s.players;
    var taps := [3, 1, 1, 5];
    PlayTaps(s, taps);
    assert s.players[0] == Player(before[0].name, before[0].score + taps[0]) == Player("A", 3);
    assert s.players[1] == Player(before[1].name, before[1].score + taps[1]) == Player("B", 1);
    assert s.players[2] == Player(before[2].name, before[2].score + taps[2]) == Player("C", 1);
    assert s.players[3] == Player(before[3].name, before[3].score + taps[3]) == Player("D", 5);
    s.Tick();
  }

  /** The end of the round: B and C win, the final scores put them first, and a reset
      leaves four empty names. */
  method FinishRound(s: Session) returns (winners: seq<Player>, board: seq<Player>)
    requires s.Valid() && s.phase == Playing && s.numPlayers == 4
    requires s.players == [Player("A", 3), Player("B", 1), Player("C", 1), Player("D", 5)]
    modifies s
    ensures winners == [Player("B", 1), Player("C", 1)]
    ensures board == [Player("B", 1), Player("C", 1), Player("A", 3), Player("D", 5)]
    ensures s.Valid() && s.phase == Setup && s.numPlayers == 4
    ensures s.playerNames == ["", "", "", ""]
  {
    s.EndGame();
    WinnersExample();
    winners := s.winner.value;
    assert winners == [Player("B", 1), Player("C", 1)];
    board := s.SortFinalScores();
    LeaderboardExample();
    s.ResetGame();
    assert s.phase == Setup && s.players == [] && s.timer == 0 && s.winner == None;
    assert s.playerNames == ["", "", "", ""];
  }

  /** The whole round, from a fresh session back to setup. */
  method PlayWholeRound() returns (winners: seq<Player>, board: seq<Player>)
    ensures winners == [Player("B", 1), Player("C", 1)]
    ensures board == [Player("B", 1), Player("C", 1), Player("A", 3), Player("D", 5)]
  {
    var s := SetUpRound();
    PlayRound(s);
    winners, board := FinishRound(s);
  }
}
