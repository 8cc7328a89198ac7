/** Short games played against the class's contracts alone, with four
    buttons and the default medium difficulty. */
module SimonScenarios {
  import opened SimonSpec
  import SimonGame

  /** Start with draw 2, watch it, press 2: one point, and the scheduled new
      round (draw 3) plays a sequence of two. */
  method WinFirstRound() returns (score: nat, sequence: seq<int>, highScore: nat)
    ensures score == 1 && highScore == 1 && sequence == [2, 3]
  {
    var g := new SimonGame.Game(4);
    g.Start(2);
    var f := g.Tick(0);
    assert f == Some(Flash(2, 500));
    f := g.Tick(0);
    assert f == None && !g.isPlayingSequence;
    f := g.HandleButtonClick(2);
    assert g.timers == [Timer(NewRound, 800)];
    g.TimerFires(0, 3);
    score, sequence, highScore := g.score, g.sequence, g.highScore;
  }

  /** Strict mode, a wrong first press: the game is over at score 0 and the
      score list stays empty; a further press is ignored. */
  method StrictMiss() returns (active: bool, scores: seq<int>, attempt: seq<int>)
    ensures !active && scores == [] && attempt == [1]
  {
    var g := new SimonGame.Game(4);
    g.ToggleStrictMode();
    g.Start(2);
    var f := g.Tick(0);
    f := g.Tick(0);
    f := g.HandleButtonClick(1);
    f := g.HandleButtonClick(2);
    assert f == None;
    active, scores, attempt := g.gameActive, g.allScores, g.playerSequence;
  }

  /** Without strict mode a wrong press clears the attempt and schedules a
      replay of the same sequence after 1000 ms. */
  method LenientMiss() returns (sequence: seq<int>, attempt: seq<int>, pending: seq<Timer>)
    ensures sequence == [2] && attempt == [] && pending == [Timer(Replay, 1000)]
  {
    var g := new SimonGame.Game(4);
    g.Start(2);
    var f := g.Tick(0);
    f := g.Tick(0);
    f := g.HandleButtonClick(0);
    sequence, attempt, pending := g.sequence, g.playerSequence, g.timers;
  }

  /** A game won one round and restarted before its new-round callback
      fired: the old callback still fires into the new game, which then has
      a sequence of two at score 0. */
  method StaleNewRound() returns (score: nat, sequence: seq<int>)
    ensures score == 0 && sequence == [1, 3]
  {
    var g := new SimonGame.Game(4);
    g.Start(2);
    var f := g.Tick(0);
    f := g.Tick(0);
    f := g.HandleButtonClick(2);
    g.Start(1);
    assert g.timers == [Timer(NewRound, 800)];
    g.TimerFires(0, 3);
    score, sequence := g.score, g.sequence;
  }
}
