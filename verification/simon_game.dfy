/** The game engine as the page runs it: shared mutable state that the
    handlers update in place. Each method is proved to do exactly what the
    matching function of SimonSpec says, and the public handlers to keep
    the invariant of SimonProps. */
module SimonGame {
  import Scores
  import opened SimonSpec
  import SimonProps

  class Game {
    const buttonCount: nat
    var sequence: seq<int>
    var playerSequence: seq<int>
    var score: nat
    var highScore: nat
    var allScores: seq<int>
    var strictMode: bool
    var gameActive: bool
    var isPlayingSequence: bool
    var difficulty: Difficulty
    var practice: bool              // the practice button is disabled
    var timers: seq<Timer>          // pending one-shot callbacks
    var playbacks: seq<Playback>    // running playback intervals

    /** The state as a value. */
    ghost function Model(): State
      reads this
    {
      State(buttonCount, sequence, playerSequence, score, highScore, allScores,
            strictMode, gameActive, isPlayingSequence, difficulty, practice, timers, playbacks)
    }

    ghost predicate Valid()
      reads this
    {
      SimonProps.Inv(Model())
    }

    /** The page has loaded; `buttonCount` buttons exist. */
    constructor (buttonCount: nat)
      requires buttonCount > 0
      ensures Valid() && Model() == Initial(buttonCount)
    {
      this.buttonCount := buttonCount;
      sequence, playerSequence := [], [];
      score, highScore, allScores := 0, 0, [];
      strictMode, gameActive, isPlayingSequence := false, false, false;
      difficulty, practice := Medium, false;
      timers, playbacks := [], [];
      new;
      SimonProps.InitialInv(buttonCount);
    }

    method UpdateScore()
      modifies this
      ensures Model() == SimonSpec.UpdateScore(old(Model()))
    {
      if score > highScore {
        highScore := score;
      }
    }

    method PlaySequence()
      modifies this
      ensures Model() == SimonSpec.PlaySequence(old(Model()))
    {
      isPlayingSequence := true;
      var speed := SpeedSettings(difficulty).sequenceSpeed;
      playbacks := playbacks + [Playback(0, speed)];
    }

    method StartNewRound(k: int)
      requires 0 <= k < buttonCount
      modifies this
      ensures Model() == SimonSpec.StartNewRound(old(Model()), k)
    {
      playerSequence := [];
      sequence := sequence + [k];
      PlaySequence();
    }

    method InitGame()
      modifies this
      ensures Model() == SimonSpec.InitGame(old(Model()))
    {
      sequence := [];
      playerSequence := [];
      score := 0;
      UpdateScore();
      gameActive := true;
    }

    method ResetPracticeMode()
      modifies this
      ensures Model() == old(Model()).(practice := false)
    {
      practice := false;
    }

    /** The start and play-again buttons. */
    method Start(k: int)
      requires Valid() && 0 <= k < buttonCount
      modifies this
      ensures Valid() && Model() == SimonSpec.Start(old(Model()), k)
    {
      ghost var s := Model();
      ResetPracticeMode();
      InitGame();
      StartNewRound(k);
      SimonProps.NextInv(s, SimonProps.StartPressed(k));
    }

    /** The practice button, which cannot be clicked while it is disabled. */
    method StartPracticeMode(k: int)
      requires Valid() && 0 <= k < buttonCount && !practice
      modifies this
      ensures Valid() && Model() == SimonSpec.StartPractice(old(Model()), k)
    {
      ghost var s := Model();
      practice := true;
      sequence := [];
      playerSequence := [];
      score := 0;
      gameActive := true;
      assert Model() == s.(practice := true, sequence := [], playerSequence := [], score := 0, gameActive := true);
      StartNewRound(k);
      SimonProps.NextInv(s, SimonProps.PracticePressed(k));
    }

    method GameOver()
      modifies this
      ensures Model() == SimonSpec.GameOver(old(Model()))
    {
      gameActive := false;
      if score > 0 && !practice {
        allScores := allScores + [score];
        allScores := Scores.Sort(allScores);
      }
    }

    /** A press of the button with id `id`; returns what lights up. */
    method HandleButtonClick(id: int) returns (flash: Option<Flash>)
      requires Valid()
      modifies this
      ensures Valid() && (Model(), flash) == SimonSpec.Click(old(Model()), id)
    {
      ghost var s := Model();
      SimonProps.ClickInv(s, id);
      if !gameActive || isPlayingSequence {
        return None;
      }
      playerSequence := playerSequence + [id];
      flash := LightUp(buttonCount, difficulty, id);
      var n := |playerSequence|;
      if n > |sequence| || playerSequence[n - 1] != sequence[n - 1] {
        if strictMode && !practice {
          GameOver();
        } else {
          timers := timers + [Timer(Replay, REPLAY_DELAY)];
          playerSequence := [];
        }
        return;
      }
      if n == |sequence| {
        score := score + 1;
        if !practice {
          UpdateScore();
        }
        timers := timers + [Timer(NewRound, SpeedSettings(difficulty).sequenceSpeed)];
      }
    }

    /** The pending callback at index `j` fires; `k` is the random draw a new
        round would use. */
    method TimerFires(j: nat, k: int)
      requires Valid() && j < |timers| && 0 <= k < buttonCount
      modifies this
      ensures Valid() && Model() == SimonSpec.TimerFires(old(Model()), j, k)
    {
      ghost var s := Model();
      var action := timers[j].action;
      SimonProps.NextInv(s, SimonProps.TimerFired(j, k));
      timers := timers[..j] + timers[j + 1..];
      match action {
        case Replay => PlaySequence();
        case NewRound => StartNewRound(k);
      }
    }

    /** The running playback at index `j` fires; returns what lights up. */
    method Tick(j: nat) returns (flash: Option<Flash>)
      requires Valid() && j < |playbacks|
      modifies this
      ensures Valid() && (Model(), flash) == SimonSpec.Tick(old(Model()), j)
    {
      ghost var s := Model();
      SimonProps.NextInv(s, SimonProps.IntervalTicked(j));
      var p := playbacks[j];
      if p.next >= |sequence| {
        playbacks := playbacks[..j] + playbacks[j + 1..];
        isPlayingSequence := false;
        return None;
      }
      var buttonId := sequence[p.next];
      flash := LightUp(buttonCount, difficulty, buttonId);
      playbacks := playbacks[j := Playback(p.next + 1, p.period)];
    }

    method ToggleStrictMode()
      requires Valid()
      modifies this
      ensures Valid() && Model() == SimonSpec.ToggleStrictMode(old(Model()))
    {
      strictMode := !strictMode;
    }

    method SetDifficulty(d: Difficulty)
      requires Valid()
      modifies this
      ensures Valid() && Model() == SimonSpec.SetDifficulty(old(Model()), d)
    {
      difficulty := d;
    }
  }
}
