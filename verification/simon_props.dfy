/** What the handlers of the Simon game guarantee together: an invariant
    every event keeps, and properties of whole runs of events. */
module SimonProps {
  import Scores
  import opened SimonSpec

  /** Everything the page can do to the game. The `k` of a start and of a
      fired callback is the random draw; `j` picks which pending callback or
      which running playback fires. */
  datatype Event =
    | StartPressed(k: int)        // the start and the play-again buttons
    | PracticePressed(k: int)
    | ButtonPressed(id: int)
    | TimerFired(j: nat, k: int)
    | IntervalTicked(j: nat)
    | StrictToggled
    | DifficultyChanged(d: Difficulty)

  /** Whether the event can happen in state `s`. These are assumptions about
      the page: a press always comes from one of the buttons, so it carries a
      valid id; a disabled practice button receives no clicks, so practice
      cannot be started while practising; the strict button and the
      difficulty selector are always live. */
  predicate Enabled(s: State, e: Event)
    ensures Enabled(s, e) && e.ButtonPressed? ==> 0 <= e.id < s.buttonCount
    ensures e.PracticePressed? && s.practice ==> !Enabled(s, e)
    ensures e.StrictToggled? || e.DifficultyChanged? ==> Enabled(s, e)
  {
    match e
    case StartPressed(k) => 0 <= k < s.buttonCount
    case PracticePressed(k) => 0 <= k < s.buttonCount && !s.practice
    case ButtonPressed(id) => 0 <= id < s.buttonCount
    case TimerFired(j, k) => j < |s.timers| && 0 <= k < s.buttonCount
    case IntervalTicked(j) => j < |s.playbacks|
    case StrictToggled => true
    case DifficultyChanged(_) => true
  }

  /** The state after event `e`: a start or practice click, a press, a fired
      callback, a playback tick, or a change of setting. Whatever happens,
      the buttons stay the same and the high score does not go down; without
      a start, a finished game stays finished with its score and score list;
      a start always leaves a normal game running. */
  function Next(s: State, e: Event): (r: State)
    requires Enabled(s, e)
    ensures r.buttonCount == s.buttonCount && r.highScore >= s.highScore
    ensures !IsStart(e) && !s.gameActive ==>
      !r.gameActive && r.score == s.score && r.allScores == s.allScores
    ensures e.StartPressed? ==> r.gameActive && !r.practice && r.score == 0
    ensures e.PracticePressed? ==> r.gameActive && r.practice && r.score == 0
  {
    match e
    case StartPressed(k) => Start(s, k)
    case PracticePressed(k) => StartPractice(s, k)
    case ButtonPressed(id) => Click(s, id).0
    case TimerFired(j, k) => TimerFires(s, j, k)
    case IntervalTicked(j) => Tick(s, j).0
    case StrictToggled => ToggleStrictMode(s)
    case DifficultyChanged(d) => SetDifficulty(s, d)
  }

  /** Whether each event of `es` is enabled in the state the earlier ones lead to. */
  predicate Runs(s: State, es: seq<Event>)
    decreases |es|
  {
    es == [] || (Enabled(s, es[0]) && Runs(Next(s, es[0]), es[1..]))
  }

  /** The state after the events of `es`, in order. */
  function Run(s: State, es: seq<Event>): (r: State)
    requires Runs(s, es)
    decreases |es|
  {
    if es == [] then s else Run(Next(s, es[0]), es[1..])
  }

  /** The attempt so far agrees with the start of the sequence. */
  predicate IsPrefix(p: seq<int>, q: seq<int>)
  {
    |p| <= |q| && p == q[..|p|]
  }

  /** The state invariant.
      - every sequence entry is the id of a button;
      - while a game is active the attempt is a prefix of the sequence;
      - practice only happens inside an active game (it never ends one);
      - outside practice the score never exceeds the high score;
      - the score list is descending, positive and bounded by the high score;
      - the sequence counts as playing only while some playback runs. */
  ghost predicate Inv(s: State)
  {
    s.buttonCount > 0
    && (forall i :: 0 <= i < |s.sequence| ==> 0 <= s.sequence[i] < s.buttonCount)
    && (s.gameActive ==> IsPrefix(s.playerSequence, s.sequence))
    && (s.practice ==> s.gameActive)
    && (!s.practice ==> s.score <= s.highScore)
    && Scores.SortedDesc(s.allScores)
    && (forall i :: 0 <= i < |s.allScores| ==> 0 < s.allScores[i] <= s.highScore)
    && (s.isPlayingSequence ==> s.playbacks != [])
  }

  lemma InitialInv(buttonCount: nat)
    requires buttonCount > 0
    ensures Inv(Initial(buttonCount))
  {
  }

  /** Recording a score keeps the list descending, positive and below the high score. */
  lemma {:induction false} GameOverInv(s: State)
    requires Inv(s.(gameActive := false)) && !s.practice
    ensures Inv(GameOver(s))
  {
    var r := GameOver(s);
    if s.score > 0 {
      forall i | 0 <= i < |r.allScores|
        ensures 0 < r.allScores[i] <= r.highScore
      {
        assert r.allScores[i] in multiset(r.allScores);
        assert r.allScores[i] in multiset(s.allScores) + multiset{s.score as int};
        if r.allScores[i] in multiset(s.allScores) {
          var m :| 0 <= m < |s.allScores| && s.allScores[m] == r.allScores[i];
        }
      }
    }
  }

  /** A press keeps the invariant: a right press extends the prefix, a wrong
      one either empties the attempt or ends the game. */
  lemma {:induction false} ClickInv(s: State, id: int)
    requires Inv(s)
    ensures Inv(Click(s, id).0)
  {
    var r := Click(s, id).0;
    if Accepting(s) {
      var n := |s.playerSequence| + 1;
      if Mismatch(s.sequence, n, id) {
        if s.strictMode && !s.practice {
          GameOverInv(s.(playerSequence := s.playerSequence + [id]));
        }
      } else {
        assert s.playerSequence + [id] == s.sequence[..n];
      }
    }
  }

  lemma {:induction false} NextInv(s: State, e: Event)
    requires Inv(s) && Enabled(s, e)
    ensures Inv(Next(s, e))
  {
    match e
    case ButtonPressed(id) => ClickInv(s, id);
    case StartPressed(k) =>
      assert Inv(Start(s, k));
    case PracticePressed(k) =>
      assert Inv(StartPractice(s, k));
    case TimerFired(j, k) =>
      var r := TimerFires(s, j, k);
      assert forall i :: 0 <= i < |r.sequence| ==> 0 <= r.sequence[i] < r.buttonCount by {
        if s.timers[j].action == NewRound {
          assert forall i :: 0 <= i < |s.sequence| ==> r.sequence[i] == s.sequence[i];
        }
      }
    case IntervalTicked(j) =>
    case StrictToggled =>
    case DifficultyChanged(d) =>
  }

  /** Every run from a state satisfying the invariant keeps it. */
  lemma {:induction false} RunInv(s: State, es: seq<Event>)
    requires Inv(s) && Runs(s, es)
    ensures Inv(Run(s, es))
    decreases |es|
  {
    if es != [] {
      NextInv(s, es[0]);
      RunInv(Next(s, es[0]), es[1..]);
    }
  }

  /** An accepted press in an active game leaves a prefix of the sequence
      behind; a wrong press never leaves a wrong or overlong attempt in a
      game that goes on. */
  lemma {:induction false} ClickKeepsPrefix(s: State, id: int)
    requires Inv(s)
    ensures Click(s, id).0.gameActive ==> IsPrefix(Click(s, id).0.playerSequence, s.sequence)
    ensures Accepting(s) && Mismatch(s.sequence, |s.playerSequence| + 1, id) ==>
      Click(s, id).0.playerSequence == [] || !Click(s, id).0.gameActive
  {
    ClickInv(s, id);
  }

  /** The high score never goes down, whatever happens. */
  lemma {:induction false} HighScoreNeverDecreases(s: State, es: seq<Event>)
    requires Runs(s, es)
    ensures Run(s, es).highScore >= s.highScore
    decreases |es|
  {
    if es != [] {
      HighScoreNeverDecreases(Next(s, es[0]), es[1..]);
    }
  }

  predicate IsStart(e: Event)
  {
    e.StartPressed? || e.PracticePressed?
  }

  /** After the game is over, nothing but a new start brings it back: every
      press is ignored and score, high score and score list stay as they are.
      (Callbacks left over from the finished game can still fire and extend
      the sequence or play it.) */
  lemma {:induction false} GameOverIsFinal(s: State, es: seq<Event>)
    requires !s.gameActive && Runs(s, es)
    requires forall i :: 0 <= i < |es| ==> !IsStart(es[i])
    ensures !Run(s, es).gameActive
    ensures Run(s, es).score == s.score && Run(s, es).highScore == s.highScore
    ensures Run(s, es).allScores == s.allScores
    decreases |es|
  {
    if es != [] {
      GameOverIsFinal(Next(s, es[0]), es[1..]);
    }
  }

  /** In practice, until the next start, the game never ends and neither the
      high score nor the score list changes, however many rounds are won. */
  lemma {:induction false} PracticeLeavesRecords(s: State, es: seq<Event>)
    requires s.practice && s.gameActive && Runs(s, es)
    requires forall i :: 0 <= i < |es| ==> !IsStart(es[i])
    ensures Run(s, es).practice && Run(s, es).gameActive
    ensures Run(s, es).highScore == s.highScore && Run(s, es).allScores == s.allScores
    decreases |es|
  {
    if es != [] {
      PracticeLeavesRecords(Next(s, es[0]), es[1..]);
    }
  }

  /** Firing the playback at index `j` `n` times in a row: the new state and
      the flashes in order. */
  function TickN(s: State, j: nat, n: nat): (r: (State, seq<Option<Flash>>))
    requires j < |s.playbacks|
    requires s.playbacks[j].next + n <= |s.sequence|
    decreases n
  {
    if n == 0 then
      (s, [])
    else
      var (t, f) := Tick(s, j);
      var (u, fs) := TickN(t, j, n - 1);
      (u, [f] + fs)
  }

  /** A playback lights the rest of the sequence one button per tick and in
      index order, leaving everything but its own cursor alone; the next tick
      then stops it and clears the playing flag. */
  lemma {:induction false} PlaybackLightsInOrder(s: State, j: nat)
    requires Inv(s) && j < |s.playbacks|
    requires s.playbacks[j].next <= |s.sequence|
    ensures var c := s.playbacks[j].next;
      var (u, fs) := TickN(s, j, |s.sequence| - c);
      |fs| == |s.sequence| - c
      && (forall i :: 0 <= i < |fs| ==> fs[i] == Some(Flash(s.sequence[c + i], SpeedSettings(s.difficulty).lightDuration)))
      && u.playbacks == s.playbacks[j := Playback(|s.sequence|, s.playbacks[j].period)]
      && u == s.(playbacks := u.playbacks)
      && Tick(u, j).1 == None && !Tick(u, j).0.isPlayingSequence
      && Tick(u, j).0.playbacks == s.playbacks[..j] + s.playbacks[j + 1..]
    decreases |s.sequence| - s.playbacks[j].next
  {
    var c := s.playbacks[j].next;
    if c < |s.sequence| {
      var (t, f) := Tick(s, j);
      PlaybackLightsInOrder(t, j);
      assert t.playbacks[j := Playback(|s.sequence|, s.playbacks[j].period)]
          == s.playbacks[j := Playback(|s.sequence|, s.playbacks[j].period)];
    }
  }
}
