/** The gameplay state of the Simon game as a value, and one function per
    handler saying what that handler does to it. The class in SimonGame
    keeps the same state in mutable fields and is proved to follow these
    functions step for step.

    Timer callbacks are part of the state: `timers` holds the one-shot
    callbacks that are still pending (a replay of the sequence, or the start
    of a new round), `playbacks` the periodic playback callbacks that are
    still running, each with its own cursor and its own period. Nothing ever
    cancels them: starting a game leaves whatever is pending in place. */
module SimonSpec {
  import Scores

  datatype Difficulty = Easy | Medium | Hard

  /** Milliseconds between playback steps and while a button stays lit. */
  datatype Speed = Speed(sequenceSpeed: nat, lightDuration: nat)

  /** The speed table. */
  function SpeedSettings(d: Difficulty): (r: Speed)
    ensures 0 < r.lightDuration < r.sequenceSpeed <= 1000
  {
    match d
    case Easy => Speed(1000, 600)
    case Medium => Speed(800, 500)
    case Hard => Speed(500, 300)
  }

  /** Delay before a replay after a wrong press, in milliseconds. */
  const REPLAY_DELAY: nat := 1000

  /** What a pending one-shot callback will do when it fires. */
  datatype Action = Replay | NewRound

  /** A pending one-shot callback and the delay it was scheduled with. */
  datatype Timer = Timer(action: Action, delay: nat)

  /** A running playback: the index of the next button to light and the
      period it was started with. */
  datatype Playback = Playback(next: nat, period: nat)

  datatype Option<T> = None | Some(value: T)

  /** A button lit up, and for how long. */
  datatype Flash = Flash(button: int, duration: nat)

  datatype State = State(
    buttonCount: nat,
    sequence: seq<int>,
    playerSequence: seq<int>,
    score: nat,
    highScore: nat,
    allScores: seq<int>,
    strictMode: bool,
    gameActive: bool,
    isPlayingSequence: bool,
    difficulty: Difficulty,
    practice: bool,             // the practice button is disabled while practising
    timers: seq<Timer>,
    playbacks: seq<Playback>)

  /** The state when the page has loaded. */
  function Initial(buttonCount: nat): (r: State)
    ensures r.sequence == [] && r.allScores == [] && r.score == r.highScore == 0
    ensures !r.gameActive && !r.isPlayingSequence && !r.strictMode && !r.practice
    ensures r.difficulty == Medium && r.timers == [] && r.playbacks == []
    ensures r.buttonCount == buttonCount && r.playerSequence == []
  {
    State(buttonCount, [], [], 0, 0, [], false, false, false, Medium, false, [], [])
  }

  /** Lighting a button: buttons carry the ids 0 .. buttonCount - 1, any other
      id finds no element and lights nothing. The duration is looked up at
      the moment the button is lit. */
  function LightUp(buttonCount: nat, difficulty: Difficulty, id: int): (r: Option<Flash>)
    ensures r.Some? <==> 0 <= id < buttonCount
    ensures r.Some? ==>
      r.value.button == id && r.value.duration == SpeedSettings(difficulty).lightDuration
  {
    if 0 <= id < buttonCount then Some(Flash(id, SpeedSettings(difficulty).lightDuration)) else None
  }

  /** The high score is the running maximum of the score. */
  function UpdateScore(s: State): (r: State)
    ensures r.highScore >= s.highScore && r.highScore >= s.score
    ensures r.highScore == s.highScore || r.highScore == s.score
    ensures r == s.(highScore := r.highScore)
  {
    if s.score > s.highScore then s.(highScore := s.score) else s
  }

  /** Starting a playback: it reads the period once, from the difficulty in
      force now, and marks the sequence as playing. */
  function PlaySequence(s: State): (r: State)
    ensures r.isPlayingSequence
    ensures r.playbacks == s.playbacks + [Playback(0, SpeedSettings(s.difficulty).sequenceSpeed)]
    ensures r == s.(isPlayingSequence := true, playbacks := r.playbacks)
  {
    s.(isPlayingSequence := true,
       playbacks := s.playbacks + [Playback(0, SpeedSettings(s.difficulty).sequenceSpeed)])
  }

  /** A new round: the attempt is cleared, one button id `k` (the random
      draw) is appended and the sequence is played. */
  function StartNewRound(s: State, k: int): (r: State)
    requires 0 <= k < s.buttonCount
    ensures r.playerSequence == []
    ensures |r.sequence| == |s.sequence| + 1 && r.sequence[..|s.sequence|] == s.sequence
    ensures 0 <= r.sequence[|s.sequence|] < s.buttonCount
    ensures r.isPlayingSequence
    ensures r.playbacks == s.playbacks + [Playback(0, SpeedSettings(s.difficulty).sequenceSpeed)]
    ensures r.score == s.score && r.highScore == s.highScore && r.allScores == s.allScores
    ensures r.gameActive == s.gameActive && r.practice == s.practice && r.timers == s.timers
    ensures r == s.(playerSequence := [], sequence := r.sequence,
                    isPlayingSequence := true, playbacks := r.playbacks)
  {
    PlaySequence(s.(playerSequence := [], sequence := s.sequence + [k]))
  }

  /** Resetting for a normal game; the high score is refreshed with score 0,
      which never changes it. */
  function InitGame(s: State): (r: State)
    ensures r.sequence == [] && r.playerSequence == [] && r.score == 0 && r.gameActive
    ensures r.highScore == s.highScore && r.allScores == s.allScores
    ensures r == s.(sequence := [], playerSequence := [], score := 0, gameActive := true)
  {
    UpdateScore(s.(sequence := [], playerSequence := [], score := 0)).(gameActive := true)
  }

  /** The start and play-again buttons: leave practice mode, reset, start a
      round. Pending callbacks of an earlier game are left in place. */
  function Start(s: State, k: int): (r: State)
    requires 0 <= k < s.buttonCount
    ensures |r.sequence| == 1 && r.sequence[0] == k && r.playerSequence == []
    ensures r.score == 0 && r.gameActive && !r.practice && r.isPlayingSequence
    ensures r.highScore == s.highScore && r.allScores == s.allScores
    ensures r.timers == s.timers
    ensures r.playbacks == s.playbacks + [Playback(0, SpeedSettings(s.difficulty).sequenceSpeed)]
    ensures r.strictMode == s.strictMode && r.difficulty == s.difficulty
    ensures r == s.(practice := false, sequence := [k], playerSequence := [], score := 0,
                    gameActive := true, isPlayingSequence := true, playbacks := r.playbacks)
  {
    StartNewRound(InitGame(s.(practice := false)), k)
  }

  /** The practice button: as a start, but flagged as practice and without
      refreshing the high score. */
  function StartPractice(s: State, k: int): (r: State)
    requires 0 <= k < s.buttonCount
    ensures |r.sequence| == 1 && r.sequence[0] == k && r.playerSequence == []
    ensures r.score == 0 && r.gameActive && r.practice && r.isPlayingSequence
    ensures r.highScore == s.highScore && r.allScores == s.allScores
    ensures r.timers == s.timers
    ensures r.playbacks == s.playbacks + [Playback(0, SpeedSettings(s.difficulty).sequenceSpeed)]
    ensures r.strictMode == s.strictMode && r.difficulty == s.difficulty
    ensures r == s.(practice := true, sequence := [k], playerSequence := [], score := 0,
                    gameActive := true, isPlayingSequence := true, playbacks := r.playbacks)
  {
    StartNewRound(s.(practice := true, sequence := [], playerSequence := [], score := 0, gameActive := true), k)
  }

  /** The end of a game: input stops being accepted; a positive score of a
      normal game is pushed onto the score list, which is then sorted in
      descending order. */
  function GameOver(s: State): (r: State)
    ensures !r.gameActive && r.score == s.score && r.highScore == s.highScore
    ensures s.score > 0 && !s.practice ==>
      |r.allScores| == |s.allScores| + 1
      && multiset(r.allScores) == multiset(s.allScores) + multiset{s.score as int}
      && Scores.SortedDesc(r.allScores)
    ensures !(s.score > 0 && !s.practice) ==> r.allScores == s.allScores
    ensures r == s.(gameActive := false, allScores := r.allScores)
  {
    if s.score > 0 && !s.practice then
      Scores.RecordKeepsAll(s.allScores, s.score);
      s.(gameActive := false, allScores := Scores.Sort(s.allScores + [s.score]))
    else
      s.(gameActive := false)
  }

  /** Whether presses are taken: a game is active and nothing plays. */
  predicate Accepting(s: State)
  {
    s.gameActive && !s.isPlayingSequence
  }

  /** Whether the `n`-th press (counting from 1) with button `id` fails to
      match: the press is wrong, or there is no `n`-th element at all. */
  predicate Mismatch(sequence: seq<int>, n: nat, id: int)
    requires n >= 1
  {
    n > |sequence| || id != sequence[n - 1]
  }

  /** A press of button `id`. Ignored while no game is active or while the
      sequence plays. Otherwise the press is appended to the attempt and
      judged:
      - wrong, strict mode and not practising: the game is over;
      - wrong otherwise: the attempt is cleared and a replay is scheduled;
      - right and the attempt is complete: one more point, the high score is
        refreshed unless practising, a new round is scheduled;
      - right and incomplete: nothing else happens. */
  function Click(s: State, id: int): (r: (State, Option<Flash>))
    // an ignored press changes nothing
    ensures !Accepting(s) ==> r == (s, None)
    ensures Accepting(s) ==> r.1 == LightUp(s.buttonCount, s.difficulty, id)
    // a press never changes the sequence
    ensures r.0.sequence == s.sequence && r.0.playbacks == s.playbacks
    ensures r.0.practice == s.practice && r.0.strictMode == s.strictMode
    // a wrong press that does not end the game
    ensures (Accepting(s) && Mismatch(s.sequence, |s.playerSequence| + 1, id)
             && !(s.strictMode && !s.practice)) ==>
      r.0 == s.(playerSequence := [], timers := s.timers + [Timer(Replay, REPLAY_DELAY)])
    // a wrong press in strict mode outside practice
    ensures (Accepting(s) && Mismatch(s.sequence, |s.playerSequence| + 1, id)
             && s.strictMode && !s.practice) ==>
      r.0 == GameOver(s.(playerSequence := s.playerSequence + [id]))
    // a right press that completes the round
    ensures (Accepting(s) && !Mismatch(s.sequence, |s.playerSequence| + 1, id)
             && |s.playerSequence| + 1 == |s.sequence|) ==>
      r.0.score == s.score + 1 && r.0.playerSequence == s.playerSequence + [id]
      && r.0.timers == s.timers + [Timer(NewRound, SpeedSettings(s.difficulty).sequenceSpeed)]
      && r.0.highScore == (if s.practice || s.highScore >= s.score + 1 then s.highScore else s.score + 1)
      && r.0.gameActive && r.0.allScores == s.allScores
      && r.0 == s.(playerSequence := s.playerSequence + [id], score := s.score + 1,
                   highScore := r.0.highScore, timers := r.0.timers)
    // a right press that leaves the round incomplete
    ensures (Accepting(s) && !Mismatch(s.sequence, |s.playerSequence| + 1, id)
             && |s.playerSequence| + 1 < |s.sequence|) ==>
      r.0 == s.(playerSequence := s.playerSequence + [id])
  {
    if !Accepting(s) then
      (s, None)
    else
      var flash := LightUp(s.buttonCount, s.difficulty, id);
      var attempt := s.playerSequence + [id];
      var n := |attempt|;
      if Mismatch(s.sequence, n, id) then
        if s.strictMode && !s.practice then
          (GameOver(s.(playerSequence := attempt)), flash)
        else
          (s.(timers := s.timers + [Timer(Replay, REPLAY_DELAY)], playerSequence := []), flash)
      else if n == |s.sequence| then
        var scored := s.(playerSequence := attempt, score := s.score + 1);
        var shown := if !s.practice then UpdateScore(scored) else scored;
        (shown.(timers := shown.timers + [Timer(NewRound, SpeedSettings(s.difficulty).sequenceSpeed)]), flash)
      else
        (s.(playerSequence := attempt), flash)
  }

  /** The pending callback at index `j` fires and is removed. A replay starts
      a playback; a new round draws `k` and starts a round. */
  function TimerFires(s: State, j: nat, k: int): (r: State)
    requires j < |s.timers|
    requires 0 <= k < s.buttonCount
    ensures r.timers == s.timers[..j] + s.timers[j + 1..]
    ensures r.score == s.score && r.highScore == s.highScore && r.allScores == s.allScores
    ensures r.gameActive == s.gameActive && r.practice == s.practice
    ensures s.timers[j].action == Replay ==>
      r.sequence == s.sequence && r.playerSequence == s.playerSequence
    ensures s.timers[j].action == NewRound ==>
      r.sequence == s.sequence + [k] && r.playerSequence == []
    ensures r.isPlayingSequence
    ensures r.playbacks == s.playbacks + [Playback(0, SpeedSettings(s.difficulty).sequenceSpeed)]
    ensures r.strictMode == s.strictMode && r.difficulty == s.difficulty && r.buttonCount == s.buttonCount
    ensures r == s.(timers := r.timers, sequence := r.sequence, playerSequence := r.playerSequence,
                    isPlayingSequence := true, playbacks := r.playbacks)
  {
    var rest := s.(timers := s.timers[..j] + s.timers[j + 1..]);
    match s.timers[j].action
    case Replay => PlaySequence(rest)
    case NewRound => StartNewRound(rest, k)
  }

  /** The running playback at index `j` fires. Past the end of the sequence
      it stops (it is removed and the sequence no longer counts as playing);
      otherwise it lights the next button and moves on. Its period is left
      as it was started. */
  function Tick(s: State, j: nat): (r: (State, Option<Flash>))
    requires j < |s.playbacks|
    ensures s.playbacks[j].next >= |s.sequence| ==>
      r.1 == None && !r.0.isPlayingSequence
      && r.0.playbacks == s.playbacks[..j] + s.playbacks[j + 1..]
    ensures s.playbacks[j].next < |s.sequence| ==>
      r.1 == LightUp(s.buttonCount, s.difficulty, s.sequence[s.playbacks[j].next])
      && r.0.isPlayingSequence == s.isPlayingSequence
      && r.0.playbacks == s.playbacks[j := Playback(s.playbacks[j].next + 1, s.playbacks[j].period)]
    ensures r.0 == s.(isPlayingSequence := r.0.isPlayingSequence, playbacks := r.0.playbacks)
  {
    var p := s.playbacks[j];
    if p.next >= |s.sequence| then
      (s.(playbacks := s.playbacks[..j] + s.playbacks[j + 1..], isPlayingSequence := false), None)
    else
      (s.(playbacks := s.playbacks[j := Playback(p.next + 1, p.period)]), LightUp(s.buttonCount, s.difficulty, s.sequence[p.next]))
  }

  /** The strict button flips strict mode. */
  function ToggleStrictMode(s: State): (r: State)
    ensures r.strictMode != s.strictMode
    ensures r == s.(strictMode := r.strictMode)
  {
    s.(strictMode := !s.strictMode)
  }

  /** The difficulty selector. Running playbacks keep their period. */
  function SetDifficulty(s: State, d: Difficulty): (r: State)
    ensures r.difficulty == d && r.playbacks == s.playbacks && r.timers == s.timers
    ensures r == s.(difficulty := d)
  {
    s.(difficulty := d)
  }
}
