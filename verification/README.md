# Simon game engine in Dafny

This project models the gameplay engine of a browser Simon memory game
(`script.js`). The machine plays a growing sequence of button ids and the player
repeats it. In the source, the engine is a set of closure variables: `sequence`,
`playerSequence`, `score`, `highScore`, `allScores`, `strictMode`, `gameActive`,
`isPlayingSequence`, `difficulty`, and the practice flag, which is kept in the
disabled state of the practice button. Event handlers update these variables in
place.

The project has five modules:

- `Scores` (`scores.dfy`) models the score list. A game-over pushes the score and
  sorts the list with the numeric comparator `(a, b) => b - a`. `Sort` is a
  descending insertion sort. `SortedUnique` proves that any descending permutation
  equals it, so the sort's result depends only on the entries. The list has no cap,
  keeps duplicates and is not persisted.
- `SimonSpec` (`simon_spec.dfy`) holds the whole game state as a value (`State`)
  and one function per handler.
  - Timer callbacks are part of the state. `timers` holds the pending one-shot
    callbacks: a replay after a wrong press, or a new round after a completed one.
    Each keeps the delay it was scheduled with.
  - `playbacks` holds the running playback intervals. Each has its own cursor and
    the period it read when it started.
  - The environment picks which callback fires.
  - The random draw of a new round is an argument `k` with `0 <= k < buttonCount`.
- `SimonProps` (`simon_props.dfy`) defines the events the page can deliver, runs
  of events, the state invariant, and the lemmas about runs.
- `SimonGame` (`simon_game.dfy`) defines the class `Game`. Its fields are the
  source's variables and its methods are the handlers. Each method updates the
  fields in place and is proved to produce `Model() == SimonSpec.F(old(Model()))`.
  The one exception is `ResetPracticeMode`, which has no `SimonSpec` function
  behind it: its contract says directly that only the practice flag changes, to
  false. The public handlers also keep the invariant.
- `SimonScenarios` (`simon_scenarios.dfy`) plays short games against the class
  contracts alone.

Nothing cancels a pending callback when a new game or a practice session starts
(`script.js:224-239`, `script.js:69-82`), and the model keeps those callbacks.
A round won just before a restart has already scheduled a new round. That stale
callback then fires into the restarted game and leaves it with two entries at
score 0 (`SimonScenarios.StaleNewRound`).

Further behaviour of the code that the model keeps:

- The score list has no cap and no de-duplication, nothing is persisted, and
  `highScore` lasts only for the page session.
- A press made after a round is complete but before the next round starts is judged
  against a missing element, so it counts as a mismatch (`Mismatch`, with
  `n > |sequence|`).
- When two playbacks overlap (a replay and a new round, for example), the first one
  to finish clears `isPlayingSequence` while the other is still lighting buttons.

## Model

| member | source | states |
|---|---|---|
| `SimonSpec.SpeedSettings` | script.js:18-22 | every difficulty has a light duration shorter than its step period, and both are positive and at most 1000 ms |
| `SimonSpec.Initial` | script.js:9-17 | on page load, the buttons are the page's buttons, sequence, attempt and score list are empty, score and high score 0, no game active, nothing playing, strict off, medium difficulty, nothing pending |
| `SimonSpec.LightUp` | script.js:127-137 | a button lights exactly when an element with that id exists; the duration is the light duration of the difficulty at the moment of lighting |
| `SimonSpec.UpdateScore` | script.js:140-146 | the high score becomes the maximum of itself and the score; nothing else changes |
| `SimonSpec.PlaySequence` | script.js:108-113 | the sequence is marked as playing and one new playback is added at cursor 0, with the period of the current difficulty |
| `SimonSpec.StartNewRound` | script.js:101-105 | the attempt is emptied; exactly one valid id is appended; earlier entries, score, high score and score list are unchanged; a playback starts; strict mode, difficulty and pending callbacks are unchanged |
| `SimonSpec.InitGame` | script.js:92-98 | sequence, attempt and score are reset and the game is active; high score and score list are untouched; nothing else changes |
| `SimonSpec.Start` | script.js:224-239 | a fresh normal game has sequence `[k]`, score 0 and an empty attempt; high score, score list and pending callbacks are untouched; strict mode and difficulty survive the restart |
| `SimonSpec.StartPractice` | script.js:69-82 | a practice session has sequence `[k]`, score 0 and the practice flag set; high score and score list are untouched; strict mode, difficulty and pending callbacks survive |
| `SimonSpec.GameOver` | script.js:177-188 | the game stops; a positive score from a normal game grows the list by exactly one, keeping every old entry plus the score, in descending order; otherwise the list is unchanged |
| `SimonSpec.Click` | script.js:149-174 | ignored presses change nothing; a wrong press either clears the attempt and schedules a 1000 ms replay, or ends a strict non-practice game; a completing press adds exactly one point, keeps the sequence and schedules a new round after the difficulty's period, and changes nothing else (presses are still taken until that round starts); the high score moves only outside practice |
| `SimonSpec.TimerFires` | script.js:162-172 | the fired callback is removed and one new playback starts at cursor 0 with the current difficulty's period, running playbacks untouched; a replay keeps sequence and attempt, a new round appends `k` and clears the attempt; score, high score, score list, strict mode and difficulty are unchanged |
| `SimonSpec.Tick` | script.js:113-123 | past the end, the playback is removed and the playing flag cleared; otherwise the next element lights and the cursor advances with the period kept |
| `SimonSpec.ToggleStrictMode` | script.js:201-204 | strict mode flips and nothing else changes |
| `SimonSpec.SetDifficulty` | script.js:240 | the difficulty changes; running playbacks keep their period and pending callbacks keep their delay |
| `Scores.Insert` | script.js:182-183 | inserting into a descending list gives a descending list with exactly the old entries plus the new one |
| `Scores.Sort` | script.js:183 | the result is descending and is a permutation of the input |
| `Scores.SortedUnique` | script.js:183 | two descending lists with the same entries are equal, so the descending sort's result is determined |
| `Scores.RecordKeepsAll` | script.js:181-185 | push followed by sort gives one more entry, every old entry and the score (duplicates kept, no cap), in descending order; on a descending list it is plain insertion |
| `SimonProps.Enabled` | script.js:217-240 | the page assumptions every run lemma rests on: a press carries the id of one of the buttons; the practice button, disabled while practising (script.js:70) and re-enabled only by a start, receives no click then; the strict button and the difficulty selector are always live |
| `SimonProps.Next` | script.js:113-240 | each page event or timer callback runs its handler; whatever runs, the buttons stay and the high score does not drop; without a start a finished game stays finished with its score and list; a start leaves a game running at score 0, in practice exactly for the practice button |
| `SimonProps.InitialInv` | script.js:9-17 | the page-load state satisfies the invariant |
| `SimonProps.GameOverInv` | script.js:177-188 | recording a score keeps the list descending, positive and at most the high score |
| `SimonProps.ClickInv` | script.js:149-174 | every press keeps the invariant, including the prefix property of the attempt |
| `SimonProps.NextInv` | script.js:222-240 | every handler and every timer callback keeps the invariant |
| `SimonProps.RunInv` | script.js:222-240 | the invariant holds after any run of events from a state that satisfies it |
| `SimonProps.ClickKeepsPrefix` | script.js:153-166 | after a press in an active game the attempt is a prefix of the sequence; a wrong press empties the attempt or ends the game |
| `SimonProps.HighScoreNeverDecreases` | script.js:140-146 | over any run of events the high score never goes down |
| `SimonProps.GameOverIsFinal` | script.js:149-188 | once no game is active, only a start brings it back; until then, score, high score and score list stay as they are |
| `SimonProps.PracticeLeavesRecords` | script.js:159-171 | during practice and until the next start the game never ends, and high score and score list never change |
| `SimonProps.PlaybackLightsInOrder` | script.js:108-124 | a playback lights the remaining elements one per tick in index order with the current light duration; the next tick removes it and clears the playing flag |
| `SimonGame.Game.constructor` | script.js:8-22 | the new engine is exactly the page-load state and satisfies the invariant |
| `SimonGame.Game.UpdateScore` | script.js:140-146 | the new state is `SimonSpec.UpdateScore` of the old one |
| `SimonGame.Game.PlaySequence` | script.js:108-113 | the new state is `SimonSpec.PlaySequence` of the old one |
| `SimonGame.Game.StartNewRound` | script.js:101-105 | the new state is `SimonSpec.StartNewRound` of the old one |
| `SimonGame.Game.InitGame` | script.js:92-98 | the new state is `SimonSpec.InitGame` of the old one |
| `SimonGame.Game.ResetPracticeMode` | script.js:216-220 | only the practice flag changes, and it becomes false |
| `SimonGame.Game.Start` | script.js:224-239 | the new state is `SimonSpec.Start` of the old one, and the invariant is kept |
| `SimonGame.Game.StartPracticeMode` | script.js:69-82 | the new state is `SimonSpec.StartPractice` of the old one, and the invariant is kept |
| `SimonGame.Game.GameOver` | script.js:177-188 | the new state is `SimonSpec.GameOver` of the old one (push, then sort in place) |
| `SimonGame.Game.HandleButtonClick` | script.js:149-174 | the new state and the lit button are `SimonSpec.Click` of the old state, and the invariant is kept |
| `SimonGame.Game.TimerFires` | script.js:162-172 | the new state is `SimonSpec.TimerFires` of the old one, and the invariant is kept |
| `SimonGame.Game.Tick` | script.js:113-123 | the new state and the lit button are `SimonSpec.Tick` of the old state, and the invariant is kept |
| `SimonGame.Game.ToggleStrictMode` | script.js:201-204 | the new state is `SimonSpec.ToggleStrictMode` of the old one |
| `SimonGame.Game.SetDifficulty` | script.js:240 | the new state is `SimonSpec.SetDifficulty` of the old one |
| `SimonScenarios.WinFirstRound` | script.js:149-174 | starting with draw 2 and pressing 2 scores 1 and sets the high score to 1; the next round plays `[2, 3]` |
| `SimonScenarios.StrictMiss` | script.js:157-160 | in strict mode a wrong first press ends the game at score 0 with the score list still empty, and a later press is ignored |
| `SimonScenarios.LenientMiss` | script.js:161-164 | without strict mode a wrong press keeps the sequence, empties the attempt and leaves one 1000 ms replay pending |
| `SimonScenarios.StaleNewRound` | script.js:224-239 | a new-round callback from the previous game fires into a restarted game, whose sequence becomes `[1, 3]` at score 0 |

## Left out

- DOM lookups, CSS class changes, the score and final-score displays, the game-over
  screen, and `renderAllScores` are not modelled. They are presentation only.
- The timeout that un-lights a button is not modelled. It only changes the view.
  Its duration is the `duration` of the returned `Flash`.
- Audio is not modelled: `playSound`, the background music and the music toggle are
  browser calls with no game logic.
- The theme toggle and its `localStorage` entry are not modelled. They are a UI
  preference, unrelated to gameplay.
- Wall-clock timing is not modelled. Pending callbacks and running playbacks may fire
  in any order, while real timers fire by deadline. Every property proved here holds
  for every order, so it also holds for the real one. The delays and periods are
  recorded, not simulated.
- The distribution of `Math.random` is not modelled. A new round's draw is any id in
  `[0, buttonCount)`, given as an argument.
- Button element ids are taken to be `"0"` to `"n-1"`. This is how `lightUpButton`
  finds them. The page markup is not part of this model. A press carries an integer
  id. The `NaN` that `parseInt` returns for an element without a numeric id is not
  modelled.
- The difficulty selector is assumed to offer only `easy`, `medium` and `hard`
  (`Difficulty`). Any other value would leave `speedSettings[difficulty]`
  undefined (script.js:240), and `playSequence` would throw at script.js:111.
- `SimonGame.Game.constructor` requires at least one button. With no buttons the
  source draws id 0, which names no button and cannot be pressed; the model leaves
  out that degenerate page.
