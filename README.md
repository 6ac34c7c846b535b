# Snake game: verified model of the game state machine

This project models the core of a browser snake game (`script.js`). The core is
the state the page keeps in closure variables and the handlers that update it:

- the snake, as a list of cells, head first;
- the current and the pending velocity;
- the food cell, the score and the high score;
- the flags `gameRunning`, `gameOver` and `aiMode`.

The model is in Dafny and is organised as follows.

- `grid.dfy` (module `Grid`): cells, velocity vectors, the board test, and the
  reversal guard that direction changes and the autopilot share.
- `food.dfy` (module `Food`): food placement by rejection sampling. The random
  source is a caller-supplied sequence `draws` of board cells. A counting argument
  shows that a free cell exists whenever the snake does not cover the board.
- `state.dfy` (module `GameState`): the whole state as one value `World`, the
  state at page load, and the invariant `Inv` that every operation keeps.
- `autopilot.dfy` (module `Autopilot`): the `canMove` safety test, the candidate
  list of `calculateAIMove`, and the choice of the first candidate of maximal
  priority. The page sorts the list with a stable sort and takes its first entry,
  so that choice is the same one. Lemmas describe the choice rule directly.
- `rules.dfy` (module `Rules`): each operation (`startGame`, `pauseGame`,
  `changeDirection`, `calculateAIMove`, `updateGame`, `restartGame`,
  `toggleAIMode`, the space bar) as a function from the state before to the state
  after, with the lemmas the game promises.
- `game.dfy` (module `SnakeGame`): class `Game`, whose fields are the page's
  variables and whose methods update them in place as the handlers do. The
  handlers `Start`, `Pause`, `ChangeDirection`, `CalculateAIMove`, `Tick`,
  `Restart`, `ToggleAIMode` and `PressSpace` are each proved to produce the state
  that the matching `Rules` function describes, and to keep `Valid()`.
  `HandleGameOver` is proved to produce the `Rules.EndGame` state, and
  `GenerateFood` to place the food on `Food.FirstFree` of the draws. `OnSnake`,
  `CanMove`, `GreedyCandidates` and `FallbackCandidates` change nothing and are
  proved against their specification functions.
- `speed.dfy` (module `Speed`): the slider's label thresholds (70, 90, 110, 150 ms).
- `scenarios.dfy` (module `Scenarios`): concrete runs on a 20-by-20 board.

`Inv` is kept by every operation. It says:

- the snake is non-empty, on the board, and no two of its cells are equal;
- the food is on the board and not on the snake;
- both velocities are zero or one unit step;
- the pending velocity never reverses the current one;
- `0 <= score <= highScore`;
- a finished game is not running.

Notes on the code's behaviour:

- The code has no separate Idle and Paused states: both are "not running and not
  over".
- `changeDirection` (script.js:216-219) also launches a paused game, and it sets
  the current velocity at once, before the head has moved. Lemma
  `Scenarios.PausedKeysCanReverse` shows a consequence. A snake paused while
  moving right gets the keys up and then left. Both pass the reversal guard, and
  the next tick turns the head back into the snake's second cell, which ends the
  game.
- The autopilot steers at a tick only when `aiMode` and `gameRunning` are both
  set (script.js:231).
- Only an eating tick draws random cells. The other ticks run on any board,
  including one that the snake and the food fill completely.

## Model

| member | source | states |
|---|---|---|
| `SnakeGame.Game.constructor` | script.js:11-30 | The load-time state: snake `[(10,10)]`, both velocities zero, food `(5,5)`, score 0, the stored high score, all flags off; the invariant holds |
| `GameState.Initial` | script.js:11-30 | The load-time state satisfies the invariant; it has a one-cell snake at the start cell, score 0 and the stored high score |
| `Rules.Start` | script.js:86-91 | The transition function of `startGame`; `Rules.StartRule` states its properties |
| `SnakeGame.Game.Start` | script.js:86-91 | `startGame` sets the running flag only for a game neither running nor over; the state afterwards is `Rules.Start` of the state before |
| `Rules.StartRule` | script.js:86-91 | Start is a no-op when running or over; otherwise it changes only the running flag; the invariant is kept |
| `Rules.Pause` | script.js:127-132 | The transition function of `pauseGame`; `Rules.PauseRule` states its properties |
| `SnakeGame.Game.Pause` | script.js:127-132 | `pauseGame` leaves the state `Rules.Pause` describes |
| `Rules.PauseRule` | script.js:127-132 | Pausing clears the running flag and changes nothing else |
| `Rules.ChangeDirection` | script.js:206-221 | The transition function of `changeDirection`; `Rules.ChangeDirectionRule` and `Rules.ChangeDirectionPreservesInv` state its properties |
| `SnakeGame.Game.ChangeDirection` | script.js:206-221 | `changeDirection` leaves the state `Rules.ChangeDirection` describes and keeps the invariant |
| `Rules.ChangeDirectionRule` | script.js:206-221 | A reversal changes nothing; any other request becomes pending; only a non-zero request to a game neither running nor over also sets the current velocity and starts the game; no other field changes |
| `Rules.ChangeDirectionPreservesInv` | script.js:206-221 | A direction request keeps the invariant, including "pending never reverses current" |
| `Grid.ReversesIsOpposite` | script.js:208 | For the velocities the game uses, the guard rejects exactly the opposite step, and nothing when standing still |
| `Grid.NeverReversesItself` | script.js:236-237 | A velocity never reverses itself, so copying pending into current is admissible |
| `SnakeGame.Game.OnSnake` | script.js:252-257 | The scan over the snake's cells reports a hit exactly when the cell is one of them |
| `SnakeGame.Game.CanMove` | script.js:526-552 | `canMove` is true exactly when the step does not reverse the current velocity, the new head is on the board, and the new head is not a cell of the current snake |
| `SnakeGame.Game.GreedyCandidates` | script.js:496-508 | The greedy candidates are pushed horizontal first, then vertical. Each is a safe step toward the food, with priority 2 when its axis offset is strictly larger, else 1 |
| `SnakeGame.Game.FallbackCandidates` | script.js:511-516 | The fallback candidates are the safe steps in the order up, right, down, left, at priority 0 |
| `SnakeGame.Game.CalculateAIMove` | script.js:485-523 | `calculateAIMove` leaves the state `Rules.ApplyAI` describes and keeps the invariant |
| `Autopilot.Choose` | script.js:485-523 | The step `calculateAIMove` hands to `changeDirection`, or none; `ChooseIsSafe`, `ChooseNoneIff`, `ChooseGreedy` and `ChooseFallback` state the choice rule |
| `Autopilot.ChooseReadsBoard` | script.js:485-523 | The choice depends only on the board size, the snake, the current velocity and the food, not on the flags |
| `Autopilot.FirstBest` | script.js:518-521 | The chosen entry has maximal priority and every earlier entry has strictly lower priority. This is the first entry after a stable descending sort |
| `Autopilot.FirstBestUnique` | script.js:518-521 | Only one entry of a list is the first of maximal priority |
| `Autopilot.CandidatesSafe` | script.js:496-516 | Every candidate is one of the four steps and passes `canMove` |
| `Autopilot.ChooseIsSafe` | script.js:485-523 | A step the autopilot issues is one of the four steps and satisfies `canMove` |
| `Autopilot.ChooseNoneIff` | script.js:511-522 | The autopilot issues no step exactly when none of up, right, down, left is safe |
| `Autopilot.GreedyShape` | script.js:496-508 | The greedy list holds the safe horizontal step toward the food, then the safe vertical one |
| `Autopilot.ChooseGreedy` | script.js:496-521 | When a step toward the food is safe, one is taken. With both axes safe, the axis with strictly larger offset wins, and the horizontal one on a tie |
| `Autopilot.ChooseFallback` | script.js:511-521 | Without a safe step toward the food, the first safe step of up, right, down, left is taken |
| `Rules.ApplyAI` | script.js:518-522 | The transition function of `calculateAIMove`; `Rules.ApplyAIRule` and `Rules.ApplyAIPreservesInv` state its properties |
| `Rules.ApplyAIRule` | script.js:518-522 | The autopilot changes only the velocities and the running flag. With no safe step it changes nothing. A chosen step always passes the reversal guard and becomes pending |
| `Rules.SteeredFrame` | script.js:230-233 | Steering before a tick changes only the velocities and the running flag |
| `Rules.ApplyAIPreservesInv` | script.js:485-523 | The autopilot keeps the invariant |
| `Rules.EndGame` | script.js:318-321 | The transition function of `handleGameOver`: the game-over flag set, the running flag cleared |
| `SnakeGame.Game.HandleGameOver` | script.js:318-321 | `handleGameOver` sets the game-over flag and clears the running flag |
| `Rules.Tick` | script.js:224-290 | The transition function of `updateGame`. It needs a free draw only when the tick eats; the `Tick` lemmas below state its properties |
| `SnakeGame.Game.Tick` | script.js:224-290 | `updateGame` leaves the state `Rules.Tick` describes and keeps the invariant. Draws are required to supply a free cell only when the tick eats |
| `Rules.TickStill` | script.js:225-240 | A tick of a finished game changes nothing. A tick whose applied velocity is zero leaves snake, food, score, high score and the game-over flag unchanged |
| `Rules.TickCollision` | script.js:243-257 | A new head off the board or on a cell of the pre-move snake ends the game and clears running; snake, food and scores are unchanged |
| `Rules.TickMoves` | script.js:259-286 | Without eating, the new snake is the new head followed by the old snake minus its tail; food and scores are unchanged |
| `Rules.TickEats` | script.js:259-276 | On eating, the snake keeps its tail behind the new head. The score rises by exactly 1 and the high score becomes the maximum of itself and the new score. The new food is the first draw off the grown snake, on the board and not on the snake |
| `Rules.TickGrowth` | script.js:259-286 | Per tick the snake keeps its length or grows by exactly 1. The score rises by exactly the growth. The high score never decreases |
| `Rules.AutopilotAvoidsCrash` | script.js:230-257 | With the autopilot driving a running game, a tick ends the game only when none of the four steps was safe |
| `Rules.TickPreservesInv` | script.js:224-290 | A tick keeps the invariant: the snake stays distinct and on the board, and the food stays off the snake. Only an eating tick needs a free draw |
| `Rules.PrependDistinct` | script.js:260 | Prepending a free on-board head keeps the snake distinct and on the board |
| `Rules.DropLastKeeps` | script.js:285 | Dropping the tail keeps the snake distinct and on the board |
| `SnakeGame.Game.GenerateFood` | script.js:293-315 | `generateFood` places the food on the first draw that is not a snake cell |
| `Food.FirstFreeIndex` | script.js:298-312 | The accepted draw is free, and every earlier draw was on the snake |
| `Food.FirstFreeIsPlacement` | script.js:298-314 | The placed food is one of the draws, on the board and off the snake |
| `Food.FreeCellExists` | script.js:298-312 | A snake shorter than the board's cell count leaves a free board cell, so the sampling only starves on a full board |
| `Food.Pigeonhole` | script.js:298-312 | More distinct cells than snake cells leave one cell off the snake |
| `Rules.Restart` | script.js:135-161 | The transition function of `restartGame`; `Rules.RestartRule` states its properties |
| `SnakeGame.Game.Restart` | script.js:135-161 | `restartGame` leaves the state `Rules.Restart` describes and keeps the invariant |
| `Rules.RestartRule` | script.js:135-161 | Restart resets the snake to `[(10,10)]`, both velocities to zero and the score to 0, and clears all three flags. It keeps the high score, places food off the snake and restores the invariant |
| `Rules.ToggleAI` | script.js:470-482 | The transition function of `toggleAIMode`; `Rules.ToggleAIRule` states its properties |
| `SnakeGame.Game.ToggleAIMode` | script.js:470-482 | `toggleAIMode` leaves the state `Rules.ToggleAI` describes and keeps the invariant |
| `Rules.ToggleAIRule` | script.js:470-482 | The autopilot flag flips. Switching it on in a game neither running nor over makes the autopilot's step, if any, both pending and current, and starts the game. In every other case only the flag changes. The invariant is kept |
| `Rules.Space` | script.js:193-201 | The transition function of the space-bar branch; `Rules.SpaceRule` states its properties |
| `SnakeGame.Game.PressSpace` | script.js:193-201 | The space bar leaves the state `Rules.Space` describes and keeps the invariant |
| `Rules.SpaceRule` | script.js:193-201 | On a finished game the space bar restarts: snake `[(10,10)]`, both velocities zero, score 0, all flags off, high score kept, food on the board off the snake. A running game only has its running flag cleared; any other only has it set. The invariant is kept |
| `Speed.SpeedLabel` | script.js:109-124 | The label `updateSpeedText` shows for an interval; `SpeedLabelBands` and `SpeedLabelMonotone` state its properties |
| `Speed.SpeedLabelBands` | script.js:109-124 | The labels cover the intervals below 70, 70-89, 90-109, 110-149 and 150 and above, each exactly |
| `Speed.SpeedLabelMonotone` | script.js:109-124 | A longer interval never gets a faster label |
| `Scenarios.FirstKeyLaunches` | script.js:206-221 | From the start position, right launches the game and the next tick moves the head to (11,10) at length 1 |
| `Scenarios.EatingGrows` | script.js:259-276 | Snake `[(5,5),(4,5)]` moving right onto food `(6,5)` becomes `[(6,5),(5,5),(4,5)]`. The score becomes 1 and the new food is off the snake |
| `Scenarios.WallEndsGame` | script.js:243-249 | A head at (0,5) moving left ends the game with the snake and score unchanged |
| `Scenarios.AutopilotTie` | script.js:497-521 | Head (10,10) and food (15,5): equal offsets, and the horizontal step (right) wins |
| `Scenarios.PausedKeysCanReverse` | script.js:206-221 | While paused, the keys up then left both pass the guard, and the next tick turns the snake into itself |

## Left out

- Rendering (`drawGame`, `roundRect`) and every DOM text update: presentation only.
- Sound effects (`Audio` objects and `play()`): fire-and-forget output whose failures are swallowed.
- `localStorage`. The high score read at load time is a constructor argument. Writing it back is not modelled, and neither is the string-to-number coercion of the stored value.
- Timers (`setInterval` / `clearInterval`) and `updateSpeed`, which restarts the timer with a new interval. Only the `gameRunning` flag is modelled. `Tick` is the callback and accepts any state, although the page fires it only while running.
- `Math.random`. Food placement takes the sequence of cells the random source would produce, each on the board.
- SnakeGame.Game.GenerateFood: requires some draw to be free. The page's loop never ends when no free cell exists, which `Food.FreeCellExists` confines to a full board.
- SnakeGame.Game.Tick: when the tick eats, requires the draws to supply a cell off the grown snake, for the same reason. Other ticks need nothing from the draws. `Rules.Tick`, `Rules.TickPreservesInv`, `Rules.TickGrowth` and `Rules.AutopilotAvoidsCrash` carry the same requirement.
- `parseInt` of the slider value: the interval is an integer argument of `Speed.SpeedLabel`.
- Key names other than the space bar, and the touch buttons. These all call `changeDirection` with one of the four unit steps, which `ChangeDirection` requires.
- `initGame`: event-listener wiring.
- `tileCount`: the page computes it as the canvas width divided by 20, and the canvas is not part of this model. It is taken as an integer greater than 10, so that the start cell (10,10) is on the board.
