# Space Shooter game state machine

A Dafny model of the game logic of the Space Shooter firmware
(`Space_Shooter_game/src/main.cpp`). The firmware's `loop()` runs
once per call. It first averages five readings from each of two ultrasonic
distance sensors and pauses unless one average lies strictly between 0 and
10 cm. It then stops for good once the game is over, printing the final score
once. Otherwise it polls four timers against `millis()`, and each one that is
due runs its part of the game, in this order:

- ship (5 ms): track the potentiometer's lane one step at a time;
- bullet (100 ms): move the single bullet up and test for a hit;
- asteroid (500 ms): fire on the active-low button, drop the asteroid, take
  a life on a landing within one lane of the ship, refresh the three LEDs,
  end the game at zero lives;
- display (100 ms): print the ASCII frame.

The project has these modules:

- `Sensors` (sensors.dfy): the averaging of the distance readings and the
  presence test.
- `Rules` (rules.dfy): the game variables as a value, `GameState`, and each
  timed block of `loop` as a function of it. It also holds the invariant `Inv`
  of the globals and the per-tick lemmas.
- `Render` (render.dfy): `drawGame` as the function `Frame`, which returns
  the lines of the frame.
- `Decimal` (decimal.dfy): how an `int` is printed, with its parser as
  partner.
- `Scheduler` (scheduler.dfy): one call of `loop` as the function `Step`, runs
  of many calls as `Run`, and the lemmas about them: timer gates, invariant,
  monotone score, sticky game over, the final message printed once.
- `Machine` (machine.dfy): the class `Game`. Its fields are the firmware's
  globals. `Loop` and its block methods update those fields in place, the way
  the firmware does. Each method is proved to produce exactly the state of the
  matching `Rules`/`Scheduler` function.
- `Scenarios` (scenarios.dfy): concrete runs. An asteroid lands on the ship. A
  bullet climbs to an asteroid. The last life ends the game.

Hardware reads are parameters of `Loop`: the five raw distance readings
per sensor, `millis()`, the 12-bit `analogRead` value, the button level, and
the two `random(0, SCREEN_WIDTH)` lanes (for the respawn after a hit and
for the respawn at the bottom). `unsigned long` time is modelled exactly:
elapsed time is `(now - last) mod 2^32`, and timestamps lie in
`[0, 2^32)`.

Details of the code the model keeps:
- The ship's target lane is `potValue * 19 / 4095` truncated, not rounded.
- A bullet that leaves row 0 goes to `bulletY = -1`. That value is the
  "no bullet" sentinel, so such a bullet is no longer in flight and does not
  block firing.
- The asteroid's landing is tested when its row reaches 9. It is drawn on rows
  0..8 and is never drawn on row 9.
- The game ends when `lives <= 0`. The invariant shows that this is exactly
  `lives == 0`.

## Model

| member | source | states |
|---|---|---|
| Sensors.Average | Space_Shooter_game/src/main.cpp:56-64 | the stable distance is the truncated mean of the five readings: `d*5 <= sum < (d+1)*5` |
| Sensors.StableRead | Space_Shooter_game/src/main.cpp:56-64 | the summing loop returns exactly `Average` of the readings |
| Sensors.DetectPresence | Space_Shooter_game/src/main.cpp:66-71 | present iff one sensor's average lies strictly between 0 and 10 |
| Sensors.AverageBounds | Space_Shooter_game/src/main.cpp:56-64 | if every reading lies in [lo, hi], the average does too |
| Sensors.TimeoutsMeanAbsent | Space_Shooter_game/src/main.cpp:66-71 | two sensors that only time out (all readings 0) detect nobody |
| Sensors.FarReadingsMeanAbsent | Space_Shooter_game/src/main.cpp:66-71 | readings all at 10 cm or more detect nobody |
| Sensors.NearReadingsMeanPresent | Space_Shooter_game/src/main.cpp:66-71 | one sensor with all five readings in (0, 10) is enough for presence |
| Rules.Elapsed | Space_Shooter_game/src/main.cpp:143-146 | unsigned 32-bit elapsed time: `now - last` when no wrap, `now + 2^32 - last` after a wrap |
| Rules.ShipTarget | Space_Shooter_game/src/main.cpp:148-149 | the pot value maps to a lane in [0,19], the truncated quotient of `pot*19/4095`; 0 maps to 0 and 4095 to 19 |
| Rules.StepToward | Space_Shooter_game/src/main.cpp:150-151 | the ship moves at most one lane, stays only when on target, and never overshoots |
| Rules.LedsFor | Space_Shooter_game/src/main.cpp:74-78 | thermometer LEDs: green implies yellow implies red, and the number lit is lives clamped to [0,3] |
| Rules.InitialInv | Space_Shooter_game/src/main.cpp:28-42 | the power-on values of the globals satisfy the invariant |
| Rules.ShipTick | Space_Shooter_game/src/main.cpp:145-152 | not due: nothing changes; due: only the ship timer, target and position change, the target is `ShipTarget(pot)`, and the position tracks it |
| Rules.BulletTick | Space_Shooter_game/src/main.cpp:154-169 | not due: nothing changes; no bullet: only the timer; hit iff same lane and asteroid on the row left or the row entered: +10 score, asteroid to (lane, 0), bullet gone; otherwise the bullet rises one row |
| Rules.AsteroidTickEffects | Space_Shooter_game/src/main.cpp:171-188 | the properties of the function `Rules.AsteroidTick`: firing only with the button low and no bullet; the asteroid drops a row or respawns at (lane, 0); a life is lost iff it lands within one lane of the ship; LEDs show the lives; game over iff lives <= 0 |
| Rules.ShipTickKeepsInv | Space_Shooter_game/src/main.cpp:145-152 | a ship tick keeps the ship and target lanes in [0,19] |
| Rules.BulletTickKeepsInv | Space_Shooter_game/src/main.cpp:154-169 | a bullet tick keeps bulletY in [-1,8], the asteroid on the field and the score a non-negative multiple of 10 |
| Rules.AsteroidTickKeepsInv | Space_Shooter_game/src/main.cpp:171-188 | an asteroid tick of a running game keeps asteroidY in [0,8], lives in [0,3], game over iff lives == 0 |
| Render.Cells | Space_Shooter_game/src/main.cpp:84-96 | a play row has 20 cells; `*` exactly at the asteroid, `^` exactly at the bullet where the asteroid is not, blank elsewhere |
| Render.ShipCells | Space_Shooter_game/src/main.cpp:98-102 | the ship row has 20 cells with `W` exactly at the ship's lane |
| Render.Frame | Space_Shooter_game/src/main.cpp:80-110 | 29 lines: 16 blank, border, 9 boxed play rows, boxed ship row, border, status line; all but the last 22 wide |
| Render.NoInactiveBulletDrawn | Space_Shooter_game/src/main.cpp:84-96 | a bullet with `bulletY < 0` is never drawn |
| Render.StatusLineRoundTrip | Space_Shooter_game/src/main.cpp:105-109 | the numbers in the status line read back as the lives and the score |
| Decimal.IntToStringRoundTrip | Space_Shooter_game/src/main.cpp:105-108 | a printed `int` parses back to itself |
| Decimal.IntToStringInjective | Space_Shooter_game/src/main.cpp:105-108 | different values print differently |
| Scheduler.FinalMessage | Space_Shooter_game/src/main.cpp:137 | the final message is a blank line followed by a line starting `GAME OVER - Final Score: ` |
| Scheduler.FinalMessageRoundTrip | Space_Shooter_game/src/main.cpp:137 | the number after that prefix reads back as the score |
| Scheduler.Step | Space_Shooter_game/src/main.cpp:129-195 | no player: state unchanged, pause output; game over: only the printed flag is set, and the final message appears iff it was not yet printed; otherwise the result of the function `Scheduler.Ticks`: ship, bullet, asteroid and display ticks in that order, whose effects `TimerGates`, `QuietTimersChangeNothing`, `FiringNeedsButton` and `StepKeepsInv` state |
| Scheduler.TimerGates | Space_Shooter_game/src/main.cpp:143-195 | each timer becomes `now` iff its gate is due and is unchanged otherwise; a frame of the final state is printed iff the display gate is due |
| Scheduler.QuietTimersChangeNothing | Space_Shooter_game/src/main.cpp:145-188 | without its timer the ship stays; without the bullet and asteroid timers bullet, asteroid, lives, score, LEDs and game over stay |
| Scheduler.FiringNeedsButton | Space_Shooter_game/src/main.cpp:171-177 | a bullet appears only in a due asteroid tick with the button low, on row 8 in the ship's current lane |
| Scheduler.StepKeepsInv | Space_Shooter_game/src/main.cpp:129-195 | every call keeps the invariant: lanes in [0,19], bulletY in [-1,8], asteroidY in [0,8], lives in [0,3] |
| Scheduler.StepProgresses | Space_Shooter_game/src/main.cpp:129-195 | score never falls; lives never rise and fall by at most one; game over and printed are never cleared |
| Scheduler.GameOverExactlyAtZeroLives | Space_Shooter_game/src/main.cpp:178-187 | a call ends the game iff the lives reach 0, and only through a due asteroid tick |
| Scheduler.RunKeepsInv | Space_Shooter_game/src/main.cpp:129-195 | over any sequence of calls: invariant kept, score monotone, lives non-increasing, game over sticky |
| Scheduler.ReachableStatesAreValid | Space_Shooter_game/src/main.cpp:28-42 | every state reached by a run that starts from the power-on state `Initial` satisfies the invariant |
| Scheduler.GameOverIsFrozen | Space_Shooter_game/src/main.cpp:135-141 | after game over, any run changes only the printed flag, and the final message is output exactly once if unprinted and someone is present |
| Scheduler.AbsentRunChangesNothing | Space_Shooter_game/src/main.cpp:130-133 | calls with nobody present change nothing and only output the pause notice |
| Machine.Game.constructor | Space_Shooter_game/src/main.cpp:28-42 | the globals start at their initial values, which satisfy the invariant |
| Machine.Game.UpdateLeds | Space_Shooter_game/src/main.cpp:74-78 | writes the thermometer levels for the current lives |
| Machine.Game.UpdateShip | Space_Shooter_game/src/main.cpp:145-152 | the in-place ship block computes exactly `ShipTick` |
| Machine.Game.UpdateBullet | Space_Shooter_game/src/main.cpp:154-169 | the in-place bullet block computes exactly `BulletTick` |
| Machine.Game.FireIfPressed | Space_Shooter_game/src/main.cpp:174-177 | fires in place exactly as `Fire` |
| Machine.Game.MoveAsteroid | Space_Shooter_game/src/main.cpp:178-185 | drops, collides and respawns in place exactly as `Descend` |
| Machine.Game.UpdateAsteroid | Space_Shooter_game/src/main.cpp:171-188 | the in-place asteroid block computes exactly `AsteroidTick` |
| Machine.Game.DrawGame | Space_Shooter_game/src/main.cpp:80-110 | the nested loops emit exactly the lines of `Frame` |
| Machine.Game.UpdateDisplay | Space_Shooter_game/src/main.cpp:190-194 | when due, records the time and outputs the frame; otherwise nothing |
| Machine.Game.Loop | Space_Shooter_game/src/main.cpp:129-195 | one call keeps the invariant and leaves exactly the state and output of `Step` |
| Scenarios.AsteroidLandsOnShip | Space_Shooter_game/src/main.cpp:178-186 | an asteroid landing in the ship's lane costs one life, respawns on top, LEDs show two lives |
| Scenarios.BulletClimbsToAsteroid | Space_Shooter_game/src/main.cpp:157-167 | a bullet from row 8 hits an asteroid on row 3 at the fifth tick, not earlier |
| Scenarios.HitOnStartingRow | Space_Shooter_game/src/main.cpp:160-162 | a bullet that starts its tick on the asteroid's row also hits |
| Scenarios.LastLifeEndsGame | Space_Shooter_game/src/main.cpp:135-141 | losing the last life ends the game; the final message comes once, then nothing changes |

## Left out

- `readUltrasonic` (trigger pulse, `pulseIn` with its 30 ms timeout, the floating-point `duration * 0.034 / 2`): each reading is an abstract non-negative integer, and 0 stands for a timeout.
- `setup` and the pin constants: serial and pin initialisation and the boot banner. Because nothing drives the LED pins before the first asteroid tick, the model starts them unlit.
- `delay`, `delayMicroseconds`, `millis`, `analogRead`, `digitalRead`, `digitalWrite`, `random`: hardware and library calls. They are parameters of `Loop`, or the `leds` field for the LED outputs.
- The serial channel itself: the model produces the printed text as lines without their `\r\n`/`\n` terminators. It leaves out the wording of the pause notice.
- Rules.BulletTick: the score is an unbounded integer. The firmware's 32-bit `int` would overflow after 214,748,364 hits, which is undefined behaviour in C++, and the model does not capture it.
- Rules.ShipTarget: requires the pot value to be in [0, 4095], the range of the 12-bit `analogRead`. The Arduino `map` for values outside it is not modelled.
