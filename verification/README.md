# Pong match state, in Dafny

A model of the game logic of a two-player Pong written with pygame (PONGAPP). It covers:

- the match object `PongGame` and its per-frame `update`: bonus spawning, bonus collection, the effect registry, paddle speeds, ball-speed escalation, paddle and ball movement, scoring, win detection and round reset;
- the single reusable power-up `Bonus`: spawn, expiry, collection, the collected-effect timer, and the blink counter and remaining-time arithmetic of its `draw`;
- the helpers `reset_ball` and `format_time`;
- the settings module: the selectable size tables, their getters, and the screen-size cursor with its next/previous wrap-around.

The millisecond clock, the held keys and the random draws (`random.choice`, `random.randint`) are parameters. A `requires` clause limits each draw to the values the random module can return. Python integers are unbounded, like Dafny's `int`. Floor division `//` and `%` with a positive divisor agree with Dafny's `/` and `%`. The only float arithmetic in the core is:

- `SPEEDUP_FACTOR`, modelled as one and a half times the speed truncated toward zero (`Game.SpeedUp`);
- the paddle-speed factors, modelled as the exact integers 27 and 9 that they produce.

Modules:

| module | models |
|---|---|
| `Constants` | PONGAPP/constants.py |
| `Geometry` | the parts of `pygame.Rect` the core uses |
| `Settings` | PONGAPP/settings.py |
| `Utils` | PONGAPP/utils.py |
| `Effects` | the `active_effects` registry and the paddle-speed rules of PONGAPP/game.py |
| `Bonus` | PONGAPP/bonus.py |
| `Game` | class `PongGame` of PONGAPP/game.py |

`Game.PongGame.Valid` is the invariant every frame keeps:

- the registry holds exactly its six keys;
- each player holds at most one effect;
- both paddle speeds are among 15, 27 and 9;
- scores are non-negative;
- a decided match is no longer running.

Three behaviours of the code are worth knowing, and the model keeps each of them:

- **Speed precedence.** The slow rule (game.py lines 188-196) runs after the boost rule (lines 166-174) and overwrites it. So a boosted player who is being slowed by the opponent moves at the slow speed (`Effects.SlowBeatsBoost`).
- **Spawn bands.** The x bands of a spawn are computed from the nominal width 1000 (`BONUS_LEFT_ZONE` = 333, `BONUS_RIGHT_ZONE` = 666). Only the right band's upper end uses the real screen width.
  - On the 600x300 screen, the right band is [666, 550], which is empty, so `random.randint` raises ValueError (`Bonus.SpawnBandsByScreen`).
  - `Bonus.Bonus.Spawn` reports it as `raised`, after the type, the colour and possibly x have been replaced. `Game.PongGame.Update` then stops the frame: the game's own fields are untouched and the bonus keeps those partial updates.
- **Spawn call.** `update` (game.py line 134) calls `spawn()` without the `screen` argument that bonus.py line 70 requires. The model passes the game's width and height, the dimensions of the screen the game opens at game.py line 58.

## Model

| member | source | states |
|---|---|---|
| Geometry.Rect.Translated | PONGAPP/game.py:221-222 | `x += dx` and `y += dy`: the rectangle moves by (dx, dy) and keeps its width and height |
| Geometry.Rect.WithLeft | PONGAPP/game.py:229 | setting `left` puts the left edge at the value and keeps y and the size |
| Geometry.Rect.WithRight | PONGAPP/game.py:234 | setting `right` puts the right edge at the value and keeps y and the size |
| Settings.NextIndex | PONGAPP/settings.py:45 | the next screen index is always a valid index; it is i+1 below the last entry and wraps from the last entry to 0 |
| Settings.PreviousIndex | PONGAPP/settings.py:51 | the previous screen index is always a valid index; it is i-1 above 0 and wraps from 0 to the last entry (Python `%` is non-negative) |
| Settings.PreviousUndoesNext | PONGAPP/settings.py:42-51 | stepping back after stepping forward, or forward after back, restores any valid index |
| Settings.NextCycles | PONGAPP/settings.py:45 | three forward steps through the three-entry table return to the starting index |
| Settings.CurrentPaddleHeight | PONGAPP/settings.py:14-16 | the selected paddle height is the size of the table entry at the current index, 100 by default |
| Settings.CurrentPaddleName | PONGAPP/settings.py:19-21 | the selected paddle name is that entry's name, "Moyen" by default |
| Settings.CurrentBallSize | PONGAPP/settings.py:61-63 | the selected ball size is that entry's size, 15 by default |
| Settings.CurrentBallName | PONGAPP/settings.py:65-67 | the selected ball name is that entry's name, "Moyenne" by default |
| Settings.SettingsState.constructor | PONGAPP/settings.py:29 | the default selection is 800x400, labelled "800x400" |
| Settings.SettingsState.CurrentScreenSize | PONGAPP/settings.py:32-34 | returns the width and height of the selected entry |
| Settings.SettingsState.CurrentScreenSizeLabel | PONGAPP/settings.py:37-39 | returns the label of the selected entry |
| Settings.SettingsState.NextScreenSize | PONGAPP/settings.py:42-45 | moves the cursor to NextIndex and keeps it inside the table |
| Settings.SettingsState.PreviousScreenSize | PONGAPP/settings.py:48-51 | moves the cursor to PreviousIndex and keeps it inside the table |
| Utils.NatToString | PONGAPP/utils.py:50 | the decimal form of a natural number is a non-empty string of digits with no leading zero, one digit exactly below 10 |
| Utils.NatToStringReadsBack | PONGAPP/utils.py:50 | reading the digits back gives the number |
| Utils.IntToStringReadsBack | PONGAPP/utils.py:50 | the minutes field, with its sign, reads back as the number it renders |
| Utils.TwoDigits | PONGAPP/utils.py:50 | `{:02d}` of a number below 100 is exactly two digits denoting that number |
| Utils.TimeParts | PONGAPP/utils.py:47-49 | seconds lie in [0, 59] and minutes*60 + seconds == milliseconds // 1000 |
| Utils.FormatTime | PONGAPP/utils.py:36-50 | the result ends with ':' and two digits denoting the seconds part |
| Utils.FormatTimeReadsBack | PONGAPP/utils.py:47-50 | reading back the minutes before ':' and the two digits after it gives minutes*60 + seconds == milliseconds // 1000 with seconds < 60 |
| Utils.FormatTimeExample | PONGAPP/utils.py:50 | 65000 ms is shown as "1:05" |
| Utils.ResetBall | PONGAPP/utils.py:15-33 | a square ball of the selected size centred on the field; each speed component is ±5 (never 0) with the drawn sign; the speed-up timer starts at `now` |
| Effects.EffectKind.Name | PONGAPP/bonus.py:62-64 | the effect names of the catalog; none ends with '_' |
| Effects.InitialRegistry | PONGAPP/game.py:85-92 | the registry starts with exactly the six effect/player keys, all false |
| Effects.RegistryKeyInjective | PONGAPP/game.py:85-92 | distinct (effect, player) pairs have distinct registry keys |
| Effects.KeyEndsWithPlayer | PONGAPP/game.py:141-143 | a key's last character is its player's letter, so `endswith(player)` selects exactly that player's keys |
| Effects.Granted | PONGAPP/game.py:139-144 | granting a key adds it if missing, keeps every other key, and makes the granted key true |
| Effects.GrantRegistryKey | PONGAPP/game.py:139-144 | granting (effect, player) turns that entry on and the player's other two off, leaves the opponent's three unchanged, and keeps the six-key set |
| Effects.GrantKeepsExclusive | PONGAPP/game.py:139-144 | after a grant each player still holds at most one effect, and the granted player holds exactly one |
| Effects.PaddleSpeedFor | PONGAPP/game.py:158-196 | a paddle's speed is 9 iff the opponent holds slow; 27 iff it is not slowed and holds boost; 15 iff neither; it depends only on the registry |
| Effects.SlowBeatsBoost | PONGAPP/game.py:166-196 | a boosted player who is also slowed by the opponent moves at 9 |
| Effects.Cleared | PONGAPP/game.py:263-264 | clearing keeps every key and switches every entry off |
| Effects.ClearedIsInitial | PONGAPP/game.py:262-264 | clearing a six-key registry gives the initial registry, with both paddles at speed 15 |
| Effects.AsWrittenKeyNotRegistered | PONGAPP/bonus.py:158 | the key that `check_collision` builds ("increase_speeda") is none of the six registry keys |
| Effects.GrantAsWritten | PONGAPP/game.py:139-144 | on any registry holding the six keys, granting the as-written key adds that key and turns none of the six entries on: the collector's entries go off and the opponent's stay |
| Effects.AsWrittenNeverGrants | PONGAPP/game.py:139-144 | from a registry with every effect off, any sequence of as-written grants leaves every effect off and both paddles at speed 15 |
| Effects.CollectingFastAtStart | PONGAPP/bonus.py:158 | player A collecting FAST at match start keeps speed 15 with the as-written key, and gets 27 with the registry key |
| Bonus.SpawnBandsByScreen | PONGAPP/bonus.py:80-85 | the right x band is empty on a 600-wide screen; both x bands and the y band are non-empty on the 800x400 screen; the y band is non-empty on both |
| Bonus.RemainingSeconds | PONGAPP/bonus.py:122 | `max(0, duration - elapsed) // 1000` is never negative, is at most duration // 1000 for non-negative elapsed time, and is 0 once the duration has passed |
| Bonus.Bonus.constructor | PONGAPP/bonus.py:52-67 | a new bonus is inactive, untyped, white, a 2*radius square at the origin, visible, with zero timers |
| Bonus.Bonus.Spawn | PONGAPP/bonus.py:70-89 | on an active bonus nothing changes. Otherwise the drawn catalog type and its colour are taken. When both bands are usable, the bonus becomes active and visible at the drawn point inside the spawn zone, with spawn time `now` and the blink counter at 0. When a band is empty, ValueError is reported and the bonus stays inactive. `collected_time` is always kept, and the outcome with all the new fields equals `Spawned` of the old ones |
| Bonus.Bonus.Update | PONGAPP/bonus.py:92-99 | the bonus is deactivated exactly when it is active and more than `duration` has passed since spawning; it is never activated |
| Bonus.Bonus.Draw | PONGAPP/bonus.py:102-140 | while active, each call advances the blink counter by one and flips visibility exactly when the counter reaches a multiple of 20. The marker time is shown iff active and visible; the banner time iff `IsActive(now)`. Both are the remaining whole seconds, the banner's in [0, duration // 1000] |
| Bonus.Bonus.CheckCollision | PONGAPP/bonus.py:143-159 | it returns an effect iff the bonus is active and overlaps the paddle. In that case the bonus is deactivated, `collected_time` becomes `now` and the collector's registry key is returned; otherwise nothing changes. A second call in a row therefore returns nothing |
| Bonus.Bonus.IsActive | PONGAPP/bonus.py:162-173 | false while nothing was collected; otherwise true iff less than `duration` has passed since collection |
| Game.SpeedUp | PONGAPP/game.py:148-151 | `int(v * 1.5)` keeps the sign, never shrinks the magnitude, and its magnitude is 1.5 times the old one truncated |
| Game.SpeedUpExamples | PONGAPP/game.py:149-150 | 5 becomes 7, -5 becomes -7, 7 becomes 10 |
| Game.MovedPaddle | PONGAPP/game.py:206-213 | a paddle moves only vertically, by at most its speed; with only up held it moves up iff top > 0; with only down held it moves down iff bottom < height - 1 (a zero speed aside); with any keys, a net move up needs the up key and top > 0, and a net move down needs the down key and bottom < height - 1; x, width and height never change |
| Game.PaddleStaysInReach | PONGAPP/game.py:206-213 | moving never takes a paddle more than one boosted step beyond either edge |
| Game.Bounce | PONGAPP/game.py:221-236 | the ball is translated by its velocity. Touching the top or bottom wall negates vy. Overlapping paddle A snaps its left edge to A's right edge; overlapping B snaps its right edge to B's left edge; each overlap negates vx. No overlap leaves it translated. The magnitudes of vx and vy never change |
| Game.LeftExitOutcome | PONGAPP/game.py:238-244 | with the ball's left edge at most 0, B scores once, A's score is kept, the round is reset, and B wins and the match stops exactly when the new score is WIN_SCORE; otherwise nothing changes |
| Game.RightExitOutcome | PONGAPP/game.py:246-252 | with the ball's right edge at least the width, A scores once, B's score is kept, the round is reset, and A wins and the match stops exactly when the new score is WIN_SCORE; otherwise nothing changes |
| Game.MoveBallOutcome | PONGAPP/game.py:216-252 | after the bounce, a left exit adds one to B only, and a right exit (tested on the ball as it is after a left reset) adds one to A only. Without an exit the bounced ball is kept and nothing else changes. An exit resets the round: kick-off, every effect off, paddle heights restored, speeds kept. The winner is set and running stops exactly when an incremented score equals WIN_SCORE |
| Game.FrameKeepsConsistent | PONGAPP/game.py:137-155 | a frame keeps the registry six-keyed with at most one effect per player, both speeds among 15, 27 and 9, the scores non-negative and a decided match stopped |
| Game.FrameScoring | PONGAPP/game.py:137-155 | in a frame each player scores at most once, and the winner changes only to a player whose score has just reached WIN_SCORE |
| Game.FrameWithoutScore | PONGAPP/game.py:137-155 | in a frame without a score the whole new state is determined: the registry holds the collected effect; both speeds are the ones it determines; each paddle made its guarded move at that speed; the ball made its bounced move at the velocity escalated iff due; scores and outcome are kept |
| Game.FrameKeepsPaddlesInReach | PONGAPP/game.py:199-213 | a frame without a score keeps both paddles within one boosted step of the field's edges |
| Game.AfterCollection | PONGAPP/bonus.py:155-157 | a collected bonus leaves the field with `collected_time` = `now`; every other field is kept, and nothing changes without a collection |
| Game.UpdateStepOutcome | PONGAPP/game.py:121-155 | one frame of `update`, field by field. The spawn is due iff no bonus is active and more than the interval has passed. ValueError is raised iff it is due and a band is empty; then the match is untouched and the bonus keeps the type, colour and x already assigned. A successful spawn places a fresh bonus at the drawn point, with the blink counter at 0, visible, and the stamp at `now`. Without ValueError the match makes its `Frame` with the effect collected from the spawned bonus, and that bonus leaves the field, stamped `now`, exactly when a paddle collected it |
| Game.NoSpawnWhileActive | PONGAPP/game.py:133 | while a bonus is on the field, a frame never spawns: the stamp and the bonus's type, place and spawn time are kept |
| Game.PongGame.constructor | PONGAPP/game.py:54-94 | paddles centred at their margins, a kicked-off ball, zero scores, no winner, running, every effect off, both paddle speeds 15, no bonus on the field |
| Game.PongGame.Update | PONGAPP/game.py:121-155 | keeps the invariant; the match, the whole bonus and the spawn stamp afterwards, and whether ValueError was raised, are `UpdateStep` of the state before (spelled out field by field in `UpdateStepOutcome`); on ValueError the game's own fields are unchanged |
| Game.PongGame.PlayFrame | PONGAPP/game.py:137-155 | keeps the invariant. The new state is `Frame` of the old one, granting what paddle A, or else paddle B, collects from the bonus. The bonus becomes `AfterCollection` of itself: a collected bonus leaves the field with its collection time stamped, and otherwise the bonus is unchanged |
| Game.PongGame.BonusAndEscalation | PONGAPP/game.py:137-151 | the effect returned is the collector's registry key exactly when the bonus was on the field and overlapped paddle A, or else paddle B. The registry grants it, both speeds follow the registry, the ball escalates iff due, and nothing else changes. The bonus becomes `AfterCollection` of itself: it leaves the field with `collected_time` = `now` exactly on a collection |
| Game.PongGame.SpawnBonusIfDue | PONGAPP/game.py:133-135 | a due spawn (no bonus active, more than the interval passed) is `Bonus.Spawned` of the bonus: it takes the drawn catalog type and colour and keeps `collected_time`. On success it places the bonus at the drawn point in the spawn zone, with spawn time `now`, blink counter 0 and visible, and restarts the interval. On ValueError it leaves the bonus inactive, with its timers, visibility and y kept, and keeps the stamp. A spawn that is not due changes nothing; the game's own fields never change |
| Game.PongGame.CollectBonus | PONGAPP/game.py:137-144 | paddle A is tested first, and B only when A missed, so at most one player collects. The collected key is granted in the registry; the bonus becomes `AfterCollection` of itself (it leaves the field with `collected_time` = `now` exactly on a collection); with no collection the registry and the bonus are unchanged |
| Game.PongGame.GrantEffect | PONGAPP/game.py:139-144 | the loop over the keys leaves the registry equal to `Granted` of the old registry |
| Game.PongGame.ApplyBonusEffects | PONGAPP/game.py:158-196 | the sequential boost-then-slow assignments leave each paddle's speed equal to `PaddleSpeedFor` |
| Game.PongGame.SpeedUpBallIfDue | PONGAPP/game.py:148-151 | when more than SPEEDUP_INTERVAL has passed (strictly), both components are sped up and the stamp becomes `now`; otherwise nothing changes |
| Game.PongGame.MovePaddles | PONGAPP/game.py:199-213 | each paddle ends where `MovedPaddle` puts it at its own speed and keys; nothing else changes |
| Game.PongGame.MoveBall | PONGAPP/game.py:216-252 | keeps the invariant; the three in-place steps leave the state equal to `BallMoved` of the old one, whose meaning `MoveBallOutcome` states |
| Game.PongGame.BounceBall | PONGAPP/game.py:221-236 | the ball and its velocity become `Bounce` of the old ones |
| Game.PongGame.ScoreLeftExit | PONGAPP/game.py:238-244 | the state becomes `LeftExit` of the old one (see `LeftExitOutcome`) |
| Game.PongGame.ScoreRightExit | PONGAPP/game.py:246-252 | the state becomes `RightExit` of the old one (see `RightExitOutcome`) |
| Game.PongGame.ResetGame | PONGAPP/game.py:255-266 | a fresh kick-off from `reset_ball`; the loop switches every effect off, giving the initial registry; both paddles get the selected paddle height, keeping their position; scores, outcome and speeds are kept |

## Left out

- Rendering and audio: `draw`, `show_winner`, the drawing parts of `Bonus.draw`, the fonts, the sounds and the banner placement test `endswith('a')` at bonus.py line 137, which affects only where text is drawn.
- The run loop (game.py lines 97-118): event polling, the pause flag, `start_time`, and the `bonus.update()` call after each frame. `Bonus.Bonus.Update` models that call on its own.
- Timing plumbing: `clock.tick(FPS)` and `pygame.time.delay(700)` in `reset_game`. A round reset is an immediate state change.
- Clock readings: every `pygame.time.get_ticks()` taken during one frame is the same parameter `now`. This covers bonus.py lines 87, 98, 122, 130, 157 and 171, and utils.py line 31.
- The `label` parameter and `original_paddle_height` field of `PongGame`, which the core never reads.
- The size effect: it is commented out at game.py lines 177-185, so `SIZE_BOOST` is unused. Granting `increase_size` only clears the player's other effects.
- The menus, `main` and the sound loader (menu.py, main.py, sounds.py). main.py line 76 builds `PongGame()` without the four arguments its constructor takes. The model uses the parameterised constructor.
- Game.PongGame.SpawnBonusIfDue: passes the game's own width and height, where game.py line 134 passes no screen at all (which would raise TypeError).
- Bonus.Bonus.CheckCollision: returns the registry key `effect + "_" + player` rather than the as-written `effect + player`. The as-written key is modelled separately; see Findings.
- Game.Bounce: the contract does not state the outcome when the ball overlaps paddle A and, after being snapped, paddle B too. The body applies both snaps in source order.
- Geometry.Rect.Collides: pygame also says a rectangle of zero width or height never collides. Every rectangle in the game has a positive size, so strict overlap is used.

## Findings

| source | as written | input that shows it | evidently intended | confidence | as-written member | corrected member |
|---|---|---|---|---|---|---|
| PONGAPP/bonus.py:158 | `check_collision` returns `self.type['effect'] + player`, e.g. "increase_speeda". The registry keys (game.py lines 85-92) are "increase_speed_a" etc. So game.py line 140 adds a seventh key, and lines 142-144 switch the collector's real entries off. No collected bonus ever changes a paddle's speed (`Effects.AsWrittenNeverGrants`) | Player A's paddle touches a FAST bonus at match start: A keeps speed 15 instead of 27 | return the registry key "increase_speed_a", so that the effect is granted | high, not executed | Effects.GrantAsWritten | Effects.GrantRegistryKey |
