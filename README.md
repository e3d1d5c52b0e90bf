# Kingdom in Dispute: battle engine and pixel avatar, in Dafny

This project models two pieces of the Kingdom in Dispute Telegram mini-game.

**The battle** (`src/components/BattleGame.jsx`). Two combatants, the local
player (index 0) and the computer (index 1), take turns. On each turn the
attacker does one of two things:

- With less than 10 energy, it recovers 15 energy (capped at 50) and passes
  the turn.
- Otherwise it hits. The base damage is 5..24. A critical hit does
  floor(1.5 × base). The hit is added to the attacker's stats. The defender's
  health drops, but not below 0. The attacker pays 10 energy.

A defender left at 0 health ends the match, and the attacker is the winner.
Otherwise the turn passes to the other combatant and the round counter
advances. Around the turns sits a three-phase screen flow: world selection,
playing, victory. On the victory screen "Rematch" keeps the world and
"Choose New World" clears it.

The model has three parts:

- `battle.dfy` (module `Battle`) holds the rules as values. A `Match` is one
  snapshot of the component's state, and each handler is a function on it.
- `battle_game.dfy` (module `BattleGame`) holds the component as a class. The
  combatants are objects that `Attack` changes in place. Every method is
  proved to produce the state that the matching `Battle` function computes.
- `match_flow.dfy` (module `MatchFlow`) holds the screen flow. It says which
  action each screen offers and proves an invariant for every state reachable
  from the first render.

The random draws are inputs to a turn: the base roll and a critical flag.

The selected world is only a tag. It is chosen when a match starts and kept
on rematch, and no turn reads it. The power descriptions in `WORLDS` (heal,
double damage, halved damage, extra energy, stronger criticals) are text that
the screens show; `attack()` applies none of them, and neither does the
model. `powerActivations` is reset with every match and never incremented.

**The avatar** (`src/utils/pixelAvatar.js`). `generatePixelAvatar` turns a user
name into a 100×100 SVG image, as follows:

- The seed is the sum of the name's UTF-16 code units.
- The main hue is `seed % 360`. The background hue is 40 degrees further round.
- A 5×5 grid is mirror-symmetric. Square (i, j), for j < 3, is drawn when
  `(seed * (i*5 + j + 1)) % 100 > 50`. This is the source's
  `random(n) > 0.5`, written exactly in integers.
- The body has one 20×20 `rect` per drawn square.

`pixel_avatar.dfy` (module `PixelAvatar`) models the seed, hues and
serialisation as functions. The grid is built by a method with the source's
nested loops.

`wrappers.dfy` holds the `Option` type used for JavaScript's null and undefined.

## Model

| member | source | states |
|---|---|---|
| `Battle.Other` | src/components/BattleGame.jsx:64 | `(currentTurn + 1) % 2` names the other combatant, never the attacker itself |
| `Battle.InitialPlayerState` | src/components/BattleGame.jsx:11-28 | the player (named by the prop, "Player" when it is undefined) and "Computer" both start at 100 health, 50 energy and zero stats |
| `Battle.Initial` | src/components/BattleGame.jsx:31-38 | the first render shows world selection with no world, the initial roster, turn 0, an empty log, no winner, round 1 |
| `Battle.ResetGame` | src/components/BattleGame.jsx:40-47 | after a reset the roster is fresh, the turn is 0, the log is empty, there is no winner and the round is 1; phase and world are untouched |
| `Battle.StartNewGame` | src/components/BattleGame.jsx:49-53 | starting a game gives a fresh start in the playing phase with the given world |
| `Battle.ReturnToWorldSelection` | src/components/BattleGame.jsx:55-59 | returning to the world list gives a fresh start in the selection phase with no world |
| `Battle.FinalDamage` | src/components/BattleGame.jsx:77-79 | a hit deals 5..36 and never less than the base roll; a normal hit deals the base, a critical one floor(1.5 × base), stated as `2d <= 3b < 2d + 2` |
| `Battle.CountHit` | src/components/BattleGame.jsx:82-84 | counting a hit adds exactly one attack and the hit's damage, adds a critical hit exactly when the hit was critical, and lowers no counter |
| `Battle.Attack` | src/components/BattleGame.jsx:61-104 | a turn keeps world, power counters and identities; keeps health in [0,100] and energy in [0,50]; never lowers a stat; never raises a health; adds one log entry at the front; either advances turn and round, or leaves both and declares the attacker winner with the defender at 0 |
| `Battle.RecoveryTurn` | src/components/BattleGame.jsx:66-74 | below 10 energy the attacker's energy becomes min(50, energy + 15); nothing else of either combatant changes; turn flips; round + 1; phase and winner unchanged |
| `Battle.HitTurn` | src/components/BattleGame.jsx:76-101 | on a hit: attacksMade + 1, damageDealt + damage, criticalHits + 1 exactly when critical; attacker energy − 10 and still ≥ 0; defender health max(0, health − damage); victory, with no turn or round advance, exactly when that health is 0 |
| `Battle.WorldNotConsulted` | src/components/BattleGame.jsx:61-104 | changing the selected world changes nothing else about a turn's outcome |
| `MatchFlow.InitialConsistent` | src/components/BattleGame.jsx:31-38 | the first render satisfies the match invariant |
| `MatchFlow.FreshStartConsistent` | src/components/BattleGame.jsx:40-59 | a fresh start, outside the victory phase and with a world exactly when playing, satisfies the invariant |
| `MatchFlow.OfferedActions` | src/components/BattleGame.jsx:106-243 | the world list offers only its world buttons; the battle screen only "Home" and a turn (attack button on turn 0, timer on turn 1); the victory screen only "Rematch" and "Choose New World" |
| `MatchFlow.Step` | src/components/BattleGame.jsx:106-243 | an action the current screen does not offer changes nothing; a world button starts playing in that world, "Rematch" in the same world, "Home" and "Choose New World" return to the world list with none, each from a fresh start; a turn is exactly `Battle.Attack` with its rolls, so it keeps the world and adds one log entry |
| `MatchFlow.VictoryChoices` | src/components/BattleGame.jsx:155-167 | on the victory screen "Rematch" restarts with the same world and "Choose New World" restarts in selection with none |
| `MatchFlow.RecoveryConsistent` | src/components/BattleGame.jsx:67-73 | a recovery turn while playing keeps the invariant |
| `MatchFlow.ClampedHealth` | src/components/BattleGame.jsx:83-87 | clamping at 0 after a hit keeps health equal to max(0, 100 − total damage taken) |
| `MatchFlow.HitConsistent` | src/components/BattleGame.jsx:76-101 | a hit while playing keeps the invariant, including the winner's opponent at 0 health and the winner above 0 |
| `MatchFlow.CountHitConsistent` | src/components/BattleGame.jsx:77-84 | after counting a hit of a legal roll, critical hits stay at most the attacks made and the damage stays within 5..36 per attack |
| `MatchFlow.AttackConsistent` | src/components/BattleGame.jsx:61-104 | any turn while playing keeps the invariant |
| `MatchFlow.StepConsistent` | src/components/BattleGame.jsx:106-243 | every action a screen or the computer's timer offers keeps the invariant |
| `MatchFlow.RunConsistent` | src/components/BattleGame.jsx:106-243 | any sequence of such actions keeps the invariant |
| `MatchFlow.ReachableConsistent` | src/components/BattleGame.jsx:11-104 | in every reachable state: health in [0,100] and energy in [0,50]; each side's health is max(0, 100 − the other's damageDealt); each side's criticalHits ≤ attacksMade and 5·attacks ≤ damage ≤ 36·attacks; a winner exists exactly in victory, its opponent is at 0 and it is not; the round is the number of log entries plus 1, or equal to it after the winning turn; power counters stay 0 |
| `MatchFlow.ConsistentIsBounded` | src/components/BattleGame.jsx:87-88 | the invariant bounds both combatants' health and energy |
| `MatchFlow.TurnsOnlyGrowStats` | src/components/BattleGame.jsx:82-88 | over any run of turns inside one match, no stat of either side decreases and no health increases |
| `BattleGame.Combatant.constructor` | src/components/BattleGame.jsx:12-19 | a new combatant record has 100 health, 50 energy and zero stats |
| `BattleGame.Game.InitialPlayers` | src/components/BattleGame.jsx:11-28 | getInitialPlayerState makes two new, distinct combatant objects holding the initial roster |
| `BattleGame.Game.constructor` | src/components/BattleGame.jsx:30-38 | the component's initial state is `Battle.Initial` |
| `BattleGame.Game.ResetGame` | src/components/BattleGame.jsx:40-47 | resetGame leaves exactly the state `Battle.ResetGame` computes, with new combatant objects |
| `BattleGame.Game.StartNewGame` | src/components/BattleGame.jsx:49-53 | startNewGame leaves exactly the state `Battle.StartNewGame` computes |
| `BattleGame.Game.ReturnToWorldSelection` | src/components/BattleGame.jsx:55-59 | returnToWorldSelection leaves exactly the state `Battle.ReturnToWorldSelection` computes |
| `BattleGame.Game.Attack` | src/components/BattleGame.jsx:61-104 | attack, changing the combatant objects in place, leaves exactly the state `Battle.Attack` computes, with the same two objects |
| `BattleGame.Game.RecoverEnergy` | src/components/BattleGame.jsx:66-74 | the energy-recovery phase changes only the attacker's energy, the log, the turn and the round, as `Battle.Attack` says |
| `BattleGame.Game.Strike` | src/components/BattleGame.jsx:76-103 | the attack phase changes stats, health, energy, log and either winner and phase or turn and round, as `Battle.Attack` says |
| `BattleGame.SameRoster` | src/components/BattleGame.jsx:62-64 | the attacker and defender objects, at indices `currentTurn` and the other, are the whole roster |
| `PixelAvatar.Seed` | src/utils/pixelAvatar.js:4 | the seed is a natural at most 0xFFFF times the name's length |
| `PixelAvatar.SeedConcat` | src/utils/pixelAvatar.js:4 | the seed of two joined names is the sum of their seeds |
| `PixelAvatar.SeedRemove` | src/utils/pixelAvatar.js:4 | removing one code unit lowers the seed by exactly that code unit |
| `PixelAvatar.SeedPermutation` | src/utils/pixelAvatar.js:4 | names with the same code units in any order have the same seed |
| `PixelAvatar.SameSeedSameAvatar` | src/utils/pixelAvatar.js:4-38 | two names whose code units have the same sum get the identical SVG text: the seed is all the output depends on |
| `PixelAvatar.AnagramsShareAvatar` | src/utils/pixelAvatar.js:4 | names with the same code units in any order get the identical SVG text |
| `PixelAvatar.Hue` | src/utils/pixelAvatar.js:7 | the main hue is in [0,360) and congruent to the seed modulo 360 |
| `PixelAvatar.SecondaryHue` | src/utils/pixelAvatar.js:9 | the background hue is in [0,360) and exactly 40 degrees past the main hue modulo 360 |
| `PixelAvatar.RandomPercent` | src/utils/pixelAvatar.js:13 | `random(n)` scaled by 100 is an integer in [0,100) |
| `PixelAvatar.Grid` | src/utils/pixelAvatar.js:16-26 | the grid has 5 rows of 5 cells; every row reads the same reversed; cell (i,j) for j < 3 is drawn exactly when `(seed*(i*5+j+1)) % 100 > 50` |
| `PixelAvatar.GeneratePixelAvatar` | src/utils/pixelAvatar.js:2-39 | the nested loops build exactly that grid, and the returned text is `AvatarSvg` of the name |
| `PixelAvatar.Decimal` | src/utils/pixelAvatar.js:31 | a number interpolated into a template is a non-empty string of decimal digits that reads back as the number; it starts with '0' only when the number is 0, and then it is exactly "0" |
| `PixelAvatar.AvatarSvg` | src/utils/pixelAvatar.js:35-38 | the output starts with the fixed 100×100 `svg` tag and a full-size background `rect` in the secondary colour |
| `PixelAvatar.JoinConcat` | src/utils/pixelAvatar.js:32-33 | `join('')` of two lists joined is the two joins concatenated |
| `PixelAvatar.RowSvgIsRects` | src/utils/pixelAvatar.js:30-32 | a row's markup is one rect per drawn cell, left to right; undrawn cells add nothing |
| `PixelAvatar.BodySvgIsRects` | src/utils/pixelAvatar.js:29-33 | the body is one rect per drawn square in row-major order, at x = 20·column, y = 20·row |
| `PixelAvatar.RowCellsExact` | src/utils/pixelAvatar.js:30-32 | a row's drawn positions are exactly its true cells, each once, left to right |
| `PixelAvatar.TrueCellsExact` | src/utils/pixelAvatar.js:29-33 | the drawn positions of a grid are exactly its true cells, each once, in row-major order |
| `PixelAvatar.AvatarDrawsFilledSquares` | src/utils/pixelAvatar.js:29-38 | the avatar is the header, the background, and exactly one main-colour rect per drawn square of the grid, in row-major order |

## Left out

- Rendering: the JSX screens, Tailwind classes, health-bar colours and the power icons (src/components/BattleGame.jsx:114-307). Only the actions each screen offers are modelled, in `MatchFlow.Enabled`.
- The computer's timer (src/components/BattleGame.jsx:106-112). It is scheduling. The computer's turn is one more `Turn` action, offered only while playing, as the effect's guard allows.
- `Math.random`. The base roll (5..24) and the critical flag are inputs. Their distribution (uniform, 20% critical) is not modelled.
- Log text and emoji. A log entry keeps the data its message is built from: the attacker's name, the damage, and whether the hit was critical.
- React's state machinery. The setters of one handler take effect together when it returns. The previous `players` array shares its combatant objects with the new one; that sharing is not modelled.
- `selectedWorld` holds a whole `WORLDS` entry in the source; the model keeps only its tag. The world powers have no effect in the source, so none are modelled.
- `winner` holds the attacker object in the source. The class keeps the object; the value model keeps its index.
- `attack()` does not check the phase; only its callers do. `Battle.Attack` has no phase precondition either. The invariants are proved over the actions the screens offer.
- Battle.Attack: states that health never increases only for a combatant whose health is not negative, because the clamp at 0 would raise a negative health; every reachable state has non-negative health (`MatchFlow.ReachableConsistent`).
- src/components/RankingSystem.jsx, src/components/PlayerDashboard.jsx, src/App.jsx, src/main.jsx and tailwind.config.js: static displays and environment start-up.
- Avatar numbers: JavaScript numbers are doubles. The model uses unbounded naturals. The two agree while `seed * 23` (the largest multiplier `random` uses) stays below 2^53, which holds for any name shorter than about 5.9 × 10^9 code units.
- Avatar input: converting a JavaScript string to its UTF-16 code units is not modelled; the name is given as that sequence.
