# Player movement of the arcade game

A model of the player's grid movement in a Frogger-style browser game. A `Player`
starts on the bottom-left cell `(0, 380)`. Each arrow key moves it by one cell:
100 pixels horizontally, 85 vertically. The position is then clamped to the board,
`x` to `[0, 400]` and `y` to `[-45, 380]`. When the unclamped `y` goes above the top
row, the game logs a win message.

- `board.dfy` (module `Board`) holds the pure specification. It has the constants,
  the `Move` and `Pos` datatypes, the step of a move (`Step`), the clamp (`Clamp`),
  and one key press as a function (`Apply`). It also has the win condition (`Wins`),
  runs of several key presses (`Run`), and the lemmas about them.
- `app.dfy` (module `App`) holds the `Player` class. It has the fields `x` and `y`, its
  constructor, and `HandleInput`, which updates the fields in place with the same
  chain of `if` statements as the source. It also holds the key-code table
  `AllowedKeys`, its lookup `KeyMove`, and `KeyUp`, the dispatch of a key code to
  the player.

The `console.log("win")` side effect is modelled as the boolean that `HandleInput`
returns. JavaScript numbers are modelled as `int`: every position the code computes
is a small integer sum, which a double holds exactly.

## Model

| member | source | states |
|---|---|---|
| `App.Player.constructor` | js/app.js:38-47 | a new player stands at (0, 380), which is in bounds and on the grid |
| `App.Player.HandleInput` | js/app.js:62-87 | the new position is the step of the move followed by the clamps (`Board.Apply` of the old position); the returned win flag holds exactly when the stepped y is below -45; the new position is in bounds, and stays on the grid if it started there |
| `Board.Clamp` | js/app.js:74-84 | the result is in bounds; an in-range coordinate is kept; a coordinate below or above its range becomes that range's nearest bound |
| `Board.Step` | js/app.js:63-73 | only "no move" leaves the position as it is; right/left change only x, by +100/-100, and up/down change only y, by -85/+85, before any clamping |
| `Board.Apply` | js/app.js:62-86 | from any starting position one key press ends with `0 <= x <= 400` and `-45 <= y <= 380`, and when the step lands in bounds no clamp changes it |
| `Board.OneAxis` | js/app.js:63-84 | from an in-bounds position, right/left change only x by +100/-100 (stopped at the wall), up/down change only y by -85/+85 (stopped at the wall) |
| `Board.NoMoveKeepsPosition` | js/app.js:65-84 | a value that is no direction only clamps; it leaves the position unchanged exactly when the position is in bounds |
| `Board.AgainstWall` | js/app.js:74-84 | left at x=0, right at x=400, down at y=380 and up at y=-45 leave the position unchanged |
| `Board.Opposite` | js/app.js:65-73 | right and left are paired with each other, up and down with each other, and "no move" with itself |
| `Board.OppositeInvolutive` | js/app.js:65-73 | pairing a move with its opposite twice gives the move back |
| `Board.OppositeUndoes` | js/app.js:65-73 | when neither press is clamped, the opposite move returns to the original position |
| `Board.ApplyOnGrid` | js/app.js:63-84 | a key press from a grid cell ends on a grid cell (x in {0,100,...,400}, y in {380,295,210,125,40,-45}) |
| `Board.Wins` | js/app.js:83-85 | the win signal needs an up press or a y already above the top row; when it fires, the clamp puts y on the top row -45; from an in-bounds position it fires exactly for an up press whose step passes -45 |
| `Board.WinCondition` | js/app.js:67-85 | on the grid, the win signal fires exactly for an up press from the top row y=-45 (so reaching -45 from 40 does not fire it), and it leaves the position unchanged |
| `Board.RunAppend` | js/app.js:62-87 | running two sequences of key presses one after the other equals running their concatenation |
| `Board.RunOnGrid` | js/app.js:63-84 | any sequence of key presses from a grid cell stays on the grid |
| `Board.RunRights` | js/app.js:65-66 | n right presses move n columns right when the right wall is not passed |
| `Board.RunUps` | js/app.js:67-68 | n up presses move n rows up when the top row is not passed |
| `Board.PathTo` | js/app.js:45-46 | every grid cell is reached from the start position by a sequence of key presses |
| `Board.ReachableIsGrid` | js/app.js:45-84 | the positions reachable from the start are exactly the 30 grid cells |
| `App.KeyMove` | js/app.js:98-105 | key 37 sends left, 38 up, 39 right, 40 down, and every other key code sends no move |
| `App.UnmappedKeyIsNoOp` | js/app.js:98-105 | a key code outside the table leaves an in-bounds player where it is |
| `App.KeyUp` | js/app.js:105 | a key release moves the player by the decoded direction and reports the win signal for it |

## Left out

- `Enemy` constructor and `Enemy.prototype.update` (js/app.js:2-26): floating-point time steps and `Math.random` speeds and lanes.
- `Enemy.prototype.render` and `Player.prototype.render` (js/app.js:29-31, 58-60): canvas drawing through `ctx.drawImage` and `Resources.get`, which are not part of this model.
- `Player.prototype.update` (js/app.js:51-55): its body is empty.
- The `document.addEventListener('keyup', ...)` registration (js/app.js:97): DOM event plumbing; only the key-code table and the call at line 105 are modelled, by `KeyMove` and `KeyUp`.
- `console.log("win")` (js/app.js:85): console output, modelled as the boolean `HandleInput` returns.
- The global `allEnemies` and `player` instances (js/app.js:92-93): setup only.
- The `sprite` field of `Player` (js/app.js:44): an image path used only for drawing.
- Non-direction values other than `undefined` (any string or value a caller might pass): all are modelled by the single move `None`, since the code treats them alike.
