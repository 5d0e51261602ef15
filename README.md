# Corridor puzzle demo: the interaction core in Dafny

The demo (`game.js`) shows a corridor with three glowing marker cubes. The
player moves with the w/a/s/d keys. On every animation frame a collision
check runs. When the player comes within 1.5 units of a marker, the marker
is solved, removed from the list of active markers, and an alert is shown.

This project models that interaction core:

- `game.dfy`, module `Game`:
  - the value types: `Vec3`, the alert `Message` (`Quiet | AllSolved | Solved(n)`) and the session state `World`;
  - the specification functions `FirstNear`, `Remove`, `Announce`, `Step`, `Moved` and `Run`;
  - the class `Session`. It holds the module-level `puzzles` array (a `seq`), the `solved` counter and the player's position. Its methods `CreatePuzzle`, `SolvePuzzle`, `CheckCollision` and `HandleKeyDown` update these fields in place, as the source does. Each method is proved against the specification functions. `CheckCollision` is an indexed scan whose loop invariant says that no earlier marker is near.
- `properties.dfy`, module `GameProperties`: the lemmas. They cover one collision check, arbitrary runs of key presses and frames, and the movement keys.

Positions are exact reals. The source tests `distanceTo(...) < 1.5`. The model
tests the squared distance against 2.25, and `DistanceTest` shows that the two
tests agree for every non-negative root.

## How the alerts are chosen

"All solved" is not tied to the number of markers created, and the number in
an alert is not the marker's creation position:

- `solvePuzzle` runs BEFORE `splice`. It compares the incremented counter with the current length of the array, and that array still holds the marker being solved (game.js:66-67, 79-80).
- The number in the alert is the marker's index in the current, already shrunk array, plus one (game.js:70).

So from the start state, the three solves show "Puzzle n solved" (for some n from 1 to 3), then "all solved" on the SECOND solve, then "Puzzle 1 solved" on the third. This is proved for every run in `InitialRun`, and for standing on each marker in turn in `ThreeSolvesFromInitial`. `AllSolvedOnlyWhen` gives the general rule. With `total` markers created, "all solved" appears exactly when `2 * solved + 1 == total` before the check. With an even number of markers it never appears.

Two more points about how the code runs:

- Key presses move the player at once, inside the key handler. They are not buffered until the next tick.
- The check takes the first near marker in array order, not the closest one.

## Model

| member | source | states |
|---|---|---|
| `Game.Session.constructor` | game.js:41-47 | start state: empty array and zero counter, player at (0, 1.5, 8), then the markers (-2, -15), (2, -30), (0, -45) appended in that order; equals `Initial()` |
| `Game.Initial` | game.js:41-47 | the start state has three markers, all at height 0.5, no solves, the player at height 1.5 |
| `Game.Session.CreatePuzzle` | game.js:53-60 | appends a marker at (x, 0.5, z) to the end of the array; counter and player unchanged; the created-markers invariant is kept |
| `Game.Session.SolvePuzzle` | game.js:62-72 | the counter rises by exactly one; the alert is "all solved" exactly when the new counter equals the current array length, otherwise "Puzzle index+1 solved" |
| `Game.Session.CheckCollision` | game.js:74-84 | the message and new state are exactly `Step` of the old state; keeps solved plus active markers equal to the number of created markers |
| `Game.Session.HandleKeyDown` | game.js:94-110 | the new position is `Moved(old position, key)`; only the player changes |
| `Game.FirstNear` | game.js:75-78 | the in-order scan finds nothing exactly when no marker is near; otherwise it finds an index of a near marker with no near marker before it |
| `Game.Remove` | game.js:80 | `splice(i, 1)`: one element fewer, the elements before i unchanged, the ones after shifted down by one, the multiset loses exactly the removed marker |
| `Game.DistSq` | game.js:77 | the squared distance is never negative and bounds the square of the x and of the z offset |
| `Game.Near` | game.js:77-78 | a player on a marker is near it; a near marker is less than 1.5 away along x and along z |
| `Game.Announce` | game.js:67-71 | the alert after a solve is never empty; it is "all solved" exactly when the counter equals the length before removal; otherwise it carries index+1 |
| `Game.Step` | game.js:74-84 | one check never moves the player and keeps solved plus active markers; it is silent exactly when it changes nothing, and exactly when the in-order scan finds no near marker |
| `Game.Moved` | game.js:94-110 | a key press never changes y and changes at most one of x and z; keys other than w/s/a/d (after lower-casing) leave the position alone |
| `Game.Run` | game.js:86-92 | a run of key presses and frames shows at most one alert per event, and never an empty one |
| `Game.Lower` | game.js:96 | lower-casing keeps the length and maps every character through ASCII lower-casing |
| `GameProperties.DistanceTest` | game.js:77-78 | for any non-negative d with d*d equal to the squared distance, `d < 1.5` holds exactly when `Near` does |
| `GameProperties.NearOnGround` | game.js:57 | with the player at height 1.5 and a marker at 0.5, proximity is dx² + dz² < 1.25 |
| `GameProperties.StepNoMatchIsNoOp` | game.js:74-84 | a check leaves the state unchanged and shows nothing exactly when no marker is within 1.5; so it is a no-op once the array is empty |
| `GameProperties.StepResolvesFirstNear` | game.js:75-81 | when marker i is the first near one: only index i is removed (others keep their order), the counter rises by one, the alert compares against the length before removal and otherwise carries i+1 |
| `GameProperties.StepAtFront` | game.js:75-81 | a near marker at index 0 is the one resolved, and the alert is "Puzzle 1 solved" unless the counter equals the length |
| `GameProperties.StepConserves` | game.js:66-80 | one check removes at most one marker and raises the counter by at most one, keeping their sum; it never moves the player or adds markers; it shows an alert exactly when it solves |
| `GameProperties.AllSolvedOnlyWhen` | game.js:66-71 | with `total` markers created, "all solved" appears exactly when a marker is resolved and `2 * solved + 1 == total` |
| `GameProperties.LastMarkerNotAllSolved` | game.js:66-71 | solving the last remaining marker after an earlier solve shows "Puzzle 1 solved", not "all solved" |
| `GameProperties.ThreeSolvesFromInitial` | game.js:45-84 | standing on the three markers in turn from the start gives Solved(1), AllSolved, Solved(1) and leaves three solved and no markers |
| `GameProperties.RunConserves` | game.js:86-110 | over any run of frames and key presses, solved + active stays constant, the counter never decreases, one alert is shown per solve, the player keeps its height, and no marker is added |
| `GameProperties.RunAlerts` | game.js:62-84 | the k-th alert of a run is never empty; it is "all solved" exactly when `2 * (solved + k) + 1 == total`; otherwise its number lies between 1 and the markers left at that point |
| `GameProperties.InitialRun` | game.js:41-110 | from the start, any run solves at most 3 markers; the alerts are Solved(n) with 1 ≤ n ≤ 3, then AllSolved, then Solved(1); the player and the markers keep their heights |
| `GameProperties.RunWhenAllGone` | game.js:74-84 | once no marker is left, any run shows no alert and only moves the player |
| `GameProperties.RunAppend` | game.js:86-92 | running two event lists in sequence equals running their concatenation |
| `GameProperties.MovedIgnoresCase` | game.js:96 | keys are matched after lower-casing, so "W" moves like "w" |
| `GameProperties.MovedStaysOnPlane` | game.js:94-110 | a key press never changes y; it moves by exactly 0.3 along x or z, or not at all; it is a no-op exactly for keys other than w/s/a/d |
| `GameProperties.MovedUndo` | game.js:97-108 | "s" undoes "w" and "d" undoes "a", in either order |
| `GameProperties.WalkDisplacement` | game.js:94-110 | after any sequence of key presses, x has moved by 0.3 times (#d - #a) and z by 0.3 times (#s - #w); y is unchanged |
| `GameProperties.RunPresses` | game.js:94-110 | key presses alone show no alert and change only the player's position |
| `GameProperties.WalkFromStart` | game.js:41 | seven "a" and seventy-three "w" presses take the player from (0, 1.5, 8) to (-2.1, 1.5, -13.9) |
| `GameProperties.WalkToFirstMarker` | game.js:74-84 | that walk followed by one frame shows exactly "Puzzle 1 solved", leaves one solve and removes the first marker |

## Left out

- three.js scene, renderer, camera, lights, path mesh and OrbitControls (game.js:1-37, 87-88, 90): these are calls into an external rendering library with no logic of the demo's own.
- The material colour changes in `solvePuzzle` (game.js:64-65): they are cosmetic. The marker is removed from the array right afterwards, so a "solved" flag would never be observed.
- `alert` (game.js:68, 70) is I/O. It is modelled as the returned `Message`.
- `requestAnimationFrame` and the `resize` listener (game.js:86-92, 113-118) are browser plumbing. One animation frame is one `CheckCollision` call, the `Frame` event of `Run`.
- Floating point: `distanceTo` and the repeated `+= 0.3` are IEEE-754 doubles in the source. The model uses exact reals, and float rounding along a walk is not modelled.
- Game.Lower: only ASCII A-Z are lower-cased. JavaScript's `toLowerCase` also maps other Unicode letters; this is not modelled.
- The keyboard event object is reduced to its `key` string.
- Game.Session.SolvePuzzle: it does not promise the solved-plus-active invariant. As in the source, the counter is raised before the marker is spliced out, so the invariant holds again only at the end of `CheckCollision`.
