# Flappy Bird simulation core in Dafny

A verified model of the per-frame simulation of a small libGDX side-scroller
and of its stack of game states:

- **Animation** (`animation.dfy`, module `Animations`): a sprite strip cut into
  `frameCount` equal frames, and a timer that moves to the next frame (wrapping
  to the first) once the time spent on the current one exceeds
  `cycleTime / frameCount`.
- **Bird** (`bird.dfy`, module `Birds`): the player. Each update adds gravity
  (-15) while above the ground, scales the velocity by `dt`, moves forward by
  `100 * dt` and vertically by the scaled velocity, clamps the height at 0,
  scales the velocity back by `1 / dt` and moves its box onto the new position.
  A jump sets the vertical velocity to 250.
- **Tube** (`tube.dfy`, module `Tubes`): an obstacle pair with a gap of 100
  whose top edge is drawn from [220, 349]; `Reposition` recycles the pair in
  place; `Collides` tests the player's box against both tubes.
- **GameStateManager** (`game_state_manager.dfy`, module `States`): a stack of
  states of which only the top is live; push, pop (dispose), set (dispose and
  replace), and update/render delegated to the top. The menu's "touch starts
  the game" transition is modelled on top of it.
- `geometry.dfy` (module `Geometry`): value types for the libGDX vectors,
  rectangles and textures the sprites use, the box-overlap test, and `Sum`,
  the total of a run of time steps.

Classes model the objects the original updates in place (`Animation`, `Bird`,
`Tube`, `State`, `GameStateManager`); `Animation`, `Bird` and `Tube` each have
a `Valid()` invariant their methods keep, while the methods of `State` and
`GameStateManager` state their whole new state directly. The vectors and rectangles the sprites own are held as values in
fields that the methods reassign. Pure functions (`Tick`/`Ticks`,
`Step`/`Flight`, `Slice`, `OpeningTop`) state what one call does on values, and
the lemmas about runs of calls are proved about them; each class method's
postcondition ties it to its function.

Engine handles are abstracted: a texture is its integer width and height; the
random draw `rand.nextInt(130)` is a parameter `r` with `0 <= r < 130`; sounds
are dropped; float coordinates and times are `real`.

Three behaviours of the code that its documentation comments leave implicit:

- A frame advances only when the accumulated time strictly exceeds
  `cycleTime / frameCount` (`Animation.java:53`), and the surplus is dropped
  when the timer restarts at 0 (`Animation.java:55`). A frame therefore lasts
  longer than its nominal share of the cycle, by more than nothing and by at
  most one update's `dt`; the model
  states the exact per-update behaviour (`Tick`, `SteadyAdvance`,
  `AccumulateWithinFrame`) rather than a timing tolerance.
- `set(s)` when `s` is already the top state disposes `s` and then pushes it
  again (`GameStateManager.java:55-58`). The model keeps that: `Set` promises
  that the disposed flag of `s` is left as it was only when `s` was not the
  previous top.
- The menu handles its input inside its own `update` (`MenuState.java:61-64`),
  so a `GameStateManager.update` that reaches a touched menu changes the stack:
  the menu receives `dt`, is disposed, and a new play state is on top, which
  the same frame's `render` then reaches.

## Model

| member | source | states |
|---|---|---|
| `Animations.FrameWidth` | core/src/com/andrejlohn/flappybird/sprites/Animation.java:34 | the frame width is the integer quotient: `frameCount` frames of it fit in the strip and one more would not |
| `Animations.Slice` | core/src/com/andrejlohn/flappybird/sprites/Animation.java:36-38 | the strip yields exactly `frameCount` frames, each at height offset 0 with the frame width and the strip's height |
| `Animations.SliceTilesStrip` | core/src/com/andrejlohn/flappybird/sprites/Animation.java:34-38 | exactly `frameCount` frames, frame 0 at offset 0, each of the frame width and the strip height, each starting where the previous ends, all inside the strip |
| `Animations.Animation.constructor` | core/src/com/andrejlohn/flappybird/sprites/Animation.java:32-43 | `frameCount` frames, frame `i` at `i * frameWidth`; `maxFrameTime = cycleTime / frameCount` (so `frameCount` of them make one cycle); frame 0; accumulator 0 |
| `Animations.Tick` | core/src/com/andrejlohn/flappybird/sprites/Animation.java:50-61 | one update keeps the frame in `[0, frameCount)`, moves it by at most one step (to `(frame + 1) mod frameCount`), and restarts the accumulator at 0 whenever it moves |
| `Animations.Animation.Update` | core/src/com/andrejlohn/flappybird/sprites/Animation.java:50-61 | the code's `frame++` then reset-at-`frameCount` equals `Tick`: past `maxFrameTime` the frame becomes `(frame + 1) mod frameCount` and the accumulator 0; otherwise the frame is unchanged and the accumulator grows by exactly `dt`; the invariant `0 <= frame < frameCount` is kept |
| `Animations.SteadyAdvance` | core/src/com/andrejlohn/flappybird/sprites/Animation.java:50-61 | with every step longer than a frame's time, `k` updates land on frame `(frame + k) mod frameCount`: frames are visited in order and wrap |
| `Animations.AccumulateWithinFrame` | core/src/com/andrejlohn/flappybird/sprites/Animation.java:51-53 | non-negative steps totalling no more than the frame's remaining time leave the frame unchanged and the accumulator equal to the running sum |
| `Animations.Animation.GetFrame` | core/src/com/andrejlohn/flappybird/sprites/Animation.java:69-71 | the current frame is in bounds: it starts at `frame * frameWidth`, has the frame width and strip height and lies inside the strip |
| `Tubes.OpeningTop` | core/src/com/andrejlohn/flappybird/sprites/Tube.java:49 | the top tube's height `nextInt(130) + 100 + 120` lies in `[220, 349]` |
| `Tubes.OpeningTopOnto` | core/src/com/andrejlohn/flappybird/sprites/Tube.java:24-26 | every height in `[220, 349]` comes from exactly one draw |
| `Tubes.Tube.constructor` | core/src/com/andrejlohn/flappybird/sprites/Tube.java:44-62 | both tubes at `x`; top at the drawn height; bottom at top minus 100 minus the bottom texture height; each box at its tube with its texture's size |
| `Tubes.Tube.Reposition` | core/src/com/andrejlohn/flappybird/sprites/Tube.java:71-77 | both tubes move to `x` with a new drawn height and the same gap rule; box origins follow the positions; box sizes and textures are unchanged |
| `Tubes.Tube.GapFloor` | core/src/com/andrejlohn/flappybird/sprites/Tube.java:50 | the bottom tube's upper edge lies exactly `TUBE_GAP` (100) below the top tube, within `[120, 249]` |
| `Tubes.Tube.Collides` | core/src/com/andrejlohn/flappybird/sprites/Tube.java:88-90 | the OR of the player box's overlap tests against the two tube boxes; a hit implies the box reaches into the tubes' column and out of the gap (below its floor or above its ceiling) |
| `Tubes.Tube.PassesThroughGap` | core/src/com/andrejlohn/flappybird/sprites/Tube.java:88-90 | a player box vertically inside the gap collides with neither tube |
| `Tubes.Tube.ClearOfColumn` | core/src/com/andrejlohn/flappybird/sprites/Tube.java:88-90 | a player box entirely left or right of the tubes' column does not collide |
| `Tubes.Tube.TallerThanGapCollides` | core/src/com/andrejlohn/flappybird/sprites/Tube.java:88-90 | a box taller than the gap that meets the column and the tubes' vertical extent collides with one of the two tubes |
| `Birds.ScaleUnscale` | core/src/com/andrejlohn/flappybird/sprites/Bird.java:74-81 | scaling by `dt` and then by `1 / dt` restores the velocity exactly (in reals) |
| `Birds.Step` | core/src/com/andrejlohn/flappybird/sprites/Bird.java:67-84 | one update: x advances by exactly `100 * dt`; the vertical velocity gains -15 exactly when the bird started above the ground; the height moves by the new vertical velocity times `dt` and is clamped at 0 |
| `Birds.FlightScrolls` | core/src/com/andrejlohn/flappybird/sprites/Bird.java:20-75 | over any run of updates the bird moves forward by `100` times the total time |
| `Birds.FlightFallsAndStaysAboveGround` | core/src/com/andrejlohn/flappybird/sprites/Bird.java:70-79 | without jumps the vertical velocity never increases, and after at least one update the bird is never below the ground |
| `Birds.AirborneVelocity` | core/src/com/andrejlohn/flappybird/sprites/Bird.java:70-72 | while every update starts above the ground, `k` updates lower the vertical velocity by exactly `15 * k` |
| `Birds.Bird.constructor` | core/src/com/andrejlohn/flappybird/sprites/Bird.java:45-52 | position `(x, y, 0)`, zero velocity, box `(x, y, width / 3, height)`, a three-frame animation over the whole texture with frame time `0.5 / 3` |
| `Birds.Bird.Update` | core/src/com/andrejlohn/flappybird/sprites/Bird.java:67-84 | needs `dt != 0`; the motion follows `Step`, the box moves onto the new position keeping its size, the animation advances by `Tick` |
| `Birds.Bird.Jump` | core/src/com/andrejlohn/flappybird/sprites/Bird.java:89-92 | the vertical velocity becomes 250 whatever it was; position, box and the rest of the velocity are unchanged |
| `Birds.Bird.GetTexture` | core/src/com/andrejlohn/flappybird/sprites/Bird.java:128-130 | the picture is the animation's current frame, as wide and as tall as the bird's box |
| `States.State.Update` | core/src/com/andrejlohn/flappybird/states/State.java:44 | the state's update hook receives `dt` (appended to its record); its disposed flag and render count are unchanged |
| `States.State.Render` | core/src/com/andrejlohn/flappybird/states/State.java:51 | the state's render hook is called once more; its disposed flag and updates are unchanged |
| `States.State.Dispose` | core/src/com/andrejlohn/flappybird/states/State.java:56 | the state is marked disposed; nothing else about it changes |
| `States.GameStateManager.constructor` | core/src/com/andrejlohn/flappybird/states/GameStateManager.java:24-26 | a new manager has an empty stack |
| `States.GameStateManager.Top` | core/src/com/andrejlohn/flappybird/states/GameStateManager.java:68 | `peek`: the state pushed last, a member of the stack; defined only on a non-empty stack |
| `States.GameStateManager.Push` | core/src/com/andrejlohn/flappybird/states/GameStateManager.java:34-36 | the stack grows by exactly `s` on top; the states below are unchanged and nothing is disposed |
| `States.GameStateManager.Pop` | core/src/com/andrejlohn/flappybird/states/GameStateManager.java:44-46 | needs a non-empty stack; removes exactly the top and disposes it; the rest of the stack and every other state's flag are unchanged |
| `States.GameStateManager.Set` | core/src/com/andrejlohn/flappybird/states/GameStateManager.java:55-58 | needs a non-empty stack; same depth, `s` on top, the previous top disposed, no state below disposed; the disposed flag of `s` is unchanged unless `s` was the previous top, which is then disposed |
| `States.GameStateManager.Update` | core/src/com/andrejlohn/flappybird/states/GameStateManager.java:67-69 | needs a non-empty stack; the top state receives `dt` and no other state receives an update or has its flag changed; if the top is a menu and the screen was touched, the menu is disposed and replaced by a new, undisposed play state, otherwise the stack is unchanged |
| `States.GameStateManager.Render` | core/src/com/andrejlohn/flappybird/states/GameStateManager.java:77-79 | needs a non-empty stack; the top state is rendered once; no other state is |
| `States.PushThenPop` | core/src/com/andrejlohn/flappybird/states/GameStateManager.java:34-46 | push then pop restores the stack and disposes only the pushed state, whose updates and renders are unchanged |
| `States.MenuHandleInput` | core/src/com/andrejlohn/flappybird/states/MenuState.java:49-53 | on a touch the menu on top is disposed and replaced by a new, undisposed play state; without one nothing changes |
| `States.MenuUpdate` | core/src/com/andrejlohn/flappybird/states/MenuState.java:61-64 | the menu receives `dt` and then handles input: on a touch it is disposed and a new play state is on top, otherwise the stack is unchanged |
| `States.StartGame` | core/src/com/andrejlohn/flappybird/FlappyDemo.java:49-63 | menu pushed, then a touch frame: the menu receives that frame's update and is disposed, the play state receives no update but that frame's render; the next frame's update and render reach the play state |

## Left out

- Birds.Bird.Update: requires `dt != 0`. In Java `1/dt` with `dt == 0` is float infinity, so the velocity becomes NaN rather than an exception; reals cannot express that case.
- Float rounding: all coordinates and times are reals, so the `scl(dt)` / `scl(1/dt)` cancellation is exact here and not bit-for-bit what the float code computes.
- `Rectangle.overlaps` is libGDX code and is not part of this model; `Geometry.Overlaps` takes it as strict axis-aligned intersection (boxes that only touch do not overlap), an assumption about its edge cases.
- `java.util.Random`: the draw is a parameter `r` with `0 <= r < 130`; the distribution of draws is not modelled.
- Sounds (`flap.play`, the sound handles), texture loading and the `dispose` methods of `Bird` and `Tube`, which only release engine resources.
- Aliasing: the getters `getPosTopTube`, `getPosBotTube`, `getTopTube`, `getBottomTube`, `getBounds`, `getPosition` return the live libGDX objects; here the fields are read directly and hold values, so a caller mutating a returned vector is not modelled.
- Animations.Animation.constructor: requires `frameCount >= 1`. With 0 the Java code throws at the integer division; with a negative count it builds no frames and `getFrame` later fails. The strip's width and height are kept as ghost fields, which the original does not store.
- States: what a play state does in its own `update`, `render` and `dispose` hooks, and what the menu's `render` and `dispose` draw and release, is not modelled; a state records the `dt` values and render calls it receives and a disposed flag. Only the menu's `update` (input handling) is modelled, with the touch poll as a parameter. The camera and mouse of `State`, the `SpriteBatch` argument of `render`, and the play and game-over states, whose code is not part of this model, are left out.
- States.GameStateManager.Pop: requires a non-empty stack, and so do `States.GameStateManager.Top`, `States.GameStateManager.Set`, `States.GameStateManager.Update` and `States.GameStateManager.Render`. On an empty stack `java.util.Stack.pop` and `peek` throw `EmptyStackException` (GameStateManager.java:45, 56, 68, 78); the model does not represent that exception.
- States.GameStateManager.Update: a play state's update is taken to leave the stack unchanged (it only receives `dt`). In the program the play state, whose code is not part of this model, replaces itself by the menu after the player loses; that return to the menu is outside the model.
- The manager does not forbid the same state object appearing twice in the stack, as `java.util.Stack` does not; the "others unchanged" postconditions speak of states other than the one disposed or updated.
- The application lifecycle, screen clearing, music and the desktop and Android launchers are framework configuration with no logic.
