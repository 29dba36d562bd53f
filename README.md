# hello-bevy: movement state machine and sprite frame advancer

This project models the first-party logic of a 2D sprite-movement demo
built on the Bevy engine. It covers the player's four-state movement
state machine (`move_hello`), the sprite-sheet frame advancer it drives
(`animate_sprite`), and the initial configuration spawned by `setup`. All
three live in `src/main.rs`.

- `movement.dfy` (module `Movement`) models one frame's keyboard snapshot.
  It is a set of held keys and a set of keys released this frame.
  A and ArrowLeft both count as the left key; D and ArrowRight both count
  as the right key. `NextState` is the transition `move_hello` makes.
- `animation.dfy` (module `Animation`) models the frame advancer's
  arithmetic on the atlas index. It has the sheet constants (16 frames,
  left-strip offset 8, idle frames 2 and 10), the walk step, the index
  after one frame, and lemmas about repeated fired ticks.
- `systems.dfy` (module `Systems`) models the player entity as a class.
  Its `state` and `index` are updated in place. `Setup` builds the
  spawned configuration. `MoveHello` and `AnimateTick` are the two
  systems applied to it. `AnimateSprite` is the loop over the query.
  `Player.Valid()` says that the atlas index names a frame of the
  16-frame sheet. `Setup` establishes it and every method preserves it.
  So any interleaving of `move_hello` and `animate_sprite` frames starting
  from setup keeps the index on the sheet. The engine does not fix the
  order of these two Update systems, so this matters.

## Model

| member | source | states |
|---|---|---|
| Movement.NextState | src/main.rs:125-142 | The full transition table, read by outcome. The new state is Left exactly when a left key is held. It is Right exactly when a right key is held and no left key is. It is IdleLeft exactly when no movement key is held and a left key was just released. It is IdleRight exactly when nothing is held, no left release happened and a right key was just released. With no movement key held or released, the state is unchanged. So idle states are entered only through a release. |
| Movement.MovementKeysOnly | src/main.rs:129-138 | The snapshot restricted to A, D, ArrowLeft and ArrowRight, which are the only keys the state machine polls. Each of these four keys is held or released in the result exactly when it is in the input. The result holds no other key. |
| Movement.OtherKeysIgnored | src/main.rs:129-138 | Keys other than A, D, ArrowLeft and ArrowRight never change the transition. |
| Movement.NextStateIdempotent | src/main.rs:125-142 | Applying the same key snapshot a second time leaves the state where the first application put it. |
| Animation.WalkStep | src/main.rs:111-117 | The step rule. An index in [offset, last+offset) moves on by exactly one. An index at or past last+offset, or below offset, restarts at first+offset. The result is never below the strip offset. When first <= last, it never passes last+offset. |
| Animation.AnimatedIndex | src/main.rs:104-117 | If the timer did not fire, the index is unchanged. On a fired tick, IdleRight gives exactly frame 2 and IdleLeft exactly frame 10. A walking state takes exactly one WalkStep in the window for its offset, which is 8 for Left and 0 for Right. The result is at least the offset and, when first <= last, at most last+offset. An index on the 16-frame sheet stays on it whenever the window shifted by 8 fits the sheet. |
| Animation.WalkTicksAdvance | src/main.rs:113-116 | Inside the window, n fired ticks that stop at or before last+offset advance the index by exactly n. |
| Animation.WalkTicksSplit | src/main.rs:103-118 | a+b consecutive walking ticks are a ticks followed by b ticks. |
| Animation.WalkCycleReturns | src/main.rs:113-117 | From any frame in [first+offset, last+offset], last-first+1 fired ticks in the same walking state return to that frame. In particular, starting from first+offset the cycle comes back to first+offset. |
| Animation.WalkCyclePeriodic | src/main.rs:113-117 | Any whole number of walk cycles returns an in-window frame to itself. |
| Animation.TurnRestartsCycle | src/main.rs:111-114 | A walking state whose index still lies in the other direction's strip jumps to the first frame of its own window on the next fired tick. This covers switching between Left and Right. |
| Systems.Player.Setup | src/main.rs:150-167 | The spawned player has indices first 0 and last 7, atlas index 2 and state IdleRight. The index is on the 16-frame sheet. |
| Systems.Player.MoveHello | src/main.rs:125-142 | The state becomes NextState of the old state and the keys. The atlas index is untouched. The on-sheet invariant holds. |
| Systems.Player.AnimateTick | src/main.rs:104-118 | The atlas index becomes AnimatedIndex of the current state, the indices and the old index. The on-sheet invariant holds. |
| Systems.AnimateSprite | src/main.rs:94-123 | Every entity in the query gets its own AnimatedIndex, using its own timer's expiry. No entity's state changes. Every entity keeps the on-sheet invariant. |

## Left out

- Bevy wiring is not modelled: `main`, the plugin `MovingCirvlePlugin`, system registration and the commented-out alternatives (src/main.rs:7-24). This is engine configuration.
- The `f32` position updates are not modelled. This covers `move_circle`'s ±5.0 steps, `move_hello`'s `translation.x` ±4.0, `draw_base_line`, and the centring arithmetic of `spawn_camera` and `spawn_player`. Floating point is outside this model.
- Rendering, asset loading, the texture-atlas layout construction, gizmo drawing, camera spawning and cursor hiding are engine calls with no first-party logic. The layout contributes only the constant of 16 frames.
- Bevy's `Timer` is not modelled. Its `tick` with the frame's `Duration` and its `just_finished` (0.1 s, repeating) become one `fired` flag per entity per frame. Bevy's `ButtonInput` becomes the two key sets of `Keys`.
- The `println!` of the new index (src/main.rs:120) is console output.
- The panics of `single_mut` and `get_single().unwrap()` when there is not exactly one player are not modelled. `MoveHello` acts on the one `Player` object it is called on.
- `usize` overflow is not modelled. The model's integers are unbounded. Under `Player.Valid()` every index and every sum it forms stays below 16, so no overflow can happen there.
