/** The player entity and the two per-frame systems that update it in place
    (setup, move_hello and animate_sprite in src/main.rs). */
module Systems {
  import opened Movement
  import opened Animation

  /** The window of the right-facing walk cycle chosen at setup. */
  const SETUP_INDICES: AnimationIndices := AnimationIndices(0, 7)
  /** The atlas index the player is spawned with. */
  const SETUP_INDEX: nat := 2

  /** The entity spawned by setup: its immutable AnimationIndices, its
      MovementState and the index into its texture atlas. The animation
      timer is abstracted to whether it fired in the current frame. */
  class Player {
    const indices: AnimationIndices
    var state: MovementState
    var index: nat

    /** The atlas index names a frame of the sheet, and so will every index
        the frame advancer can produce from it. */
    ghost predicate Valid()
      reads this
    {
      FitsSheet(indices) && index < SHEET_FRAMES
    }

    /** The initial configuration spawned by setup. */
    constructor Setup()
      ensures Valid()
      ensures indices == SETUP_INDICES && index == SETUP_INDEX && state == IdleRight
    {
      indices := SETUP_INDICES;
      index := SETUP_INDEX;
      state := IdleRight;
    }

    /** move_hello for the single player: overwrite the state from this
        frame's keys; the sprite is not touched. */
    method MoveHello(keys: Keys)
      requires Valid()
      modifies this`state
      ensures Valid()
      ensures state == NextState(old(state), keys)
      ensures index == old(index)
    {
      if LeftHeld(keys) {
        state := Left;
      } else if RightHeld(keys) {
        state := Right;
      } else {
        if LeftReleased(keys) {
          state := IdleLeft;
        } else if RightReleased(keys) {
          state := IdleRight;
        }
      }
    }

    /** The body of animate_sprite for this entity: when its timer fired,
        pin the idle frame or step the walk cycle. */
    method AnimateTick(fired: bool)
      requires Valid()
      modifies this`index
      ensures Valid()
      ensures index == AnimatedIndex(state, indices, old(index), fired)
    {
      if fired {
        if state == IdleRight {
          index := IDLE_RIGHT_FRAME;
        } else if state == IdleLeft {
          index := IDLE_LEFT_FRAME;
        } else {
          var offset := if state == Left then LEFT_OFFSET else RIGHT_OFFSET;
          index := if index >= indices.last + offset || index < offset then indices.first + offset else index + 1;
        }
      }
    }
  }

  /** animate_sprite: every entity matched by the query advances its own
      atlas index according to its own timer; states are left alone. */
  method AnimateSprite(query: seq<Player>, fired: seq<bool>)
    requires |fired| == |query|
    requires forall i, j :: 0 <= i < j < |query| ==> query[i] != query[j]
    requires forall i :: 0 <= i < |query| ==> query[i].Valid()
    modifies set p | p in query
    ensures forall i :: 0 <= i < |query| ==> query[i].Valid()
    ensures forall i :: 0 <= i < |query| ==>
      query[i].index == AnimatedIndex(query[i].state, query[i].indices, old(query[i].index), fired[i])
    ensures forall i :: 0 <= i < |query| ==> query[i].state == old(query[i].state)
  {
    var n := 0;
    while n < |query|
      invariant 0 <= n <= |query|
      invariant forall i :: 0 <= i < |query| ==> query[i].Valid()
      invariant forall i :: 0 <= i < |query| ==> query[i].state == old(query[i].state)
      invariant forall i :: 0 <= i < n ==>
        query[i].index == AnimatedIndex(query[i].state, query[i].indices, old(query[i].index), fired[i])
      invariant forall i :: n <= i < |query| ==> query[i].index == old(query[i].index)
    {
      query[n].AnimateTick(fired[n]);
      n := n + 1;
    }
  }
}
