/** The player's movement state machine: one frame's keyboard snapshot
    decides the new MovementState (move_hello in src/main.rs). */
module Movement {

  /** The keys the demo polls. The vertical keys are read only by the
      circle variant; they are here so that a snapshot can hold keys that
      the state machine must ignore. */
  datatype KeyCode = KeyA | KeyD | ArrowLeft | ArrowRight | KeyW | KeyS | ArrowUp | ArrowDown

  /** One frame of keyboard input: the keys held down now, and the keys
      released since the previous frame. */
  datatype Keys = Keys(pressed: set<KeyCode>, justReleased: set<KeyCode>)

  /** The player's facing/walking state. */
  datatype MovementState = Left | Right | IdleLeft | IdleRight
  {
    predicate Walking() { this == Left || this == Right }
  }

  /** A or ArrowLeft is held. */
  predicate LeftHeld(k: Keys) { KeyA in k.pressed || ArrowLeft in k.pressed }

  /** D or ArrowRight is held. */
  predicate RightHeld(k: Keys) { KeyD in k.pressed || ArrowRight in k.pressed }

  /** A or ArrowLeft was released this frame. */
  predicate LeftReleased(k: Keys) { KeyA in k.justReleased || ArrowLeft in k.justReleased }

  /** D or ArrowRight was released this frame. */
  predicate RightReleased(k: Keys) { KeyD in k.justReleased || ArrowRight in k.justReleased }

  /** No movement key is held and none was released this frame. */
  predicate Quiet(k: Keys) {
    !LeftHeld(k) && !RightHeld(k) && !LeftReleased(k) && !RightReleased(k)
  }

  /** The state move_hello leaves behind, given the state before the frame.
      The contract is the transition table read by outcome: for each new
      state, exactly the snapshots that lead to it. */
  function NextState(s: MovementState, k: Keys): (r: MovementState)
    // a held left key wins, whatever the right key does
    ensures r == Left <==> LeftHeld(k) || (Quiet(k) && s == Left)
    // Right needs the right key held and no left key held
    ensures r == Right <==> (!LeftHeld(k) && RightHeld(k)) || (Quiet(k) && s == Right)
    // idle states are entered only through a release, left release first
    ensures r == IdleLeft <==>
      (!LeftHeld(k) && !RightHeld(k) && LeftReleased(k)) || (Quiet(k) && s == IdleLeft)
    ensures r == IdleRight <==>
      (!LeftHeld(k) && !RightHeld(k) && !LeftReleased(k) && RightReleased(k)) || (Quiet(k) && s == IdleRight)
    // a frame without movement keys changes nothing
    ensures Quiet(k) ==> r == s
  {
    if LeftHeld(k) then Left
    else if RightHeld(k) then Right
    else if LeftReleased(k) then IdleLeft
    else if RightReleased(k) then IdleRight
    else s
  }

  /** Only the four movement keys matter: dropping every other key from a
      snapshot leaves the transition unchanged. */
  function MovementKeysOnly(k: Keys): (m: Keys)
    ensures m.pressed <= k.pressed && m.justReleased <= k.justReleased
    ensures forall c :: c in {KeyA, KeyD, ArrowLeft, ArrowRight} ==>
      (c in m.pressed <==> c in k.pressed) && (c in m.justReleased <==> c in k.justReleased)
    ensures forall c :: c in m.pressed ==> c in {KeyA, KeyD, ArrowLeft, ArrowRight}
    ensures forall c :: c in m.justReleased ==> c in {KeyA, KeyD, ArrowLeft, ArrowRight}
  {
    Keys(k.pressed * {KeyA, KeyD, ArrowLeft, ArrowRight},
         k.justReleased * {KeyA, KeyD, ArrowLeft, ArrowRight})
  }

  lemma OtherKeysIgnored(s: MovementState, k: Keys)
    ensures NextState(s, MovementKeysOnly(k)) == NextState(s, k)
  {
  }

  /** Applying the same snapshot twice gives the state the first application
      gave. */
  lemma NextStateIdempotent(s: MovementState, k: Keys)
    ensures NextState(NextState(s, k), k) == NextState(s, k)
  {
  }
}
