/** The sprite-sheet frame advancer (animate_sprite in src/main.rs): on a
    timer expiry an idle state pins the atlas index to a fixed frame and a
    walking state steps it through a window of the sheet. */
module Animation {
  import opened Movement

  /** The sheet is a 16 x 1 grid of 32-pixel frames. */
  const SHEET_FRAMES: nat := 16
  /** The walk cycle facing left is the right-facing strip shifted by 8 frames. */
  const LEFT_OFFSET: nat := 8
  const RIGHT_OFFSET: nat := 0
  /** The frames shown while standing still. */
  const IDLE_RIGHT_FRAME: nat := 2
  const IDLE_LEFT_FRAME: nat := 10

  /** The walk-cycle frame range of one strip, as an inclusive pair. */
  datatype AnimationIndices = AnimationIndices(first: nat, last: nat)

  /** Both ends of the window, shifted by the larger offset, stay on the
      sheet. */
  predicate FitsSheet(ind: AnimationIndices) {
    ind.first + LEFT_OFFSET < SHEET_FRAMES && ind.last + LEFT_OFFSET < SHEET_FRAMES
  }

  /** The shift of the window for a walking state; idle states never use it. */
  function Offset(s: MovementState): nat {
    if s == Left then LEFT_OFFSET else RIGHT_OFFSET
  }

  /** One step of the walk cycle in the window [first+offset, last+offset]:
      at or past the end, or below the strip, the index restarts at
      first+offset; otherwise it moves on by one frame. */
  function WalkStep(ind: AnimationIndices, offset: nat, index: nat): (r: nat)
    // the step rule: inside [offset, last+offset) the index moves on by one,
    // at or past the end of the window or below the strip it restarts
    ensures offset <= index < ind.last + offset ==> r == index + 1
    ensures index < offset || ind.last + offset <= index ==> r == ind.first + offset
    ensures offset <= r
    ensures ind.first <= ind.last ==> r <= ind.last + offset
  {
    if index >= ind.last + offset || index < offset then ind.first + offset else index + 1
  }

  /** The atlas index after one frame, given whether the entity's timer
      fired during it. */
  function AnimatedIndex(s: MovementState, ind: AnimationIndices, index: nat, fired: bool): (r: nat)
    ensures !fired ==> r == index
    ensures fired && s == IdleRight ==> r == IDLE_RIGHT_FRAME
    ensures fired && s == IdleLeft ==> r == IDLE_LEFT_FRAME
    ensures fired && s.Walking() ==> r == WalkStep(ind, Offset(s), index)
    ensures fired && s.Walking() ==> Offset(s) <= r
    ensures fired && s.Walking() && ind.first <= ind.last ==> r <= ind.last + Offset(s)
    ensures FitsSheet(ind) && index < SHEET_FRAMES ==> r < SHEET_FRAMES
  {
    if !fired then index
    else if s == IdleRight then IDLE_RIGHT_FRAME
    else if s == IdleLeft then IDLE_LEFT_FRAME
    else WalkStep(ind, Offset(s), index)
  }

  /** The index after n consecutive fired ticks in one walking state. */
  function WalkTicks(ind: AnimationIndices, offset: nat, index: nat, n: nat): nat
  {
    if n == 0 then index else WalkStep(ind, offset, WalkTicks(ind, offset, index, n - 1))
  }

  /** The number of frames in one walk cycle. */
  function CycleLength(ind: AnimationIndices): nat
    requires ind.first <= ind.last
  {
    ind.last - ind.first + 1
  }

  /** Inside the window, n fired ticks that do not reach its end move the
      index on by exactly n frames. */
  lemma {:induction false} WalkTicksAdvance(ind: AnimationIndices, offset: nat, index: nat, n: nat)
    requires offset <= index && index + n <= ind.last + offset
    ensures WalkTicks(ind, offset, index, n) == index + n
  {
    if n > 0 {
      WalkTicksAdvance(ind, offset, index, n - 1);
    }
  }

  /** Ticks compose: a + b ticks are a ticks followed by b ticks. */
  lemma {:induction false} WalkTicksSplit(ind: AnimationIndices, offset: nat, index: nat, a: nat, b: nat)
    ensures WalkTicks(ind, offset, index, a + b)
         == WalkTicks(ind, offset, WalkTicks(ind, offset, index, a), b)
  {
    if b > 0 {
      WalkTicksSplit(ind, offset, index, a, b - 1);
    }
  }

  /** A full cycle of fired ticks brings any in-window frame back to itself;
      in particular last-first+1 ticks from first+offset return there. */
  lemma WalkCycleReturns(ind: AnimationIndices, offset: nat, index: nat)
    requires ind.first <= ind.last
    requires ind.first + offset <= index <= ind.last + offset
    ensures WalkTicks(ind, offset, index, CycleLength(ind)) == index
  {
    var start, end := ind.first + offset, ind.last + offset;
    // up to the end of the window, one wrap, then back up to index
    WalkTicksAdvance(ind, offset, index, end - index);
    WalkTicksSplit(ind, offset, index, end - index, 1);
    assert WalkTicks(ind, offset, end, 1) == start;
    WalkTicksAdvance(ind, offset, start, index - start);
    WalkTicksSplit(ind, offset, index, end - index + 1, index - start);
  }

  /** The walk cycle is periodic: any whole number of cycles returns an
      in-window frame to itself. */
  lemma {:induction false} WalkCyclePeriodic(ind: AnimationIndices, offset: nat, index: nat, m: nat)
    requires ind.first <= ind.last
    requires ind.first + offset <= index <= ind.last + offset
    ensures WalkTicks(ind, offset, index, m * CycleLength(ind)) == index
  {
    if m > 0 {
      WalkCyclePeriodic(ind, offset, index, m - 1);
      WalkCycleReturns(ind, offset, index);
      WalkTicksSplit(ind, offset, index, (m - 1) * CycleLength(ind), CycleLength(ind));
    }
  }

  /** Turning around restarts the walk cycle: a walking state whose index
      still lies in the other direction's strip jumps to the first frame of
      its own window on the next fired tick. */
  lemma TurnRestartsCycle(s: MovementState, ind: AnimationIndices, index: nat)
    requires s.Walking() && FitsSheet(ind)
    requires s == Left ==> index < LEFT_OFFSET
    requires s == Right ==> LEFT_OFFSET <= index
    ensures AnimatedIndex(s, ind, index, true) == ind.first + Offset(s)
  {
  }
}
