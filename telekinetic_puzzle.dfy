/**
 * The Telekinetic Theatre maze table of the Mage Training Arena plugin:
 * for each of the ten mazes, the goal tile, the tile the guardian statue
 * starts on, and the sequence of steps that solves it.  Step offsets are
 * relative to the goal, in tiles.
 */
module TelekineticPuzzle {
  import opened Wrappers

  /** `net.runelite.api.Point`. */
  datatype Point = Point(x: int, y: int)

  /** `TelekineticStep`: where the guardian must go, and where the player stands to push it there. */
  datatype Step = Step(guardianTargetOffset: Point, playerTargetOffset: Point)

  datatype Puzzle = Puzzle(endLocation: Point, guardianStart: Point, steps: seq<Step>)

  const PUZZLE_1: Puzzle := Puzzle(
    Point(145, 86),
    Point(136, 86),
    [ Step(Point(-9, -9), Point(-9, -10)),
      Step(Point(-5, -9), Point(1, -9)),
      Step(Point(-5, -3), Point(0, 1)),
      Step(Point(-7, -3), Point(-10, 0)),
      Step(Point(-7, -6), Point(-9, -10)),
      Step(Point(0, -6), Point(1, -9)),
      Step(Point(0, 0), Point(0, 1)) ])

  const PUZZLE_2: Puzzle := Puzzle(
    Point(143, 73),
    Point(134, 73),
    [ Step(Point(-9, 9), Point(0, 10)),
      Step(Point(-6, 9), Point(1, 0)),
      Step(Point(-6, 0), Point(0, -1)),
      Step(Point(-3, 0), Point(1, 9)),
      Step(Point(-3, 9), Point(0, 10)),
      Step(Point(0, 9), Point(1, 0)),
      Step(Point(0, 0), Point(0, -1)) ])

  const PUZZLE_3: Puzzle := Puzzle(
    Point(142, 84),
    Point(143, 80),
    [ Step(Point(5, -4), Point(6, -4)),
      Step(Point(5, -9), Point(5, -10)),
      Step(Point(0, -9), Point(-5, -9)),
      Step(Point(0, -4), Point(-4, 1)),
      Step(Point(-4, -4), Point(-5, 0)),
      Step(Point(-4, 0), Point(0, 1)),
      Step(Point(0, 0), Point(6, 0)) ])

  const PUZZLE_4: Puzzle := Puzzle(
    Point(153, 80),
    Point(151, 84),
    [ Step(Point(-2, 7), Point(-2, 10)),
      Step(Point(-4, 7), Point(-8, 7)),
      Step(Point(-4, 3), Point(-7, -1)),
      Step(Point(0, 3), Point(3, 0)),
      Step(Point(0, 8), Point(2, 10)),
      Step(Point(-6, 8), Point(-8, 8)),
      Step(Point(-6, 0), Point(-7, -1)),
      Step(Point(0, 0), Point(3, 0)) ])

  const PUZZLE_5: Puzzle := Puzzle(
    Point(141, 68),
    Point(150, 77),
    [ Step(Point(9, 0), Point(9, -1)),
      Step(Point(8, 0), Point(-1, 0)),
      Step(Point(8, 8), Point(0, 10)),
      Step(Point(6, 8), Point(-1, 2)),
      Step(Point(6, 2), Point(0, -1)),
      Step(Point(2, 2), Point(-1, 0)),
      Step(Point(2, 0), Point(0, -1)),
      Step(Point(0, 0), Point(-1, 0)) ])

  const PUZZLE_6: Puzzle := Puzzle(
    Point(135, 80),
    Point(136, 72),
    [ Step(Point(1, -7), Point(1, 1)),
      Step(Point(3, -7), Point(9, 0)),
      Step(Point(3, -3), Point(8, 1)),
      Step(Point(-1, -3), Point(-2, 0)),
      Step(Point(-1, -1), Point(3, 1)),
      Step(Point(6, -1), Point(9, 0)),
      Step(Point(6, 0), Point(1, 1)),
      Step(Point(0, 0), Point(-2, 0)) ])

  const PUZZLE_7: Puzzle := Puzzle(
    Point(145, 86),
    Point(146, 86),
    [ Step(Point(1, -5), Point(4, -10)),
      Step(Point(0, -5), Point(-3, -9)),
      Step(Point(0, -7), Point(-2, -10)),
      Step(Point(1, -7), Point(8, -9)),
      Step(Point(1, -9), Point(7, -10)),
      Step(Point(4, -9), Point(8, -7)),
      Step(Point(4, -1), Point(7, 1)),
      Step(Point(0, -1), Point(-3, 0)),
      Step(Point(0, 0), Point(-2, 1)) ])

  const PUZZLE_8: Puzzle := Puzzle(
    Point(139, 83),
    Point(148, 74),
    [ Step(Point(9, 0), Point(9, 1)),
      Step(Point(6, 0), Point(-1, -4)),
      Step(Point(6, -8), Point(0, -10)),
      Step(Point(3, -8), Point(-1, 0)),
      Step(Point(3, 0), Point(0, 1)),
      Step(Point(2, 0), Point(-1, -9)),
      Step(Point(2, -9), Point(0, -10)),
      Step(Point(0, -9), Point(-1, 0)),
      Step(Point(0, 0), Point(0, 1)) ])

  const PUZZLE_9: Puzzle := Puzzle(
    Point(143, 82),
    Point(141, 78),
    [ Step(Point(-2, -1), Point(-2, 1)),
      Step(Point(-1, -1), Point(4, 0)),
      Step(Point(-1, -4), Point(3, -10)),
      Step(Point(2, -4), Point(4, -9)),
      Step(Point(2, -6), Point(3, -10)),
      Step(Point(-1, -6), Point(-7, -9)),
      Step(Point(-1, -5), Point(-6, 1)),
      Step(Point(3, -5), Point(4, 0)),
      Step(Point(3, 0), Point(-1, 1)),
      Step(Point(0, 0), Point(-7, 0)) ])

  const PUZZLE_10: Puzzle := Puzzle(
    Point(147, 82),
    Point(143, 73),
    [ Step(Point(-4, -6), Point(-9, 1)),
      Step(Point(-8, -6), Point(-10, 0)),
      Step(Point(-8, -4), Point(-5, 1)),
      Step(Point(-5, -4), Point(1, 0)),
      Step(Point(-5, -2), Point(-4, 1)),
      Step(Point(-7, -2), Point(-10, 0)),
      Step(Point(-7, -3), Point(-9, -10)),
      Step(Point(-9, -3), Point(-10, -8)),
      Step(Point(-9, 0), Point(-9, 1)),
      Step(Point(0, 0), Point(1, 0)) ])

  /** `values()`, in declaration order. */
  const VALUES: seq<Puzzle> := [PUZZLE_1, PUZZLE_2, PUZZLE_3, PUZZLE_4, PUZZLE_5,
                                PUZZLE_6, PUZZLE_7, PUZZLE_8, PUZZLE_9, PUZZLE_10]

  predicate Matches(p: Puzzle, goal: Point, guardian: Point)
  {
    p.guardianStart == guardian && p.endLocation == goal
  }

  /** The first puzzle at or after index `i` whose guardian start and goal are the arguments. */
  function FindFrom(goal: Point, guardian: Point, i: nat): (r: Option<nat>)
    requires i <= |VALUES|
    ensures r.Some? ==> i <= r.value < |VALUES| && Matches(VALUES[r.value], goal, guardian)
    ensures r.Some? ==> forall j :: i <= j < r.value ==> !Matches(VALUES[j], goal, guardian)
    ensures r.None? ==> forall j :: i <= j < |VALUES| ==> !Matches(VALUES[j], goal, guardian)
    decreases |VALUES| - i
  {
    if i == |VALUES| then None
    else if Matches(VALUES[i], goal, guardian) then Some(i)
    else FindFrom(goal, guardian, i + 1)
  }

  /** `findByGuardianAndEnd(goalLocation, guardianLocation)`: the first matching puzzle, or null. */
  function FindByGuardianAndEnd(goal: Point, guardian: Point): (r: Option<Puzzle>)
    ensures r.Some? ==> r.value in VALUES && Matches(r.value, goal, guardian)
    ensures r.None? ==> forall p :: p in VALUES ==> !Matches(p, goal, guardian)
  {
    match FindFrom(goal, guardian, 0)
    case None => None
    case Some(i) => Some(VALUES[i])
  }

  /** No two puzzles share both their goal and their guardian start. */
  lemma KeysDistinct()
    ensures forall i, j :: 0 <= i < j < |VALUES| ==>
      VALUES[i].endLocation != VALUES[j].endLocation || VALUES[i].guardianStart != VALUES[j].guardianStart
  {}

  /** The lookup is unambiguous: it returns exactly the puzzle with that goal and guardian start. */
  lemma FindByGuardianAndEndExact(i: nat)
    requires i < |VALUES|
    ensures FindByGuardianAndEnd(VALUES[i].endLocation, VALUES[i].guardianStart) == Some(VALUES[i])
  {
    KeysDistinct();
  }

  /** PUZZLE_1 and PUZZLE_7 share a goal and are told apart by the guardian's start. */
  lemma SharedGoal()
    ensures PUZZLE_1.endLocation == PUZZLE_7.endLocation
    ensures PUZZLE_1.guardianStart != PUZZLE_7.guardianStart
  {}

  /** Two points differ in exactly one coordinate: a straight move along one axis. */
  predicate StraightMove(a: Point, b: Point)
  {
    (a.x == b.x) != (a.y == b.y)
  }

  function Offset(from: Point, to: Point): Point
  {
    Point(to.x - from.x, to.y - from.y)
  }

  /**
   * The structural facts of a maze: at least seven steps, the last step
   * brings the guardian onto the goal, each step (from the starting tile
   * on) moves the guardian in a straight line, and the start and goal lie
   * within one 192-tile region.
   */
  predicate WellFormed(p: Puzzle)
  {
    |p.steps| >= 7 &&
    p.steps[|p.steps| - 1].guardianTargetOffset == Point(0, 0) &&
    StraightMove(Offset(p.endLocation, p.guardianStart), p.steps[0].guardianTargetOffset) &&
    (forall i :: 0 <= i < |p.steps| - 1 ==>
       StraightMove(p.steps[i].guardianTargetOffset, p.steps[i + 1].guardianTargetOffset)) &&
    0 <= p.endLocation.x < 192 && 0 <= p.endLocation.y < 192 &&
    0 <= p.guardianStart.x < 192 && 0 <= p.guardianStart.y < 192
  }

  /** No maze has more than ten steps. */
  lemma AtMostTenSteps()
    ensures forall p :: p in VALUES ==> |p.steps| <= 10
  {}

  /** Every maze of the table is well formed. */
  lemma AllWellFormed()
    ensures forall p :: p in VALUES ==> WellFormed(p)
  {
    WellFormed1();
    WellFormed2();
    WellFormed3();
    WellFormed4();
    WellFormed5();
    WellFormed6();
    WellFormed7();
    WellFormed8();
    WellFormed9();
    WellFormed10();
  }

  // One lemma per maze keeps each proof to a single table entry.

  lemma WellFormed1()
    ensures WellFormed(PUZZLE_1)
  {}

  lemma WellFormed2()
    ensures WellFormed(PUZZLE_2)
  {}

  lemma WellFormed3()
    ensures WellFormed(PUZZLE_3)
  {}

  lemma WellFormed4()
    ensures WellFormed(PUZZLE_4)
  {}

  lemma WellFormed5()
    ensures WellFormed(PUZZLE_5)
  {}

  lemma WellFormed6()
    ensures WellFormed(PUZZLE_6)
  {}

  lemma WellFormed7()
    ensures WellFormed(PUZZLE_7)
  {}

  lemma WellFormed8()
    ensures WellFormed(PUZZLE_8)
  {}

  lemma WellFormed9()
    ensures WellFormed(PUZZLE_9)
  {}

  lemma WellFormed10()
    ensures WellFormed(PUZZLE_10)
  {}
}
