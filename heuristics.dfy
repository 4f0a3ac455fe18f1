/**
 * heuristics.py: the estimates h0, h1 and h2 of the remaining cost from a
 * puzzle to a goal puzzle.
 */
module Heuristics {
  import opened Puzzles

  /** h0: 0 when the empty tile is in the bottom-right corner, 1 otherwise. */
  function H0(current: Puzzle, goal: Puzzle): (r: nat)
    requires |current.dimensions| >= 2
    ensures r <= 1
  {
    if current.tilePos == Pos(current.Width() - 1, current.Height() - 1) then 0 else 1
  }

  function H1(current: Puzzle, goal: Puzzle): (r: int)
    ensures r == 1
  {
    1
  }

  function H2(current: Puzzle, goal: Puzzle): (r: int)
    ensures r == 1
  {
    1
  }

  /** h0 never looks at its goal argument. */
  lemma H0IgnoresGoal(current: Puzzle, goal: Puzzle, other: Puzzle)
    requires |current.dimensions| >= 2
    ensures H0(current, goal) == H0(current, other)
  {
  }

  /** On a built puzzle, h0 is 0 exactly when the bottom-right cell is the only cell holding 0. */
  lemma H0ZeroIffOnlyCornerEmpty(current: Puzzle, goal: Puzzle)
    requires current.Valid()
    ensures H0(current, goal) == 0 <==>
      forall x, y :: 0 <= x < current.Width() && 0 <= y < current.Height() ==>
        (current.At(x, y) == 0 <==> x == current.Width() - 1 && y == current.Height() - 1)
  {
    var w, h, t := current.Width(), current.Height(), current.tilePos;
    if H0(current, goal) == 0 {
      assert forall x, y :: 0 <= x < w && 0 <= y < h ==>
        (current.At(x, y) == 0 <==> x == w - 1 && y == h - 1);
    } else {
      assert current.At(t.x, t.y) == 0;
    }
  }

  /** h0 is 0 on every puzzle that is_complete accepts, and on both goal layouts,
      because both goals put 0 in the bottom-right corner. */
  lemma H0ZeroOnComplete(current: Puzzle, goal: Puzzle)
    requires current.Valid()
    requires current.IsComplete() || current.grid == current.goal1 || current.grid == current.goal2
    ensures H0(current, goal) == 0
  {
    IsCompleteIffGoal(current);
  }
}
