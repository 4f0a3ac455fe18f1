# Sliding-tile puzzle solver, modelled in Dafny

This project models the core of a sliding-tile puzzle solver. A puzzle is a
width × height grid of numbered tiles holding one empty tile, written 0. A move
trades the empty tile with a neighbour. Lateral moves wrap around the board's
edges. Diagonal moves exist from the corners. Each move has a cost of 1, 2 or 3.
A best-first search looks for a path from a start state to one given goal
state. It keeps:

- a heap-based priority queue (the open set);
- a closed set;
- a predecessor map.

Modules, one per source file:

- `Heapq` (`heapq.dfy`): the binary-heap algorithms behind the priority
  queue, `heappush` and `heappop`, modelled on a sequence of
  `(priority, item)` entries. Each is proved to keep the heap order and to
  change the contents by exactly one entry.
- `PriorityQueues` (`priority_queue.dfy`): the `PriorityQueue` class. Its list
  field is the heap, and its abstract contents are a multiset of entries.
- `Stacks` (`stack.dfy`): the `Stack` class, a LIFO over a list field.
- `Puzzles` (`puzzle.dfy`): puzzle construction (dimension check, row-major
  reshape, the empty-tile scan, the two goal layouts), cell access,
  `is_complete`, and move generation with its costs.
- `Heuristics` (`heuristics.dfy`): `h0`, `h1` and `h2`.
- `Solvers` (`solvers.dfy`): `AStar.solve` and its `retrace_steps`, generic
  over an abstract state type with value equality, plus
  `Djikstra.heuristic`.
  - The moves of a state, the state a move leads to, and a move's cost are
    the fields of a `Domain` value.
  - The heuristic is a parameter.
  - Solve ensures that a returned step list is a path of successor states
    from the start to the goal. It also ensures that an exhausted queue means
    the goal is unreachable.
- `Wrappers` (`wrappers.dfy`): `Option` and `Result`.

How the source's behaviour is turned into Dafny:

- Python's `%` with a positive modulus is floored. Dafny's `%` agrees with it
  there, so the wrap-around neighbours are written with Dafny's `%`.
- A puzzle never changes after construction, so it is a datatype value.
- The containers and the search loop change state in place. They are classes
  and methods with loops.
- Errors the source raises are `Result` errors: a bad dimension tuple, a list
  of the wrong length, no empty tile.

## Model

| member | source | states |
|---|---|---|
| Heapq.HeapIsDocumentedInvariant | data_struct/PriorityQueue.py:12-16 | The heap order used here (every entry no smaller than its parent) is equivalent to the documented heapq invariant heap[k] <= heap[2k+1] and heap[k] <= heap[2k+2], compared on priorities. |
| Heapq.RootIsMinimal | data_struct/PriorityQueue.py:15-16 | In a heap, the entry at index 0 has a priority no larger than any other entry's. |
| Heapq.SiftTowardsRoot | data_struct/PriorityQueue.py:12-13 | heapq's `_siftdown` from a position: if heap order is broken only between that position and its parent, the result is a heap holding the same multiset of entries. |
| Heapq.SiftToLeaf | data_struct/PriorityQueue.py:15-16 | The descent of heapq's `_siftup`: it walks the hole down along the smaller child (the right child when it is not larger) until it reaches a leaf: the final position has no child. Only the edge above the final position can then be out of order, and the multiset is unchanged. |
| Heapq.HeapPush | data_struct/PriorityQueue.py:12-13 | heappush on a heap gives a heap whose multiset is the old one plus the new entry, one longer. |
| Heapq.HeapPop | data_struct/PriorityQueue.py:15-16 | heappop on a non-empty heap returns an entry and a heap. The old multiset is the new one plus that entry, the heap is one shorter, and the entry's priority is at most every remaining priority. |
| PriorityQueues.PriorityQueue.constructor | data_struct/PriorityQueue.py:9-10 | A new queue has an empty heap list, which is a valid heap with empty contents. |
| PriorityQueues.PriorityQueue.Enqueue | data_struct/PriorityQueue.py:12-13 | The heap invariant is kept, the contents gain exactly the entry, and the size grows by one. |
| PriorityQueues.PriorityQueue.Dequeue | data_struct/PriorityQueue.py:15-16 | This requires a non-empty queue. The heap invariant is kept and exactly the returned entry leaves the contents. Its priority is at most that of every entry left. |
| PriorityQueues.PriorityQueue.Empty | data_struct/PriorityQueue.py:18-19 | The result is true iff the contents are empty, iff the heap list is empty. |
| Stacks.Stack.constructor | data_struct/Stack.py:7-9 | A new stack has no items. |
| Stacks.Stack.Push | data_struct/Stack.py:11-12 | The item is appended at the end. |
| Stacks.Stack.Pop | data_struct/Stack.py:14-15 | This requires a non-empty stack. It returns the last item and leaves the items before it. |
| Stacks.Stack.Empty | data_struct/Stack.py:17-18 | The result is true iff there are no items. |
| Stacks.PushThenPop | data_struct/Stack.py:11-15 | A pop right after push(x) returns x and restores the earlier contents (LIFO). |
| Puzzles.Reshape | puzzle.py:17 | np.reshape of a list of rows × cols elements into rows rows. Row i is the i-th run of cols elements. |
| Puzzles.ReshapeAt | puzzle.py:17 | Cell (i, j) of the reshaped list is list element i * cols + j, and that index is in range. |
| Puzzles.Transpose | puzzle.py:65 | `.T` of a rows × cols array is cols × rows, and t[j][i] == m[i][j]. |
| Puzzles.Arange | puzzle.py:60 | np.arange(n) holds k at index k. |
| Puzzles.GoalNumbering | puzzle.py:59-61 | lin[1:] followed by lin[0] holds k + 1 at index k for k < n - 1, and 0 at the last index. |
| Puzzles.Goal1 | puzzle.py:63 | goal1 has the grid's shape: height rows of width cells. |
| Puzzles.Goal2 | puzzle.py:65 | goal2 has the grid's shape: height rows of width cells. |
| Puzzles.Goal1At | puzzle.py:59-63 | goal1 holds k + 1 at row-major index k = y * w + x, and 0 at the last cell. |
| Puzzles.Goal2At | puzzle.py:59-65 | goal2 holds k + 1 at column-major index k = x * h + y, and 0 at the last cell. |
| Puzzles.GoalsZeroOnlyAtCorner | puzzle.py:58-66 | Both goals hold 0 at (w-1, h-1) and at no other cell. |
| Puzzles.LocateEmptyTile | puzzle.py:41-53 | The scan returns the first cell in row-major order that holds 0, with every earlier cell non-zero. It returns None iff no cell holds 0. |
| Puzzles.FirstZeroIsFirstInList | puzzle.py:41-53 | On a reshaped list, the first zero cell (x, y) is the list's first 0: element y * cols + x is 0 and every earlier element is non-zero. |
| Puzzles.ZeroInListIffInGrid | puzzle.py:17-53 | The reshaped grid holds a 0 iff the input list does. |
| Puzzles.Create | puzzle.py:11-19 | Each error case is stated as an if-and-only-if. Fewer than two dimensions, or a dimension below 2, is rejected first. A list whose length is not width * height is rejected next. A list with no 0 is rejected last. On success the puzzle meets its invariant, keeps the given dimensions, and has the reshaped grid. Its tile position is the first 0 of the list. |
| Puzzles.AtIsRowMajor | puzzle.py:38-39 | On a built puzzle, `__getitem__((x, y))` (grid[y, x]) is element y * width + x of the input list. |
| Puzzles.IsCompleteIffGoal | puzzle.py:27-35 | is_complete holds iff the grid equals goal1 or goal2, so the corner quick check never changes the answer. |
| Puzzles.LateralTargets | puzzle.py:98-115 | The lateral targets are exactly the in-bounds cells one step away (mod that axis's length) on exactly one axis, with no repetition. There are 4 of them, 3 when exactly one side is 2, and 2 on a 2 × 2 board. |
| Puzzles.LateralCost | puzzle.py:85-95 | A lateral move costs 2 exactly when its step leaves the board on an axis longer than 2 (the wrap), and 1 otherwise. |
| Puzzles.DiagonalTargets | puzzle.py:121-139 | There are two diagonal targets exactly when the empty tile is in a corner of a board that is not 2 × 2, and none otherwise. They are distinct, in bounds, and one step away on both axes. |
| Puzzles.MovesAtProperties | puzzle.py:80-144 | Every move costs 1, 2 or 3, and 3 exactly for the diagonals. Every target is in bounds and differs from the empty cell, and no two moves share a target. |
| Puzzles.CollectLaterals | puzzle.py:98-115 | The lateral list built by the appends is the lateral target sequence that LateralTargets characterises. |
| Puzzles.CollectDiagonals | puzzle.py:121-139 | The diagonal list built by the appends is the sequence that DiagonalTargets characterises, with the second corner test overriding the first. |
| Puzzles.GetMoves | puzzle.py:80-144 | The returned list is the laterals with their cost, then the diagonals at cost 3. Every cost is in {1, 2, 3}, every target is in bounds and not the empty cell, and targets are distinct. |
| Puzzles.TwoByTwoExample | puzzle.py:80-144 | On the 2 × 2 board with the empty tile at (0, 1), the moves are exactly (1, (0, 0)) and (1, (1, 1)). |
| Heuristics.H0 | heuristics.py:4-9 | h0 is 0 or 1. |
| Heuristics.H1 | heuristics.py:12-13 | h1 is always 1. |
| Heuristics.H2 | heuristics.py:16-17 | h2 is always 1. |
| Heuristics.H0IgnoresGoal | heuristics.py:4-9 | h0 does not depend on its goal argument. |
| Heuristics.H0ZeroIffOnlyCornerEmpty | heuristics.py:4-9 | On a built puzzle, h0 is 0 iff the bottom-right cell is the only cell holding 0. |
| Heuristics.H0ZeroOnComplete | heuristics.py:4-8 | h0 is 0 on every puzzle is_complete accepts, and on both goal layouts. |
| Solvers.WalkStaysInside | solvers.py:59-84 | A walk of successor states from a state of a successor-closed set never leaves that set. |
| Solvers.ClosedSetBlocksGoal | solvers.py:59-84 | Suppose a successor-closed set holds the start but not the goal. Then no path leads from the start to the goal. |
| Solvers.Pushed | solvers.py:69-81 | Expansion enqueues at most one entry per move. |
| Solvers.PushedSound | solvers.py:69-81 | Every enqueued entry is the result of one of the moves and is not closed. Its priority is the popped priority plus the move's cost plus heuristic(next, goal). |
| Solvers.PushedComplete | solvers.py:69-81 | For every move whose result is not closed, that result is enqueued at popped priority + move cost + heuristic. |
| Solvers.PushedStatesSound | solvers.py:69-84 | Every state expansion enqueues is a non-closed successor of the expanded state. |
| Solvers.PushedStatesComplete | solvers.py:69-84 | Every non-closed successor of the expanded state is enqueued. |
| Solvers.Offer | solvers.py:70-84 | One iteration of the inner loop. A closed result changes nothing. Otherwise its entry joins the queue and its predecessor becomes the expanded state. |
| Solvers.Expand | solvers.py:68-84 | The inner loop over all moves. The queue gains exactly the entries Pushed lists, and the predecessor map records the expanded state for exactly those states. |
| Solvers.ExpandLeavesClosedEntries | solvers.py:72-84 | Expansion never gives a closed state a predecessor entry, nor changes one it has. |
| Solvers.RecordedKeepsRanked | solvers.py:62-84 | An entry only ever points to an already-closed state. A closed state's predecessor was closed strictly earlier (by rank), so the map is acyclic. |
| Solvers.RecordedKeepsSuccessors | solvers.py:70-84 | Every predecessor entry maps a state to a state it is a successor of. |
| Solvers.RecordedKeepsDomain | solvers.py:44-84 | The start never receives an entry. Every closed or queued state is the start or has an entry. |
| Solvers.ExpansionCovers | solvers.py:68-84 | After expansion, every successor of every closed state is closed or queued. |
| Solvers.CloseStep | solvers.py:61-62 | Popping an entry and replacing the closed set with closed + {its state} keeps the search invariant, with that state pending. Every state closed earlier keeps its rank, so the closing order of states already closed is fixed. |
| Solvers.ExpandStep | solvers.py:68-84 | Expanding the popped state restores the search invariant. |
| Solvers.Reverse | solvers.py:55 | list.reverse: element i of the result is element len-1-i of the input. |
| Solvers.RetraceSteps | solvers.py:48-56 | The result is empty iff the final state has no entry. Otherwise it ends with the final state, each element's entry is the element before it, and the first element's predecessor has no entry. |
| Solvers.RetracedIsPath | solvers.py:48-66 | Under the search invariant, a retraced chain is a path of successor states from the start to the final state. |
| Solvers.ExhaustedMeansUnreachable | solvers.py:59-84 | When the queue is empty and the goal was never closed, the goal is unreachable from the start. |
| Solvers.Solve | solvers.py:41-84 | Solved steps form a path from start to goal, ending at the goal, and are empty iff start == goal. NoSolution (the loop exits, returning None) means the goal is unreachable. With start == goal and fuel > 0 the result is Solved([]); with fuel 0 every search ends OutOfFuel. |
| Solvers.DjikstraHeuristic | solvers.py:93-95 | Djikstra.heuristic always returns 1. |

## Left out

- `main.py`: command-line handling, output directories and printing.
- `load_puzzles` (puzzle.py:154-159): file reading. `parse_puzzle` is modelled as `Create` on a sequence of naturals; the uint32 conversion is not modelled.
- `__str__` (puzzle.py:55-56): string formatting.
- `get_state`, `get_dimensions` and `get_current_pos`: these are the fields of the `Puzzle` datatype.
- The `ISolvable` metaclass check and the commented-out `solve` (puzzle.py:69-75).
- `compute_move` has no implementation in the source. The search takes the successor function as a `Domain` field, so `Puzzle` is not plugged into `Solve`.
- `Puzzle` defines no `__eq__` or `__hash__`, so the source compares states by identity. The search assumes value equality on its state type.
- solvers.py:44 and solvers.py:81 call `enqueue(state, priority)` with two arguments, but `PriorityQueue.enqueue` takes one tuple. The model performs the intended push of `(priority, state)`.
- Heapq.HeapPop: entries are ordered by priority only. heapq's lexicographic tie-break on the item is not modelled, because states have no order; no determinism or stability is claimed.
- Heapq.HeapIsDocumentedInvariant: heapq's documented invariant compares whole (priority, item) tuples. Here both heap predicates compare priorities only, for the same reason.
- PriorityQueues.PriorityQueue.Dequeue: it promises minimality by priority only, not under lexicographic tuple order, for the same reason.
- The priorities are `int`. `AStar.heuristic` is annotated as returning a float, but every heuristic in the source returns an integer.
- Solvers.Solve: the outer loop is bounded by a `fuel` count of iterations. The `OutOfFuel` outcome stands for a search still running when the bound is reached. Nothing is claimed about how many iterations a search needs.
- Solvers.Solve: optimality is not claimed. The enqueued priority adds the heuristic into the accumulated cost, so the search is neither uniform-cost nor A* optimal.
- Puzzles.GetMoves requires exactly two dimensions. The source unpacks `w, h` from the dimension tuple, which fails for a longer tuple that the constructor accepts.
- Puzzles.Puzzle.At: a negative index, which Python's indexing would count from the end, is not modelled. Cell access requires an in-bounds (x, y).
- Puzzles.Create: the source stores the dimension tuple before checking it and raises on failure. The model returns an error instead, and no puzzle exists on the error paths.
