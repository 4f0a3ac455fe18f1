/**
 * solvers.py: the best-first search of AStar.solve over an abstract state
 * type with value equality. The open set is a PriorityQueue of
 * (priority, state) entries, the closed set a set of states, and the
 * predecessor map (running_states_graph_edges) a map from a state to the
 * state it was generated from.
 */
module Solvers {
  import opened Heapq
  import opened PriorityQueues

  /** What the search needs of a state: its moves (get_moves), the state a
      move leads to (compute_move) and the cost of a move (its first component). */
  datatype Domain<!S, !M> = Domain(getMoves: S -> seq<M>, computeMove: (S, M) -> S, moveCost: M -> int)

  /** Solved: the steps from the start to the goal. NoSolution: the open queue
      ran empty (solve returns None). OutOfFuel: the iteration bound was reached. */
  datatype Outcome<S> = Solved(steps: seq<S>) | NoSolution | OutOfFuel

  /** `next` is what one of the moves of `s` leads to. */
  ghost predicate IsSuccessor<S, M>(d: Domain<S, M>, s: S, next: S) {
    exists i :: 0 <= i < |d.getMoves(s)| && d.computeMove(s, d.getMoves(s)[i]) == next
  }

  /** Each state of `steps` is a successor of the one before it, the first of `start`. */
  ghost predicate IsWalk<S, M>(d: Domain<S, M>, start: S, steps: seq<S>) {
    && (steps != [] ==> IsSuccessor(d, start, steps[0]))
    && (forall i :: 0 < i < |steps| ==> IsSuccessor(d, steps[i - 1], steps[i]))
  }

  /** `steps` leads from `start` to `goal`; it is empty only when they are equal. */
  ghost predicate IsPath<S, M>(d: Domain<S, M>, start: S, steps: seq<S>, goal: S) {
    IsWalk(d, start, steps) && if steps == [] then start == goal else steps[|steps| - 1] == goal
  }

  ghost predicate Reachable<S(!new), M>(d: Domain<S, M>, start: S, goal: S) {
    exists steps :: IsPath(d, start, steps, goal)
  }

  /** Every successor of a state of `c` is in `c`. */
  ghost predicate SuccessorClosed<S, M>(d: Domain<S, M>, c: set<S>) {
    forall s, i :: s in c && 0 <= i < |d.getMoves(s)| ==> d.computeMove(s, d.getMoves(s)[i]) in c
  }

  /** The states that have an entry in `m`. */
  ghost function Items<S>(m: multiset<Entry<S>>): set<S> {
    set e | e in m :: e.item
  }

  lemma ItemsUnion<S>(a: multiset<Entry<S>>, b: multiset<Entry<S>>)
    ensures Items(a + b) == Items(a) + Items(b)
  {
    forall s | s in Items(a + b) ensures s in Items(a) + Items(b) {
      var e :| e in a + b && e.item == s;
    }
    forall s | s in Items(a) + Items(b) ensures s in Items(a + b) {
      if s in Items(a) {
        var e :| e in a && e.item == s;
        assert e in a + b;
      } else {
        var e :| e in b && e.item == s;
        assert e in a + b;
      }
    }
  }

  /** Every predecessor entry points to a closed state, and the entry of a
      closed state points to a state closed strictly earlier. */
  ghost predicate Ranked<S>(edges: map<S, S>, closed: set<S>, rank: map<S, nat>) {
    && rank.Keys == closed
    && forall s :: s in edges ==> edges[s] in closed && (s in closed ==> rank[edges[s]] < rank[s])
  }

  /** A walk from a state of a successor-closed set never leaves it. */
  lemma {:induction false} WalkStaysInside<S, M>(d: Domain<S, M>, c: set<S>, start: S, steps: seq<S>)
    requires start in c && SuccessorClosed(d, c) && IsWalk(d, start, steps)
    ensures forall k :: 0 <= k < |steps| ==> steps[k] in c
    decreases |steps|
  {
    if steps != [] {
      var n := |steps| - 1;
      var prefix := steps[..n];
      assert IsWalk(d, start, prefix) by {
        forall i | 0 < i < |prefix| ensures IsSuccessor(d, prefix[i - 1], prefix[i]) {
          assert prefix[i - 1] == steps[i - 1] && prefix[i] == steps[i];
        }
      }
      WalkStaysInside(d, c, start, prefix);
      var from := if n == 0 then start else steps[n - 1];
      assert from in c by {
        if n > 0 { assert steps[n - 1] == prefix[n - 1]; }
      }
      assert IsSuccessor(d, from, steps[n]);
      var i :| 0 <= i < |d.getMoves(from)| && d.computeMove(from, d.getMoves(from)[i]) == steps[n];
      forall k | 0 <= k < |steps| ensures steps[k] in c {
        if k < n { assert steps[k] == prefix[k]; }
      }
    }
  }

  /** A successor-closed set that holds the start but not the goal proves the
      goal unreachable. */
  lemma ClosedSetBlocksGoal<S(!new), M>(d: Domain<S, M>, c: set<S>, start: S, goal: S)
    requires start in c && SuccessorClosed(d, c) && goal !in c
    ensures !Reachable(d, start, goal)
  {
    forall steps | IsPath(d, start, steps, goal) ensures false {
      WalkStaysInside(d, c, start, steps);
    }
  }

  /** The entries that expanding `current` enqueues for `moves`, in order: one
      for each move whose result is not closed, at the popped priority plus
      the move's cost plus the heuristic of the result. */
  function Pushed<S(==), M>(d: Domain<S, M>, heuristic: (S, S) -> int, goal: S, closed: set<S>,
                            current: S, currentCost: int, moves: seq<M>): (r: seq<Entry<S>>)
    ensures |r| <= |moves|
  {
    if moves == [] then []
    else
      Pushed(d, heuristic, goal, closed, current, currentCost, moves[..|moves| - 1]) +
      PushedFor(d, heuristic, goal, closed, current, currentCost, moves[|moves| - 1])
  }

  /** The entry (if any) that one move contributes to Pushed. */
  function PushedFor<S(==), M>(d: Domain<S, M>, heuristic: (S, S) -> int, goal: S, closed: set<S>,
                               current: S, currentCost: int, m: M): (r: seq<Entry<S>>)
    ensures |r| <= 1
  {
    var next := d.computeMove(current, m);
    if next in closed then [] else [Entry(currentCost + d.moveCost(m) + heuristic(next, goal), next)]
  }

  lemma PushedPrefix<S, M>(d: Domain<S, M>, heuristic: (S, S) -> int, goal: S, closed: set<S>,
                               current: S, currentCost: int, moves: seq<M>, i: nat)
    requires i < |moves|
    ensures Pushed(d, heuristic, goal, closed, current, currentCost, moves[..i + 1]) ==
      Pushed(d, heuristic, goal, closed, current, currentCost, moves[..i]) +
      PushedFor(d, heuristic, goal, closed, current, currentCost, moves[i])
  {
    assert moves[..i + 1][..i] == moves[..i];
  }

  /** Every enqueued entry is a non-closed result of one of the moves, at the
      popped priority plus the move's cost plus the heuristic of the result. */
  lemma {:induction false} PushedSound<S, M>(d: Domain<S, M>, heuristic: (S, S) -> int, goal: S, closed: set<S>,
                                                current: S, currentCost: int, moves: seq<M>)
    ensures forall e :: e in Pushed(d, heuristic, goal, closed, current, currentCost, moves) ==>
      && e.item !in closed
      && exists i :: 0 <= i < |moves| && d.computeMove(current, moves[i]) == e.item &&
                     e.priority == currentCost + d.moveCost(moves[i]) + heuristic(e.item, goal)
    decreases |moves|
  {
    if moves != [] {
      var n := |moves| - 1;
      var prefix := moves[..n];
      PushedSound(d, heuristic, goal, closed, current, currentCost, prefix);
      forall e | e in Pushed(d, heuristic, goal, closed, current, currentCost, moves)
        ensures exists i :: 0 <= i < |moves| && d.computeMove(current, moves[i]) == e.item &&
                            e.priority == currentCost + d.moveCost(moves[i]) + heuristic(e.item, goal)
      {
        if e in Pushed(d, heuristic, goal, closed, current, currentCost, prefix) {
          var i :| 0 <= i < |prefix| && d.computeMove(current, prefix[i]) == e.item &&
                   e.priority == currentCost + d.moveCost(prefix[i]) + heuristic(e.item, goal);
          assert prefix[i] == moves[i];
        } else {
          assert d.computeMove(current, moves[n]) == e.item;
        }
      }
    }
  }

  /** Every move whose result is not closed has its entry enqueued. */
  lemma {:induction false} PushedComplete<S, M>(d: Domain<S, M>, heuristic: (S, S) -> int, goal: S, closed: set<S>,
                                                   current: S, currentCost: int, moves: seq<M>)
    ensures forall i :: 0 <= i < |moves| && d.computeMove(current, moves[i]) !in closed ==>
      var next := d.computeMove(current, moves[i]);
      Entry(currentCost + d.moveCost(moves[i]) + heuristic(next, goal), next) in
        Pushed(d, heuristic, goal, closed, current, currentCost, moves)
    decreases |moves|
  {
    if moves != [] {
      var n := |moves| - 1;
      var prefix := moves[..n];
      PushedComplete(d, heuristic, goal, closed, current, currentCost, prefix);
      forall i | 0 <= i < n && d.computeMove(current, moves[i]) !in closed
        ensures var next := d.computeMove(current, moves[i]);
          Entry(currentCost + d.moveCost(moves[i]) + heuristic(next, goal), next) in
            Pushed(d, heuristic, goal, closed, current, currentCost, moves)
      {
        assert prefix[i] == moves[i];
      }
    }
  }

  /** The predecessor map after recording `current` for each entry of `pushed`, in order. */
  ghost function Recorded<S>(edges: map<S, S>, pushed: seq<Entry<S>>, current: S): map<S, S> {
    if pushed == [] then edges
    else Recorded(edges, pushed[..|pushed| - 1], current)[pushed[|pushed| - 1].item := current]
  }

  lemma RecordedSnoc<S>(edges: map<S, S>, pushed: seq<Entry<S>>, e: Entry<S>, current: S)
    ensures Recorded(edges, pushed + [e], current) == Recorded(edges, pushed, current)[e.item := current]
  {
    assert (pushed + [e])[..|pushed|] == pushed;
  }

  lemma ItemsSnoc<S>(pushed: seq<Entry<S>>, e: Entry<S>)
    ensures Items(multiset(pushed + [e])) == Items(multiset(pushed)) + {e.item}
  {
    assert multiset(pushed + [e]) == multiset(pushed) + multiset{e};
    ItemsUnion(multiset(pushed), multiset{e});
    assert Items(multiset{e}) == {e.item};
  }

  /** The recorded map gives `current` to exactly the enqueued states and keeps every other entry. */
  lemma {:induction false} RecordedEntries<S>(edges: map<S, S>, pushed: seq<Entry<S>>, current: S)
    ensures forall s :: s in Recorded(edges, pushed, current) <==> s in edges || s in Items(multiset(pushed))
    ensures forall s :: s in Recorded(edges, pushed, current) ==>
      Recorded(edges, pushed, current)[s] == (if s in Items(multiset(pushed)) then current else edges[s])
    decreases |pushed|
  {
    if pushed != [] {
      var n := |pushed| - 1;
      RecordedEntries(edges, pushed[..n], current);
      assert pushed == pushed[..n] + [pushed[n]];
      ItemsSnoc(pushed[..n], pushed[n]);
    }
  }

  lemma MultisetConcat<X>(a: seq<X>, b: seq<X>)
    ensures multiset(a + b) == multiset(a) + multiset(b)
  {
  }

  lemma RecordedStep<S>(edges: map<S, S>, a: seq<Entry<S>>, b: seq<Entry<S>>, current: S)
    requires |b| <= 1
    ensures Recorded(edges, a + b, current) == Recorded(Recorded(edges, a, current), b, current)
  {
    if b == [] {
      assert a + b == a;
    } else {
      RecordedSnoc(edges, a, b[0], current);
      assert b == [b[0]];
      assert [b[0]][..0] == [];
    }
  }

  /** One iteration of the inner for loop of solve: skip the result of `m` if
      it is closed, otherwise enqueue it and record `current` as its predecessor. */
  method Offer<S(==), M>(d: Domain<S, M>, heuristic: (S, S) -> int, goal: S, open: PriorityQueue<S>,
                         closed: set<S>, edges: map<S, S>, current: S, currentCost: int, m: M)
    returns (edges': map<S, S>)
    requires open.Valid()
    modifies open
    ensures open.Valid()
    ensures open.Contents() == old(open.Contents()) + multiset(PushedFor(d, heuristic, goal, closed, current, currentCost, m))
    ensures edges' == Recorded(edges, PushedFor(d, heuristic, goal, closed, current, currentCost, m), current)
  {
    var next := d.computeMove(current, m);
    if next in closed {
      edges' := edges;
      return;
    }
    var nextCost := currentCost + d.moveCost(m);
    var h := heuristic(next, goal);
    var entry := Entry(nextCost + h, next);
    open.Enqueue(entry);
    edges' := edges[next := current];
    assert [entry][..0] == [];
  }

  /** The inner for loop of solve, over all moves of `current`. */
  method Expand<S(==), M>(d: Domain<S, M>, heuristic: (S, S) -> int, goal: S, open: PriorityQueue<S>,
                          closed: set<S>, edges: map<S, S>, current: S, currentCost: int)
    returns (edges': map<S, S>)
    requires open.Valid()
    modifies open
    ensures open.Valid()
    ensures open.Contents() ==
      old(open.Contents()) + multiset(Pushed(d, heuristic, goal, closed, current, currentCost, d.getMoves(current)))
    ensures edges' == Recorded(edges, Pushed(d, heuristic, goal, closed, current, currentCost, d.getMoves(current)), current)
  {
    var moves := d.getMoves(current);
    edges' := edges;
    ghost var pushed: seq<Entry<S>> := [];
    ghost var base := open.Contents();
    for i := 0 to |moves|
      invariant pushed == Pushed(d, heuristic, goal, closed, current, currentCost, moves[..i])
      invariant open.Valid() && open.Contents() == base + multiset(pushed)
      invariant edges' == Recorded(edges, pushed, current)
    {
      ghost var step := PushedFor(d, heuristic, goal, closed, current, currentCost, moves[i]);
      PushedPrefix(d, heuristic, goal, closed, current, currentCost, moves, i);
      MultisetConcat(pushed, step);
      RecordedStep(edges, pushed, step, current);
      edges' := Offer(d, heuristic, goal, open, closed, edges', current, currentCost, moves[i]);
      pushed := pushed + step;
    }
    assert pushed == Pushed(d, heuristic, goal, closed, current, currentCost, moves) by {
      assert moves[..|moves|] == moves;
    }
  }

  /** Reverse the order of `s` (list.reverse), swapping from both ends. */
  method Reverse<T>(s: seq<T>) returns (r: seq<T>)
    ensures |r| == |s| && forall i :: 0 <= i < |s| ==> r[i] == s[|s| - 1 - i]
  {
    r := s;
    var i := 0;
    while i < |s| / 2
      invariant 0 <= i <= |s| / 2 && |r| == |s|
      invariant forall k :: 0 <= k < |s| && (k < i || k > |s| - 1 - i) ==> r[k] == s[|s| - 1 - k]
      invariant forall k :: i <= k <= |s| - 1 - i ==> r[k] == s[k]
    {
      r := Swap(r, i, |s| - 1 - i);
      i := i + 1;
    }
  }

  /** retrace_steps: follow the predecessor entries back from `final`, then
      reverse. The result ends with `final`, each state's entry is the state
      before it, and the first state's predecessor has no entry. */
  method RetraceSteps<S(==)>(edges: map<S, S>, final: S, ghost closed: set<S>, ghost rank: map<S, nat>)
    returns (steps: seq<S>)
    requires Ranked(edges, closed, rank) && final in closed
    ensures steps == [] <==> final !in edges
    ensures steps != [] ==> steps[|steps| - 1] == final && steps[0] in edges && edges[steps[0]] !in edges
    ensures forall i :: 0 <= i < |steps| ==> steps[i] in edges && steps[i] in closed
    ensures forall i :: 0 < i < |steps| ==> edges[steps[i]] == steps[i - 1]
  {
    var back: seq<S> := [];
    var c := final;
    while c in edges
      invariant c in closed
      invariant back == [] ==> c == final
      invariant back != [] ==> back[0] == final && back[|back| - 1] in edges && edges[back[|back| - 1]] == c
      invariant forall i :: 0 <= i < |back| ==> back[i] in edges && back[i] in closed
      invariant forall i :: 0 < i < |back| ==> edges[back[i - 1]] == back[i]
      decreases rank[c]
    {
      back := back + [c];
      c := edges[c];
    }
    steps := Reverse(back);
  }

  /** What holds of the search between steps. `open` is the queue's contents;
      the successors of the states in `pending` (closed but not yet expanded)
      need not be covered. */
  ghost predicate SearchInvariant<S, M>(d: Domain<S, M>, start: S, open: multiset<Entry<S>>, closed: set<S>,
                                        edges: map<S, S>, rank: map<S, nat>, clock: nat, pending: set<S>) {
    && (closed != {} ==> start in closed)
    && start !in edges
    && (forall s :: s in Items(open) ==> s == start || s in edges)
    && (forall s :: s in closed ==> s == start || s in edges)
    && Ranked(edges, closed, rank) && (forall s :: s in rank ==> rank[s] < clock)
    && (forall s :: s in edges ==> IsSuccessor(d, edges[s], s))
    && (forall s, i :: s in closed && s !in pending && 0 <= i < |d.getMoves(s)| ==>
          d.computeMove(s, d.getMoves(s)[i]) in closed + Items(open))
  }

  /** Popping `e` and closing its state keeps the invariant, with that state
      pending; states closed earlier keep their rank, so the closing order of
      the growing closed set is fixed. */
  lemma CloseStep<S, M>(d: Domain<S, M>, start: S, open: multiset<Entry<S>>, e: Entry<S>, closed: set<S>,
                        edges: map<S, S>, rank: map<S, nat>, clock: nat, rank': map<S, nat>, clock': nat)
    requires SearchInvariant(d, start, open + multiset{e}, closed, edges, rank, clock, {})
    requires closed == {} ==> e.item == start
    requires e.item in rank ==> rank' == rank && clock' == clock
    requires e.item !in rank ==> rank' == rank[e.item := clock] && clock' == clock + 1
    ensures SearchInvariant(d, start, open, closed + {e.item}, edges, rank', clock', {e.item})
    ensures forall s :: s in closed ==> s in rank' && rank'[s] == rank[s]
  {
    ItemsUnion(open, multiset{e});
    assert e.item in Items(multiset{e});
  }

  /** Every state expanding `current` enqueues is a non-closed successor of it. */
  lemma PushedStatesSound<S, M>(d: Domain<S, M>, heuristic: (S, S) -> int, goal: S, closed: set<S>,
                                current: S, currentCost: int)
    ensures var pushed := Pushed(d, heuristic, goal, closed, current, currentCost, d.getMoves(current));
      forall s :: s in Items(multiset(pushed)) ==> s !in closed && IsSuccessor(d, current, s)
  {
    var moves := d.getMoves(current);
    var pushed := Pushed(d, heuristic, goal, closed, current, currentCost, moves);
    forall s | s in Items(multiset(pushed)) ensures s !in closed && IsSuccessor(d, current, s) {
      var e: Entry<S> :| e in multiset(pushed) && e.item == s;
      assert e in pushed;
      PushedSound(d, heuristic, goal, closed, current, currentCost, moves);
    }
  }

  /** Every non-closed successor of `current` is enqueued when it is expanded. */
  lemma PushedStatesComplete<S, M>(d: Domain<S, M>, heuristic: (S, S) -> int, goal: S, closed: set<S>,
                                   current: S, currentCost: int)
    ensures var pushed := Pushed(d, heuristic, goal, closed, current, currentCost, d.getMoves(current));
      forall s :: s !in closed && IsSuccessor(d, current, s) ==> s in Items(multiset(pushed))
  {
    var moves := d.getMoves(current);
    var pushed := Pushed(d, heuristic, goal, closed, current, currentCost, moves);
    forall s | s !in closed && IsSuccessor(d, current, s) ensures s in Items(multiset(pushed)) {
      var i :| 0 <= i < |moves| && d.computeMove(current, moves[i]) == s;
      var e := Entry(currentCost + d.moveCost(moves[i]) + heuristic(s, goal), s);
      PushedComplete(d, heuristic, goal, closed, current, currentCost, moves);
      assert e in pushed;
      assert e in multiset(pushed);
    }
  }

  /** Pointing non-closed states at a closed state keeps the map ranked. */
  lemma RecordedKeepsRanked<S>(edges: map<S, S>, closed: set<S>, rank: map<S, nat>, pushed: seq<Entry<S>>, current: S)
    requires Ranked(edges, closed, rank) && current in closed
    requires forall s :: s in Items(multiset(pushed)) ==> s !in closed
    ensures Ranked(Recorded(edges, pushed, current), closed, rank)
  {
    RecordedEntries(edges, pushed, current);
  }

  /** Pointing successors of `current` at `current` keeps every entry a successor edge. */
  lemma RecordedKeepsSuccessors<S, M>(d: Domain<S, M>, edges: map<S, S>, pushed: seq<Entry<S>>, current: S)
    requires forall s :: s in edges ==> IsSuccessor(d, edges[s], s)
    requires forall s :: s in Items(multiset(pushed)) ==> IsSuccessor(d, current, s)
    ensures var edges' := Recorded(edges, pushed, current);
      forall s :: s in edges' ==> IsSuccessor(d, edges'[s], s)
  {
    RecordedEntries(edges, pushed, current);
  }

  /** Expanding a state never gives a closed state a new predecessor entry,
      nor changes the entry it has. */
  lemma ExpandLeavesClosedEntries<S, M>(d: Domain<S, M>, heuristic: (S, S) -> int, goal: S, closed: set<S>,
                                        edges: map<S, S>, current: S, currentCost: int)
    ensures var edges' := Recorded(edges, Pushed(d, heuristic, goal, closed, current, currentCost, d.getMoves(current)), current);
      forall s :: s in closed ==> (s in edges' <==> s in edges) && (s in edges ==> edges'[s] == edges[s])
  {
    PushedStatesSound(d, heuristic, goal, closed, current, currentCost);
    RecordedEntries(edges, Pushed(d, heuristic, goal, closed, current, currentCost, d.getMoves(current)), current);
  }

  /** Giving entries only to non-closed states keeps the start without an entry and
      every closed or open state either the start or with an entry. */
  lemma RecordedKeepsDomain<S>(start: S, closed: set<S>, edges: map<S, S>, open: multiset<Entry<S>>,
                               pushed: seq<Entry<S>>, current: S)
    requires start in closed && start !in edges
    requires forall s :: s in closed ==> s == start || s in edges
    requires forall s :: s in Items(open) ==> s == start || s in edges
    requires forall s :: s in Items(multiset(pushed)) ==> s !in closed
    ensures var edges' := Recorded(edges, pushed, current);
      && start !in edges'
      && (forall s :: s in closed ==> s == start || s in edges')
      && (forall s :: s in Items(open + multiset(pushed)) ==> s == start || s in edges')
  {
    RecordedEntries(edges, pushed, current);
    ItemsUnion(open, multiset(pushed));
  }

  /** Once the non-closed successors of `current` are enqueued, every successor
      of a closed state is closed or open. */
  lemma ExpansionCovers<S, M>(d: Domain<S, M>, closed: set<S>, open: multiset<Entry<S>>,
                              pushed: multiset<Entry<S>>, current: S)
    requires forall s, i :: s in closed && s !in {current} && 0 <= i < |d.getMoves(s)| ==>
      d.computeMove(s, d.getMoves(s)[i]) in closed + Items(open)
    requires forall s :: s !in closed && IsSuccessor(d, current, s) ==> s in Items(pushed)
    ensures forall s, i :: s in closed && 0 <= i < |d.getMoves(s)| ==>
      d.computeMove(s, d.getMoves(s)[i]) in closed + Items(open + pushed)
  {
    ItemsUnion(open, pushed);
    forall s, i | s in closed && 0 <= i < |d.getMoves(s)|
      ensures d.computeMove(s, d.getMoves(s)[i]) in closed + Items(open + pushed)
    {
      if s == current {
        assert IsSuccessor(d, current, d.computeMove(s, d.getMoves(s)[i]));
      }
    }
  }

  /** Expanding the pending state keeps the invariant with nothing pending. */
  lemma ExpandStep<S, M>(d: Domain<S, M>, heuristic: (S, S) -> int, goal: S, start: S, open: multiset<Entry<S>>,
                         closed: set<S>, edges: map<S, S>, rank: map<S, nat>, clock: nat, current: S, currentCost: int)
    requires current in closed
    requires SearchInvariant(d, start, open, closed, edges, rank, clock, {current})
    ensures var pushed := Pushed(d, heuristic, goal, closed, current, currentCost, d.getMoves(current));
      SearchInvariant(d, start, open + multiset(pushed), closed, Recorded(edges, pushed, current), rank, clock, {})
  {
    var pushed := Pushed(d, heuristic, goal, closed, current, currentCost, d.getMoves(current));
    PushedStatesSound(d, heuristic, goal, closed, current, currentCost);
    PushedStatesComplete(d, heuristic, goal, closed, current, currentCost);
    RecordedKeepsRanked(edges, closed, rank, pushed, current);
    RecordedKeepsSuccessors(d, edges, pushed, current);
    RecordedKeepsDomain(start, closed, edges, open, pushed, current);
    ExpansionCovers(d, closed, open, multiset(pushed), current);
  }

  /** A retraced chain from the goal, over an invariant-respecting map, is a path from the start. */
  lemma RetracedIsPath<S, M>(d: Domain<S, M>, start: S, open: multiset<Entry<S>>, closed: set<S>,
                             edges: map<S, S>, rank: map<S, nat>, clock: nat, pending: set<S>,
                             final: S, steps: seq<S>)
    requires SearchInvariant(d, start, open, closed, edges, rank, clock, pending) && final in closed
    requires steps == [] <==> final !in edges
    requires steps != [] ==> steps[|steps| - 1] == final && steps[0] in edges && edges[steps[0]] !in edges
    requires forall i :: 0 <= i < |steps| ==> steps[i] in edges
    requires forall i :: 0 < i < |steps| ==> edges[steps[i]] == steps[i - 1]
    ensures IsPath(d, start, steps, final)
  {
    if steps != [] {
      assert edges[steps[0]] == start;
      forall i | 0 < i < |steps| ensures IsSuccessor(d, steps[i - 1], steps[i]) {
        assert steps[i] in edges;
      }
    }
  }

  /** Once the queue is empty, the closed set holds the start and all its
      successors, so a goal never closed is unreachable. */
  lemma ExhaustedMeansUnreachable<S(!new), M>(d: Domain<S, M>, start: S, goal: S, closed: set<S>,
                                             edges: map<S, S>, rank: map<S, nat>, clock: nat)
    requires SearchInvariant(d, start, multiset{}, closed, edges, rank, clock, {})
    requires closed != {} && goal !in closed
    ensures !Reachable(d, start, goal)
  {
    assert Items<S>(multiset{}) == {};
    assert SuccessorClosed(d, closed);
    ClosedSetBlocksGoal(d, closed, start, goal);
  }

  /** AStar.solve, with at most `fuel` iterations of its loop. */
  method Solve<S(==,!new), M>(d: Domain<S, M>, heuristic: (S, S) -> int, start: S, goal: S, fuel: nat)
    returns (r: Outcome<S>)
    ensures r.Solved? ==> IsPath(d, start, r.steps, goal)
    ensures r.Solved? ==> (r.steps == [] <==> start == goal)
    ensures r.NoSolution? ==> !Reachable(d, start, goal)
    ensures start == goal && fuel > 0 ==> r == Solved([])
    ensures fuel == 0 ==> r == OutOfFuel
  {
    var edges: map<S, S> := map[];
    var open := new PriorityQueue<S>();
    open.Enqueue(Entry(0, start));
    var closed: set<S> := {};
    ghost var rank: map<S, nat> := map[];
    ghost var clock: nat := 0;
    var fuelLeft := fuel;
    var isEmpty := open.Empty();
    assert Items(multiset{Entry(0, start)}) == {start};
    while !isEmpty
      invariant fresh(open) && open.Valid()
      invariant isEmpty <==> open.Contents() == multiset{}
      invariant closed == {} ==> open.Contents() == multiset{Entry(0, start)} && edges == map[] && fuelLeft == fuel
      invariant goal !in closed
      invariant fuel == 0 ==> closed == {}
      invariant SearchInvariant(d, start, open.Contents(), closed, edges, rank, clock, {})
      decreases fuelLeft
    {
      if fuelLeft == 0 {
        return OutOfFuel;
      }
      fuelLeft := fuelLeft - 1;
      ghost var oldClosed := closed;
      var e := open.Dequeue();
      var currentCost, current := e.priority, e.item;
      closed := closed + {current};
      ghost var rank', clock' := rank, clock;
      if current !in rank {
        rank', clock' := rank[current := clock], clock + 1;
      }
      CloseStep(d, start, open.Contents(), e, oldClosed, edges, rank, clock, rank', clock');
      rank, clock := rank', clock';
      if current == goal {
        var steps := RetraceSteps(edges, current, closed, rank);
        RetracedIsPath(d, start, open.Contents(), closed, edges, rank, clock, {current}, current, steps);
        return Solved(steps);
      }
      ExpandStep(d, heuristic, goal, start, open.Contents(), closed, edges, rank, clock, current, currentCost);
      edges := Expand(d, heuristic, goal, open, closed, edges, current, currentCost);
      isEmpty := open.Empty();
    }
    ExhaustedMeansUnreachable(d, start, goal, closed, edges, rank, clock);
    return NoSolution;
  }

  /** Djikstra.heuristic: uniform cost search adds 1 to every step. */
  function DjikstraHeuristic<S>(current: S, goal: S): (r: int)
    ensures r == 1
  {
    1
  }
}
