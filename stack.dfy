/**
 * data_struct/Stack.py: a LIFO stack over a list field.
 */
module Stacks {

  class Stack<T> {
    /** The list; its last element is the top of the stack. */
    var items: seq<T>

    constructor ()
      ensures items == []
    {
      items := [];
    }

    /** list.append */
    method Push(x: T)
      modifies this
      ensures items == old(items) + [x]
    {
      items := items + [x];
    }

    /** list.pop(); it fails on an empty list, so the stack must be non-empty. */
    method Pop() returns (x: T)
      requires items != []
      modifies this
      ensures x == old(items)[|old(items)| - 1]
      ensures items == old(items)[..|old(items)| - 1]
      ensures old(items) == items + [x]
    {
      x := items[|items| - 1];
      items := items[..|items| - 1];
    }

    method Empty() returns (b: bool)
      ensures b <==> items == []
    {
      b := |items| == 0;
    }
  }

  /** Popping right after pushing `x` yields `x` and restores the earlier contents. */
  method PushThenPop<T>(s: Stack<T>, x: T) returns (y: T)
    modifies s
    ensures y == x && s.items == old(s.items)
  {
    s.Push(x);
    y := s.Pop();
  }
}
