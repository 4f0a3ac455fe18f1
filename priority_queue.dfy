/**
 * data_struct/PriorityQueue.py: a min-priority queue of (priority, item)
 * entries kept in a heapq list field.
 */
module PriorityQueues {
  import opened Heapq

  class PriorityQueue<T> {
    /** The heapq list; the abstract contents are its multiset of entries. */
    var heap: seq<Entry<T>>

    ghost predicate Valid()
      reads this
    {
      IsHeap(heap)
    }

    ghost function Contents(): multiset<Entry<T>>
      reads this
    {
      multiset(heap)
    }

    constructor ()
      ensures Valid() && heap == [] && Contents() == multiset{}
    {
      heap := [];
    }

    /** heapq.heappush(self.__heap, item) */
    method Enqueue(e: Entry<T>)
      requires Valid()
      modifies this
      ensures Valid()
      ensures Contents() == old(Contents()) + multiset{e}
      ensures |heap| == old(|heap|) + 1
    {
      heap := HeapPush(heap, e);
    }

    /** heapq.heappop(self.__heap); heappop fails on an empty list, so the queue must be non-empty. */
    method Dequeue() returns (e: Entry<T>)
      requires Valid() && heap != []
      modifies this
      ensures Valid()
      ensures old(Contents()) == Contents() + multiset{e}
      ensures |heap| == old(|heap|) - 1
      ensures forall x :: x in Contents() ==> e.priority <= x.priority
    {
      e, heap := HeapPop(heap);
      forall x | x in multiset(heap) ensures e.priority <= x.priority {
        var i :| 0 <= i < |heap| && heap[i] == x;
      }
    }

    method Empty() returns (b: bool)
      requires Valid()
      ensures b <==> Contents() == multiset{}
      ensures b <==> heap == []
    {
      b := |heap| == 0;
    }
  }
}
