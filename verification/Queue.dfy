/** The blocking queue shared by the threads.  A blocked call waits for a condition under the lock;
    `Push` and `Pop` are one evaluation of that condition, and say whether they went through. */
module Queue {
  import opened Options

  class CustomQueue<T(!new)> {
    var deque: seq<T>      // front first: elements enter at the front and leave at the back
    var capacity: nat      // 0 means unlimited

    /** The elements, oldest first. */
    ghost function Contents(): (s: seq<T>)
      reads this
    {
      seq(|deque|, i requires 0 <= i < |deque| reads this => deque[|deque| - 1 - i])
    }

    constructor (maxCapacity: nat)
      ensures Contents() == [] && capacity == maxCapacity
    {
      deque := [];
      capacity := maxCapacity;
    }

    method Push(value: T) returns (done: bool)
      modifies this
      ensures done <==> old(capacity) == 0 || |old(Contents())| < old(capacity)
      ensures Contents() == old(Contents()) + (if done then [value] else [])
      ensures capacity == old(capacity)
    {
      done := capacity == 0 || |deque| < capacity;
      if done {
        deque := [value] + deque;
      }
    }

    method Pop() returns (r: Option<T>)
      modifies this
      ensures r.Some? <==> old(Contents()) != []
      ensures r.Some? ==> old(Contents()) == [r.value] + Contents()
      ensures r.None? ==> Contents() == old(Contents())
      ensures capacity == old(capacity)
    {
      if deque == [] {
        r := None;
      } else {
        r := Some(deque[|deque| - 1]);
        deque := deque[..|deque| - 1];
      }
    }

    /** Elements beyond a smaller capacity stay; pushes wait until they are gone. */
    method SetCapacity(newCapacity: nat)
      modifies this
      ensures Contents() == old(Contents()) && capacity == newCapacity
    {
      capacity := newCapacity;
    }
  }
}
