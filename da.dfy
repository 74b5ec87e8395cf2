/** The growable character array of include/da.h: a buffer `items` of
    `capacity` characters whose first `count` hold the contents, and the
    `DA_INSERT` macro that appends one element, doubling the buffer when full. */
module Da {

  /** `DA_INIT_CAP`: the capacity of the first buffer. */
  const DA_INIT_CAP: nat := 32

  /** The capacity `DA_INSERT` leaves behind when it is entered with
      `count` elements in a buffer of `capacity`. */
  function GrownCapacity(count: nat, capacity: nat): (c: nat)
    ensures c >= capacity
    ensures count + 1 <= capacity ==> c == capacity
    ensures count <= capacity ==> count + 1 <= c
  {
    if count + 1 > capacity then
      (if capacity == 0 then DA_INIT_CAP else capacity * 2)
    else
      capacity
  }

  function Pow2(k: nat): nat {
    if k == 0 then 1 else 2 * Pow2(k - 1)
  }

  /** The capacities a buffer that starts out empty can reach: none at all,
      or the initial capacity doubled some number of times. */
  ghost predicate ReachableCapacity(c: nat) {
    c == 0 || exists k: nat :: c == DA_INIT_CAP * Pow2(k)
  }

  /** Growing keeps a capacity among the reachable ones. */
  lemma GrowthKeepsShape(count: nat, capacity: nat)
    requires ReachableCapacity(capacity)
    ensures ReachableCapacity(GrownCapacity(count, capacity))
  {
    if count + 1 > capacity {
      if capacity == 0 {
        assert DA_INIT_CAP == DA_INIT_CAP * Pow2(0);
      } else {
        var k: nat :| capacity == DA_INIT_CAP * Pow2(k);
        assert GrownCapacity(count, capacity) == DA_INIT_CAP * Pow2(k + 1);
      }
    }
  }

  /** The buffer never holds more than twice what it needs once it has grown past
      its initial capacity: at most `DA_INIT_CAP`, or less than twice `count`. */
  ghost predicate Compact(count: nat, capacity: nat) {
    capacity <= DA_INIT_CAP || capacity < 2 * count
  }

  /** An insertion keeps the buffer compact. */
  lemma InsertKeepsCompact(count: nat, capacity: nat)
    requires count <= capacity
    requires Compact(count, capacity)
    ensures Compact(count + 1, GrownCapacity(count, capacity))
  {
  }

  /** `Da_chars`. */
  class DaChars {
    var items: array<char>
    var count: nat
    var capacity: nat

    ghost predicate Valid()
      reads this
    {
      items.Length == capacity && count <= capacity
    }

    /** The elements inserted so far, in order. */
    ghost function Contents(): seq<char>
      reads this, items
      requires Valid()
    {
      items[..count]
    }

    /** A zero-initialised `Da_chars`: no buffer, no elements. */
    constructor ()
      ensures Valid()
      ensures count == 0 && capacity == 0 && Contents() == []
    {
      items := new char[0];
      count := 0;
      capacity := 0;
    }

    /** `DA_INSERT(da, el)`: make room if the buffer is full, keeping the elements
        already there, then store `el` behind them. */
    method Insert(el: char)
      requires Valid()
      modifies this, items
      ensures Valid()
      ensures Contents() == old(Contents()) + [el]
      ensures count == old(count) + 1
      ensures capacity == GrownCapacity(old(count), old(capacity))
      ensures old(count) + 1 <= old(capacity) ==> items == old(items)
      ensures old(count) + 1 > old(capacity) ==> fresh(items)
    {
      if count + 1 > capacity {
        capacity := if capacity == 0 then DA_INIT_CAP else capacity * 2;
        var grown := new char[capacity];
        forall i | 0 <= i < count {
          grown[i] := items[i];
        }
        items := grown;
      }
      items[count] := el;
      count := count + 1;
    }
  }
}
