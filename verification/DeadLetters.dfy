/** The dead-letter queue: a bounded buffer that drops its oldest entry when full. */
module DeadLetters {
  import opened Common

  datatype Entry = Entry(subject: string, payload: string, attempts: nat, timestamp: int, level: string, service: string)

  /** The last `capacity` entries, or all if there are fewer. */
  function Newest(capacity: nat, es: seq<Entry>): seq<Entry> {
    es[|es| - Min(capacity, |es|)..]
  }

  /** A new entry goes to the end and pushes out the oldest one if there is no room. */
  lemma NewestPush(capacity: nat, es: seq<Entry>, e: Entry)
    requires capacity > 0
    ensures Newest(capacity, []) == []
    ensures Newest(capacity, es + [e]) ==
      (if |es| >= capacity then Newest(capacity, es)[1..] else Newest(capacity, es)) + [e]
    ensures |Newest(capacity, es)| == if |es| >= capacity then capacity else |es|
  {
    var more := es + [e];
    if |es| >= capacity {
      var from := |es| - capacity;
      assert Newest(capacity, es) == es[from..];
      assert Newest(capacity, more) == more[from + 1..] == es[from + 1..] + [e];
      assert es[from..][1..] == es[from + 1..];
    } else {
      assert Newest(capacity, es) == es[0..] == es;
      assert Newest(capacity, more) == more[0..] == more;
    }
  }

  class DeadLetterQueue {
    const capacity: nat
    var queue: seq<Entry>
    ghost var pushed: seq<Entry>        // since the last drain or clear

    /** The queue holds the newest of the entries pushed since it was last emptied, in order. */
    ghost predicate Valid()
      reads this
    {
      capacity > 0 && queue == Newest(capacity, pushed)
    }

    constructor (capacity: nat)
      requires capacity > 0
      ensures Valid() && this.capacity == capacity && pushed == []
    {
      this.capacity := capacity;
      queue := [];
      pushed := [];
    }

    method Push(e: Entry)
      requires Valid()
      modifies this
      ensures Valid() && pushed == old(pushed) + [e]
    {
      if |queue| >= capacity {
        queue := queue[1..];
      }
      queue := queue + [e];
      pushed := pushed + [e];
    }

    method Drain() returns (entries: seq<Entry>)
      requires Valid()
      modifies this
      ensures Valid() && pushed == [] && entries == Newest(capacity, old(pushed))
    {
      entries := queue;
      queue := [];
      pushed := [];
    }

    method Clear()
      requires Valid()
      modifies this
      ensures Valid() && pushed == []
    {
      queue := [];
      pushed := [];
    }
  }
}
